# Union Presse dashboard: the opportunities pipeline in Dafny

The dashboard lists sales opportunities for a press-automation agency. The
opportunities route builds its entries in one of three ways:

- **Demo mode.** It joins a fixed demo data set.
- **Scrape mode.** It scrapes the Union Presse home page and deduplicates the
  articles by URL. It guesses each article's publisher from the title. It
  scans the lower-cased "title summary" text against an ordered keyword table
  to find an opportunity type, a score and a reasoning. It resolves the
  publisher to a domain and picks a contact from the Hunter domain search. It
  writes a cold email from a per-type template. Finally it sorts the entries
  by score.
- **Sheets mode.** It reads four Google Sheets tabs as header-keyed records.
  It keeps the opportunities of the last seven days and joins each one with
  its article, its contact and its sent email.

The model is pure functions over immutable data:

| module | models |
|---|---|
| `Options` | `Option`, `findIndex`/`find`, `filter`, and `map(...).filter(Boolean)` |
| `Text` | `toLowerCase` (ASCII and Latin-1), `includes`, `trim`, `slice(0, n)`, decimal numbers |
| `Sorting` | a stable sort, descending by a two-level rank |
| `Hunter` | the publisher-domain registry, contact admission and ranking, `findBestContact` |
| `Scraper` | one article card, `extractPublisher`, URL deduplication |
| `Sheets` | `rowsToObjects` |
| `Detection` | `detectOpportunity` |
| `Emails` | `generateEmailSuggestion` |
| `Dashboard` | the route: both modes and the choice between them |
| `DemoData` | the demo data set and `getDemoOpportunities` |

`HunterExamples` and `DetectionExamples` prove facts about the concrete tables.

I/O is not modelled; each piece becomes a parameter:

- The HTML selectors' output is a sequence of `Element`s.
- The Hunter search is a function from a domain to raw contacts.
- The scraper's clock is a `Clock`, the time read for the card at each
  page position (the code calls `new Date()` once per card). The
  seven-day window is an `isRecent` predicate.
- `parseInt(...) || 0` is a `parseScore` function.
- The contacts cache is a map from publisher to contact.

## Model

| member | source | states |
|---|---|---|
| Options.PresentOrigin | src/app/api/opportunities/route.ts:253-299 | `map((x, index) => ...).filter(Boolean)` keeps, in order, exactly the non-null results: an increasing list of source positions, each giving its entry, covering every position with a result |
| Options.PresentIff | src/app/api/opportunities/route.ts:253-299 | a value is collected iff some position in range yields it |
| Options.Filter | src/app/api/opportunities/route.ts:328-331 | `filter` keeps only elements satisfying the test, and keeps every such element |
| Options.FilterOrigin | src/app/api/opportunities/route.ts:328-331 | the kept elements are the input's elements at strictly increasing positions, covering every position that passes the test: order and multiplicity are kept |
| Options.FirstIndex | src/app/api/opportunities/route.ts:334-336 | `find`/`findIndex`: none iff no element satisfies the test; otherwise the first satisfying index |
| Text.Trim | src/lib/scraper.ts:38 | `trim()` is the slice between leading and trailing white space (JavaScript white space set): no space at either end, empty iff the text is all spaces |
| Text.TrimIdempotent | src/lib/scraper.ts:38 | trimming twice is trimming once |
| Text.Take | src/lib/scraper.ts:46 | `slice(0, 300)` is a prefix of at most 300 characters, the whole text when it is short enough, exactly 300 otherwise |
| Text.ContainsIff | src/app/api/opportunities/route.ts:98 | `includes` holds iff the keyword occurs at some offset |
| Text.NatToStringInjective | src/app/api/opportunities/route.ts:273 | the decimal rendering of `index + 1` identifies the number |
| Sorting.SortDesc | src/lib/hunter.ts:110-115 | the sort is a permutation, non-increasing by rank, and stable (elements of equal rank keep their input order) |
| Sorting.SortUnique | src/lib/hunter.ts:110-115 | two sequences that are rank-sorted and agree on the order within every rank are equal, so a stable sort's output is fully determined |
| Hunter.LookupDomain | src/lib/hunter.ts:50-65 | an exact key with a non-empty domain gives that domain; otherwise the first registry entry related to the publisher (either lower-cased name contains the other) decides; none iff no entry is related |
| HunterExamples.FallbackDecides | src/lib/hunter.ts:57-62 | with no exact key, the first related entry's domain is returned |
| HunterExamples.ExactKeyResolves | src/lib/hunter.ts:34 | "Le Figaro" resolves to "lefigaro.fr" by the direct match |
| HunterExamples.PartialNameResolves | src/lib/hunter.ts:57-62 | "figaro" is no key and is unrelated to the ten earlier names, so it resolves through "Le Figaro" to "lefigaro.fr" |
| HunterExamples.EmptyNameResolvesToFirstEntry | src/lib/hunter.ts:24 | the empty name is contained in every name, so it resolves to the first entry's domain |
| Options.OrNull | src/lib/hunter.ts:94-100 | `x \|\| null`: an empty string becomes null, any other value is kept (also the Sheets join's `category`, `linkedin_url` and `apollo_id`) |
| Hunter.AdmitContacts | src/lib/hunter.ts:90-101 | exactly the raw contacts with confidence at least 50 are admitted, each normalised |
| Hunter.AdmitOrigin | src/lib/hunter.ts:90-101 | the admitted contacts are the normalised confident records in API order, one per record, covering every confident record |
| Hunter.SeniorityRank | src/lib/hunter.ts:104-112 | executive 3, senior 2, junior 1, anything else (missing included) 0 |
| Hunter.RankContacts | src/lib/hunter.ts:90-115 | the admitted contacts, most senior first, ties by higher confidence, full ties in API order |
| Hunter.Preferred | src/lib/hunter.ts:146-152 | the department scan: none iff no contact belongs to any remaining department; otherwise the first contact of the first department that has one |
| Hunter.SelectContact | src/lib/hunter.ts:143-155 | the chosen contact is in the list; when some department of sales, marketing, executive, communication has a member, it is the first member of the earliest such department; otherwise it is the head of the list |
| Hunter.ChosenAtUnique | src/lib/hunter.ts:146-152 | the department scan settles on a single department and a single contact |
| Hunter.BestContactAt | src/lib/hunter.ts:130-155 | null iff the publisher has no domain, its domain is empty, or the domain search admits no contact; otherwise the department selection over the ranked, non-empty list, with confidence at least 50 |
| Hunter.FindBestContact | src/lib/hunter.ts:129-156 | the returned contact, if any, was admitted (confidence at least 50) |
| Scraper.CapitalisedPrefix | src/lib/scraper.ts:104 | the match of the capitalised-words expression: empty iff the title does not start with a capital, otherwise a capitalised run that cannot be extended |
| Scraper.CapitalisedPrefixUnique | src/lib/scraper.ts:104 | any maximal capitalised run at the start of the title is the computed match, so the greedy match is the expression's |
| Scraper.ExtractPublisherFrom | src/lib/scraper.ts:97-109 | the first known publisher the title mentions, case-insensitively; else the capitalised prefix when longer than two characters; else "Non identifié" |
| Scraper.ExtractedShape | src/lib/scraper.ts:97-109 | the result is a known publisher, a capitalised run of more than two characters, or "Non identifié" |
| Scraper.ExtractPublisher | src/lib/scraper.ts:80-110 | over the scraper's list, the publisher is never empty |
| Scraper.UpperCaseDuplicatesNeverReturned | src/lib/scraper.ts:85-94 | "ELLE" and "GEO" are dead entries: "Elle" and "Geo" come earlier and match every title they would match |
| Scraper.ElleCaptures | src/lib/scraper.ts:85 | a title containing "elle" in any case (as in "nouvelle") is attributed to "Elle" or to an earlier entry |
| Scraper.Resolve | src/lib/scraper.ts:43 | a URL is kept when it starts with "http" and is prefixed with the base address otherwise; over an http base the result always starts with "http" |
| Scraper.ParseElement | src/lib/scraper.ts:37-61 | a card is skipped iff its trimmed title or its href is empty or missing; otherwise the absolute url, the trimmed title, the trimmed summary cut to its first 300 characters, the publisher named by the title, the absolute image URL only when `src` is present and non-empty, and the time read for that card |
| Scraper.CollectArticles | src/lib/scraper.ts:33-62 | an article is collected iff some card parses to it, with that card's time |
| Scraper.CollectOrigin | src/lib/scraper.ts:33-62 | the collected articles are those of the cards that pass the guard, in page order, one per card |
| Scraper.KeepFirstComplete | src/lib/scraper.ts:65-70 | the first article with each URL is kept |
| Scraper.KeepFirstSound | src/lib/scraper.ts:65-70 | every kept article is the first with its URL |
| Scraper.KeepFirstOrder | src/lib/scraper.ts:65-70 | the kept articles appear in their original order |
| Scraper.KeepFirstDistinct | src/lib/scraper.ts:65-70 | no two kept articles share a URL |
| Scraper.KeepFirstUrls | src/lib/scraper.ts:65-70 | deduplication loses no URL |
| Scraper.DedupeByUrl | src/lib/scraper.ts:65-70 | the seen-set loop computes the reference first-occurrence deduplication |
| Scraper.ScrapeCards | src/lib/scraper.ts:33-70 | the keep-first de-duplication of the collected articles, so distinct URLs in page order, and only articles some card parses to |
| Scraper.ScrapeUnionPresse | src/lib/scraper.ts:14-72 | with the scraper's publisher extraction: the keep-first de-duplication of the collected articles, with distinct URLs each starting with "http", non-empty titles and publishers, and a time read for some card |
| Sheets.Cell | src/lib/google-sheets.ts:44 | `row[index] \|\| ''`: the cell when present, "" past the end of the row |
| Sheets.RecordKeys | src/lib/google-sheets.ts:43-45 | a record's keys are exactly the header names |
| Sheets.RecordValues | src/lib/google-sheets.ts:43-45 | a repeated header keeps the value of its last column |
| Sheets.RowsToObjects | src/lib/google-sheets.ts:37-48 | nothing under two rows; otherwise one record per data row, in order, keyed by the header row, each name mapped to the cell of its last column |
| Sheets.RowToRecordTruncates | src/lib/google-sheets.ts:43-45 | cells right of the last header are never read |
| Detection.DetectIn | src/app/api/opportunities/route.ts:97-107 | null iff no row has a keyword in the text; otherwise the first matching row's type, score and reasoning |
| Detection.DetectOpportunity | src/app/api/opportunities/route.ts:48-108 | the same over the route's table and the lowered "title summary" text; a detected score is between 5 and 9 and its type is one of the seven |
| Detection.EarlierRowWins | src/app/api/opportunities/route.ts:97-105 | row order decides, not score: when two rows match, the result comes from the earlier one or a row before it |
| DetectionExamples.RecruitmentBeatsDigital | src/app/api/opportunities/route.ts:52-95 | "Recrute digital" is a recruitment opportunity (score 7), although "digital" matches a score-9 row |
| DetectionExamples.JoInsideAWord | src/app/api/opportunities/route.ts:78 | "Aujourd'hui" is an event opportunity: the keyword "jo" occurs inside the word |
| Emails.Greeting | src/app/api/opportunities/route.ts:117-118 | "Bonjour," iff there is no first name; otherwise "Bonjour " followed by the name and a comma |
| Emails.GreetingInjective | src/app/api/opportunities/route.ts:118 | the greeting identifies the first name it was built from |
| Emails.Render | src/app/api/opportunities/route.ts:121-218 | every subject starts with the publisher and " - "; every body starts with the greeting and ends with the signature |
| Emails.SelectTemplate | src/app/api/opportunities/route.ts:220 | the template of the first entry keyed by the type, else the fallback |
| Emails.GenerateEmailSuggestion | src/app/api/opportunities/route.ts:111-221 | the subject names the publisher; the body opens with the contact's greeting and closes with the signature |
| Emails.TemplateKeys | src/app/api/opportunities/route.ts:121-218 | eight distinct keys: the seven opportunity types and "default" |
| Emails.KnownTypeUsesItsTemplate | src/app/api/opportunities/route.ts:220 | a type that is a key gets its own template |
| Emails.UnknownTypeGetsDefault | src/app/api/opportunities/route.ts:220 | any other type gets the "default" email |
| Dashboard.OpportunityIdInjective | src/app/api/opportunities/route.ts:273 | different article positions give different "opp-N" ids |
| Dashboard.ScrapeEntry | src/app/api/opportunities/route.ts:254-297 | an entry exists iff an opportunity is detected; it is pending, carries id "opp-(index+1)", the article's own fields with the detected type as category and an empty published date, the detected type, score and reasoning, and the cached contact of the publisher (company = publisher) iff there is one |
| Dashboard.ScrapeEntryEmail | src/app/api/opportunities/route.ts:258-259 | the suggested email is written for the publisher and detected type, greeting the cached contact's first name |
| Dashboard.ScrapeEntriesOrigin | src/app/api/opportunities/route.ts:253-299 | the entries come from strictly increasing article positions and cover every article with an opportunity |
| Dashboard.ScrapeIdsDistinct | src/app/api/opportunities/route.ts:273 | no two entries share an id |
| Dashboard.ByScore | src/app/api/opportunities/route.ts:302 | the sort is a permutation, by non-increasing score, stable among equal scores |
| Dashboard.SortedEntriesOrigin | src/app/api/opportunities/route.ts:253-302 | for any detector and email writer, every sorted entry is pending with an email, and is the entry of an article with an opportunity, under that article's id and with its detected score |
| Dashboard.SortedEntriesComplete | src/app/api/opportunities/route.ts:253-302 | for any detector and email writer, every article with an opportunity has its entry among the sorted entries |
| Dashboard.ScrapeModeEntries | src/app/api/opportunities/route.ts:253-302 | every returned entry is pending, has an email and a score from 5 to 9, and is the entry of an article with an opportunity under that article's id |
| Dashboard.ScrapeModeComplete | src/app/api/opportunities/route.ts:253-302 | every article with an opportunity has its entry among the returned ones |
| Dashboard.Field | src/app/api/opportunities/route.ts:333-377 | reading a sheet column gives `undefined` iff the column is absent |
| Dashboard.JoinedArticle | src/app/api/opportunities/route.ts:334-355 | the first Articles row with the opportunity's URL, else the fallback built from the opportunity |
| Dashboard.JoinedContact | src/app/api/opportunities/route.ts:335-372 | the first Contacts row whose company is the opportunity's publisher; null iff there is none |
| Dashboard.JoinedEmail | src/app/api/opportunities/route.ts:336-376 | the first Sent_Emails row with the opportunity's id; null iff there is none |
| Dashboard.SheetEntry | src/app/api/opportunities/route.ts:333-378 | status sent iff a sent email has the opportunity's id; no email iff pending; the opportunity's own fields; the joined article, contact and email |
| Dashboard.SheetsMode | src/app/api/opportunities/route.ts:320-379 | one entry per recent opportunity, in their order, each the joined entry of that opportunity, carrying its id, sent iff some sent-email record has its id |
| Dashboard.DataSource | src/app/api/opportunities/route.ts:225-231 | demo iff DEMO_MODE is "true"; sheets iff neither flag is set and a sheet id is non-empty; scrape otherwise |
| DemoData.JoinArticle | src/lib/demo-data.ts:142-155 | the first demo article with the opportunity's URL, else the fallback |
| DemoData.JoinContact | src/lib/demo-data.ts:143-164 | the first demo contact of the opportunity's publisher; null iff none |
| DemoData.JoinEmail | src/lib/demo-data.ts:144-165 | the first demo email with the opportunity's id; null iff none |
| DemoData.DemoEntry | src/lib/demo-data.ts:146-167 | always pending, with the opportunity's own fields and its joined article, contact and email |
| DemoData.DemoOpportunities | src/lib/demo-data.ts:140-169 | one pending entry per opportunity, in order, with its id; entry i is the joined entry of opportunity i |
| DemoData.AlignedJoin | src/lib/demo-data.ts:140-169 | over tables aligned by position, each entry joins its own article, contact and email, and stays pending |
| DemoData.DemoUrlsAligned | src/lib/demo-data.ts:4-65 | the i-th demo opportunity's URL is the i-th demo article's and no other's |
| DemoData.DemoPublishersAligned | src/lib/demo-data.ts:34-95 | the i-th demo opportunity's publisher is the i-th demo contact's company and no other's |
| DemoData.DemoIdsAligned | src/lib/demo-data.ts:34-137 | the i-th demo opportunity's id is the i-th demo email's and no other's |
| DemoData.DemoEntriesComplete | src/lib/demo-data.ts:3-169 | each of the three demo entries has its article, its contact and its email, yet is pending |

## Left out

- Network and parsing are not modelled. This covers the page fetch, the HTML parser and its selectors, the Hunter HTTP call and API key, the Sheets client, and the route's JSON response. Each becomes an input, as listed above. In the Hunter search, a missing API key, a failed request or an answer without data becomes an empty search result, which the search function can return.
- The route falls back to the demo data when its data source throws, and this is not modelled because throwing is I/O. In scrape mode this is a failed page fetch (src/app/api/opportunities/route.ts:305-308). In Sheets mode it is any error reading the tabs (route.ts:382-386): missing credentials (src/lib/google-sheets.ts:8-10), a missing sheet id (google-sheets.ts:24-26), or a failed Sheets API call. `SheetsMode` models only the successful read; an absent `values` field is an empty sheet.
- `scrapeArticleDetails` (src/lib/scraper.ts, after line 112) is not called by the route, so it is not modelled.
- The contacts cache is an input map from publisher to contact. Three things about how the route fills it are not modelled:
  - it is filled in parallel;
  - only the first ten distinct publishers are looked up;
  - the `contactsCache[domain]` guard never fires, because the cache is keyed by publisher, not by domain.
- The relevance fields of a scraped contact are not modelled. The route reads `relevance_score`, `relevance_reason`, `is_recommended` and `is_large_company` from a Hunter contact that has none of them, so they are always undefined. Likewise, no relevance scorer exists in the code, so none is modelled.
- Hunter.FindBestContact: its ensures state only that the contact was admitted. The full contract, including the department selection, is on `BestContactAt`, which `FindBestContact` applies to the registry's domain.
- Text.Lower: lower-cases only ASCII capitals and the Latin-1 capitals U+00C0–U+00DE (except U+00D7). JavaScript's full Unicode case mapping and UTF-16 code units are not modelled.
- JavaScript object-key lookups are modelled as lookups in a plain table. In the code, `templates[type]`, `PUBLISHER_DOMAINS[name]`, `seniorityOrder[...]` and `contactsCache[publisher]` also find inherited keys such as "constructor".
- `score || 0` in the sort is the score itself, because scores are integers. `parseInt` is the `parseScore` parameter.
- The dashboard page, its average score, and the send-email, send-sequence, track, ignore and scrape routes are outside the core.
