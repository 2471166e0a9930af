/** The opportunities route: the records the dashboard receives, built
    either from freshly scraped articles (scrape mode) or by joining the
    four Google Sheets tabs (Sheets mode). */
module Dashboard {
  import opened Options
  import opened Text
  import opened Sorting
  import Scraper
  import Hunter
  import Sheets
  import opened Detection
  import opened Emails

  datatype Status = Pending | Sent

  /** The JSON fields of one dashboard entry. `None` is a `null` or an
      absent field: a column missing from a sheet reads as `undefined`. */
  datatype ArticleView = ArticleView(
    url: Option<string>, title: Option<string>, summary: Option<string>, publisher: Option<string>,
    category: Option<string>, publishedDate: Option<string>, scrapedAt: Option<string>,
    imageUrl: Option<string>)

  datatype OpportunityView = OpportunityView(
    id: Option<string>, articleUrl: Option<string>, kind: Option<string>, score: int,
    reasoning: Option<string>, detectedAt: Option<string>)

  datatype ContactView = ContactView(
    email: Option<string>, firstName: Option<string>, lastName: Option<string>, jobTitle: Option<string>,
    company: Option<string>, linkedinUrl: Option<string>, apolloId: Option<string>)

  datatype MailView = MailView(subject: Option<string>, body: Option<string>)

  datatype Item = Item(
    article: ArticleView, opportunity: OpportunityView, contact: Option<ContactView>,
    email: Option<MailView>, status: Status)

  // ---------------------------------------------------------------------
  // Scrape mode
  // ---------------------------------------------------------------------

  /** The id of the opportunity found in the article at `index`: `opp-${index + 1}`. */
  function OpportunityId(index: nat): (r: string)
    ensures StartsWith(r, "opp-")
  {
    "opp-" + NatToString(index + 1)
  }

  /** Different article positions give different ids. */
  lemma OpportunityIdInjective(a: nat, b: nat)
    requires OpportunityId(a) == OpportunityId(b)
    ensures a == b
  {
    assert OpportunityId(a)[4..] == NatToString(a + 1);
    assert OpportunityId(b)[4..] == NatToString(b + 1);
    NatToStringInjective(a + 1, b + 1);
  }

  /** The contact fields a scrape-mode entry shows for a Hunter contact. */
  function ScrapedContact(c: Hunter.Contact, publisher: string): ContactView {
    ContactView(Some(c.email), c.firstName, c.lastName, c.position, Some(publisher), c.linkedin, None)
  }

  /** The opportunity detector, `detectOpportunity(title, summary)`. */
  type Detector = (string, string) -> Option<Detected>

  /** The email writer, `generateEmailSuggestion` on a publisher, an
      opportunity type and a contact's first name. */
  type Suggester = (string, string, Option<string>) -> Email

  /** The entry for the article at `index`, when `detect` finds an
      opportunity in it. `contacts` is the publisher-to-contact cache the
      route filled before. */
  function ScrapeEntry(a: Scraper.ScrapedArticle, index: nat, contacts: map<string, Hunter.Contact>,
                       detect: Detector, suggest: Suggester): (r: Option<Item>)
    ensures r.None? <==> detect(a.title, a.summary).None?
    ensures r.Some? ==>
      var d := detect(a.title, a.summary).value;
      && r.value.status == Pending
      && r.value.opportunity == OpportunityView(Some(OpportunityId(index)), Some(a.url), Some(d.kind), d.score,
                                                Some(d.reasoning), Some(a.scrapedAt))
      && r.value.article == ArticleView(Some(a.url), Some(a.title), Some(a.summary), Some(a.publisher), Some(d.kind),
                                        Some(""), Some(a.scrapedAt), a.imageUrl)
      && (r.value.contact.Some? <==> a.publisher in contacts)
      && (a.publisher in contacts ==> r.value.contact == Some(ScrapedContact(contacts[a.publisher], a.publisher)))
      && r.value.email.Some?
  {
    match detect(a.title, a.summary)
    case None => None
    case Some(d) =>
      var contact := if a.publisher in contacts then Some(contacts[a.publisher]) else None;
      var firstName := if contact.Some? then contact.value.firstName else None;
      var mail := suggest(a.publisher, d.kind, firstName);
      Some(Item(
        ArticleView(Some(a.url), Some(a.title), Some(a.summary), Some(a.publisher), Some(d.kind), Some(""),
                    Some(a.scrapedAt), a.imageUrl),
        OpportunityView(Some(OpportunityId(index)), Some(a.url), Some(d.kind), d.score, Some(d.reasoning),
                        Some(a.scrapedAt)),
        if contact.Some? then Some(ScrapedContact(contact.value, a.publisher)) else None,
        Some(MailView(Some(mail.subject), Some(mail.body))),
        Pending))
  }

  /** The suggested email of an entry is written for the article's
      publisher and the detected type, greeting the cached contact. */
  lemma ScrapeEntryEmail(a: Scraper.ScrapedArticle, index: nat, contacts: map<string, Hunter.Contact>,
                         detect: Detector, suggest: Suggester)
    requires detect(a.title, a.summary).Some?
    ensures var mail := suggest(a.publisher, detect(a.title, a.summary).value.kind,
                                if a.publisher in contacts then contacts[a.publisher].firstName else None);
            ScrapeEntry(a, index, contacts, detect, suggest).value.email == Some(MailView(Some(mail.subject), Some(mail.body)))
  {
  }

  /** The entry at each article position, `None` past the end. */
  function EntryAt(articles: seq<Scraper.ScrapedArticle>, contacts: map<string, Hunter.Contact>,
                   detect: Detector, suggest: Suggester): nat -> Option<Item> {
    (j: nat) => if j < |articles| then ScrapeEntry(articles[j], j, contacts, detect, suggest) else None
  }

  /** `articles.map(...).filter(Boolean)`: the entries of the articles with
      an opportunity, in article order. */
  function ScrapeEntries(articles: seq<Scraper.ScrapedArticle>, contacts: map<string, Hunter.Contact>,
                         detect: Detector, suggest: Suggester): seq<Item> {
    Present(EntryAt(articles, contacts, detect, suggest), 0, |articles|)
  }

  /** Which article each entry comes from: strictly increasing positions,
      covering every article in which `detect` finds an opportunity. */
  lemma ScrapeEntriesOrigin(articles: seq<Scraper.ScrapedArticle>, contacts: map<string, Hunter.Contact>,
                            detect: Detector, suggest: Suggester) returns (idx: seq<nat>)
    ensures var r := ScrapeEntries(articles, contacts, detect, suggest);
      && |idx| == |r|
      && (forall p :: 0 <= p < |idx| ==> idx[p] < |articles| &&
                                         ScrapeEntry(articles[idx[p]], idx[p], contacts, detect, suggest) == Some(r[p]))
      && (forall p, q :: 0 <= p < q < |idx| ==> idx[p] < idx[q])
      && (forall j :: 0 <= j < |articles| && detect(articles[j].title, articles[j].summary).Some? ==> j in idx)
  {
    var f := EntryAt(articles, contacts, detect, suggest);
    idx := PresentOrigin(f, 0, |articles|);
    forall j | 0 <= j < |articles| && detect(articles[j].title, articles[j].summary).Some?
      ensures j in idx
    {
      assert f(j).Some?;
    }
  }

  /** No two scrape-mode entries share an id. */
  lemma ScrapeIdsDistinct(articles: seq<Scraper.ScrapedArticle>, contacts: map<string, Hunter.Contact>,
                          detect: Detector, suggest: Suggester)
    ensures var r := ScrapeEntries(articles, contacts, detect, suggest);
            forall p, q :: 0 <= p < q < |r| ==> r[p].opportunity.id != r[q].opportunity.id
  {
    var r := ScrapeEntries(articles, contacts, detect, suggest);
    var idx := ScrapeEntriesOrigin(articles, contacts, detect, suggest);
    forall p, q | 0 <= p < q < |r| ensures r[p].opportunity.id != r[q].opportunity.id {
      if r[p].opportunity.id == r[q].opportunity.id {
        OpportunityIdInjective(idx[p], idx[q]);
      }
    }
  }

  /** The sort key of `opportunities.sort(...)`: the score, highest first.
      `score || 0` is the score itself for every integer score. */
  function ScoreRank(item: Item): Rank {
    Rank(item.opportunity.score, 0)
  }

  /** The sort: a permutation, by non-increasing score, stable among
      entries of equal score. */
  function ByScore(entries: seq<Item>): (r: seq<Item>)
    ensures multiset(r) == multiset(entries)
    ensures forall i, j :: 0 <= i < j < |r| ==> r[i].opportunity.score >= r[j].opportunity.score
    ensures forall k :: WithRank(r, ScoreRank, k) == WithRank(entries, ScoreRank, k)
  {
    var r := SortDesc(entries, ScoreRank);
    assert forall i, j :: 0 <= i < j < |r| ==> !Outranks(ScoreRank(r[j]), ScoreRank(r[i]));
    r
  }

  /** Scrape mode: the keyword table's opportunities in the scraped
      articles, each with its cached contact and suggested email, sorted by
      score. */
  function ScrapeMode(articles: seq<Scraper.ScrapedArticle>, contacts: map<string, Hunter.Contact>): seq<Item> {
    ByScore(ScrapeEntries(articles, contacts, DetectOpportunity, GenerateEmailSuggestion))
  }

  /** Every sorted entry is pending with a suggested email, and is the
      entry of an article in which `detect` finds an opportunity, under that
      article's id. */
  lemma SortedEntriesOrigin(articles: seq<Scraper.ScrapedArticle>, contacts: map<string, Hunter.Contact>,
                            detect: Detector, suggest: Suggester, item: Item) returns (j: nat)
    requires item in ByScore(ScrapeEntries(articles, contacts, detect, suggest))
    ensures item.status == Pending && item.email.Some?
    ensures j < |articles| && detect(articles[j].title, articles[j].summary).Some?
    ensures ScrapeEntry(articles[j], j, contacts, detect, suggest) == Some(item)
    ensures item.opportunity.id == Some(OpportunityId(j))
    ensures item.opportunity.score == detect(articles[j].title, articles[j].summary).value.score
  {
    var entries := ScrapeEntries(articles, contacts, detect, suggest);
    assert item in multiset(entries);
    var idx := ScrapeEntriesOrigin(articles, contacts, detect, suggest);
    var p :| 0 <= p < |entries| && entries[p] == item;
    j := idx[p];
  }

  /** Every article in which `detect` finds an opportunity has its entry
      among the sorted entries. */
  lemma SortedEntriesComplete(articles: seq<Scraper.ScrapedArticle>, contacts: map<string, Hunter.Contact>,
                              detect: Detector, suggest: Suggester, j: nat)
    requires j < |articles| && detect(articles[j].title, articles[j].summary).Some?
    ensures ScrapeEntry(articles[j], j, contacts, detect, suggest).value in
            ByScore(ScrapeEntries(articles, contacts, detect, suggest))
  {
    var entries := ScrapeEntries(articles, contacts, detect, suggest);
    var idx := ScrapeEntriesOrigin(articles, contacts, detect, suggest);
    var p :| 0 <= p < |idx| && idx[p] == j;
    assert entries[p] in multiset(ByScore(entries));
  }

  /** Every scrape-mode entry is pending with a suggested email, scores
      5 to 9, and is the entry of an article in which the table finds an
      opportunity, under that article's id. */
  lemma ScrapeModeEntries(articles: seq<Scraper.ScrapedArticle>, contacts: map<string, Hunter.Contact>)
    ensures forall item :: item in ScrapeMode(articles, contacts) ==>
      && item.status == Pending && item.email.Some? && 5 <= item.opportunity.score <= 9
      && exists j :: 0 <= j < |articles| && DetectOpportunity(articles[j].title, articles[j].summary).Some? &&
                     ScrapeEntry(articles[j], j, contacts, DetectOpportunity, GenerateEmailSuggestion) == Some(item) &&
                     item.opportunity.id == Some(OpportunityId(j))
  {
    forall item | item in ScrapeMode(articles, contacts)
      ensures && item.status == Pending && item.email.Some? && 5 <= item.opportunity.score <= 9
              && exists j :: 0 <= j < |articles| && DetectOpportunity(articles[j].title, articles[j].summary).Some? &&
                             ScrapeEntry(articles[j], j, contacts, DetectOpportunity, GenerateEmailSuggestion) == Some(item) &&
                             item.opportunity.id == Some(OpportunityId(j))
    {
      var j := SortedEntriesOrigin(articles, contacts, DetectOpportunity, GenerateEmailSuggestion, item);
    }
  }

  /** Every article in which the table finds an opportunity has its entry
      in scrape mode. */
  lemma ScrapeModeComplete(articles: seq<Scraper.ScrapedArticle>, contacts: map<string, Hunter.Contact>)
    ensures forall j :: 0 <= j < |articles| && DetectOpportunity(articles[j].title, articles[j].summary).Some? ==>
              ScrapeEntry(articles[j], j, contacts, DetectOpportunity, GenerateEmailSuggestion).value in
              ScrapeMode(articles, contacts)
  {
    forall j | 0 <= j < |articles| && DetectOpportunity(articles[j].title, articles[j].summary).Some?
      ensures ScrapeEntry(articles[j], j, contacts, DetectOpportunity, GenerateEmailSuggestion).value in
              ScrapeMode(articles, contacts)
    {
      SortedEntriesComplete(articles, contacts, DetectOpportunity, GenerateEmailSuggestion, j);
    }
  }

  // ---------------------------------------------------------------------
  // Sheets mode
  // ---------------------------------------------------------------------

  /** `record[key]`: `undefined` when the sheet has no such column. */
  function Field(record: Sheets.Record, key: string): (r: Option<string>)
    ensures r.Some? <==> key in record
    ensures r.Some? ==> r.value == record[key]
  {
    if key in record then Some(record[key]) else None
  }

  predicate ArticleFor(opp: Sheets.Record, a: Sheets.Record) {
    Field(a, "url") == Field(opp, "article_url")
  }

  predicate ContactFor(opp: Sheets.Record, c: Sheets.Record) {
    Field(c, "company") == Field(opp, "article_publisher")
  }

  predicate SentFor(opp: Sheets.Record, e: Sheets.Record) {
    Field(e, "opportunity_id") == Field(opp, "id")
  }

  /** The article fields of a matched Articles row. */
  function SheetArticle(a: Sheets.Record): ArticleView {
    ArticleView(Field(a, "url"), Field(a, "title"), Field(a, "summary"), Field(a, "publisher"),
                OrNull(Field(a, "category")), Field(a, "published_date"), Field(a, "scraped_at"), None)
  }

  /** The article shown when no Articles row has the opportunity's URL. */
  function FallbackArticle(opp: Sheets.Record): ArticleView {
    ArticleView(Field(opp, "article_url"), Field(opp, "article_title"), Some(""), Field(opp, "article_publisher"),
                None, Some(""), Field(opp, "detected_at"), None)
  }

  function SheetContact(c: Sheets.Record): ContactView {
    ContactView(Field(c, "email"), Field(c, "first_name"), Field(c, "last_name"), Field(c, "job_title"),
                Field(c, "company"), OrNull(Field(c, "linkedin_url")), OrNull(Field(c, "apollo_id")))
  }

  /** The first row of `rows` satisfying `p`, at index `i`. */
  predicate FirstRowAt(rows: seq<Sheets.Record>, p: Sheets.Record -> bool, i: int) {
    0 <= i < |rows| && p(rows[i]) && forall j :: 0 <= j < i ==> !p(rows[j])
  }

  /** The article of an opportunity: the first Articles row with its URL,
      else the fallback built from the opportunity itself. */
  function JoinedArticle(opp: Sheets.Record, articles: seq<Sheets.Record>): (r: ArticleView)
    ensures forall j :: FirstRowAt(articles, a => ArticleFor(opp, a), j) ==> r == SheetArticle(articles[j])
    ensures (forall j :: 0 <= j < |articles| ==> !ArticleFor(opp, articles[j])) ==> r == FallbackArticle(opp)
  {
    var article := Find(articles, a => ArticleFor(opp, a));
    assert forall j :: FirstRowAt(articles, a => ArticleFor(opp, a), j) ==> article == Some(articles[j]);
    if article.Some? then SheetArticle(article.value) else FallbackArticle(opp)
  }

  /** The contact of an opportunity: the first Contacts row whose company is
      the opportunity's publisher, else none. */
  function JoinedContact(opp: Sheets.Record, contacts: seq<Sheets.Record>): (r: Option<ContactView>)
    ensures forall j :: FirstRowAt(contacts, c => ContactFor(opp, c), j) ==> r == Some(SheetContact(contacts[j]))
    ensures r.None? <==> forall j :: 0 <= j < |contacts| ==> !ContactFor(opp, contacts[j])
  {
    var contact := Find(contacts, c => ContactFor(opp, c));
    assert forall j :: FirstRowAt(contacts, c => ContactFor(opp, c), j) ==> contact == Some(contacts[j]);
    if contact.Some? then Some(SheetContact(contact.value)) else None
  }

  /** The email of an opportunity: the subject and body of the first Sent
      Emails row with its id, else none. */
  function JoinedEmail(opp: Sheets.Record, sentEmails: seq<Sheets.Record>): (r: Option<MailView>)
    ensures r.None? <==> forall j :: 0 <= j < |sentEmails| ==> !SentFor(opp, sentEmails[j])
    ensures forall j :: FirstRowAt(sentEmails, e => SentFor(opp, e), j) ==>
              r == Some(MailView(Field(sentEmails[j], "email_subject"), Field(sentEmails[j], "email_body")))
  {
    var sent := Find(sentEmails, e => SentFor(opp, e));
    assert forall j :: FirstRowAt(sentEmails, e => SentFor(opp, e), j) ==> sent == Some(sentEmails[j]);
    if sent.Some? then Some(MailView(Field(sent.value, "email_subject"), Field(sent.value, "email_body"))) else None
  }

  /** One Sheets-mode entry: the opportunity's own fields, its joined
      article, contact and email, and `sent` exactly when an email was
      sent for it. `parseScore` stands for `parseInt(score) || 0`. */
  function SheetEntry(opp: Sheets.Record, articles: seq<Sheets.Record>, contacts: seq<Sheets.Record>,
                      sentEmails: seq<Sheets.Record>, parseScore: Option<string> -> int): (r: Item)
    ensures r.status == Sent <==> exists j :: 0 <= j < |sentEmails| && SentFor(opp, sentEmails[j])
    ensures r.email.None? <==> r.status == Pending
    ensures r.opportunity == OpportunityView(Field(opp, "id"), Field(opp, "article_url"), Field(opp, "opportunity_type"),
                                             parseScore(Field(opp, "score")), Field(opp, "reasoning"),
                                             Field(opp, "detected_at"))
    ensures r.article == JoinedArticle(opp, articles)
    ensures r.contact == JoinedContact(opp, contacts)
    ensures r.email == JoinedEmail(opp, sentEmails)
  {
    var email := JoinedEmail(opp, sentEmails);
    Item(
      JoinedArticle(opp, articles),
      OpportunityView(Field(opp, "id"), Field(opp, "article_url"), Field(opp, "opportunity_type"),
                      parseScore(Field(opp, "score")), Field(opp, "reasoning"), Field(opp, "detected_at")),
      JoinedContact(opp, contacts),
      email,
      if email.Some? then Sent else Pending)
  }

  /** Sheets mode: the four tabs as records, the opportunities kept by the
      recency test `isRecent` (the seven-day window), each joined. */
  function SheetsMode(articleRows: seq<seq<string>>, opportunityRows: seq<seq<string>>,
                      contactRows: seq<seq<string>>, sentRows: seq<seq<string>>,
                      isRecent: Sheets.Record -> bool, parseScore: Option<string> -> int): (r: seq<Item>)
    ensures var recent := Filter(Sheets.RowsToObjects(opportunityRows), isRecent);
      && |r| == |recent|
      && forall i :: 0 <= i < |r| ==>
           && r[i] == SheetEntry(recent[i], Sheets.RowsToObjects(articleRows), Sheets.RowsToObjects(contactRows),
                                 Sheets.RowsToObjects(sentRows), parseScore)
           && r[i].opportunity.id == Field(recent[i], "id")
           && (r[i].status == Sent <==>
                 exists e :: e in Sheets.RowsToObjects(sentRows) && SentFor(recent[i], e))
  {
    var articles := Sheets.RowsToObjects(articleRows);
    var contacts := Sheets.RowsToObjects(contactRows);
    var sentEmails := Sheets.RowsToObjects(sentRows);
    var recent := Filter(Sheets.RowsToObjects(opportunityRows), isRecent);
    var r := seq(|recent|, i requires 0 <= i < |recent| => SheetEntry(recent[i], articles, contacts, sentEmails, parseScore));
    assert forall i :: 0 <= i < |r| ==>
      ((exists e :: e in sentEmails && SentFor(recent[i], e)) <==>
       (exists j :: 0 <= j < |sentEmails| && SentFor(recent[i], sentEmails[j])));
    r
  }

  // ---------------------------------------------------------------------
  // Choice of the data source
  // ---------------------------------------------------------------------

  datatype Source = DemoSource | ScrapeSource | SheetsSource

  /** Which mode the route serves, from the `DEMO_MODE`, `SCRAPE_MODE` and
      `GOOGLE_SHEET_ID` settings (`None` when unset). The demo flag wins;
      the sheets are read only when scraping is not forced and a sheet id
      is set and non-empty. */
  function DataSource(demoMode: Option<string>, scrapeMode: Option<string>, sheetId: Option<string>): (r: Source)
    ensures r == DemoSource <==> demoMode == Some("true")
    ensures r == SheetsSource <==>
              demoMode != Some("true") && scrapeMode != Some("true") && sheetId.Some? && sheetId.value != ""
    ensures r == ScrapeSource <==>
              demoMode != Some("true") && (scrapeMode == Some("true") || sheetId.None? || sheetId.value == "")
  {
    if demoMode == Some("true") then DemoSource
    else if scrapeMode == Some("true") || sheetId.GetOr("") == "" then ScrapeSource
    else SheetsSource
  }
}
