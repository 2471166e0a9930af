/** The pure steps of the Union Presse scraper: turning one parsed article
    card into an article (guard, URL absolutisation, summary cut, publisher
    extraction) and the keep-first de-duplication by URL. Fetching the page
    and the CSS selectors are outside the model; each card arrives as an
    `Element` holding the texts and attributes the selectors picked out. */
module Scraper {
  import opened Options
  import opened Text

  const SiteBase: string := "https://www.unionpresse.fr"

  /** The publishers recognised in titles, in scan order. The list is
      written as two halves only to keep literal reasoning shallow. */
  const KnownPublishers: seq<string> := PublishersFirstHalf + PublishersSecondHalf

  const PublishersFirstHalf: seq<string> := [
    "Auto Plus", "Haute Fidélité", "Libération", "Premiere", "AUTOhebdo", "L'Equipe",
    "L'Équipe", "Voyages & Hôtels de Rêve", "Le Figaro", "Le Monde", "Paris Match",
    "Marie Claire", "Elle", "GQ", "Vogue", "Ouest-France", "Le Parisien", "Les Echos",
    "La Tribune", "Capital", "Challenges", "L'Express", "Le Point", "Marianne", "Télérama",
    "Courrier International", "Sciences et Avenir", "Ca m'intéresse"
  ]

  const PublishersSecondHalf: seq<string> := [
    "Ça m'intéresse", "Geo",
    "GEO", "National Geographic", "Historia", "Première", "Téléstar", "Télé 7 Jours",
    "TV Magazine", "Grazia", "Closer", "Voici", "Gala", "Public", "France Football", "So Foot",
    "Rock & Folk", "Les Inrockuptibles", "Technikart", "Beaux Arts", "Connaissance des Arts",
    "Art Press", "Reworld Media", "Prisma Media", "Alternatives Economiques", "Marie France",
    "ELLE", "Harper's Bazaar"
  ]

  const Unidentified: string := "Non identifié"

  // ---------------------------------------------------------------------
  // The capitalised-prefix regular expression
  //   ^([A-ZÀ-Ÿ][a-zà-ÿ]*(?:\s+[A-ZÀ-Ÿ][a-zà-ÿ]*)*)
  // ---------------------------------------------------------------------

  /** The class `[A-ZÀ-Ÿ]`: U+00C0..U+0178 also holds the lowercase à..ÿ. */
  predicate IsCapital(c: char) {
    ('A' <= c <= 'Z') || ('\U{00C0}' <= c <= '\U{0178}')
  }

  /** The class `[a-zà-ÿ]`. */
  predicate IsSmall(c: char) {
    ('a' <= c <= 'z') || ('\U{00E0}' <= c <= '\U{00FF}')
  }

  /** `s` is a word of the expression's language: a capital, then small
      letters, and every later run of spaces followed by a capital. */
  predicate IsCapitalisedRun(s: string) {
    |s| > 0 && IsCapital(s[0]) && !IsSpace(s[|s| - 1]) &&
    forall k :: 0 < k < |s| ==>
      IsSpace(s[k]) ||
      (IsSpace(s[k - 1]) && IsCapital(s[k])) ||
      (!IsSpace(s[k - 1]) && IsSmall(s[k]))
  }

  /** The run ending before `n` cannot be continued by one more small
      letter, nor by spaces followed by a capital. */
  predicate CannotExtend(t: string, n: nat)
    requires n <= |t|
  {
    (n == |t| || !IsSmall(t[n])) &&
    var w := LeadingSpaces(t[n..]);
    !(w > 0 && n + w < |t| && IsCapital(t[n + w]))
  }

  /** The number of small letters at the start of `t[from..]`. */
  function SmallRun(t: string, from: nat): (n: nat)
    requires from <= |t|
    ensures from + n <= |t|
    ensures forall k :: from <= k < from + n ==> IsSmall(t[k])
    ensures from + n == |t| || !IsSmall(t[from + n])
    decreases |t| - from
  {
    if from < |t| && IsSmall(t[from]) then 1 + SmallRun(t, from + 1) else 0
  }

  /** Appending the small letters that follow keeps a run a run. */
  lemma SmallLettersExtend(t: string, n: nat, m: nat)
    requires 0 < n <= m <= |t| && IsCapitalisedRun(t[..n])
    requires forall k :: n <= k < m ==> IsSmall(t[k])
    ensures IsCapitalisedRun(t[..m])
  {
    forall k | 0 < k < m ensures
      IsSpace(t[..m][k]) || (IsSpace(t[..m][k - 1]) && IsCapital(t[..m][k])) ||
      (!IsSpace(t[..m][k - 1]) && IsSmall(t[..m][k]))
    {
      if k >= n {
        if k == n {
          assert !IsSpace(t[..n][n - 1]);
        } else {
          assert IsSmall(t[k - 1]);
        }
      } else {
        assert t[..m][k] == t[..n][k] && t[..m][k - 1] == t[..n][k - 1];
      }
    }
    if m > n {
      assert IsSmall(t[m - 1]);
    } else {
      assert t[..m][m - 1] == t[..n][n - 1];
    }
  }

  /** Appending spaces and one capital keeps a run a run. */
  lemma SpacedCapitalExtends(t: string, n: nat, w: nat)
    requires 0 < n && n + w < |t| && IsCapitalisedRun(t[..n])
    requires forall k :: n <= k < n + w ==> IsSpace(t[k])
    requires w > 0 && IsCapital(t[n + w]) && !IsSpace(t[n + w])
    ensures IsCapitalisedRun(t[..n + w + 1])
  {
    var m := n + w + 1;
    forall k | 0 < k < m ensures
      IsSpace(t[..m][k]) || (IsSpace(t[..m][k - 1]) && IsCapital(t[..m][k])) ||
      (!IsSpace(t[..m][k - 1]) && IsSmall(t[..m][k]))
    {
      if k < n {
        assert t[..m][k] == t[..n][k] && t[..m][k - 1] == t[..n][k - 1];
      }
    }
  }

  /** The leading spaces of a suffix, read in the whole string. */
  lemma SpacesAt(t: string, n: nat)
    requires n <= |t|
    ensures forall k :: n <= k < n + LeadingSpaces(t[n..]) ==> IsSpace(t[k])
    ensures n + LeadingSpaces(t[n..]) < |t| ==> !IsSpace(t[n + LeadingSpaces(t[n..])])
  {
    var w := LeadingSpaces(t[n..]);
    forall k | n <= k < n + w ensures IsSpace(t[k]) {
      assert t[n..][k - n] == t[k];
    }
    if n + w < |t| {
      assert t[n..][w] == t[n + w];
    }
  }

  /** The greedy continuation of a run that ends (non-space) before `n`. */
  function ExtendRun(t: string, n: nat): (m: nat)
    requires 0 < n <= |t| && IsCapitalisedRun(t[..n])
    ensures n <= m <= |t| && IsCapitalisedRun(t[..m]) && CannotExtend(t, m)
    decreases |t| - n
  {
    var n' := n + SmallRun(t, n);
    SmallLettersExtend(t, n, n');
    var w := LeadingSpaces(t[n'..]);
    SpacesAt(t, n');
    if w > 0 && n' + w < |t| && IsCapital(t[n' + w]) then
      SpacedCapitalExtends(t, n', w);
      ExtendRun(t, n' + w + 1)
    else
      n'
  }

  /** The length of the expression's match at the start of `t`, 0 when the
      first character is not a capital. */
  function CapitalisedPrefix(t: string): (n: nat)
    ensures n <= |t|
    ensures n == 0 <==> |t| == 0 || !IsCapital(t[0])
    ensures n > 0 ==> n <= |t| && IsCapitalisedRun(t[..n]) && CannotExtend(t, n)
  {
    if |t| > 0 && IsCapital(t[0]) then
      assert !IsSpace(t[0]);
      ExtendRun(t, 1)
    else 0
  }

  /** A run strictly inside a longer run can be extended. */
  lemma RunExtends(t: string, n1: nat, n2: nat)
    requires 0 < n1 < n2 <= |t|
    requires IsCapitalisedRun(t[..n1]) && IsCapitalisedRun(t[..n2])
    ensures !CannotExtend(t, n1)
  {
    assert t[..n2][n1] == t[n1] && t[..n2][n1 - 1] == t[..n1][n1 - 1];
    if !IsSmall(t[n1]) {
      assert IsSpace(t[n1]);
      SpacesAt(t, n1);
      var w := LeadingSpaces(t[n1..]);
      assert t[..n2][n2 - 1] == t[n2 - 1];
      assert n1 + w < n2;
      assert t[..n2][n1 + w] == t[n1 + w] && t[..n2][n1 + w - 1] == t[n1 + w - 1];
    }
  }

  /** A run that cannot be extended is at least as long as any other run
      of the same text. */
  lemma MaximalRunIsLongest(t: string, n1: nat, n2: nat)
    requires 0 < n1 <= n2 <= |t|
    requires IsCapitalisedRun(t[..n1]) && CannotExtend(t, n1)
    requires IsCapitalisedRun(t[..n2])
    ensures n1 == n2
  {
    if n1 < n2 {
      RunExtends(t, n1, n2);
    }
  }

  /** The greedy match is the only maximal capitalised run at the start of
      the title, so it is what the regular expression's match denotes. */
  lemma CapitalisedPrefixUnique(t: string, n: nat)
    requires 0 < n <= |t| && IsCapitalisedRun(t[..n]) && CannotExtend(t, n)
    ensures n == CapitalisedPrefix(t)
  {
    var m := CapitalisedPrefix(t);
    assert t[..n][0] == t[0];
    if n <= m {
      MaximalRunIsLongest(t, n, m);
    } else {
      MaximalRunIsLongest(t, m, n);
    }
  }

  /** `title.toLowerCase().includes(publisher.toLowerCase())`. */
  predicate Mentions(title: string, publisher: string) {
    Contains(Lower(title), Lower(publisher))
  }

  /** `known[i]` is the first entry the title mentions. */
  predicate FirstMentionAt(known: seq<string>, title: string, i: int) {
    0 <= i < |known| && Mentions(title, known[i]) &&
    forall j :: 0 <= j < i ==> !Mentions(title, known[j])
  }

  /** `extractPublisher` over a given list of known publishers. */
  function ExtractPublisherFrom(known: seq<string>, title: string): (r: string)
    ensures forall i :: FirstMentionAt(known, title, i) ==> r == known[i]
    ensures (forall i :: 0 <= i < |known| ==> !Mentions(title, known[i])) ==>
              (CapitalisedPrefix(title) > 2 && r == title[..CapitalisedPrefix(title)] && IsCapitalisedRun(r)) ||
              (CapitalisedPrefix(title) <= 2 && r == Unidentified)
  {
    match FirstIndex(known, p => Mentions(title, p))
    case Some(i) =>
      assert forall j :: FirstMentionAt(known, title, j) ==> j == i;
      known[i]
    case None =>
      var n := CapitalisedPrefix(title);
      if n > 2 then title[..n] else Unidentified
  }

  /** The extracted publisher is a known entry, a capitalised prefix of
      more than two characters, or the "unidentified" marker. */
  lemma ExtractedShape(known: seq<string>, title: string)
    ensures var r := ExtractPublisherFrom(known, title);
            r in known || (|r| > 2 && IsCapitalisedRun(r)) || r == Unidentified
  {
    match FirstIndex(known, p => Mentions(title, p))
    case Some(i) =>
      assert FirstMentionAt(known, title, i);
    case None =>
  }

  /** A title that mentions some entry has a first-mentioned entry, no
      later than that one. */
  lemma FirstMention(known: seq<string>, title: string, j: nat) returns (m: nat)
    requires j < |known| && Mentions(title, known[j])
    ensures m <= j && FirstMentionAt(known, title, m)
  {
    match FirstIndex(known, p => Mentions(title, p))
    case Some(i) =>
      m := i;
    case None =>
  }

  /** An entry whose lowercase form equals that of an earlier entry is
      never returned: any title that mentions it mentions the earlier one
      first. The fallback cannot produce it either when it is not a
      capitalised run. */
  lemma ShadowedNeverReturned(known: seq<string>, title: string, i: nat, j: nat)
    requires i < j < |known| && Lower(known[i]) == Lower(known[j])
    requires forall k :: 0 <= k <= i ==> known[k] != known[j]
    requires !IsCapitalisedRun(known[j]) && known[j] != Unidentified
    ensures ExtractPublisherFrom(known, title) != known[j]
  {
    var r := ExtractPublisherFrom(known, title);
    if exists k :: 0 <= k < |known| && Mentions(title, known[k]) {
      var k :| 0 <= k < |known| && Mentions(title, known[k]);
      var m := FirstMention(known, title, k);
    }
  }

  /** With no empty entry in the list, the extracted publisher is never empty. */
  lemma ExtractedNonEmpty(known: seq<string>, title: string)
    requires "" !in known
    ensures ExtractPublisherFrom(known, title) != ""
  {
    ExtractedShape(known, title);
  }

  /** `extractPublisher` over the scraper's list: never empty. */
  function ExtractPublisher(title: string): (r: string)
    ensures r != ""
  {
    assert "" !in KnownPublishers;
    ExtractedNonEmpty(KnownPublishers, title);
    ExtractPublisherFrom(KnownPublishers, title)
  }

  /** The literal facts about the list that the shadowing lemma needs. */
  lemma KnownPublishersShadowing()
    ensures KnownPublishers[12] == "Elle" && KnownPublishers[54] == "ELLE"
    ensures KnownPublishers[29] == "Geo" && KnownPublishers[30] == "GEO"
    ensures forall k :: 0 <= k <= 12 ==> KnownPublishers[k] != "ELLE"
    ensures forall k :: 0 <= k <= 29 ==> KnownPublishers[k] != "GEO"
  {
  }

  /** The upper-case duplicates "ELLE" and "GEO" of the list are dead
      entries: "Elle" and "Geo" always match first. */
  lemma UpperCaseDuplicatesNeverReturned(title: string)
    ensures ExtractPublisher(title) != "ELLE" && ExtractPublisher(title) != "GEO"
  {
    KnownPublishersShadowing();
    assert !IsCapitalisedRun("ELLE") by { assert !IsSmall("ELLE"[1]); }
    assert !IsCapitalisedRun("GEO") by { assert !IsSmall("GEO"[1]); }
    ShadowedNeverReturned(KnownPublishers, title, 12, 54);
    ShadowedNeverReturned(KnownPublishers, title, 29, 30);
  }

  /** A title whose lowercase form contains "elle" (as in "nouvelle")
      yields an entry no later than "Elle": "Elle" itself unless an earlier
      entry matched. */
  lemma ElleCaptures(title: string) returns (k: nat)
    requires Contains(Lower(title), "elle")
    ensures k <= 12 && FirstMentionAt(KnownPublishers, title, k)
    ensures ExtractPublisher(title) == KnownPublishers[k]
  {
    KnownPublishersShadowing();
    assert Lower("Elle") == "elle";
    k := FirstMention(KnownPublishers, title, 12);
  }

  // ---------------------------------------------------------------------
  // One article card
  // ---------------------------------------------------------------------

  /** What the selectors return for one card: the title link's text and
      `href` (absent when the attribute is missing), the summary element's
      text (empty when there is none) and the first image's `src`. */
  datatype Element = Element(titleText: string, href: Option<string>, summaryText: string, imageSrc: Option<string>)

  datatype ScrapedArticle = ScrapedArticle(
    url: string,
    title: string,
    summary: string,
    publisher: string,
    imageUrl: Option<string>,
    scrapedAt: string)

  /** A URL not starting with "http" is taken relative to `base`. */
  function Resolve(base: string, u: string): (r: string)
    ensures StartsWith(u, "http") ==> r == u
    ensures !StartsWith(u, "http") ==> r == base + u
    ensures StartsWith(base, "http") ==> StartsWith(r, "http")
  {
    if StartsWith(u, "http") then u
    else
      assert StartsWith(base, "http") ==> (base + u)[..4] == base[..4];
      base + u
  }

  /** A link of the page made absolute against the site's address. */
  function Absolutize(u: string): string {
    Resolve(SiteBase, u)
  }

  lemma SiteBaseIsHttp()
    ensures StartsWith(SiteBase, "http")
  {
  }

  /** How a card's title names its publisher: `extractPublisher` in the
      scraper, a parameter here so that the card logic is stated apart from
      the publisher list. */
  type Extractor = string -> string

  /** The card yields no article when its trimmed title or its `href` is empty. */
  function ParseElement(e: Element, scrapedAt: string, extract: Extractor): (r: Option<ScrapedArticle>)
    ensures r.None? <==> Trim(e.titleText) == "" || e.href.None? || e.href.value == ""
    ensures r.Some? ==>
      var a := r.value;
      && e.href.Some? && a.url == Absolutize(e.href.value)
      && a.title == Trim(e.titleText) && a.title != []
      && |a.summary| <= 300 && StartsWith(Trim(e.summaryText), a.summary)
      && (|Trim(e.summaryText)| <= 300 ==> a.summary == Trim(e.summaryText))
      && (|Trim(e.summaryText)| > 300 ==> |a.summary| == 300)
      && a.publisher == extract(a.title)
      && (a.imageUrl.Some? <==> e.imageSrc.Some? && e.imageSrc.value != "")
      && (a.imageUrl.Some? ==> a.imageUrl.value == Absolutize(e.imageSrc.value))
      && a.scrapedAt == scrapedAt
  {
    var title := Trim(e.titleText);
    if title == "" || e.href.None? || e.href.value == "" then None
    else
      var image := if e.imageSrc.Some? && e.imageSrc.value != "" then Some(Absolutize(e.imageSrc.value)) else None;
      Some(ScrapedArticle(Absolutize(e.href.value), title, Take(Trim(e.summaryText), 300),
                          extract(title), image, scrapedAt))
  }

  /** The clock as each card is parsed: `clock(i)` is the
      `new Date().toISOString()` read for the card at position `i`. */
  type Clock = nat -> string

  /** The article of the card at each position, `None` past the end. */
  function ParseAt(elements: seq<Element>, clock: Clock, extract: Extractor): nat -> Option<ScrapedArticle> {
    (i: nat) => if i < |elements| then ParseElement(elements[i], clock(i), extract) else None
  }

  /** The articles of the cards that pass the guard, in page order. */
  function CollectArticles(elements: seq<Element>, clock: Clock, extract: Extractor): (r: seq<ScrapedArticle>)
    ensures |r| <= |elements|
    ensures forall a :: a in r <==>
              exists i :: 0 <= i < |elements| && ParseElement(elements[i], clock(i), extract) == Some(a)
  {
    var f := ParseAt(elements, clock, extract);
    PresentIff(f, 0, |elements|);
    assert forall i :: 0 <= i < |elements| ==> f(i) == ParseElement(elements[i], clock(i), extract);
    Present(f, 0, |elements|)
  }

  /** Which card each collected article comes from: strictly increasing
      page positions, covering every card that passes the guard. */
  lemma CollectOrigin(elements: seq<Element>, clock: Clock, extract: Extractor) returns (idx: seq<nat>)
    ensures var r := CollectArticles(elements, clock, extract);
      && |idx| == |r|
      && (forall p :: 0 <= p < |idx| ==> idx[p] < |elements| &&
                                         ParseElement(elements[idx[p]], clock(idx[p]), extract) == Some(r[p]))
      && (forall p, q :: 0 <= p < q < |idx| ==> idx[p] < idx[q])
      && (forall j :: 0 <= j < |elements| && ParseElement(elements[j], clock(j), extract).Some? ==> j in idx)
  {
    var f := ParseAt(elements, clock, extract);
    idx := PresentOrigin(f, 0, |elements|);
    forall j | 0 <= j < |elements| && ParseElement(elements[j], clock(j), extract).Some? ensures j in idx {
      assert f(j).Some?;
    }
  }

  // ---------------------------------------------------------------------
  // De-duplication by URL
  // ---------------------------------------------------------------------

  function Urls(s: seq<ScrapedArticle>): set<string> {
    set a | a in s :: a.url
  }

  /** `s[i]` is the first article with its URL. */
  predicate FirstOfUrl(s: seq<ScrapedArticle>, i: int) {
    0 <= i < |s| && forall j :: 0 <= j < i ==> s[j].url != s[i].url
  }

  /** The reference de-duplication: walking from the end, an article is
      kept exactly when no earlier article has its URL. */
  function KeepFirstByUrl(s: seq<ScrapedArticle>): (r: seq<ScrapedArticle>)
    decreases |s|
  {
    if |s| == 0 then []
    else
      var init := s[..|s| - 1];
      if s[|s| - 1].url in Urls(init) then KeepFirstByUrl(init)
      else KeepFirstByUrl(init) + [s[|s| - 1]]
  }

  lemma UrlsAppend(s: seq<ScrapedArticle>, a: ScrapedArticle)
    ensures Urls(s + [a]) == Urls(s) + {a.url}
  {
    assert forall b :: b in s + [a] <==> b in s || b == a;
  }

  /** De-duplication keeps every URL, and only URLs of the input. */
  lemma {:induction false} KeepFirstUrls(s: seq<ScrapedArticle>)
    ensures Urls(KeepFirstByUrl(s)) == Urls(s)
    decreases |s|
  {
    if |s| > 0 {
      var init := s[..|s| - 1];
      KeepFirstUrls(init);
      assert s == init + [s[|s| - 1]];
      UrlsAppend(init, s[|s| - 1]);
      UrlsAppend(KeepFirstByUrl(init), s[|s| - 1]);
    }
  }

  /** No two kept articles share a URL. */
  lemma {:induction false} KeepFirstDistinct(s: seq<ScrapedArticle>)
    ensures var r := KeepFirstByUrl(s);
            forall i, j :: 0 <= i < j < |r| ==> r[i].url != r[j].url
    decreases |s|
  {
    if |s| > 0 {
      var init := s[..|s| - 1];
      var prev := KeepFirstByUrl(init);
      KeepFirstDistinct(init);
      KeepFirstUrls(init);
      if s[|s| - 1].url !in Urls(init) {
        forall i | 0 <= i < |prev| ensures prev[i].url != s[|s| - 1].url {
          assert prev[i] in prev;
        }
      }
    }
  }

  /** A URL already seen is one some article of `s` carries. */
  lemma UrlWitness(s: seq<ScrapedArticle>, u: string) returns (j: nat)
    requires u in Urls(s)
    ensures j < |s| && s[j].url == u
  {
    var b :| b in s && b.url == u;
    j :| j < |s| && s[j] == b;
  }

  /** Every article that is the first with its URL is kept. */
  lemma {:induction false} KeepFirstComplete(s: seq<ScrapedArticle>, i: nat)
    requires FirstOfUrl(s, i)
    ensures s[i] in KeepFirstByUrl(s)
    decreases |s|
  {
    var init := s[..|s| - 1];
    if i == |s| - 1 {
      if s[i].url in Urls(init) {
        var j := UrlWitness(init, s[i].url);
      }
    } else {
      assert FirstOfUrl(init, i);
      KeepFirstComplete(init, i);
    }
  }

  /** Every kept article is the first with its URL. */
  lemma {:induction false} KeepFirstSound(s: seq<ScrapedArticle>, a: ScrapedArticle) returns (i: nat)
    requires a in KeepFirstByUrl(s)
    ensures FirstOfUrl(s, i) && s[i] == a
    decreases |s|
  {
    var init := s[..|s| - 1];
    var last := s[|s| - 1];
    if a in KeepFirstByUrl(init) {
      i := KeepFirstSound(init, a);
      assert s[i] == init[i];
      assert forall j :: 0 <= j < i ==> s[j] == init[j];
    } else {
      assert a == last && last.url !in Urls(init);
      i := |s| - 1;
      forall j | 0 <= j < i ensures s[j].url != a.url {
        assert init[j] in init;
      }
    }
  }

  /** The kept articles appear in their input order: each is the first of
      its URL at a strictly increasing input position. */
  lemma {:induction false} KeepFirstOrder(s: seq<ScrapedArticle>) returns (idx: seq<nat>)
    ensures var r := KeepFirstByUrl(s);
            |idx| == |r| &&
            (forall p :: 0 <= p < |idx| ==> FirstOfUrl(s, idx[p]) && r[p] == s[idx[p]]) &&
            (forall p, q :: 0 <= p < q < |idx| ==> idx[p] < idx[q])
    decreases |s|
  {
    if |s| == 0 {
      idx := [];
    } else {
      var init := s[..|s| - 1];
      var prev := KeepFirstOrder(init);
      assert forall i :: 0 <= i < |init| ==> (FirstOfUrl(s, i) <==> FirstOfUrl(init, i));
      if s[|s| - 1].url in Urls(init) {
        idx := prev;
      } else {
        idx := prev + [|s| - 1];
        forall j | 0 <= j < |s| - 1 ensures s[j].url != s[|s| - 1].url {
          assert init[j] in init;
        }
      }
    }
  }

  /** One more article: its URL joins the seen ones, and it is kept exactly
      when its URL was not seen before. */
  lemma DedupeStep(s: seq<ScrapedArticle>, i: nat)
    requires i < |s|
    ensures Urls(s[..i + 1]) == Urls(s[..i]) + {s[i].url}
    ensures KeepFirstByUrl(s[..i + 1]) ==
            if s[i].url in Urls(s[..i]) then KeepFirstByUrl(s[..i]) else KeepFirstByUrl(s[..i]) + [s[i]]
  {
    assert s[..i + 1] == s[..i] + [s[i]];
    assert s[..i + 1][..i] == s[..i];
    UrlsAppend(s[..i], s[i]);
  }

  /** The `seen`-set filter of the scraper, as a loop. */
  method DedupeByUrl(s: seq<ScrapedArticle>) returns (r: seq<ScrapedArticle>)
    ensures r == KeepFirstByUrl(s)
  {
    var seen: set<string> := {};
    r := [];
    var i := 0;
    while i < |s|
      invariant 0 <= i <= |s|
      invariant seen == Urls(s[..i])
      invariant r == KeepFirstByUrl(s[..i])
    {
      DedupeStep(s, i);
      if s[i].url !in seen {
        r := r + [s[i]];
        seen := seen + {s[i].url};
      }
      i := i + 1;
    }
    assert s[..|s|] == s;
  }

  /** The scrape after the fetch: parse every card, then keep the first
      article of each URL, in page order. */
  method ScrapeCards(elements: seq<Element>, clock: Clock, extract: Extractor) returns (r: seq<ScrapedArticle>)
    ensures r == KeepFirstByUrl(CollectArticles(elements, clock, extract))
    ensures forall i, j :: 0 <= i < j < |r| ==> r[i].url != r[j].url
    ensures forall a :: a in r ==>
              exists i :: 0 <= i < |elements| && ParseElement(elements[i], clock(i), extract) == Some(a)
  {
    var articles := CollectArticles(elements, clock, extract);
    r := DedupeByUrl(articles);
    KeepFirstDistinct(articles);
    forall a | a in r ensures exists i :: 0 <= i < |elements| && ParseElement(elements[i], clock(i), extract) == Some(a) {
      var i := KeepFirstSound(articles, a);
      assert a in articles;
    }
  }

  /** `scrapeUnionPresse` after the fetch, with the scraper's publisher
      extraction: the first article of each URL among the parsed cards,
      with absolute URLs, non-empty titles and publishers, and a time read
      while parsing some card. */
  method ScrapeUnionPresse(elements: seq<Element>, clock: Clock) returns (r: seq<ScrapedArticle>)
    ensures r == KeepFirstByUrl(CollectArticles(elements, clock, ExtractPublisher))
    ensures forall i, j :: 0 <= i < j < |r| ==> r[i].url != r[j].url
    ensures forall a :: a in r ==>
              StartsWith(a.url, "http") && a.title != "" && a.publisher != "" &&
              exists i :: 0 <= i < |elements| && a.scrapedAt == clock(i)
  {
    r := ScrapeCards(elements, clock, ExtractPublisher);
    SiteBaseIsHttp();
    forall a | a in r
      ensures StartsWith(a.url, "http") && a.title != "" && a.publisher != "" &&
              exists i :: 0 <= i < |elements| && a.scrapedAt == clock(i)
    {
      var i :| 0 <= i < |elements| && ParseElement(elements[i], clock(i), ExtractPublisher) == Some(a);
    }
  }
}
