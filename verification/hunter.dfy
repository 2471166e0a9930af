/** The pure part of the Hunter.io integration: mapping a publisher name to an
    email domain, admitting and ranking the contacts a domain search returns,
    and choosing the one contact the dashboard proposes. The HTTP request
    itself is a parameter (`search`). */
module Hunter {
  import opened Options
  import opened Text
  import opened Sorting

  /** One `name: domain` pair of the registry. */
  datatype Entry = Entry(name: string, domain: string)

  /** The registry of known publishers, in declaration order (the order
      `Object.entries` yields). */
  const PublisherDomains: seq<Entry> := [
    Entry("Auto Plus", "reworldmedia.com"),
    Entry("AUTOhebdo", "reworldmedia.com"),
    Entry("Reworld Media", "reworldmedia.com"),
    Entry("Haute Fidélité", "hautefidelite.fr"),
    Entry("Libération", "liberation.fr"),
    Entry("Premiere", "prismamedia.com"),
    Entry("Première", "prismamedia.com"),
    Entry("L'Equipe", "lequipe.fr"),
    Entry("L'Équipe", "lequipe.fr"),
    Entry("Voyages & Hôtels de Rêve", "voyagesethoteldereve.fr"),
    Entry("Le Figaro", "lefigaro.fr"),
    Entry("Ouest-France", "ouest-france.fr"),
    Entry("Marie Claire", "marieclaire.fr"),
    Entry("Groupe Marie Claire", "marieclaire.fr"),
    Entry("Prisma Media", "prismamedia.com"),
    Entry("GQ", "prismamedia.com"),
    Entry("GQ France", "prismamedia.com"),
    Entry("Capital", "prismamedia.com"),
    Entry("Alternatives Economiques", "alternatives-economiques.fr"),
    Entry("Marie France", "mariefrance.fr"),
    Entry("ELLE", "lagardere.com"),
    Entry("Harper's Bazaar", "cmimedia.fr"),
    Entry("Harper's Bazaar France", "cmimedia.fr")
  ]

  /** Case-insensitive containment in either direction. */
  predicate Related(publisher: string, name: string) {
    Contains(Lower(publisher), Lower(name)) || Contains(Lower(name), Lower(publisher))
  }

  /** Entry `i` is the first whose name is exactly `publisher`. */
  predicate FirstKeyAt(registry: seq<Entry>, publisher: string, i: int) {
    0 <= i < |registry| && registry[i].name == publisher &&
    forall j :: 0 <= j < i ==> registry[j].name != publisher
  }

  /** Entry `i` is the first whose name is related to `publisher`. */
  predicate FirstRelatedAt(registry: seq<Entry>, publisher: string, i: int) {
    0 <= i < |registry| && Related(publisher, registry[i].name) &&
    forall j :: 0 <= j < i ==> !Related(publisher, registry[j].name)
  }

  predicate IsKey(publisher: string, e: Entry) {
    e.name == publisher
  }

  predicate RelatedEntry(publisher: string, e: Entry) {
    Related(publisher, e.name)
  }

  /** Every name is related to itself. */
  lemma RelatedSelf(name: string)
    ensures Related(name, name)
  {
    assert StartsWith(Lower(name), Lower(name));
  }

  /** `getPublisherDomain` over a given registry: the exact key's domain when
      the key exists and its domain is truthy, otherwise the domain of the
      first related entry in registry order, otherwise `null`. */
  function LookupDomain(registry: seq<Entry>, publisher: string): (r: Option<string>)
    ensures forall i :: FirstKeyAt(registry, publisher, i) && registry[i].domain != "" ==>
                        r == Some(registry[i].domain)
    ensures (forall i :: FirstKeyAt(registry, publisher, i) ==> registry[i].domain == "") ==>
              forall i :: FirstRelatedAt(registry, publisher, i) ==> r == Some(registry[i].domain)
    ensures r.None? <==> forall i :: 0 <= i < |registry| ==> !Related(publisher, registry[i].name)
  {
    var exact := FirstIndex(registry, e => IsKey(publisher, e));
    if exact.Some? && registry[exact.value].domain != "" then
      var k := exact.value;
      RelatedSelf(publisher);
      assert Related(publisher, registry[k].name);
      assert forall i :: FirstKeyAt(registry, publisher, i) ==> i == k;
      Some(registry[k].domain)
    else
      var partial := FirstIndex(registry, e => RelatedEntry(publisher, e));
      assert forall i :: FirstKeyAt(registry, publisher, i) ==> registry[i].domain == "";
      if partial.Some? then
        var k := partial.value;
        assert forall i :: FirstRelatedAt(registry, publisher, i) ==> i == k;
        Some(registry[k].domain)
      else
        None
  }

  /** `getPublisherDomain` with the dashboard's registry. */
  function GetPublisherDomain(publisher: string): Option<string> {
    LookupDomain(PublisherDomains, publisher)
  }

  /** A contact of the domain search. The API's raw email records have the
      same fields, with `value` for `email`. */
  datatype Contact = Contact(
    email: string,
    firstName: Option<string>,
    lastName: Option<string>,
    position: Option<string>,
    linkedin: Option<string>,
    confidence: int,
    department: Option<string>,
    seniority: Option<string>)

  /** The field-by-field copy of one raw record. */
  function Normalize(raw: Contact): Contact {
    Contact(raw.email, OrNull(raw.firstName), OrNull(raw.lastName), OrNull(raw.position),
            OrNull(raw.linkedin), raw.confidence, OrNull(raw.department), OrNull(raw.seniority))
  }

  /** The admission test of the domain search results. */
  predicate Confident(c: Contact) {
    c.confidence >= 50
  }

  /** The `confidence >= 50` filter followed by the normalising copy. */
  function AdmitContacts(raw: seq<Contact>): (r: seq<Contact>)
    ensures |r| <= |raw|
    ensures forall c :: c in r ==> c.confidence >= 50
    ensures forall c :: c in r ==> exists x :: x in raw && x.confidence >= 50 && c == Normalize(x)
    ensures forall x :: x in raw && x.confidence >= 50 ==> Normalize(x) in r
  {
    var kept := Filter(raw, Confident);
    var r := seq(|kept|, i requires 0 <= i < |kept| => Normalize(kept[i]));
    assert forall x :: x in raw && x.confidence >= 50 ==> Normalize(x) in r by {
      forall x | x in raw && x.confidence >= 50 ensures Normalize(x) in r {
        var j :| 0 <= j < |raw| && raw[j] == x;
        var i :| 0 <= i < |kept| && kept[i] == x;
        assert r[i] == Normalize(x);
      }
    }
    r
  }

  /** The admitted contacts keep the search's order and multiplicity: the
      k-th is the normalised copy of a confident record, at strictly
      increasing positions covering every confident record. */
  lemma AdmitOrigin(raw: seq<Contact>) returns (idx: seq<nat>)
    ensures var r := AdmitContacts(raw);
      && |idx| == |r|
      && (forall k :: 0 <= k < |idx| ==> idx[k] < |raw| && raw[idx[k]].confidence >= 50 && r[k] == Normalize(raw[idx[k]]))
      && (forall k, l :: 0 <= k < l < |idx| ==> idx[k] < idx[l])
      && (forall j :: 0 <= j < |raw| && raw[j].confidence >= 50 ==> j in idx)
  {
    idx := FilterOrigin(raw, Confident);
    var kept := Filter(raw, Confident);
    assert forall k :: 0 <= k < |idx| ==> Confident(kept[k]);
  }

  /** `seniorityOrder[seniority || ''] || 0`. */
  function SeniorityRank(seniority: Option<string>): (r: int)
    ensures 0 <= r <= 3
    ensures r == 3 <==> seniority == Some("executive")
    ensures r == 2 <==> seniority == Some("senior")
    ensures r == 1 <==> seniority == Some("junior")
  {
    match seniority
    case Some("executive") => 3
    case Some("senior") => 2
    case Some("junior") => 1
    case _ => 0
  }

  /** The comparator's key: seniority first, then confidence. */
  function ContactRank(c: Contact): Rank {
    Rank(SeniorityRank(c.seniority), c.confidence)
  }

  /** The contact list `findContacts` returns for a successful search:
      admitted contacts, most senior first, ties by higher confidence, and
      full ties in API order. */
  function RankContacts(raw: seq<Contact>): (r: seq<Contact>)
    ensures multiset(r) == multiset(AdmitContacts(raw))
    ensures forall i :: 0 <= i < |r| ==> r[i].confidence >= 50
    ensures forall i, j :: 0 <= i < j < |r| ==>
              SeniorityRank(r[i].seniority) > SeniorityRank(r[j].seniority) ||
              (SeniorityRank(r[i].seniority) == SeniorityRank(r[j].seniority) && r[i].confidence >= r[j].confidence)
    ensures forall k :: WithRank(r, ContactRank, k) == WithRank(AdmitContacts(raw), ContactRank, k)
  {
    var admitted := AdmitContacts(raw);
    var r := SortDesc(admitted, ContactRank);
    assert forall i :: 0 <= i < |r| ==> r[i].confidence >= 50 by {
      forall i | 0 <= i < |r| ensures r[i].confidence >= 50 {
        assert r[i] in multiset(r);
        assert r[i] in admitted;
      }
    }
    r
  }

  /** The departments `findBestContact` prefers, most preferred first. */
  const PreferredDepartments: seq<string> := ["sales", "marketing", "executive", "communication"]

  /** The lowercase department equals `dept` or the lowercase position contains it. */
  predicate InDepartment(c: Contact, dept: string) {
    (c.department.Some? && Lower(c.department.value) == dept) ||
    (c.position.Some? && Contains(Lower(c.position.value), dept))
  }

  predicate NoneInDepartment(contacts: seq<Contact>, dept: string) {
    forall i :: 0 <= i < |contacts| ==> !InDepartment(contacts[i], dept)
  }

  /** `contacts[i]` is what the department scan starting at `depts[from]`
      settles on: department `e` is the first from `from` on that has a
      member, and `contacts[i]` is its first member in list order. */
  predicate ChosenAt(contacts: seq<Contact>, depts: seq<string>, from: int, e: int, i: int) {
    0 <= from <= e < |depts| && 0 <= i < |contacts| &&
    InDepartment(contacts[i], depts[e]) &&
    (forall j :: 0 <= j < i ==> !InDepartment(contacts[j], depts[e])) &&
    (forall d :: from <= d < e ==> NoneInDepartment(contacts, depts[d]))
  }

  /** The `for (const dept of preferredDepartments)` scan, from `depts[from]` on. */
  function Preferred(contacts: seq<Contact>, depts: seq<string>, from: nat): (r: Option<Contact>)
    requires from <= |depts|
    ensures r.None? <==> forall d :: from <= d < |depts| ==> NoneInDepartment(contacts, depts[d])
    ensures r.Some? ==> exists e, i :: ChosenAt(contacts, depts, from, e, i) && r.value == contacts[i]
    decreases |depts| - from
  {
    if from == |depts| then None
    else
      match FirstIndex(contacts, c => InDepartment(c, depts[from]))
      case Some(i) =>
        assert ChosenAt(contacts, depts, from, from, i);
        Some(contacts[i])
      case None =>
        var r := Preferred(contacts, depts, from + 1);
        assert NoneInDepartment(contacts, depts[from]);
        if r.Some? then
          var e, i :| ChosenAt(contacts, depts, from + 1, e, i) && r.value == contacts[i];
          assert ChosenAt(contacts, depts, from, e, i);
          r
        else
          r
  }

  /** The selection of `findBestContact` over a non-empty ranked list: a
      preferred-department contact, else the head of the list. */
  function SelectContact(contacts: seq<Contact>): (r: Contact)
    requires |contacts| > 0
    ensures r in contacts
    ensures (forall d, i :: 0 <= d < |PreferredDepartments| && 0 <= i < |contacts| ==>
               !InDepartment(contacts[i], PreferredDepartments[d])) ==> r == contacts[0]
    ensures forall e, i :: ChosenAt(contacts, PreferredDepartments, 0, e, i) ==> r == contacts[i]
    ensures (exists i :: 0 <= i < |contacts| && InDepartment(contacts[i], "sales")) ==>
              InDepartment(r, "sales") &&
              forall j :: 0 <= j < |contacts| && contacts[j] != r && InDepartment(contacts[j], "sales") ==>
                exists i :: 0 <= i < j && contacts[i] == r
  {
    var p := Preferred(contacts, PreferredDepartments, 0);
    assert forall e, i :: ChosenAt(contacts, PreferredDepartments, 0, e, i) ==> p == Some(contacts[i]) by {
      forall e, i | ChosenAt(contacts, PreferredDepartments, 0, e, i) ensures p == Some(contacts[i]) {
        var e', i' :| ChosenAt(contacts, PreferredDepartments, 0, e', i') && p.value == contacts[i'];
        ChosenAtUnique(contacts, PreferredDepartments, 0, e, i, e', i');
      }
    }
    if p.Some? then p.value else contacts[0]
  }

  /** The department scan settles on one level and one contact only. */
  lemma ChosenAtUnique(contacts: seq<Contact>, depts: seq<string>, from: int, e: int, i: int, e': int, i': int)
    requires ChosenAt(contacts, depts, from, e, i) && ChosenAt(contacts, depts, from, e', i')
    ensures e == e' && i == i'
  {
    assert InDepartment(contacts[i], depts[e]) && InDepartment(contacts[i'], depts[e']);
  }

  /** `findBestContact` once the publisher's domain is known (`None` when
      the registry has none; an empty domain is refused like a missing one): `search` answers the Hunter domain search for
      a domain with its raw email records (empty when the key is missing or
      the request fails). */
  function BestContactAt(domain: Option<string>, search: string -> seq<Contact>): (r: Option<Contact>)
    ensures r.None? <==> domain.None? || domain.value == "" || AdmitContacts(search(domain.value)) == []
    ensures r.Some? ==> r.value in RankContacts(search(domain.value)) && r.value.confidence >= 50
    ensures r.Some? ==> |RankContacts(search(domain.value))| > 0 &&
                        r.value == SelectContact(RankContacts(search(domain.value)))
  {
    if domain.GetOr("") == "" then None
    else
      var d := domain.value;
      var contacts := RankContacts(search(d));
      if |contacts| == 0 then
        assert multiset(AdmitContacts(search(d))) == multiset{};
        None
      else
        assert contacts[0] in multiset(AdmitContacts(search(d)));
        Some(SelectContact(contacts))
  }

  /** `findBestContact`: the publisher's domain from the registry, then the
      preferred contact of the domain search, which is an admitted
      contact. */
  function FindBestContact(publisher: string, search: string -> seq<Contact>): (r: Option<Contact>)
    ensures r.Some? ==> r.value.confidence >= 50
  {
    BestContactAt(GetPublisherDomain(publisher), search)
  }
}
