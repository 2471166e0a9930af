/** `getDemoOpportunities`: the fixed demo tables joined into dashboard
    entries the same way Sheets mode joins the sheets, except that every
    entry stays pending, even one whose email is in the table. */
module DemoData {
  import opened Options
  import opened Dashboard

  datatype DemoArticle = DemoArticle(
    url: string, title: string, summary: string, publisher: string, category: string,
    publishedDate: string, scrapedAt: string)

  datatype DemoOpportunity = DemoOpportunity(
    id: string, articleUrl: string, articleTitle: string, articlePublisher: string, kind: string,
    score: int, reasoning: string, detectedAt: string)

  datatype DemoContact = DemoContact(
    email: string, firstName: string, lastName: string, jobTitle: string, company: string,
    linkedinUrl: string, apolloId: string)

  datatype DemoEmail = DemoEmail(opportunityId: string, subject: string, body: string)

  datatype DemoData = DemoData(
    articles: seq<DemoArticle>, opportunities: seq<DemoOpportunity>, contacts: seq<DemoContact>,
    emails: seq<DemoEmail>)

  /** A demo article as the entry shows it (it has no image). */
  function ArticleViewOf(a: DemoArticle): ArticleView {
    ArticleView(Some(a.url), Some(a.title), Some(a.summary), Some(a.publisher), Some(a.category),
                Some(a.publishedDate), Some(a.scrapedAt), None)
  }

  /** The article shown when no demo article has the opportunity's URL. */
  function FallbackOf(o: DemoOpportunity): ArticleView {
    ArticleView(Some(o.articleUrl), Some(o.articleTitle), Some(""), Some(o.articlePublisher), None, Some(""),
                Some(o.detectedAt), None)
  }

  function ContactViewOf(c: DemoContact): ContactView {
    ContactView(Some(c.email), Some(c.firstName), Some(c.lastName), Some(c.jobTitle), Some(c.company),
                Some(c.linkedinUrl), Some(c.apolloId))
  }

  function MailOf(e: DemoEmail): MailView {
    MailView(Some(e.subject), Some(e.body))
  }

  /** The first article with the opportunity's URL, else the fallback. */
  function JoinArticle(o: DemoOpportunity, articles: seq<DemoArticle>): (r: ArticleView)
    ensures forall j :: 0 <= j < |articles| && articles[j].url == o.articleUrl &&
                        (forall k :: 0 <= k < j ==> articles[k].url != o.articleUrl) ==>
                          r == ArticleViewOf(articles[j])
    ensures (forall j :: 0 <= j < |articles| ==> articles[j].url != o.articleUrl) ==> r == FallbackOf(o)
  {
    var article := Find(articles, (a: DemoArticle) => a.url == o.articleUrl);
    if article.Some? then ArticleViewOf(article.value) else FallbackOf(o)
  }

  /** The first contact whose company is the opportunity's publisher. */
  function JoinContact(o: DemoOpportunity, contacts: seq<DemoContact>): (r: Option<ContactView>)
    ensures r.None? <==> forall j :: 0 <= j < |contacts| ==> contacts[j].company != o.articlePublisher
    ensures forall j :: 0 <= j < |contacts| && contacts[j].company == o.articlePublisher &&
                        (forall k :: 0 <= k < j ==> contacts[k].company != o.articlePublisher) ==>
                          r == Some(ContactViewOf(contacts[j]))
  {
    var contact := Find(contacts, (c: DemoContact) => c.company == o.articlePublisher);
    if contact.Some? then Some(ContactViewOf(contact.value)) else None
  }

  /** The first email written for the opportunity's id. */
  function JoinEmail(o: DemoOpportunity, emails: seq<DemoEmail>): (r: Option<MailView>)
    ensures r.None? <==> forall j :: 0 <= j < |emails| ==> emails[j].opportunityId != o.id
    ensures forall j :: 0 <= j < |emails| && emails[j].opportunityId == o.id &&
                        (forall k :: 0 <= k < j ==> emails[k].opportunityId != o.id) ==>
                          r == Some(MailOf(emails[j]))
  {
    var email := Find(emails, (e: DemoEmail) => e.opportunityId == o.id);
    if email.Some? then Some(MailOf(email.value)) else None
  }

  /** The entry of one demo opportunity: its own fields, its joined
      article, contact and email, and pending whether or not an email was
      found. */
  function DemoEntry(o: DemoOpportunity, data: DemoData): (r: Item)
    ensures r.status == Pending
    ensures r.opportunity == OpportunityView(Some(o.id), Some(o.articleUrl), Some(o.kind), o.score, Some(o.reasoning),
                                             Some(o.detectedAt))
    ensures r.article == JoinArticle(o, data.articles)
    ensures r.contact == JoinContact(o, data.contacts)
    ensures r.email == JoinEmail(o, data.emails)
  {
    Item(JoinArticle(o, data.articles),
         OpportunityView(Some(o.id), Some(o.articleUrl), Some(o.kind), o.score, Some(o.reasoning), Some(o.detectedAt)),
         JoinContact(o, data.contacts),
         JoinEmail(o, data.emails),
         Pending)
  }

  /** One entry per demo opportunity, in table order, all pending. */
  function DemoOpportunities(data: DemoData): (r: seq<Item>)
    ensures |r| == |data.opportunities|
    ensures forall i :: 0 <= i < |r| ==> r[i].status == Pending && r[i].opportunity.id == Some(data.opportunities[i].id)
    ensures forall i :: 0 <= i < |r| ==> r[i] == DemoEntry(data.opportunities[i], data)
  {
    seq(|data.opportunities|, i requires 0 <= i < |data.opportunities| => DemoEntry(data.opportunities[i], data))
  }

  /** The i-th opportunity's URL is that of the i-th article and of no other. */
  predicate UrlsAligned(opportunities: seq<DemoOpportunity>, articles: seq<DemoArticle>) {
    |articles| == |opportunities| &&
    forall i, j :: 0 <= i < |opportunities| && 0 <= j < |articles| ==>
      (articles[j].url == opportunities[i].articleUrl <==> i == j)
  }

  /** The i-th opportunity's publisher is the i-th contact's company and no other's. */
  predicate PublishersAligned(opportunities: seq<DemoOpportunity>, contacts: seq<DemoContact>) {
    |contacts| == |opportunities| &&
    forall i, j :: 0 <= i < |opportunities| && 0 <= j < |contacts| ==>
      (contacts[j].company == opportunities[i].articlePublisher <==> i == j)
  }

  /** The i-th opportunity's id is that of the i-th email and of no other. */
  predicate IdsAligned(opportunities: seq<DemoOpportunity>, emails: seq<DemoEmail>) {
    |emails| == |opportunities| &&
    forall i, j :: 0 <= i < |opportunities| && 0 <= j < |emails| ==>
      (emails[j].opportunityId == opportunities[i].id <==> i == j)
  }

  predicate Aligned(data: DemoData) {
    && UrlsAligned(data.opportunities, data.articles)
    && PublishersAligned(data.opportunities, data.contacts)
    && IdsAligned(data.opportunities, data.emails)
  }

  /** Over aligned tables, every entry joins its own article, contact and
      email, and is still pending. */
  lemma AlignedJoin(data: DemoData, i: nat)
    requires Aligned(data) && i < |data.opportunities|
    ensures var r := DemoOpportunities(data)[i];
      && r.article == ArticleViewOf(data.articles[i])
      && r.contact == Some(ContactViewOf(data.contacts[i]))
      && r.email == Some(MailOf(data.emails[i]))
      && r.status == Pending
  {
    var o := data.opportunities[i];
    assert DemoOpportunities(data)[i] == DemoEntry(o, data);
    assert data.articles[i].url == o.articleUrl;
    assert data.contacts[i].company == o.articlePublisher;
    assert data.emails[i].opportunityId == o.id;
  }

  const FigaroUrl: string := "https://union-presse.fr/articles/figaro-recrute"
  const OuestFranceUrl: string := "https://union-presse.fr/articles/ouest-france-magazine"
  const MarieClaireUrl: string := "https://union-presse.fr/articles/marie-claire-transformation"
  const FigaroName: string := "Le Figaro"
  const OuestFranceName: string := "Ouest-France"
  const MarieClaireName: string := "Groupe Marie Claire"
  const FirstId: string := "opp-001"
  const SecondId: string := "opp-002"
  const ThirdId: string := "opp-003"
  const FigaroTitle: string :=
    "Le Figaro recrute 10 commerciaux pour " +
    "accélérer sa croissance digitale"
  const OuestFranceTitle: string :=
    "Ouest-France lance un nouveau magazine " +
    "mensuel lifestyle"
  const MarieClaireTitle: string :=
    "Groupe Marie Claire annonce sa " +
    "transformation digitale complète"

  const Articles: seq<DemoArticle> := [
    DemoArticle(FigaroUrl, FigaroTitle,
      "Le groupe de presse cherche à renforcer " +
      "ses équipes commerciales face à la " +
      "concurrence accrue sur le marché " +
      "publicitaire digital. Cette expansion " +
      "s'inscrit dans un plan de " +
      "transformation digitale ambitieux.",
      FigaroName, "Recrutement", "2026-01-28", "2026-01-29T09:00:00Z"),
    DemoArticle(OuestFranceUrl, OuestFranceTitle,
      "Le quotidien régional diversifie son " +
      "offre avec un nouveau titre print " +
      "nécessitant une équipe éditoriale " +
      "dédiée. Le magazine sera disponible en " +
      "kiosque dès mars.",
      OuestFranceName, "Lancement", "2026-01-27", "2026-01-28T09:00:00Z"),
    DemoArticle(MarieClaireUrl, MarieClaireTitle,
      "Le groupe investit 50M€ dans la " +
      "modernisation de ses outils. " +
      "Recrutement prévu de 20 profils tech et " +
      "commercial. Automatisation des " +
      "processus éditoriaux au programme.",
      MarieClaireName, "Stratégie", "2026-01-26", "2026-01-27T09:00:00Z")
  ]

  const Opportunities: seq<DemoOpportunity> := [
    DemoOpportunity(FirstId, FigaroUrl, FigaroTitle, FigaroName,
      "prospection_automation", 8,
      "Recrutement massif de commerciaux = " +
      "besoin d'efficacité prospection. Phase " +
      "de croissance avec pression " +
      "concurrentielle, timing idéal pour " +
      "automatisation.",
      "2026-01-29T09:05:00Z"),
    DemoOpportunity(SecondId, OuestFranceUrl, OuestFranceTitle, OuestFranceName,
      "layout_automation", 7,
      "Nouveau magazine = nouvelle mise en " +
      "page régulière. Volume de production " +
      "augmenté, opportunité d'automatiser les " +
      "layouts.",
      "2026-01-28T09:05:00Z"),
    DemoOpportunity(ThirdId, MarieClaireUrl, MarieClaireTitle, MarieClaireName,
      "prospection_automation", 9,
      "Transformation digitale complète avec " +
      "budget 50M€ et recrutement commercial. " +
      "Timing parfait pour proposer " +
      "automatisation prospection.",
      "2026-01-27T09:05:00Z")
  ]

  const Contacts: seq<DemoContact> := [
    DemoContact("jean.dupont@lefigaro.fr", "Jean", "Dupont",
      "Directeur Commercial", FigaroName,
      "https://linkedin.com/in/jean-dupont", "apollo_001"),
    DemoContact("marie.martin@ouest-france.fr", "Marie", "Martin",
      "Directrice de la Rédaction", OuestFranceName,
      "https://linkedin.com/in/marie-martin", "apollo_002"),
    DemoContact("pierre.durand@marieclaire.fr", "Pierre", "Durand",
      "Chief Digital Officer", MarieClaireName,
      "https://linkedin.com/in/pierre-durand", "apollo_003")
  ]

  const Emails: seq<DemoEmail> := [
    DemoEmail(FirstId, "Une idée pour votre équipe commerciale",
      "Jean,\n\nJ'ai vu l'annonce de vos " +
      "recrutements commerciaux. Avec 10 " +
      "nouveaux profils à intégrer, vous allez " +
      "sans doute chercher à maximiser leur " +
      "efficacité rapidement.\n\nNous " +
      "accompagnons des groupes de presse " +
      "comme le vôtre pour automatiser la " +
      "prospection : identification des bons " +
      "contacts, emails personnalisés par IA, " +
      "relances intelligentes. Nos clients " +
      "gagnent en moyenne 2h par commercial " +
      "par jour.\n\nUn call de 15 minutes pour " +
      "en discuter ?\n\nAlexandre"),
    DemoEmail(SecondId, "Automatiser les mises en page du " +
      "nouveau mag ?",
      "Marie,\n\nFélicitations pour le " +
      "lancement du magazine lifestyle ! Créer " +
      "une nouvelle identité visuelle et la " +
      "maintenir sur le long terme, c'est un " +
      "défi.\n\nNous avons développé des " +
      "outils d'IA générative qui automatisent " +
      "70% des mises en page courantes, tout " +
      "en gardant votre charte graphique. Vos " +
      "équipes se concentrent sur les pages " +
      "créatives, l'IA gère le " +
      "reste.\n\nIntéressée par une démo de 15 " +
      "minutes ?\n\nAlexandre"),
    DemoEmail(ThirdId, "Votre transformation digitale et la " +
      "prospection",
      "Pierre,\n\nVotre annonce sur la " +
      "transformation digitale du groupe m'a " +
      "interpellé. Avec 20 recrutements prévus " +
      "côté commercial, l'efficacité de la " +
      "prospection va devenir clé.\n\nNous " +
      "avons accompagné des groupes médias " +
      "similaires pour automatiser leur " +
      "prospection : IA qui qualifie les " +
      "leads, emails personnalisés à grande " +
      "échelle, CRM enrichi automatiquement. " +
      "Résultat : +40% de rendez-vous " +
      "qualifiés.\n\n15 minutes pour vous " +
      "montrer comment ?\n\nAlexandre")
  ]

  /** `DEMO_DATA`. */
  const Demo: DemoData := DemoData(Articles, Opportunities, Contacts, Emails)

  lemma DemoUrlsAligned()
    ensures UrlsAligned(Opportunities, Articles)
  {
    assert FigaroUrl[33] != OuestFranceUrl[33] && FigaroUrl[33] != MarieClaireUrl[33] &&
           OuestFranceUrl[33] != MarieClaireUrl[33];
  }

  lemma DemoPublishersAligned()
    ensures PublishersAligned(Opportunities, Contacts)
  {
    assert FigaroName[0] != OuestFranceName[0] && FigaroName[0] != MarieClaireName[0] &&
           OuestFranceName[0] != MarieClaireName[0];
  }

  lemma DemoIdsAligned()
    ensures IdsAligned(Opportunities, Emails)
  {
    assert FirstId[6] != SecondId[6] && FirstId[6] != ThirdId[6] && SecondId[6] != ThirdId[6];
  }

  /** `getDemoOpportunities()`. */
  function GetDemoOpportunities(): seq<Item> {
    DemoOpportunities(Demo)
  }

  /** Every demo entry has its article, its contact and its email, yet is
      pending. */
  lemma DemoEntriesComplete(i: nat)
    requires i < 3
    ensures |GetDemoOpportunities()| == 3
    ensures var r := GetDemoOpportunities()[i];
      && r.article == ArticleViewOf(Demo.articles[i])
      && r.contact == Some(ContactViewOf(Demo.contacts[i]))
      && r.email == Some(MailOf(Demo.emails[i]))
      && r.status == Pending
  {
    DemoUrlsAligned();
    DemoPublishersAligned();
    DemoIdsAligned();
    AlignedJoin(Demo, i);
  }
}
