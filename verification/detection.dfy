/** `detectOpportunity`: an ordered keyword table scanned over the lowercase
    text "title summary" of an article; the first row with any keyword in
    the text decides the opportunity type, score and reasoning. */
module Detection {
  import opened Options
  import opened Text

  /** One row of the keyword table. */
  datatype Pattern = Pattern(kind: string, keywords: seq<string>, score: int, reasoning: string)

  /** What a match reports: the row without its keywords. */
  datatype Detected = Detected(kind: string, score: int, reasoning: string)

  const Patterns: seq<Pattern> := [
    Pattern("nouvelle_formule",
            ["nouvelle formule", "nouveau format", "refonte", "modernise", "réinvente"], 8,
            "Nouvelle formule = besoin potentiel d'outils de mise en page et production."),
    Pattern("lancement",
            ["lance", "lancement", "nouveau magazine", "nouveau titre", "nouvelle publication"], 9,
            "Lancement = équipes en croissance, besoin d'efficacité opérationnelle."),
    Pattern("recrutement",
            ["recrute", "recrutement", "embauche", "recherche", "poste"], 7,
            "Recrutement = phase de croissance, opportunité d'automatisation."),
    Pattern("transformation_digitale",
            ["digital", "transformation", "numérique", "tech", "innovation"], 9,
            "Transformation digitale = budget disponible pour nouveaux outils."),
    Pattern("evenement",
            ["jeux olympiques", "jo", "coupe du monde", "élection", "événement"], 6,
            "Événement majeur = pic d'activité, besoin d'efficacité."),
    Pattern("prix_augmentation",
            ["augmente", "prix", "hausse", "euro"], 5,
            "Hausse de prix = recherche de valeur ajoutée pour justifier le tarif."),
    Pattern("hors_serie",
            ["hors-série", "hors série", "spécial", "collector", "numéro spécial"], 6,
            "Hors-série = production supplémentaire, opportunité d'automatisation.")
  ]

  /** `pattern.keywords.some(kw => text.includes(kw))`. */
  predicate Matches(text: string, p: Pattern) {
    exists k :: 0 <= k < |p.keywords| && Contains(text, p.keywords[k])
  }

  /** `patterns[i]` is the first row matching the text. */
  predicate FirstMatchAt(patterns: seq<Pattern>, text: string, i: int) {
    0 <= i < |patterns| && Matches(text, patterns[i]) &&
    forall j :: 0 <= j < i ==> !Matches(text, patterns[j])
  }

  function Report(p: Pattern): Detected {
    Detected(p.kind, p.score, p.reasoning)
  }

  /** The table scan over a given table. */
  function DetectIn(patterns: seq<Pattern>, text: string): (r: Option<Detected>)
    ensures r.None? <==> forall i :: 0 <= i < |patterns| ==> !Matches(text, patterns[i])
    ensures forall i :: FirstMatchAt(patterns, text, i) ==> r == Some(Report(patterns[i]))
    ensures r.Some? ==> exists i :: FirstMatchAt(patterns, text, i) && r.value == Report(patterns[i])
  {
    match FirstIndex(patterns, p => Matches(text, p))
    case None => None
    case Some(i) =>
      assert FirstMatchAt(patterns, text, i);
      Some(Report(patterns[i]))
  }

  /** The text the table is matched against. */
  function ArticleText(title: string, summary: string): string {
    Lower(title + " " + summary)
  }

  /** The seven opportunity types. */
  predicate KnownKind(kind: string) {
    kind in ["nouvelle_formule", "lancement", "recrutement", "transformation_digitale",
             "evenement", "prix_augmentation", "hors_serie"]
  }

  /** Every row of the table has a known type and a score in 5..9. */
  predicate WellFormedTable(patterns: seq<Pattern>) {
    forall i :: 0 <= i < |patterns| ==> 5 <= patterns[i].score <= 9 && KnownKind(patterns[i].kind)
  }

  lemma PatternsWellFormed()
    ensures WellFormedTable(Patterns)
  {
  }

  /** A detection over a well-formed table reports one of its rows. */
  lemma DetectedBounds(patterns: seq<Pattern>, text: string)
    requires WellFormedTable(patterns)
    ensures DetectIn(patterns, text).Some? ==>
              5 <= DetectIn(patterns, text).value.score <= 9 && KnownKind(DetectIn(patterns, text).value.kind)
  {
  }

  /** `detectOpportunity` on an article's title and summary: the first
      matching row's type, score and reasoning, or nothing. */
  function DetectOpportunity(title: string, summary: string): (r: Option<Detected>)
    ensures r.None? <==> forall i :: 0 <= i < |Patterns| ==> !Matches(ArticleText(title, summary), Patterns[i])
    ensures forall i :: FirstMatchAt(Patterns, ArticleText(title, summary), i) ==> r == Some(Report(Patterns[i]))
    ensures r.Some? ==> 5 <= r.value.score <= 9 && KnownKind(r.value.kind)
  {
    PatternsWellFormed();
    DetectedBounds(Patterns, ArticleText(title, summary));
    DetectIn(Patterns, ArticleText(title, summary))
  }

  /** Row order decides, not score: a matching row hides every later row,
      whatever that row's score. */
  lemma EarlierRowWins(patterns: seq<Pattern>, text: string, i: nat, j: nat)
    requires i < j < |patterns|
    requires Matches(text, patterns[i]) && Matches(text, patterns[j])
    ensures DetectIn(patterns, text).Some?
    ensures exists k :: 0 <= k <= i && DetectIn(patterns, text) == Some(Report(patterns[k]))
  {
    var r := DetectIn(patterns, text);
    var k :| FirstMatchAt(patterns, text, k) && r.value == Report(patterns[k]);
  }
}
