/** `generateEmailSuggestion`: a cold-email subject and body chosen by
    opportunity type from a keyed template table, with a `default` entry
    for every other type and a greeting that depends on the first name. */
module Emails {
  import opened Options
  import opened Text

  datatype Email = Email(subject: string, body: string)

  /** One template. Every body has the same shape: the greeting, an
      introduction that names the publisher once (`intro` + publisher +
      `introEnd`), a proposal paragraph, and the common closing. */
  datatype Template = Template(key: string, topic: string, intro: string, introEnd: string, proposal: string)

  const CallToAction: string := "Est-ce que vous auriez quelques minutes " +
    "dans la semaine pour échanger ?"
  const Signature: string := "Alexandre"

  /** The default template, used for every type that is not a key. */
  const DefaultTemplate: Template :=
    Template("default", "actualités",
      "Je vous contacte car j'ai lu avec " +
      "intérêt les dernières actualités de ",
      ".",
      "J'imagine que l'optimisation des " +
      "process est un sujet pour vous. Nous " +
      "accompagnons les éditeurs de presse " +
      "dans leur transformation : " +
      "automatisation, IA générative, " +
      "optimisation des workflows.")

  /** The keyed templates, in declaration order; `default` comes last.
      Long texts are written as concatenations of short pieces. */
  const Templates: seq<Template> := [
    Template("nouvelle_formule", "nouvelle formule",
      "Je vous contacte car j'ai vu l'annonce " +
      "de la nouvelle formule de ",
      ". Une refonte éditoriale est souvent " +
      "synonyme de nouveaux process à mettre " +
      "en place.",
      "J'imagine que vous cherchez à optimiser " +
      "les workflows de production pour cette " +
      "nouvelle version — c'est exactement ce " +
      "sur quoi nous accompagnons les éditeurs " +
      "de presse : automatisation des mises en " +
      "page, génération de contenus, workflow " +
      "éditorial."),
    Template("lancement", "nouveau lancement",
      "Je vous contacte car j'ai appris le " +
      "lancement de votre nouveau titre chez ",
      ". Félicitations !",
      "J'imagine que la montée en charge de la " +
      "production va être un enjeu clé dans " +
      "les prochaines semaines. Nous " +
      "accompagnons des éditeurs comme vous " +
      "pour automatiser les tâches répétitives " +
      "et gagner du temps sur ce qui compte : " +
      "le contenu."),
    Template("recrutement", "vos recrutements",
      "Je vous contacte car j'ai vu que ",
      " est en phase de recrutement. Intégrer " +
      "de nouvelles équipes, c'est toujours un " +
      "moment clé.",
      "J'imagine que vous cherchez à maximiser " +
      "rapidement leur efficacité. Nous " +
      "accompagnons des éditeurs pour " +
      "automatiser les tâches répétitives — " +
      "nos clients gagnent en moyenne 2h par " +
      "jour et par collaborateur."),
    Template("transformation_digitale", "transformation digitale",
      "Je vous contacte car votre projet de " +
      "transformation digitale chez ",
      " a retenu mon attention.",
      "J'imagine que vous êtes en train de " +
      "repenser vos outils et process. C'est " +
      "exactement le bon moment pour intégrer " +
      "de l'automatisation intelligente. Nous " +
      "avons accompagné des groupes média " +
      "similaires avec des résultats " +
      "mesurables."),
    Template("evenement", "couverture événementielle",
      "Je vous contacte car j'ai vu que ",
      " prépare une couverture événementielle " +
      "importante.",
      "J'imagine que ces pics d'activité " +
      "demandent une organisation sans faille. " +
      "Nous aidons les rédactions à " +
      "automatiser les tâches répétitives pour " +
      "se concentrer sur le terrain et la " +
      "qualité éditoriale."),
    Template("prix_augmentation", "évolution tarifaire",
      "Je vous contacte car j'ai remarqué " +
      "l'évolution tarifaire de ",
      ".",
      "J'imagine que vous cherchez à renforcer " +
      "la valeur perçue par vos lecteurs. " +
      "L'automatisation des process permet de " +
      "réinvestir du temps dans ce qui fait la " +
      "différence : la qualité du contenu et " +
      "l'expérience lecteur."),
    Template("hors_serie", "hors-série",
      "Je vous contacte car j'ai vu la sortie " +
      "de votre nouveau hors-série chez ",
      ".",
      "J'imagine que la production de ces " +
      "numéros spéciaux mobilise beaucoup de " +
      "ressources. Nous accompagnons des " +
      "éditeurs pour automatiser les tâches " +
      "répétitives et libérer du temps pour la " +
      "création."),
    DefaultTemplate
  ]

  /** `firstName ? "Bonjour ${firstName}," : "Bonjour,"`. */
  function Greeting(firstName: string): (r: string)
    ensures StartsWith(r, "Bonjour") && r[|r| - 1] == ','
    ensures firstName == "" <==> r == "Bonjour,"
    ensures firstName != "" ==> r[7] == ' ' && r[8..|r| - 1] == firstName
  {
    if firstName != "" then "Bonjour " + firstName + "," else "Bonjour,"
  }

  /** Different first names give different greetings: the greeting
      identifies the name it was built from. */
  lemma GreetingInjective(a: string, b: string)
    requires Greeting(a) == Greeting(b)
    ensures a == b
  {
    var g := Greeting(a);
    if a != "" && b != "" {
      assert a == g[8..|g| - 1] == b;
    }
  }

  /** `contact?.first_name || ''`: `None` when there is no contact or its
      first name is null. */
  function FirstNameOrEmpty(firstName: Option<string>): string {
    firstName.GetOr("")
  }

  /** The email a template yields for a publisher and a greeting. */
  function Render(t: Template, publisher: string, greeting: string): (e: Email)
    ensures StartsWith(e.subject, publisher + " - ")
    ensures StartsWith(e.body, greeting)
    ensures EndsWith(e.body, Signature)
  {
    var body := greeting + "\n\n" + t.intro + publisher + t.introEnd + "\n\n" + t.proposal +
                "\n\n" + CallToAction + "\n\n" + Signature;
    assert body[..|greeting|] == greeting;
    assert body[|body| - |Signature|..] == Signature;
    var subject := publisher + " - " + t.topic;
    assert subject[..|publisher + " - "|] == publisher + " - ";
    Email(subject, body)
  }

  predicate EndsWith(s: string, suffix: string) {
    |suffix| <= |s| && s[|s| - |suffix|..] == suffix
  }

  /** `templates[i]` is the first template with key `kind`. */
  predicate FirstKeyAt(templates: seq<Template>, kind: string, i: int) {
    0 <= i < |templates| && templates[i].key == kind &&
    forall j :: 0 <= j < i ==> templates[j].key != kind
  }

  /** `templates[opportunityType] || templates.default` over a given table. */
  function SelectTemplate(templates: seq<Template>, kind: string, fallback: Template): (t: Template)
    ensures (forall i :: 0 <= i < |templates| ==> templates[i].key != kind) ==> t == fallback
    ensures forall i :: FirstKeyAt(templates, kind, i) ==> t == templates[i]
  {
    match FirstIndex(templates, (t: Template) => t.key == kind)
    case None => fallback
    case Some(i) =>
      assert forall j :: FirstKeyAt(templates, kind, j) ==> j == i;
      templates[i]
  }

  /** `generateEmailSuggestion(article, opportunityType, contact)`. */
  function GenerateEmailSuggestion(publisher: string, kind: string, firstName: Option<string>): (e: Email)
    ensures StartsWith(e.subject, publisher + " - ")
    ensures StartsWith(e.body, Greeting(FirstNameOrEmpty(firstName)))
    ensures EndsWith(e.body, Signature)
  {
    Render(SelectTemplate(Templates, kind, DefaultTemplate), publisher, Greeting(FirstNameOrEmpty(firstName)))
  }

  /** The table's keys: the seven opportunity types and `default`. */
  lemma TemplateKeys()
    ensures |Templates| == 8
    ensures Templates[0].key == "nouvelle_formule" && Templates[1].key == "lancement"
    ensures Templates[2].key == "recrutement" && Templates[3].key == "transformation_digitale"
    ensures Templates[4].key == "evenement" && Templates[5].key == "prix_augmentation"
    ensures Templates[6].key == "hors_serie" && Templates[7] == DefaultTemplate
    ensures FirstKeyAt(Templates, "default", 7)
    ensures forall i, j :: 0 <= i < j < |Templates| ==> Templates[i].key != Templates[j].key
  {
  }

  /** A type that is a key gets that key's template, rendered with the
      publisher and the greeting. */
  lemma KnownTypeUsesItsTemplate(publisher: string, i: nat, firstName: Option<string>)
    requires i < |Templates|
    ensures GenerateEmailSuggestion(publisher, Templates[i].key, firstName) ==
            Render(Templates[i], publisher, Greeting(FirstNameOrEmpty(firstName)))
  {
    TemplateKeys();
    assert FirstKeyAt(Templates, Templates[i].key, i);
  }

  /** Over any table whose first `default` entry is the fallback, a type
      that is no key selects what "default" selects. */
  lemma MissingKeyFallsBack(templates: seq<Template>, kind: string, fallback: Template, d: nat)
    requires forall i :: 0 <= i < |templates| ==> templates[i].key != kind
    requires FirstKeyAt(templates, "default", d) && templates[d] == fallback
    ensures SelectTemplate(templates, kind, fallback) == SelectTemplate(templates, "default", fallback)
  {
  }

  /** A type that is no key of the table gets the `default` email. */
  lemma UnknownTypeGetsDefault(publisher: string, kind: string, firstName: Option<string>)
    requires forall i :: 0 <= i < |Templates| ==> Templates[i].key != kind
    ensures GenerateEmailSuggestion(publisher, kind, firstName) ==
            GenerateEmailSuggestion(publisher, "default", firstName)
  {
    TemplateKeys();
    MissingKeyFallsBack(Templates, kind, DefaultTemplate, 7);
  }
}
