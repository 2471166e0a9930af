/** Worked instances of the keyword table: row order beats score, and a
    keyword is found anywhere in the text, inside other words too. */
module DetectionExamples {
  import opened Options
  import opened Text
  import opened Detection

  /** A row matches nowhere when every keyword has a character, `absent[k]`,
      that the text lacks. */
  lemma RowMissesText(text: string, p: Pattern, absent: seq<char>)
    requires |absent| == |p.keywords|
    requires forall k :: 0 <= k < |p.keywords| ==> absent[k] in p.keywords[k] && absent[k] !in text
    ensures !Matches(text, p)
  {
    forall k | 0 <= k < |p.keywords| ensures !Contains(text, p.keywords[k]) {
      MissingCharNotContained(text, p.keywords[k], absent[k]);
    }
  }

  /** Every keyword of the first two rows has an 'n'; every keyword of the
      recruitment row has an 'e'. */
  lemma KeywordLetters()
    ensures forall k :: 0 <= k < |Patterns[0].keywords| ==> 'n' in Patterns[0].keywords[k]
    ensures forall k :: 0 <= k < |Patterns[1].keywords| ==> 'n' in Patterns[1].keywords[k]
    ensures forall k :: 0 <= k < |Patterns[2].keywords| ==> 'e' in Patterns[2].keywords[k]
  {
  }

  /** The matched text of the first example. */
  lemma RecruteText()
    ensures ArticleText("Recrute", "digital") == "recrute digital"
  {
  }

  /** The first two rows miss "recrute digital"; the third row matches it. */
  lemma RecruteRows()
    ensures !Matches("recrute digital", Patterns[0]) && !Matches("recrute digital", Patterns[1])
    ensures Matches("recrute digital", Patterns[2])
  {
    var text := "recrute digital";
    assert Patterns[2].keywords[0] == "recrute";
    assert StartsWith(text, "recrute");
    KeywordLetters();
    assert 'n' !in text;
    RowMissesText(text, Patterns[0], seq(|Patterns[0].keywords|, _ => 'n'));
    RowMissesText(text, Patterns[1], seq(|Patterns[1].keywords|, _ => 'n'));
  }

  /** "recrute" (third row, score 7) wins over "digital" (fourth row,
      score 9): the earlier row decides. */
  lemma RecruitmentBeatsDigital()
    ensures DetectOpportunity("Recrute", "digital") == Some(Report(Patterns[2]))
  {
    RecruteText();
    RecruteRows();
    assert FirstMatchAt(Patterns, "recrute digital", 2);
  }

  /** The matched text of the second example. */
  lemma AujourdhuiText()
    ensures ArticleText("Aujourd'hui", "") == "aujourd'hui "
  {
  }

  /** "jo" occurs at offset 2 of "aujourd'hui ". */
  lemma JoOccurs()
    ensures Matches("aujourd'hui ", Patterns[4])
  {
    var text := "aujourd'hui ";
    assert text[2..4] == "jo";
    assert OccursAt(text, "jo", 2);
    ContainsIff(text, "jo");
    assert Patterns[4].keywords[1] == "jo";
  }

  /** The letters "aujourd'hui " lacks. */
  lemma AujourdhuiLacks()
    ensures 'n' !in "aujourd'hui " && 'e' !in "aujourd'hui " && 't' !in "aujourd'hui " && 'm' !in "aujourd'hui "
  {
  }

  /** The first three rows miss "aujourd'hui ". */
  lemma AujourdhuiMissesFirstRows()
    ensures !Matches("aujourd'hui ", Patterns[0]) && !Matches("aujourd'hui ", Patterns[1])
    ensures !Matches("aujourd'hui ", Patterns[2])
  {
    var text := "aujourd'hui ";
    KeywordLetters();
    AujourdhuiLacks();
    RowMissesText(text, Patterns[0], seq(|Patterns[0].keywords|, _ => 'n'));
    RowMissesText(text, Patterns[1], seq(|Patterns[1].keywords|, _ => 'n'));
    RowMissesText(text, Patterns[2], seq(|Patterns[2].keywords|, _ => 'e'));
  }

  /** The digital-transformation row misses "aujourd'hui ". */
  lemma AujourdhuiMissesDigital()
    ensures !Matches("aujourd'hui ", Patterns[3])
  {
    var absent := ['t', 'n', 'm', 't', 'n'];
    assert forall k :: 0 <= k < |Patterns[3].keywords| ==> absent[k] in Patterns[3].keywords[k];
    AujourdhuiLacks();
    RowMissesText("aujourd'hui ", Patterns[3], absent);
  }

  /** "jo" is found inside "aujourd'hui": a title that announces nothing is
      reported as an event. */
  lemma JoInsideAWord()
    ensures DetectOpportunity("Aujourd'hui", "") == Some(Report(Patterns[4]))
  {
    AujourdhuiText();
    JoOccurs();
    AujourdhuiMissesFirstRows();
    AujourdhuiMissesDigital();
    assert FirstMatchAt(Patterns, "aujourd'hui ", 4);
  }
}
