/** The publisher-to-domain resolution on concrete names: an exact key and
    the empty name that every entry contains. */
module HunterExamples {
  import opened Options
  import opened Text
  import opened Hunter

  /** With no exact key, the first related entry decides. */
  lemma FallbackDecides(registry: seq<Entry>, publisher: string, i: int)
    requires forall j :: 0 <= j < |registry| ==> registry[j].name != publisher
    requires FirstRelatedAt(registry, publisher, i)
    ensures LookupDomain(registry, publisher) == Some(registry[i].domain)
  {
  }

  /** An exact registry key resolves to its own domain. */
  lemma ExactKeyResolves()
    ensures GetPublisherDomain("Le Figaro") == Some("lefigaro.fr")
  {
    assert FirstKeyAt(PublisherDomains, "Le Figaro", 10);
  }

  /** The empty name is contained in every entry, so the first entry wins. */
  lemma EmptyNameResolvesToFirstEntry()
    ensures GetPublisherDomain("") == Some("reworldmedia.com")
  {
    ContainsEmpty(Lower("Auto Plus"));
    assert FirstRelatedAt(PublisherDomains, "", 0);
    assert forall j :: 0 <= j < |PublisherDomains| ==> PublisherDomains[j].name != "";
    FallbackDecides(PublisherDomains, "", 0);
  }

  /** A name longer than "figaro" that lacks one of its letters, in both
      cases, is unrelated to it. */
  lemma UnrelatedByLetter(name: string, c: char)
    requires |name| > 6 && c in "figaro"
    requires 'a' <= c <= 'z' && c !in name && (c as int - 0x20) as char !in name
    ensures !Related("figaro", name)
  {
    assert Lower("figaro") == "figaro";
    ContainsIff("figaro", Lower(name));
    LowerLacks(name, c);
    MissingCharNotContained(Lower(name), "figaro", c);
  }

  /** Each of the first ten names lacks a letter of "figaro": a 'g' for
      all but the tenth, which lacks the 'f'. */
  lemma UnrelatedEntry0()
    ensures !Related("figaro", PublisherDomains[0].name)
  {
    var name := PublisherDomains[0].name;
    assert name == "Auto Plus";
    UnrelatedByLetter(name, 'g');
  }

  lemma UnrelatedEntry1()
    ensures !Related("figaro", PublisherDomains[1].name)
  {
    var name := PublisherDomains[1].name;
    assert name == "AUTOhebdo";
    UnrelatedByLetter(name, 'g');
  }

  lemma UnrelatedEntry2()
    ensures !Related("figaro", PublisherDomains[2].name)
  {
    var name := PublisherDomains[2].name;
    assert name == "Reworld Media";
    UnrelatedByLetter(name, 'g');
  }

  lemma UnrelatedEntry3()
    ensures !Related("figaro", PublisherDomains[3].name)
  {
    var name := PublisherDomains[3].name;
    assert name == "Haute Fidélité";
    UnrelatedByLetter(name, 'g');
  }

  lemma UnrelatedEntry4()
    ensures !Related("figaro", PublisherDomains[4].name)
  {
    var name := PublisherDomains[4].name;
    assert name == "Libération";
    UnrelatedByLetter(name, 'g');
  }

  lemma UnrelatedEntry5()
    ensures !Related("figaro", PublisherDomains[5].name)
  {
    var name := PublisherDomains[5].name;
    assert name == "Premiere";
    UnrelatedByLetter(name, 'g');
  }

  lemma UnrelatedEntry6()
    ensures !Related("figaro", PublisherDomains[6].name)
  {
    var name := PublisherDomains[6].name;
    assert name == "Première";
    UnrelatedByLetter(name, 'g');
  }

  lemma UnrelatedEntry7()
    ensures !Related("figaro", PublisherDomains[7].name)
  {
    var name := PublisherDomains[7].name;
    assert name == "L'Equipe";
    UnrelatedByLetter(name, 'g');
  }

  lemma UnrelatedEntry8()
    ensures !Related("figaro", PublisherDomains[8].name)
  {
    var name := PublisherDomains[8].name;
    assert name == "L'Équipe";
    UnrelatedByLetter(name, 'g');
  }

  lemma UnrelatedEntry9()
    ensures !Related("figaro", PublisherDomains[9].name)
  {
    var name := PublisherDomains[9].name;
    assert name == "Voyages & Hôtels de Rêve";
    VoyagesUnrelated();
  }

  lemma VoyagesUnrelated()
    ensures !Related("figaro", "Voyages & Hôtels de Rêve")
  {
    UnrelatedByLetter("Voyages & Hôtels de Rêve", 'f');
  }

  lemma FirstTenUnrelated()
    ensures forall j :: 0 <= j < 10 ==> !Related("figaro", PublisherDomains[j].name)
  {
    forall j | 0 <= j < 10 ensures !Related("figaro", PublisherDomains[j].name) {
      if j == 0 {
        UnrelatedEntry0();
      } else if j == 1 {
        UnrelatedEntry1();
      } else if j == 2 {
        UnrelatedEntry2();
      } else if j == 3 {
        UnrelatedEntry3();
      } else if j == 4 {
        UnrelatedEntry4();
      } else if j == 5 {
        UnrelatedEntry5();
      } else if j == 6 {
        UnrelatedEntry6();
      } else if j == 7 {
        UnrelatedEntry7();
      } else if j == 8 {
        UnrelatedEntry8();
      } else {
        UnrelatedEntry9();
      }
    }
  }

  /** "Le Figaro" lowered contains "figaro". */
  lemma LeFigaroContainsFigaro()
    ensures Contains(Lower("Le Figaro"), "figaro")
  {
    var name := Lower("Le Figaro");
    assert name == "le figaro";
    assert OccursAt(name, "figaro", 3);
    ContainsIff(name, "figaro");
  }

  /** The eleventh registry entry. */
  lemma LeFigaroEntry()
    ensures PublisherDomains[10] == Entry("Le Figaro", "lefigaro.fr")
  {
  }

  lemma FigaroRelatedAtLeFigaro()
    ensures Related("figaro", PublisherDomains[10].name)
  {
    LeFigaroEntry();
    LeFigaroContainsFigaro();
  }

  /** "figaro" is no registry key. */
  lemma FigaroIsNoKey()
    ensures forall j :: 0 <= j < |PublisherDomains| ==> PublisherDomains[j].name != "figaro"
  {
  }

  /** "Le Figaro" is the first registry entry related to "figaro". */
  lemma FigaroFirstRelated()
    ensures FirstRelatedAt(PublisherDomains, "figaro", 10)
  {
    FigaroRelatedAtLeFigaro();
    FirstTenUnrelated();
  }

  /** With no exact key, the lookup of "figaro" falls back to entry 10. */
  lemma FigaroFallsBack()
    ensures LookupDomain(PublisherDomains, "figaro") == Some(PublisherDomains[10].domain)
  {
    FigaroIsNoKey();
    FigaroFirstRelated();
    FallbackDecides(PublisherDomains, "figaro", 10);
  }

  /** A partial name finds its publisher's domain: "figaro" resolves through
      "Le Figaro", the first registry name that contains it. */
  lemma PartialNameResolves()
    ensures GetPublisherDomain("figaro") == Some("lefigaro.fr")
  {
    LeFigaroEntry();
    FigaroFallsBack();
  }
}
