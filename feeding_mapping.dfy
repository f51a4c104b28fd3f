/**
 * `FEEDING_MAPPING`: the constant roster of section names per feeding grade
 * key, and the lookups the feeding page performs on it.
 */
module FeedingMapping {
  import opened JsString
  import opened SectionName

  const K1Sections: seq<string> := [
    "MASAYAHIN & MAPAGBIGAY",
    "AKTIBO & BAYANIHAN",
    "MASUNURIN & MAPAG-ALAGA",
    "MAGITING & MARIKIT",
    "MAHINHIN & MAKATAO",
    "MATIPID & MASIPAG",
    "MALAMBING & MAUNAWAIN",
    "MASIGLA & PAGKAKAISA",
    "KATAPATAN & MAPAGKAWANGGAWA",
    "KARANGALAN & MAALALAHANIN",
    "MATULUNGIN & KAAYA-AYA",
    "MAHUSAY & TAGUMPAY",
    "MASINOP & MATALINO",
    "MAYUMI & MAKISIG"
  ]

  const K2Sections: seq<string> := [
    "MAGALANG & MAGILIW",
    "MAKA-DIYOS & MAPAGMAHAL",
    "PAG-ASA & MABAIT",
    "MAPAGKUMBABA & KAGALAKAN",
    "MAPAGKAKATIWALAAN & MASIGASIG",
    "MATIYAGA & MATAPAT",
    "RESPONSABLE & MALIKHAIN",
    "PAKAKAIBIGAN & MAPARAAN",
    "MASIKAP & MAAGAP",
    "KAALAMAN & KARUNUNGAN",
    "MAKABAYAN"
  ]

  const Grade1Sections: seq<string> := [
    "FL AM",
    "PAKWAN",
    "SUHA",
    "SAMPALOK",
    "LANGKA",
    "MANGGA",
    "PERAS",
    "DALANDAN",
    "KAIMITO",
    "MANGOSTEEN",
    "RAMBUTAN",
    "DUHAT",
    "LANZONES",
    "POMELO",
    "BLUEBERRY",
    "KIWI",
    "FL PM",
    "MELON",
    "MACOPA",
    "BAYABAS",
    "CHERRY",
    "SAGING",
    "DURIAN",
    "KAHEL",
    "KASOY",
    "GUYABANO"
  ]

  const Grade2Sections: seq<string> := [
    "FL NARRA",
    "ACACIA",
    "ALIBANGBANG",
    "AMUGIS",
    "APITONG",
    "BANABA",
    "KAMATSILE",
    "KAMUNING",
    "LANETE",
    "MAHOGANY",
    "PINO",
    "TALISAY",
    "TANGUILE",
    "TIBIG",
    "TOOG",
    "MAYAPIS",
    "NIPA",
    "FL IGOS",
    "KAMAGONG",
    "ANONANG",
    "CABALLERO",
    "DAPDAP",
    "GEMELINA",
    "IPIL-IPIL",
    "KALUMPIT",
    "LAWAAN",
    "MALUGAI",
    "MULAWIN",
    "MALABULAK",
    "MOLAVE",
    "OLIVA",
    "TINDALO",
    "YAKAL",
    "ALMACIGA",
    "BANI",
    "AROMA"
  ]

  const Grade3Sections: seq<string> := [
    "ST. MARY",
    "ST. JOHN",
    "ST. DOMINIC",
    "ST. SEBASTIAN",
    "ST. VINCENT",
    "ST. AGNES",
    "ST. MICHAEL",
    "ST. CLEMENT",
    "ST. RAPHAEL",
    "ST. MARTIN",
    "ST. HELENA",
    "ST. MARK",
    "ST. CLARE",
    "ST. JOSEPH",
    "ST. THOMAS",
    "ST. EMMANUEL",
    "ST. LUKE",
    "ST. GABRIEL",
    "ST. PAUL",
    "ST. MATTHEW",
    "ST. DAVID",
    "ST. ANNE",
    "ST. ROSE",
    "ST. PATRICK",
    "ST. CATHERINE",
    "ST. THERESE",
    "ST. ELIZABETH",
    "ST. CASSIAN",
    "ST. PHILOMENA",
    "ST. FRANCIS",
    "ST. BENEDICT"
  ]

  const Grade4Sections: seq<string> := [
    "FL - AM",
    "FL - PM",
    "ROSE",
    "ANTHURIUM",
    "ASTER",
    "BOUGAINVILLEA",
    "LILAC",
    "CARNATION",
    "GLADIOLA",
    "JASMINE",
    "ILANG - ILANG",
    "MARIGOLD",
    "DAFFODIL",
    "SUNFLOWER",
    "YELLOWBELL",
    "STARGAZER",
    "HYACINTH",
    "DAISY",
    "EVERLASTING",
    "WILDZINNIA",
    "TULIPS",
    "LAVENDER"
  ]

  const Grade5Sections: seq<string> := [
    "FL AM",
    "HOMO",
    "CORAL",
    "EMERALD",
    "GOSHENITE",
    "IDOCRASE",
    "JASPER",
    "MOONSTONE",
    "PERIDOT",
    "SAPPHIRE",
    "YELLOW TOPAZ",
    "TOURMALINE",
    "FL PM",
    "HOMO",
    "APATITE",
    "BLUE TOPAZ",
    "CITRINE",
    "DIAMOND",
    "PEARL",
    "RUBY",
    "SARDONYX"
  ]

  const Grade6Sections: seq<string> := [
    "FL AM JOSE RIZAL",
    "E. JACINTO",
    "E. AGUINALDO",
    "F. DAGOHOY",
    "MH. DEL PILAR",
    "S. KUDARAT",
    "M. PONCE",
    "F. BALTAZAR",
    "G. SILANG",
    "FL PM - ANDRES BONIFACIO",
    "P. URDUJA",
    "G. DEL PILAR",
    "D. SILANG",
    "M. SAKAY",
    "J. LUNA",
    "JL. ESCODA",
    "A. LUNA",
    "M. GOMEZ",
    "GL. JAENA",
    "A. MABINI",
    "V. LUCBAN"
  ]

  /** The keys of `FEEDING_MAPPING` in JavaScript property order: the
      integer-like keys first, ascending, then `K1` and `K2` as written. */
  const FeedingKeys: seq<string> := ["1", "2", "3", "4", "5", "6", "K1", "K2"]

  /** `FEEDING_MAPPING[g] || []`. */
  function Roster(g: string): (r: seq<string>)
    ensures g !in FeedingKeys ==> r == []
  {
    match g
    case "K1" => K1Sections
    case "K2" => K2Sections
    case "1" => Grade1Sections
    case "2" => Grade2Sections
    case "3" => Grade3Sections
    case "4" => Grade4Sections
    case "5" => Grade5Sections
    case "6" => Grade6Sections
    case _ => []
  }

  lemma K1Normal0()
    ensures IsNormalSection("MASAYAHIN & MAPAGBIGAY")
    ensures IsNormalSection("AKTIBO & BAYANIHAN")
  {
  }

  lemma K1Normal1()
    ensures IsNormalSection("MASUNURIN & MAPAG-ALAGA")
  {
  }

  lemma K1Normal2()
    ensures IsNormalSection("MAGITING & MARIKIT")
    ensures IsNormalSection("MAHINHIN & MAKATAO")
  {
  }

  lemma K1Normal3()
    ensures IsNormalSection("MATIPID & MASIPAG")
    ensures IsNormalSection("MALAMBING & MAUNAWAIN")
  {
  }

  lemma K1Normal4()
    ensures IsNormalSection("MASIGLA & PAGKAKAISA")
  {
  }

  lemma K1Normal5()
    ensures IsNormalSection("KATAPATAN & MAPAGKAWANGGAWA")
  {
  }

  lemma K1Normal6()
    ensures IsNormalSection("KARANGALAN & MAALALAHANIN")
  {
  }

  lemma K1Normal7()
    ensures IsNormalSection("MATULUNGIN & KAAYA-AYA")
    ensures IsNormalSection("MAHUSAY & TAGUMPAY")
  {
  }

  lemma K1Normal8()
    ensures IsNormalSection("MASINOP & MATALINO")
    ensures IsNormalSection("MAYUMI & MAKISIG")
  {
  }

  lemma K2Normal0()
    ensures IsNormalSection("MAGALANG & MAGILIW")
  {
  }

  lemma K2Normal1()
    ensures IsNormalSection("MAKA-DIYOS & MAPAGMAHAL")
    ensures IsNormalSection("PAG-ASA & MABAIT")
  {
  }

  lemma K2Normal2()
    ensures IsNormalSection("MAPAGKUMBABA & KAGALAKAN")
  {
  }

  lemma K2Normal3()
    ensures IsNormalSection("MAPAGKAKATIWALAAN & MASIGASIG")
  {
  }

  lemma K2Normal4()
    ensures IsNormalSection("MATIYAGA & MATAPAT")
  {
  }

  lemma K2Normal5()
    ensures IsNormalSection("RESPONSABLE & MALIKHAIN")
  {
  }

  lemma K2Normal6()
    ensures IsNormalSection("PAKAKAIBIGAN & MAPARAAN")
    ensures IsNormalSection("MASIKAP & MAAGAP")
  {
  }

  lemma K2Normal7()
    ensures IsNormalSection("KAALAMAN & KARUNUNGAN")
    ensures IsNormalSection("MAKABAYAN")
  {
  }

  lemma Grade1Normal0()
    ensures IsNormalSection("FL AM")
    ensures IsNormalSection("PAKWAN")
    ensures IsNormalSection("SUHA")
    ensures IsNormalSection("SAMPALOK")
    ensures IsNormalSection("LANGKA")
    ensures IsNormalSection("MANGGA")
    ensures IsNormalSection("PERAS")
  {
  }

  lemma Grade1Normal1()
    ensures IsNormalSection("DALANDAN")
    ensures IsNormalSection("KAIMITO")
    ensures IsNormalSection("MANGOSTEEN")
    ensures IsNormalSection("RAMBUTAN")
    ensures IsNormalSection("DUHAT")
  {
  }

  lemma Grade1Normal2()
    ensures IsNormalSection("LANZONES")
    ensures IsNormalSection("POMELO")
    ensures IsNormalSection("BLUEBERRY")
    ensures IsNormalSection("KIWI")
    ensures IsNormalSection("FL PM")
    ensures IsNormalSection("MELON")
  {
  }

  lemma Grade1Normal3()
    ensures IsNormalSection("MACOPA")
    ensures IsNormalSection("BAYABAS")
    ensures IsNormalSection("CHERRY")
    ensures IsNormalSection("SAGING")
    ensures IsNormalSection("DURIAN")
    ensures IsNormalSection("KAHEL")
  {
  }

  lemma Grade1Normal4()
    ensures IsNormalSection("KASOY")
    ensures IsNormalSection("GUYABANO")
  {
  }

  lemma Grade2Normal0()
    ensures IsNormalSection("FL NARRA")
    ensures IsNormalSection("ACACIA")
    ensures IsNormalSection("ALIBANGBANG")
    ensures IsNormalSection("AMUGIS")
    ensures IsNormalSection("APITONG")
  {
  }

  lemma Grade2Normal1()
    ensures IsNormalSection("BANABA")
    ensures IsNormalSection("KAMATSILE")
    ensures IsNormalSection("KAMUNING")
    ensures IsNormalSection("LANETE")
    ensures IsNormalSection("MAHOGANY")
  {
  }

  lemma Grade2Normal2()
    ensures IsNormalSection("PINO")
    ensures IsNormalSection("TALISAY")
    ensures IsNormalSection("TANGUILE")
    ensures IsNormalSection("TIBIG")
    ensures IsNormalSection("TOOG")
    ensures IsNormalSection("MAYAPIS")
    ensures IsNormalSection("NIPA")
  {
  }

  lemma Grade2Normal3()
    ensures IsNormalSection("FL IGOS")
    ensures IsNormalSection("KAMAGONG")
    ensures IsNormalSection("ANONANG")
    ensures IsNormalSection("CABALLERO")
    ensures IsNormalSection("DAPDAP")
  {
  }

  lemma Grade2Normal4()
    ensures IsNormalSection("GEMELINA")
    ensures IsNormalSection("IPIL-IPIL")
    ensures IsNormalSection("KALUMPIT")
    ensures IsNormalSection("LAWAAN")
    ensures IsNormalSection("MALUGAI")
  {
  }

  lemma Grade2Normal5()
    ensures IsNormalSection("MULAWIN")
    ensures IsNormalSection("MALABULAK")
    ensures IsNormalSection("MOLAVE")
    ensures IsNormalSection("OLIVA")
    ensures IsNormalSection("TINDALO")
    ensures IsNormalSection("YAKAL")
  {
  }

  lemma Grade2Normal6()
    ensures IsNormalSection("ALMACIGA")
    ensures IsNormalSection("BANI")
    ensures IsNormalSection("AROMA")
  {
  }

  lemma Grade3Normal0()
    ensures IsNormalSection("ST. MARY")
    ensures IsNormalSection("ST. JOHN")
    ensures IsNormalSection("ST. DOMINIC")
    ensures IsNormalSection("ST. SEBASTIAN")
  {
  }

  lemma Grade3Normal1()
    ensures IsNormalSection("ST. VINCENT")
    ensures IsNormalSection("ST. AGNES")
    ensures IsNormalSection("ST. MICHAEL")
  {
  }

  lemma Grade3Normal2()
    ensures IsNormalSection("ST. CLEMENT")
    ensures IsNormalSection("ST. RAPHAEL")
    ensures IsNormalSection("ST. MARTIN")
  {
  }

  lemma Grade3Normal3()
    ensures IsNormalSection("ST. HELENA")
    ensures IsNormalSection("ST. MARK")
    ensures IsNormalSection("ST. CLARE")
    ensures IsNormalSection("ST. JOSEPH")
  {
  }

  lemma Grade3Normal4()
    ensures IsNormalSection("ST. THOMAS")
    ensures IsNormalSection("ST. EMMANUEL")
    ensures IsNormalSection("ST. LUKE")
  {
  }

  lemma Grade3Normal5()
    ensures IsNormalSection("ST. GABRIEL")
    ensures IsNormalSection("ST. PAUL")
    ensures IsNormalSection("ST. MATTHEW")
    ensures IsNormalSection("ST. DAVID")
  {
  }

  lemma Grade3Normal6()
    ensures IsNormalSection("ST. ANNE")
    ensures IsNormalSection("ST. ROSE")
    ensures IsNormalSection("ST. PATRICK")
    ensures IsNormalSection("ST. CATHERINE")
  {
  }

  lemma Grade3Normal7()
    ensures IsNormalSection("ST. THERESE")
    ensures IsNormalSection("ST. ELIZABETH")
    ensures IsNormalSection("ST. CASSIAN")
  {
  }

  lemma Grade3Normal8()
    ensures IsNormalSection("ST. PHILOMENA")
    ensures IsNormalSection("ST. FRANCIS")
    ensures IsNormalSection("ST. BENEDICT")
  {
  }

  lemma Grade4Normal0()
    ensures IsNormalSection("FL - AM")
    ensures IsNormalSection("FL - PM")
    ensures IsNormalSection("ROSE")
    ensures IsNormalSection("ANTHURIUM")
    ensures IsNormalSection("ASTER")
  {
  }

  lemma Grade4Normal1()
    ensures IsNormalSection("BOUGAINVILLEA")
    ensures IsNormalSection("LILAC")
    ensures IsNormalSection("CARNATION")
    ensures IsNormalSection("GLADIOLA")
  {
  }

  lemma Grade4Normal2()
    ensures IsNormalSection("JASMINE")
    ensures IsNormalSection("ILANG - ILANG")
    ensures IsNormalSection("MARIGOLD")
    ensures IsNormalSection("DAFFODIL")
  {
  }

  lemma Grade4Normal3()
    ensures IsNormalSection("SUNFLOWER")
    ensures IsNormalSection("YELLOWBELL")
    ensures IsNormalSection("STARGAZER")
    ensures IsNormalSection("HYACINTH")
  {
  }

  lemma Grade4Normal4()
    ensures IsNormalSection("DAISY")
    ensures IsNormalSection("EVERLASTING")
    ensures IsNormalSection("WILDZINNIA")
    ensures IsNormalSection("TULIPS")
    ensures IsNormalSection("LAVENDER")
  {
  }

  lemma Grade5Normal0()
    ensures IsNormalSection("FL AM")
    ensures IsNormalSection("HOMO")
    ensures IsNormalSection("CORAL")
    ensures IsNormalSection("EMERALD")
    ensures IsNormalSection("GOSHENITE")
    ensures IsNormalSection("IDOCRASE")
  {
  }

  lemma Grade5Normal1()
    ensures IsNormalSection("JASPER")
    ensures IsNormalSection("MOONSTONE")
    ensures IsNormalSection("PERIDOT")
    ensures IsNormalSection("SAPPHIRE")
  {
  }

  lemma Grade5Normal2()
    ensures IsNormalSection("YELLOW TOPAZ")
    ensures IsNormalSection("TOURMALINE")
    ensures IsNormalSection("FL PM")
    ensures IsNormalSection("HOMO")
    ensures IsNormalSection("APATITE")
  {
  }

  lemma Grade5Normal3()
    ensures IsNormalSection("BLUE TOPAZ")
    ensures IsNormalSection("CITRINE")
    ensures IsNormalSection("DIAMOND")
    ensures IsNormalSection("PEARL")
    ensures IsNormalSection("RUBY")
  {
  }

  lemma Grade5Normal4()
    ensures IsNormalSection("SARDONYX")
  {
  }

  lemma Grade6Normal0()
    ensures IsNormalSection("FL AM JOSE RIZAL")
    ensures IsNormalSection("E. JACINTO")
    ensures IsNormalSection("E. AGUINALDO")
  {
  }

  lemma Grade6Normal1()
    ensures IsNormalSection("F. DAGOHOY")
    ensures IsNormalSection("MH. DEL PILAR")
    ensures IsNormalSection("S. KUDARAT")
  {
  }

  lemma Grade6Normal2()
    ensures IsNormalSection("M. PONCE")
    ensures IsNormalSection("F. BALTAZAR")
    ensures IsNormalSection("G. SILANG")
  {
  }

  lemma Grade6Normal3()
    ensures IsNormalSection("FL PM - ANDRES BONIFACIO")
    ensures IsNormalSection("P. URDUJA")
  {
  }

  lemma Grade6Normal4()
    ensures IsNormalSection("G. DEL PILAR")
    ensures IsNormalSection("D. SILANG")
    ensures IsNormalSection("M. SAKAY")
    ensures IsNormalSection("J. LUNA")
  {
  }

  lemma Grade6Normal5()
    ensures IsNormalSection("JL. ESCODA")
    ensures IsNormalSection("A. LUNA")
    ensures IsNormalSection("M. GOMEZ")
    ensures IsNormalSection("GL. JAENA")
  {
  }

  lemma Grade6Normal6()
    ensures IsNormalSection("A. MABINI")
    ensures IsNormalSection("V. LUCBAN")
  {
  }

  lemma K1Normal()
    ensures forall x | x in K1Sections :: IsNormalSection(x) && x != []
  {
    K1Normal0();
    K1Normal1();
    K1Normal2();
    K1Normal3();
    K1Normal4();
    K1Normal5();
    K1Normal6();
    K1Normal7();
    K1Normal8();
  }

  lemma K2Normal()
    ensures forall x | x in K2Sections :: IsNormalSection(x) && x != []
  {
    K2Normal0();
    K2Normal1();
    K2Normal2();
    K2Normal3();
    K2Normal4();
    K2Normal5();
    K2Normal6();
    K2Normal7();
  }

  lemma Grade1Normal()
    ensures forall x | x in Grade1Sections :: IsNormalSection(x) && x != []
  {
    Grade1Normal0();
    Grade1Normal1();
    Grade1Normal2();
    Grade1Normal3();
    Grade1Normal4();
  }

  lemma Grade2Normal()
    ensures forall x | x in Grade2Sections :: IsNormalSection(x) && x != []
  {
    Grade2Normal0();
    Grade2Normal1();
    Grade2Normal2();
    Grade2Normal3();
    Grade2Normal4();
    Grade2Normal5();
    Grade2Normal6();
  }

  lemma Grade3Normal()
    ensures forall x | x in Grade3Sections :: IsNormalSection(x) && x != []
  {
    Grade3Normal0();
    Grade3Normal1();
    Grade3Normal2();
    Grade3Normal3();
    Grade3Normal4();
    Grade3Normal5();
    Grade3Normal6();
    Grade3Normal7();
    Grade3Normal8();
  }

  lemma Grade4Normal()
    ensures forall x | x in Grade4Sections :: IsNormalSection(x) && x != []
  {
    Grade4Normal0();
    Grade4Normal1();
    Grade4Normal2();
    Grade4Normal3();
    Grade4Normal4();
  }

  lemma Grade5Normal()
    ensures forall x | x in Grade5Sections :: IsNormalSection(x) && x != []
  {
    Grade5Normal0();
    Grade5Normal1();
    Grade5Normal2();
    Grade5Normal3();
    Grade5Normal4();
  }

  lemma Grade6Normal()
    ensures forall x | x in Grade6Sections :: IsNormalSection(x) && x != []
  {
    Grade6Normal0();
    Grade6Normal1();
    Grade6Normal2();
    Grade6Normal3();
    Grade6Normal4();
    Grade6Normal5();
    Grade6Normal6();
  }

  /** Every roster entry is already in normalised form. */
  lemma RosterNormal(g: string)
    ensures forall x | x in Roster(g) :: IsNormalSection(x) && x != []
  {
    K1Normal();
    K2Normal();
    Grade1Normal();
    Grade2Normal();
    Grade3Normal();
    Grade4Normal();
    Grade5Normal();
    Grade6Normal();
  }

  /** `(FEEDING_MAPPING[g] || []).some(x => normalizeSectionName(x) === sec)`. */
  predicate RosterHas(g: string, sec: string) {
    exists x | x in Roster(g) :: NormalizeSectionName(x) == sec
  }

  /** Since every roster entry is already normalised, the roster test is
      plain membership. */
  lemma RosterHasIsMembership(g: string, sec: string)
    ensures RosterHas(g, sec) <==> sec in Roster(g)
  {
    RosterNormal(g);
    forall x | x in Roster(g)
      ensures NormalizeSectionName(x) == x
    {
      NormalizeSectionNameFixes(x);
    }
  }

  /** The test `sec && roster.some(...)` of the lookups is membership of a
      non-empty `sec`, and no roster holds the empty string. */
  lemma RosterTest(g: string, sec: string)
    ensures (sec != [] && RosterHas(g, sec)) <==> sec in Roster(g)
  {
    RosterHasIsMembership(g, sec);
    RosterNormal(g);
  }

  /** The first of `keys` that satisfies `has`. */
  function FirstWith(keys: seq<string>, has: string -> bool): Option<string> {
    if keys == [] then None
    else if has(keys[0]) then Some(keys[0])
    else FirstWith(keys[1..], has)
  }

  lemma {:induction false} FirstWithIsFirst(keys: seq<string>, has: string -> bool)
    ensures FirstWith(keys, has).None? <==> forall j | 0 <= j < |keys| :: !has(keys[j])
    ensures FirstWith(keys, has).Some? ==> exists j | 0 <= j < |keys| ::
      && FirstWith(keys, has).value == keys[j]
      && has(keys[j])
      && forall m | 0 <= m < j :: !has(keys[m])
  {
    if keys != [] {
      FirstWithIsFirst(keys[1..], has);
      if !has(keys[0]) && FirstWith(keys[1..], has).Some? {
        var j :| 0 <= j < |keys| - 1 && FirstWith(keys[1..], has).value == keys[1..][j]
          && has(keys[1..][j]) && forall m | 0 <= m < j :: !has(keys[1..][m]);
        assert forall m | 0 <= m < j + 1 :: !has(keys[m]);
      }
    }
  }

  lemma {:induction false} FirstWithAt(keys: seq<string>, has: string -> bool, i: nat)
    requires i <= |keys|
    requires forall j | 0 <= j < i :: !has(keys[j])
    ensures i == |keys| ==> FirstWith(keys, has) == None
    ensures i < |keys| && has(keys[i]) ==> FirstWith(keys, has) == Some(keys[i])
  {
    if keys != [] && i > 0 {
      FirstWithAt(keys[1..], has, i - 1);
    }
  }

  /** The test the section-only lookup applies to each key. */
  function OwnsSection(sec: string): string -> bool {
    g => RosterHas(g, sec)
  }

  /** The grade the section-only lookup assigns to `sec`: the first key, in
      property order, whose roster holds `sec`. */
  function SectionOwner(sec: string): Option<string> {
    FirstWith(FeedingKeys, OwnsSection(sec))
  }

  /** The search loop of the section-only lookups: test the keys in order
      and stop at the first that passes. */
  method FindFirstKey(keys: seq<string>, has: string -> bool) returns (found: Option<string>)
    ensures found == FirstWith(keys, has)
  {
    var i := 0;
    while i < |keys|
      invariant 0 <= i <= |keys|
      invariant forall j | 0 <= j < i :: !has(keys[j])
    {
      if has(keys[i]) {
        FirstWithAt(keys, has, i);
        return Some(keys[i]);
      }
      i := i + 1;
    }
    FirstWithAt(keys, has, i);
    return None;
  }

  lemma SectionOwnerIsKey(sec: string)
    ensures SectionOwner(sec).Some? ==> SectionOwner(sec).value in FeedingKeys
  {
    FirstWithIsFirst(FeedingKeys, OwnsSection(sec));
  }

  /** The owner is the earliest key in `FeedingKeys` whose roster holds the
      section, and there is none exactly when no roster holds it. */
  lemma SectionOwnerFirst(sec: string)
    ensures SectionOwner(sec).None? <==> forall g | g in FeedingKeys :: sec !in Roster(g)
    ensures SectionOwner(sec).Some? ==> exists j | 0 <= j < |FeedingKeys| ::
      && SectionOwner(sec).value == FeedingKeys[j]
      && sec in Roster(FeedingKeys[j])
      && forall m | 0 <= m < j :: sec !in Roster(FeedingKeys[m])
  {
    FirstWithIsFirst(FeedingKeys, OwnsSection(sec));
    forall g | g in FeedingKeys
      ensures RosterHas(g, sec) <==> sec in Roster(g)
    {
      RosterHasIsMembership(g, sec);
    }
  }
}
