/**
 * `SCHOOL_DATA`, the official grade keys and section names of the school,
 * and `normalizeGrade`, which maps the grade text stored with a student to
 * one of those keys.
 */
module SchoolData {
  import opened JsString

  const K1Roster: seq<string> := [
    "MASAYAHIN", "MAPAGBIGAY", "BAYANIHAN", "AKTIBO", "MAPAG-ALAGA", "MASUNURIN",
    "MAGITING", "PAGKAKAISA", "MARIKIT", "MAHINHIN", "MAKATAO", "MATIPID", "MASIPAG",
    "MALAMBING", "MAUNAWAIN", "MASIGLA", "KATAPATAN", "MAPAGKAWANGGAWA", "KARANGALAN",
    "MAALALAHANIN", "MATULUNGIN", "KAAYA-AYA", "MAHUSAY", "TAGUMPAY", "MASINOP",
    "MATALINO", "MAYUMI", "MAKISIG"
  ]

  const K2Roster: seq<string> := [
    "MAGALANG", "MAGILIW", "MAKA-DIYOS", "MAPAGMAHAL", "PAG-ASA", "MABAIT",
    "MAPAGKUMBABA", "KAGALAKAN", "MAPAGKAKATIWALAAN", "MASIGASIG", "MATIYAGA", "MATAPAT",
    "RESPONSIBLE", "MALIKHAIN", "PALAKAIBIGAN", "MAPAMARAAN", "MASIKAP", "MAAGAP",
    "KAALAMAN", "KARUNUNGAN", "MAKABAYAN"
  ]

  const Grade1Roster: seq<string> := [
    "SAGING", "DALANDAN", "KAHEL", "STRAWBERRY", "GUYABANO", "KIWI", "PAPAYA", "MACOPA",
    "LANZONES", "MELON", "ATIS", "KAIMITO", "KALAMANSI", "LEMON", "DUHAT", "POMELO",
    "PAKWAN", "PERAS", "BLUEBERRY", "RAMBUTAN", "CHERRY", "SUHA", "LANGKA", "MANGOSTEEN",
    "SAMPALOK", "FL AM", "MANGGA", "KASOY", "DURIAN", "BAYABAS", "LONGAN"
  ]

  const Grade2Roster: seq<string> := [
    "Acacia", "Alibangbang", "FL-Narra", "Amugis", "Apitong", "Banaba", "Mayapis",
    "Kamatsile", "Kamuning", "Lanete", "Mahogany", "Pino", "Talisay", "Tanguile", "Tibig",
    "Toog", "Nipa", "FL-Igos", "Kamagong", "Anonang", "Caballero", "Dapdap", "Gemelina",
    "Ipil-Ipil", "Kalumpit", "Lawaan", "Malugai", "Mulawin", "Malabulak", "Molave",
    "Oliva", "Tindalo", "Yakal", "Almaciga", "Bani", "Aroma"
  ]

  const Grade3Roster: seq<string> := [
    "ST. RAPHAEL", "ST. BERNADETTE", "ST. MARY", "ST. JOHN", "ST. DOMINIC",
    "ST. SEBASTIAN", "ST. IGNATIUS", "ST. PIO", "ST. VINCENT", "ST. AGNES", "ST. MICHAEL",
    "ST. CLEMENT", "ST. MARTIN", "ST. HELENA", "ST. MARK", "ST. ANTHONY", "ST. CLARE",
    "ST. JOSEPH", "ST. THOMAS", "ST. FRANCIS", "ST. EMMANUEL", "ST. BENEDICT", "ST. LUKE",
    "ST. GABRIEL", "ST. PAUL", "ST. MATTHEW", "ST. ROSE", "ST. ANNE", "ST. PATRICK",
    "ST. CATHERINE", "ST. THERESE", "ST. ELIZABETH", "ST. DAVID", "ST. CASSIAN",
    "ST. PHILOMENA"
  ]

  const Grade4Roster: seq<string> := [
    "ILANG-ILANG", "DAFFODIL", "SUNFLOWER", "MARIGOLD", "ANTHURIUM", "ASTER",
    "YELLOWBELL", "BOUGAINVILLEA", "DAISY", "LAVENDER", "LILAC", "WILDZINNIA",
    "EVERLASTING", "ROSE", "TULIPS", "STARGAZER", "CARNATION", "HYACINTH", "GLADIOLA",
    "JASMINE"
  ]

  const Grade5Roster: seq<string> := [
    "FL PM", "AMBER", "APATITE", "BLUE TOPAZ", "CITRINE", "DIAMOND", "FLOURITE", "PEARL",
    "RUBY", "SARDONYX", "TOURMALINE", "CORAL", "GOSHENITE", "JASPER", "MOONSTONE",
    "IDOCRASE", "PERIDOT", "SAPPHIRE", "YELLOW TOPAZ", "EMERALD"
  ]

  const Grade6Roster: seq<string> := [
    "FL PM \U{2013} ANDRES BONIFACIO", "F. BALTAZAR", "P. URDUJA", "E. JACINTO",
    "MH. DEL PILAR", "G. SILANG", "M. SAKAY", "F. DAGOHOY", "J. LUNA", "JL. ESCODA",
    "S. KUDARAT", "V. LUCBAN", "GL. JAENA", "M. GOMEZ", "A. MABINI", "M. PONCE",
    "A. LUNA", "E. AGUINALDO"
  ]

  /** `GRADES`: the keys of `SCHOOL_DATA` in insertion order (none of them
      looks like an integer, so `Object.keys` keeps the written order). */
  const Grades: seq<string> := ["K1", "K2", "Grade 1", "Grade 2", "Grade 3", "Grade 4", "Grade 5", "Grade 6"]

  /** `key` is a key of `SCHOOL_DATA`, so that `SCHOOL_DATA[key]` is defined. */
  predicate IsKey(key: string) {
    || key == "K1" || key == "K2" || key == "Grade 1" || key == "Grade 2"
    || key == "Grade 3" || key == "Grade 4" || key == "Grade 5" || key == "Grade 6"
  }

  /** `GRADES` lists exactly the keys. */
  lemma GradesAreKeys(key: string)
    ensures IsKey(key) <==> key in Grades
  {
  }

  /** `SCHOOL_DATA[key]`: the sections of a grade key, undefined for any
      other text. */
  function SectionsOf(key: string): (r: Option<seq<string>>)
    ensures r.Some? <==> IsKey(key)
  {
    if key == "K1" then Some(K1Roster)
    else if key == "K2" then Some(K2Roster)
    else if key == "Grade 1" then Some(Grade1Roster)
    else if key == "Grade 2" then Some(Grade2Roster)
    else if key == "Grade 3" then Some(Grade3Roster)
    else if key == "Grade 4" then Some(Grade4Roster)
    else if key == "Grade 5" then Some(Grade5Roster)
    else if key == "Grade 6" then Some(Grade6Roster)
    else None
  }

  /* ----------------------------- normalizeGrade ----------------------------- */

  /** The spellings, after upper-casing, that `normalizeGrade` accepts for
      each grade key. */
  predicate IsAliasOf(g: string, key: string) {
    if key == "K1" then g == "K" || g == "K1" || g == "KINDER 1"
    else if key == "K2" then g == "K2" || g == "KINDER 2"
    else if key == "Grade 1" then g == "1" || g == "GRADE 1" || g == "G1"
    else if key == "Grade 2" then g == "2" || g == "GRADE 2" || g == "G2"
    else if key == "Grade 3" then g == "3" || g == "GRADE 3" || g == "G3"
    else if key == "Grade 4" then g == "4" || g == "GRADE 4" || g == "G4"
    else if key == "Grade 5" then g == "5" || g == "GRADE 5" || g == "G5"
    else if key == "Grade 6" then g == "6" || g == "GRADE 6" || g == "G6"
    else false
  }

  /** The if-chain of lines 35-42 on the upper-cased text `g`: the key
      that accepts `g`, if any. */
  function KeyOf(g: string): (r: Option<string>)
    ensures r.Some? ==> IsKey(r.value) && IsAliasOf(g, r.value)
    ensures r.None? ==> forall key :: !IsAliasOf(g, key)
  {
    if g == "K" || g == "K1" || g == "KINDER 1" then Some("K1")
    else if g == "K2" || g == "KINDER 2" then Some("K2")
    else if g == "1" || g == "GRADE 1" || g == "G1" then Some("Grade 1")
    else if g == "2" || g == "GRADE 2" || g == "G2" then Some("Grade 2")
    else if g == "3" || g == "GRADE 3" || g == "G3" then Some("Grade 3")
    else if g == "4" || g == "GRADE 4" || g == "G4" then Some("Grade 4")
    else if g == "5" || g == "GRADE 5" || g == "G5" then Some("Grade 5")
    else if g == "6" || g == "GRADE 6" || g == "G6" then Some("Grade 6")
    else None
  }

  /** No text is an alias of two keys. */
  lemma AliasesDisjoint(g: string, key1: string, key2: string)
    requires IsAliasOf(g, key1) && IsAliasOf(g, key2)
    ensures key1 == key2
  {
  }

  /** `normalizeGrade(dbGrade)`, lines 33-44; a null grade is the empty text. */
  function NormalizeGrade(dbGrade: string): (r: string)
    ensures (exists key :: IsAliasOf(Upper(dbGrade), key)) ==> IsKey(r)
    ensures (forall key :: !IsAliasOf(Upper(dbGrade), key)) ==> r == (if dbGrade == [] then "Unknown" else dbGrade)
  {
    match KeyOf(Upper(dbGrade))
    case Some(key) => key
    case None => if dbGrade == [] then "Unknown" else dbGrade
  }

  /** The grade keys are spelled so that upper-casing gives one of their
      own aliases. */
  lemma KeysAreAliases(key: string)
    requires IsKey(key)
    ensures IsAliasOf(Upper(key), key)
  {
  }

  /** `normalizeGrade` yields a key exactly for the key's own aliases, in
      any case: "K", "K1" and "KINDER 1" for K1, "K2" and "KINDER 2" for
      K2, and "n", "GRADE n" and "Gn" for "Grade n". */
  lemma NormalizeGradeToKey(dbGrade: string, key: string)
    requires IsKey(key)
    ensures NormalizeGrade(dbGrade) == key <==> IsAliasOf(Upper(dbGrade), key)
  {
    var g := Upper(dbGrade);
    match KeyOf(g)
    case Some(k) =>
      if IsAliasOf(g, key) {
        AliasesDisjoint(g, k, key);
      }
    case None =>
      if dbGrade == key {
        KeysAreAliases(key);
      }
  }

  /** As lines 34 and 43 read it, the text is neither trimmed nor folded
      before the comparison, and an unrecognised text comes back as it
      was: " 3" is not grade 3. */
  lemma PaddedGradeUnchanged()
    ensures NormalizeGrade(" 3") == " 3"
  {
    assert Upper(" 3") == " 3";
  }

  /** Normalising twice gives what normalising once does. */
  lemma NormalizeGradeIdempotent(dbGrade: string)
    ensures NormalizeGrade(NormalizeGrade(dbGrade)) == NormalizeGrade(dbGrade)
  {
    var r := NormalizeGrade(dbGrade);
    if IsKey(r) {
      KeysAreAliases(r);
      NormalizeGradeToKey(r, r);
    } else if KeyOf(Upper(dbGrade)).None? && dbGrade == [] {
      UnknownUnrecognised();
    }
  }

  lemma UnknownUnrecognised()
    ensures KeyOf(Upper("Unknown")).None?
  {
    assert Upper("Unknown") == "UNKNOWN";
  }
}
