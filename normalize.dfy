/**
 * `normalizeStudent`: the grade and section of a student record brought to
 * the spelling of `SCHOOL_DATA`, with a display string beside them.
 *
 * A record is its fields by name. A missing field, a null and the empty
 * text all read as the empty text, as `(x || "")` makes them.
 */
module Normalize {
  import opened JsString
  import opened SchoolData

  type Student = map<string, string>

  /** `(student[name] || "").toString()`. */
  function Field(student: Student, name: string): string {
    if name in student then student[name] else ""
  }

  /** `gradeMap[grade]`, lines 13-29: an exact, case-sensitive lookup. */
  function GradeMapLookup(grade: string): (r: Option<string>)
    ensures r.Some? ==> r.value == "K1" || r.value == "K2" || !IsKey(r.value)
  {
    if grade == "K" || grade == "Kinder 1" then Some("K1")
    else if grade == "Kinder 2" then Some("K2")
    else if grade == "1" || grade == "Grade 1" then Some("GRADE 1")
    else if grade == "2" || grade == "Grade 2" then Some("GRADE 2")
    else if grade == "3" || grade == "Grade 3" then Some("GRADE 3")
    else if grade == "4" || grade == "Grade 4" then Some("GRADE 4")
    else if grade == "5" || grade == "Grade 5" then Some("GRADE 5")
    else if grade == "6" || grade == "Grade 6" then Some("GRADE 6")
    else None
  }

  /** The grade of lines 31-39, for the trimmed grade text: the `gradeMap`
      value, else the text when it is a `SCHOOL_DATA` key, else its
      upper-cased form when that is one, else the text. */
  function NormalizedGrade(grade: string): (r: string)
    ensures GradeMapLookup(grade).Some? ==> r == GradeMapLookup(grade).value
    ensures GradeMapLookup(grade).None? ==> r == grade || (r == Upper(grade) && IsKey(r))
    ensures IsKey(grade) && GradeMapLookup(grade).None? ==> r == grade
    ensures GradeMapLookup(grade).None? && !IsKey(grade) && IsKey(Upper(grade)) ==> r == Upper(grade)
    ensures GradeMapLookup(grade).None? && !IsKey(grade) && !IsKey(Upper(grade)) ==> r == grade
  {
    match GradeMapLookup(grade)
    case Some(mapped) => mapped
    case None =>
      if IsKey(grade) then grade
      else if IsKey(Upper(grade)) then Upper(grade)
      else grade
  }

  /** `list.find(s => s.toLowerCase() === section.toLowerCase())`: the first
      entry equal to `section` when case is ignored. */
  function FindIgnoringCase(list: seq<string>, section: string): (r: Option<string>)
    ensures r.Some? ==> exists i | 0 <= i < |list| :: list[i] == r.value && FirstIgnoringCase(list, section, i)
    ensures r.None? ==> forall k | 0 <= k < |list| :: Lower(list[k]) != Lower(section)
  {
    if list == [] then None
    else if Lower(list[0]) == Lower(section) then
      assert FirstIgnoringCase(list, section, 0);
      Some(list[0])
    else
      var r := FindIgnoringCase(list[1..], section);
      if r.Some? then
        var i :| 0 <= i < |list[1..]| && list[1..][i] == r.value && FirstIgnoringCase(list[1..], section, i);
        assert FirstIgnoringCase(list, section, i + 1);
        r
      else r
  }

  /** Entry `i` is the first whose lower-cased form is that of `section`. */
  predicate FirstIgnoringCase(list: seq<string>, section: string, i: nat) {
    && i < |list|
    && Lower(list[i]) == Lower(section)
    && forall j | 0 <= j < i :: Lower(list[j]) != Lower(section)
  }

  /** The section of lines 42-53, for the normalised grade and the trimmed
      section text: the first `SCHOOL_DATA` entry of that grade equal to it
      ignoring case, else the text as it is. */
  function NormalizedSection(grade: string, section: string): (r: string)
    ensures SectionsOf(grade).None? ==> r == section
    ensures SectionsOf(grade).Some? ==>
      var list := SectionsOf(grade).value;
      || (r == section && forall k | 0 <= k < |list| :: Lower(list[k]) != Lower(section))
      || exists i | 0 <= i < |list| :: list[i] == r && FirstIgnoringCase(list, section, i)
  {
    match SectionsOf(grade)
    case None => section
    case Some(list) =>
      match FindIgnoringCase(list, section)
      case Some(m) => m
      case None => section
  }

  /** `normalizeStudent(student)`, lines 3-62; `None` is a null student. */
  function NormalizeStudent(student: Option<Student>): Option<Student> {
    match student
    case None => None
    case Some(fields) =>
      var grade := Trim(Field(fields, "grade_level"));
      var section := Trim(Field(fields, "section"));
      var normalizedGrade := NormalizedGrade(grade);
      var normalizedSection := NormalizedSection(normalizedGrade, section);
      Some(Rewrite(fields, normalizedGrade, normalizedSection))
  }

  /** `{ ...student, grade_level, section, gradeSectionDisplay }`. */
  function Rewrite(fields: Student, grade: string, section: string): Student {
    fields["grade_level" := grade]["section" := section]["gradeSectionDisplay" := grade + " - " + section]
  }

  /* --------------------------------- lemmas --------------------------------- */

  /** A null student stays null. Otherwise the record keeps every other
      field as it was, gains the three it writes, and its display joins
      the grade and section it now holds. */
  lemma NormalizeStudentFields(student: Option<Student>)
    ensures var r := NormalizeStudent(student);
      && (r.None? <==> student.None?)
      && (r.Some? ==>
        && r.value.Keys == student.value.Keys + {"grade_level", "section", "gradeSectionDisplay"}
        && (forall name | name in student.value && name != "grade_level" && name != "section" && name != "gradeSectionDisplay" ::
              r.value[name] == student.value[name])
        && r.value["gradeSectionDisplay"] == r.value["grade_level"] + " - " + r.value["section"])
  {
    if student.Some? {
      var fields := student.value;
      var grade := Trim(Field(fields, "grade_level"));
      var section := Trim(Field(fields, "section"));
      var g := NormalizedGrade(grade);
      var sec := NormalizedSection(g, section);
      FromParts(fields, grade, section, g, sec);
      RewriteKeeps(fields, g, sec);
    }
  }

  lemma RewriteKeeps(fields: Student, g: string, sec: string)
    ensures var r := Rewrite(fields, g, sec);
      && r.Keys == fields.Keys + {"grade_level", "section", "gradeSectionDisplay"}
      && (forall name | name in fields && name != "grade_level" && name != "section" && name != "gradeSectionDisplay" ::
            r[name] == fields[name])
      && r["gradeSectionDisplay"] == r["grade_level"] + " - " + r["section"]
  {
  }

  /** Upper-cased text holds no lower-case letter. */
  lemma UpperNotMixedCase(s: string)
    ensures IsKey(Upper(s)) ==> Upper(s) == "K1" || Upper(s) == "K2"
  {
    if |s| > 1 {
      assert Upper(s)[1] == UpperChar(s[1]);
    }
  }

  /** The normalised grade reaches a `SCHOOL_DATA` key only for the two
      kindergarten grades: `gradeMap` sends every numbered grade to
      "GRADE n", which is not a key ("Grade n" is). */
  lemma OnlyKindergartenKeys(grade: string)
    ensures IsKey(NormalizedGrade(grade)) ==> NormalizedGrade(grade) == "K1" || NormalizedGrade(grade) == "K2"
  {
    if GradeMapLookup(grade).None? {
      UpperNotMixedCase(grade);
    }
  }

  /** A student whose grade is not a kindergarten one keeps its section
      text, only trimmed: the sections of the numbered grades are never
      brought to the roster's spelling. */
  lemma NumberedSectionKept(fields: Student)
    requires var g := NormalizeStudent(Some(fields)).value["grade_level"]; g != "K1" && g != "K2"
    ensures NormalizeStudent(Some(fields)).value["section"] == Trim(Field(fields, "section"))
  {
    var grade := Trim(Field(fields, "grade_level"));
    var section := Trim(Field(fields, "section"));
    assert NormalizeStudent(Some(fields)) == Some(Rewrite(fields, NormalizedGrade(grade), NormalizedSection(NormalizedGrade(grade), section)));
    OnlyKindergartenKeys(grade);
  }

  /** The grades `gradeMap` accepts exactly: "K" and "Kinder 1" become K1,
      "Kinder 2" K2, and "n" and "Grade n" become "GRADE n" with the section
      left as trimmed. */
  lemma MappedGrade(fields: Student)
    requires GradeMapLookup(Trim(Field(fields, "grade_level"))).Some?
    ensures var v := GradeMapLookup(Trim(Field(fields, "grade_level"))).value;
      var r := NormalizeStudent(Some(fields)).value;
      && r["grade_level"] == v
      && (v != "K1" && v != "K2" ==> r["section"] == Trim(Field(fields, "section")))
  {
    var grade := Trim(Field(fields, "grade_level"));
    var section := Trim(Field(fields, "section"));
    var v := GradeMapLookup(grade).value;
    var sec := NormalizedSection(v, section);
    if v != "K1" && v != "K2" {
      assert !IsKey(v);
      assert SectionsOf(v).None?;
      assert sec == section;
    }
    FromParts(fields, grade, section, v, sec);
    RewriteFields(fields, v, sec);
  }

  /** Lower-casing leaves whitespace where it is. */
  lemma SameIgnoringCaseChar(c: char, d: char)
    requires LowerChar(c) == LowerChar(d) && !IsSpace(d)
    ensures !IsSpace(c)
  {
  }

  lemma SameIgnoringCaseTrimmed(m: string, s: string)
    requires Lower(m) == Lower(s)
    requires s == [] || (!IsSpace(s[0]) && !IsSpace(s[|s| - 1]))
    ensures m == [] || (!IsSpace(m[0]) && !IsSpace(m[|m| - 1]))
  {
    if m != [] {
      var last := |m| - 1;
      assert |s| == |m|;
      assert Lower(m)[0] == LowerChar(m[0]) && Lower(s)[0] == LowerChar(s[0]);
      assert Lower(m)[last] == LowerChar(m[last]) && Lower(s)[last] == LowerChar(s[last]);
      SameIgnoringCaseChar(m[0], s[0]);
      SameIgnoringCaseChar(m[last], s[last]);
    }
  }

  lemma NormalizedGradeIdempotent(grade: string)
    ensures NormalizedGrade(NormalizedGrade(grade)) == NormalizedGrade(grade)
    ensures Trim(grade) == grade ==> Trim(NormalizedGrade(grade)) == NormalizedGrade(grade)
  {
    var r := NormalizedGrade(grade);
    if GradeMapLookup(grade).Some? {
      MappedValueFixed(grade);
    } else if !IsKey(grade) && IsKey(Upper(grade)) {
      UpperNotMixedCase(grade);
      assert r == "K1" || r == "K2";
      KindergartenKeyFixed(r);
    } else {
      assert r == grade;
    }
  }

  /** The values of `gradeMap` are left alone by a second pass. */
  lemma MappedValueFixed(grade: string)
    requires GradeMapLookup(grade).Some?
    ensures var v := GradeMapLookup(grade).value; NormalizedGrade(v) == v && Trim(v) == v
  {
    var v := GradeMapLookup(grade).value;
    if v == "K1" || v == "K2" {
      KindergartenKeyFixed(v);
    } else {
      var d := v[6];
      assert v == "GRADE " + [d];
      GradeWordFixed(d);
    }
  }

  lemma KindergartenKeyFixed(v: string)
    requires v == "K1" || v == "K2"
    ensures NormalizedGrade(v) == v && Trim(v) == v
  {
    TrimIdentity(v);
  }

  /** "GRADE n" is upper-case already and no key of either table. */
  lemma GradeWordFixed(d: char)
    requires '1' <= d <= '6'
    ensures NormalizedGrade("GRADE " + [d]) == "GRADE " + [d] && Trim("GRADE " + [d]) == "GRADE " + [d]
  {
    var v := "GRADE " + [d];
    assert v[1] == 'R';
    assert GradeMapLookup(v).None?;
    assert Upper(v) == v;
    TrimIdentity(v);
  }

  lemma NormalizedSectionIdempotent(grade: string, section: string)
    requires section == [] || (!IsSpace(section[0]) && !IsSpace(section[|section| - 1]))
    ensures NormalizedSection(grade, NormalizedSection(grade, section)) == NormalizedSection(grade, section)
    ensures Trim(NormalizedSection(grade, section)) == NormalizedSection(grade, section)
  {
    var r := NormalizedSection(grade, section);
    if SectionsOf(grade).Some? && r != section {
      var list := SectionsOf(grade).value;
      var i :| 0 <= i < |list| && list[i] == r && FirstIgnoringCase(list, section, i);
      SameIgnoringCaseTrimmed(r, section);
      TrimIdentity(r);
    }
  }

  /** Normalising a normalised record changes nothing. */
  lemma NormalizeStudentIdempotent(student: Option<Student>)
    ensures NormalizeStudent(NormalizeStudent(student)) == NormalizeStudent(student)
  {
    if student.Some? {
      var fields := student.value;
      var grade := Trim(Field(fields, "grade_level"));
      var section := Trim(Field(fields, "section"));
      var g := NormalizedGrade(grade);
      var sec := NormalizedSection(g, section);
      TrimIdentity(grade);
      NormalizedGradeIdempotent(grade);
      NormalizedSectionIdempotent(g, section);
      var once := Rewrite(fields, g, sec);
      assert NormalizeStudent(student) == Some(once);
      RewriteAgain(fields, g, sec);
    }
  }

  /** A record that already holds the grade and section it would be
      rewritten with is left as it is. */
  lemma RewriteAgain(fields: Student, g: string, sec: string)
    requires Trim(g) == g && Trim(sec) == sec
    requires NormalizedGrade(g) == g && NormalizedSection(g, sec) == sec
    ensures NormalizeStudent(Some(Rewrite(fields, g, sec))) == Some(Rewrite(fields, g, sec))
  {
    var once := Rewrite(fields, g, sec);
    RewriteFields(fields, g, sec);
    FromParts(once, g, sec, g, sec);
    RewriteTwice(fields, g, sec);
  }

  lemma RewriteFields(fields: Student, g: string, sec: string)
    ensures Field(Rewrite(fields, g, sec), "grade_level") == g
    ensures Field(Rewrite(fields, g, sec), "section") == sec
    ensures Rewrite(fields, g, sec)["grade_level"] == g && Rewrite(fields, g, sec)["section"] == sec
  {
  }

  lemma RewriteTwice(fields: Student, g: string, sec: string)
    ensures Rewrite(Rewrite(fields, g, sec), g, sec) == Rewrite(fields, g, sec)
  {
  }

  /* -------------------------------- examples -------------------------------- */

  /** The result of a record whose trimmed grade and section normalise to
      `g` and `sec`. */
  lemma FromParts(fields: Student, grade: string, section: string, g: string, sec: string)
    requires Trim(Field(fields, "grade_level")) == grade && Trim(Field(fields, "section")) == section
    requires NormalizedGrade(grade) == g && NormalizedSection(g, section) == sec
    ensures NormalizeStudent(Some(fields)) == Some(Rewrite(fields, g, sec))
  {
  }

  lemma KindergartenFields(fields: Student)
    requires fields == map["grade_level" := "K", "section" := "masayahin"]
    ensures Trim(Field(fields, "grade_level")) == "K" && Trim(Field(fields, "section")) == "masayahin"
  {
    KindergartenGradeField(fields);
    KindergartenSectionField(fields);
  }

  lemma KindergartenGradeField(fields: Student)
    requires fields == map["grade_level" := "K", "section" := "masayahin"]
    ensures Trim(Field(fields, "grade_level")) == "K"
  {
    assert Field(fields, "grade_level") == "K";
    TrimIdentity("K");
  }

  lemma KindergartenSectionField(fields: Student)
    requires fields == map["grade_level" := "K", "section" := "masayahin"]
    ensures Trim(Field(fields, "section")) == "masayahin"
  {
    assert Field(fields, "section") == "masayahin";
    TrimIdentity("masayahin");
  }

  /** A lower-case key such as `"k1"` is not in `gradeMap` and is no key
      itself, so the third step upper-cases it. */
  lemma LowerCaseKeyUpperCased()
    ensures NormalizedGrade("k1") == "K1"
    ensures NormalizedGrade("k2") == "K2"
  {
    assert Upper("k1") == "K1";
    assert Upper("k2") == "K2";
  }

  lemma KindergartenGradeK()
    ensures NormalizedGrade("K") == "K1"
  {
  }

  lemma MasayahinCanonical()
    ensures NormalizedSection("K1", "masayahin") == "MASAYAHIN"
  {
    assert K1Roster[0] == "MASAYAHIN";
    assert Lower("MASAYAHIN") == Lower("masayahin");
  }

  /** A kindergarten record has its section brought to the roster spelling. */
  lemma KindergartenExample()
    ensures var r := NormalizeStudent(Some(map["grade_level" := "K", "section" := "masayahin"])).value;
      r["grade_level"] == "K1" && r["section"] == "MASAYAHIN"
  {
    var fields := map["grade_level" := "K", "section" := "masayahin"];
    KindergartenFields(fields);
    KindergartenGradeK();
    MasayahinCanonical();
    FromParts(fields, "K", "masayahin", "K1", "MASAYAHIN");
    RewriteFields(fields, "K1", "MASAYAHIN");
  }

  lemma NumberedFields(fields: Student)
    requires fields == map["grade_level" := "3", "section" := "st. john"]
    ensures Trim(Field(fields, "grade_level")) == "3" && Trim(Field(fields, "section")) == "st. john"
  {
    NumberedGradeField(fields);
    NumberedSectionField(fields);
  }

  lemma NumberedGradeField(fields: Student)
    requires fields == map["grade_level" := "3", "section" := "st. john"]
    ensures Trim(Field(fields, "grade_level")) == "3"
  {
    assert Field(fields, "grade_level") == "3";
    TrimIdentity("3");
  }

  lemma NumberedSectionField(fields: Student)
    requires fields == map["grade_level" := "3", "section" := "st. john"]
    ensures Trim(Field(fields, "section")) == "st. john"
  {
    assert Field(fields, "section") == "st. john";
    TrimIdentity("st. john");
  }

  lemma GradeThreeMapped()
    ensures NormalizedGrade("3") == "GRADE 3" && NormalizedSection("GRADE 3", "st. john") == "st. john"
  {
  }

  /** A grade-3 record keeps its section as typed, under the grade "GRADE 3". */
  lemma NumberedExample()
    ensures var r := NormalizeStudent(Some(map["grade_level" := "3", "section" := "st. john"])).value;
      r["grade_level"] == "GRADE 3" && r["section"] == "st. john"
  {
    var fields := map["grade_level" := "3", "section" := "st. john"];
    NumberedFields(fields);
    GradeThreeMapped();
    FromParts(fields, "3", "st. john", "GRADE 3", "st. john");
    RewriteFields(fields, "GRADE 3", "st. john");
  }
}
