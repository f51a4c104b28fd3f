/**
 * The reports page: the grade and status filters over the student list and
 * the summary cards counted over what the filters keep.
 */
module Reports {
  import opened JsString

  /** The fields of a listed student that the page reads. */
  datatype ReportRow = ReportRow(name: string, gradeSection: string, status: string)

  /** The choices that switch a filter off. */
  const AllGrades: string := "All Grades"
  const AllStatus: string := "All Status"

  /** Line 103: `x.gradeSection.startsWith(grade)`. */
  predicate GradeMatches(grade: string, x: ReportRow) {
    StartsWith(x.gradeSection, grade)
  }

  /** Line 107: `x.status.toLowerCase() === status.toLowerCase()`. */
  predicate StatusMatches(status: string, x: ReportRow) {
    Lower(x.status) == Lower(status)
  }

  /** Both filters together: a switched-off filter lets every row through. */
  predicate Passes(grade: string, status: string, x: ReportRow) {
    && (grade != AllGrades ==> GradeMatches(grade, x))
    && (status != AllStatus ==> StatusMatches(status, x))
  }

  /** The `filtered` memo of lines 99-111: the grade filter, then the
      status filter, each skipped when its "All" choice is selected. */
  function Filtered(students: seq<ReportRow>, grade: string, status: string): (r: seq<ReportRow>)
    ensures forall x | x in r :: x in students && Passes(grade, status, x)
    ensures forall x | x in students && Passes(grade, status, x) :: x in r
  {
    var byGrade := if grade != AllGrades then Filter(students, x => GradeMatches(grade, x)) else students;
    if status != AllStatus then Filter(byGrade, x => StatusMatches(status, x)) else byGrade
  }

  /** The two filters in a row are one filter by both tests, so the list
      keeps its order: it is a subsequence of the student list. */
  lemma FilteredIsOneFilter(students: seq<ReportRow>, grade: string, status: string)
    ensures Filtered(students, grade, status) == Filter(students, x => Passes(grade, status, x))
    ensures IsSubsequence(Filtered(students, grade, status), students)
  {
    var both := x => Passes(grade, status, x);
    if grade != AllGrades && status != AllStatus {
      FilterFilter(students, x => GradeMatches(grade, x), x => StatusMatches(status, x), both);
    } else if grade != AllGrades {
      FilterSame(students, x => GradeMatches(grade, x), both);
    } else if status != AllStatus {
      FilterSame(students, x => StatusMatches(status, x), both);
    } else {
      FilterAll(students, both);
    }
    FilterIsSubsequence(students, both);
  }

  lemma {:induction false} FilterSame(xs: seq<ReportRow>, p: ReportRow -> bool, q: ReportRow -> bool)
    requires forall x | x in xs :: p(x) == q(x)
    ensures Filter(xs, p) == Filter(xs, q)
  {
    if xs != [] {
      assert forall x | x in xs[1..] :: x in xs;
      FilterSame(xs[1..], p, q);
    }
  }

  /** With both "All" choices selected the list is the whole student list. */
  lemma AllChoicesKeepEverything(students: seq<ReportRow>)
    ensures Filtered(students, AllGrades, AllStatus) == students
  {
  }

  /** The summary cards of lines 114-123. */
  datatype Summary = Summary(total: nat, normal: nat, wasted: nat, severelyWasted: nat, overweight: nat, obese: nat)

  /** A summary category matches its status exactly, case included. */
  predicate InCategory(category: string, x: ReportRow) {
    x.status == category
  }

  /** `filtered.filter(x => x.status === category).length`. */
  function CategoryCount(filtered: seq<ReportRow>, category: string): (n: nat)
    ensures n == Count(filtered, x => InCategory(category, x))
  {
    FilterCount(filtered, x => InCategory(category, x));
    |Filter(filtered, x => InCategory(category, x))|
  }

  function Summarize(filtered: seq<ReportRow>): (s: Summary)
    ensures s.total == |filtered|
    ensures s.normal + s.wasted + s.severelyWasted + s.overweight + s.obese <= s.total
  {
    CategoriesBound(filtered);
    Summary(|filtered|,
      CategoryCount(filtered, "Normal"),
      CategoryCount(filtered, "Wasted"),
      CategoryCount(filtered, "Severely Wasted"),
      CategoryCount(filtered, "Overweight"),
      CategoryCount(filtered, "Obese"))
  }

  /** A row has at most one status, so the five categories together count
      each row at most once. */
  lemma {:induction false} CategoriesBound(xs: seq<ReportRow>)
    ensures Count(xs, x => InCategory("Normal", x)) + Count(xs, x => InCategory("Wasted", x))
          + Count(xs, x => InCategory("Severely Wasted", x)) + Count(xs, x => InCategory("Overweight", x))
          + Count(xs, x => InCategory("Obese", x)) <= |xs|
  {
    if xs != [] {
      CategoriesBound(xs[1..]);
    }
  }

  /** The status filter ignores case but the cards do not: a row stored as
      "NORMAL" is listed under the "Normal" choice and counted in no card. */
  lemma StatusFilterWiderThanCards(x: ReportRow)
    requires x.status == "NORMAL"
    ensures Filtered([x], AllGrades, "Normal") == [x]
    ensures var s := Summarize(Filtered([x], AllGrades, "Normal")); s.total == 1 && s.normal == 0
  {
    assert Lower("NORMAL") == Lower("Normal");
    assert Filtered([x], AllGrades, "Normal") == [x];
  }
}
