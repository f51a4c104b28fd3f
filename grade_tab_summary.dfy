/**
 * The grade tab of the feeding page: which rows of the active pool a tab
 * shows, the attendance and nutrition-status summary over them, and the
 * section, status and search filters of the table.
 *
 * Missing text fields are the empty string: the source reads each one
 * through `|| ""` or `|| "Unknown"`. Student ids are strings, so the lookup
 * by `String(r.id)` is the lookup by `r.id`.
 */
module GradeTabSummary {
  import opened JsString

  /** The fields of an active-pool row that the tab reads. */
  datatype FeedRow = FeedRow(
    id: string,
    name: string,
    gradeSection: string,
    nutritionStatus: string,
    sbfpRawId: Option<string>)

  /* ----------------------------- the grade tab ----------------------------- */

  /** `gs.toUpperCase().split(" - ")[0].trim()`. */
  function GradePart(gradeSection: string): string {
    Trim(SplitOn(Upper(gradeSection), " - ")[0])
  }

  /** The tab filter of lines 662-673. */
  predicate InTab(gradeKey: string, row: FeedRow) {
    var gPart := GradePart(row.gradeSection);
    if StartsWith(gradeKey, "K") then
      if gradeKey == "K1" then gPart == "K1" || gPart == "K"
      else if gradeKey == "K2" then gPart == "K2"
      else StartsWith(gPart, "K")
    else gPart == gradeKey || gPart == "GRADE " + gradeKey || gPart == gradeKey
  }

  /** The rows a tab shows. */
  function TabRows(pool: seq<FeedRow>, gradeKey: string): (rows: seq<FeedRow>)
    ensures forall x :: x in rows <==> x in pool && InTab(gradeKey, x)
  {
    Filter(pool, x => InTab(gradeKey, x))
  }

  /** The K1 tab keeps a bare `K` as well as `K1`; the K2 tab only `K2`. */
  lemma KindergartenTabs(row: FeedRow)
    ensures InTab("K1", row) <==> GradePart(row.gradeSection) in {"K1", "K"}
    ensures InTab("K2", row) <==> GradePart(row.gradeSection) == "K2"
  {
    assert StartsWith("K1", "K");
    assert StartsWith("K2", "K");
  }

  /** A numbered tab keeps `n` and `GRADE n` and nothing else. */
  lemma NumberedTab(gradeKey: string, row: FeedRow)
    requires gradeKey != [] && gradeKey[0] != 'K'
    ensures InTab(gradeKey, row) <==>
      GradePart(row.gradeSection) == gradeKey || GradePart(row.gradeSection) == "GRADE " + gradeKey
  {
  }

  /* --------------------------------- summary -------------------------------- */

  /** `presentMap[id] === "Present"`. */
  predicate MarkedPresent(presentMap: map<string, string>, id: string) {
    id in presentMap && presentMap[id] == "Present"
  }

  /** The attendance test of lines 681-684. */
  predicate IsPresent(presentMap: map<string, string>, row: FeedRow) {
    || MarkedPresent(presentMap, row.id)
    || (row.sbfpRawId.Some? && MarkedPresent(presentMap, row.sbfpRawId.value))
  }

  /** The number of present rows. */
  function PresentCount(rows: seq<FeedRow>, presentMap: map<string, string>): (n: nat)
    ensures n <= |rows|
  {
    if rows == [] then 0
    else PresentCount(rows[..|rows| - 1], presentMap) + if IsPresent(presentMap, rows[|rows| - 1]) then 1 else 0
  }

  /** The present rows are counted exactly: their number is the length of the
      filter that keeps them. */
  lemma {:induction false} PresentCountIsFilter(rows: seq<FeedRow>, presentMap: map<string, string>)
    ensures PresentCount(rows, presentMap) == |Filter(rows, x => IsPresent(presentMap, x))|
  {
    if rows != [] {
      var init := rows[..|rows| - 1];
      PresentCountIsFilter(init, presentMap);
      assert init + [rows[|rows| - 1]] == rows;
      FilterSnoc(init, rows[|rows| - 1], x => IsPresent(presentMap, x));
    }
  }

  /** `(r.nutritionStatus || "Unknown").toString()`. */
  function StatusOf(row: FeedRow): string {
    if row.nutritionStatus == [] then "Unknown" else row.nutritionStatus
  }

  /** The number of rows with the status `st`. */
  function CountStatus(rows: seq<FeedRow>, st: string): (n: nat)
    ensures n <= |rows|
  {
    if rows == [] then 0
    else CountStatus(rows[..|rows| - 1], st) + if StatusOf(rows[|rows| - 1]) == st then 1 else 0
  }

  /** The `statusCounts` dictionary that lines 689-693 build. */
  function StatusCounts(rows: seq<FeedRow>): map<string, nat> {
    if rows == [] then map[]
    else
      var m := StatusCounts(rows[..|rows| - 1]);
      var st := StatusOf(rows[|rows| - 1]);
      m[st := (if st in m then m[st] else 0) + 1]
  }

  /** The keys are the statuses that occur, each mapped to its number of rows. */
  lemma {:induction false} StatusCountsCount(rows: seq<FeedRow>)
    ensures forall st :: st in StatusCounts(rows) <==> exists k | 0 <= k < |rows| :: StatusOf(rows[k]) == st
    ensures forall st :: (if st in StatusCounts(rows) then StatusCounts(rows)[st] else 0) == CountStatus(rows, st)
  {
    if rows != [] {
      var init := rows[..|rows| - 1];
      StatusCountsCount(init);
      forall st ensures st in StatusCounts(rows) <==> exists k | 0 <= k < |rows| :: StatusOf(rows[k]) == st {
        if st in StatusCounts(init) {
          var k :| 0 <= k < |init| && StatusOf(init[k]) == st;
          assert rows[k] == init[k];
        }
        if exists k | 0 <= k < |rows| :: StatusOf(rows[k]) == st {
          var k :| 0 <= k < |rows| && StatusOf(rows[k]) == st;
          if k < |init| {
            assert init[k] == rows[k];
          }
        }
      }
    }
  }

  /** The sum of the values of a count map. */
  ghost function MapSum(m: map<string, nat>): nat
    decreases |m.Keys|
  {
    if m == map[] then 0
    else
      var k :| k in m;
      m[k] + MapSum(m - {k})
  }

  /** Any key can be taken out first. */
  lemma {:induction false} MapSumRemove(m: map<string, nat>, k: string)
    requires k in m
    ensures MapSum(m) == m[k] + MapSum(m - {k})
    decreases |m.Keys|
  {
    var j :| j in m && MapSum(m) == m[j] + MapSum(m - {j});
    if j != k {
      var mj := m - {j};
      var mk := m - {k};
      assert |mj.Keys| < |m.Keys| by { assert mj.Keys < m.Keys; }
      assert |mk.Keys| < |m.Keys| by { assert mk.Keys < m.Keys; }
      MapSumRemove(mj, k);
      MapSumRemove(mk, j);
      assert mj - {k} == mk - {j};
    }
  }

  /** Raising one count by one raises the sum by one. */
  lemma MapSumIncrement(m: map<string, nat>, k: string)
    ensures MapSum(m[k := (if k in m then m[k] else 0) + 1]) == MapSum(m) + 1
  {
    var m' := m[k := (if k in m then m[k] else 0) + 1];
    MapSumRemove(m', k);
    assert m' - {k} == m - {k};
    if k in m {
      MapSumRemove(m, k);
    } else {
      assert m - {k} == m;
    }
  }

  /** The status counts sum to the number of rows. */
  lemma {:induction false} StatusCountsSum(rows: seq<FeedRow>)
    ensures MapSum(StatusCounts(rows)) == |rows|
  {
    if rows != [] {
      StatusCountsSum(rows[..|rows| - 1]);
      MapSumIncrement(StatusCounts(rows[..|rows| - 1]), StatusOf(rows[|rows| - 1]));
    }
  }

  /** The summary of lines 675-693 and 714-720, without the percentage. */
  datatype Summary = Summary(total: nat, present: nat, absent: nat, statusCounts: map<string, nat>)

  /** `Math.max(0, total - present)`. */
  function Absent(total: nat, present: nat): nat {
    if total - present > 0 then total - present else 0
  }

  /** The two `forEach` passes of lines 679-693. */
  method Summarize(rows: seq<FeedRow>, presentMap: map<string, string>) returns (s: Summary)
    ensures s.total == |rows|
    ensures s.present == PresentCount(rows, presentMap)
    ensures s.absent == |rows| - s.present
    ensures s.statusCounts == StatusCounts(rows)
  {
    var total := |rows|;
    var present := 0;
    var i := 0;
    while i < |rows|
      invariant 0 <= i <= |rows|
      invariant present == PresentCount(rows[..i], presentMap)
    {
      assert rows[..i + 1][..i] == rows[..i];
      if IsPresent(presentMap, rows[i]) {
        present := present + 1;
      }
      i := i + 1;
    }
    assert rows[..|rows|] == rows;
    var absent := Absent(total, present);
    var statusCounts: map<string, nat> := map[];
    i := 0;
    while i < |rows|
      invariant 0 <= i <= |rows|
      invariant statusCounts == StatusCounts(rows[..i])
    {
      assert rows[..i + 1][..i] == rows[..i];
      var st := StatusOf(rows[i]);
      statusCounts := statusCounts[st := (if st in statusCounts then statusCounts[st] else 0) + 1];
      i := i + 1;
    }
    s := Summary(total, present, absent, statusCounts);
  }

  /** What the summary promises: present and absent rows add up to the
      total, and the status counts are exact and add up to the total. */
  lemma SummaryConsistent(rows: seq<FeedRow>, presentMap: map<string, string>)
    ensures PresentCount(rows, presentMap) + Absent(|rows|, PresentCount(rows, presentMap)) == |rows|
    ensures MapSum(StatusCounts(rows)) == |rows|
    ensures forall st :: (if st in StatusCounts(rows) then StatusCounts(rows)[st] else 0) == CountStatus(rows, st)
  {
    StatusCountsSum(rows);
    StatusCountsCount(rows);
  }

  /* ------------------------------ table filters ------------------------------ */

  /** `(r.gradeSection || "").split(" - ")[1] || ""`. */
  function SectionPart(gradeSection: string): string {
    var parts := SplitOn(gradeSection, " - ");
    if |parts| > 1 then parts[1] else ""
  }

  /** The section, status and search filters of lines 696-711. */
  predicate PassesTableFilters(selectedSection: string, statusFilter: string, search: string, row: FeedRow) {
    && (selectedSection != "All" ==> Upper(SectionPart(row.gradeSection)) == Upper(selectedSection))
    && (statusFilter != "All" ==> Upper(StatusOf(row)) == Upper(statusFilter))
    && (Trim(search) != [] ==>
          var q := Lower(Trim(search));
          Contains(Lower(row.name), q) || Contains(Lower(row.gradeSection), q))
  }

  /** The rows of the table. */
  function TableRows(rows: seq<FeedRow>, selectedSection: string, statusFilter: string, search: string): (r: seq<FeedRow>)
    ensures forall x :: x in r <==> x in rows && PassesTableFilters(selectedSection, statusFilter, search, x)
  {
    Filter(rows, x => PassesTableFilters(selectedSection, statusFilter, search, x))
  }

  /** With "All", "All" and a blank search the table shows every row. */
  lemma {:induction false} NoFiltersKeepAll(rows: seq<FeedRow>, search: string)
    requires Trim(search) == []
    ensures TableRows(rows, "All", "All", search) == rows
  {
    if rows != [] {
      NoFiltersKeepAll(rows[1..], search);
      assert [rows[0]] + rows[1..] == rows;
    }
  }
}
