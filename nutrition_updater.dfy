/**
 * `recalculateNutritionStatus`: classify the latest BMI record of each
 * student whose nutrition status is missing, and write the new statuses
 * back in batches of twenty.
 *
 * The database is abstracted: the fetch is its result (the records already
 * sorted newest first, or a failure), and the table is a `BmiStore` whose
 * only observable state is the log of updates written to it.
 */
module NutritionUpdater {
  import opened JsString

  /* --------------------------- BMI classification --------------------------- */

  /** A JavaScript number as `parseFloat` can return it. */
  datatype Num = NaN | NegInfinity | Finite(value: real) | PosInfinity

  /** `n < t` on JavaScript numbers: false whenever `n` is NaN. */
  predicate Below(n: Num, t: real) {
    match n
    case NaN => false
    case NegInfinity => true
    case Finite(v) => v < t
    case PosInfinity => false
  }

  /** `n >= t` on JavaScript numbers: false whenever `n` is NaN. */
  predicate AtLeast(n: Num, t: real) {
    match n
    case NaN => false
    case NegInfinity => false
    case Finite(v) => v >= t
    case PosInfinity => true
  }

  const SeverelyWasted := "Severely Wasted"
  const Wasted := "Wasted"
  const Normal := "Normal"
  const Overweight := "Overweight"
  const Obese := "Obese"
  const Unknown := "Unknown"

  /** The threshold chain of lines 52-58. */
  function Classify(bmi: Num): string {
    if Below(bmi, 12.0) then SeverelyWasted
    else if AtLeast(bmi, 12.0) && Below(bmi, 14.0) then Wasted
    else if AtLeast(bmi, 14.0) && Below(bmi, 18.5) then Normal
    else if AtLeast(bmi, 18.5) && Below(bmi, 23.0) then Overweight
    else if AtLeast(bmi, 23.0) then Obese
    else Unknown
  }

  /** The bands of lines 6-11, with each boundary in the higher band. */
  lemma ClassifyBands(v: real)
    ensures Classify(Finite(v)) == SeverelyWasted <==> v < 12.0
    ensures Classify(Finite(v)) == Wasted <==> 12.0 <= v < 14.0
    ensures Classify(Finite(v)) == Normal <==> 14.0 <= v < 18.5
    ensures Classify(Finite(v)) == Overweight <==> 18.5 <= v < 23.0
    ensures Classify(Finite(v)) == Obese <==> 23.0 <= v
  {
  }

  /** Every number gets a real status; NaN alone is left `Unknown`. */
  lemma ClassifyUnknownIffNaN(bmi: Num)
    ensures Classify(bmi) == Unknown <==> bmi == NaN
  {
  }

  /** The position of a status on the scale from wasted to obese. */
  function Severity(status: string): nat {
    if status == SeverelyWasted then 0
    else if status == Wasted then 1
    else if status == Normal then 2
    else if status == Overweight then 3
    else 4
  }

  /** A larger BMI never gets a lower category. */
  lemma ClassifyMonotone(a: real, b: real)
    requires a <= b
    ensures Severity(Classify(Finite(a))) <= Severity(Classify(Finite(b)))
  {
  }

  /* ----------------------------- the records ----------------------------- */

  /** The columns of `bmi_records` the job selects; `bmi` is what
      `parseFloat` makes of the stored value, `None` when it is null. */
  datatype BmiRecord = BmiRecord(id: string, studentId: string, bmi: Option<Num>, status: Option<string>)

  /** The record kept for each student, filled front to back (lines 31-37). */
  function Latest(records: seq<BmiRecord>): map<string, BmiRecord> {
    if records == [] then map[]
    else
      var m := Latest(records[..|records| - 1]);
      var r := records[|records| - 1];
      if r.studentId in m then m else m[r.studentId := r]
  }

  /** The students in the order they were first seen. */
  function Students(records: seq<BmiRecord>): seq<string> {
    if records == [] then []
    else
      var s := Students(records[..|records| - 1]);
      var r := records[|records| - 1];
      if r.studentId in Latest(records[..|records| - 1]) then s else s + [r.studentId]
  }

  /** The record kept for a student is the first one with that student in
      the newest-first input, that is, the newest, and ties go to the
      earliest position; every student of the input has one. */
  lemma {:induction false} LatestIsFirst(records: seq<BmiRecord>)
    ensures forall sid :: sid in Latest(records) <==> exists k | 0 <= k < |records| :: records[k].studentId == sid
    ensures forall sid | sid in Latest(records) :: exists k | 0 <= k < |records| ::
      records[k] == Latest(records)[sid] && records[k].studentId == sid &&
      forall j | 0 <= j < k :: records[j].studentId != sid
  {
    if records != [] {
      var init := records[..|records| - 1];
      var last := records[|records| - 1];
      LatestIsFirst(init);
      forall sid ensures sid in Latest(records) <==> exists k | 0 <= k < |records| :: records[k].studentId == sid {
        if sid in Latest(init) {
          var k :| 0 <= k < |init| && init[k].studentId == sid;
          assert records[k] == init[k];
        }
        if exists k | 0 <= k < |records| :: records[k].studentId == sid {
          var k :| 0 <= k < |records| && records[k].studentId == sid;
          if k < |init| { assert init[k] == records[k]; }
        }
      }
      forall sid | sid in Latest(records)
        ensures exists k | 0 <= k < |records| ::
          records[k] == Latest(records)[sid] && records[k].studentId == sid &&
          forall j | 0 <= j < k :: records[j].studentId != sid
      {
        if sid in Latest(init) {
          var k :| 0 <= k < |init| && init[k] == Latest(init)[sid] && init[k].studentId == sid &&
            forall j | 0 <= j < k :: init[j].studentId != sid;
          assert records[k] == init[k];
          assert forall j | 0 <= j < k :: records[j] == init[j];
        } else {
          assert sid == last.studentId;
          var k := |records| - 1;
          forall j | 0 <= j < k ensures records[j].studentId != sid {
            assert records[j] == init[j];
          }
        }
      }
    }
  }

  /** The students are listed once each, and they are the keys of the map. */
  lemma {:induction false} StudentsAreKeys(records: seq<BmiRecord>)
    ensures forall sid :: sid in Students(records) <==> sid in Latest(records)
    ensures forall i, j | 0 <= i < j < |Students(records)| :: Students(records)[i] != Students(records)[j]
  {
    if records != [] {
      StudentsAreKeys(records[..|records| - 1]);
    }
  }

  /** The `forEach` of lines 31-37. */
  method LatestPerStudent(records: seq<BmiRecord>) returns (latest: map<string, BmiRecord>, students: seq<string>)
    ensures latest == Latest(records) && students == Students(records)
  {
    latest := map[];
    students := [];
    var i := 0;
    while i < |records|
      invariant 0 <= i <= |records|
      invariant latest == Latest(records[..i]) && students == Students(records[..i])
    {
      assert records[..i + 1][..i] == records[..i];
      var record := records[i];
      if record.studentId !in latest {
        latest := latest[record.studentId := record];
        students := students + [record.studentId];
      }
      i := i + 1;
    }
    assert records[..|records|] == records;
  }

  /* ------------------------------ the updates ------------------------------ */

  /** `!currentStatus || currentStatus === "Unknown" || currentStatus === "-"`. */
  predicate NeedsUpdate(status: Option<string>) {
    status.None? || status.value == [] || status.value == Unknown || status.value == "-"
  }

  /** One write: the record id and its new status. */
  datatype Update = Update(id: string, status: string)

  /** The update a latest record calls for, if any (lines 47-66). */
  function UpdateFor(record: BmiRecord): Option<Update> {
    if NeedsUpdate(record.status) && record.bmi.Some? && Classify(record.bmi.value) != Unknown then
      Some(Update(record.id, Classify(record.bmi.value)))
    else None
  }

  /** An update is only made for a missing status and a number that is not NaN. */
  lemma UpdateForDue(record: BmiRecord)
    ensures UpdateFor(record).Some? ==>
      && NeedsUpdate(record.status) && record.bmi.Some? && record.bmi.value != NaN
      && UpdateFor(record).value == Update(record.id, Classify(record.bmi.value))
  {
    if record.bmi.Some? {
      ClassifyUnknownIffNaN(record.bmi.value);
    }
  }

  /** The updates for the listed students, in order. */
  function Updates(latest: map<string, BmiRecord>, students: seq<string>): seq<Update>
    requires forall sid | sid in students :: sid in latest
  {
    if students == [] then []
    else
      var rest := Updates(latest, students[..|students| - 1]);
      match UpdateFor(latest[students[|students| - 1]])
      case Some(u) => rest + [u]
      case None => rest
  }

  /** The students the updates belong to, in the same order. */
  function UpdatedStudents(latest: map<string, BmiRecord>, students: seq<string>): (owners: seq<string>)
    requires forall sid | sid in students :: sid in latest
    ensures |owners| == |Updates(latest, students)|
    ensures forall k | 0 <= k < |owners| ::
      owners[k] in students && UpdateFor(latest[owners[k]]) == Some(Updates(latest, students)[k])
  {
    if students == [] then []
    else
      var rest := UpdatedStudents(latest, students[..|students| - 1]);
      if UpdateFor(latest[students[|students| - 1]]).Some? then rest + [students[|students| - 1]] else rest
  }

  /** Each update is the one its student's latest record calls for: a
      missing status, a number that is not NaN, and the status that number
      classifies as. Records that already have a status get none. */
  lemma {:induction false} UpdatesAreDue(latest: map<string, BmiRecord>, students: seq<string>)
    requires forall sid | sid in students :: sid in latest
    ensures forall k | 0 <= k < |Updates(latest, students)| ::
      var sid := UpdatedStudents(latest, students)[k];
      && sid in students && sid in latest
      && NeedsUpdate(latest[sid].status) && latest[sid].bmi.Some? && latest[sid].bmi.value != NaN
      && Updates(latest, students)[k] == Update(latest[sid].id, Classify(latest[sid].bmi.value))
    ensures forall sid | sid in students && UpdateFor(latest[sid]).Some? :: sid in UpdatedStudents(latest, students)
  {
    if students != [] {
      var init := students[..|students| - 1];
      assert forall sid | sid in init :: sid in students;
      UpdatesAreDue(latest, init);
      forall sid | sid in students && UpdateFor(latest[sid]).Some?
        ensures sid in UpdatedStudents(latest, students)
      {
        if sid != students[|students| - 1] {
          assert sid in init;
        }
      }
    }
    forall k | 0 <= k < |Updates(latest, students)| {
      UpdateForDue(latest[UpdatedStudents(latest, students)[k]]);
    }
  }

  /** A student is updated at most once: the owners are distinct when the
      students are. */
  lemma {:induction false} OneUpdatePerStudent(latest: map<string, BmiRecord>, students: seq<string>)
    requires forall sid | sid in students :: sid in latest
    requires forall i, j | 0 <= i < j < |students| :: students[i] != students[j]
    ensures forall i, j | 0 <= i < j < |UpdatedStudents(latest, students)| ::
      UpdatedStudents(latest, students)[i] != UpdatedStudents(latest, students)[j]
    ensures forall sid | sid in UpdatedStudents(latest, students) :: sid in students
  {
    if students != [] {
      var init := students[..|students| - 1];
      assert forall sid | sid in init :: sid in students;
      OneUpdatePerStudent(latest, init);
      assert students[|students| - 1] !in init;
    }
  }

  /** The `for...in` loop of lines 43-68. */
  method DetermineUpdates(latest: map<string, BmiRecord>, students: seq<string>) returns (updates: seq<Update>)
    requires forall sid | sid in students :: sid in latest
    ensures updates == Updates(latest, students)
  {
    updates := [];
    var i := 0;
    while i < |students|
      invariant 0 <= i <= |students|
      invariant updates == Updates(latest, students[..i])
    {
      assert students[..i + 1][..i] == students[..i];
      assert forall sid | sid in students[..i + 1] :: sid in students;
      var record := latest[students[i]];
      var currentStatus := record.status;
      var needsUpdate := currentStatus.None? || currentStatus.value == [] || currentStatus.value == Unknown || currentStatus.value == "-";
      if needsUpdate && record.bmi.Some? {
        var bmi := record.bmi.value;
        var status := Unknown;
        if Below(bmi, 12.0) {
          status := SeverelyWasted;
        } else if AtLeast(bmi, 12.0) && Below(bmi, 14.0) {
          status := Wasted;
        } else if AtLeast(bmi, 14.0) && Below(bmi, 18.5) {
          status := Normal;
        } else if AtLeast(bmi, 18.5) && Below(bmi, 23.0) {
          status := Overweight;
        } else if AtLeast(bmi, 23.0) {
          status := Obese;
        }
        if status != Unknown {
          updates := updates + [Update(record.id, status)];
        }
      }
      i := i + 1;
    }
    assert students[..|students|] == students;
  }

  /* -------------------------------- batches -------------------------------- */

  const BatchSize: nat := 20

  /** `updates.slice(i, i + BATCH_SIZE)` for `i = 0, 20, 40, ...`. */
  function Batches(updates: seq<Update>): (bs: seq<seq<Update>>)
    decreases |updates|
  {
    if updates == [] then []
    else if |updates| <= BatchSize then [updates]
    else [updates[..BatchSize]] + Batches(updates[BatchSize..])
  }

  function Flatten(bs: seq<seq<Update>>): seq<Update> {
    if bs == [] then [] else bs[0] + Flatten(bs[1..])
  }

  /** The batches are consecutive slices of one to twenty updates that
      together hold every update once, in order. */
  lemma {:induction false} BatchesPartition(updates: seq<Update>)
    ensures Flatten(Batches(updates)) == updates
    ensures forall k | 0 <= k < |Batches(updates)| :: 1 <= |Batches(updates)[k]| <= BatchSize
    ensures |Batches(updates)| == (|updates| + BatchSize - 1) / BatchSize
    decreases |updates|
  {
    if |updates| > BatchSize {
      BatchesPartition(updates[BatchSize..]);
      assert updates[..BatchSize] + updates[BatchSize..] == updates;
    }
  }

  /* ------------------------------- the job ------------------------------- */

  /** The BMI table as the job sees it: the updates written so far. */
  class BmiStore {
    var written: seq<Update>

    constructor()
      ensures written == []
    {
      written := [];
    }

    /** `.update({ nutrition_status }).eq("id", id)`. */
    method Write(u: Update)
      modifies this
      ensures written == old(written) + [u]
    {
      written := written + [u];
    }
  }

  /** The result of the fetch of lines 19-23. */
  datatype Fetch = FetchFailed | Fetched(records: seq<BmiRecord>)

  /** The value the job returns. */
  datatype Outcome = Failure | Success(count: nat, message: string)

  /** The updates the job computes from the fetched records. */
  function DueUpdates(records: seq<BmiRecord>): seq<Update> {
    StudentsAreKeys(records);
    Updates(Latest(records), Students(records))
  }

  /** The batch loop of lines 78-93; `slices` records the batches it wrote. */
  method WriteInBatches(updates: seq<Update>, store: BmiStore) returns (updatedCount: nat, ghost slices: seq<seq<Update>>)
    modifies store
    ensures updatedCount == |updates|
    ensures slices == Batches(updates)
    ensures store.written == old(store.written) + updates
  {
    updatedCount := 0;
    slices := [];
    var i := 0;
    while i < |updates|
      invariant 0 <= i <= |updates| && updatedCount == i
      invariant store.written == old(store.written) + updates[..i]
      invariant slices + Batches(updates[i..]) == Batches(updates)
    {
      var end := if i + BatchSize < |updates| then i + BatchSize else |updates|;
      var batch := updates[i..end];
      BatchesStep(updates, i, end);
      assert (slices + [batch]) + Batches(updates[end..]) == slices + Batches(updates[i..]);
      slices := slices + [batch];
      var k := 0;
      while k < |batch|
        invariant 0 <= k <= |batch|
        invariant store.written == old(store.written) + updates[..i] + batch[..k]
      {
        store.Write(batch[k]);
        assert batch[..k + 1] == batch[..k] + [batch[k]];
        k := k + 1;
      }
      assert updates[..i] + batch == updates[..end];
      updatedCount := updatedCount + |batch|;
      i := i + BatchSize;
      if i > |updates| {
        i := |updates|;
      }
      assert i == end;
    }
    assert updates[..|updates|] == updates;
    assert slices + [] == slices;
  }

  /** The first batch of the updates from `i` on is `updates[i..end]`. */
  lemma BatchesStep(updates: seq<Update>, i: nat, end: nat)
    requires i < |updates| && end == (if i + BatchSize < |updates| then i + BatchSize else |updates|)
    ensures Batches(updates[i..]) == [updates[i..end]] + Batches(updates[end..])
  {
    var rest := updates[i..];
    if |rest| <= BatchSize {
      assert rest == updates[i..end];
      assert updates[end..] == [];
    } else {
      assert rest[..BatchSize] == updates[i..end];
      assert rest[BatchSize..] == updates[end..];
    }
  }

  /** `recalculateNutritionStatus` (lines 13-105). */
  method RecalculateNutritionStatus(fetch: Fetch, store: BmiStore) returns (outcome: Outcome)
    modifies store
    ensures fetch.FetchFailed? ==> outcome == Failure && store.written == old(store.written)
    ensures fetch.Fetched? && DueUpdates(fetch.records) == [] ==>
      outcome == Success(0, "No BMI records needed updates.") && store.written == old(store.written)
    ensures fetch.Fetched? && DueUpdates(fetch.records) != [] ==>
      var updates := DueUpdates(fetch.records);
      && outcome == Success(|updates|, "Successfully updated " + DecimalString(|updates|) + " BMI records.")
      && store.written == old(store.written) + updates
  {
    if fetch.FetchFailed? {
      return Failure;
    }
    var latest, students := LatestPerStudent(fetch.records);
    StudentsAreKeys(fetch.records);
    var updates := DetermineUpdates(latest, students);
    if |updates| == 0 {
      return Success(0, "No BMI records needed updates.");
    }
    var updatedCount;
    ghost var slices;
    updatedCount, slices := WriteInBatches(updates, store);
    return Success(updatedCount, "Successfully updated " + DecimalString(updatedCount) + " BMI records.");
  }

  /** The students whose latest record gets an update, in write order. */
  function DueOwners(records: seq<BmiRecord>): seq<string> {
    StudentsAreKeys(records);
    UpdatedStudents(Latest(records), Students(records))
  }

  /** What a run writes: for every student at most one update, each on the
      newest record of its student, and only where the status was missing;
      the count returned is the number written. */
  lemma DueUpdatesSound(records: seq<BmiRecord>)
    ensures var latest := Latest(records);
      var owners := DueOwners(records);
      && |owners| == |DueUpdates(records)|
      && (forall i, j | 0 <= i < j < |owners| :: owners[i] != owners[j])
      && forall k | 0 <= k < |owners| ::
           && owners[k] in latest
           && NeedsUpdate(latest[owners[k]].status)
           && latest[owners[k]].bmi.Some? && latest[owners[k]].bmi.value != NaN
           && DueUpdates(records)[k] == Update(latest[owners[k]].id, Classify(latest[owners[k]].bmi.value))
  {
    StudentsAreKeys(records);
    UpdatesAreDue(Latest(records), Students(records));
    OneUpdatePerStudent(Latest(records), Students(records));
  }
}
