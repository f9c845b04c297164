/** The two input tables, the planning constants, and the lookups the
    program makes by identifier (main.py, create_roster). */
module Entities {
  import opened Tools

  /** One row of the staff table: StaffID, Location and Tools. */
  datatype Staff = Staff(id: string, location: string, tools: string)

  /** One row of the job table: JobID, Location, JobLength (hours) and ToolsRequired. */
  datatype Job = Job(id: string, location: string, length: real, toolsRequired: string)

  /** The planning week has days 0 to 6. */
  const DayCount: nat := 7
  /** A staff member works at most nine hours a day, travel included. */
  const MaxHoursPerDay: real := 9.0
  /** A staff member works on at most five days a week. */
  const MaxDaysPerWeek: nat := 5

  /** The StaffID column, in table order. */
  function StaffIds(staff: seq<Staff>): (ids: seq<string>)
    ensures |ids| == |staff|
  {
    seq(|staff|, i requires 0 <= i < |staff| => staff[i].id)
  }

  /** The JobID column, in table order. */
  function JobIds(jobs: seq<Job>): (ids: seq<string>)
    ensures |ids| == |jobs|
  {
    seq(|jobs|, k requires 0 <= k < |jobs| => jobs[k].id)
  }

  /** No identifier occurs twice. */
  predicate Distinct(ids: seq<string>)
  {
    forall a, b | 0 <= a < b < |ids| :: ids[a] != ids[b]
  }

  /** Position of the first row whose identifier equals that of row i: the
      row that `table[table['ID'] == id].values[0]` selects. */
  function FirstIndex(ids: seq<string>, i: nat): (r: nat)
    requires i < |ids|
    ensures r <= i
  {
    FirstIndexFrom(ids, i, 0)
  }

  /** The scan behind FirstIndex, starting at row `from`. */
  function FirstIndexFrom(ids: seq<string>, i: nat, from: nat): (r: nat)
    requires from <= i < |ids|
    ensures from <= r <= i
    decreases i - from
  {
    if ids[from] == ids[i] then from else FirstIndexFrom(ids, i, from + 1)
  }

  lemma {:induction false} FirstIndexFromFinds(ids: seq<string>, i: nat, from: nat)
    requires from <= i < |ids|
    requires forall k | 0 <= k < from :: ids[k] != ids[i]
    ensures ids[FirstIndexFrom(ids, i, from)] == ids[i]
    ensures forall k | 0 <= k < FirstIndexFrom(ids, i, from) :: ids[k] != ids[i]
    decreases i - from
  {
    if ids[from] != ids[i] {
      FirstIndexFromFinds(ids, i, from + 1);
    }
  }

  /** FirstIndex finds a row with the same identifier, and no earlier row has it. */
  lemma FirstIndexFinds(ids: seq<string>, i: nat)
    requires i < |ids|
    ensures ids[FirstIndex(ids, i)] == ids[i]
    ensures forall k | 0 <= k < FirstIndex(ids, i) :: ids[k] != ids[i]
  {
    FirstIndexFromFinds(ids, i, 0);
  }

  /** When identifiers are unique, the lookup by identifier finds the row itself. */
  lemma FirstIndexOfDistinct(ids: seq<string>, i: nat)
    requires i < |ids|
    ensures Distinct(ids) ==> FirstIndex(ids, i) == i
  {
    FirstIndexFinds(ids, i);
  }

  /** The job row the program reads for the JobID of row k: a row of the
      table with that JobID, and row k itself when JobIDs are unique. */
  function JobRow(jobs: seq<Job>, k: nat): (row: Job)
    requires k < |jobs|
    ensures row in jobs && row.id == jobs[k].id
    ensures Distinct(JobIds(jobs)) ==> row == jobs[k]
  {
    FirstIndexFinds(JobIds(jobs), k);
    FirstIndexOfDistinct(JobIds(jobs), k);
    jobs[FirstIndex(JobIds(jobs), k)]
  }

  /** The staff row the program reads for the StaffID of row i: a row of the
      table with that StaffID, and row i itself when StaffIDs are unique. */
  function StaffRow(staff: seq<Staff>, i: nat): (row: Staff)
    requires i < |staff|
    ensures row in staff && row.id == staff[i].id
    ensures Distinct(StaffIds(staff)) ==> row == staff[i]
  {
    FirstIndexFinds(StaffIds(staff), i);
    FirstIndexOfDistinct(StaffIds(staff), i);
    staff[FirstIndex(StaffIds(staff), i)]
  }

  /** A staff member is qualified for a job when the set of tools the job
      requires is a subset of the staff member's tools (QualifiedMeaning
      states this on the split lists). A staff member whose tool list is
      exactly the job's requirement is always qualified. */
  predicate Qualified(s: Staff, j: Job)
    ensures s.tools == j.toolsRequired ==> Qualified(s, j)
  {
    ToolSet(j.toolsRequired) <= ToolSet(s.tools)
  }

  /** Qualified, stated on the split lists: every name in the split
      requirement list occurs in the split tool list, whatever the order or
      repetition. */
  lemma QualifiedMeaning(s: Staff, j: Job)
    ensures Qualified(s, j) ==> forall t | t in Split(j.toolsRequired) :: t in Split(s.tools)
    ensures (forall t | t in Split(j.toolsRequired) :: t in Split(s.tools)) ==> Qualified(s, j)
  {
    ToolSetSubset(j.toolsRequired, s.tools);
  }
}
