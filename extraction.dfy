/** Reading the roster off a solved problem (main.py, create_roster, the
    output part): one record per assignment variable whose value is 1, in
    staff, job, day order, and nothing at all unless the solver reports an
    optimal solution. */
module Extraction {
  import opened Wrappers
  import opened Entities
  import opened Grid
  import opened Variables

  /** The solver statuses PuLP reports (`LpStatus`). */
  datatype Status = NotSolved | Optimal | Infeasible | Unbounded | Undefined

  /** One row of the output roster: JobID, JobLength, JobLocation,
      StaffAssigned and Day. */
  datatype RosterRecord = RosterRecord(jobId: string, jobLength: real, jobLocation: string, staffAssigned: string, day: nat)

  /** The cells of the full grid of a staff and a job table. */
  predicate InGrid(staff: seq<Staff>, jobs: seq<Job>, c: Cell)
  {
    c.staff < |staff| && c.job < |jobs| && c.day < DayCount
  }

  /** The assignment variable of a cell is 1. */
  predicate Assigned(staff: seq<Staff>, jobs: seq<Job>, sol: Solution, c: Cell)
    requires InTables(staff, jobs, c)
  {
    ValueOf(sol, Assign(SlotOf(staff, jobs, c))) == 1
  }

  /** The record the program writes for a cell: JobID and StaffID of the
      cell's rows, and length and location of the first job row with that
      JobID. */
  function RecordOf(staff: seq<Staff>, jobs: seq<Job>, c: Cell): (rec: RosterRecord)
    requires InTables(staff, jobs, c)
    ensures rec.jobId == jobs[c.job].id && rec.staffAssigned == staff[c.staff].id && rec.day == c.day
    ensures Distinct(JobIds(jobs)) ==>
      rec.jobLength == jobs[c.job].length && rec.jobLocation == jobs[c.job].location
  {
    RosterRecord(jobs[c.job].id, JobRow(jobs, c.job).length, JobRow(jobs, c.job).location, staff[c.staff].id, c.day)
  }

  /** The records written while visiting `cells` in order. */
  function RosterOf(staff: seq<Staff>, jobs: seq<Job>, sol: Solution, cells: seq<Cell>): (records: seq<RosterRecord>)
    requires forall c | c in cells :: InTables(staff, jobs, c)
    ensures |records| <= |cells|
    decreases |cells|
  {
    if cells == [] then []
    else
      var last := cells[|cells| - 1];
      RosterOf(staff, jobs, sol, cells[..|cells| - 1])
      + (if Assigned(staff, jobs, sol, last) then [RecordOf(staff, jobs, last)] else [])
  }

  /** The assigned cells among `cells`, in order. */
  function AssignedCells(staff: seq<Staff>, jobs: seq<Job>, sol: Solution, cells: seq<Cell>): (r: seq<Cell>)
    requires forall c | c in cells :: InTables(staff, jobs, c)
    ensures forall c | c in r :: c in cells && Assigned(staff, jobs, sol, c)
    decreases |cells|
  {
    if cells == [] then []
    else
      var last := cells[|cells| - 1];
      assert forall c | c in cells[..|cells| - 1] :: c in cells;
      AssignedCells(staff, jobs, sol, cells[..|cells| - 1])
      + (if Assigned(staff, jobs, sol, last) then [last] else [])
  }

  /** The whole roster the program writes for a solution. */
  function Roster(staff: seq<Staff>, jobs: seq<Job>, sol: Solution): (records: seq<RosterRecord>)
    ensures |records| <= |staff| * |jobs| * DayCount
  {
    StaffCellsLength(|staff|, |jobs|);
    RosterOf(staff, jobs, sol, StaffCells(|staff|, |jobs|))
  }

  /** The records of a sequence of cells, one per cell. */
  function RecordsOf(staff: seq<Staff>, jobs: seq<Job>, cells: seq<Cell>): (rs: seq<RosterRecord>)
    requires forall c | c in cells :: InTables(staff, jobs, c)
    ensures |rs| == |cells|
  {
    seq(|cells|, p requires 0 <= p < |cells| => RecordOf(staff, jobs, cells[p]))
  }

  lemma {:induction false} RosterOfConcat(staff: seq<Staff>, jobs: seq<Job>, sol: Solution, a: seq<Cell>, b: seq<Cell>)
    requires forall c | c in a :: InTables(staff, jobs, c)
    requires forall c | c in b :: InTables(staff, jobs, c)
    ensures forall c | c in a + b :: InTables(staff, jobs, c)
    ensures RosterOf(staff, jobs, sol, a + b) == RosterOf(staff, jobs, sol, a) + RosterOf(staff, jobs, sol, b)
    decreases |b|
  {
    if b == [] {
      assert a + b == a;
    } else {
      var init, last := b[..|b| - 1], b[|b| - 1];
      assert forall c | c in init :: c in b;
      assert (a + b)[..|a + b| - 1] == a + init;
      RosterOfConcat(staff, jobs, sol, a, init);
    }
  }

  /** The roster of a walk is the list of records of its assigned cells. */
  lemma {:induction false} RosterOfIsRecordsOfAssigned(staff: seq<Staff>, jobs: seq<Job>, sol: Solution, cells: seq<Cell>)
    requires forall c | c in cells :: InTables(staff, jobs, c)
    ensures RosterOf(staff, jobs, sol, cells) == RecordsOf(staff, jobs, AssignedCells(staff, jobs, sol, cells))
    decreases |cells|
  {
    if cells != [] {
      var init, last := cells[..|cells| - 1], cells[|cells| - 1];
      assert forall c | c in init :: c in cells;
      RosterOfIsRecordsOfAssigned(staff, jobs, sol, init);
      var a := AssignedCells(staff, jobs, sol, init);
      if Assigned(staff, jobs, sol, last) {
        assert RecordsOf(staff, jobs, a + [last]) == RecordsOf(staff, jobs, a) + [RecordOf(staff, jobs, last)];
      } else {
        assert a + [] == a;
        assert RosterOf(staff, jobs, sol, init) + [] == RosterOf(staff, jobs, sol, init);
      }
    }
  }

  /** Keeping only the assigned cells keeps the order of the walk. */
  lemma {:induction false} AssignedCellsAscending(staff: seq<Staff>, jobs: seq<Job>, sol: Solution, cells: seq<Cell>)
    requires forall c | c in cells :: InTables(staff, jobs, c)
    requires Ascending(cells)
    ensures Ascending(AssignedCells(staff, jobs, sol, cells))
    decreases |cells|
  {
    if cells != [] {
      var init, last := cells[..|cells| - 1], cells[|cells| - 1];
      assert forall c | c in init :: c in cells;
      assert Ascending(init) by {
        forall p, q | 0 <= p < q < |init| ensures Before(init[p], init[q]) {
          assert init[p] == cells[p] && init[q] == cells[q];
        }
      }
      AssignedCellsAscending(staff, jobs, sol, init);
      var a := AssignedCells(staff, jobs, sol, init);
      if Assigned(staff, jobs, sol, last) {
        forall x | x in a ensures Before(x, last) {
          var p :| 0 <= p < |init| && init[p] == x;
        }
        AscendingConcat(a, [last]);
      } else {
        assert a + [] == a;
      }
    }
  }

  /** An assigned cell of the walk is kept. */
  lemma {:induction false} AssignedCellsComplete(staff: seq<Staff>, jobs: seq<Job>, sol: Solution, cells: seq<Cell>, c: Cell)
    requires forall x | x in cells :: InTables(staff, jobs, x)
    requires c in cells && Assigned(staff, jobs, sol, c)
    ensures c in AssignedCells(staff, jobs, sol, cells)
    decreases |cells|
  {
    var init, last := cells[..|cells| - 1], cells[|cells| - 1];
    assert forall x | x in init :: x in cells;
    if c != last {
      assert c in init by {
        var p :| 0 <= p < |cells| && cells[p] == c;
        assert p < |cells| - 1 && init[p] == c;
      }
      AssignedCellsComplete(staff, jobs, sol, init, c);
    }
  }

  /** The assigned cells of the whole grid. */
  function GridAssignments(staff: seq<Staff>, jobs: seq<Job>, sol: Solution): (cells: seq<Cell>)
  {
    AssignedCells(staff, jobs, sol, StaffCells(|staff|, |jobs|))
  }

  /** The roster lists one record for each cell of the grid whose assignment
      variable is 1 and for no other cell, in increasing (staff row, job row,
      day) order. */
  lemma RosterListsAssignedCells(staff: seq<Staff>, jobs: seq<Job>, sol: Solution)
    ensures Ascending(GridAssignments(staff, jobs, sol))
    ensures forall c: Cell :: c in GridAssignments(staff, jobs, sol) <==> InGrid(staff, jobs, c) && Assigned(staff, jobs, sol, c)
    ensures Roster(staff, jobs, sol) == RecordsOf(staff, jobs, GridAssignments(staff, jobs, sol))
  {
    var cells := StaffCells(|staff|, |jobs|);
    StaffCellsAscending(|staff|, |jobs|);
    AssignedCellsAscending(staff, jobs, sol, cells);
    RosterOfIsRecordsOfAssigned(staff, jobs, sol, cells);
    forall c: Cell | InGrid(staff, jobs, c) && Assigned(staff, jobs, sol, c)
      ensures c in GridAssignments(staff, jobs, sol)
    {
      StaffCellsComplete(|staff|, |jobs|, c);
      AssignedCellsComplete(staff, jobs, sol, cells, c);
    }
  }

  /** Every record names a job of the table: its length and location are
      those of a job row with its JobID, and when JobIDs are unique, those of
      every such row. It also names a staff member of the table and a day of
      the week. */
  lemma RosterRecordsComeFromTables(staff: seq<Staff>, jobs: seq<Job>, sol: Solution, r: RosterRecord)
    requires r in Roster(staff, jobs, sol)
    ensures exists j | j in jobs :: j.id == r.jobId && j.length == r.jobLength && j.location == r.jobLocation
    ensures Distinct(JobIds(jobs)) ==>
      forall j | j in jobs && j.id == r.jobId :: j.length == r.jobLength && j.location == r.jobLocation
    ensures exists s | s in staff :: s.id == r.staffAssigned
    ensures r.day < DayCount
  {
    RosterListsAssignedCells(staff, jobs, sol);
    var cells := GridAssignments(staff, jobs, sol);
    var p :| 0 <= p < |cells| && Roster(staff, jobs, sol)[p] == r;
    var c := cells[p];
    assert r == RecordOf(staff, jobs, c);
    assert staff[c.staff] in staff;
    if Distinct(JobIds(jobs)) {
      forall j | j in jobs && j.id == r.jobId ensures j.length == r.jobLength && j.location == r.jobLocation {
        var k :| 0 <= k < |jobs| && jobs[k] == j;
        assert JobIds(jobs)[k] == JobIds(jobs)[c.job];
      }
    }
  }

  /** Visiting one more cell appends its record exactly when it is assigned. */
  lemma RosterOfSnoc(staff: seq<Staff>, jobs: seq<Job>, sol: Solution, a: seq<Cell>, c: Cell)
    requires forall x | x in a :: InTables(staff, jobs, x)
    requires InTables(staff, jobs, c)
    ensures forall x | x in a + [c] :: InTables(staff, jobs, x)
    ensures RosterOf(staff, jobs, sol, a + [c]) ==
      RosterOf(staff, jobs, sol, a) + (if Assigned(staff, jobs, sol, c) then [RecordOf(staff, jobs, c)] else [])
  {
    assert (a + [c])[..|a|] == a;
  }

  /** The innermost output loop: the records of the seven days of staff
      row i and job row k. */
  method DayRecords(staff: seq<Staff>, jobs: seq<Job>, sol: Solution, i: nat, k: nat) returns (rs: seq<RosterRecord>)
    requires i < |staff| && k < |jobs|
    ensures rs == RosterOf(staff, jobs, sol, DayCells(i, k, DayCount))
  {
    rs := [];
    var d := 0;
    while d < DayCount
      invariant d <= DayCount
      invariant rs == RosterOf(staff, jobs, sol, DayCells(i, k, d))
    {
      RosterOfSnoc(staff, jobs, sol, DayCells(i, k, d), Cell(i, k, d));
      if ValueOf(sol, Assign(Slot(staff[i].id, jobs[k].id, d))) == 1 {
        var job := JobRow(jobs, k);
        rs := rs + [RosterRecord(jobs[k].id, job.length, job.location, staff[i].id, d)];
      } else {
        assert rs + [] == rs;
      }
      d := d + 1;
    }
  }

  /** The middle output loop: the records of staff row i, job by job. */
  method StaffRecords(staff: seq<Staff>, jobs: seq<Job>, sol: Solution, i: nat) returns (rs: seq<RosterRecord>)
    requires i < |staff|
    ensures rs == RosterOf(staff, jobs, sol, JobCells(i, |jobs|))
  {
    rs := [];
    var k := 0;
    while k < |jobs|
      invariant k <= |jobs|
      invariant rs == RosterOf(staff, jobs, sol, JobCells(i, k))
    {
      var day := DayRecords(staff, jobs, sol, i, k);
      RosterOfConcat(staff, jobs, sol, JobCells(i, k), DayCells(i, k, DayCount));
      rs := rs + day;
      k := k + 1;
    }
  }

  /** The output loops of create_roster: nothing unless the status is
      Optimal; otherwise a record for every (StaffID, JobID, day) whose
      assignment variable has the value 1, staff rows outermost. */
  method Extract(status: Status, staff: seq<Staff>, jobs: seq<Job>, sol: Solution) returns (r: Option<seq<RosterRecord>>)
    ensures r == if status == Optimal then Some(Roster(staff, jobs, sol)) else None
  {
    if status != Optimal {
      return None;
    }
    var roster: seq<RosterRecord> := [];
    var i := 0;
    while i < |staff|
      invariant i <= |staff|
      invariant roster == RosterOf(staff, jobs, sol, StaffCells(i, |jobs|))
    {
      var records := StaffRecords(staff, jobs, sol, i);
      RosterOfConcat(staff, jobs, sol, StaffCells(i, |jobs|), JobCells(i, |jobs|));
      roster := roster + records;
      i := i + 1;
    }
    return Some(roster);
  }
}
