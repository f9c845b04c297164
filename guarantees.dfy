/** What the roster promises when the solver's values satisfy every
    constraint the program adds (main.py, create_roster): staff have the
    tools for their jobs, a day with a job is a working day, nobody works
    on more than five days, nobody works more than nine hours a day
    including travel, the objective counts the roster's records, and no
    record is repeated. The solver itself is not modelled: these hold for
    any solution with 0/1 values that satisfies the constraint list. */
module Guarantees {
  import opened Travel
  import opened Entities
  import opened Grid
  import opened Variables
  import opened Constraints
  import opened Extraction

  // ---------------------------------------------------------------------
  // Sums of 0/1 values

  lemma {:induction false} DaySumBounds(sol: Solution, sid: string, jid: string, n: nat, d: nat)
    requires Binary(sol)
    ensures DaySum(sol, sid, jid, n) >= 0
    ensures d < n ==> DaySum(sol, sid, jid, n) >= ValueOf(sol, Assign(Slot(sid, jid, d)))
  {
    if n > 0 {
      DaySumBounds(sol, sid, jid, n - 1, d);
      assert ValueOf(sol, Assign(Slot(sid, jid, n - 1))) in {0, 1};
    }
  }

  lemma {:induction false} JobSumBounds(sol: Solution, sid: string, jobs: seq<Job>, m: nat, d: nat, k: nat)
    requires Binary(sol) && m <= |jobs|
    ensures JobSum(sol, sid, jobs, m, d) >= 0
    ensures k < m ==> JobSum(sol, sid, jobs, m, d) >= ValueOf(sol, Assign(Slot(sid, jobs[k].id, d)))
  {
    if m > 0 {
      JobSumBounds(sol, sid, jobs, m - 1, d, k);
      assert ValueOf(sol, Assign(Slot(sid, jobs[m - 1].id, d))) in {0, 1};
    }
  }

  // ---------------------------------------------------------------------
  // The roster, level by level of the walk

  lemma RosterOfDayCellsSnoc(staff: seq<Staff>, jobs: seq<Job>, sol: Solution, i: nat, k: nat, e: nat)
    requires i < |staff| && k < |jobs|
    ensures RosterOf(staff, jobs, sol, DayCells(i, k, e + 1)) == RosterOf(staff, jobs, sol, DayCells(i, k, e))
      + (if Assigned(staff, jobs, sol, Cell(i, k, e)) then [RecordOf(staff, jobs, Cell(i, k, e))] else [])
  {
    RosterOfSnoc(staff, jobs, sol, DayCells(i, k, e), Cell(i, k, e));
  }

  lemma RosterOfJobCellsSplit(staff: seq<Staff>, jobs: seq<Job>, sol: Solution, i: nat, k: nat)
    requires i < |staff| && k < |jobs|
    ensures RosterOf(staff, jobs, sol, JobCells(i, k + 1))
      == RosterOf(staff, jobs, sol, JobCells(i, k)) + RosterOf(staff, jobs, sol, DayCells(i, k, DayCount))
  {
    RosterOfConcat(staff, jobs, sol, JobCells(i, k), DayCells(i, k, DayCount));
  }

  lemma RosterOfStaffCellsSplit(staff: seq<Staff>, jobs: seq<Job>, sol: Solution, k: nat)
    requires k < |staff|
    ensures RosterOf(staff, jobs, sol, StaffCells(k + 1, |jobs|))
      == RosterOf(staff, jobs, sol, StaffCells(k, |jobs|)) + RosterOf(staff, jobs, sol, JobCells(k, |jobs|))
  {
    RosterOfConcat(staff, jobs, sol, StaffCells(k, |jobs|), JobCells(k, |jobs|));
  }

  // ---------------------------------------------------------------------
  // Tools

  /** An assigned cell pairs a qualified staff member with the job, and so
      does every other pair of rows carrying the same StaffID and JobID,
      since they share the assignment variable. */
  lemma AssignedCellQualified(staff: seq<Staff>, jobs: seq<Job>, sol: Solution, c: Cell, i: nat, k: nat)
    requires Binary(sol) && ToolRule(sol, staff, jobs)
    requires InGrid(staff, jobs, c) && Assigned(staff, jobs, sol, c)
    requires i < |staff| && k < |jobs|
    requires staff[i].id == staff[c.staff].id && jobs[k].id == jobs[c.job].id
    ensures Qualified(staff[i], jobs[k])
  {
    assert ToolRuleFor(sol, staff, jobs[k], |staff|);
    DaySumBounds(sol, staff[i].id, jobs[k].id, DayCount, c.day);
  }

  /** Every record pairs a staff member who holds all the tools the job
      requires: for every staff row with the record's StaffID and every job
      row with its JobID. */
  lemma RosterRespectsTools(staff: seq<Staff>, jobs: seq<Job>, sol: Solution, r: RosterRecord, s: Staff, j: Job)
    requires Binary(sol) && SatisfiesAll(sol, AllConstraints(staff, jobs))
    requires r in Roster(staff, jobs, sol)
    requires s in staff && s.id == r.staffAssigned
    requires j in jobs && j.id == r.jobId
    ensures Qualified(s, j)
  {
    ConstraintsMeanFeasible(sol, staff, jobs);
    RosterListsAssignedCells(staff, jobs, sol);
    var cells := GridAssignments(staff, jobs, sol);
    var p :| 0 <= p < |cells| && Roster(staff, jobs, sol)[p] == r;
    var c := cells[p];
    var i :| 0 <= i < |staff| && staff[i] == s;
    var k :| 0 <= k < |jobs| && jobs[k] == j;
    AssignedCellQualified(staff, jobs, sol, c, i, k);
  }

  // ---------------------------------------------------------------------
  // Working days

  /** A staff member with a job on a day has that day's working-day flag set. */
  lemma AssignedMeansWorking(staff: seq<Staff>, jobs: seq<Job>, sol: Solution, c: Cell)
    requires Binary(sol) && LinkRule(sol, staff, jobs)
    requires InGrid(staff, jobs, c) && Assigned(staff, jobs, sol, c)
    ensures ValueOf(sol, Work(StaffDay(staff[c.staff].id, c.day))) == 1
  {
    var sid := staff[c.staff].id;
    assert LinkRuleFor(sol, sid, jobs, DayCount);
    JobSumBounds(sol, sid, jobs, |jobs|, c.day, c.job);
    assert ValueOf(sol, Work(StaffDay(sid, c.day))) in {0, 1};
  }

  /** The days on which the roster gives staff member sid a job. */
  function RosterDays(roster: seq<RosterRecord>, sid: string): (days: set<nat>)
  {
    set r | r in roster && r.staffAssigned == sid :: r.day
  }

  /** The days among 0 .. n-1 whose working-day flag is set for sid. */
  function WorkDays(sol: Solution, sid: string, n: nat): (days: set<nat>)
  {
    set d | 0 <= d < n && ValueOf(sol, Work(StaffDay(sid, d))) == 1
  }

  lemma {:induction false} WorkDaysCount(sol: Solution, sid: string, n: nat)
    requires Binary(sol)
    ensures |WorkDays(sol, sid, n)| == WorkedDays(sol, sid, n)
  {
    if n > 0 {
      WorkDaysCount(sol, sid, n - 1);
      assert ValueOf(sol, Work(StaffDay(sid, n - 1))) in {0, 1};
      if ValueOf(sol, Work(StaffDay(sid, n - 1))) == 1 {
        assert WorkDays(sol, sid, n) == WorkDays(sol, sid, n - 1) + {n - 1};
      } else {
        assert WorkDays(sol, sid, n) == WorkDays(sol, sid, n - 1);
      }
    }
  }

  /** A record's day is a working day of its staff member. */
  lemma RecordDayIsWorkDay(staff: seq<Staff>, jobs: seq<Job>, sol: Solution, r: RosterRecord)
    requires Binary(sol) && LinkRule(sol, staff, jobs)
    requires r in Roster(staff, jobs, sol)
    ensures r.day in WorkDays(sol, r.staffAssigned, DayCount)
  {
    RosterListsAssignedCells(staff, jobs, sol);
    var cells := GridAssignments(staff, jobs, sol);
    var p :| 0 <= p < |cells| && Roster(staff, jobs, sol)[p] == r;
    AssignedMeansWorking(staff, jobs, sol, cells[p]);
  }

  /** Every rostered day of sid is one of sid's working days. */
  lemma RosterDaysAreWorkDays(staff: seq<Staff>, jobs: seq<Job>, sol: Solution, sid: string)
    requires Binary(sol) && LinkRule(sol, staff, jobs)
    ensures RosterDays(Roster(staff, jobs, sol), sid) <= WorkDays(sol, sid, DayCount)
  {
    forall d | d in RosterDays(Roster(staff, jobs, sol), sid) ensures d in WorkDays(sol, sid, DayCount) {
      var r :| r in Roster(staff, jobs, sol) && r.staffAssigned == sid && r.day == d;
      RecordDayIsWorkDay(staff, jobs, sol, r);
    }
  }

  lemma SubsetCard<T>(a: set<T>, b: set<T>)
    requires a <= b
    ensures |a| <= |b|
  {
    assert b == a + (b - a);
    assert a * (b - a) == {};
  }

  /** Nobody is rostered on more than five different days of the week. */
  lemma RosterAtMostFiveDays(staff: seq<Staff>, jobs: seq<Job>, sol: Solution, sid: string)
    requires Binary(sol) && SatisfiesAll(sol, AllConstraints(staff, jobs))
    ensures |RosterDays(Roster(staff, jobs, sol), sid)| <= MaxDaysPerWeek
  {
    ConstraintsMeanFeasible(sol, staff, jobs);
    var days := RosterDays(Roster(staff, jobs, sol), sid);
    if i :| 0 <= i < |staff| && staff[i].id == sid {
      RosterDaysAreWorkDays(staff, jobs, sol, sid);
      WorkDaysCount(sol, sid, DayCount);
      SubsetCard(days, WorkDays(sol, sid, DayCount));
    } else {
      forall d | d in days ensures false {
        var r :| r in Roster(staff, jobs, sol) && r.staffAssigned == sid && r.day == d;
        RosterRecordsComeFromTables(staff, jobs, sol, r);
      }
      assert days == {};
    }
  }

  // ---------------------------------------------------------------------
  // Daily hours

  /** Hours of work and travel the roster gives staff member sid, based at
      loc, on day d. */
  function DayHours(roster: seq<RosterRecord>, sid: string, loc: string, d: nat): (v: real)
    decreases |roster|
  {
    if roster == [] then 0.0
    else
      var r := roster[|roster| - 1];
      DayHours(roster[..|roster| - 1], sid, loc, d)
      + (if r.staffAssigned == sid && r.day == d then r.jobLength + TravelTime(loc, r.jobLocation) else 0.0)
  }

  lemma {:induction false} DayHoursConcat(a: seq<RosterRecord>, b: seq<RosterRecord>, sid: string, loc: string, d: nat)
    ensures DayHours(a + b, sid, loc, d) == DayHours(a, sid, loc, d) + DayHours(b, sid, loc, d)
    decreases |b|
  {
    if b == [] {
      assert a + b == a;
    } else {
      assert (a + b)[..|a + b| - 1] == a + b[..|b| - 1];
      DayHoursConcat(a, b[..|b| - 1], sid, loc, d);
    }
  }

  lemma {:induction false} DayHoursOfOthers(roster: seq<RosterRecord>, sid: string, loc: string, d: nat)
    requires forall r | r in roster :: r.staffAssigned != sid
    ensures DayHours(roster, sid, loc, d) == 0.0
    decreases |roster|
  {
    if roster != [] {
      assert forall r | r in roster[..|roster| - 1] :: r in roster;
      DayHoursOfOthers(roster[..|roster| - 1], sid, loc, d);
    }
  }

  /** The records written for the cells of staff row i carry its StaffID. */
  lemma RosterOfRow(staff: seq<Staff>, jobs: seq<Job>, sol: Solution, i: nat, m: nat)
    requires i < |staff| && m <= |jobs|
    ensures forall r | r in RosterOf(staff, jobs, sol, JobCells(i, m)) :: r.staffAssigned == staff[i].id
  {
    var cells := JobCells(i, m);
    RosterOfIsRecordsOfAssigned(staff, jobs, sol, cells);
    var a := AssignedCells(staff, jobs, sol, cells);
    forall r | r in RosterOf(staff, jobs, sol, cells) ensures r.staffAssigned == staff[i].id {
      var p :| 0 <= p < |a| && RecordsOf(staff, jobs, a)[p] == r;
      assert a[p] in cells;
    }
  }

  lemma HoursOfRecord(r: RosterRecord, sid: string, loc: string, d: nat)
    ensures DayHours([r], sid, loc, d)
      == if r.staffAssigned == sid && r.day == d then r.jobLength + TravelTime(loc, r.jobLocation) else 0.0
  {
    assert [r][..0] == [];
  }

  lemma ScaleBinary(c: real, x: int)
    requires x == 0 || x == 1
    ensures Scale(c, x) == if x == 1 then c else 0.0
  {
    if x == 1 {
      assert Scale(c, 0) == 0.0;
    }
  }

  /** The hours the day cells 0 .. n-1 of (staff row i, job row k)
      contribute to day d: the cost of job k if it is assigned on day d < n. */
  function DayCellHours(staff: seq<Staff>, jobs: seq<Job>, sol: Solution, i: nat, k: nat, n: nat, d: nat): (v: real)
    requires i < |staff| && k < |jobs|
  {
    if d < n then Scale(Cost(staff, jobs, i, k), ValueOf(sol, Assign(Slot(staff[i].id, jobs[k].id, d)))) else 0.0
  }

  /** The record written for day e, if any, adds the cost of job k to day
      d exactly when e is d and the job is assigned that day. */
  lemma DayTailHours(staff: seq<Staff>, jobs: seq<Job>, sol: Solution, i: nat, k: nat, e: nat, d: nat)
    requires Binary(sol) && i < |staff| && k < |jobs|
    ensures DayHours(if Assigned(staff, jobs, sol, Cell(i, k, e)) then [RecordOf(staff, jobs, Cell(i, k, e))] else [],
                     staff[i].id, StaffRow(staff, i).location, d)
      == if e == d then Scale(Cost(staff, jobs, i, k), ValueOf(sol, Assign(Slot(staff[i].id, jobs[k].id, e)))) else 0.0
  {
    var c := Cell(i, k, e);
    var v := ValueOf(sol, Assign(Slot(staff[i].id, jobs[k].id, e)));
    assert ValueOf(sol, Assign(Slot(staff[i].id, jobs[k].id, e))) in {0, 1};
    ScaleBinary(Cost(staff, jobs, i, k), v);
    if Assigned(staff, jobs, sol, c) {
      HoursOfRecord(RecordOf(staff, jobs, c), staff[i].id, StaffRow(staff, i).location, d);
    }
  }

  lemma DayHoursOfDaysStep(staff: seq<Staff>, jobs: seq<Job>, sol: Solution, i: nat, k: nat, e: nat, d: nat)
    requires Binary(sol) && i < |staff| && k < |jobs|
    requires DayHours(RosterOf(staff, jobs, sol, DayCells(i, k, e)), staff[i].id, StaffRow(staff, i).location, d)
      == DayCellHours(staff, jobs, sol, i, k, e, d)
    ensures DayHours(RosterOf(staff, jobs, sol, DayCells(i, k, e + 1)), staff[i].id, StaffRow(staff, i).location, d)
      == DayCellHours(staff, jobs, sol, i, k, e + 1, d)
  {
    var sid, loc := staff[i].id, StaffRow(staff, i).location;
    var c := Cell(i, k, e);
    var prefix := RosterOf(staff, jobs, sol, DayCells(i, k, e));
    var tail := if Assigned(staff, jobs, sol, c) then [RecordOf(staff, jobs, c)] else [];
    RosterOfDayCellsSnoc(staff, jobs, sol, i, k, e);
    DayTailHours(staff, jobs, sol, i, k, e, d);
    DayHoursConcat(prefix, tail, sid, loc, d);
  }

  /** The seven day cells of (staff row i, job row k) contribute the cost of
      the job exactly when it is assigned on day d. */
  lemma {:induction false} DayHoursOfDays(staff: seq<Staff>, jobs: seq<Job>, sol: Solution, i: nat, k: nat, n: nat, d: nat)
    requires Binary(sol) && i < |staff| && k < |jobs|
    ensures DayHours(RosterOf(staff, jobs, sol, DayCells(i, k, n)), staff[i].id, StaffRow(staff, i).location, d)
      == DayCellHours(staff, jobs, sol, i, k, n, d)
  {
    if n > 0 {
      var e := n - 1;
      DayHoursOfDays(staff, jobs, sol, i, k, e, d);
      DayHoursOfDaysStep(staff, jobs, sol, i, k, e, d);
      assert e + 1 == n;
    }
  }

  /** The load of staff row i on day d, or nothing when d is not a day of the week. */
  function RowHours(sol: Solution, staff: seq<Staff>, jobs: seq<Job>, i: nat, m: nat, d: nat): (v: real)
    requires i < |staff| && m <= |jobs|
  {
    if d < DayCount then Load(sol, staff, jobs, i, m, d) else 0.0
  }

  lemma DayHoursOfJobsStep(staff: seq<Staff>, jobs: seq<Job>, sol: Solution, i: nat, k: nat, d: nat)
    requires Binary(sol) && i < |staff| && k < |jobs|
    requires DayHours(RosterOf(staff, jobs, sol, JobCells(i, k)), staff[i].id, StaffRow(staff, i).location, d)
      == RowHours(sol, staff, jobs, i, k, d)
    ensures DayHours(RosterOf(staff, jobs, sol, JobCells(i, k + 1)), staff[i].id, StaffRow(staff, i).location, d)
      == RowHours(sol, staff, jobs, i, k + 1, d)
  {
    var sid, loc := staff[i].id, StaffRow(staff, i).location;
    var ra, rb := RosterOf(staff, jobs, sol, JobCells(i, k)), RosterOf(staff, jobs, sol, DayCells(i, k, DayCount));
    DayHoursOfDays(staff, jobs, sol, i, k, DayCount, d);
    RosterOfJobCellsSplit(staff, jobs, sol, i, k);
    DayHoursConcat(ra, rb, sid, loc, d);
  }

  /** The cells of staff row i contribute its load of day d. */
  lemma {:induction false} DayHoursOfJobs(staff: seq<Staff>, jobs: seq<Job>, sol: Solution, i: nat, m: nat, d: nat)
    requires Binary(sol) && i < |staff| && m <= |jobs|
    ensures DayHours(RosterOf(staff, jobs, sol, JobCells(i, m)), staff[i].id, StaffRow(staff, i).location, d)
      == RowHours(sol, staff, jobs, i, m, d)
  {
    if m > 0 {
      var k := m - 1;
      DayHoursOfJobs(staff, jobs, sol, i, k, d);
      DayHoursOfJobsStep(staff, jobs, sol, i, k, d);
      assert k + 1 == m;
    }
  }

  /** The hours of staff row i on day d among staff rows 0 .. n-1. */
  function StaffHours(sol: Solution, staff: seq<Staff>, jobs: seq<Job>, i: nat, n: nat, d: nat): (v: real)
    requires i < |staff|
  {
    if i < n then RowHours(sol, staff, jobs, i, |jobs|, d) else 0.0
  }

  lemma DayHoursOfStaffStep(staff: seq<Staff>, jobs: seq<Job>, sol: Solution, i: nat, k: nat, d: nat)
    requires Binary(sol) && Distinct(StaffIds(staff)) && i < |staff| && k < |staff|
    requires DayHours(RosterOf(staff, jobs, sol, StaffCells(k, |jobs|)), staff[i].id, StaffRow(staff, i).location, d)
      == StaffHours(sol, staff, jobs, i, k, d)
    ensures DayHours(RosterOf(staff, jobs, sol, StaffCells(k + 1, |jobs|)), staff[i].id, StaffRow(staff, i).location, d)
      == StaffHours(sol, staff, jobs, i, k + 1, d)
  {
    var sid, loc := staff[i].id, StaffRow(staff, i).location;
    var ra, rb := RosterOf(staff, jobs, sol, StaffCells(k, |jobs|)), RosterOf(staff, jobs, sol, JobCells(k, |jobs|));
    RosterOfStaffCellsSplit(staff, jobs, sol, k);
    if k == i {
      DayHoursOfJobs(staff, jobs, sol, i, |jobs|, d);
    } else {
      assert StaffIds(staff)[k] != StaffIds(staff)[i];
      RosterOfRow(staff, jobs, sol, k, |jobs|);
      DayHoursOfOthers(rb, sid, loc, d);
    }
    DayHoursConcat(ra, rb, sid, loc, d);
  }

  /** With unique StaffIDs, only staff row i contributes to its hours. */
  lemma {:induction false} DayHoursOfStaff(staff: seq<Staff>, jobs: seq<Job>, sol: Solution, i: nat, n: nat, d: nat)
    requires Binary(sol) && Distinct(StaffIds(staff)) && i < |staff| && n <= |staff|
    ensures DayHours(RosterOf(staff, jobs, sol, StaffCells(n, |jobs|)), staff[i].id, StaffRow(staff, i).location, d)
      == StaffHours(sol, staff, jobs, i, n, d)
  {
    if n > 0 {
      var k := n - 1;
      DayHoursOfStaff(staff, jobs, sol, i, k, d);
      DayHoursOfStaffStep(staff, jobs, sol, i, k, d);
      assert k + 1 == n;
    }
  }

  /** With unique StaffIDs, nobody's rostered jobs and travel exceed nine
      hours on any day. */
  lemma RosterWithinDailyHours(staff: seq<Staff>, jobs: seq<Job>, sol: Solution, i: nat, d: nat)
    requires Binary(sol) && SatisfiesAll(sol, AllConstraints(staff, jobs))
    requires Distinct(StaffIds(staff)) && i < |staff|
    ensures DayHours(Roster(staff, jobs, sol), staff[i].id, staff[i].location, d) <= MaxHoursPerDay
  {
    ConstraintsMeanFeasible(sol, staff, jobs);
    DayHoursOfStaff(staff, jobs, sol, i, |staff|, d);
    assert CapRuleFor(sol, staff, jobs, i, DayCount);
  }

  // ---------------------------------------------------------------------
  // The objective

  lemma RosterCountOfDaysStep(staff: seq<Staff>, jobs: seq<Job>, sol: Solution, i: nat, k: nat, e: nat)
    requires Binary(sol) && i < |staff| && k < |jobs|
    requires |RosterOf(staff, jobs, sol, DayCells(i, k, e))| == DaySum(sol, staff[i].id, jobs[k].id, e)
    ensures |RosterOf(staff, jobs, sol, DayCells(i, k, e + 1))| == DaySum(sol, staff[i].id, jobs[k].id, e + 1)
  {
    RosterOfDayCellsSnoc(staff, jobs, sol, i, k, e);
    assert ValueOf(sol, Assign(Slot(staff[i].id, jobs[k].id, e))) in {0, 1};
  }

  lemma {:induction false} RosterCountOfDays(staff: seq<Staff>, jobs: seq<Job>, sol: Solution, i: nat, k: nat, n: nat)
    requires Binary(sol) && i < |staff| && k < |jobs|
    ensures |RosterOf(staff, jobs, sol, DayCells(i, k, n))| == DaySum(sol, staff[i].id, jobs[k].id, n)
  {
    if n > 0 {
      var e := n - 1;
      RosterCountOfDays(staff, jobs, sol, i, k, e);
      RosterCountOfDaysStep(staff, jobs, sol, i, k, e);
      assert e + 1 == n;
    }
  }

  lemma RosterCountOfJobsStep(staff: seq<Staff>, jobs: seq<Job>, sol: Solution, i: nat, k: nat)
    requires Binary(sol) && i < |staff| && k < |jobs|
    requires Eval(sol, ObjectiveRow(staff[i].id, jobs, k)) == |RosterOf(staff, jobs, sol, JobCells(i, k))| as real
    ensures Eval(sol, ObjectiveRow(staff[i].id, jobs, k + 1)) == |RosterOf(staff, jobs, sol, JobCells(i, k + 1))| as real
  {
    var sid := staff[i].id;
    EvalDayTerms(sol, sid, jobs[k].id, DayCount);
    RosterCountOfDays(staff, jobs, sol, i, k, DayCount);
    RosterOfJobCellsSplit(staff, jobs, sol, i, k);
    EvalConcat(sol, ObjectiveRow(sid, jobs, k), DayTerms(sid, jobs[k].id, DayCount));
  }

  lemma {:induction false} RosterCountOfJobs(staff: seq<Staff>, jobs: seq<Job>, sol: Solution, i: nat, m: nat)
    requires Binary(sol) && i < |staff| && m <= |jobs|
    ensures Eval(sol, ObjectiveRow(staff[i].id, jobs, m)) == |RosterOf(staff, jobs, sol, JobCells(i, m))| as real
  {
    if m > 0 {
      var k := m - 1;
      RosterCountOfJobs(staff, jobs, sol, i, k);
      RosterCountOfJobsStep(staff, jobs, sol, i, k);
      assert k + 1 == m;
    }
  }

  lemma RosterCountOfStaffStep(staff: seq<Staff>, jobs: seq<Job>, sol: Solution, k: nat)
    requires Binary(sol) && k < |staff|
    requires Eval(sol, ObjectiveUpTo(staff, jobs, k)) == |RosterOf(staff, jobs, sol, StaffCells(k, |jobs|))| as real
    ensures Eval(sol, ObjectiveUpTo(staff, jobs, k + 1)) == |RosterOf(staff, jobs, sol, StaffCells(k + 1, |jobs|))| as real
  {
    RosterCountOfJobs(staff, jobs, sol, k, |jobs|);
    RosterOfStaffCellsSplit(staff, jobs, sol, k);
    EvalConcat(sol, ObjectiveUpTo(staff, jobs, k), ObjectiveRow(staff[k].id, jobs, |jobs|));
  }

  lemma {:induction false} RosterCountOfStaff(staff: seq<Staff>, jobs: seq<Job>, sol: Solution, n: nat)
    requires Binary(sol) && n <= |staff|
    ensures Eval(sol, ObjectiveUpTo(staff, jobs, n)) == |RosterOf(staff, jobs, sol, StaffCells(n, |jobs|))| as real
  {
    if n > 0 {
      var k := n - 1;
      RosterCountOfStaff(staff, jobs, sol, k);
      RosterCountOfStaffStep(staff, jobs, sol, k);
      assert k + 1 == n;
    }
  }

  /** For 0/1 values, the objective the solver maximises is the number of
      records in the roster. */
  lemma ObjectiveCountsRoster(staff: seq<Staff>, jobs: seq<Job>, sol: Solution)
    requires Binary(sol)
    ensures Eval(sol, Objective(staff, jobs)) == |Roster(staff, jobs, sol)| as real
  {
    RosterCountOfStaff(staff, jobs, sol, |staff|);
  }

  // ---------------------------------------------------------------------
  // No repeated records

  /** With unique StaffIDs and JobIDs no record occurs twice. */
  lemma RosterHasNoDuplicates(staff: seq<Staff>, jobs: seq<Job>, sol: Solution)
    requires Distinct(StaffIds(staff)) && Distinct(JobIds(jobs))
    ensures forall p, q | 0 <= p < q < |Roster(staff, jobs, sol)| :: Roster(staff, jobs, sol)[p] != Roster(staff, jobs, sol)[q]
  {
    RosterListsAssignedCells(staff, jobs, sol);
    var cells := GridAssignments(staff, jobs, sol);
    forall p, q | 0 <= p < q < |Roster(staff, jobs, sol)| ensures Roster(staff, jobs, sol)[p] != Roster(staff, jobs, sol)[q] {
      var a, b := cells[p], cells[q];
      assert Before(a, b);
      if a.staff != b.staff {
        assert StaffIds(staff)[a.staff] != StaffIds(staff)[b.staff];
      } else if a.job != b.job {
        assert JobIds(jobs)[a.job] != JobIds(jobs)[b.job];
      }
    }
  }
}
