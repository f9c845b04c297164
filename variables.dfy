/** The decision variables of the model and the values a solver gives them
    (main.py, create_roster: the `assignments` and `working_days` dictionaries). */
module Variables {
  import opened Entities
  import opened Grid

  /** Key of an assignment variable: (StaffID, JobID, day). */
  datatype Slot = Slot(staffId: string, jobId: string, day: nat)

  /** Key of a working-day variable: (StaffID, day). */
  datatype StaffDay = StaffDay(staffId: string, day: nat)

  /** A binary decision variable: "this staff member does this job on this
      day", or "this staff member works on this day". Variables are identified
      by their dictionary key; the solver label strings are not modelled. */
  datatype Var = Assign(slot: Slot) | Work(staffDay: StaffDay)

  /** The values a solver reports, one per variable. */
  type Solution = map<Var, int>

  /** The value of a variable in a solution; a variable the solution does not
      mention reads as 0. */
  function ValueOf(sol: Solution, v: Var): (total: int)
  {
    if v in sol then sol[v] else 0
  }

  /** Every variable is declared binary, so an admissible solution gives each one 0 or 1. */
  predicate Binary(sol: Solution)
  {
    forall v | v in sol :: sol[v] == 0 || sol[v] == 1
  }

  /** A cell whose staff and job rows exist in the tables. */
  predicate InTables(staff: seq<Staff>, jobs: seq<Job>, c: Cell)
  {
    c.staff < |staff| && c.job < |jobs|
  }

  /** The dictionary key the program uses for a grid cell. */
  function SlotOf(staff: seq<Staff>, jobs: seq<Job>, c: Cell): (key: Slot)
    requires InTables(staff, jobs, c)
  {
    Slot(staff[c.staff].id, jobs[c.job].id, c.day)
  }

  /** The `assignments` dictionary: one variable per key (StaffID, JobID, day),
      keys generated staff-outer, job-middle, day-inner. Equal keys from
      repeated identifiers fall together, as dictionary keys do. Its keys are
      exactly StaffID x JobID x {0..6}. */
  function AssignmentVars(staff: seq<Staff>, jobs: seq<Job>): (vars: map<Slot, Var>)
    ensures vars.Keys == SlotProduct(staff, jobs)
    ensures forall k | k in vars :: vars[k] == Assign(k)
  {
    var keys := AssignmentKeys(staff, jobs);
    AssignmentKeysCoverProduct(staff, jobs);
    map k | k in keys :: Assign(k)
  }

  /** The keys of the `assignments` dictionary in generation order. */
  function AssignmentKeys(staff: seq<Staff>, jobs: seq<Job>): (keys: seq<Slot>)
    ensures |keys| == |StaffCells(|staff|, |jobs|)|
  {
    SlotsOf(staff, jobs, StaffCells(|staff|, |jobs|))
  }

  /** The keys StaffID x JobID x {0..6} of the tables. */
  function SlotProduct(staff: seq<Staff>, jobs: seq<Job>): (keys: set<Slot>)
  {
    set s, j, d | s in staff && j in jobs && 0 <= d < DayCount :: Slot(s.id, j.id, d)
  }

  lemma AssignmentKeyInProduct(staff: seq<Staff>, jobs: seq<Job>, key: Slot)
    requires key in AssignmentKeys(staff, jobs)
    ensures key in SlotProduct(staff, jobs)
  {
    var cells := StaffCells(|staff|, |jobs|);
    var slots := AssignmentKeys(staff, jobs);
    var p :| 0 <= p < |slots| && slots[p] == key;
    var c := cells[p];
    assert key == Slot(staff[c.staff].id, jobs[c.job].id, c.day);
    assert staff[c.staff] in staff && jobs[c.job] in jobs;
  }

  lemma ProductKeyIsAssignment(staff: seq<Staff>, jobs: seq<Job>, key: Slot)
    requires key in SlotProduct(staff, jobs)
    ensures key in AssignmentKeys(staff, jobs)
  {
    var cells := StaffCells(|staff|, |jobs|);
    var slots := AssignmentKeys(staff, jobs);
    var s, j, d :| s in staff && j in jobs && 0 <= d < DayCount && key == Slot(s.id, j.id, d);
    var i :| 0 <= i < |staff| && staff[i] == s;
    var k :| 0 <= k < |jobs| && jobs[k] == j;
    StaffCellsComplete(|staff|, |jobs|, Cell(i, k, d));
    var p :| 0 <= p < |cells| && cells[p] == Cell(i, k, d);
    assert slots[p] == key;
  }

  /** The generated assignment keys cover StaffID x JobID x {0..6} and nothing else. */
  lemma AssignmentKeysCoverProduct(staff: seq<Staff>, jobs: seq<Job>)
    ensures (set k | k in AssignmentKeys(staff, jobs)) == SlotProduct(staff, jobs)
  {
    forall key | key in AssignmentKeys(staff, jobs) ensures key in SlotProduct(staff, jobs) {
      AssignmentKeyInProduct(staff, jobs, key);
    }
    forall key | key in SlotProduct(staff, jobs) ensures key in AssignmentKeys(staff, jobs) {
      ProductKeyIsAssignment(staff, jobs, key);
    }
  }

  /** The `working_days` dictionary: one variable per key (StaffID, day),
      keys generated staff-outer, day-inner. Its keys are exactly
      StaffID x {0..6}. */
  function WorkingDayVars(staff: seq<Staff>): (vars: map<StaffDay, Var>)
    ensures vars.Keys == StaffDayProduct(staff)
    ensures forall k | k in vars :: vars[k] == Work(k)
  {
    var keys := WorkingDayKeys(staff);
    WorkingDayKeysCoverProduct(staff);
    map k | k in keys :: Work(k)
  }

  /** The keys of the `working_days` dictionary in generation order: position
      p holds staff row p / 7 and day p % 7. */
  function WorkingDayKeys(staff: seq<Staff>): (keys: seq<StaffDay>)
    ensures |keys| == |staff| * DayCount
  {
    seq(|staff| * DayCount, p requires 0 <= p < |staff| * DayCount => StaffDay(staff[p / DayCount].id, p % DayCount))
  }

  /** The keys StaffID x {0..6} of the staff table. */
  function StaffDayProduct(staff: seq<Staff>): (keys: set<StaffDay>)
  {
    set s, d | s in staff && 0 <= d < DayCount :: StaffDay(s.id, d)
  }

  /** The generated working-day keys cover StaffID x {0..6} and nothing else. */
  lemma WorkingDayKeysCoverProduct(staff: seq<Staff>)
    ensures (set k | k in WorkingDayKeys(staff)) == StaffDayProduct(staff)
  {
    var keys := WorkingDayKeys(staff);
    forall key | key in keys ensures key in StaffDayProduct(staff) {
      var p :| 0 <= p < |keys| && keys[p] == key;
      assert staff[p / DayCount] in staff;
    }
    forall key | key in StaffDayProduct(staff) ensures key in keys {
      var s, d :| s in staff && 0 <= d < DayCount && key == StaffDay(s.id, d);
      var i :| 0 <= i < |staff| && staff[i] == s;
      var p := i * DayCount + d;
      assert p / DayCount == i && p % DayCount == d;
      assert keys[p] == key;
    }
  }

  /** The keys of a sequence of grid cells, in the same order. */
  function SlotsOf(staff: seq<Staff>, jobs: seq<Job>, cells: seq<Cell>): (slots: seq<Slot>)
    requires forall c | c in cells :: InTables(staff, jobs, c)
    ensures |slots| == |cells|
    ensures forall p | 0 <= p < |cells| :: slots[p] == SlotOf(staff, jobs, cells[p])
  {
    seq(|cells|, p requires 0 <= p < |cells| => SlotOf(staff, jobs, cells[p]))
  }

  /** A sequence without repetitions has as many distinct elements as it is long. */
  lemma {:induction false} DistinctSeqCard<T>(s: seq<T>)
    requires forall p, q | 0 <= p < q < |s| :: s[p] != s[q]
    ensures |set x | x in s| == |s|
  {
    if |s| > 0 {
      var init := s[..|s| - 1];
      DistinctSeqCard(init);
      assert (set x | x in s) == (set x | x in init) + {s[|s| - 1]};
      assert s[|s| - 1] !in (set x | x in init);
    }
  }

  /** With unique StaffIDs and JobIDs, different cells of the grid have different keys. */
  lemma AssignmentKeysDistinct(staff: seq<Staff>, jobs: seq<Job>)
    requires Distinct(StaffIds(staff)) && Distinct(JobIds(jobs))
    ensures forall p, q | 0 <= p < q < |AssignmentKeys(staff, jobs)| ::
      AssignmentKeys(staff, jobs)[p] != AssignmentKeys(staff, jobs)[q]
  {
    var cells := StaffCells(|staff|, |jobs|);
    var slots := AssignmentKeys(staff, jobs);
    StaffCellsAscending(|staff|, |jobs|);
    forall p, q | 0 <= p < q < |slots| ensures slots[p] != slots[q] {
      var a, b := cells[p], cells[q];
      assert Before(a, b);
      assert slots[p] == SlotOf(staff, jobs, a) && slots[q] == SlotOf(staff, jobs, b);
      if a.staff != b.staff {
        assert StaffIds(staff)[a.staff] != StaffIds(staff)[b.staff];
      } else if a.job != b.job {
        assert JobIds(jobs)[a.job] != JobIds(jobs)[b.job];
      }
    }
  }

  /** With unique StaffIDs and JobIDs no keys fall together: the dictionary
      holds |staff| * |jobs| * 7 assignment variables. */
  lemma AssignmentVarCount(staff: seq<Staff>, jobs: seq<Job>)
    requires Distinct(StaffIds(staff)) && Distinct(JobIds(jobs))
    ensures |AssignmentVars(staff, jobs)| == |staff| * |jobs| * DayCount
  {
    var slots := AssignmentKeys(staff, jobs);
    StaffCellsLength(|staff|, |jobs|);
    AssignmentKeysDistinct(staff, jobs);
    DistinctSeqCard(slots);
    assert AssignmentVars(staff, jobs).Keys == set x | x in slots;
  }

  /** With unique StaffIDs different positions of the working-day walk have different keys. */
  lemma WorkingDayKeysDistinct(staff: seq<Staff>)
    requires Distinct(StaffIds(staff))
    ensures forall p, q | 0 <= p < q < |WorkingDayKeys(staff)| :: WorkingDayKeys(staff)[p] != WorkingDayKeys(staff)[q]
  {
    var keys := WorkingDayKeys(staff);
    forall p, q | 0 <= p < q < |keys| ensures keys[p] != keys[q] {
      var i, j := p / DayCount, q / DayCount;
      if i != j {
        assert StaffIds(staff)[i] != StaffIds(staff)[j];
      } else {
        assert p == i * DayCount + p % DayCount && q == j * DayCount + q % DayCount;
      }
    }
  }

  /** With unique StaffIDs no keys fall together: the dictionary holds
      |staff| * 7 working-day variables. */
  lemma WorkingDayVarCount(staff: seq<Staff>)
    requires Distinct(StaffIds(staff))
    ensures |WorkingDayVars(staff)| == |staff| * DayCount
  {
    var keys := WorkingDayKeys(staff);
    WorkingDayKeysDistinct(staff);
    DistinctSeqCard(keys);
    assert WorkingDayVars(staff).Keys == set x | x in keys;
  }
}
