/** Every variable the program looks up is one it declared (main.py,
    create_roster): the objective, each constraint and the roster loop read
    `assignments[...]` and `working_days[...]` only at keys those
    dictionaries hold, so no lookup misses. */
module Lookups {
  import opened Entities
  import opened Grid
  import opened Variables
  import opened Constraints

  /** A variable whose identifiers come from the tables' ID columns and
      whose day is a day of the week: the variables the two dictionaries
      declare (KeyOfDeclared). */
  predicate Declared(staff: seq<Staff>, jobs: seq<Job>, v: Var)
  {
    match v
    case Assign(slot) => slot.staffId in StaffIds(staff) && slot.jobId in JobIds(jobs) && slot.day < DayCount
    case Work(sd) => sd.staffId in StaffIds(staff) && sd.day < DayCount
  }

  /** Every term of an expression names a declared variable. */
  predicate TermsDeclared(staff: seq<Staff>, jobs: seq<Job>, terms: seq<Term>)
  {
    forall t | t in terms :: Declared(staff, jobs, t.v)
  }

  /** Every term of every constraint names a declared variable. */
  predicate ConstraintsDeclared(staff: seq<Staff>, jobs: seq<Job>, cs: seq<Constraint>)
  {
    forall c | c in cs :: TermsDeclared(staff, jobs, c.terms)
  }

  /** A declared variable is a key of its dictionary, and every key of either
      dictionary is declared. */
  lemma KeyOfDeclared(staff: seq<Staff>, jobs: seq<Job>, v: Var)
    ensures Declared(staff, jobs, v) <==>
      match v
      case Assign(slot) => slot in AssignmentVars(staff, jobs)
      case Work(sd) => sd in WorkingDayVars(staff)
  {
    match v
    case Assign(slot) =>
      if Declared(staff, jobs, v) {
        var i :| 0 <= i < |staff| && StaffIds(staff)[i] == slot.staffId;
        var k :| 0 <= k < |jobs| && JobIds(jobs)[k] == slot.jobId;
        assert staff[i] in staff && jobs[k] in jobs;
        assert slot == Slot(staff[i].id, jobs[k].id, slot.day);
      }
      if slot in AssignmentVars(staff, jobs) {
        var s, j, d :| s in staff && j in jobs && 0 <= d < DayCount && slot == Slot(s.id, j.id, d);
        var i :| 0 <= i < |staff| && staff[i] == s;
        var k :| 0 <= k < |jobs| && jobs[k] == j;
        assert StaffIds(staff)[i] == s.id && JobIds(jobs)[k] == j.id;
      }
    case Work(sd) =>
      if Declared(staff, jobs, v) {
        var i :| 0 <= i < |staff| && StaffIds(staff)[i] == sd.staffId;
        assert staff[i] in staff;
        assert sd == StaffDay(staff[i].id, sd.day);
      }
      if sd in WorkingDayVars(staff) {
        var s, d :| s in staff && 0 <= d < DayCount && sd == StaffDay(s.id, d);
        var i :| 0 <= i < |staff| && staff[i] == s;
        assert StaffIds(staff)[i] == s.id;
      }
  }

  /** The key of staff row i, job row k and a day of the week is declared. */
  lemma SlotDeclared(staff: seq<Staff>, jobs: seq<Job>, i: nat, k: nat, d: nat)
    requires i < |staff| && k < |jobs| && d < DayCount
    ensures Declared(staff, jobs, Assign(Slot(staff[i].id, jobs[k].id, d)))
  {
    assert StaffIds(staff)[i] == staff[i].id && JobIds(jobs)[k] == jobs[k].id;
  }

  /** The key of staff row i and a day of the week is declared. */
  lemma StaffDayDeclared(staff: seq<Staff>, jobs: seq<Job>, i: nat, d: nat)
    requires i < |staff| && d < DayCount
    ensures Declared(staff, jobs, Work(StaffDay(staff[i].id, d)))
  {
    assert StaffIds(staff)[i] == staff[i].id;
  }

  // ---------------------------------------------------------------------
  // Expressions

  lemma {:induction false} DayTermsDeclared(staff: seq<Staff>, jobs: seq<Job>, i: nat, k: nat, n: nat)
    requires i < |staff| && k < |jobs| && n <= DayCount
    ensures TermsDeclared(staff, jobs, DayTerms(staff[i].id, jobs[k].id, n))
  {
    if n > 0 {
      DayTermsDeclared(staff, jobs, i, k, n - 1);
      SlotDeclared(staff, jobs, i, k, n - 1);
    }
  }

  lemma {:induction false} JobTermsDeclared(staff: seq<Staff>, jobs: seq<Job>, i: nat, m: nat, d: nat)
    requires i < |staff| && m <= |jobs| && d < DayCount
    ensures TermsDeclared(staff, jobs, JobTerms(staff[i].id, jobs, m, d))
  {
    if m > 0 {
      JobTermsDeclared(staff, jobs, i, m - 1, d);
      SlotDeclared(staff, jobs, i, m - 1, d);
    }
  }

  lemma {:induction false} LoadTermsDeclared(staff: seq<Staff>, jobs: seq<Job>, i: nat, m: nat, d: nat)
    requires i < |staff| && m <= |jobs| && d < DayCount
    ensures TermsDeclared(staff, jobs, LoadTerms(staff, jobs, i, m, d))
  {
    if m > 0 {
      LoadTermsDeclared(staff, jobs, i, m - 1, d);
      SlotDeclared(staff, jobs, i, m - 1, d);
    }
  }

  lemma {:induction false} WorkTermsDeclared(staff: seq<Staff>, jobs: seq<Job>, i: nat, n: nat)
    requires i < |staff| && n <= DayCount
    ensures TermsDeclared(staff, jobs, WorkTerms(staff[i].id, n))
  {
    if n > 0 {
      WorkTermsDeclared(staff, jobs, i, n - 1);
      StaffDayDeclared(staff, jobs, i, n - 1);
    }
  }

  // ---------------------------------------------------------------------
  // The objective

  /** Every term of an expression names a declared assignment variable. */
  predicate AssignsDeclared(staff: seq<Staff>, jobs: seq<Job>, terms: seq<Term>)
  {
    forall t | t in terms :: t.v.Assign? && Declared(staff, jobs, t.v)
  }

  lemma {:induction false} DayTermsAssignDeclared(staff: seq<Staff>, jobs: seq<Job>, i: nat, k: nat, n: nat)
    requires i < |staff| && k < |jobs| && n <= DayCount
    ensures AssignsDeclared(staff, jobs, DayTerms(staff[i].id, jobs[k].id, n))
  {
    if n > 0 {
      DayTermsAssignDeclared(staff, jobs, i, k, n - 1);
      SlotDeclared(staff, jobs, i, k, n - 1);
    }
  }

  lemma AssignsDeclaredConcat(staff: seq<Staff>, jobs: seq<Job>, a: seq<Term>, b: seq<Term>)
    requires AssignsDeclared(staff, jobs, a) && AssignsDeclared(staff, jobs, b)
    ensures AssignsDeclared(staff, jobs, a + b)
  {
  }

  /** One job row more: the step of ObjectiveRowDeclared. */
  lemma ObjectiveRowDeclaredStep(staff: seq<Staff>, jobs: seq<Job>, i: nat, k: nat)
    requires i < |staff| && k < |jobs|
    requires AssignsDeclared(staff, jobs, ObjectiveRow(staff[i].id, jobs, k))
    ensures AssignsDeclared(staff, jobs, ObjectiveRow(staff[i].id, jobs, k + 1))
  {
    DayTermsAssignDeclared(staff, jobs, i, k, DayCount);
    AssignsDeclaredConcat(staff, jobs, ObjectiveRow(staff[i].id, jobs, k), DayTerms(staff[i].id, jobs[k].id, DayCount));
  }

  lemma {:induction false} ObjectiveRowDeclared(staff: seq<Staff>, jobs: seq<Job>, i: nat, m: nat)
    requires i < |staff| && m <= |jobs|
    ensures AssignsDeclared(staff, jobs, ObjectiveRow(staff[i].id, jobs, m))
  {
    if m > 0 {
      var k := m - 1;
      ObjectiveRowDeclared(staff, jobs, i, k);
      ObjectiveRowDeclaredStep(staff, jobs, i, k);
      assert k + 1 == m;
    }
  }

  /** One staff row more: the step of ObjectiveUpToDeclared. */
  lemma ObjectiveUpToDeclaredStep(staff: seq<Staff>, jobs: seq<Job>, k: nat)
    requires k < |staff|
    requires AssignsDeclared(staff, jobs, ObjectiveUpTo(staff, jobs, k))
    ensures AssignsDeclared(staff, jobs, ObjectiveUpTo(staff, jobs, k + 1))
  {
    ObjectiveRowDeclared(staff, jobs, k, |jobs|);
    AssignsDeclaredConcat(staff, jobs, ObjectiveUpTo(staff, jobs, k), ObjectiveRow(staff[k].id, jobs, |jobs|));
  }

  lemma {:induction false} ObjectiveUpToDeclared(staff: seq<Staff>, jobs: seq<Job>, n: nat)
    requires n <= |staff|
    ensures AssignsDeclared(staff, jobs, ObjectiveUpTo(staff, jobs, n))
  {
    if n > 0 {
      var k := n - 1;
      ObjectiveUpToDeclared(staff, jobs, k);
      ObjectiveUpToDeclaredStep(staff, jobs, k);
      assert k + 1 == n;
    }
  }

  /** The objective sums declared assignment variables only. */
  lemma ObjectiveVarsDeclared(staff: seq<Staff>, jobs: seq<Job>)
    ensures forall t | t in Objective(staff, jobs) :: t.v.Assign? && t.v.slot in AssignmentVars(staff, jobs)
  {
    ObjectiveUpToDeclared(staff, jobs, |staff|);
    forall t | t in Objective(staff, jobs) ensures t.v.slot in AssignmentVars(staff, jobs) {
      KeyOfDeclared(staff, jobs, t.v);
    }
  }

  // ---------------------------------------------------------------------
  // The constraints

  lemma ConstraintsDeclaredConcat(staff: seq<Staff>, jobs: seq<Job>, a: seq<Constraint>, b: seq<Constraint>)
    requires ConstraintsDeclared(staff, jobs, a) && ConstraintsDeclared(staff, jobs, b)
    ensures ConstraintsDeclared(staff, jobs, a + b)
  {
  }

  lemma {:induction false} ToolRowDeclared(staff: seq<Staff>, jobs: seq<Job>, k: nat, m: nat)
    requires k < |jobs| && m <= |staff|
    ensures ConstraintsDeclared(staff, jobs, ToolRow(staff, jobs[k], m))
  {
    if m > 0 {
      ToolRowDeclared(staff, jobs, k, m - 1);
      DayTermsDeclared(staff, jobs, m - 1, k, DayCount);
    }
  }

  /** One job row more: the step of ToolConstraintsDeclared. */
  lemma ToolConstraintsDeclaredStep(staff: seq<Staff>, jobs: seq<Job>, k: nat)
    requires k < |jobs|
    requires ConstraintsDeclared(staff, jobs, ToolConstraints(staff, jobs, k))
    ensures ConstraintsDeclared(staff, jobs, ToolConstraints(staff, jobs, k + 1))
  {
    ToolRowDeclared(staff, jobs, k, |staff|);
    assert ToolConstraints(staff, jobs, k + 1) == ToolConstraints(staff, jobs, k) + ToolRow(staff, jobs[k], |staff|);
    ConstraintsDeclaredConcat(staff, jobs, ToolConstraints(staff, jobs, k), ToolRow(staff, jobs[k], |staff|));
  }

  lemma {:induction false} ToolConstraintsDeclared(staff: seq<Staff>, jobs: seq<Job>, n: nat)
    requires n <= |jobs|
    ensures ConstraintsDeclared(staff, jobs, ToolConstraints(staff, jobs, n))
  {
    if n > 0 {
      var k := n - 1;
      ToolConstraintsDeclared(staff, jobs, k);
      ToolConstraintsDeclaredStep(staff, jobs, k);
      assert k + 1 == n;
    }
  }

  lemma {:induction false} LinkRowDeclared(staff: seq<Staff>, jobs: seq<Job>, i: nat, n: nat)
    requires i < |staff| && n <= DayCount
    ensures ConstraintsDeclared(staff, jobs, LinkRow(staff[i].id, jobs, n))
  {
    if n > 0 {
      LinkRowDeclared(staff, jobs, i, n - 1);
      JobTermsDeclared(staff, jobs, i, |jobs|, n - 1);
      StaffDayDeclared(staff, jobs, i, n - 1);
    }
  }

  /** One staff row more: the step of LinkConstraintsDeclared. */
  lemma LinkConstraintsDeclaredStep(staff: seq<Staff>, jobs: seq<Job>, k: nat)
    requires k < |staff|
    requires ConstraintsDeclared(staff, jobs, LinkConstraints(staff, jobs, k))
    ensures ConstraintsDeclared(staff, jobs, LinkConstraints(staff, jobs, k + 1))
  {
    LinkRowDeclared(staff, jobs, k, DayCount);
    assert LinkConstraints(staff, jobs, k + 1) == LinkConstraints(staff, jobs, k) + LinkRow(staff[k].id, jobs, DayCount);
    ConstraintsDeclaredConcat(staff, jobs, LinkConstraints(staff, jobs, k), LinkRow(staff[k].id, jobs, DayCount));
  }

  lemma {:induction false} LinkConstraintsDeclared(staff: seq<Staff>, jobs: seq<Job>, n: nat)
    requires n <= |staff|
    ensures ConstraintsDeclared(staff, jobs, LinkConstraints(staff, jobs, n))
  {
    if n > 0 {
      var k := n - 1;
      LinkConstraintsDeclared(staff, jobs, k);
      LinkConstraintsDeclaredStep(staff, jobs, k);
      assert k + 1 == n;
    }
  }

  lemma {:induction false} CapRowDeclared(staff: seq<Staff>, jobs: seq<Job>, i: nat, n: nat)
    requires i < |staff| && n <= DayCount
    ensures ConstraintsDeclared(staff, jobs, CapRow(staff, jobs, i, n))
  {
    if n > 0 {
      CapRowDeclared(staff, jobs, i, n - 1);
      LoadTermsDeclared(staff, jobs, i, |jobs|, n - 1);
    }
  }

  /** One staff row more: the step of CapConstraintsDeclared. */
  lemma CapConstraintsDeclaredStep(staff: seq<Staff>, jobs: seq<Job>, k: nat)
    requires k < |staff|
    requires ConstraintsDeclared(staff, jobs, CapConstraints(staff, jobs, k))
    ensures ConstraintsDeclared(staff, jobs, CapConstraints(staff, jobs, k + 1))
  {
    CapRowDeclared(staff, jobs, k, DayCount);
    assert CapConstraints(staff, jobs, k + 1) == CapConstraints(staff, jobs, k) + CapRow(staff, jobs, k, DayCount);
    ConstraintsDeclaredConcat(staff, jobs, CapConstraints(staff, jobs, k), CapRow(staff, jobs, k, DayCount));
  }

  lemma {:induction false} CapConstraintsDeclared(staff: seq<Staff>, jobs: seq<Job>, n: nat)
    requires n <= |staff|
    ensures ConstraintsDeclared(staff, jobs, CapConstraints(staff, jobs, n))
  {
    if n > 0 {
      var k := n - 1;
      CapConstraintsDeclared(staff, jobs, k);
      CapConstraintsDeclaredStep(staff, jobs, k);
      assert k + 1 == n;
    }
  }

  lemma {:induction false} WeekConstraintsDeclared(staff: seq<Staff>, jobs: seq<Job>, n: nat)
    requires n <= |staff|
    ensures ConstraintsDeclared(staff, jobs, WeekConstraints(staff, n))
  {
    if n > 0 {
      WeekConstraintsDeclared(staff, jobs, n - 1);
      WorkTermsDeclared(staff, jobs, n - 1, DayCount);
    }
  }

  /** Every variable any constraint of the model mentions is a key of the
      `assignments` or the `working_days` dictionary. */
  lemma ConstraintVarsDeclared(staff: seq<Staff>, jobs: seq<Job>)
    ensures forall c, t | c in AllConstraints(staff, jobs) && t in c.terms ::
      (t.v.Assign? && t.v.slot in AssignmentVars(staff, jobs)) || (t.v.Work? && t.v.staffDay in WorkingDayVars(staff))
  {
    ToolConstraintsDeclared(staff, jobs, |jobs|);
    LinkConstraintsDeclared(staff, jobs, |staff|);
    CapConstraintsDeclared(staff, jobs, |staff|);
    WeekConstraintsDeclared(staff, jobs, |staff|);
    var cs := AllConstraints(staff, jobs);
    forall c, t | c in cs && t in c.terms
      ensures (t.v.Assign? && t.v.slot in AssignmentVars(staff, jobs)) || (t.v.Work? && t.v.staffDay in WorkingDayVars(staff))
    {
      KeyOfDeclared(staff, jobs, t.v);
    }
  }

  // ---------------------------------------------------------------------
  // The roster loop

  /** Every key the roster loop reads, one per cell of its walk, is a key of
      the `assignments` dictionary. */
  lemma RosterLookupsDeclared(staff: seq<Staff>, jobs: seq<Job>)
    ensures forall c | c in StaffCells(|staff|, |jobs|) ::
      InTables(staff, jobs, c) && SlotOf(staff, jobs, c) in AssignmentVars(staff, jobs)
  {
    forall c | c in StaffCells(|staff|, |jobs|)
      ensures InTables(staff, jobs, c) && SlotOf(staff, jobs, c) in AssignmentVars(staff, jobs)
    {
      SlotDeclared(staff, jobs, c.staff, c.job, c.day);
      KeyOfDeclared(staff, jobs, Assign(SlotOf(staff, jobs, c)));
    }
  }
}
