/** The linear model the program hands to the solver (main.py, create_roster):
    its objective and its four families of constraints, written as data; the
    same rules stated directly on a candidate solution; and the proof that a
    solution satisfies the constraint list exactly when it obeys the rules. */
module Constraints {
  import opened Travel
  import opened Tools
  import opened Entities
  import opened Variables

  /** A coefficient times a variable. */
  datatype Term = Term(coef: real, v: Var)

  datatype Sense = AtMost | Exactly

  /** sum(terms) <= bound, or sum(terms) == bound. */
  datatype Constraint = Constraint(terms: seq<Term>, sense: Sense, bound: real)

  /** c * x, written as repeated addition so that the products in the model
      stay out of the solver's arithmetic except where a proof asks for them
      (ScaleIsProduct). */
  function Scale(c: real, x: int): (v: real)
    decreases if x < 0 then -x else x
  {
    if x == 0 then 0.0 else if x > 0 then Scale(c, x - 1) + c else Scale(c, x + 1) - c
  }

  lemma {:induction false} ScaleIsProduct(c: real, x: int)
    ensures Scale(c, x) == c * (x as real)
    decreases if x < 0 then -x else x
  {
    if x > 0 {
      ScaleIsProduct(c, x - 1);
    } else if x < 0 {
      ScaleIsProduct(c, x + 1);
    }
  }

  lemma ScaleOne(x: int)
    ensures Scale(1.0, x) == x as real
  {
    ScaleIsProduct(1.0, x);
  }

  /** The value of a linear expression under a solution. */
  function Eval(sol: Solution, terms: seq<Term>): (v: real)
    decreases |terms|
  {
    if terms == [] then 0.0
    else Eval(sol, terms[..|terms| - 1]) + Scale(terms[|terms| - 1].coef, ValueOf(sol, terms[|terms| - 1].v))
  }

  predicate Holds(sol: Solution, c: Constraint)
  {
    match c.sense
    case AtMost => Eval(sol, c.terms) <= c.bound
    case Exactly => Eval(sol, c.terms) == c.bound
  }

  predicate SatisfiesAll(sol: Solution, cs: seq<Constraint>)
  {
    forall i | 0 <= i < |cs| :: Holds(sol, cs[i])
  }

  lemma EvalSnoc(sol: Solution, a: seq<Term>, t: Term)
    ensures Eval(sol, a + [t]) == Eval(sol, a) + Scale(t.coef, ValueOf(sol, t.v))
  {
    assert (a + [t])[..|a|] == a;
  }

  lemma {:induction false} EvalConcat(sol: Solution, a: seq<Term>, b: seq<Term>)
    ensures Eval(sol, a + b) == Eval(sol, a) + Eval(sol, b)
    decreases |b|
  {
    if b == [] {
      assert a + b == a;
    } else {
      var init, t := b[..|b| - 1], b[|b| - 1];
      assert b == init + [t];
      assert a + b == (a + init) + [t];
      EvalConcat(sol, a, init);
      EvalSnoc(sol, a + init, t);
      EvalSnoc(sol, init, t);
    }
  }

  lemma SatisfiesAllConcat(sol: Solution, a: seq<Constraint>, b: seq<Constraint>)
    ensures SatisfiesAll(sol, a + b) <==> SatisfiesAll(sol, a) && SatisfiesAll(sol, b)
  {
    if SatisfiesAll(sol, a) && SatisfiesAll(sol, b) {
      forall i | 0 <= i < |a + b| ensures Holds(sol, (a + b)[i]) {
        if i < |a| { assert (a + b)[i] == a[i]; } else { assert (a + b)[i] == b[i - |a|]; }
      }
    }
    if SatisfiesAll(sol, a + b) {
      forall i | 0 <= i < |a| ensures Holds(sol, a[i]) { assert (a + b)[i] == a[i]; }
      forall i | 0 <= i < |b| ensures Holds(sol, b[i]) { assert (a + b)[|a| + i] == b[i]; }
    }
  }

  lemma SatisfiesAllSnoc(sol: Solution, a: seq<Constraint>, c: Constraint)
    ensures SatisfiesAll(sol, a + [c]) <==> SatisfiesAll(sol, a) && Holds(sol, c)
  {
    SatisfiesAllConcat(sol, a, [c]);
    assert [c][0] == c;
  }

  // ---------------------------------------------------------------------
  // Linear expressions used by the constraints

  /** assign(sid, jid, 0) + ... + assign(sid, jid, n-1). */
  function DayTerms(sid: string, jid: string, n: nat): (terms: seq<Term>)
    ensures |terms| == n
  {
    if n == 0 then [] else DayTerms(sid, jid, n - 1) + [Term(1.0, Assign(Slot(sid, jid, n - 1)))]
  }

  /** assign(sid, jobs[0].id, d) + ... + assign(sid, jobs[m-1].id, d). */
  function JobTerms(sid: string, jobs: seq<Job>, m: nat, d: nat): (terms: seq<Term>)
    requires m <= |jobs|
    ensures |terms| == m
  {
    if m == 0 then [] else JobTerms(sid, jobs, m - 1, d) + [Term(1.0, Assign(Slot(sid, jobs[m - 1].id, d)))]
  }

  /** Hours that doing job row k costs staff row i: the job's length plus the
      travel from the staff member's location to the job's, both read from the
      first row with the same identifier. */
  function Cost(staff: seq<Staff>, jobs: seq<Job>, i: nat, k: nat): (v: real)
    requires i < |staff| && k < |jobs|
    ensures v - JobRow(jobs, k).length in {0.0, 0.5, 1.0, 2.0}
    ensures Distinct(StaffIds(staff)) && Distinct(JobIds(jobs)) ==>
      v == jobs[k].length + TravelTime(staff[i].location, jobs[k].location)
  {
    JobRow(jobs, k).length + TravelTime(StaffRow(staff, i).location, JobRow(jobs, k).location)
  }

  /** Sum over job rows k < m of Cost(i, k) * assign(staff[i].id, jobs[k].id, d). */
  function LoadTerms(staff: seq<Staff>, jobs: seq<Job>, i: nat, m: nat, d: nat): (terms: seq<Term>)
    requires i < |staff| && m <= |jobs|
    ensures |terms| == m
  {
    if m == 0 then []
    else LoadTerms(staff, jobs, i, m - 1, d) + [Term(Cost(staff, jobs, i, m - 1), Assign(Slot(staff[i].id, jobs[m - 1].id, d)))]
  }

  /** work(sid, 0) + ... + work(sid, n-1). */
  function WorkTerms(sid: string, n: nat): (terms: seq<Term>)
    ensures |terms| == n
  {
    if n == 0 then [] else WorkTerms(sid, n - 1) + [Term(1.0, Work(StaffDay(sid, n - 1)))]
  }

  // ---------------------------------------------------------------------
  // The constraint list, in the order the program adds it

  /** A staff member without the tools never does the job: the sum of the
      seven day variables is 0. */
  function ToolConstraint(s: Staff, j: Job): (c: Constraint)
  {
    Constraint(DayTerms(s.id, j.id, DayCount), Exactly, 0.0)
  }

  /** n copies of one constraint. */
  function Repeat(c: Constraint, n: nat): (cs: seq<Constraint>)
    ensures |cs| == n && forall i | 0 <= i < n :: cs[i] == c
  {
    seq(n, _ => c)
  }

  /** The constraints one (job, staff) pair contributes: none when the staff
      member is qualified, otherwise the tool constraint once for each of the
      seven days of the inner loop. */
  function ToolCell(s: Staff, j: Job): (cs: seq<Constraint>)
    ensures Qualified(s, j) <==> cs == []
    ensures !Qualified(s, j) ==> |cs| == DayCount
  {
    if Qualified(s, j) then [] else Repeat(ToolConstraint(s, j), DayCount)
  }

  /** Staff rows 0 .. m-1 for job j. */
  function ToolRow(staff: seq<Staff>, j: Job, m: nat): (cs: seq<Constraint>)
    requires m <= |staff|
  {
    if m == 0 then [] else ToolRow(staff, j, m - 1) + ToolCell(staff[m - 1], j)
  }

  /** Job rows 0 .. n-1 (outer loop), each over all staff rows. */
  function ToolConstraints(staff: seq<Staff>, jobs: seq<Job>, n: nat): (cs: seq<Constraint>)
    requires n <= |jobs|
  {
    if n == 0 then [] else ToolConstraints(staff, jobs, n - 1) + ToolRow(staff, jobs[n - 1], |staff|)
  }

  /** Jobs assigned to sid on day d number at most |jobs| * work(sid, d),
      moved to one side: sum - |jobs| * work <= 0. */
  function LinkConstraint(sid: string, jobs: seq<Job>, d: nat): (c: Constraint)
    ensures c.sense == AtMost && c.bound == 0.0
    ensures |c.terms| == |jobs| + 1 && c.terms[|jobs|] == Term(-(|jobs| as real), Work(StaffDay(sid, d)))
  {
    Constraint(JobTerms(sid, jobs, |jobs|, d) + [Term(-(|jobs| as real), Work(StaffDay(sid, d)))], AtMost, 0.0)
  }

  function LinkRow(sid: string, jobs: seq<Job>, n: nat): (cs: seq<Constraint>)
    ensures |cs| == n
  {
    if n == 0 then [] else LinkRow(sid, jobs, n - 1) + [LinkConstraint(sid, jobs, n - 1)]
  }

  function LinkConstraints(staff: seq<Staff>, jobs: seq<Job>, n: nat): (cs: seq<Constraint>)
    requires n <= |staff|
    ensures |cs| == n * DayCount
  {
    if n == 0 then [] else LinkConstraints(staff, jobs, n - 1) + LinkRow(staff[n - 1].id, jobs, DayCount)
  }

  /** Job hours plus travel for staff row i on day d stay within nine hours. */
  function CapConstraint(staff: seq<Staff>, jobs: seq<Job>, i: nat, d: nat): (c: Constraint)
    requires i < |staff|
    ensures c.sense == AtMost && c.bound == MaxHoursPerDay
    ensures |c.terms| == |jobs|
  {
    Constraint(LoadTerms(staff, jobs, i, |jobs|, d), AtMost, MaxHoursPerDay)
  }

  function CapRow(staff: seq<Staff>, jobs: seq<Job>, i: nat, n: nat): (cs: seq<Constraint>)
    requires i < |staff|
    ensures |cs| == n
  {
    if n == 0 then [] else CapRow(staff, jobs, i, n - 1) + [CapConstraint(staff, jobs, i, n - 1)]
  }

  function CapConstraints(staff: seq<Staff>, jobs: seq<Job>, n: nat): (cs: seq<Constraint>)
    requires n <= |staff|
    ensures |cs| == n * DayCount
  {
    if n == 0 then [] else CapConstraints(staff, jobs, n - 1) + CapRow(staff, jobs, n - 1, DayCount)
  }

  /** At most five working days in the week. */
  function WeekConstraint(sid: string): (c: Constraint)
    ensures c.sense == AtMost && c.bound == 5.0 && |c.terms| == DayCount
  {
    Constraint(WorkTerms(sid, DayCount), AtMost, MaxDaysPerWeek as real)
  }

  function WeekConstraints(staff: seq<Staff>, n: nat): (cs: seq<Constraint>)
    requires n <= |staff|
    ensures |cs| == n
  {
    if n == 0 then [] else WeekConstraints(staff, n - 1) + [WeekConstraint(staff[n - 1].id)]
  }

  /** Every constraint of the model, in the order the program adds them:
      the tool constraints, then per staff member seven link constraints,
      seven daily-hours constraints and one working-week constraint. */
  function AllConstraints(staff: seq<Staff>, jobs: seq<Job>): (cs: seq<Constraint>)
    ensures |cs| == |ToolConstraints(staff, jobs, |jobs|)| + |staff| * (2 * DayCount + 1)
  {
    assert |staff| * DayCount + |staff| * DayCount + |staff| == |staff| * (2 * DayCount + 1);
    ToolConstraints(staff, jobs, |jobs|)
    + LinkConstraints(staff, jobs, |staff|)
    + CapConstraints(staff, jobs, |staff|)
    + WeekConstraints(staff, |staff|)
  }

  /** Objective terms for job rows 0 .. m-1 of staff member sid. */
  function ObjectiveRow(sid: string, jobs: seq<Job>, m: nat): (terms: seq<Term>)
    requires m <= |jobs|
    ensures |terms| == m * DayCount
  {
    if m == 0 then [] else ObjectiveRow(sid, jobs, m - 1) + DayTerms(sid, jobs[m - 1].id, DayCount)
  }

  /** Objective terms for staff rows 0 .. n-1. */
  function ObjectiveUpTo(staff: seq<Staff>, jobs: seq<Job>, n: nat): (terms: seq<Term>)
    requires n <= |staff|
    ensures |terms| == n * |jobs| * DayCount
  {
    if n == 0 then []
    else
      assert (n - 1) * |jobs| * DayCount + |jobs| * DayCount == n * |jobs| * DayCount;
      ObjectiveUpTo(staff, jobs, n - 1) + ObjectiveRow(staff[n - 1].id, jobs, |jobs|)
  }

  /** The objective to maximise: one term per assignment variable, in the
      generation order of the dictionary. */
  function Objective(staff: seq<Staff>, jobs: seq<Job>): (terms: seq<Term>)
    ensures |terms| == |staff| * |jobs| * DayCount
  {
    ObjectiveUpTo(staff, jobs, |staff|)
  }

  // ---------------------------------------------------------------------
  // The rules stated directly on a solution

  /** Number of days among 0 .. n-1 on which sid is assigned job jid. */
  function DaySum(sol: Solution, sid: string, jid: string, n: nat): (total: int)
  {
    if n == 0 then 0 else DaySum(sol, sid, jid, n - 1) + ValueOf(sol, Assign(Slot(sid, jid, n - 1)))
  }

  /** Number of job rows among 0 .. m-1 assigned to sid on day d. */
  function JobSum(sol: Solution, sid: string, jobs: seq<Job>, m: nat, d: nat): (total: int)
    requires m <= |jobs|
  {
    if m == 0 then 0 else JobSum(sol, sid, jobs, m - 1, d) + ValueOf(sol, Assign(Slot(sid, jobs[m - 1].id, d)))
  }

  /** Hours of job rows 0 .. m-1 that staff row i does on day d, travel included. */
  function Load(sol: Solution, staff: seq<Staff>, jobs: seq<Job>, i: nat, m: nat, d: nat): (v: real)
    requires i < |staff| && m <= |jobs|
  {
    if m == 0 then 0.0
    else Load(sol, staff, jobs, i, m - 1, d) + Scale(Cost(staff, jobs, i, m - 1), ValueOf(sol, Assign(Slot(staff[i].id, jobs[m - 1].id, d))))
  }

  /** Number of working-day flags set among days 0 .. n-1. */
  function WorkedDays(sol: Solution, sid: string, n: nat): (total: int)
  {
    if n == 0 then 0 else WorkedDays(sol, sid, n - 1) + ValueOf(sol, Work(StaffDay(sid, n - 1)))
  }

  /** No staff row among the first m that lacks the tools for job j is
      assigned j on any day of the week. */
  predicate ToolRuleFor(sol: Solution, staff: seq<Staff>, j: Job, m: nat)
    requires m <= |staff|
  {
    forall i | 0 <= i < m && !Qualified(staff[i], j) :: DaySum(sol, staff[i].id, j.id, DayCount) == 0
  }

  /** The tool rule for job rows 0 .. n-1. */
  predicate ToolRuleBelow(sol: Solution, staff: seq<Staff>, jobs: seq<Job>, n: nat)
    requires n <= |jobs|
  {
    forall k | 0 <= k < n :: ToolRuleFor(sol, staff, jobs[k], |staff|)
  }

  predicate ToolRule(sol: Solution, staff: seq<Staff>, jobs: seq<Job>)
  {
    ToolRuleBelow(sol, staff, jobs, |jobs|)
  }

  /** On each of days 0 .. n-1, the jobs assigned to sid number at most
      |jobs| * work(sid, d): any job that day forces the working-day flag. */
  predicate LinkRuleFor(sol: Solution, sid: string, jobs: seq<Job>, n: nat)
  {
    forall d | 0 <= d < n ::
      JobSum(sol, sid, jobs, |jobs|, d) <= ValueOf(sol, Work(StaffDay(sid, d))) * |jobs|
  }

  predicate LinkRule(sol: Solution, staff: seq<Staff>, jobs: seq<Job>)
  {
    forall i | 0 <= i < |staff| :: LinkRuleFor(sol, staff[i].id, jobs, DayCount)
  }

  /** On each of days 0 .. n-1, staff row i does at most nine hours of work and travel. */
  predicate CapRuleFor(sol: Solution, staff: seq<Staff>, jobs: seq<Job>, i: nat, n: nat)
    requires i < |staff|
  {
    forall d | 0 <= d < n :: Load(sol, staff, jobs, i, |jobs|, d) <= MaxHoursPerDay
  }

  /** The daily-hours rule for staff rows 0 .. n-1. */
  predicate CapRuleBelow(sol: Solution, staff: seq<Staff>, jobs: seq<Job>, n: nat)
    requires n <= |staff|
  {
    forall i | 0 <= i < n :: CapRuleFor(sol, staff, jobs, i, DayCount)
  }

  predicate CapRule(sol: Solution, staff: seq<Staff>, jobs: seq<Job>)
  {
    CapRuleBelow(sol, staff, jobs, |staff|)
  }

  /** At most five working-day flags per staff member. */
  predicate WeekRule(sol: Solution, staff: seq<Staff>)
  {
    forall i | 0 <= i < |staff| :: WorkedDays(sol, staff[i].id, DayCount) as real <= MaxDaysPerWeek as real
  }

  /** The feasibility rules of the rostering model. */
  predicate Feasible(sol: Solution, staff: seq<Staff>, jobs: seq<Job>)
  {
    ToolRule(sol, staff, jobs) && LinkRule(sol, staff, jobs) && CapRule(sol, staff, jobs) && WeekRule(sol, staff)
  }

  // ---------------------------------------------------------------------
  // The constraint list means the rules

  lemma {:induction false} EvalDayTerms(sol: Solution, sid: string, jid: string, n: nat)
    ensures Eval(sol, DayTerms(sid, jid, n)) == DaySum(sol, sid, jid, n) as real
  {
    if n > 0 {
      EvalDayTerms(sol, sid, jid, n - 1);
      EvalSnoc(sol, DayTerms(sid, jid, n - 1), Term(1.0, Assign(Slot(sid, jid, n - 1))));
      ScaleOne(ValueOf(sol, Assign(Slot(sid, jid, n - 1))));
    }
  }

  lemma {:induction false} EvalJobTerms(sol: Solution, sid: string, jobs: seq<Job>, m: nat, d: nat)
    requires m <= |jobs|
    ensures Eval(sol, JobTerms(sid, jobs, m, d)) == JobSum(sol, sid, jobs, m, d) as real
  {
    if m > 0 {
      EvalJobTerms(sol, sid, jobs, m - 1, d);
      EvalSnoc(sol, JobTerms(sid, jobs, m - 1, d), Term(1.0, Assign(Slot(sid, jobs[m - 1].id, d))));
      ScaleOne(ValueOf(sol, Assign(Slot(sid, jobs[m - 1].id, d))));
    }
  }

  lemma {:induction false} EvalLoadTerms(sol: Solution, staff: seq<Staff>, jobs: seq<Job>, i: nat, m: nat, d: nat)
    requires i < |staff| && m <= |jobs|
    ensures Eval(sol, LoadTerms(staff, jobs, i, m, d)) == Load(sol, staff, jobs, i, m, d)
  {
    if m > 0 {
      EvalLoadTerms(sol, staff, jobs, i, m - 1, d);
      EvalSnoc(sol, LoadTerms(staff, jobs, i, m - 1, d),
               Term(Cost(staff, jobs, i, m - 1), Assign(Slot(staff[i].id, jobs[m - 1].id, d))));
    }
  }

  lemma {:induction false} EvalWorkTerms(sol: Solution, sid: string, n: nat)
    ensures Eval(sol, WorkTerms(sid, n)) == WorkedDays(sol, sid, n) as real
  {
    if n > 0 {
      EvalWorkTerms(sol, sid, n - 1);
      EvalSnoc(sol, WorkTerms(sid, n - 1), Term(1.0, Work(StaffDay(sid, n - 1))));
      ScaleOne(ValueOf(sol, Work(StaffDay(sid, n - 1))));
    }
  }

  // Each list is satisfied exactly when its last row and the rows before it are.

  lemma LinkRowSplit(sol: Solution, sid: string, jobs: seq<Job>, n: nat)
    requires 0 < n
    ensures SatisfiesAll(sol, LinkRow(sid, jobs, n)) <==>
      SatisfiesAll(sol, LinkRow(sid, jobs, n - 1)) && Holds(sol, LinkConstraint(sid, jobs, n - 1))
  {
    SatisfiesAllSnoc(sol, LinkRow(sid, jobs, n - 1), LinkConstraint(sid, jobs, n - 1));
  }

  lemma ToolCellMeaning(sol: Solution, s: Staff, j: Job)
    ensures SatisfiesAll(sol, ToolCell(s, j)) <==> (!Qualified(s, j) ==> DaySum(sol, s.id, j.id, DayCount) == 0)
  {
    EvalDayTerms(sol, s.id, j.id, DayCount);
    if !Qualified(s, j) {
      assert ToolCell(s, j)[0] == ToolConstraint(s, j);
    }
  }

  /** The rule for staff rows below k + 1 is the rule below k and the rule
      for row k. */
  lemma ToolRuleForSnoc(sol: Solution, staff: seq<Staff>, j: Job, k: nat)
    requires k < |staff|
    ensures ToolRuleFor(sol, staff, j, k + 1) <==>
      ToolRuleFor(sol, staff, j, k) && (!Qualified(staff[k], j) ==> DaySum(sol, staff[k].id, j.id, DayCount) == 0)
  {
  }

  /** One staff row more: the step of ToolRowMeaning. */
  lemma ToolRowStep(sol: Solution, staff: seq<Staff>, j: Job, k: nat)
    requires k < |staff|
    requires SatisfiesAll(sol, ToolRow(staff, j, k)) <==> ToolRuleFor(sol, staff, j, k)
    ensures SatisfiesAll(sol, ToolRow(staff, j, k + 1)) <==> ToolRuleFor(sol, staff, j, k + 1)
  {
    var before, cell := ToolRow(staff, j, k), ToolCell(staff[k], j);
    assert ToolRow(staff, j, k + 1) == before + cell;
    SatisfiesAllConcat(sol, before, cell);
    ToolCellMeaning(sol, staff[k], j);
    ToolRuleForSnoc(sol, staff, j, k);
    IffStep(SatisfiesAll(sol, before + cell), SatisfiesAll(sol, before), SatisfiesAll(sol, cell),
      ToolRuleFor(sol, staff, j, k + 1), ToolRuleFor(sol, staff, j, k),
      !Qualified(staff[k], j) ==> DaySum(sol, staff[k].id, j.id, DayCount) == 0);
  }

  lemma {:induction false} ToolRowMeaning(sol: Solution, staff: seq<Staff>, j: Job, m: nat)
    requires m <= |staff|
    ensures SatisfiesAll(sol, ToolRow(staff, j, m)) <==> ToolRuleFor(sol, staff, j, m)
  {
    if m > 0 {
      var k := m - 1;
      ToolRowMeaning(sol, staff, j, k);
      ToolRowStep(sol, staff, j, k);
      assert k + 1 == m;
    }
  }

  /** Chaining the equivalences of one induction step: the constraints of
      the first part and of the new row mean the rule below and the rule for
      the new row. */
  lemma IffStep(whole: bool, first: bool, next: bool, rule: bool, ruleFirst: bool, ruleNext: bool)
    requires whole <==> first && next
    requires first <==> ruleFirst
    requires next <==> ruleNext
    requires rule <==> ruleFirst && ruleNext
    ensures whole <==> rule
  {
  }

  /** The tool rule below k + 1 is the rule below k and the rule for row k. */
  lemma ToolRuleBelowSnoc(sol: Solution, staff: seq<Staff>, jobs: seq<Job>, k: nat)
    requires k < |jobs|
    ensures ToolRuleBelow(sol, staff, jobs, k + 1) <==>
      ToolRuleBelow(sol, staff, jobs, k) && ToolRuleFor(sol, staff, jobs[k], |staff|)
  {
  }

  /** One job row more: the step of ToolConstraintsMeaning. */
  lemma ToolConstraintsStep(sol: Solution, staff: seq<Staff>, jobs: seq<Job>, k: nat)
    requires k < |jobs|
    requires SatisfiesAll(sol, ToolConstraints(staff, jobs, k)) <==> ToolRuleBelow(sol, staff, jobs, k)
    ensures SatisfiesAll(sol, ToolConstraints(staff, jobs, k + 1)) <==> ToolRuleBelow(sol, staff, jobs, k + 1)
  {
    var before, row := ToolConstraints(staff, jobs, k), ToolRow(staff, jobs[k], |staff|);
    assert ToolConstraints(staff, jobs, k + 1) == before + row;
    SatisfiesAllConcat(sol, before, row);
    ToolRowMeaning(sol, staff, jobs[k], |staff|);
    ToolRuleBelowSnoc(sol, staff, jobs, k);
    IffStep(SatisfiesAll(sol, before + row), SatisfiesAll(sol, before), SatisfiesAll(sol, row),
      ToolRuleBelow(sol, staff, jobs, k + 1), ToolRuleBelow(sol, staff, jobs, k), ToolRuleFor(sol, staff, jobs[k], |staff|));
  }

  lemma {:induction false} ToolConstraintsMeaning(sol: Solution, staff: seq<Staff>, jobs: seq<Job>, n: nat)
    requires n <= |jobs|
    ensures SatisfiesAll(sol, ToolConstraints(staff, jobs, n)) <==> ToolRuleBelow(sol, staff, jobs, n)
  {
    if n > 0 {
      var k := n - 1;
      ToolConstraintsMeaning(sol, staff, jobs, k);
      ToolConstraintsStep(sol, staff, jobs, k);
      assert k + 1 == n;
    }
  }

  /** x + (-n) * v <= 0, the form the link constraint is stored in, is x <= v * n. */
  lemma LinkArith(x: int, n: int, v: int, e: real, h: bool)
    requires e == (x as real) + Scale(-(n as real), v)
    requires h <==> e <= 0.0
    ensures h <==> x <= v * n
  {
    ScaleIsProduct(-(n as real), v);
    assert (n as real) * (v as real) == (v * n) as real;
  }

  lemma LinkEval(sol: Solution, sid: string, jobs: seq<Job>, d: nat)
    ensures Eval(sol, LinkConstraint(sid, jobs, d).terms) ==
      (JobSum(sol, sid, jobs, |jobs|, d) as real) + Scale(-(|jobs| as real), ValueOf(sol, Work(StaffDay(sid, d))))
  {
    var a := JobTerms(sid, jobs, |jobs|, d);
    var w := Term(-(|jobs| as real), Work(StaffDay(sid, d)));
    assert LinkConstraint(sid, jobs, d).terms == a + [w];
    EvalJobTerms(sol, sid, jobs, |jobs|, d);
    EvalSnoc(sol, a, w);
  }

  lemma LinkConstraintMeaning(sol: Solution, sid: string, jobs: seq<Job>, d: nat)
    ensures Holds(sol, LinkConstraint(sid, jobs, d)) <==>
      JobSum(sol, sid, jobs, |jobs|, d) <= ValueOf(sol, Work(StaffDay(sid, d))) * |jobs|
  {
    var e := Eval(sol, LinkConstraint(sid, jobs, d).terms);
    LinkEval(sol, sid, jobs, d);
    LinkArith(JobSum(sol, sid, jobs, |jobs|, d), |jobs|, ValueOf(sol, Work(StaffDay(sid, d))), e, Holds(sol, LinkConstraint(sid, jobs, d)));
  }

  lemma {:induction false} LinkRowMeaning(sol: Solution, sid: string, jobs: seq<Job>, n: nat)
    ensures SatisfiesAll(sol, LinkRow(sid, jobs, n)) <==> LinkRuleFor(sol, sid, jobs, n)
  {
    if n > 0 {
      LinkRowMeaning(sol, sid, jobs, n - 1);
      LinkRowSplit(sol, sid, jobs, n);
      LinkConstraintMeaning(sol, sid, jobs, n - 1);
    }
  }

  /** One staff row more: the step of LinkConstraintsMeaning. */
  lemma LinkConstraintsStep(sol: Solution, staff: seq<Staff>, jobs: seq<Job>, n: nat)
    requires 0 < n <= |staff|
    requires SatisfiesAll(sol, LinkConstraints(staff, jobs, n - 1)) <==>
      forall i | 0 <= i < n - 1 :: LinkRuleFor(sol, staff[i].id, jobs, DayCount)
    ensures SatisfiesAll(sol, LinkConstraints(staff, jobs, n)) <==>
      forall i | 0 <= i < n :: LinkRuleFor(sol, staff[i].id, jobs, DayCount)
  {
    SatisfiesAllConcat(sol, LinkConstraints(staff, jobs, n - 1), LinkRow(staff[n - 1].id, jobs, DayCount));
    LinkRowMeaning(sol, staff[n - 1].id, jobs, DayCount);
  }

  lemma {:induction false} LinkConstraintsMeaning(sol: Solution, staff: seq<Staff>, jobs: seq<Job>, n: nat)
    requires n <= |staff|
    ensures SatisfiesAll(sol, LinkConstraints(staff, jobs, n)) <==>
      forall i | 0 <= i < n :: LinkRuleFor(sol, staff[i].id, jobs, DayCount)
  {
    if n > 0 {
      LinkConstraintsMeaning(sol, staff, jobs, n - 1);
      LinkConstraintsStep(sol, staff, jobs, n);
    }
  }

  lemma CapConstraintMeaning(sol: Solution, staff: seq<Staff>, jobs: seq<Job>, i: nat, d: nat)
    requires i < |staff|
    ensures Holds(sol, CapConstraint(staff, jobs, i, d)) <==> Load(sol, staff, jobs, i, |jobs|, d) <= MaxHoursPerDay
  {
    EvalLoadTerms(sol, staff, jobs, i, |jobs|, d);
  }

  /** The daily-hours rule for days below d + 1 is the rule below d and
      the rule for day d. */
  lemma CapRuleForSnoc(sol: Solution, staff: seq<Staff>, jobs: seq<Job>, i: nat, d: nat)
    requires i < |staff|
    ensures CapRuleFor(sol, staff, jobs, i, d + 1) <==>
      CapRuleFor(sol, staff, jobs, i, d) && Load(sol, staff, jobs, i, |jobs|, d) <= MaxHoursPerDay
  {
  }

  /** One day more: the step of CapRowMeaning. */
  lemma CapRowStep(sol: Solution, staff: seq<Staff>, jobs: seq<Job>, i: nat, d: nat)
    requires i < |staff|
    requires SatisfiesAll(sol, CapRow(staff, jobs, i, d)) <==> CapRuleFor(sol, staff, jobs, i, d)
    ensures SatisfiesAll(sol, CapRow(staff, jobs, i, d + 1)) <==> CapRuleFor(sol, staff, jobs, i, d + 1)
  {
    var before, day := CapRow(staff, jobs, i, d), [CapConstraint(staff, jobs, i, d)];
    assert CapRow(staff, jobs, i, d + 1) == before + day;
    SatisfiesAllSnoc(sol, before, CapConstraint(staff, jobs, i, d));
    CapConstraintMeaning(sol, staff, jobs, i, d);
    CapRuleForSnoc(sol, staff, jobs, i, d);
    IffStep(SatisfiesAll(sol, before + day), SatisfiesAll(sol, before), Holds(sol, CapConstraint(staff, jobs, i, d)),
      CapRuleFor(sol, staff, jobs, i, d + 1), CapRuleFor(sol, staff, jobs, i, d),
      Load(sol, staff, jobs, i, |jobs|, d) <= MaxHoursPerDay);
  }

  lemma {:induction false} CapRowMeaning(sol: Solution, staff: seq<Staff>, jobs: seq<Job>, i: nat, n: nat)
    requires i < |staff|
    ensures SatisfiesAll(sol, CapRow(staff, jobs, i, n)) <==> CapRuleFor(sol, staff, jobs, i, n)
  {
    if n > 0 {
      var d := n - 1;
      CapRowMeaning(sol, staff, jobs, i, d);
      CapRowStep(sol, staff, jobs, i, d);
      assert d + 1 == n;
    }
  }

  /** The daily-hours rule for staff rows below k + 1 is the rule below k
      and the rule for row k. */
  lemma CapRuleBelowSnoc(sol: Solution, staff: seq<Staff>, jobs: seq<Job>, k: nat)
    requires k < |staff|
    ensures CapRuleBelow(sol, staff, jobs, k + 1) <==>
      CapRuleBelow(sol, staff, jobs, k) && CapRuleFor(sol, staff, jobs, k, DayCount)
  {
  }

  /** One staff row more: the step of CapConstraintsMeaning. */
  lemma CapConstraintsStep(sol: Solution, staff: seq<Staff>, jobs: seq<Job>, k: nat)
    requires k < |staff|
    requires SatisfiesAll(sol, CapConstraints(staff, jobs, k)) <==> CapRuleBelow(sol, staff, jobs, k)
    ensures SatisfiesAll(sol, CapConstraints(staff, jobs, k + 1)) <==> CapRuleBelow(sol, staff, jobs, k + 1)
  {
    var before, row := CapConstraints(staff, jobs, k), CapRow(staff, jobs, k, DayCount);
    assert CapConstraints(staff, jobs, k + 1) == before + row;
    SatisfiesAllConcat(sol, before, row);
    CapRowMeaning(sol, staff, jobs, k, DayCount);
    CapRuleBelowSnoc(sol, staff, jobs, k);
    IffStep(SatisfiesAll(sol, before + row), SatisfiesAll(sol, before), SatisfiesAll(sol, row),
      CapRuleBelow(sol, staff, jobs, k + 1), CapRuleBelow(sol, staff, jobs, k), CapRuleFor(sol, staff, jobs, k, DayCount));
  }

  lemma {:induction false} CapConstraintsMeaning(sol: Solution, staff: seq<Staff>, jobs: seq<Job>, n: nat)
    requires n <= |staff|
    ensures SatisfiesAll(sol, CapConstraints(staff, jobs, n)) <==> CapRuleBelow(sol, staff, jobs, n)
  {
    if n > 0 {
      var k := n - 1;
      CapConstraintsMeaning(sol, staff, jobs, k);
      CapConstraintsStep(sol, staff, jobs, k);
      assert k + 1 == n;
    }
  }

  /** One staff row more: the step of WeekConstraintsMeaning. */
  lemma WeekConstraintsStep(sol: Solution, staff: seq<Staff>, n: nat)
    requires 0 < n <= |staff|
    requires SatisfiesAll(sol, WeekConstraints(staff, n - 1)) <==>
      forall i | 0 <= i < n - 1 :: WorkedDays(sol, staff[i].id, DayCount) as real <= MaxDaysPerWeek as real
    ensures SatisfiesAll(sol, WeekConstraints(staff, n)) <==>
      forall i | 0 <= i < n :: WorkedDays(sol, staff[i].id, DayCount) as real <= MaxDaysPerWeek as real
  {
    SatisfiesAllSnoc(sol, WeekConstraints(staff, n - 1), WeekConstraint(staff[n - 1].id));
    EvalWorkTerms(sol, staff[n - 1].id, DayCount);
  }

  lemma {:induction false} WeekConstraintsMeaning(sol: Solution, staff: seq<Staff>, n: nat)
    requires n <= |staff|
    ensures SatisfiesAll(sol, WeekConstraints(staff, n)) <==>
      forall i | 0 <= i < n :: WorkedDays(sol, staff[i].id, DayCount) as real <= MaxDaysPerWeek as real
  {
    if n > 0 {
      WeekConstraintsMeaning(sol, staff, n - 1);
      WeekConstraintsStep(sol, staff, n);
    }
  }

  /** A solution satisfies every constraint the program adds exactly when it
      obeys the four rostering rules. */
  lemma ConstraintsMeanFeasible(sol: Solution, staff: seq<Staff>, jobs: seq<Job>)
    ensures SatisfiesAll(sol, AllConstraints(staff, jobs)) <==> Feasible(sol, staff, jobs)
  {
    var t := ToolConstraints(staff, jobs, |jobs|);
    var l := LinkConstraints(staff, jobs, |staff|);
    var c := CapConstraints(staff, jobs, |staff|);
    var w := WeekConstraints(staff, |staff|);
    assert AllConstraints(staff, jobs) == ((t + l) + c) + w;
    SatisfiesAllConcat(sol, (t + l) + c, w);
    SatisfiesAllConcat(sol, t + l, c);
    SatisfiesAllConcat(sol, t, l);
    ToolConstraintsMeaning(sol, staff, jobs, |jobs|);
    LinkConstraintsMeaning(sol, staff, jobs, |staff|);
    CapConstraintsMeaning(sol, staff, jobs, |staff|);
    WeekConstraintsMeaning(sol, staff, |staff|);
  }
}
