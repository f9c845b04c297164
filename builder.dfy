/** The construction of the linear program in create_roster (main.py): a
    problem object that collects an objective and constraints, and the
    loops that fill it. */
module Builder {
  import opened Entities
  import opened Constraints

  /** The `LpProblem` the program builds: a maximisation problem whose
      objective and constraint list grow with each `problem += ...`. */
  class Problem {
    var objective: seq<Term>
    var constraints: seq<Constraint>

    /** LpProblem("Staff_Rostering", LpMaximize): no objective, no constraints. */
    constructor ()
      ensures objective == [] && constraints == []
    {
      objective := [];
      constraints := [];
    }

    /** `problem += expression`: the expression becomes the objective. */
    method SetObjective(terms: seq<Term>)
      modifies this
      ensures objective == terms
      ensures constraints == old(constraints)
    {
      objective := terms;
    }

    /** `problem += constraint`: the constraint is appended; constraints
        already present, and the objective, are kept. */
    method AddConstraint(c: Constraint)
      modifies this
      ensures constraints == old(constraints) + [c]
      ensures objective == old(objective)
    {
      constraints := constraints + [c];
    }
  }

  /** Associativity of concatenation. Dafny knows it, but naming the three
      parts at each loop step keeps the loop proofs below several times
      cheaper than leaving the regrouping to the solver. */
  lemma AppendAssoc(a: seq<Constraint>, b: seq<Constraint>, c: seq<Constraint>)
    ensures (a + b) + c == a + (b + c)
  {
  }

  /** The innermost tool loop for one (job, staff) pair: nothing when the
      staff member has every required tool, otherwise the same constraint
      once for each day of the week. */
  method AddToolCell(p: Problem, s: Staff, job: Job)
    modifies p
    ensures p.constraints == old(p.constraints) + ToolCell(s, job)
    ensures p.objective == old(p.objective)
  {
    if !Qualified(s, job) {
      var d := 0;
      while d < DayCount
        invariant d <= DayCount
        invariant p.constraints == old(p.constraints) + Repeat(ToolConstraint(s, job), d)
        invariant p.objective == old(p.objective)
      {
        p.AddConstraint(ToolConstraint(s, job));
        assert Repeat(ToolConstraint(s, job), d + 1) == Repeat(ToolConstraint(s, job), d) + [ToolConstraint(s, job)];
        d := d + 1;
      }
    } else {
      assert old(p.constraints) + [] == old(p.constraints);
    }
  }

  /** The staff loop inside the tool loop, for one job row. */
  method AddToolRow(p: Problem, staff: seq<Staff>, job: Job)
    modifies p
    ensures p.constraints == old(p.constraints) + ToolRow(staff, job, |staff|)
    ensures p.objective == old(p.objective)
  {
    var m := 0;
    while m < |staff|
      invariant m <= |staff|
      invariant p.constraints == old(p.constraints) + ToolRow(staff, job, m)
      invariant p.objective == old(p.objective)
    {
      AddToolCell(p, staff[m], job);
      assert ToolRow(staff, job, m + 1) == ToolRow(staff, job, m) + ToolCell(staff[m], job);
      AppendAssoc(old(p.constraints), ToolRow(staff, job, m), ToolCell(staff[m], job));
      m := m + 1;
    }
  }

  /** The tool loops: for each job row, for each staff row lacking a required
      tool, the day sum is pinned to 0 once per day of the inner loop. */
  method AddToolConstraints(p: Problem, staff: seq<Staff>, jobs: seq<Job>)
    modifies p
    ensures p.constraints == old(p.constraints) + ToolConstraints(staff, jobs, |jobs|)
    ensures p.objective == old(p.objective)
  {
    var n := 0;
    while n < |jobs|
      invariant n <= |jobs|
      invariant p.constraints == old(p.constraints) + ToolConstraints(staff, jobs, n)
      invariant p.objective == old(p.objective)
    {
      AddToolRow(p, staff, jobs[n]);
      AppendAssoc(old(p.constraints), ToolConstraints(staff, jobs, n), ToolRow(staff, jobs[n], |staff|));
      n := n + 1;
    }
  }

  /** The day loop of the link constraints, for staff member sid. */
  method AddLinkRow(p: Problem, sid: string, jobs: seq<Job>)
    modifies p
    ensures p.constraints == old(p.constraints) + LinkRow(sid, jobs, DayCount)
    ensures p.objective == old(p.objective)
  {
    var d := 0;
    while d < DayCount
      invariant d <= DayCount
      invariant p.constraints == old(p.constraints) + LinkRow(sid, jobs, d)
      invariant p.objective == old(p.objective)
    {
      p.AddConstraint(LinkConstraint(sid, jobs, d));
      AppendAssoc(old(p.constraints), LinkRow(sid, jobs, d), [LinkConstraint(sid, jobs, d)]);
      d := d + 1;
    }
  }

  /** The link loops: for each staff row and day, the day's assignments are
      bounded by |jobs| times the working-day flag. */
  method AddLinkConstraints(p: Problem, staff: seq<Staff>, jobs: seq<Job>)
    modifies p
    ensures p.constraints == old(p.constraints) + LinkConstraints(staff, jobs, |staff|)
    ensures p.objective == old(p.objective)
  {
    var i := 0;
    while i < |staff|
      invariant i <= |staff|
      invariant p.constraints == old(p.constraints) + LinkConstraints(staff, jobs, i)
      invariant p.objective == old(p.objective)
    {
      AddLinkRow(p, staff[i].id, jobs);
      AppendAssoc(old(p.constraints), LinkConstraints(staff, jobs, i), LinkRow(staff[i].id, jobs, DayCount));
      i := i + 1;
    }
  }

  /** The day loop of the daily-hours constraints, for staff row i. */
  method AddCapRow(p: Problem, staff: seq<Staff>, jobs: seq<Job>, i: nat)
    requires i < |staff|
    modifies p
    ensures p.constraints == old(p.constraints) + CapRow(staff, jobs, i, DayCount)
    ensures p.objective == old(p.objective)
  {
    var d := 0;
    while d < DayCount
      invariant d <= DayCount
      invariant p.constraints == old(p.constraints) + CapRow(staff, jobs, i, d)
      invariant p.objective == old(p.objective)
    {
      p.AddConstraint(CapConstraint(staff, jobs, i, d));
      AppendAssoc(old(p.constraints), CapRow(staff, jobs, i, d), [CapConstraint(staff, jobs, i, d)]);
      d := d + 1;
    }
  }

  /** The daily-hours loops: for each staff row and day, job hours and
      travel stay within nine hours. */
  method AddCapConstraints(p: Problem, staff: seq<Staff>, jobs: seq<Job>)
    modifies p
    ensures p.constraints == old(p.constraints) + CapConstraints(staff, jobs, |staff|)
    ensures p.objective == old(p.objective)
  {
    var i := 0;
    while i < |staff|
      invariant i <= |staff|
      invariant p.constraints == old(p.constraints) + CapConstraints(staff, jobs, i)
      invariant p.objective == old(p.objective)
    {
      AddCapRow(p, staff, jobs, i);
      AppendAssoc(old(p.constraints), CapConstraints(staff, jobs, i), CapRow(staff, jobs, i, DayCount));
      i := i + 1;
    }
  }

  /** The weekly loop: one five-day limit per staff row. */
  method AddWeekConstraints(p: Problem, staff: seq<Staff>)
    modifies p
    ensures p.constraints == old(p.constraints) + WeekConstraints(staff, |staff|)
    ensures p.objective == old(p.objective)
  {
    var i := 0;
    while i < |staff|
      invariant i <= |staff|
      invariant p.constraints == old(p.constraints) + WeekConstraints(staff, i)
      invariant p.objective == old(p.objective)
    {
      p.AddConstraint(WeekConstraint(staff[i].id));
      AppendAssoc(old(p.constraints), WeekConstraints(staff, i), [WeekConstraint(staff[i].id)]);
      i := i + 1;
    }
  }

  /** Builds the problem create_roster hands to the solver: the objective
      counts all assignments, and the constraints come in program order. */
  method BuildModel(staff: seq<Staff>, jobs: seq<Job>) returns (p: Problem)
    ensures fresh(p)
    ensures p.objective == Objective(staff, jobs)
    ensures p.constraints == AllConstraints(staff, jobs)
  {
    p := new Problem();
    p.SetObjective(Objective(staff, jobs));
    var tools := ToolConstraints(staff, jobs, |jobs|);
    var links := LinkConstraints(staff, jobs, |staff|);
    var caps := CapConstraints(staff, jobs, |staff|);
    AddToolConstraints(p, staff, jobs);
    assert p.constraints == tools;
    AddLinkConstraints(p, staff, jobs);
    assert p.constraints == tools + links;
    AddCapConstraints(p, staff, jobs);
    assert p.constraints == tools + links + caps;
    AddWeekConstraints(p, staff);
  }
}
