# landscape_roster: the rostering model and roster extraction

`create_roster` in `main.py` builds a weekly staff roster for a landscaping
business. It declares a 0/1 variable "staff member s does job j on day d" for
days 0..6, and a 0/1 variable "s works on day d". It asks an LP solver to
maximise the number of assignments under four rule families:

- a staff member who lacks a required tool never does the job;
- any job on a day forces the working-day flag;
- job length plus travel stays within nine hours a day;
- nobody works more than five days a week.

It then writes one roster record per assignment that the solver set to 1.
Travel between regions comes from the fixed table `calculate_travel_time`.

This Dafny project models that core:

- **Travel** (`travel.dfy`): the travel table as a pure function.
- **Tools** (`tools.dfy`): tool lists, which are strings split on `", "` as
  Python's `str.split` does, compared as sets.
- **Entities** (`entities.dfy`): staff and job rows. Lookups by identifier
  take the *first* matching row, as `.values[0]` does.
- **Grid** (`grid.dfy`): the staff-outer, job-middle, day-inner walk that the
  variable dictionaries, the objective and the roster loop follow. The
  constraint loops have their own orders: the tool loops go job-outer,
  staff-inner, the link and daily-hours loops go staff then day with the jobs
  summed inside, and the weekly loop covers staff only.
- **Variables** (`variables.dfy`): the `assignments` and `working_days`
  dictionaries, and a solver's answer as a map from variables to integers.
- **Constraints** (`constraints.dfy`): linear constraints and their
  evaluation. This includes the exact constraint list the program adds, in
  program order, and the proof that a solution satisfies that list exactly when
  it satisfies four readable rules (`Feasible`).
- **Builder** (`builder.dfy`): the `LpProblem` object as a class.
  `problem += constraint` is `AddConstraint`, and `problem += expression` is
  `SetObjective`. The program's nested `for` loops are methods with loop
  invariants, proved to produce that constraint list.
- **Lookups** (`lookups.dfy`): every variable that the objective, a
  constraint or the roster loop reads is a key of the `assignments` or
  `working_days` dictionary, so none of the program's dictionary lookups
  misses.
- **Extraction** (`extraction.dfy`): the output loops as methods. They are
  proved equal to a roster function. Lemmas say which records that function
  contains and in which order.
- **Guarantees** (`guarantees.dfy`): what any binary solution satisfying the
  constraint list promises about the roster written from it:
  - every rostered staff member holds the job's tools;
  - nobody is rostered on more than five distinct days;
  - nobody's rostered work plus travel on any day exceeds nine hours;
  - the objective value is the number of roster records;
  - with unique identifiers, no record repeats.

The solver is not modelled. Its answer is an arbitrary `Solution`. Every
guarantee assumes `Binary(sol)`, meaning each variable is 0 or 1, and
`SatisfiesAll(sol, AllConstraints(staff, jobs))`, meaning all the model's
constraints hold.

Points where the code's behaviour is easy to mistake, and which the model
follows exactly:

- For a non-optimal solver status, the code prints a message and writes no
  roster at all, not even an empty one. `Extract` returns `None`.
- The code checks no configuration and rejects no empty table. An empty staff
  table gives a model with no variables and no constraints. With staff but no
  jobs, there are still working-day variables and link, daily-hours and
  weekly constraints, all over empty or working-day sums. Nothing here
  requires non-empty input.
- The code adds each tool constraint seven identical times. The inner
  `for day in DAYS` loop repeats a sum that already covers all seven days. The
  model adds those seven copies.
- The code has only whole-slot assignments. There is no fractional-hours mode
  and no unfulfilled-jobs report.

## Model

| member | source | states |
|---|---|---|
| Travel.TravelTime | main.py:6-14 | travel time is always one of 0, 0.5, 1 and 2 hours |
| Travel.TravelTimeZeroIffSame | main.py:6-14 | travel time is zero exactly when the two locations are equal |
| Travel.TravelTimeSymmetric | main.py:6-14 | swapping departure and destination gives the same travel time |
| Travel.TravelTimeTable | main.py:9-14 | 2 exactly for East/West in either order, 1 exactly for North/South in either order, 0.5 exactly for every other pair of distinct locations, unknown names included |
| Tools.Split | main.py:53-55 | `split(", ")` always yields at least one part |
| Tools.ToolSet | main.py:53-55 | the tool set holds exactly the parts of the split, is never empty, and none of its names contains the separator |
| Tools.ToolSetSubset | main.py:56 | one tool set is a subset of another exactly when every part of the first split occurs in the second |
| Tools.JoinSplit | main.py:53-55 | joining the parts of `split(", ")` with the separator gives back the tool list |
| Tools.SplitPartsHaveNoSeparator | main.py:53-55 | no tool name produced by the split contains the separator |
| Tools.SplitJoin | main.py:53-55 | splitting a joined list of separator-free names gives back exactly those names, so the split is the inverse of joining |
| Entities.FirstIndex | main.py:70-72 | the row a lookup by identifier selects is at or before the row whose identifier is looked up |
| Entities.FirstIndexFinds | main.py:70-72 | the lookup by identifier finds a row with that identifier, and no earlier row has it |
| Entities.FirstIndexOfDistinct | main.py:70-72 | with unique identifiers the lookup finds the row itself |
| Entities.JobRow | main.py:91-92 | the job row read for length and location is a row of the table with the same JobID, and is the row itself when JobIDs are unique |
| Entities.StaffRow | main.py:70-72 | the staff row read for the location is a row of the table with the same StaffID, and is the row itself when StaffIDs are unique |
| Entities.Qualified | main.py:56 | the qualification test `required_tools.issubset(staff_tools)`; a staff member whose tool list equals the job's requirement is qualified |
| Entities.QualifiedMeaning | main.py:53-56 | a staff member is qualified exactly when every tool name the job requires occurs in the staff member's tool list |
| Grid.DayCells | main.py:89 | the day loop visits n cells, all in the given row pair, with day below n |
| Grid.StaffCellsAscending | main.py:87-89 | the triple loop visits cells in strictly increasing (staff row, job row, day) order |
| Grid.StaffCellsComplete | main.py:87-89 | the triple loop visits every cell of the grid |
| Grid.StaffCellsLength | main.py:87-89 | the triple loop visits staff count × job count × 7 cells |
| Variables.AssignmentVars | main.py:31-36 | the assignment dictionary's key set is exactly StaffID × JobID × {0..6}, one assignment variable per key |
| Variables.WorkingDayVars | main.py:39-43 | the working-day dictionary's key set is exactly StaffID × {0..6}, one working-day variable per key |
| Variables.AssignmentKeysCoverProduct | main.py:31-36 | the keys generated by the staff, job and day loops are exactly StaffID × JobID × {0..6} |
| Variables.WorkingDayKeysCoverProduct | main.py:39-43 | the keys generated by the staff and day loops are exactly StaffID × {0..6} |
| Variables.AssignmentKeysDistinct | main.py:31-36 | with unique identifiers, different grid cells never share a dictionary key |
| Variables.AssignmentVarCount | main.py:31-36 | with unique identifiers, the dictionary holds staff count × job count × 7 variables |
| Variables.WorkingDayKeysDistinct | main.py:39-43 | with unique StaffIDs, the staff and day loops never generate the same key twice |
| Variables.WorkingDayVarCount | main.py:39-43 | with unique StaffIDs, the dictionary holds staff count × 7 variables |
| Constraints.ScaleIsProduct | main.py:69-72 | a variable value scaled by its coefficient is their product |
| Constraints.Cost | main.py:69-72 | the coefficient of an assignment is the job length plus 0, 0.5, 1 or 2 hours of travel; with unique identifiers, it is the job's own length plus the travel from the staff member's location to the job's |
| Constraints.ToolCell | main.py:56-58 | a (job, staff) pair adds no constraint exactly when the staff member is qualified, and otherwise adds 7 constraints |
| Constraints.ToolCellMeaning | main.py:56-58 | those constraints hold exactly when an unqualified staff member has the job on no day |
| Constraints.LinkConstraint | main.py:63 | the link constraint is an at-most-0 constraint whose last term is −(job count) times the working-day flag, after one term per job |
| Constraints.LinkConstraintMeaning | main.py:63 | it holds exactly when that day's job sum is at most the working-day flag times the job count |
| Constraints.CapConstraint | main.py:68-74 | the daily-hours constraint is an at-most-9 constraint with one term per job row |
| Constraints.CapConstraintMeaning | main.py:68-74 | it holds exactly when that day's assigned job lengths plus travel sum to at most 9 |
| Constraints.WeekConstraint | main.py:78 | the weekly constraint is an at-most-5 constraint with seven terms |
| Constraints.AllConstraints | main.py:51-78 | the constraint list is the tool constraints followed by 7 link, 7 daily-hours and 1 weekly constraint per staff row |
| Constraints.Objective | main.py:46-47 | the objective has staff count × job count × 7 terms, as many as the loops visit (staff, job, day) triples |
| Constraints.ToolConstraintsMeaning | main.py:52-58 | the tool constraints hold exactly when no unqualified staff row has the job on any day of the week |
| Constraints.LinkConstraintsMeaning | main.py:60-63 | the link constraints hold exactly when, for each staff row and day, the jobs that day number at most the working-day flag times the job count |
| Constraints.CapConstraintsMeaning | main.py:65-74 | the daily-hours constraints hold exactly when, for each staff row and day, the assigned jobs' length plus travel sum to at most 9 |
| Constraints.WeekConstraintsMeaning | main.py:76-78 | the weekly constraints hold exactly when each staff member's working-day flags sum to at most 5 |
| Constraints.ConstraintsMeanFeasible | main.py:51-78 | a solution satisfies the whole constraint list exactly when it satisfies all four rules |
| Builder.Problem.constructor | main.py:28 | a new problem has no objective and no constraints |
| Builder.Problem.SetObjective | main.py:46-47 | setting the objective keeps the constraints |
| Builder.Problem.AddConstraint | main.py:58 | `problem += constraint` appends the constraint, keeps the earlier ones and keeps the objective |
| Builder.AddToolCell | main.py:56-58 | one (job, staff) pair adds nothing when the staff member is qualified, otherwise seven copies of the zero-sum constraint |
| Builder.AddToolRow | main.py:54-58 | the staff loop for one job appends that job's tool constraints in staff order |
| Builder.AddToolConstraints | main.py:52-58 | the tool loops append the tool constraints of all jobs in job order |
| Builder.AddLinkRow | main.py:62-63 | the day loop appends one link constraint per day |
| Builder.AddLinkConstraints | main.py:61-63 | the link loops append the link constraints of every staff row |
| Builder.AddCapRow | main.py:67-74 | the day loop appends one daily-hours constraint per day |
| Builder.AddCapConstraints | main.py:66-74 | the daily-hours loops append the constraints of every staff row |
| Builder.AddWeekConstraints | main.py:77-78 | the weekly loop appends one five-day limit per staff row |
| Builder.BuildModel | main.py:28-78 | the built problem's objective counts all assignments and its constraints are the whole list in program order |
| Extraction.RecordOf | main.py:90-99 | a record carries the cell's JobID, StaffID and day, and, with unique JobIDs, that job row's length and location |
| Extraction.Roster | main.py:86-99 | the roster has at most staff count × job count × 7 records |
| Extraction.AssignedCells | main.py:87-90 | the kept cells come from the walk and have value 1 |
| Extraction.RosterOfIsRecordsOfAssigned | main.py:86-99 | the roster of a walk is one record per assigned cell of it, in order |
| Extraction.AssignedCellsAscending | main.py:87-90 | filtering the walk keeps its order |
| Extraction.AssignedCellsComplete | main.py:87-90 | every assigned cell of the walk is kept |
| Extraction.RosterListsAssignedCells | main.py:86-99 | the roster is one record for each grid cell whose value is 1 and for no other, in staff, job, day order |
| Extraction.RosterRecordsComeFromTables | main.py:90-99 | every record names a job row whose length and location it carries (every such row, with unique JobIDs), a staff row with its StaffID, and a day of the week |
| Extraction.DayRecords | main.py:89-99 | the day loop appends the records of one (staff, job) pair |
| Extraction.StaffRecords | main.py:88-99 | the job and day loops append the records of one staff row |
| Extraction.Extract | main.py:84-104 | with Optimal status the output is the roster of the solution; with any other status there is no output |
| Guarantees.DaySumBounds | main.py:58 | for a binary solution, the seven-day sum is non-negative and at least each day's value |
| Guarantees.JobSumBounds | main.py:63 | for a binary solution, the sum over jobs is non-negative and at least each job's value |
| Guarantees.RosterRespectsTools | main.py:52-58 | every rostered staff member holds all tools the job requires |
| Guarantees.AssignedMeansWorking | main.py:60-63 | any assignment on a day sets that day's working-day flag |
| Guarantees.WorkDaysCount | main.py:78 | the working-day sum counts the days whose flag is set |
| Guarantees.RosterDaysAreWorkDays | main.py:60-63 | each day on which someone is rostered is one of their working days |
| Guarantees.RosterAtMostFiveDays | main.py:76-78 | nobody is rostered on more than five distinct days of the week |
| Guarantees.DayHoursConcat | main.py:68-74 | the daily hours of a concatenated roster are the sum of the parts' hours |
| Guarantees.DayHoursOfStaff | main.py:65-74 | with unique StaffIDs, the rostered hours of a staff member on a day are the left-hand side of that staff/day's daily-hours constraint |
| Guarantees.RosterWithinDailyHours | main.py:65-74 | nobody's rostered job length plus travel on any day exceeds nine hours |
| Guarantees.ObjectiveCountsRoster | main.py:46-47 | for a binary solution the objective value is the number of roster records |
| Guarantees.RosterHasNoDuplicates | main.py:86-99 | with unique identifiers no roster record appears twice |
| Lookups.KeyOfDeclared | main.py:31-43 | a variable is a key of its dictionary exactly when its StaffID (and JobID) occur in the tables and its day is 0..6 |
| Lookups.ObjectiveVarsDeclared | main.py:46-47 | every term of the objective is an assignment variable whose key the `assignments` dictionary holds |
| Lookups.ConstraintVarsDeclared | main.py:52-78 | every variable any constraint mentions is a key of the `assignments` or the `working_days` dictionary, so the lookups at main.py lines 58, 63, 69 and 78 never miss |
| Lookups.RosterLookupsDeclared | main.py:87-90 | every key the roster loop reads is a key of the `assignments` dictionary |

## Left out

- Reading `staff.csv` and `jobs.csv` and writing the roster file (pandas), the `print` calls and the `__main__` path handling: these are I/O. The tables are parameters, and the written file is the returned sequence of records.
- The PuLP solver and the claim that its solution is optimal: the solution is a parameter, assumed binary and satisfying the constraints. The objective is modelled and proved to count the roster, not to be maximal.
- The solver label strings `assign_..._..._...` and `work_..._...`: variables are identified by their dictionary keys.
- Floating-point arithmetic: job lengths, travel and sums are exact reals, and `varValue == 1` is an exact integer comparison.
- Solver values are integers. A variable missing from the solution reads as 0.
- Coefficients are applied by repeated addition (`Scale`), which `Constraints.ScaleIsProduct` proves equal to multiplication.
- Guarantees.RosterWithinDailyHours: requires unique StaffIDs. The roster loop visits every staff row, so each row that repeats a StaffID writes every assignment of that ID again. The roster's hours for that ID then multiply, while each daily-hours constraint counts them once. With two rows for one StaffID and an 8-hour job in that staff member's own region, the roster shows 16 hours that day.
- Malformed tables: the model assumes every StaffID, JobID and Location cell is present and every JobLength is a number. The program behaves otherwise on such input, and the model does not capture it:
  - An empty StaffID or JobID cell arrives as a missing value that never equals itself. The row filter then finds nothing, and `.values[0]` stops the program with an error: at main.py:71 for a StaffID when there is a job, and at main.py:70 for a JobID when there is a staff row.
  - A non-numeric JobLength makes the whole column text, and adding travel time to it at main.py:70-72 stops the program with an error.
  - Two empty Locations compare unequal in `calculate_travel_time`, so the program gives 0.5 hours between them. The model gives 0 for two equal strings.
- Empty tool cells: the model takes every `Tools` and `ToolsRequired` entry as a string. In the program an empty cell arrives as a missing value, `.split(", ")` fails on it, and `create_roster` stops with an error. Here the empty string splits into one empty tool name instead. So a job with an empty requirement list is unassignable to anyone whose tool list has no empty entry, where the program would have stopped.
- Fractional-hours assignments, job-completion constraints and unfulfilled-job reports: the code has none of them.
