/** The order in which the program walks the planning grid: staff rows
    outermost, job rows in the middle, days innermost. The variable
    dictionaries, the objective and the roster loop all use this order
    (main.py, create_roster). */
module Grid {
  import opened Entities

  /** A point of the grid: a staff row, a job row and a day. */
  datatype Cell = Cell(staff: nat, job: nat, day: nat)

  /** Days 0 .. n-1 of staff row i and job row k. */
  function DayCells(i: nat, k: nat, n: nat): (cells: seq<Cell>)
    ensures |cells| == n
    ensures forall c | c in cells :: c.staff == i && c.job == k && c.day < n
  {
    if n == 0 then [] else DayCells(i, k, n - 1) + [Cell(i, k, n - 1)]
  }

  /** All days of job rows 0 .. m-1 for staff row i. */
  function JobCells(i: nat, m: nat): (cells: seq<Cell>)
    ensures forall c | c in cells :: c.staff == i && c.job < m && c.day < DayCount
  {
    if m == 0 then [] else JobCells(i, m - 1) + DayCells(i, m - 1, DayCount)
  }

  /** All cells of staff rows 0 .. n-1, for a job table of nJ rows. */
  function StaffCells(n: nat, nJ: nat): (cells: seq<Cell>)
    ensures forall c | c in cells :: c.staff < n && c.job < nJ && c.day < DayCount
  {
    if n == 0 then [] else StaffCells(n - 1, nJ) + JobCells(n - 1, nJ)
  }

  /** Lexicographic order on (staff, job, day). */
  predicate Before(a: Cell, b: Cell)
  {
    a.staff < b.staff
    || (a.staff == b.staff && (a.job < b.job || (a.job == b.job && a.day < b.day)))
  }

  predicate Ascending(cells: seq<Cell>)
  {
    forall p, q | 0 <= p < q < |cells| :: Before(cells[p], cells[q])
  }

  lemma AscendingConcat(a: seq<Cell>, b: seq<Cell>)
    requires Ascending(a) && Ascending(b)
    requires forall x, y | x in a && y in b :: Before(x, y)
    ensures Ascending(a + b)
  {
    forall p, q | 0 <= p < q < |a + b| ensures Before((a + b)[p], (a + b)[q]) {
      if q < |a| {
        assert (a + b)[p] == a[p] && (a + b)[q] == a[q];
      } else if p >= |a| {
        assert (a + b)[p] == b[p - |a|] && (a + b)[q] == b[q - |a|];
      } else {
        assert (a + b)[p] in a && (a + b)[q] in b;
      }
    }
  }

  lemma {:induction false} DayCellsAscending(i: nat, k: nat, n: nat)
    ensures Ascending(DayCells(i, k, n))
  {
    if n > 0 {
      DayCellsAscending(i, k, n - 1);
      AscendingConcat(DayCells(i, k, n - 1), [Cell(i, k, n - 1)]);
    }
  }

  lemma {:induction false} JobCellsAscending(i: nat, m: nat)
    ensures Ascending(JobCells(i, m))
  {
    if m > 0 {
      JobCellsAscending(i, m - 1);
      DayCellsAscending(i, m - 1, DayCount);
      AscendingConcat(JobCells(i, m - 1), DayCells(i, m - 1, DayCount));
    }
  }

  /** The grid is walked in strictly increasing (staff, job, day) order, so
      in particular no cell is visited twice. */
  lemma {:induction false} StaffCellsAscending(n: nat, nJ: nat)
    ensures Ascending(StaffCells(n, nJ))
  {
    if n > 0 {
      StaffCellsAscending(n - 1, nJ);
      JobCellsAscending(n - 1, nJ);
      AscendingConcat(StaffCells(n - 1, nJ), JobCells(n - 1, nJ));
    }
  }

  lemma {:induction false} DayCellsComplete(i: nat, k: nat, n: nat, d: nat)
    requires d < n
    ensures Cell(i, k, d) in DayCells(i, k, n)
  {
    if d < n - 1 {
      DayCellsComplete(i, k, n - 1, d);
    }
  }

  lemma {:induction false} JobCellsComplete(i: nat, m: nat, c: Cell)
    requires c.staff == i && c.job < m && c.day < DayCount
    ensures c in JobCells(i, m)
  {
    if c.job < m - 1 {
      JobCellsComplete(i, m - 1, c);
    } else {
      DayCellsComplete(i, c.job, DayCount, c.day);
    }
  }

  /** Every cell of the product of staff rows, job rows and days is visited
      (the converse is StaffCells' own postcondition). */
  lemma {:induction false} StaffCellsComplete(n: nat, nJ: nat, c: Cell)
    requires c.staff < n && c.job < nJ && c.day < DayCount
    ensures c in StaffCells(n, nJ)
  {
    var prefix, last := StaffCells(n - 1, nJ), JobCells(n - 1, nJ);
    assert StaffCells(n, nJ) == prefix + last;
    if c.staff == n - 1 {
      JobCellsComplete(n - 1, nJ, c);
      assert c in last;
    } else {
      StaffCellsComplete(n - 1, nJ, c);
      assert c in prefix;
    }
  }

  lemma {:induction false} JobCellsLength(i: nat, m: nat)
    ensures |JobCells(i, m)| == m * DayCount
  {
    if m > 0 {
      JobCellsLength(i, m - 1);
    }
  }

  /** The walk visits |staff| * |jobs| * 7 cells. */
  lemma {:induction false} StaffCellsLength(n: nat, nJ: nat)
    ensures |StaffCells(n, nJ)| == n * nJ * DayCount
  {
    if n > 0 {
      StaffCellsLength(n - 1, nJ);
      JobCellsLength(n - 1, nJ);
      assert (n - 1) * nJ * DayCount + nJ * DayCount == n * nJ * DayCount;
    }
  }
}
