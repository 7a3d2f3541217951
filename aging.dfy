/**
 * The first two passes of stepSimulation (app.js lines 290-326): the aging
 * pass, which ages every robot, removes those past maxAge and tallies the
 * survivors; and the row-major collection of (x, y, id) for every robot left.
 */
module Aging {
  import opened Optional
  import opened Robots
  import opened Grid
  import opened Records

  /** population, sumFitness and peakFitness as the aging pass accumulates them. */
  datatype Tally = Tally(population: nat, sum: int, peak: int)

  /** What the aging pass does to one cell, as a reference for the pass. */
  function AgedOne(c: Cell, maxAge: int): (d: Cell)
    ensures d.terrain == c.terrain && d.coolData == c.coolData && d.visits == c.visits
  {
    match c.robot
    case None => c
    case Some(r) => if r.age + 1 > maxAge then c.(robot := None) else c.(robot := Some(r.(age := r.age + 1)))
  }

  /** A cell after aging, with the tally and log after it. */
  datatype AgedCell = AgedCell(cell: Cell, tally: Tally, log: seq<LogEntry>)

  /**
   * One cell of the aging pass: the robot's age goes up by one; past maxAge it
   * shuts down (logged) and leaves the cell; otherwise it is counted, its
   * fitness added to the sum and the peak raised to it if higher.
   */
  function AgeCell(c: Cell, maxAge: int, cycle: nat, tally: Tally, log: seq<LogEntry>): (a: AgedCell)
    ensures a.cell == AgedOne(c, maxAge)
    ensures a.tally.population == tally.population + (if a.cell.robot.Some? then 1 else 0)
    ensures a.cell.robot.Some? ==>
      a.tally.sum == tally.sum + a.cell.robot.value.fitness &&
      a.tally.peak == (if a.cell.robot.value.fitness > tally.peak then a.cell.robot.value.fitness else tally.peak)
    ensures a.cell.robot.None? ==> a.tally == tally
    ensures a.log == if c.robot.Some? && a.cell.robot.None?
      then AddLog(log, LogEntry(ShutDown(c.robot.value.name, c.robot.value.number), cycle)) else log
  {
    match c.robot
    case None => AgedCell(c, tally, log)
    case Some(r) =>
      var older := r.(age := r.age + 1);
      if older.age > maxAge then
        AgedCell(c.(robot := None), tally, AddLog(log, LogEntry(ShutDown(older.name, older.number), cycle)))
      else
        AgedCell(c.(robot := Some(older)),
                 Tally(tally.population + 1, tally.sum + older.fitness,
                       if older.fitness > tally.peak then older.fitness else tally.peak),
                 log)
  }

  /** The first n cells of a row after aging, with the tally and log after them. */
  datatype AgedRow = AgedRow(cells: seq<Cell>, tally: Tally, log: seq<LogEntry>)

  function AgeRow(row: seq<Cell>, n: nat, maxAge: int, cycle: nat, tally: Tally, log: seq<LogEntry>): (a: AgedRow)
    requires n <= |row|
    ensures |a.cells| == n
    ensures forall x | 0 <= x < n :: a.cells[x] == AgedOne(row[x], maxAge)
    ensures a.tally.population == tally.population + CountRow(a.cells, n)
    ensures a.tally.sum == tally.sum + SumRow(a.cells, n)
    ensures a.tally.peak == PeakRow(a.cells, n, tally.peak)
    ensures |log| <= LogLimit ==> |a.log| <= LogLimit
  {
    if n == 0 then AgedRow([], tally, log)
    else
      var prev := AgeRow(row, n - 1, maxAge, cycle, tally, log);
      var c := AgeCell(row[n - 1], maxAge, cycle, prev.tally, prev.log);
      var cells := prev.cells + [c.cell];
      RowTallyStep(prev.cells, c.cell, tally, prev.tally, c.tally);
      AgedRow(cells, c.tally, c.log)
  }

  /** Adding one aged cell to the tally of the cells before it gives the tally of them all. */
  lemma RowTallyStep(cells: seq<Cell>, cell: Cell, start: Tally, mid: Tally, after: Tally)
    requires mid.population == start.population + CountRow(cells, |cells|)
    requires mid.sum == start.sum + SumRow(cells, |cells|) && mid.peak == PeakRow(cells, |cells|, start.peak)
    requires cell.robot.Some? ==>
      after.population == mid.population + 1 && after.sum == mid.sum + cell.robot.value.fitness &&
      after.peak == (if cell.robot.value.fitness > mid.peak then cell.robot.value.fitness else mid.peak)
    requires cell.robot.None? ==> after == mid
    ensures after.population == start.population + CountRow(cells + [cell], |cells| + 1)
    ensures after.sum == start.sum + SumRow(cells + [cell], |cells| + 1)
    ensures after.peak == PeakRow(cells + [cell], |cells| + 1, start.peak)
  {
    RowAppend(cells, cell, start.peak);
  }

  /** The count, sum and peak of a row extended by one cell. */
  lemma RowAppend(cells: seq<Cell>, cell: Cell, p: int)
    ensures var v := cells + [cell];
      && CountRow(v, |v|) == CountRow(cells, |cells|) + (if cell.robot.Some? then 1 else 0)
      && SumRow(v, |v|) == SumRow(cells, |cells|) + (if cell.robot.Some? then cell.robot.value.fitness else 0)
      && PeakRow(v, |v|, p) ==
        var q := PeakRow(cells, |cells|, p);
        if cell.robot.Some? && cell.robot.value.fitness > q then cell.robot.value.fitness else q
  {
    var v := cells + [cell];
    RowPrefix(v, |cells|, p);
    assert v[..|cells|] == cells;
    assert v[|cells|] == cell;
  }

  /** The number of robots among the first n cells of a row. */
  function CountRow(row: seq<Cell>, n: nat): nat
    requires n <= |row|
  {
    if n == 0 then 0 else CountRow(row, n - 1) + (if row[n - 1].robot.Some? then 1 else 0)
  }

  /** The total fitness of the robots among the first n cells of a row. */
  function SumRow(row: seq<Cell>, n: nat): int
    requires n <= |row|
  {
    if n == 0 then 0 else SumRow(row, n - 1) + (if row[n - 1].robot.Some? then row[n - 1].robot.value.fitness else 0)
  }

  /** The largest of p and the fitness of every robot among the first n cells of a row. */
  function PeakRow(row: seq<Cell>, n: nat, p: int): int
    requires n <= |row|
  {
    if n == 0 then p
    else
      var q := PeakRow(row, n - 1, p);
      if row[n - 1].robot.Some? && row[n - 1].robot.value.fitness > q then row[n - 1].robot.value.fitness else q
  }

  /** CountRow, SumRow and PeakRow look only at the cells they count. */
  lemma {:induction false} RowPrefix(row: seq<Cell>, n: nat, p: int)
    requires n < |row|
    ensures CountRow(row, n) == CountRow(row[..n], n)
    ensures SumRow(row, n) == SumRow(row[..n], n)
    ensures PeakRow(row, n, p) == PeakRow(row[..n], n, p)
  {
    if n > 0 {
      RowPrefix(row, n - 1, p);
      RowPrefix(row[..n], n - 1, p);
      assert row[..n][..n - 1] == row[..n - 1];
    }
  }

  /** The first m rows after aging, with the tally and log after them. */
  datatype AgedWorld = AgedWorld(world: World, tally: Tally, log: seq<LogEntry>)

  function AgeRows(w: World, m: nat, maxAge: int, cycle: nat, tally: Tally, log: seq<LogEntry>): (a: AgedWorld)
    requires m <= |w|
    ensures |a.world| == m
    ensures forall y | 0 <= y < m :: |a.world[y]| == |w[y]|
    ensures forall y, x | 0 <= y < m && 0 <= x < |w[y]| :: a.world[y][x] == AgedOne(w[y][x], maxAge)
    ensures a.tally.population == tally.population + CountRows(a.world, m)
    ensures a.tally.sum == tally.sum + SumRows(a.world, m)
    ensures a.tally.peak == PeakRows(a.world, m, tally.peak)
    ensures |log| <= LogLimit ==> |a.log| <= LogLimit
  {
    if m == 0 then AgedWorld([], tally, log)
    else
      var prev := AgeRows(w, m - 1, maxAge, cycle, tally, log);
      var r := AgeRow(w[m - 1], |w[m - 1]|, maxAge, cycle, prev.tally, prev.log);
      var world := prev.world + [r.cells];
      RowsTallyStep(prev.world, r.cells, tally, prev.tally, r.tally);
      AgedRowsStep(w, m, maxAge, prev.world, r.cells);
      AgedWorld(world, r.tally, r.log)
  }

  /** The rows aged so far followed by the next row aged are the first m rows aged. */
  lemma AgedRowsStep(w: World, m: nat, maxAge: int, prev: World, row: seq<Cell>)
    requires 0 < m <= |w|
    requires |prev| == m - 1 && forall y | 0 <= y < m - 1 :: |prev[y]| == |w[y]|
    requires forall y, x | 0 <= y < m - 1 && 0 <= x < |w[y]| :: prev[y][x] == AgedOne(w[y][x], maxAge)
    requires |row| == |w[m - 1]| && forall x | 0 <= x < |row| :: row[x] == AgedOne(w[m - 1][x], maxAge)
    ensures var v := prev + [row];
      && |v| == m
      && (forall y | 0 <= y < m :: |v[y]| == |w[y]|)
      && forall y, x | 0 <= y < m && 0 <= x < |w[y]| :: v[y][x] == AgedOne(w[y][x], maxAge)
  {
    var v := prev + [row];
    assert forall y | 0 <= y < m - 1 :: v[y] == prev[y];
    assert v[m - 1] == row;
  }

  /** Adding one aged row to the tally of the rows before it gives the tally of them all. */
  lemma RowsTallyStep(w: World, row: seq<Cell>, start: Tally, mid: Tally, after: Tally)
    requires mid.population == start.population + CountRows(w, |w|)
    requires after.population == mid.population + CountRow(row, |row|)
    requires mid.sum == start.sum + SumRows(w, |w|) && mid.peak == PeakRows(w, |w|, start.peak)
    requires after.sum == mid.sum + SumRow(row, |row|) && after.peak == PeakRow(row, |row|, mid.peak)
    ensures after.population == start.population + CountRows(w + [row], |w| + 1)
    ensures after.sum == start.sum + SumRows(w + [row], |w| + 1)
    ensures after.peak == PeakRows(w + [row], |w| + 1, start.peak)
  {
    RowsAppend(w, row, start.peak);
  }

  /** The sum and peak of a world extended by one row. */
  lemma RowsAppend(w: World, row: seq<Cell>, p: int)
    ensures CountRows(w + [row], |w| + 1) == CountRows(w, |w|) + CountRow(row, |row|)
    ensures SumRows(w + [row], |w| + 1) == SumRows(w, |w|) + SumRow(row, |row|)
    ensures PeakRows(w + [row], |w| + 1, p) == PeakRow(row, |row|, PeakRows(w, |w|, p))
  {
    var v := w + [row];
    RowsPrefix(v, |w|, p);
    assert v[..|w|] == w;
    assert v[|w|] == row;
  }

  /** One more row of the aging pass: that row aged after the ones before it. */
  lemma AgeRowsNext(w: World, m: nat, maxAge: int, cycle: nat, tally: Tally, log: seq<LogEntry>)
    requires m < |w|
    ensures var prev := AgeRows(w, m, maxAge, cycle, tally, log);
      var r := AgeRow(w[m], |w[m]|, maxAge, cycle, prev.tally, prev.log);
      AgeRows(w, m + 1, maxAge, cycle, tally, log) == AgedWorld(prev.world + [r.cells], r.tally, r.log)
  {
  }

  /** The number of robots in the first m rows. */
  function CountRows(w: World, m: nat): nat
    requires m <= |w|
  {
    if m == 0 then 0 else CountRows(w, m - 1) + CountRow(w[m - 1], |w[m - 1]|)
  }

  /** The total fitness of the robots in the first m rows. */
  function SumRows(w: World, m: nat): int
    requires m <= |w|
  {
    if m == 0 then 0 else SumRows(w, m - 1) + SumRow(w[m - 1], |w[m - 1]|)
  }

  /** The largest of p and the fitness of every robot in the first m rows. */
  function PeakRows(w: World, m: nat, p: int): int
    requires m <= |w|
  {
    if m == 0 then p else PeakRow(w[m - 1], |w[m - 1]|, PeakRows(w, m - 1, p))
  }

  /**
   * PeakRow is the maximum: at least p, at least every robot's fitness, and
   * either p or the fitness of one of the robots.
   */
  lemma {:induction false} PeakRowIsMax(row: seq<Cell>, n: nat, p: int)
    requires n <= |row|
    ensures p <= PeakRow(row, n, p)
    ensures forall x | 0 <= x < n && row[x].robot.Some? :: row[x].robot.value.fitness <= PeakRow(row, n, p)
    ensures PeakRow(row, n, p) == p ||
      exists x | 0 <= x < n && row[x].robot.Some? :: row[x].robot.value.fitness == PeakRow(row, n, p)
  {
    if n > 0 {
      PeakRowIsMax(row, n - 1, p);
    }
  }

  /** PeakRows is the maximum of p and the fitness of every robot in the first m rows. */
  lemma {:induction false} PeakRowsIsMax(w: World, m: nat, p: int)
    requires m <= |w|
    ensures p <= PeakRows(w, m, p)
    ensures forall y, x | 0 <= y < m && 0 <= x < |w[y]| && w[y][x].robot.Some? :: w[y][x].robot.value.fitness <= PeakRows(w, m, p)
    ensures PeakRows(w, m, p) == p ||
      exists y, x | 0 <= y < m && 0 <= x < |w[y]| && w[y][x].robot.Some? :: w[y][x].robot.value.fitness == PeakRows(w, m, p)
  {
    if m > 0 {
      var q := PeakRows(w, m - 1, p);
      PeakRowsIsMax(w, m - 1, p);
      PeakRowIsMax(w[m - 1], |w[m - 1]|, q);
    }
  }

  /** CountRows, SumRows and PeakRows look only at the rows they count. */
  lemma {:induction false} RowsPrefix(w: World, m: nat, p: int)
    requires m < |w|
    ensures CountRows(w, m) == CountRows(w[..m], m)
    ensures SumRows(w, m) == SumRows(w[..m], m)
    ensures PeakRows(w, m, p) == PeakRows(w[..m], m, p)
  {
    if m > 0 {
      RowsPrefix(w, m - 1, p);
      RowsPrefix(w[..m], m - 1, p);
      assert w[..m][..m - 1] == w[..m - 1];
    }
  }

  /** The whole aging pass over a world, from a zero tally. */
  function AgeWorld(w: World, maxAge: int, cycle: nat, log: seq<LogEntry>): AgedWorld {
    AgeRows(w, |w|, maxAge, cycle, Tally(0, 0, 0), log)
  }

  /** v is w after the aging pass, cell by cell. */
  predicate AgedFrom(v: World, w: World, maxAge: int) {
    SameShape(v, w) && forall y, x | 0 <= y < |w| && 0 <= x < |w[y]| :: v[y][x] == AgedOne(w[y][x], maxAge)
  }

  lemma AgeWorldIsAged(w: World, maxAge: int, cycle: nat, log: seq<LogEntry>)
    ensures AgedFrom(AgeWorld(w, maxAge, cycle, log).world, w, maxAge)
  {
  }

  /** Aging keeps every robot invariant: robots only lose cells and change age. */
  lemma AgedKeepsInhabited(v: World, w: World, next: nat, maxAge: int)
    requires AgedFrom(v, w, maxAge) && Inhabited(w, next)
    ensures Inhabited(v, next)
  {
    forall y, x, j, i |
      && 0 <= y < |v| && 0 <= x < |v[y]| && v[y][x].robot.Some?
      && 0 <= j < |v| && 0 <= i < |v[j]| && v[j][i].robot.Some?
      && v[y][x].robot.value.id == v[j][i].robot.value.id
      ensures y == j && x == i
    {
      assert v[y][x] == AgedOne(w[y][x], maxAge) && v[j][i] == AgedOne(w[j][i], maxAge);
    }
  }

  /**
   * After aging, every remaining robot is at most maxAge old, and terrain,
   * coolData and visits are as before (so the master stays where it was).
   */
  lemma AgedKeepsCells(v: World, w: World, maxAge: int, mx: int, my: int)
    requires AgedFrom(v, w, maxAge)
    ensures AgesAtMost(v, maxAge)
    ensures MasterOnlyAt(w, mx, my) ==> MasterOnlyAt(v, mx, my)
    ensures forall y, x | 0 <= y < |w| && 0 <= x < |w[y]| ::
      v[y][x].terrain == w[y][x].terrain && v[y][x].coolData == w[y][x].coolData && v[y][x].visits == w[y][x].visits
  {
  }

  /** A robot's place in the collection: its cell and its id. */
  datatype Site = Site(x: nat, y: nat, id: nat)

  /** The sites of the robots among the first n cells of row y, left to right. */
  function RowSites(row: seq<Cell>, y: nat, n: nat): (s: seq<Site>)
    requires n <= |row|
    ensures |s| == CountRow(row, n)
    ensures forall k | 0 <= k < |s| ::
      s[k].y == y && s[k].x < n && row[s[k].x].robot.Some? && row[s[k].x].robot.value.id == s[k].id
    ensures forall x | 0 <= x < n && row[x].robot.Some? :: Site(x, y, row[x].robot.value.id) in s
    ensures forall k, l | 0 <= k < l < |s| :: s[k].x < s[l].x
  {
    if n == 0 then []
    else
      var prev := RowSites(row, y, n - 1);
      if row[n - 1].robot.Some? then prev + [Site(n - 1, y, row[n - 1].robot.value.id)] else prev
  }

  /** The sites of the robots in the first m rows, row-major. */
  function Sites(w: World, m: nat): (s: seq<Site>)
    requires m <= |w|
    ensures |s| == CountRows(w, m)
    ensures forall k | 0 <= k < |s| ::
      s[k].y < m && InBounds(w, s[k].x, s[k].y) && w[s[k].y][s[k].x].robot.Some? && w[s[k].y][s[k].x].robot.value.id == s[k].id
    ensures forall y, x | 0 <= y < m && 0 <= x < |w[y]| && w[y][x].robot.Some? :: Site(x, y, w[y][x].robot.value.id) in s
    ensures RowMajor(s)
  {
    if m == 0 then []
    else
      var prev := Sites(w, m - 1);
      var row := RowSites(w[m - 1], m - 1, |w[m - 1]|);
      RowMajorAppend(prev, row, m - 1);
      prev + row
  }

  /** Sites in strictly increasing row-major position. */
  predicate RowMajor(s: seq<Site>) {
    forall k, l | 0 <= k < l < |s| :: s[k].y < s[l].y || (s[k].y == s[l].y && s[k].x < s[l].x)
  }

  /** Appending the sites of row y, left to right, after sites of earlier rows keeps row-major order. */
  lemma RowMajorAppend(prev: seq<Site>, row: seq<Site>, y: nat)
    requires RowMajor(prev) && forall k | 0 <= k < |prev| :: prev[k].y < y
    requires forall k | 0 <= k < |row| :: row[k].y == y
    requires forall k, l | 0 <= k < l < |row| :: row[k].x < row[l].x
    ensures RowMajor(prev + row)
  {
    var s := prev + row;
    forall k, l | 0 <= k < l < |s|
      ensures s[k].y < s[l].y || (s[k].y == s[l].y && s[k].x < s[l].x)
    {
      if l < |prev| {
      } else if k < |prev| {
        assert s[k] == prev[k] && s[l] == row[l - |prev|];
      } else {
        assert s[k] == row[k - |prev|] && s[l] == row[l - |prev|];
      }
    }
  }
}
