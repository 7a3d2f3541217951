/**
 * createWorld (app.js lines 216-252): cells are made row by row, each with a
 * terrain roll and a spawn roll (a fresh robot when the spawn roll is below
 * the density); then one master cell is placed at a random position, whatever
 * it holds.
 */
module WorldGen {
  import opened Optional
  import opened Random
  import opened Robots
  import opened Grid

  /** Below 50 field, below 80 hill, otherwise building. */
  function TerrainFor(roll: nat): (k: Terrain)
    ensures k != Master
  {
    if roll < 50 then Field else if roll < 80 then Hill else Building
  }

  /** Cells built so far, the generator state and the next robot id. */
  datatype RowGen = RowGen(cells: seq<Cell>, next: bv32, nextId: nat)

  /** No robot id occurs twice in a row. */
  predicate RowIdsUnique(row: seq<Cell>) {
    forall x, i | 0 <= x < |row| && 0 <= i < |row| && row[x].robot.Some? && row[i].robot.Some? &&
      row[x].robot.value.id == row[i].robot.value.id :: x == i
  }

  /** Every robot of the row is valid and its id lies in [lo, hi). */
  predicate RowRobotsIn(row: seq<Cell>, lo: nat, hi: nat) {
    forall x | 0 <= x < |row| && row[x].robot.Some? ::
      ValidRobot(row[x].robot.value) && lo <= row[x].robot.value.id < hi
  }

  /** A freshly generated cell: not the master, no coolData, visited once exactly when it holds a robot. */
  predicate Fresh(c: Cell) {
    c.terrain != Master && c.coolData == 0 && c.visits == (if c.robot.Some? then 1 else 0)
  }

  /** One cell of createWorld: the terrain roll, then the spawn roll, then (maybe) a new robot's draws. */
  function GenCell(t: bv32, nextId: nat, density: int): (g: RowGen)
    ensures |g.cells| == 1 && Fresh(g.cells[0])
    ensures g.cells[0].terrain == TerrainFor(RandInt(t, 100).value)
    ensures g.nextId == nextId + (if g.cells[0].robot.Some? then 1 else 0)
    ensures RowRobotsIn(g.cells, nextId, g.nextId)
    ensures var spawn := RandInt(RandInt(t, 100).next, 100);
      && (g.cells[0].robot.Some? <==> spawn.value < density)
      && (spawn.value < density ==> g.cells[0].robot.value == NewRobot(nextId, spawn.next).robot && g.next == NewRobot(nextId, spawn.next).next)
      && (spawn.value >= density ==> g.next == spawn.next)
  {
    var terrainRoll := RandInt(t, 100);
    var spawn := RandInt(terrainRoll.next, 100);
    if spawn.value < density then
      var built := NewRobot(nextId, spawn.next);
      RowGen([Cell(TerrainFor(terrainRoll.value), Some(built.robot), 0, 1)], built.next, nextId + 1)
    else
      RowGen([Cell(TerrainFor(terrainRoll.value), None, 0, 0)], spawn.next, nextId)
  }

  /** The first n cells of a row. */
  function GenRow(t: bv32, nextId: nat, density: int, n: nat): (g: RowGen)
    ensures |g.cells| == n
    ensures forall x | 0 <= x < n :: Fresh(g.cells[x])
    ensures nextId <= g.nextId
    ensures RowRobotsIn(g.cells, nextId, g.nextId) && RowIdsUnique(g.cells)
    ensures density <= 0 || density >= 100 ==> forall x | 0 <= x < n :: g.cells[x].robot.Some? == (density >= 100)
  {
    if n == 0 then RowGen([], t, nextId)
    else
      var prev := GenRow(t, nextId, density, n - 1);
      var c := GenCell(prev.next, prev.nextId, density);
      GenCellUniform(prev.next, prev.nextId, density);
      AppendUniform(prev.cells, c.cells, density <= 0 || density >= 100, density >= 100);
      AppendCellKeeps(prev.cells, c.cells, nextId, prev.nextId, c.nextId);
      RowGen(prev.cells + c.cells, c.next, c.nextId)
  }

  /** Appending a cell whose robot's id lies above the row's keeps ids in range and unique. */
  lemma AppendCellKeeps(row: seq<Cell>, cell: seq<Cell>, lo: nat, mid: nat, hi: nat)
    requires |cell| == 1 && lo <= mid <= hi
    requires RowRobotsIn(row, lo, mid) && RowIdsUnique(row) && RowRobotsIn(cell, mid, hi)
    ensures RowRobotsIn(row + cell, lo, hi) && RowIdsUnique(row + cell)
  {
    var r := row + cell;
    assert forall x | 0 <= x < |row| :: r[x] == row[x];
    assert r[|row|] == cell[0];
  }

  /** Rows built so far, the generator state and the next robot id. */
  datatype RowsGen = RowsGen(world: World, next: bv32, nextId: nat)

  /** Every robot of the world has an id of at least lo. */
  predicate IdsAtLeast(w: World, lo: nat) {
    forall y, x | 0 <= y < |w| && 0 <= x < |w[y]| && w[y][x].robot.Some? :: lo <= w[y][x].robot.value.id
  }

  /** The first m rows of the world. */
  function GenRows(t: bv32, nextId: nat, width: nat, density: int, m: nat): (g: RowsGen)
    ensures Shaped(g.world, width, m)
    ensures forall y, x | 0 <= y < m && 0 <= x < width :: Fresh(g.world[y][x])
    ensures nextId <= g.nextId
    ensures Inhabited(g.world, g.nextId) && IdsAtLeast(g.world, nextId)
    ensures density <= 0 || density >= 100 ==>
      forall y, x | 0 <= y < m && 0 <= x < width :: g.world[y][x].robot.Some? == (density >= 100)
  {
    if m == 0 then RowsGen([], t, nextId)
    else
      var prev := GenRows(t, nextId, width, density, m - 1);
      var row := GenRow(prev.next, prev.nextId, density, width);
      var w := prev.world + [row.cells];
      AppendRowKeeps(prev.world, row.cells, nextId, prev.nextId, row.nextId);
      AppendRowUniform(prev.world, row.cells, width, density <= 0 || density >= 100, density >= 100);
      AppendRowFresh(prev.world, row.cells, width);
      RowsGen(w, row.next, row.nextId)
  }

  /** Appending a row whose ids all lie above the world's keeps ids unique. */
  lemma AppendRowKeeps(w: World, row: seq<Cell>, lo: nat, mid: nat, hi: nat)
    requires Inhabited(w, mid) && IdsAtLeast(w, lo) && lo <= mid <= hi
    requires RowRobotsIn(row, mid, hi) && RowIdsUnique(row)
    ensures RobotsValid(w + [row]) && IdsBelow(w + [row], hi)
    ensures IdsUnique(w + [row])
    ensures IdsAtLeast(w + [row], lo)
    ensures Inhabited(w + [row], hi)
  {
    var v := w + [row];
    assert forall y | 0 <= y < |w| :: v[y] == w[y];
    assert v[|w|] == row;
  }

  /** The world createWorld returns, the master's position, and the counters after it. */
  datatype Created = Created(world: World, mx: nat, my: nat, next: bv32, nextId: nat)

  /**
   * createWorld: the rows, then masterX = randInt(width) and masterY =
   * randInt(height); that cell becomes the master with coolData 0.
   */
  function CreateWorld(t: bv32, nextId: nat, width: nat, height: nat, density: int): (c: Created)
    requires width > 0 && height > 0
    ensures Shaped(c.world, width, height)
    ensures MasterOnlyAt(c.world, c.mx, c.my)
    ensures Inhabited(c.world, c.nextId) && IdsAtLeast(c.world, nextId) && nextId <= c.nextId
    ensures forall y, x | 0 <= y < height && 0 <= x < width ::
      c.world[y][x].coolData == 0 && c.world[y][x].visits == (if c.world[y][x].robot.Some? then 1 else 0)
    ensures var rows := GenRows(t, nextId, width, density, height);
      && c.mx == RandInt(rows.next, width).value
      && c.my == RandInt(RandInt(rows.next, width).next, height).value
      && forall y, x | 0 <= y < height && 0 <= x < width :: c.world[y][x].robot == rows.world[y][x].robot
  {
    WithMaster(GenRows(t, nextId, width, density, height), width, height, nextId)
  }

  /** The rows with the master cell drawn and placed on them. */
  function WithMaster(rows: RowsGen, width: nat, height: nat, lo: nat): (c: Created)
    requires width > 0 && height > 0 && Shaped(rows.world, width, height)
    requires forall y, x | 0 <= y < height && 0 <= x < width :: Fresh(rows.world[y][x])
    requires Inhabited(rows.world, rows.nextId) && IdsAtLeast(rows.world, lo) && lo <= rows.nextId
    ensures Shaped(c.world, width, height)
    ensures MasterOnlyAt(c.world, c.mx, c.my)
    ensures Inhabited(c.world, c.nextId) && IdsAtLeast(c.world, lo) && lo <= c.nextId
    ensures forall y, x | 0 <= y < height && 0 <= x < width ::
      c.world[y][x].coolData == 0 && c.world[y][x].visits == (if c.world[y][x].robot.Some? then 1 else 0)
    ensures c.mx == RandInt(rows.next, width).value && c.my == RandInt(RandInt(rows.next, width).next, height).value
    ensures c.next == RandInt(RandInt(rows.next, width).next, height).next && c.nextId == rows.nextId
    ensures forall y, x | 0 <= y < height && 0 <= x < width :: c.world[y][x].robot == rows.world[y][x].robot
  {
    var mx := RandInt(rows.next, width);
    var my := RandInt(mx.next, height);
    var w := PlaceMaster(rows.world, width, height, rows.nextId, mx.value, my.value);
    Created(w, mx.value, my.value, my.next, rows.nextId)
  }

  /** The master cell replaces the terrain and coolData of the cell at (mx, my), and nothing else. */
  function PlaceMaster(w: World, width: nat, height: nat, next: nat, mx: nat, my: nat): (v: World)
    requires Shaped(w, width, height) && mx < width && my < height
    requires forall y, x | 0 <= y < height && 0 <= x < width :: Fresh(w[y][x])
    requires Inhabited(w, next)
    ensures Shaped(v, width, height)
    ensures MasterOnlyAt(v, mx, my)
    ensures Inhabited(v, next)
    ensures forall y, x | 0 <= y < height && 0 <= x < width :: v[y][x].robot == w[y][x].robot
    ensures forall y, x | 0 <= y < height && 0 <= x < width ::
      v[y][x].coolData == 0 && v[y][x].visits == (if v[y][x].robot.Some? then 1 else 0)
  {
    var c := w[my][mx].(terrain := Master, coolData := 0);
    PutKeepsInhabited(w, next, mx, my, c);
    var v := Put(w, mx, my, c);
    forall y, x | 0 <= y < height && 0 <= x < width
      ensures v[y][x].terrain == Master <==> x == mx && y == my
      ensures v[y][x].coolData == 0 && v[y][x].visits == (if v[y][x].robot.Some? then 1 else 0)
    {
      assert Fresh(w[y][x]);
      if x != mx || y != my {
        assert v[y][x] == w[y][x];
      }
    }
    v
  }

  /**
   * At the extreme densities every spawn roll agrees: at most 0 none is below
   * the density, at least 100 all are.
   */
  lemma GenCellUniform(t: bv32, nextId: nat, density: int)
    ensures density <= 0 || density >= 100 ==>
      forall x | 0 <= x < 1 :: GenCell(t, nextId, density).cells[x].robot.Some? == (density >= 100)
  {
  }

  /** Appending cells that agree on holding a robot to a row that agrees as well. */
  lemma AppendUniform(row: seq<Cell>, cells: seq<Cell>, uniform: bool, occupied: bool)
    requires uniform ==> forall x | 0 <= x < |row| :: row[x].robot.Some? == occupied
    requires uniform ==> forall x | 0 <= x < |cells| :: cells[x].robot.Some? == occupied
    ensures uniform ==> forall x | 0 <= x < |row + cells| :: (row + cells)[x].robot.Some? == occupied
  {
  }

  /** Appending a row that agrees on holding robots to a world that agrees as well. */
  lemma AppendRowUniform(w: World, row: seq<Cell>, width: nat, uniform: bool, occupied: bool)
    requires Shaped(w, width, |w|) && |row| == width
    requires uniform ==> forall y, x | 0 <= y < |w| && 0 <= x < width :: w[y][x].robot.Some? == occupied
    requires uniform ==> forall x | 0 <= x < width :: row[x].robot.Some? == occupied
    ensures uniform ==> forall y, x | 0 <= y < |w| + 1 && 0 <= x < width :: (w + [row])[y][x].robot.Some? == occupied
  {
    var v := w + [row];
    assert forall y | 0 <= y < |w| :: v[y] == w[y];
    assert v[|w|] == row;
  }

  /** Appending a row of fresh cells to a world of fresh cells. */
  lemma AppendRowFresh(w: World, row: seq<Cell>, width: nat)
    requires Shaped(w, width, |w|) && |row| == width
    requires forall y, x | 0 <= y < |w| && 0 <= x < width :: Fresh(w[y][x])
    requires forall x | 0 <= x < width :: Fresh(row[x])
    ensures forall y, x | 0 <= y < |w| + 1 && 0 <= x < width :: Fresh((w + [row])[y][x])
  {
    var v := w + [row];
    assert forall y | 0 <= y < |w| :: v[y] == w[y];
    assert v[|w|] == row;
  }

  /**
   * createWorld at the extreme densities: at most 0 gives a world without
   * robots, at least 100 a world with a robot on every cell.
   */
  lemma CreateWorldDensity(t: bv32, nextId: nat, width: nat, height: nat, density: int)
    requires width > 0 && height > 0
    ensures density <= 0 ==> forall y, x | 0 <= y < height && 0 <= x < width ::
      CreateWorld(t, nextId, width, height, density).world[y][x].robot.None?
    ensures density >= 100 ==> forall y, x | 0 <= y < height && 0 <= x < width ::
      CreateWorld(t, nextId, width, height, density).world[y][x].robot.Some?
  {
    var rows: RowsGen := GenRows(t, nextId, width, density, height);
    var w: World := CreateWorld(t, nextId, width, height, density).world;
    assert forall y, x | 0 <= y < height && 0 <= x < width :: w[y][x].robot == rows.world[y][x].robot;
  }
}
