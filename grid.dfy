/**
 * The world: a height × width grid of cells (app.js lines 216-252), each with
 * a terrain type, at most one robot, the master's coolData and a visit count.
 * Rows are indexed by y, cells within a row by x, as `state.world[y][x]`.
 */
module Grid {
  import opened Optional
  import opened Robots

  datatype Terrain = Field | Hill | Building | Master

  datatype Cell = Cell(terrain: Terrain, robot: Option<Robot>, coolData: int, visits: nat)

  type World = seq<seq<Cell>>

  predicate Shaped(w: World, width: nat, height: nat) {
    |w| == height && forall y | 0 <= y < height :: |w[y]| == width
  }

  predicate InBounds(w: World, x: int, y: int) {
    0 <= y < |w| && 0 <= x < |w[y]|
  }

  predicate SameShape(v: World, w: World) {
    |v| == |w| && forall y | 0 <= y < |w| :: |v[y]| == |w[y]|
  }

  /** The world with cell (x, y) replaced. */
  function Put(w: World, x: int, y: int, c: Cell): (v: World)
    requires InBounds(w, x, y)
    ensures SameShape(v, w)
    ensures v[y][x] == c
    ensures forall j, i | 0 <= j < |w| && 0 <= i < |w[j]| && (i != x || j != y) :: v[j][i] == w[j][i]
  {
    w[y := w[y][x := c]]
  }

  /** Every robot on the grid is well formed. */
  predicate RobotsValid(w: World) {
    forall y, x | 0 <= y < |w| && 0 <= x < |w[y]| && w[y][x].robot.Some? :: ValidRobot(w[y][x].robot.value)
  }

  /** Every robot on the grid has an id below `next`, the next id to be issued. */
  predicate IdsBelow(w: World, next: nat) {
    forall y, x | 0 <= y < |w| && 0 <= x < |w[y]| && w[y][x].robot.Some? :: w[y][x].robot.value.id < next
  }

  /** No robot id occupies two cells. */
  predicate IdsUnique(w: World) {
    forall y, x, j, i {:trigger w[y][x].robot.value.id, w[j][i].robot.value.id} |
      && 0 <= y < |w| && 0 <= x < |w[y]| && w[y][x].robot.Some?
      && 0 <= j < |w| && 0 <= i < |w[j]| && w[j][i].robot.Some?
      && w[y][x].robot.value.id == w[j][i].robot.value.id
      :: y == j && x == i
  }

  /** No cell other than (x, y) holds a robot with this id. */
  predicate NotElsewhere(w: World, id: nat, x: int, y: int) {
    forall j, i | 0 <= j < |w| && 0 <= i < |w[j]| && (i != x || j != y) && w[j][i].robot.Some? ::
      w[j][i].robot.value.id != id
  }

  /** The master cell is at m and nowhere else. */
  predicate MasterOnlyAt(w: World, mx: int, my: int) {
    && InBounds(w, mx, my)
    && forall y, x | 0 <= y < |w| && 0 <= x < |w[y]| :: (w[y][x].terrain == Master <==> x == mx && y == my)
  }

  /** Invariants every world the simulation builds or steps to satisfies. */
  predicate Inhabited(w: World, next: nat) {
    RobotsValid(w) && IdsBelow(w, next) && IdsUnique(w)
  }

  /**
   * Putting a cell keeps the robot invariants when its robot, if any, is valid,
   * below `next` and not present anywhere else.
   */
  lemma PutKeepsInhabited(w: World, next: nat, x: int, y: int, c: Cell)
    requires Inhabited(w, next) && InBounds(w, x, y)
    requires c.robot.Some? ==> ValidRobot(c.robot.value) && c.robot.value.id < next && NotElsewhere(w, c.robot.value.id, x, y)
    ensures Inhabited(Put(w, x, y, c), next)
  {
    var v: World := Put(w, x, y, c);
    forall y1, x1, j, i |
      && 0 <= y1 < |v| && 0 <= x1 < |v[y1]| && v[y1][x1].robot.Some?
      && 0 <= j < |v| && 0 <= i < |v[j]| && v[j][i].robot.Some?
      && v[y1][x1].robot.value.id == v[j][i].robot.value.id
      ensures y1 == j && x1 == i
    {
    }
  }

  /** A robot leaves (x, y) empty: no id is elsewhere than where it was. */
  lemma NotElsewhereAfterClear(w: World, id: nat, x: int, y: int, cx: int, cy: int, c: Cell)
    requires InBounds(w, cx, cy) && NotElsewhere(w, id, x, y) && c.robot.None?
    ensures NotElsewhere(Put(w, cx, cy, c), id, x, y)
  {
  }

  /** In a world with unique ids, the robot at (x, y) is nowhere else. */
  lemma UniqueNotElsewhere(w: World, x: int, y: int)
    requires IdsUnique(w) && InBounds(w, x, y) && w[y][x].robot.Some?
    ensures NotElsewhere(w, w[y][x].robot.value.id, x, y)
  {
  }

  /**
   * moveRobot: the target cell receives the source's robot and one more visit,
   * then the source cell is emptied (in that order, as the source assigns them).
   */
  function MoveRobot(w: World, fx: int, fy: int, tx: int, ty: int): (v: World)
    requires InBounds(w, fx, fy) && InBounds(w, tx, ty)
    ensures SameShape(v, w)
  {
    var w1: World := Put(w, tx, ty, w[ty][tx].(robot := w[fy][fx].robot));
    var w2: World := Put(w1, fx, fy, w1[fy][fx].(robot := None));
    Put(w2, tx, ty, w2[ty][tx].(visits := w2[ty][tx].visits + 1))
  }

  /** Puts at two different cells commute; a second put at the same cell overrides the first. */
  lemma PutPut(w: World, x1: int, y1: int, c1: Cell, x2: int, y2: int, c2: Cell)
    requires InBounds(w, x1, y1) && InBounds(w, x2, y2)
    ensures x1 == x2 && y1 == y2 ==> Put(Put(w, x1, y1, c1), x2, y2, c2) == Put(w, x2, y2, c2)
    ensures x1 != x2 || y1 != y2 ==> Put(Put(w, x1, y1, c1), x2, y2, c2) == Put(Put(w, x2, y2, c2), x1, y1, c1)
  {
    if y1 == y2 {
      if x1 == x2 {
        assert w[y1][x1 := c1][x2 := c2] == w[y1][x2 := c2];
      } else {
        assert w[y1][x1 := c1][x2 := c2] == w[y1][x2 := c2][x1 := c1];
      }
    }
  }

  /**
   * Moving between two distinct cells is emptying the source, then filling the
   * target with the moved robot and one more visit; nothing else changes.
   */
  lemma MoveRobotEffect(w: World, fx: int, fy: int, tx: int, ty: int)
    requires InBounds(w, fx, fy) && InBounds(w, tx, ty) && (fx != tx || fy != ty)
    ensures MoveRobot(w, fx, fy, tx, ty)
         == Put(Put(w, fx, fy, w[fy][fx].(robot := None)), tx, ty,
                w[ty][tx].(robot := w[fy][fx].robot, visits := w[ty][tx].visits + 1))
  {
    var c1 := w[ty][tx].(robot := w[fy][fx].robot);
    var w1: World := Put(w, tx, ty, c1);
    var c2 := w[fy][fx].(robot := None);
    var c3 := w[ty][tx].(robot := w[fy][fx].robot, visits := w[ty][tx].visits + 1);
    PutPut(w, tx, ty, c1, fx, fy, c2);
    PutPut(Put(w, fx, fy, c2), tx, ty, c1, tx, ty, c3);
  }

  /** A put that keeps the cell's terrain keeps the master's place. */
  lemma PutKeepsMaster(w: World, x: int, y: int, c: Cell, mx: int, my: int)
    requires InBounds(w, x, y) && MasterOnlyAt(w, mx, my) && c.terrain == w[y][x].terrain
    ensures MasterOnlyAt(Put(w, x, y, c), mx, my)
  {
  }

  /**
   * A move keeps every robot invariant and the master's place; a robot on the
   * target cell, if there was one, is overwritten.
   */
  lemma MoveRobotKeeps(w: World, next: nat, fx: int, fy: int, tx: int, ty: int, mx: int, my: int)
    requires InBounds(w, fx, fy) && InBounds(w, tx, ty) && (fx != tx || fy != ty)
    requires Inhabited(w, next)
    requires MasterOnlyAt(w, mx, my)
    ensures Inhabited(MoveRobot(w, fx, fy, tx, ty), next)
    ensures MasterOnlyAt(MoveRobot(w, fx, fy, tx, ty), mx, my)
  {
    MoveRobotEffect(w, fx, fy, tx, ty);
    var c2 := w[fy][fx].(robot := None);
    var v0: World := Put(w, fx, fy, c2);
    PutKeepsInhabited(w, next, fx, fy, c2);
    PutKeepsMaster(w, fx, fy, c2, mx, my);
    if w[fy][fx].robot.Some? {
      UniqueNotElsewhere(w, fx, fy);
      NotElsewhereAfterClear(w, w[fy][fx].robot.value.id, fx, fy, fx, fy, c2);
    }
    var c3 := w[ty][tx].(robot := w[fy][fx].robot, visits := w[ty][tx].visits + 1);
    PutKeepsInhabited(v0, next, tx, ty, c3);
    PutKeepsMaster(v0, tx, ty, c3, mx, my);
  }

  /** Every robot on the grid is at most maxAge old. */
  predicate AgesAtMost(w: World, maxAge: int) {
    forall y, x | 0 <= y < |w| && 0 <= x < |w[y]| && w[y][x].robot.Some? :: w[y][x].robot.value.age <= maxAge
  }

  /**
   * v came from w by steps that keep every cell's terrain and never lower a
   * cell's coolData.
   */
  predicate Evolves(v: World, w: World) {
    && SameShape(v, w)
    && forall y, x | 0 <= y < |w| && 0 <= x < |w[y]| ::
         v[y][x].terrain == w[y][x].terrain && v[y][x].coolData >= w[y][x].coolData
  }

  lemma EvolvesTrans(u: World, v: World, w: World)
    requires Evolves(u, v) && Evolves(v, w)
    ensures Evolves(u, w)
  {
  }

  /** Evolving keeps the master's place. */
  lemma EvolvesKeepsMaster(v: World, w: World, mx: int, my: int)
    requires Evolves(v, w) && MasterOnlyAt(w, mx, my)
    ensures MasterOnlyAt(v, mx, my)
  {
  }

  /**
   * A put that keeps the terrain, does not lower coolData and brings in no
   * robot older than k evolves the world and keeps ages at most k.
   */
  lemma PutEvolves(w: World, x: int, y: int, c: Cell, k: int)
    requires InBounds(w, x, y) && c.terrain == w[y][x].terrain && c.coolData >= w[y][x].coolData
    ensures Evolves(Put(w, x, y, c), w)
    ensures AgesAtMost(w, k) && (c.robot.Some? ==> c.robot.value.age <= k) ==> AgesAtMost(Put(w, x, y, c), k)
  {
  }

  /** A move evolves the world and keeps ages. */
  lemma MoveRobotEvolves(w: World, fx: int, fy: int, tx: int, ty: int, k: int)
    requires InBounds(w, fx, fy) && InBounds(w, tx, ty) && (fx != tx || fy != ty)
    ensures Evolves(MoveRobot(w, fx, fy, tx, ty), w)
    ensures AgesAtMost(w, k) ==> AgesAtMost(MoveRobot(w, fx, fy, tx, ty), k)
  {
    MoveRobotEffect(w, fx, fy, tx, ty);
    var c2 := w[fy][fx].(robot := None);
    var v0: World := Put(w, fx, fy, c2);
    PutEvolves(w, fx, fy, c2, k);
    var c3 := w[ty][tx].(robot := w[fy][fx].robot, visits := w[ty][tx].visits + 1);
    PutEvolves(v0, tx, ty, c3, k);
    EvolvesTrans(Put(v0, tx, ty, c3), v0, w);
  }

  /** Inhabited for one next id holds for every larger one. */
  lemma InhabitedGrows(w: World, next: nat, more: nat)
    requires Inhabited(w, next) && next <= more
    ensures Inhabited(w, more)
  {
  }
}
