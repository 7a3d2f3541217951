/**
 * The acting pass of stepSimulation (app.js lines 328-392): each collected
 * robot, if it is still where it was collected, takes its turn: mining on a
 * hill, the master's test on the master cell, then one step in a random
 * direction, which moves it, or makes it mate with or attack the robot there.
 */
module Acting {
  import opened Optional
  import opened Random
  import opened Genome
  import opened Robots
  import opened Grid
  import opened Records
  import opened Resolvers
  import opened Aging

  /** An offset (dx, dy) to one of the eight neighbours of a cell. */
  type Direction = d: (int, int) | -1 <= d.0 <= 1 && -1 <= d.1 <= 1 && d != (0, 0) witness (1, 0)

  /** The eight neighbour offsets, in the source's order. */
  const Directions: seq<Direction> := [(-1, -1), (0, -1), (1, -1), (1, 0), (1, 1), (0, 1), (-1, 1), (-1, 0)]

  /** The state the acting pass changes: grid, generator, id counter, log and peak fitness. */
  datatype Arena = Arena(world: World, rng: bv32, nextId: nat, log: seq<LogEntry>, peak: int)

  /** The invariants of the acting pass, for a grid of the given size. */
  predicate Fits(ar: Arena, width: nat, height: nat) {
    Shaped(ar.world, width, height) && Inhabited(ar.world, ar.nextId) && |ar.log| <= LogLimit
  }

  /** The robot on (x, y) after its turn so far is of at most age k whenever k bounds the ages before. */
  ghost predicate AgesKept(v: World, w: World) {
    forall k: int | 0 <= k && AgesAtMost(w, k) :: AgesAtMost(v, k)
  }

  /** What one turn may do: keep the invariants, evolve the grid, keep ages, never lower the peak or the id counter. */
  ghost predicate Progress(r: Arena, ar: Arena, width: nat, height: nat) {
    && Fits(r, width, height)
    && Evolves(r.world, ar.world)
    && AgesKept(r.world, ar.world)
    && ar.peak <= r.peak
    && ar.nextId <= r.nextId
  }

  /** A put that keeps the invariants also makes progress. */
  lemma PutProgress(ar: Arena, r: Arena, width: nat, height: nat, x: int, y: int, c: Cell)
    requires Fits(ar, width, height) && InBounds(ar.world, x, y)
    requires c.terrain == ar.world[y][x].terrain && c.coolData >= ar.world[y][x].coolData
    requires c.robot.Some? ==> c.robot.value.age <= 0 || (ar.world[y][x].robot.Some? && c.robot.value.age <= ar.world[y][x].robot.value.age)
    requires r.world == Put(ar.world, x, y, c) && Inhabited(r.world, r.nextId) && |r.log| <= LogLimit
    requires ar.peak <= r.peak && ar.nextId <= r.nextId
    ensures Progress(r, ar, width, height)
  {
    forall k: int | 0 <= k && AgesAtMost(ar.world, k) ensures AgesAtMost(r.world, k) {
      PutEvolves(ar.world, x, y, c, k);
    }
    PutEvolves(ar.world, x, y, c, 0);
  }

  /** A turn that only advances the generator makes progress. */
  lemma ProgressRng(ar: Arena, t: bv32, width: nat, height: nat)
    requires Fits(ar, width, height)
    ensures Progress(ar.(rng := t), ar, width, height)
  {
  }

  lemma ProgressTrans(r2: Arena, r1: Arena, ar: Arena, width: nat, height: nat)
    requires Progress(r2, r1, width, height) && Progress(r1, ar, width, height)
    ensures Progress(r2, ar, width, height)
  {
    EvolvesTrans(r2.world, r1.world, ar.world);
  }

  /**
   * The mining rule for the robot on hill cell (x, y): on a strike its fitness
   * rises by 50, the strike is logged and the peak raised to its fitness.
   */
  function MineAt(ar: Arena, x: nat, y: nat, width: nat, height: nat, cycle: nat): (r: Arena)
    requires Fits(ar, width, height) && x < width && y < height && ar.world[y][x].robot.Some?
    ensures Progress(r, ar, width, height)
    ensures r.world[y][x].robot.Some? && r.world[y][x].robot.value.id == ar.world[y][x].robot.value.id
    ensures r.rng == ar.rng + 0x6d2b79f5
  {
    var m := Mine(ar.world[y][x].robot.value, ar.rng);
    var a1 := ar.(rng := m.next);
    ProgressRng(ar, m.next, width, height);
    if m.struck then
      var r := Strike(a1, x, y, m.robot, width, height, cycle);
      ProgressTrans(r, a1, ar, width, height);
      r
    else
      a1
  }

  /** Without a strike only the generator moves; a strike is logged with the richer robot. */
  lemma MineAtCases(ar: Arena, x: nat, y: nat, width: nat, height: nat, cycle: nat)
    requires Fits(ar, width, height) && x < width && y < height && ar.world[y][x].robot.Some?
    ensures var r, m := MineAt(ar, x, y, width, height, cycle), Mine(ar.world[y][x].robot.value, ar.rng);
      && (!m.struck ==> r == ar.(rng := m.next))
      && (m.struck ==> r == Strike(ar.(rng := m.next), x, y, m.robot, width, height, cycle))
  {
  }

  /**
   * A strike: the robot on (x, y) is replaced by its richer self, the strike
   * is logged, and the peak is raised to its fitness.
   */
  function Strike(ar: Arena, x: nat, y: nat, robot: Robot, width: nat, height: nat, cycle: nat): (r: Arena)
    requires Fits(ar, width, height) && x < width && y < height && ar.world[y][x].robot.Some?
    requires ValidRobot(robot) && robot.id == ar.world[y][x].robot.value.id && robot.age == ar.world[y][x].robot.value.age
    ensures Progress(r, ar, width, height)
    ensures r.world[y][x].robot == Some(robot) && r.rng == ar.rng
  {
    var c := ar.world[y][x].(robot := Some(robot));
    UniqueNotElsewhere(ar.world, x, y);
    PutKeepsInhabited(ar.world, ar.nextId, x, y, c);
    var r := Arena(Put(ar.world, x, y, c), ar.rng, ar.nextId,
                   AddLog(ar.log, LogEntry(MinedOre(robot.name, robot.number), cycle)),
                   if robot.fitness > ar.peak then robot.fitness else ar.peak);
    PutProgress(ar, r, width, height, x, y, c);
    r
  }

  /**
   * A strike rewrites only the robot on (x, y), logs it with the cycle and
   * raises the peak to its fitness; the generator and the id counter stay.
   */
  lemma StrikeEffect(ar: Arena, x: nat, y: nat, robot: Robot, width: nat, height: nat, cycle: nat)
    requires Fits(ar, width, height) && x < width && y < height && ar.world[y][x].robot.Some?
    requires ValidRobot(robot) && robot.id == ar.world[y][x].robot.value.id && robot.age == ar.world[y][x].robot.value.age
    ensures var r := Strike(ar, x, y, robot, width, height, cycle);
      && r.world == Put(ar.world, x, y, ar.world[y][x].(robot := Some(robot)))
      && r.rng == ar.rng && r.nextId == ar.nextId
      && r.log == AddLog(ar.log, LogEntry(MinedOre(robot.name, robot.number), cycle))
      && r.peak == if robot.fitness > ar.peak then robot.fitness else ar.peak
  {
  }

  /**
   * confrontMaster for the robot on master cell (x, y), with its log entry;
   * also says whether the robot survived.
   */
  datatype Turn = Turn(arena: Arena, survived: bool)

  function MasterAt(ar: Arena, x: nat, y: nat, width: nat, height: nat, cycle: nat): (t: Turn)
    requires Fits(ar, width, height) && x < width && y < height && ar.world[y][x].robot.Some?
    ensures Progress(t.arena, ar, width, height)
    ensures t.arena.rng == ar.rng
    ensures t.survived ==> t.arena.world[y][x].robot.Some? && t.arena.world[y][x].robot.value.id == ar.world[y][x].robot.value.id
  {
    var c := ConfrontMaster(ar.world, x, y);
    var r := ar.(world := c.world, log := AddLog(ar.log, LogEntry(c.event, cycle)));
    ConfrontMasterKeepsInhabited(ar.world, ar.nextId, x, y);
    PutProgress(ar, r, width, height, x, y, c.world[y][x]);
    Turn(r, c.survived)
  }

  /**
   * The master's test on the turn: the grid and the survival are those of
   * ConfrontMaster, its event is logged with the cycle, nothing else changes.
   */
  lemma MasterAtEffect(ar: Arena, x: nat, y: nat, width: nat, height: nat, cycle: nat)
    requires Fits(ar, width, height) && x < width && y < height && ar.world[y][x].robot.Some?
    ensures var t, c := MasterAt(ar, x, y, width, height, cycle), ConfrontMaster(ar.world, x, y);
      && t.survived == c.survived
      && t.arena == ar.(world := c.world, log := AddLog(ar.log, LogEntry(c.event, cycle)))
  {
  }

  /** The confrontation rewrites only cell (x, y). */
  lemma ConfrontMasterKeepsInhabited(w: World, next: nat, x: int, y: int)
    requires InBounds(w, x, y) && w[y][x].robot.Some? && Inhabited(w, next)
    ensures Inhabited(ConfrontMaster(w, x, y).world, next)
    ensures ConfrontMaster(w, x, y).world == Put(w, x, y, ConfrontMaster(w, x, y).world[y][x])
  {
    var cell := w[y][x];
    var r := cell.robot.value;
    if r.stats.interface >= cell.coolData {
      var gene := Upgrade(r.gene);
      UniqueNotElsewhere(w, x, y);
      PutKeepsInhabited(w, next, x, y, cell.(coolData := r.stats.interface, robot := Some(r.(gene := gene, stats := ComputeStats(gene), age := 0))));
    } else {
      PutKeepsInhabited(w, next, x, y, cell.(robot := None));
    }
  }

  /**
   * Mating: findEmptyCell; if it finds a cell, the child of the robot on (x, y)
   * and the robot on (tx, ty) is placed there with one more visit, gets the
   * next id, and its birth is logged.
   */
  function Mate(ar: Arena, x: nat, y: nat, tx: nat, ty: nat, width: nat, height: nat, cycle: nat): (r: Arena)
    requires Fits(ar, width, height) && x < width && y < height && tx < width && ty < height
    requires ar.world[y][x].robot.Some? && ar.world[ty][tx].robot.Some?
    ensures Progress(r, ar, width, height)
  {
    var search := FindEmptyCell(ar.world, width, height, ar.rng);
    match search.spot
    case None =>
      ProgressRng(ar, search.next, width, height);
      ar.(rng := search.next)
    case Some(s) =>
      var child := ChildRobot(ar.world[y][x].robot.value, ar.world[ty][tx].robot.value, ar.nextId, search.next);
      var a1 := ar.(rng := child.next);
      ProgressRng(ar, child.next, width, height);
      var r := Birth(a1, s, child.robot, width, height, cycle);
      ProgressTrans(r, a1, ar, width, height);
      r
  }

  /**
   * Mating with no empty cell anywhere only advances the generator past the
   * search; otherwise the child of the two robots, built after the search's
   * draws with the next id, is born on the cell the search found.
   */
  lemma MateCases(ar: Arena, x: nat, y: nat, tx: nat, ty: nat, width: nat, height: nat, cycle: nat)
    requires Fits(ar, width, height) && x < width && y < height && tx < width && ty < height
    requires ar.world[y][x].robot.Some? && ar.world[ty][tx].robot.Some?
    ensures var r, search := Mate(ar, x, y, tx, ty, width, height, cycle), FindEmptyCell(ar.world, width, height, ar.rng);
      search.spot.None? ==> r == ar.(rng := search.next)
    ensures var r, search := Mate(ar, x, y, tx, ty, width, height, cycle), FindEmptyCell(ar.world, width, height, ar.rng);
      search.spot.Some? ==>
        var child := ChildRobot(ar.world[y][x].robot.value, ar.world[ty][tx].robot.value, ar.nextId, search.next);
        r == Birth(ar.(rng := child.next), search.spot.value, child.robot, width, height, cycle)
  {
  }

  /**
   * The child, built with the next id, is placed on the empty cell s with one
   * more visit, the id counter goes up, and the birth is logged.
   */
  function Birth(ar: Arena, s: Spot, child: Robot, width: nat, height: nat, cycle: nat): (r: Arena)
    requires Fits(ar, width, height) && InBounds(ar.world, s.x, s.y) && ar.world[s.y][s.x].robot.None?
    requires ValidRobot(child) && child.id == ar.nextId && child.age == 0
    ensures Progress(r, ar, width, height)
  {
    var target := ar.world[s.y][s.x];
    var c := target.(robot := Some(child), visits := target.visits + 1);
    InhabitedGrows(ar.world, ar.nextId, ar.nextId + 1);
    PutKeepsInhabited(ar.world, ar.nextId + 1, s.x, s.y, c);
    var r := Arena(Put(ar.world, s.x, s.y, c), ar.rng, ar.nextId + 1,
                   AddLog(ar.log, LogEntry(Born(child.name, child.number, child.mark), cycle)), ar.peak);
    PutProgress(ar, r, width, height, s.x, s.y, c);
    r
  }

  /**
   * A birth fills only the empty cell s, with the child and one more visit;
   * the id counter goes up by one, the birth is logged, the generator and the
   * peak stay.
   */
  lemma BirthEffect(ar: Arena, s: Spot, child: Robot, width: nat, height: nat, cycle: nat)
    requires Fits(ar, width, height) && InBounds(ar.world, s.x, s.y) && ar.world[s.y][s.x].robot.None?
    requires ValidRobot(child) && child.id == ar.nextId && child.age == 0
    ensures var r := Birth(ar, s, child, width, height, cycle);
      && r.world == Put(ar.world, s.x, s.y, ar.world[s.y][s.x].(robot := Some(child), visits := ar.world[s.y][s.x].visits + 1))
      && r.nextId == ar.nextId + 1 && r.rng == ar.rng && r.peak == ar.peak
      && r.log == AddLog(ar.log, LogEntry(Born(child.name, child.number, child.mark), cycle))
  {
  }

  /**
   * Attacking: combat between the robot on (x, y) and the robot on (tx, ty).
   * An attacker that wins takes the target cell (the defender is gone) with
   * one more visit; a defender that wins stays and the attacker is gone; the
   * winner is logged and the peak raised to its fitness; a draw changes nothing.
   */
  function Attack(ar: Arena, x: nat, y: nat, tx: nat, ty: nat, width: nat, height: nat, cycle: nat): (r: Arena)
    requires Fits(ar, width, height) && x < width && y < height && tx < width && ty < height && (x != tx || y != ty)
    requires ar.world[y][x].robot.Some? && ar.world[ty][tx].robot.Some?
    ensures Progress(r, ar, width, height)
  {
    var a := ar.world[y][x].robot.value;
    var d := ar.world[ty][tx].robot.value;
    var f := Combat(a, d, ar.rng);
    CombatChangesOnlyWinner(a, d, ar.rng);
    var a1 := ar.(rng := f.next);
    ProgressRng(ar, f.next, width, height);
    var r := Settle(a1, x, y, tx, ty, f.outcome, f.attacker, f.defender, width, height, cycle);
    ProgressTrans(r, a1, ar, width, height);
    r
  }

  /** An attack is the fight Combat resolves, settled on the grid after its draws. */
  lemma AttackSettles(ar: Arena, x: nat, y: nat, tx: nat, ty: nat, width: nat, height: nat, cycle: nat)
    requires Fits(ar, width, height) && x < width && y < height && tx < width && ty < height && (x != tx || y != ty)
    requires ar.world[y][x].robot.Some? && ar.world[ty][tx].robot.Some?
    ensures var f := Combat(ar.world[y][x].robot.value, ar.world[ty][tx].robot.value, ar.rng);
      Attack(ar, x, y, tx, ty, width, height, cycle)
        == Settle(ar.(rng := f.next), x, y, tx, ty, f.outcome, f.attacker, f.defender, width, height, cycle)
  {
  }

  /**
   * The end of a fight between the robot on (x, y) and the robot on (tx, ty),
   * given the outcome and both robots afterwards.
   */
  function Settle(ar: Arena, x: nat, y: nat, tx: nat, ty: nat, outcome: Outcome, attacker: Robot, defender: Robot,
                  width: nat, height: nat, cycle: nat): (r: Arena)
    requires Fits(ar, width, height) && x < width && y < height && tx < width && ty < height && (x != tx || y != ty)
    requires ar.world[y][x].robot.Some? && ar.world[ty][tx].robot.Some?
    requires ValidRobot(attacker) && attacker.id == ar.world[y][x].robot.value.id && attacker.age == ar.world[y][x].robot.value.age
    requires ValidRobot(defender) && defender.id == ar.world[ty][tx].robot.value.id && defender.age == ar.world[ty][tx].robot.value.age
    ensures Progress(r, ar, width, height)
  {
    var a := ar.world[y][x].robot.value;
    var d := ar.world[ty][tx].robot.value;
    match outcome
    case AttackerWins =>
      var w1 := Put(ar.world, x, y, ar.world[y][x].(robot := Some(attacker)));
      var r := Arena(MoveRobot(w1, x, y, tx, ty), ar.rng, ar.nextId,
                     AddLog(ar.log, LogEntry(WinsCombat(a.name, a.number), cycle)),
                     if attacker.fitness > ar.peak then attacker.fitness else ar.peak);
      AttackerWinsProgress(ar, r, x, y, tx, ty, width, height, attacker);
      r
    case DefenderWins =>
      var w1 := Put(ar.world, tx, ty, ar.world[ty][tx].(robot := Some(defender)));
      var r := Arena(Put(w1, x, y, w1[y][x].(robot := None)), ar.rng, ar.nextId,
                     AddLog(ar.log, LogEntry(Defends(d.name, d.number), cycle)),
                     if defender.fitness > ar.peak then defender.fitness else ar.peak);
      DefenderWinsProgress(ar, r, x, y, tx, ty, width, height, defender);
      r
    case Tie =>
      ar
  }

  /**
   * Where the robots are after a fight: a draw changes nothing; otherwise the
   * attacker's cell is emptied and the target cell holds the winner (a winning
   * attacker with one more visit there), the winner is logged and the peak is
   * raised to its fitness. No other cell changes and no draw is made.
   */
  lemma SettlePlaces(ar: Arena, x: nat, y: nat, tx: nat, ty: nat, outcome: Outcome, attacker: Robot, defender: Robot,
                     width: nat, height: nat, cycle: nat)
    requires Fits(ar, width, height) && x < width && y < height && tx < width && ty < height && (x != tx || y != ty)
    requires ar.world[y][x].robot.Some? && ar.world[ty][tx].robot.Some?
    requires ValidRobot(attacker) && attacker.id == ar.world[y][x].robot.value.id && attacker.age == ar.world[y][x].robot.value.age
    requires ValidRobot(defender) && defender.id == ar.world[ty][tx].robot.value.id && defender.age == ar.world[ty][tx].robot.value.age
    ensures var r := Settle(ar, x, y, tx, ty, outcome, attacker, defender, width, height, cycle);
      && r.rng == ar.rng && r.nextId == ar.nextId
      && (outcome == Tie ==> r == ar)
    ensures var r, a := Settle(ar, x, y, tx, ty, outcome, attacker, defender, width, height, cycle), ar.world[y][x].robot.value;
      outcome == AttackerWins ==>
        && r.world == Put(Put(ar.world, x, y, ar.world[y][x].(robot := None)), tx, ty,
                          ar.world[ty][tx].(robot := Some(attacker), visits := ar.world[ty][tx].visits + 1))
        && r.log == AddLog(ar.log, LogEntry(WinsCombat(a.name, a.number), cycle))
        && r.peak == (if attacker.fitness > ar.peak then attacker.fitness else ar.peak)
    ensures var r, d := Settle(ar, x, y, tx, ty, outcome, attacker, defender, width, height, cycle), ar.world[ty][tx].robot.value;
      outcome == DefenderWins ==>
        && r.world == Put(Put(ar.world, x, y, ar.world[y][x].(robot := None)), tx, ty,
                          ar.world[ty][tx].(robot := Some(defender)))
        && r.log == AddLog(ar.log, LogEntry(Defends(d.name, d.number), cycle))
        && r.peak == (if defender.fitness > ar.peak then defender.fitness else ar.peak)
  {
    var r := Settle(ar, x, y, tx, ty, outcome, attacker, defender, width, height, cycle);
    match outcome
    case AttackerWins =>
      var c := ar.world[y][x].(robot := Some(attacker));
      var w1: World := Put(ar.world, x, y, c);
      assert r.world == MoveRobot(w1, x, y, tx, ty);
      MoveRobotEffect(w1, x, y, tx, ty);
      PutPut(ar.world, x, y, c, x, y, ar.world[y][x].(robot := None));
    case DefenderWins =>
      var c := ar.world[ty][tx].(robot := Some(defender));
      var w1: World := Put(ar.world, tx, ty, c);
      assert r.world == Put(w1, x, y, w1[y][x].(robot := None));
      PutPut(ar.world, tx, ty, c, x, y, ar.world[y][x].(robot := None));
    case Tie =>
  }

  /** The winning attacker, with its new fitness, moves onto the target cell. */
  lemma AttackerWinsProgress(ar: Arena, r: Arena, x: nat, y: nat, tx: nat, ty: nat, width: nat, height: nat, winner: Robot)
    requires Fits(ar, width, height) && x < width && y < height && tx < width && ty < height && (x != tx || y != ty)
    requires ar.world[y][x].robot.Some? && winner.id == ar.world[y][x].robot.value.id && ValidRobot(winner)
    requires winner.age == ar.world[y][x].robot.value.age
    requires r.world == MoveRobot(Put(ar.world, x, y, ar.world[y][x].(robot := Some(winner))), x, y, tx, ty)
    requires r.nextId == ar.nextId && |r.log| <= LogLimit && ar.peak <= r.peak
    ensures Progress(r, ar, width, height)
  {
    var c := ar.world[y][x].(robot := Some(winner));
    var mid := ar.(world := Put(ar.world, x, y, c));
    UniqueNotElsewhere(ar.world, x, y);
    PutKeepsInhabited(ar.world, ar.nextId, x, y, c);
    PutProgress(ar, mid, width, height, x, y, c);
    MoveRobotKeepsInhabited(mid.world, ar.nextId, x, y, tx, ty);
    MoveRobotEvolves(mid.world, x, y, tx, ty, 0);
    forall k: int | 0 <= k && AgesAtMost(mid.world, k) ensures AgesAtMost(r.world, k) {
      MoveRobotEvolves(mid.world, x, y, tx, ty, k);
    }
    ProgressTrans(r, mid, ar, width, height);
  }

  /** The winning defender keeps its cell with its new fitness; the attacker's cell is emptied. */
  lemma DefenderWinsProgress(ar: Arena, r: Arena, x: nat, y: nat, tx: nat, ty: nat, width: nat, height: nat, winner: Robot)
    requires Fits(ar, width, height) && x < width && y < height && tx < width && ty < height && (x != tx || y != ty)
    requires ar.world[ty][tx].robot.Some? && winner.id == ar.world[ty][tx].robot.value.id && ValidRobot(winner)
    requires winner.age == ar.world[ty][tx].robot.value.age
    requires var w1 := Put(ar.world, tx, ty, ar.world[ty][tx].(robot := Some(winner)));
      r.world == Put(w1, x, y, w1[y][x].(robot := None))
    requires r.nextId == ar.nextId && |r.log| <= LogLimit && ar.peak <= r.peak
    ensures Progress(r, ar, width, height)
  {
    var c := ar.world[ty][tx].(robot := Some(winner));
    var mid := ar.(world := Put(ar.world, tx, ty, c));
    UniqueNotElsewhere(ar.world, tx, ty);
    PutKeepsInhabited(ar.world, ar.nextId, tx, ty, c);
    PutProgress(ar, mid, width, height, tx, ty, c);
    var e := mid.world[y][x].(robot := None);
    PutKeepsInhabited(mid.world, ar.nextId, x, y, e);
    PutProgress(mid, r, width, height, x, y, e);
    ProgressTrans(r, mid, ar, width, height);
  }

  /** MoveRobot keeps the robot invariants (the overwritten robot, if any, is gone). */
  lemma MoveRobotKeepsInhabited(w: World, next: nat, fx: int, fy: int, tx: int, ty: int)
    requires InBounds(w, fx, fy) && InBounds(w, tx, ty) && (fx != tx || fy != ty) && Inhabited(w, next)
    ensures Inhabited(MoveRobot(w, fx, fy, tx, ty), next)
  {
    MoveRobotEffect(w, fx, fy, tx, ty);
    var c2 := w[fy][fx].(robot := None);
    PutKeepsInhabited(w, next, fx, fy, c2);
    if w[fy][fx].robot.Some? {
      UniqueNotElsewhere(w, fx, fy);
      NotElsewhereAfterClear(w, w[fy][fx].robot.value.id, fx, fy, fx, fy, c2);
    }
    PutKeepsInhabited(Put(w, fx, fy, c2), next, tx, ty, w[ty][tx].(robot := w[fy][fx].robot, visits := w[ty][tx].visits + 1));
  }

  /**
   * The move part of a turn for the robot on (x, y): a random direction; a
   * target off the grid ends the turn; otherwise the robot meets the target.
   */
  function Wander(ar: Arena, x: nat, y: nat, width: nat, height: nat, cycle: nat): (r: Arena)
    requires Fits(ar, width, height) && x < width && y < height && ar.world[y][x].robot.Some?
    ensures Progress(r, ar, width, height)
    ensures r == Meet(ar.(rng := RandomChoice(ar.rng, Directions).next), x, y, RandomChoice(ar.rng, Directions).value, width, height, cycle)
  {
    var dir := RandomChoice(ar.rng, Directions);
    var a1 := ar.(rng := dir.next);
    ProgressRng(ar, dir.next, width, height);
    var r := Meet(a1, x, y, dir.value, width, height, cycle);
    ProgressTrans(r, a1, ar, width, height);
    r
  }

  /**
   * The turn after the direction d is drawn for the robot on (x, y): a target
   * off the grid ends it; an empty target is moved into; an occupied one is
   * approached.
   */
  function Meet(ar: Arena, x: nat, y: nat, d: Direction, width: nat, height: nat, cycle: nat): (r: Arena)
    requires Fits(ar, width, height) && x < width && y < height && ar.world[y][x].robot.Some?
    ensures Progress(r, ar, width, height)
  {
    var tx, ty := x + d.0, y + d.1;
    if tx < 0 || ty < 0 || tx >= width || ty >= height then
      ProgressRng(ar, ar.rng, width, height);
      ar
    else if ar.world[ty][tx].robot.None? then
      var r := ar.(world := MoveRobot(ar.world, x, y, tx, ty));
      MoveRobotKeepsInhabited(ar.world, ar.nextId, x, y, tx, ty);
      MoveRobotEvolves(ar.world, x, y, tx, ty, 0);
      forall k: int | 0 <= k && AgesAtMost(ar.world, k) ensures AgesAtMost(r.world, k) {
        MoveRobotEvolves(ar.world, x, y, tx, ty, k);
      }
      r
    else
      Approach(ar, x, y, tx, ty, width, height, cycle)
  }

  /** The robot on (x, y) approaches the robot on (tx, ty): randInt(2) chooses mating (0) or attacking (1). */
  function Approach(ar: Arena, x: nat, y: nat, tx: nat, ty: nat, width: nat, height: nat, cycle: nat): (r: Arena)
    requires Fits(ar, width, height) && x < width && y < height && tx < width && ty < height && (x != tx || y != ty)
    requires ar.world[y][x].robot.Some? && ar.world[ty][tx].robot.Some?
    ensures Progress(r, ar, width, height)
  {
    var desire := RandInt(ar.rng, 2);
    var a1 := ar.(rng := desire.next);
    ProgressRng(ar, desire.next, width, height);
    var r := if desire.value == 0 then Mate(a1, x, y, tx, ty, width, height, cycle)
             else Attack(a1, x, y, tx, ty, width, height, cycle);
    ProgressTrans(r, a1, ar, width, height);
    r
  }

  /** randInt(2) draws 0 for mating and 1 for an attack, after which that resolver runs. */
  lemma ApproachCases(ar: Arena, x: nat, y: nat, tx: nat, ty: nat, width: nat, height: nat, cycle: nat)
    requires Fits(ar, width, height) && x < width && y < height && tx < width && ty < height && (x != tx || y != ty)
    requires ar.world[y][x].robot.Some? && ar.world[ty][tx].robot.Some?
    ensures var r, desire := Approach(ar, x, y, tx, ty, width, height, cycle), RandInt(ar.rng, 2);
      && desire.value < 2
      && (desire.value == 0 ==> r == Mate(ar.(rng := desire.next), x, y, tx, ty, width, height, cycle))
      && (desire.value == 1 ==> r == Attack(ar.(rng := desire.next), x, y, tx, ty, width, height, cycle))
  {
  }

  /**
   * One robot's turn, for the site collected as (x, y, id): skipped unless
   * that robot is still on (x, y); then mining on a hill; the master's test on
   * the master cell, which ends the turn of a rejected robot; then the move.
   */
  function Act(ar: Arena, s: Site, width: nat, height: nat, cycle: nat): (r: Arena)
    requires Fits(ar, width, height) && s.x < width && s.y < height
    ensures Progress(r, ar, width, height)
  {
    var cell := ar.world[s.y][s.x];
    if cell.robot.None? || cell.robot.value.id != s.id then
      ProgressRng(ar, ar.rng, width, height);
      ar
    else
      var a1 := if cell.terrain == Hill then MineAt(ar, s.x, s.y, width, height, cycle) else ar;
      ProgressRng(ar, ar.rng, width, height);
      if cell.terrain == Master then
        var turn := MasterAt(a1, s.x, s.y, width, height, cycle);
        ProgressTrans(turn.arena, a1, ar, width, height);
        if turn.survived then
          var r := Wander(turn.arena, s.x, s.y, width, height, cycle);
          ProgressTrans(r, turn.arena, ar, width, height);
          r
        else turn.arena
      else
        var r := Wander(a1, s.x, s.y, width, height, cycle);
        ProgressTrans(r, a1, ar, width, height);
        r
  }

  /** A site whose robot has moved or gone is skipped: the turn changes nothing. */
  lemma ActSkipsStale(ar: Arena, s: Site, width: nat, height: nat, cycle: nat)
    requires Fits(ar, width, height) && s.x < width && s.y < height
    requires ar.world[s.y][s.x].robot.None? || ar.world[s.y][s.x].robot.value.id != s.id
    ensures Act(ar, s, width, height, cycle) == ar
  {
  }

  /**
   * A robot still on its site acts in the source's order: on a hill it mines
   * and then moves; on the master cell it takes the test and moves only if it
   * passed; anywhere else it just moves.
   */
  lemma ActOrder(ar: Arena, s: Site, width: nat, height: nat, cycle: nat)
    requires Fits(ar, width, height) && s.x < width && s.y < height
    requires ar.world[s.y][s.x].robot.Some? && ar.world[s.y][s.x].robot.value.id == s.id
    ensures var r, terrain := Act(ar, s, width, height, cycle), ar.world[s.y][s.x].terrain;
      && (terrain == Hill ==> r == Wander(MineAt(ar, s.x, s.y, width, height, cycle), s.x, s.y, width, height, cycle))
      && (terrain == Master ==>
            var turn := MasterAt(ar, s.x, s.y, width, height, cycle);
            r == if turn.survived then Wander(turn.arena, s.x, s.y, width, height, cycle) else turn.arena)
      && (terrain != Hill && terrain != Master ==> r == Wander(ar, s.x, s.y, width, height, cycle))
  {
  }

  /** Every site lies on a width × height grid. */
  predicate SitesIn(sites: seq<Site>, width: nat, height: nat) {
    forall k | 0 <= k < |sites| :: sites[k].x < width && sites[k].y < height
  }

  /** The turns of the first n sites, in order. */
  function ActAll(ar: Arena, sites: seq<Site>, n: nat, width: nat, height: nat, cycle: nat): (r: Arena)
    requires Fits(ar, width, height) && n <= |sites| && SitesIn(sites, width, height)
    ensures Progress(r, ar, width, height)
  {
    if n == 0 then
      ProgressRng(ar, ar.rng, width, height);
      ar
    else
      var prev := ActAll(ar, sites, n - 1, width, height, cycle);
      var r := Act(prev, sites[n - 1], width, height, cycle);
      ProgressTrans(r, prev, ar, width, height);
      r
  }
}
