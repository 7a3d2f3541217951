/**
 * What happens to one robot on its turn (app.js lines 334-340, 410-481):
 * the mining roll on a hill, the master's test, combat between two robots
 * and the search for an empty cell to place a newborn.
 */
module Resolvers {
  import opened Optional
  import opened Random
  import opened Genome
  import opened Robots
  import opened Grid
  import opened Records

  /** The robot after its mining roll, whether it struck ore, and the generator state. */
  datatype Mining = Mining(robot: Robot, struck: bool, next: bv32)

  /**
   * The mining rule on a hill: one randInt(20000) draw; ore is struck when
   * miningskill is above it, worth 50 fitness. Nothing is depleted.
   */
  function Mine(r: Robot, t: bv32): (m: Mining)
    ensures m.next == t + 0x6d2b79f5
    ensures m.struck <==> r.stats.miningskill > RandInt(t, 20000).value
    ensures m.robot == if m.struck then r.(fitness := r.fitness + 50) else r
    ensures ValidRobot(r) ==> ValidRobot(m.robot)
  {
    var roll := RandInt(t, 20000);
    var struck := r.stats.miningskill > roll.value;
    Mining(if struck then r.(fitness := r.fitness + 50) else r, struck, roll.next)
  }

  /** Ore can only be struck by a robot whose miningskill is positive, and always is at 20000 or more. */
  lemma MiningChance(r: Robot, t: bv32)
    ensures r.stats.miningskill <= 0 ==> !Mine(r, t).struck
    ensures r.stats.miningskill >= 20000 ==> Mine(r, t).struck
  {
  }

  /** The world after a master confrontation, whether the robot survived, and the log event. */
  datatype Confrontation = Confrontation(world: World, survived: bool, event: Event)

  /**
   * confrontMaster for the robot on the master cell (x, y): if its interface
   * reaches the cell's coolData, coolData becomes that interface, gene 6 rises
   * unless it is 255, the stats are recomputed and the age returns to 0;
   * otherwise the robot is removed.
   */
  function ConfrontMaster(w: World, x: int, y: int): (c: Confrontation)
    requires InBounds(w, x, y) && w[y][x].robot.Some? && ValidRobot(w[y][x].robot.value)
    ensures SameShape(c.world, w)
    ensures var cell, r := w[y][x], w[y][x].robot.value;
      && (c.survived <==> r.stats.interface >= cell.coolData)
      && c.world[y][x].terrain == cell.terrain
      && c.world[y][x].visits == cell.visits
      && c.world[y][x].coolData >= cell.coolData
      && (c.survived ==>
            && c.world[y][x].coolData == r.stats.interface
            && c.world[y][x].robot == Some(r.(gene := Upgrade(r.gene), stats := ComputeStats(Upgrade(r.gene)), age := 0))
            && c.event == Upgraded(r.name, r.number))
      && (!c.survived ==>
            && c.world[y][x] == cell.(robot := None)
            && c.event == Rejected(r.name, r.number))
    ensures forall j, i | 0 <= j < |w| && 0 <= i < |w[j]| && (i != x || j != y) :: c.world[j][i] == w[j][i]
  {
    var cell := w[y][x];
    var r := cell.robot.value;
    if r.stats.interface >= cell.coolData then
      var gene := Upgrade(r.gene);
      var upgraded := r.(gene := gene, stats := ComputeStats(gene), age := 0);
      Confrontation(Put(w, x, y, cell.(coolData := r.stats.interface, robot := Some(upgraded))), true,
                    Upgraded(r.name, r.number))
    else
      Confrontation(Put(w, x, y, cell.(robot := None)), false, Rejected(r.name, r.number))
  }

  /** A confrontation keeps the robot invariants and the master's place. */
  lemma ConfrontMasterKeeps(w: World, next: nat, x: int, y: int, mx: int, my: int)
    requires InBounds(w, x, y) && w[y][x].robot.Some? && Inhabited(w, next) && MasterOnlyAt(w, mx, my)
    ensures Inhabited(ConfrontMaster(w, x, y).world, next)
    ensures MasterOnlyAt(ConfrontMaster(w, x, y).world, mx, my)
  {
    var cell := w[y][x];
    var r := cell.robot.value;
    if r.stats.interface >= cell.coolData {
      var gene := Upgrade(r.gene);
      var c := cell.(coolData := r.stats.interface, robot := Some(r.(gene := gene, stats := ComputeStats(gene), age := 0)));
      UniqueNotElsewhere(w, x, y);
      PutKeepsInhabited(w, next, x, y, c);
      PutKeepsMaster(w, x, y, c, mx, my);
    } else {
      PutKeepsInhabited(w, next, x, y, cell.(robot := None));
      PutKeepsMaster(w, x, y, cell.(robot := None), mx, my);
    }
  }

  datatype Outcome = AttackerWins | DefenderWins | Tie

  /**
   * A fight's result: who won, both robots afterwards, the favors before and
   * after the disengage rule, and the generator state.
   */
  datatype Fight = Fight(outcome: Outcome, attacker: Robot, defender: Robot,
                         afavor: int, dfavor: int, initialDfavor: int, next: bv32)

  /** The favors after the sneak roll and the fight and armor terms. */
  function Afavor(a: Robot, d: Robot, sneak: int): int {
    (if sneak > 0 then 0 else 100) + a.stats.fightskill - d.stats.armorclass
  }

  function Dfavor(a: Robot, d: Robot, sneak: int): int {
    (if sneak > 0 then 20 else 0) + d.stats.fightskill - a.stats.armorclass
  }

  /**
   * combat: a sneak roll randInt(1000) against the defender's observantness
   * and the attacker's visibility and audibility gives 20 to the defender when
   * the attacker is noticed and 100 to the attacker otherwise; each side adds
   * its fightskill less the other's armorclass. If the attacker is ahead, a
   * second roll randInt(100) below 40 lets the defender disengage when its range
   * is at least the attacker's, which forces a draw. The side ahead wins and
   * gains the margin as fitness.
   */
  function Combat(a: Robot, d: Robot, t: bv32): (f: Fight)
    ensures f.outcome == AttackerWins <==> f.afavor > f.dfavor
    ensures f.outcome == DefenderWins <==> f.dfavor > f.afavor
    ensures f.outcome == Tie <==> f.afavor == f.dfavor
    ensures f.attacker == if f.outcome == AttackerWins then a.(fitness := a.fitness + (f.afavor - f.dfavor)) else a
    ensures f.defender == if f.outcome == DefenderWins then d.(fitness := d.fitness + (f.dfavor - f.afavor)) else d
    ensures var sneak := d.stats.observantness + (a.stats.visibility + a.stats.audibility) - RandInt(t, 1000).value;
      f.afavor == Afavor(a, d, sneak) && f.initialDfavor == Dfavor(a, d, sneak)
    ensures f.dfavor != f.initialDfavor <==>
      f.afavor > f.initialDfavor && RandInt(RandInt(t, 1000).next, 100).value < 40 && a.stats.range <= d.stats.range
    ensures f.dfavor != f.initialDfavor ==> f.dfavor == f.afavor
    ensures f.next == if f.afavor > f.initialDfavor then t + 0x6d2b79f5 + 0x6d2b79f5 else t + 0x6d2b79f5
  {
    var sneakRoll := RandInt(t, 1000);
    var sneak := d.stats.observantness + (a.stats.visibility + a.stats.audibility) - sneakRoll.value;
    var afavor := Afavor(a, d, sneak);
    var dfavor := Dfavor(a, d, sneak);
    var disengage :=
      if afavor > dfavor then
        var roll := RandInt(sneakRoll.next, 100);
        Picked(roll.value < 40 && a.stats.range <= d.stats.range, roll.next)
      else Picked(false, sneakRoll.next);
    var finalD := if disengage.value then afavor else dfavor;
    if afavor > finalD then
      Fight(AttackerWins, a.(fitness := a.fitness + (afavor - finalD)), d, afavor, finalD, dfavor, disengage.next)
    else if finalD > afavor then
      Fight(DefenderWins, a, d.(fitness := d.fitness + (finalD - afavor)), afavor, finalD, dfavor, disengage.next)
    else
      Fight(Tie, a, d, afavor, finalD, dfavor, disengage.next)
  }

  /**
   * Only the winner's fitness changes, by a positive margin; a draw changes
   * neither robot; combat keeps both robots valid.
   */
  lemma CombatChangesOnlyWinner(a: Robot, d: Robot, t: bv32)
    requires ValidRobot(a) && ValidRobot(d)
    ensures var f := Combat(a, d, t);
      && ValidRobot(f.attacker) && ValidRobot(f.defender)
      && (f.outcome == AttackerWins ==> f.attacker.fitness > a.fitness && f.defender == d)
      && (f.outcome == DefenderWins ==> f.defender.fitness > d.fitness && f.attacker == a)
      && (f.outcome == Tie ==> f.attacker == a && f.defender == d)
  {
  }

  /** The first empty cell of a row at or after column x. */
  function FirstEmptyInRow(row: seq<Cell>, x: nat): (r: Option<nat>)
    decreases |row| - x
    ensures r.Some? ==> x <= r.value < |row| && row[r.value].robot.None?
    ensures r.Some? ==> forall i | x <= i < r.value :: row[i].robot.Some?
    ensures r.None? ==> forall i | x <= i < |row| :: row[i].robot.Some?
  {
    if x >= |row| then None
    else if row[x].robot.None? then Some(x)
    else FirstEmptyInRow(row, x + 1)
  }

  datatype Spot = Spot(x: int, y: int)

  /** The row-major scan of findEmptyCell, from row y on. */
  function FirstEmpty(w: World, y: nat): (r: Option<Spot>)
    decreases |w| - y
    ensures r.Some? ==> InBounds(w, r.value.x, r.value.y) && r.value.y >= y && w[r.value.y][r.value.x].robot.None?
    ensures r.None? ==> forall j, i | y <= j < |w| && 0 <= i < |w[j]| :: w[j][i].robot.Some?
  {
    if y >= |w| then None
    else match FirstEmptyInRow(w[y], 0)
      case Some(x) => Some(Spot(x, y))
      case None => FirstEmpty(w, y + 1)
  }

  /** A found cell (if any) and the generator state after the search. */
  datatype Search = Search(spot: Option<Spot>, next: bv32)

  const ProbeCount := 40

  /**
   * The random probes of findEmptyCell, n of them left: each draws x then y and
   * stops at an empty cell.
   */
  function Probes(w: World, width: nat, height: nat, n: nat, t: bv32): (s: Search)
    requires Shaped(w, width, height) && width > 0 && height > 0
    ensures s.spot.Some? ==> InBounds(w, s.spot.value.x, s.spot.value.y) && w[s.spot.value.y][s.spot.value.x].robot.None?
  {
    if n == 0 then Search(None, t)
    else
      var x := RandInt(t, width);
      var y := RandInt(x.next, height);
      if w[y.value][x.value].robot.None? then Search(Some(Spot(x.value, y.value)), y.next)
      else Probes(w, width, height, n - 1, y.next)
  }

  /**
   * findEmptyCell: forty probes, then the row-major scan. The cell it returns
   * is in bounds and empty; it returns nothing only when every cell is occupied.
   */
  function FindEmptyCell(w: World, width: nat, height: nat, t: bv32): (s: Search)
    requires Shaped(w, width, height) && width > 0 && height > 0
    ensures s.spot.Some? ==> InBounds(w, s.spot.value.x, s.spot.value.y) && w[s.spot.value.y][s.spot.value.x].robot.None?
    ensures s.spot.None? <==> forall j, i | 0 <= j < |w| && 0 <= i < |w[j]| :: w[j][i].robot.Some?
  {
    var probed := Probes(w, width, height, ProbeCount, t);
    if probed.spot.Some? then probed
    else Search(FirstEmpty(w, 0), probed.next)
  }
}
