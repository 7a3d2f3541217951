/**
 * The simulation engine as the source runs it: one object holding the
 * configuration, the seed, the generator and the simulation state, whose
 * methods update that state in place (app.js lines 43-65, 123-127, 178-268,
 * 287-507). Every method is proved to leave exactly the state that the pure
 * model of the same operation computes, so the properties proved of the model
 * (in Step, Acting, Resolvers, Records and the rest) hold of the engine.
 */
module Engine {
  import opened Optional
  import opened Random
  import opened Genome
  import opened Robots
  import opened Grid
  import opened Records
  import opened WorldGen
  import opened Resolvers
  import opened Aging
  import opened Shuffle
  import opened Acting
  import opened Step

  class Simulation {
    /** config; its width and height never change. */
    const config: Config
    /** The generator behind state.rng; setting a seed re-seeds it. */
    const rng: Mulberry32
    var seed: seq<CodeUnit>
    var running: bool
    var cycle: nat
    /** robotIdCounter: the id the next robot built gets. */
    var nextId: nat
    var world: World
    /** state.master. */
    var mx: nat
    var my: nat
    var stats: Summary
    var history: History
    var log: seq<LogEntry>

    /** The state as the pure model of a step sees it. */
    function Snapshot(): Sim
      reads this, rng
    {
      Sim(cycle, running, rng.t, nextId, world, mx, my, stats, history, log)
    }

    /** The part of the state the acting pass changes, with the running peak fitness. */
    function Current(peak: int): Arena
      reads this, rng
    {
      Arena(world, rng.t, nextId, log, peak)
    }

    /** The fields that only the step's own summary, reset and seeding change, with the master's cell. */
    function Rest(): (nat, nat, nat, bool, Summary, History, seq<CodeUnit>)
      reads this
    {
      (mx, my, cycle, running, stats, history, seed)
    }

    predicate Valid()
      reads this, rng
    {
      ValidSim(Snapshot(), config)
    }

    /**
     * init: the seed is the clock's string, then a reset builds the first
     * world; the run starts paused.
     */
    constructor (clock: seq<CodeUnit>, cfg: Config)
      requires cfg.width > 0 && cfg.height > 0
      ensures Valid() && config == cfg && seed == clock && !running
      ensures var c := CreateWorld(Fnv1a(clock), 1, cfg.width, cfg.height, cfg.density);
        Snapshot() == Sim(0, false, c.next, c.nextId, c.world, c.mx, c.my, Summary(0, 0, 0), History([], [], []), [])
    {
      config := cfg;
      rng := new Mulberry32(0);
      seed := [];
      running := false;
      cycle := 0;
      nextId := 1;
      world := [];
      mx, my := 0, 0;
      stats := Summary(0, 0, 0);
      history := History([], [], []);
      log := [];
      new;
      SetSeed(clock, clock);
      Reset();
    }

    /**
     * setSeed(value): an empty value falls back to the clock's string; the
     * generator restarts from the FNV-1a hash of the seed. Nothing else changes.
     */
    method SetSeed(value: seq<CodeUnit>, clock: seq<CodeUnit>)
      modifies this, rng
      ensures seed == if value == [] then clock else value
      ensures rng.t == Fnv1a(seed)
      ensures Snapshot() == old(Snapshot()).(rng := rng.t)
    {
      seed := if value == [] then clock else value;
      var h := HashString(seed);
      rng.t := h;
    }

    /**
     * resetSimulation: cycle, statistics, history and log start over, ids
     * restart at 1, and a new world is built from the generator's current state.
     */
    method Reset()
      requires config.width > 0 && config.height > 0
      modifies this, rng
      ensures Valid()
      ensures var c := CreateWorld(old(rng.t), 1, config.width, config.height, config.density);
        Snapshot() == Sim(0, old(running), c.next, c.nextId, c.world, c.mx, c.my, Summary(0, 0, 0), History([], [], []), [])
      ensures seed == old(seed)
    {
      var c := BuildWorld(1, config.width, config.height, config.density, rng);
      Install(c);
    }

    /** The built world c becomes the state, with cycle, statistics, history and log cleared. */
    method Install(c: Created)
      requires config.width > 0 && config.height > 0 && rng.t == c.next
      requires Shaped(c.world, config.width, config.height) && Inhabited(c.world, c.nextId) && MasterOnlyAt(c.world, c.mx, c.my)
      modifies this
      ensures Valid() && seed == old(seed)
      ensures Snapshot() == Sim(0, old(running), c.next, c.nextId, c.world, c.mx, c.my, Summary(0, 0, 0), History([], [], []), [])
    {
      cycle := 0;
      stats := Summary(0, 0, 0);
      history := History([], [], []);
      log := [];
      world, mx, my, nextId := c.world, c.mx, c.my, c.nextId;
    }

    /** AddLog: the entry, stamped with the current cycle, goes first; a tenth entry drops the oldest. */
    method Log(e: Event)
      modifies this
      ensures log == AddLog(old(log), LogEntry(e, cycle))
      ensures world == old(world) && nextId == old(nextId) && Rest() == old(Rest())
    {
      log := [LogEntry(e, cycle)] + log;
      if |log| > LogLimit {
        log := log[..|log| - 1];
      }
    }

    /** trimHistory: the oldest entry of every series goes while there are more than 220. */
    method TrimHistory()
      modifies this
      ensures history == Trimmed(old(history))
      ensures world == old(world) && nextId == old(nextId) && log == old(log) && mx == old(mx) && my == old(my)
      ensures cycle == old(cycle) && running == old(running) && stats == old(stats) && seed == old(seed)
    {
      while |history.population| > HistoryLimit
        invariant Trimmed(history) == Trimmed(old(history))
        invariant world == old(world) && nextId == old(nextId) && log == old(log) && mx == old(mx) && my == old(my)
        invariant cycle == old(cycle) && running == old(running) && stats == old(stats) && seed == old(seed)
        decreases |history.population|
      {
        history := History(Shift(history.population), Shift(history.avg), Shift(history.peak));
      }
    }

    // -------------------------------------------------------------------------
    // The passes of a step

    /**
     * The aging pass: every robot gets one year older; one past maxAge shuts
     * down (logged) and leaves its cell; the others are counted, their fitness
     * summed and the peak fitness taken.
     */
    method AgeAll() returns (tally: Tally)
      requires Shaped(world, config.width, config.height)
      modifies this
      ensures AgedWorld(world, tally, log) == AgeWorld(old(world), config.maxAge, cycle, old(log))
      ensures nextId == old(nextId) && Rest() == old(Rest())
    {
      ghost var w0 := world;
      tally := Tally(0, 0, 0);
      for y := 0 to config.height
        invariant |world| == config.height && world[y..] == w0[y..]
        invariant AgedWorld(world[..y], tally, log) == AgeRows(w0, y, config.maxAge, cycle, Tally(0, 0, 0), old(log))
        invariant nextId == old(nextId) && Rest() == old(Rest())
      {
        tally := AgeRowAt(y, w0, tally, old(log));
      }
      assert world[..config.height] == world;
    }

    /** Row y of the aging pass, after rows 0 to y - 1 of the grid w0. */
    method AgeRowAt(y: nat, ghost w0: World, tally0: Tally, ghost log0: seq<LogEntry>) returns (tally: Tally)
      requires y < |world| == |w0| && world[y..] == w0[y..]
      requires AgedWorld(world[..y], tally0, log) == AgeRows(w0, y, config.maxAge, cycle, Tally(0, 0, 0), log0)
      modifies this
      ensures |world| == |w0| && world[y + 1..] == w0[y + 1..]
      ensures AgedWorld(world[..y + 1], tally, log) == AgeRows(w0, y + 1, config.maxAge, cycle, Tally(0, 0, 0), log0)
      ensures nextId == old(nextId) && Rest() == old(Rest())
    {
      ghost var done := world[..y];
      assert world[y] == w0[y];
      var row;
      row, tally := AgeRowOf(world[y], tally0);
      AgeRowsNext(w0, y, config.maxAge, cycle, Tally(0, 0, 0), log0);
      world := world[y := row];
      assert world[..y + 1] == done + [row];
      assert world[y + 1..] == old(world)[y + 1..];
    }

    /** One row of the aging pass, cell by cell, from the running tally. */
    method AgeRowOf(cells: seq<Cell>, tally0: Tally) returns (row: seq<Cell>, tally: Tally)
      modifies this
      ensures AgedRow(row, tally, log) == AgeRow(cells, |cells|, config.maxAge, cycle, tally0, old(log))
      ensures world == old(world) && nextId == old(nextId) && Rest() == old(Rest())
    {
      row, tally := [], tally0;
      for x := 0 to |cells|
        invariant AgedRow(row, tally, log) == AgeRow(cells, x, config.maxAge, cycle, tally0, old(log))
        invariant world == old(world) && nextId == old(nextId) && Rest() == old(Rest())
      {
        var aged;
        aged, tally := AgeCellOf(cells[x], tally);
        row := row + [aged];
      }
    }

    /** One cell of the aging pass, from the running tally. */
    method AgeCellOf(cell: Cell, tally0: Tally) returns (aged: Cell, tally: Tally)
      modifies this
      ensures AgedCell(aged, tally, log) == AgeCell(cell, config.maxAge, cycle, tally0, old(log))
      ensures world == old(world) && nextId == old(nextId) && Rest() == old(Rest())
    {
      aged, tally := cell, tally0;
      if cell.robot.Some? {
        var robot := cell.robot.value.(age := cell.robot.value.age + 1);
        if robot.age > config.maxAge {
          Log(ShutDown(robot.name, robot.number));
          aged := cell.(robot := None);
        } else {
          aged := cell.(robot := Some(robot));
          tally := Tally(tally.population + 1, tally.sum + robot.fitness,
                         if robot.fitness > tally.peak then robot.fitness else tally.peak);
        }
      }
    }

    // -------------------------------------------------------------------------
    // The resolvers

    /** moveRobot: the target cell takes the robot and one more visit; the source is emptied. */
    method Move(fx: nat, fy: nat, tx: nat, ty: nat)
      requires InBounds(world, fx, fy) && InBounds(world, tx, ty)
      modifies this
      ensures world == MoveRobot(old(world), fx, fy, tx, ty)
      ensures nextId == old(nextId) && log == old(log) && Rest() == old(Rest())
    {
      var robot := world[fy][fx].robot;
      world := Put(world, tx, ty, world[ty][tx].(robot := robot));
      world := Put(world, fx, fy, world[fy][fx].(robot := None));
      world := Put(world, tx, ty, world[ty][tx].(visits := world[ty][tx].visits + 1));
    }

    /**
     * confrontMaster: a robot whose interface reaches the cell's coolData sets
     * coolData to it, gains a point of gene 6 (unless at 255), has its stats
     * recomputed and its age reset; any other robot is removed.
     */
    method FaceMaster(x: nat, y: nat) returns (survived: bool)
      requires InBounds(world, x, y) && world[y][x].robot.Some? && ValidRobot(world[y][x].robot.value)
      modifies this
      ensures var c := ConfrontMaster(old(world), x, y);
        world == c.world && survived == c.survived && log == AddLog(old(log), LogEntry(c.event, cycle))
      ensures nextId == old(nextId) && Rest() == old(Rest())
    {
      var cell := world[y][x];
      var robot := cell.robot.value;
      var required := cell.coolData;
      if robot.stats.interface >= required {
        var gene := robot.gene;
        if gene[UpgradeGene] < GeneMax {
          gene := gene[UpgradeGene := gene[UpgradeGene] + 1];
        }
        var upgraded := robot.(gene := gene, stats := ComputeStats(gene), age := 0);
        world := Put(world, x, y, cell.(coolData := robot.stats.interface, robot := Some(upgraded)));
        Log(Upgraded(robot.name, robot.number));
        survived := true;
      } else {
        world := Put(world, x, y, cell.(robot := None));
        Log(Rejected(robot.name, robot.number));
        survived := false;
      }
    }

    // -------------------------------------------------------------------------
    // A robot's turn

    /** The mining roll of the robot on hill cell (x, y). */
    method TryMine(x: nat, y: nat, peak: int) returns (p: int)
      requires Fits(Current(peak), config.width, config.height) && x < config.width && y < config.height
      requires world[y][x].robot.Some?
      modifies this, rng
      ensures Current(p) == MineAt(old(Current(peak)), x, y, config.width, config.height, cycle)
      ensures Rest() == old(Rest())
    {
      ghost var m := Mine(world[y][x].robot.value, rng.t);
      var robot := world[y][x].robot.value;
      var roll := rng.NextInt(20000);
      assert m.struck <==> robot.stats.miningskill > roll;
      p := peak;
      if robot.stats.miningskill > roll {
        robot := robot.(fitness := robot.fitness + 50);
        world := Put(world, x, y, world[y][x].(robot := Some(robot)));
        if robot.fitness > p {
          p := robot.fitness;
        }
        Log(MinedOre(robot.name, robot.number));
      }
    }

    /** Mating of the robot on (x, y) with the robot on (tx, ty): the child goes to an empty cell, if any. */
    method Breed(x: nat, y: nat, tx: nat, ty: nat, ghost peak: int)
      requires Fits(Current(peak), config.width, config.height)
      requires x < config.width && y < config.height && tx < config.width && ty < config.height
      requires world[y][x].robot.Some? && world[ty][tx].robot.Some?
      modifies this, rng
      ensures Current(peak) == Mate(old(Current(peak)), x, y, tx, ty, config.width, config.height, cycle)
      ensures Rest() == old(Rest())
    {
      var spot := SearchEmptyCell(world, config.width, config.height, rng);
      if spot.Some? {
        var child := BuildChildRobot(world[y][x].robot.value, world[ty][tx].robot.value, nextId, rng);
        Deliver(spot.value, child, peak);
      }
    }

    /** The child takes the empty cell s with one more visit; the id counter goes up; the birth is logged. */
    method Deliver(s: Spot, child: Robot, ghost peak: int)
      requires Fits(Current(peak), config.width, config.height) && InBounds(world, s.x, s.y) && world[s.y][s.x].robot.None?
      requires ValidRobot(child) && child.id == nextId && child.age == 0
      modifies this
      ensures Current(peak) == Birth(old(Current(peak)), s, child, config.width, config.height, cycle)
      ensures Rest() == old(Rest())
    {
      nextId := nextId + 1;
      world := Put(world, s.x, s.y, world[s.y][s.x].(robot := Some(child), visits := world[s.y][s.x].visits + 1));
      Log(Born(child.name, child.number, child.mark));
    }

    /** The robot on (x, y) attacks the robot on (tx, ty). */
    method Engage(x: nat, y: nat, tx: nat, ty: nat, peak: int) returns (p: int)
      requires Fits(Current(peak), config.width, config.height)
      requires x < config.width && y < config.height && tx < config.width && ty < config.height && (x != tx || y != ty)
      requires world[y][x].robot.Some? && world[ty][tx].robot.Some?
      modifies this, rng
      ensures Current(p) == Attack(old(Current(peak)), x, y, tx, ty, config.width, config.height, cycle)
      ensures Rest() == old(Rest())
    {
      var a := world[y][x].robot.value;
      var d := world[ty][tx].robot.value;
      CombatChangesOnlyWinner(a, d, rng.t);
      var outcome, attacker, defender := RunCombat(a, d, rng);
      p := Resolve(x, y, tx, ty, outcome, attacker, defender, peak);
    }

    /** The end of the fight: the winner is logged and keeps or takes the target cell; a draw changes nothing. */
    method Resolve(x: nat, y: nat, tx: nat, ty: nat, outcome: Outcome, attacker: Robot, defender: Robot, peak: int) returns (p: int)
      requires Fits(Current(peak), config.width, config.height)
      requires x < config.width && y < config.height && tx < config.width && ty < config.height && (x != tx || y != ty)
      requires world[y][x].robot.Some? && world[ty][tx].robot.Some?
      requires ValidRobot(attacker) && attacker.id == world[y][x].robot.value.id && attacker.age == world[y][x].robot.value.age
      requires ValidRobot(defender) && defender.id == world[ty][tx].robot.value.id && defender.age == world[ty][tx].robot.value.age
      modifies this
      ensures Current(p) == Settle(old(Current(peak)), x, y, tx, ty, outcome, attacker, defender, config.width, config.height, cycle)
      ensures Rest() == old(Rest())
    {
      var a := world[y][x].robot.value;
      var d := world[ty][tx].robot.value;
      p := peak;
      if outcome == AttackerWins {
        Log(WinsCombat(a.name, a.number));
        if attacker.fitness > p {
          p := attacker.fitness;
        }
        world := Put(world, x, y, world[y][x].(robot := Some(attacker)));
        Move(x, y, tx, ty);
      } else if outcome == DefenderWins {
        Log(Defends(d.name, d.number));
        if defender.fitness > p {
          p := defender.fitness;
        }
        world := Put(world, tx, ty, world[ty][tx].(robot := Some(defender)));
        world := Put(world, x, y, world[y][x].(robot := None));
      }
    }

    /** The move part of a turn: a random direction; a target off the grid ends the turn. */
    method Roam(x: nat, y: nat, peak: int) returns (p: int)
      requires Fits(Current(peak), config.width, config.height) && x < config.width && y < config.height
      requires world[y][x].robot.Some?
      modifies this, rng
      ensures Current(p) == Wander(old(Current(peak)), x, y, config.width, config.height, cycle)
      ensures Rest() == old(Rest())
    {
      ghost var choice := RandomChoice(rng.t, Directions);
      var dir := rng.NextChoice(Directions);
      assert dir == choice.value && rng.t == choice.next;
      p := Encounter(x, y, dir, peak);
    }

    /** The turn after the direction d is drawn: off the grid, a move into an empty cell, else an approach. */
    method Encounter(x: nat, y: nat, d: Direction, peak: int) returns (p: int)
      requires Fits(Current(peak), config.width, config.height) && x < config.width && y < config.height
      requires world[y][x].robot.Some?
      modifies this, rng
      ensures Current(p) == Meet(old(Current(peak)), x, y, d, config.width, config.height, cycle)
      ensures !(0 <= x + d.0 < config.width && 0 <= y + d.1 < config.height) ==> Current(p) == old(Current(peak))
      ensures Rest() == old(Rest())
    {
      var tx, ty := x + d.0, y + d.1;
      p := peak;
      if 0 <= tx < config.width && 0 <= ty < config.height {
        p := Advance(x, y, d, peak);
      }
    }

    /** The robot on (x, y) heads one step in direction d to a cell inside the grid: a move when it is empty, else an approach. */
    method Advance(x: nat, y: nat, d: Direction, peak: int) returns (p: int)
      requires Fits(Current(peak), config.width, config.height) && x < config.width && y < config.height
      requires world[y][x].robot.Some? && 0 <= x + d.0 < config.width && 0 <= y + d.1 < config.height
      modifies this, rng
      ensures Current(p) == Meet(old(Current(peak)), x, y, d, config.width, config.height, cycle)
      ensures old(world[y + d.1][x + d.0].robot.None?) ==>
        && world == MoveRobot(old(world), x, y, x + d.0, y + d.1)
        && rng.t == old(rng.t) && nextId == old(nextId) && log == old(log) && p == peak
      ensures Rest() == old(Rest())
    {
      var tx, ty := x + d.0, y + d.1;
      p := peak;
      if world[ty][tx].robot.None? {
        assert Meet(Current(peak), x, y, d, config.width, config.height, cycle).world == MoveRobot(world, x, y, tx, ty);
        Move(x, y, tx, ty);
      } else {
        assert Meet(Current(peak), x, y, d, config.width, config.height, cycle) == Approach(Current(peak), x, y, tx, ty, config.width, config.height, cycle);
        p := Mingle(x, y, tx, ty, peak);
      }
    }

    /** The robot on (x, y) approaches the robot on (tx, ty): mating or combat. */
    method Mingle(x: nat, y: nat, tx: nat, ty: nat, peak: int) returns (p: int)
      requires Fits(Current(peak), config.width, config.height)
      requires x < config.width && y < config.height && tx < config.width && ty < config.height && (x != tx || y != ty)
      requires world[y][x].robot.Some? && world[ty][tx].robot.Some?
      modifies this, rng
      ensures Current(p) == Approach(old(Current(peak)), x, y, tx, ty, config.width, config.height, cycle)
      ensures Rest() == old(Rest())
    {
      p := peak;
      var desire := rng.NextInt(2);
      if desire == 0 {
        Breed(x, y, tx, ty, peak);
      } else {
        p := Engage(x, y, tx, ty, peak);
      }
    }

    /**
     * The turn of the robot collected at site: skipped unless it is still
     * there; mining on a hill; the master's test on the master cell, ending the
     * turn of a rejected robot; then the move.
     */
    method TakeTurn(site: Site, peak: int) returns (p: int)
      requires Fits(Current(peak), config.width, config.height) && site.x < config.width && site.y < config.height
      modifies this, rng
      ensures Current(p) == Act(old(Current(peak)), site, config.width, config.height, cycle)
      ensures Rest() == old(Rest())
    {
      var cell := world[site.y][site.x];
      p := peak;
      if cell.robot.None? || cell.robot.value.id != site.id {
        return;
      }
      if cell.terrain == Hill {
        p := TryMine(site.x, site.y, p);
      }
      if cell.terrain == Master {
        var survived := FaceMaster(site.x, site.y);
        if !survived {
          return;
        }
      }
      p := Roam(site.x, site.y, p);
    }

    // -------------------------------------------------------------------------
    // The step

    /**
     * stepSimulation: the state after it is the pure model's step of the state
     * before, and every invariant of the simulation still holds.
     */
    method StepOnce()
      requires Valid()
      modifies this, rng
      ensures Snapshot() == StepSim(old(Snapshot()), config)
      ensures Valid() && seed == old(seed)
    {
      ghost var s := Snapshot();
      var tally, items := BeginStep(s);
      var peak := ActPhase(items, tally.peak);
      StepDone(s, config, Start(s, config), items, Current(peak));
      Conclude(s, tally, peak);
      StepKeepsValid(s, config);
    }

    /**
     * The step up to the turns: the aging pass and the collapse check, then the
     * sites collected and shuffled; the state is where the turns start.
     */
    method BeginStep(ghost s: Sim) returns (tally: Tally, items: seq<Site>)
      requires s == Snapshot() && ValidSim(s, config)
      modifies this, rng
      ensures tally == Aged(s, config).tally && items == Order(s, config)
      ensures Current(tally.peak) == Start(s, config)
      ensures Fits(Start(s, config), config.width, config.height) && SitesIn(items, config.width, config.height)
      ensures cycle == s.cycle + 1 && running == (if tally.population <= 1 then false else s.running)
      ensures mx == s.mx && my == s.my && history == s.history && seed == old(seed)
    {
      tally := AgePhase(s);
      ghost var begun := Current(tally.peak);
      items := ShuffledSites(s);
      assert Current(tally.peak) == begun.(rng := rng.t);
      StartFits(s, config);
      OrderIn(s, config);
    }

    /** The step from s ends with the summary of the aging tally and the turns' peak. */
    method Conclude(ghost s: Sim, tally: Tally, peak: int)
      requires cycle == s.cycle + 1 && running == (if tally.population <= 1 then false else s.running)
      requires mx == s.mx && my == s.my && history == s.history
      modifies this
      ensures Snapshot() == Finish(s, tally, old(Current(peak))) && seed == old(seed)
    {
      Summarize(tally, peak);
    }

    /**
     * The end of a step: the summary from the aging tally and the turns' peak,
     * pushed onto the history, which is then trimmed.
     */
    method Summarize(tally: Tally, peak: int)
      modifies this
      ensures var avg := Average(tally.sum, tally.population);
        stats == Summary(tally.population, avg, peak) && history == Trimmed(Pushed(old(history), tally.population, avg, peak))
      ensures world == old(world) && nextId == old(nextId) && log == old(log) && mx == old(mx) && my == old(my)
      ensures cycle == old(cycle) && running == old(running) && seed == old(seed)
    {
      var avg := Average(tally.sum, tally.population);
      stats := Summary(tally.population, avg, peak);
      history := History(history.population + [tally.population], history.avg + [avg], history.peak + [peak]);
      TrimHistory();
    }

    /**
     * The first part of a step from state s: the cycle counter goes up, every
     * robot ages, and a population of at most one stops the run and logs the
     * collapse.
     */
    method AgePhase(ghost s: Sim) returns (tally: Tally)
      requires s == Snapshot() && ValidSim(s, config)
      modifies this
      ensures tally == Aged(s, config).tally && Current(tally.peak) == Begun(s, config)
      ensures cycle == s.cycle + 1 && running == (if tally.population <= 1 then false else s.running)
      ensures mx == old(mx) && my == old(my) && stats == old(stats) && history == old(history) && seed == old(seed)
    {
      cycle := cycle + 1;
      tally := AgeAll();
      ghost var aged := Aged(s, config);
      assert world == aged.world && tally == aged.tally && log == aged.log;
      if tally.population <= 1 {
        running := false;
        Log(Collapsed);
      }
    }

    /** The robots' sites after the aging pass of state s, row by row, shuffled with the generator. */
    method ShuffledSites(ghost s: Sim) returns (items: seq<Site>)
      requires Shaped(world, config.width, config.height)
      requires world == Aged(s, config).world && rng.t == s.rng
      modifies rng
      ensures items == Order(s, config) && rng.t == Start(s, config).rng
    {
      var sites := CollectSites(world, config.width, config.height);
      var order := new Site[|sites|](i requires 0 <= i < |sites| => sites[i]);
      assert order[..] == sites;
      ShuffleArray(order, rng);
      items := order[..];
    }

    /** The turns of the shuffled sites, in order. */
    method ActPhase(items: seq<Site>, peak0: int) returns (peak: int)
      requires Fits(Current(peak0), config.width, config.height) && SitesIn(items, config.width, config.height)
      modifies this, rng
      ensures Current(peak) == ActAll(old(Current(peak0)), items, |items|, config.width, config.height, cycle)
      ensures Rest() == old(Rest())
    {
      peak := peak0;
      for k := 0 to |items|
        invariant Current(peak) == ActAll(old(Current(peak0)), items, k, config.width, config.height, cycle)
        invariant Rest() == old(Rest())
      {
        peak := TakeTurn(items[k], peak);
      }
    }
  }

  // ---------------------------------------------------------------------------
  // Building robots and the world. robotIdCounter is passed in as `nextId`;
  // the caller advances it by the number of robots built.

  /** buildNewRobot: sixteen genes, three name letters and a number, drawn in that order. */
  method BuildNewRobot(id: nat, rng: Mulberry32) returns (robot: Robot)
    modifies rng
    ensures Built(robot, rng.t) == NewRobot(id, old(rng.t))
  {
    var genes := rng.NextInts(256, 16);
    var letters := rng.NextInts(26, 3);
    var number := rng.NextInt(256);
    robot := Robot(id, Letters(letters), number, 1, genes, 0, 0, ComputeStats(genes));
  }

  /**
   * The crossover of buildChildRobot: for each of the sixteen genes a roll in
   * [0, 1100); parent A's gene below 500, a fresh randInt(256) above 1000,
   * parent B's gene otherwise.
   */
  method CrossGenes(a: seq<int>, b: seq<int>, rng: Mulberry32) returns (genes: seq<int>, ghost rolls: seq<nat>)
    requires |a| >= GenomeLength && |b| >= GenomeLength
    modifies rng
    ensures Inherited(genes, rolls, rng.t) == Crossover(a, b, GenomeLength, old(rng.t))
  {
    genes, rolls := [], [];
    ghost var t0 := rng.t;
    for i := 0 to GenomeLength
      invariant Inherited(genes, rolls, rng.t) == Crossover(a, b, i, t0)
    {
      var roll := rng.NextInt(1100);
      var gene;
      if roll < 500 {
        gene := a[i];
      } else if roll > 1000 {
        gene := rng.NextInt(256);
      } else {
        gene := b[i];
      }
      genes, rolls := genes + [gene], rolls + [roll];
    }
  }

  /** buildChildRobot: the crossover, then name and number; the mark is one above the parents'. */
  method BuildChildRobot(a: Robot, b: Robot, id: nat, rng: Mulberry32) returns (child: Robot)
    requires ValidRobot(a) && ValidRobot(b)
    modifies rng
    ensures Built(child, rng.t) == ChildRobot(a, b, id, old(rng.t))
  {
    ghost var t := rng.t;
    ghost var crossed := Crossover(a.gene, b.gene, GenomeLength, t);
    var genes, rolls := CrossGenes(a.gene, b.gene, rng);
    assert genes == crossed.genes && rng.t == crossed.next;
    CrossoverValid(a.gene, b.gene, t);
    ghost var name := RandInts(crossed.next, 26, 3);
    var letters := rng.NextInts(26, 3);
    assert letters == name.values && rng.t == name.next;
    var number := rng.NextInt(256);
    assert number == RandInt(name.next, 256).value;
    var mark := (if a.mark >= b.mark then a.mark else b.mark) + 1;
    child := Robot(id, Letters(letters), number, mark, genes, 0, 0, ComputeStats(genes));
    ChildRobotParts(a, b, id, t);
  }

  /** One cell of createWorld: the terrain roll, the spawn roll, and a new robot below the density. */
  method GenerateCell(nextId: nat, density: int, rng: Mulberry32) returns (cell: Cell, next: nat)
    modifies rng
    ensures RowGen([cell], rng.t, next) == GenCell(old(rng.t), nextId, density)
  {
    var terrainRoll := rng.NextInt(100);
    var terrain := Field;
    if terrainRoll < 50 {
      terrain := Field;
    } else if terrainRoll < 80 {
      terrain := Hill;
    } else {
      terrain := Building;
    }
    cell, next := Cell(terrain, None, 0, 0), nextId;
    var spawnRoll := rng.NextInt(100);
    if spawnRoll < density {
      var robot := BuildNewRobot(nextId, rng);
      cell := cell.(robot := Some(robot), visits := cell.visits + 1);
      next := nextId + 1;
    }
  }

  /** One row of createWorld, left to right. */
  method GenerateRow(nextId: nat, width: nat, density: int, rng: Mulberry32) returns (row: seq<Cell>, next: nat)
    modifies rng
    ensures RowGen(row, rng.t, next) == GenRow(old(rng.t), nextId, density, width)
  {
    row, next := [], nextId;
    for x := 0 to width
      invariant RowGen(row, rng.t, next) == GenRow(old(rng.t), nextId, density, x)
    {
      var cell;
      cell, next := GenerateCell(next, density, rng);
      row := row + [cell];
    }
  }

  /** The rows of createWorld, top to bottom. */
  method GenerateRows(nextId: nat, width: nat, height: nat, density: int, rng: Mulberry32) returns (rows: World, next: nat)
    modifies rng
    ensures RowsGen(rows, rng.t, next) == GenRows(old(rng.t), nextId, width, density, height)
  {
    rows, next := [], nextId;
    for y := 0 to height
      invariant RowsGen(rows, rng.t, next) == GenRows(old(rng.t), nextId, width, density, y)
    {
      var row;
      row, next := GenerateRow(next, width, density, rng);
      rows := rows + [row];
    }
  }

  /** createWorld: the rows, then the master cell at (randInt(width), randInt(height)), coolData 0. */
  method BuildWorld(nextId: nat, width: nat, height: nat, density: int, rng: Mulberry32) returns (c: Created)
    requires width > 0 && height > 0
    modifies rng
    ensures c == CreateWorld(old(rng.t), nextId, width, height, density) && rng.t == c.next
  {
    var rows: World, next := GenerateRows(nextId, width, height, density, rng);
    var masterX := rng.NextInt(width);
    var masterY := rng.NextInt(height);
    rows := Put(rows, masterX, masterY, rows[masterY][masterX].(terrain := Master, coolData := 0));
    c := Created(rows, masterX, masterY, rng.t, next);
  }

  /** The collection pass of stepSimulation: the (x, y, id) of every robot, row by row. */
  method CollectSites(world: World, width: nat, height: nat) returns (sites: seq<Site>)
    requires Shaped(world, width, height)
    ensures sites == Sites(world, |world|)
  {
    sites := [];
    for y := 0 to height
      invariant sites == Sites(world, y)
    {
      var row := world[y];
      var found: seq<Site> := [];
      for x := 0 to width
        invariant found == RowSites(row, y, x)
      {
        RowSitesNext(row, y, x);
        if row[x].robot.Some? {
          found := found + [Site(x, y, row[x].robot.value.id)];
        }
      }
      SitesNext(world, y);
      sites := sites + found;
    }
  }

  lemma RowSitesNext(row: seq<Cell>, y: nat, x: nat)
    requires x < |row|
    ensures RowSites(row, y, x + 1)
      == RowSites(row, y, x) + (if row[x].robot.Some? then [Site(x, y, row[x].robot.value.id)] else [])
  {
  }

  lemma SitesNext(w: World, y: nat)
    requires y < |w|
    ensures Sites(w, y + 1) == Sites(w, y) + RowSites(w[y], y, |w[y]|)
  {
  }

  /**
   * combat: the sneak roll, the favors, the disengage roll (drawn only when
   * the attacker is ahead), and the winner's fitness gain.
   */
  method RunCombat(a: Robot, d: Robot, rng: Mulberry32) returns (outcome: Outcome, attacker: Robot, defender: Robot)
    modifies rng
    ensures var f := Combat(a, d, old(rng.t));
      outcome == f.outcome && attacker == f.attacker && defender == f.defender && rng.t == f.next
  {
    ghost var f := Combat(a, d, rng.t);
    ghost var sneakDraw := RandInt(rng.t, 1000);
    var afavor, dfavor := 0, 0;
    var sneakRoll := rng.NextInt(1000);
    var sneak := d.stats.observantness + (a.stats.visibility + a.stats.audibility) - sneakRoll;
    if sneak > 0 {
      dfavor := dfavor + 20;
    } else {
      afavor := afavor + 100;
    }
    afavor := afavor + a.stats.fightskill - d.stats.armorclass;
    dfavor := dfavor + d.stats.fightskill - a.stats.armorclass;
    assert sneakRoll == sneakDraw.value && rng.t == sneakDraw.next;
    assert afavor == Afavor(a, d, sneak) == f.afavor && dfavor == Dfavor(a, d, sneak) == f.initialDfavor;
    if afavor > dfavor {
      var roll := rng.NextInt(100);
      if roll < 40 && a.stats.range <= d.stats.range {
        dfavor := afavor;
      }
    }
    assert dfavor == f.dfavor && rng.t == f.next;
    attacker, defender := a, d;
    if afavor > dfavor {
      attacker := a.(fitness := a.fitness + (afavor - dfavor));
      outcome := AttackerWins;
    } else if dfavor > afavor {
      defender := d.(fitness := d.fitness + (dfavor - afavor));
      outcome := DefenderWins;
    } else {
      outcome := Tie;
    }
  }

  /** findEmptyCell: forty random probes, x then y, then a row-major scan. */
  method SearchEmptyCell(world: World, width: nat, height: nat, rng: Mulberry32) returns (spot: Option<Spot>)
    requires Shaped(world, width, height) && width > 0 && height > 0
    modifies rng
    ensures Search(spot, rng.t) == FindEmptyCell(world, width, height, old(rng.t))
  {
    for i := 0 to ProbeCount
      invariant Probes(world, width, height, ProbeCount, old(rng.t))
        == Probes(world, width, height, ProbeCount - i, rng.t)
    {
      var x := rng.NextInt(width);
      var y := rng.NextInt(height);
      if world[y][x].robot.None? {
        return Some(Spot(x, y));
      }
    }
    for y := 0 to height
      invariant FirstEmpty(world, 0) == FirstEmpty(world, y)
    {
      for x := 0 to width
        invariant FirstEmptyInRow(world[y], 0) == FirstEmptyInRow(world[y], x)
      {
        if world[y][x].robot.None? {
          return Some(Spot(x, y));
        }
      }
    }
    return None;
  }
}
