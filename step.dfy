/**
 * stepSimulation (app.js lines 287-408) as a function of the simulation's
 * state: the aging pass, the collapse check, the collection and shuffle of
 * robot sites, the turns, and the summary pushed onto the history.
 */
module Step {
  import opened Optional
  import opened Random
  import opened Robots
  import opened Grid
  import opened Records
  import opened Aging
  import opened Shuffle
  import opened Acting

  /** The configuration the step reads: grid size, maximum age, spawn density. */
  datatype Config = Config(width: nat, height: nat, maxAge: int, density: int)

  /** state.stats. */
  datatype Summary = Summary(population: nat, avgFitness: int, peakFitness: int)

  /** The simulation state a step reads and writes (the master's position included). */
  datatype Sim = Sim(
    cycle: nat,
    running: bool,
    rng: bv32,
    nextId: nat,
    world: World,
    mx: nat,
    my: nat,
    stats: Summary,
    history: History,
    log: seq<LogEntry>)

  /** What holds of every state the simulation reaches. */
  predicate ValidSim(s: Sim, cfg: Config) {
    && cfg.width > 0 && cfg.height > 0
    && Shaped(s.world, cfg.width, cfg.height)
    && Inhabited(s.world, s.nextId)
    && MasterOnlyAt(s.world, s.mx, s.my)
    && Balanced(s.history) && |s.history.population| <= HistoryLimit
    && |s.log| <= LogLimit
  }

  /** Math.floor(sum / population) when there is a population, else 0. */
  function Average(sum: int, population: nat): int {
    if population > 0 then sum / population else 0
  }

  /** A shuffle of sites that lie on the grid still lie on the grid. */
  lemma ShuffledSitesIn(sites: seq<Site>, t: bv32, width: nat, height: nat)
    requires SitesIn(sites, width, height)
    ensures SitesIn(ShuffleSpec(sites, t).items, width, height)
  {
    var items := ShuffleSpec(sites, t).items;
    ShufflePermutes(sites, t);
    forall k | 0 <= k < |items| ensures items[k].x < width && items[k].y < height {
      assert items[k] in multiset(items);
      assert items[k] in sites;
    }
  }

  /** The aging pass of the step at cycle `cycle`. */
  function Aged(s: Sim, cfg: Config): AgedWorld {
    AgeWorld(s.world, cfg.maxAge, s.cycle + 1, s.log)
  }

  /** The order of the turns: the sites of the robots left after aging, row by row, shuffled. */
  function Order(s: Sim, cfg: Config): seq<Site> {
    var aged := Aged(s, cfg);
    ShuffleSpec(Sites(aged.world, |aged.world|), s.rng).items
  }

  lemma OrderIn(s: Sim, cfg: Config)
    requires ValidSim(s, cfg)
    ensures SitesIn(Order(s, cfg), cfg.width, cfg.height)
  {
    StartFits(s, cfg);
    ShuffledSitesIn(Sites(Aged(s, cfg).world, |Aged(s, cfg).world|), s.rng, cfg.width, cfg.height);
  }

  /**
   * The state after the aging pass and the collapse check, before the shuffle:
   * the aged grid, the aged log with the collapse entry when at most one robot
   * is left, and the aging pass's peak fitness.
   */
  function Begun(s: Sim, cfg: Config): Arena {
    Opened(s, Aged(s, cfg))
  }

  /** The collapse check on a given aging result. */
  function Opened(s: Sim, aged: AgedWorld): Arena {
    var log := if aged.tally.population <= 1 then AddLog(aged.log, LogEntry(Collapsed, s.cycle + 1)) else aged.log;
    Arena(aged.world, s.rng, s.nextId, log, aged.tally.peak)
  }

  /** The collapse check keeps the acting pass's invariants of the aged grid. */
  lemma OpenedFits(s: Sim, aged: AgedWorld, width: nat, height: nat)
    requires Shaped(aged.world, width, height) && Inhabited(aged.world, s.nextId) && |aged.log| <= LogLimit
    ensures Fits(Opened(s, aged), width, height)
  {
  }

  /** The acting pass's starting state: Begun with the generator after the shuffle. */
  function Start(s: Sim, cfg: Config): Arena {
    var aged := Aged(s, cfg);
    Begun(s, cfg).(rng := ShuffleSpec(Sites(aged.world, |aged.world|), s.rng).next)
  }

  /**
   * The aging pass of a step: a robot stays in its cell, one year older, exactly
   * when its new age is at most maxAge; otherwise its cell is left empty.
   */
  lemma AgingPass(s: Sim, cfg: Config)
    ensures var v := Aged(s, cfg).world;
      && SameShape(v, s.world)
      && forall y, x | 0 <= y < |s.world| && 0 <= x < |s.world[y]| ::
        && (v[y][x].robot.Some? <==> s.world[y][x].robot.Some? && s.world[y][x].robot.value.age + 1 <= cfg.maxAge)
        && (v[y][x].robot.Some? ==> v[y][x].robot.value == s.world[y][x].robot.value.(age := s.world[y][x].robot.value.age + 1))
  {
    AgeWorldIsAged(s.world, cfg.maxAge, s.cycle + 1, s.log);
  }

  lemma StartFits(s: Sim, cfg: Config)
    requires ValidSim(s, cfg)
    ensures Fits(Start(s, cfg), cfg.width, cfg.height)
    ensures SitesIn(Sites(Aged(s, cfg).world, |Aged(s, cfg).world|), cfg.width, cfg.height)
  {
    BegunFits(s, cfg);
    AgedSitesIn(s, cfg);
  }

  /** The state after the aging pass and the collapse check meets the acting pass's invariants. */
  lemma BegunFits(s: Sim, cfg: Config)
    requires ValidSim(s, cfg)
    ensures Fits(Begun(s, cfg), cfg.width, cfg.height)
  {
    AgedFits(s.world, cfg.maxAge, s.cycle + 1, s.log, s.nextId, cfg.width, cfg.height);
    OpenedFits(s, Aged(s, cfg), cfg.width, cfg.height);
  }

  /** The sites collected after aging lie on the grid. */
  lemma AgedSitesIn(s: Sim, cfg: Config)
    requires ValidSim(s, cfg)
    ensures SitesIn(Sites(Aged(s, cfg).world, |Aged(s, cfg).world|), cfg.width, cfg.height)
  {
    AgedFits(s.world, cfg.maxAge, s.cycle + 1, s.log, s.nextId, cfg.width, cfg.height);
  }

  /** The aging pass keeps the grid's shape, its robot invariants and the log bound. */
  lemma AgedFits(w: World, maxAge: int, cycle: nat, log: seq<LogEntry>, next: nat, width: nat, height: nat)
    requires Shaped(w, width, height) && Inhabited(w, next) && |log| <= LogLimit
    ensures var aged := AgeWorld(w, maxAge, cycle, log);
      Shaped(aged.world, width, height) && Inhabited(aged.world, next) && |aged.log| <= LogLimit
  {
    AgeWorldIsAged(w, maxAge, cycle, log);
    AgedKeepsInhabited(AgeWorld(w, maxAge, cycle, log).world, w, next, maxAge);
  }

  /** The step is the aging tally finished with the turns taken from the start, in order. */
  lemma StepDone(s: Sim, cfg: Config, start: Arena, order: seq<Site>, acted: Arena)
    requires ValidSim(s, cfg) && start == Start(s, cfg) && order == Order(s, cfg)
    requires Fits(start, cfg.width, cfg.height) && SitesIn(order, cfg.width, cfg.height)
    requires acted == ActAll(start, order, |order|, cfg.width, cfg.height, s.cycle + 1)
    ensures StepSim(s, cfg) == Finish(s, Aged(s, cfg).tally, acted)
  {
  }

  /**
   * stepSimulation: the aging tally finished with the turns of every robot
   * left after aging, in shuffled order, from the start of the turns (whose
   * grid and sites fit the configuration).
   */
  function StepSim(s: Sim, cfg: Config): (r: Sim)
    requires ValidSim(s, cfg)
    ensures Fits(Start(s, cfg), cfg.width, cfg.height) && SitesIn(Order(s, cfg), cfg.width, cfg.height)
    ensures r == Finish(s, Aged(s, cfg).tally, ActAll(Start(s, cfg), Order(s, cfg), |Order(s, cfg)|, cfg.width, cfg.height, s.cycle + 1))
  {
    StartFits(s, cfg);
    OrderIn(s, cfg);
    Finish(s, Aged(s, cfg).tally, ActAll(Start(s, cfg), Order(s, cfg), |Order(s, cfg)|, cfg.width, cfg.height, s.cycle + 1))
  }

  /**
   * The end of the step: the counters, the turns' results, the summary from
   * the aging tally and the turns' peak, pushed onto the history and trimmed.
   */
  function Finish(s: Sim, tally: Tally, acted: Arena): Sim {
    var avg := Average(tally.sum, tally.population);
    Sim(s.cycle + 1,
        if tally.population <= 1 then false else s.running,
        acted.rng, acted.nextId, acted.world, s.mx, s.my,
        Summary(tally.population, avg, acted.peak),
        Trimmed(Pushed(s.history, tally.population, avg, acted.peak)),
        acted.log)
  }

  /**
   * A step keeps every invariant: the grid's shape, valid robots with unique
   * ids below the id counter, the single master cell, balanced history series
   * of at most 220 entries and a log of at most nine.
   */
  lemma StepKeepsValid(s: Sim, cfg: Config)
    requires ValidSim(s, cfg)
    ensures ValidSim(StepSim(s, cfg), cfg)
  {
    var r := StepSim(s, cfg);
    var aged := Aged(s, cfg);
    StartFits(s, cfg);
    AgeWorldIsAged(s.world, cfg.maxAge, s.cycle + 1, s.log);
    AgedKeepsCells(aged.world, s.world, cfg.maxAge, s.mx, s.my);
    EvolvesKeepsMaster(r.world, aged.world, s.mx, s.my);
    var pushed := Pushed(s.history, aged.tally.population, Average(aged.tally.sum, aged.tally.population), r.stats.peakFitness);
    TrimmedKeepsNewest(pushed);
  }

  /**
   * The summary comes from the aging pass alone: its population is the number
   * of robots left after aging, which is also the number of turns taken, and
   * births, deaths and removals during the turns do not change it. The average
   * is the floor of the survivors' total fitness over their number, and the
   * peak is at least the largest of 0 and the survivors' fitness. A step whose
   * population is at most one stops the run and logs the collapse before the
   * turns; otherwise the running flag is left alone.
   */
  lemma StepSummary(s: Sim, cfg: Config)
    requires ValidSim(s, cfg)
    ensures var r, aged := StepSim(s, cfg), Aged(s, cfg);
      && r.cycle == s.cycle + 1
      && r.stats.population == CountRows(aged.world, |aged.world|)
      && r.stats.population == |Sites(aged.world, |aged.world|)|
      && r.stats.avgFitness == Average(SumRows(aged.world, |aged.world|), r.stats.population)
      && (r.stats.population <= 1 ==> !r.running && Start(s, cfg).log[0] == LogEntry(Collapsed, r.cycle))
      && (r.stats.population > 1 ==> r.running == s.running)
      && aged.tally.peak == PeakRows(aged.world, |aged.world|, 0)
      && aged.tally.peak <= r.stats.peakFitness
  {
    StartFits(s, cfg);
  }

  /**
   * After a step every robot is at most maxAge old, every cell keeps its
   * terrain, and no cell's coolData is lower than before.
   */
  lemma StepAgesAndCoolData(s: Sim, cfg: Config)
    requires ValidSim(s, cfg) && cfg.maxAge >= 0
    ensures AgesAtMost(StepSim(s, cfg).world, cfg.maxAge)
    ensures Evolves(StepSim(s, cfg).world, s.world)
  {
    var aged := Aged(s, cfg);
    AgeWorldIsAged(s.world, cfg.maxAge, s.cycle + 1, s.log);
    AgedKeepsCells(aged.world, s.world, cfg.maxAge, s.mx, s.my);
    StartFits(s, cfg);
    assert Evolves(aged.world, s.world);
    EvolvesTrans(StepSim(s, cfg).world, aged.world, s.world);
  }

  /**
   * The step's three values are pushed as the newest history entry, and the
   * series keep exactly their newest entries, at most 220.
   */
  lemma StepHistory(s: Sim, cfg: Config)
    requires ValidSim(s, cfg)
    ensures HistoryAdvanced(s, StepSim(s, cfg))
  {
    FinishHistory(s, Aged(s, cfg).tally);
  }

  /** r's history is s's with r's summary appended, trimmed to its newest entries. */
  predicate HistoryAdvanced(s: Sim, r: Sim) {
    var n := |r.history.population|;
    var drop := |s.history.population| + 1 - n;
    && 0 < n <= HistoryLimit && Balanced(r.history) && Balanced(s.history)
    && 0 <= drop
    && r.history.population[n - 1] == r.stats.population
    && r.history.avg[n - 1] == r.stats.avgFitness
    && r.history.peak[n - 1] == r.stats.peakFitness
    && r.history.population == (s.history.population + [r.stats.population])[drop..]
    && r.history.avg == (s.history.avg + [r.stats.avgFitness])[drop..]
    && r.history.peak == (s.history.peak + [r.stats.peakFitness])[drop..]
  }

  /** Whatever the turns did, the end of the step advances the history. */
  lemma FinishHistory(s: Sim, tally: Tally)
    requires Balanced(s.history) && |s.history.population| <= HistoryLimit
    ensures forall acted :: HistoryAdvanced(s, Finish(s, tally, acted))
  {
    forall acted ensures HistoryAdvanced(s, Finish(s, tally, acted)) {
      PushThenTrim(s.history, tally.population, Average(tally.sum, tally.population), acted.peak);
    }
  }
}
