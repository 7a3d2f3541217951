/**
 * The genome and the statistics derived from it (app.js lines 129-167).
 * A genome is 16 integers, each in [0, 255]; `computeStats` derives eleven
 * statistics from fixed sums of genes, halved or thirded with Math.floor and
 * never clamped, so some of them (range, maneuverability, dexterity and what
 * builds on dexterity) can be negative.
 */
module Genome {

  const GenomeLength := 16
  const GeneMax := 255
  /** Index of the gene a master upgrade raises. */
  const UpgradeGene := 6

  predicate ValidGenome(g: seq<int>) {
    |g| == GenomeLength && forall i | 0 <= i < |g| :: 0 <= g[i] <= GeneMax
  }

  datatype Stats = Stats(
    quickthinking: int,
    observantness: int,
    visibility: int,
    audibility: int,
    range: int,
    maneuverability: int,
    dexterity: int,
    armorclass: int,
    fightskill: int,
    miningskill: int,
    interface: int)

  /**
   * Math.floor(n / 2) and Math.floor(n / 3). Dafny's division by a positive
   * constant rounds down, as Math.floor does, for negative n too.
   */
  function Half(n: int): int { n / 2 }
  function Third(n: int): int { n / 3 }

  /** computeStats: the derived statistics of a genome. */
  function ComputeStats(g: seq<int>): (s: Stats)
    requires |g| == GenomeLength
    ensures s.interface == s.quickthinking + s.observantness + 2 * g[6]
    ensures ValidGenome(g) ==> 0 <= s.quickthinking <= 255 && 0 <= s.visibility <= 255
  {
    var quickthinking := (g[5] + g[6]) / 2;
    var observantness := Third(g[7] + g[8] + g[13]) + Half(g[6]) + g[10];
    var visibility := 255 - g[14];
    var audibility := 255 - g[15] + Third(g[4]);
    var range := g[9] * 2 - Half(g[4]) - Half(g[11]);
    var maneuverability := g[3] + Half(g[4]) - Third(g[1]);
    var dexterity := g[2] - Half(g[1]) + quickthinking + Half(observantness);
    var armorclass := dexterity + g[0] + Third(g[7] + g[8]) + maneuverability;
    var fightskill := dexterity + observantness + quickthinking;
    var miningskill := observantness + dexterity + g[12] + g[11];
    var interfaceSkill := quickthinking + observantness + g[6] * 2;
    Stats(quickthinking, observantness, visibility, audibility, range, maneuverability,
          dexterity, armorclass, fightskill, miningskill, interfaceSkill)
  }

  /**
   * The exact ranges of every statistic over all valid genomes. Those that can
   * be negative are range, maneuverability, dexterity, armorclass, fightskill
   * and miningskill.
   */
  lemma StatRanges(g: seq<int>)
    requires ValidGenome(g)
    ensures var s := ComputeStats(g);
      && 0 <= s.quickthinking <= 255
      && 0 <= s.observantness <= 637
      && 0 <= s.visibility <= 255
      && 0 <= s.audibility <= 340
      && -254 <= s.range <= 510
      && -85 <= s.maneuverability <= 382
      && -127 <= s.dexterity <= 828
      && -212 <= s.armorclass <= 1635
      && -127 <= s.fightskill <= 1720
      && -127 <= s.miningskill <= 1975
      && 0 <= s.interface <= 1402
  {
    assert forall i | 0 <= i < 16 :: 0 <= g[i] <= 255;
  }

  /** Each lower bound of StatRanges is reached by a genome of genes 0 and 255, so none can be raised. */
  lemma StatLowsReached()
    ensures ComputeStats([0, 0, 0, 0, 0, 0, 0, 0, 0, 0, 0, 0, 0, 0, 0, 0]).quickthinking == 0
    ensures ComputeStats([0, 0, 0, 0, 0, 0, 0, 0, 0, 0, 0, 0, 0, 0, 0, 0]).observantness == 0
    ensures ComputeStats([0, 0, 0, 0, 0, 0, 0, 0, 0, 0, 0, 0, 0, 0, 255, 0]).visibility == 0
    ensures ComputeStats([0, 0, 0, 0, 0, 0, 0, 0, 0, 0, 0, 0, 0, 0, 0, 255]).audibility == 0
    ensures ComputeStats([0, 0, 0, 0, 255, 0, 0, 0, 0, 0, 0, 255, 0, 0, 0, 0]).range == -254
    ensures ComputeStats([0, 255, 0, 0, 0, 0, 0, 0, 0, 0, 0, 0, 0, 0, 0, 0]).maneuverability == -85
    ensures ComputeStats([0, 255, 0, 0, 0, 0, 0, 0, 0, 0, 0, 0, 0, 0, 0, 0]).dexterity == -127
    ensures ComputeStats([0, 255, 0, 0, 0, 0, 0, 0, 0, 0, 0, 0, 0, 0, 0, 0]).armorclass == -212
    ensures ComputeStats([0, 255, 0, 0, 0, 0, 0, 0, 0, 0, 0, 0, 0, 0, 0, 0]).fightskill == -127
    ensures ComputeStats([0, 255, 0, 0, 0, 0, 0, 0, 0, 0, 0, 0, 0, 0, 0, 0]).miningskill == -127
    ensures ComputeStats([0, 0, 0, 0, 0, 0, 0, 0, 0, 0, 0, 0, 0, 0, 0, 0]).interface == 0
  {
  }

  /** Each upper bound of StatRanges is reached by a genome of genes 0 and 255, so none can be lowered. */
  lemma StatHighsReached()
    ensures ComputeStats([0, 0, 0, 0, 0, 255, 255, 0, 0, 0, 0, 0, 0, 0, 0, 0]).quickthinking == 255
    ensures ComputeStats([0, 0, 0, 0, 0, 0, 255, 255, 255, 0, 255, 0, 0, 255, 0, 0]).observantness == 637
    ensures ComputeStats([0, 0, 0, 0, 0, 0, 0, 0, 0, 0, 0, 0, 0, 0, 0, 0]).visibility == 255
    ensures ComputeStats([0, 0, 0, 0, 255, 0, 0, 0, 0, 0, 0, 0, 0, 0, 0, 0]).audibility == 340
    ensures ComputeStats([0, 0, 0, 0, 0, 0, 0, 0, 0, 255, 0, 0, 0, 0, 0, 0]).range == 510
    ensures ComputeStats([0, 0, 0, 255, 255, 0, 0, 0, 0, 0, 0, 0, 0, 0, 0, 0]).maneuverability == 382
    ensures ComputeStats([0, 0, 255, 0, 0, 255, 255, 255, 255, 0, 255, 0, 0, 255, 0, 0]).dexterity == 828
    ensures ComputeStats([255, 0, 255, 255, 255, 255, 255, 255, 255, 0, 255, 0, 0, 255, 0, 0]).armorclass == 1635
    ensures ComputeStats([0, 0, 255, 0, 0, 255, 255, 255, 255, 0, 255, 0, 0, 255, 0, 0]).fightskill == 1720
    ensures ComputeStats([0, 0, 255, 0, 0, 255, 255, 255, 255, 0, 255, 255, 255, 255, 0, 0]).miningskill == 1975
    ensures ComputeStats([0, 0, 0, 0, 0, 255, 255, 255, 255, 0, 255, 0, 0, 255, 0, 0]).interface == 1402
  {
  }

  /**
   * The genome a master upgrade leaves: gene 6 raised by one unless it is
   * already 255.
   */
  function Upgrade(g: seq<int>): (u: seq<int>)
    requires ValidGenome(g)
    ensures ValidGenome(u)
    ensures u[UpgradeGene] == if g[UpgradeGene] < GeneMax then g[UpgradeGene] + 1 else GeneMax
    ensures forall i | 0 <= i < GenomeLength && i != UpgradeGene :: u[i] == g[i]
  {
    if g[UpgradeGene] < GeneMax then g[UpgradeGene := g[UpgradeGene] + 1] else g
  }

  /**
   * A master upgrade that raises gene 6 raises the interface statistic by two
   * to four points (2 directly, plus at most one from each of the two halvings
   * gene 6 enters); a saturated gene leaves it unchanged.
   */
  lemma UpgradeRaisesInterface(g: seq<int>)
    requires ValidGenome(g)
    ensures var before, after := ComputeStats(g).interface, ComputeStats(Upgrade(g)).interface;
      if g[UpgradeGene] < GeneMax then before + 2 <= after <= before + 4 else after == before
  {
  }
}
