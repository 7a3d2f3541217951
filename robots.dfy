/**
 * Robot construction (app.js lines 165-214): a fresh robot from sixteen
 * random genes, and a child robot by per-gene crossover of two parents.
 * Robots are values here; the source keeps them as objects, but no robot
 * object is ever reachable from two cells, so replacing the value a cell
 * holds is the same as updating the object it points to.
 */
module Robots {
  import opened Random
  import opened Genome

  datatype Robot = Robot(
    id: nat,
    name: string,
    number: nat,
    mark: nat,
    gene: seq<int>,
    age: nat,
    fitness: int,
    stats: Stats)

  /** What every robot the simulation builds satisfies, and every operation keeps. */
  predicate ValidRobot(r: Robot) {
    && ValidGenome(r.gene)
    && r.stats == ComputeStats(r.gene)
    && |r.name| == 3
    && (forall i | 0 <= i < |r.name| :: 'A' <= r.name[i] <= 'Z')
    && r.number < 256
    && r.mark >= 1
    && r.fitness >= 0
  }

  /** A robot and the generator state after the draws that built it. */
  datatype Built = Built(robot: Robot, next: bv32)

  /** randomName: three letters, each String.fromCharCode(65 + randInt(26)). */
  function Letters(ks: seq<nat>): (name: string)
    requires forall i | 0 <= i < |ks| :: ks[i] < 26
    ensures |name| == |ks|
    ensures forall i | 0 <= i < |ks| :: 'A' <= name[i] <= 'Z' && name[i] as int - 'A' as int == ks[i]
  {
    seq(|ks|, i requires 0 <= i < |ks| => (65 + ks[i]) as char)
  }

  /**
   * buildNewRobot: sixteen genes, three name letters and a number, twenty
   * draws in that order; mark 1, age 0, fitness 0, stats from the genome.
   */
  function NewRobot(id: nat, t: bv32): (b: Built)
    ensures ValidRobot(b.robot)
    ensures b.robot.id == id && b.robot.mark == 1 && b.robot.age == 0 && b.robot.fitness == 0
    ensures b.next == Counter(t, 20)
  {
    var genes := RandInts(t, 256, 16);
    var name := RandInts(genes.next, 26, 3);
    var number := RandInt(name.next, 256);
    CounterAdd(t, 16, 3);
    CounterAdd(t, 19, 1);
    Built(Robot(id, Letters(name.values), number.value, 1, genes.values, 0, 0, ComputeStats(genes.values)),
          number.next)
  }

  /** Advancing n then m draws is advancing n + m draws. */
  lemma {:induction false} CounterAdd(t: bv32, n: nat, m: nat)
    ensures Counter(Counter(t, n), m) == Counter(t, n + m)
  {
    if m > 0 {
      CounterAdd(t, n, m - 1);
    }
  }

  /** A fresh robot's gene i is the i-th output of the stream, scaled to [0, 256). */
  lemma NewRobotGenes(id: nat, t: bv32, i: nat)
    requires i < 16
    ensures NewRobot(id, t).robot.gene[i] == Scale(Stream(t, 16)[i], 256)
  {
    RandIntsAt(t, 256, 16, i);
  }

  /** Genes of a child so far, the crossover roll drawn for each, and the generator state. */
  datatype Inherited = Inherited(genes: seq<int>, rolls: seq<nat>, next: bv32)

  /**
   * The crossover of buildChildRobot for the first n genes: for each gene a roll
   * in [0, 1100); below 500 parent A's gene, above 1000 a fresh randInt(256)
   * (one more draw), otherwise parent B's gene.
   */
  function Crossover(a: seq<int>, b: seq<int>, n: nat, t: bv32): (c: Inherited)
    requires n <= |a| && n <= |b|
    ensures |c.genes| == n && |c.rolls| == n
    ensures forall i | 0 <= i < n :: c.rolls[i] < 1100
    ensures forall i | 0 <= i < n :: c.rolls[i] < 500 ==> c.genes[i] == a[i]
    ensures forall i | 0 <= i < n :: 500 <= c.rolls[i] <= 1000 ==> c.genes[i] == b[i]
    ensures forall i | 0 <= i < n :: c.rolls[i] > 1000 ==> 0 <= c.genes[i] < 256
  {
    if n == 0 then Inherited([], [], t)
    else
      var prev := Crossover(a, b, n - 1, t);
      var roll := RandInt(prev.next, 1100);
      if roll.value < 500 then
        Inherited(prev.genes + [a[n - 1]], prev.rolls + [roll.value], roll.next)
      else if roll.value > 1000 then
        var extra := RandInt(roll.next, 256);
        Inherited(prev.genes + [extra.value], prev.rolls + [roll.value], extra.next)
      else
        Inherited(prev.genes + [b[n - 1]], prev.rolls + [roll.value], roll.next)
  }

  /**
   * One more gene of a crossover: its roll is the next randInt(1100); the gene
   * is parent A's below 500, parent B's up to 1000, and above 1000 the
   * randInt(256) drawn right after the roll.
   */
  lemma CrossoverStep(a: seq<int>, b: seq<int>, n: nat, t: bv32)
    requires 0 < n <= |a| && n <= |b|
    ensures var prev, c := Crossover(a, b, n - 1, t), Crossover(a, b, n, t);
      var roll := RandInt(prev.next, 1100);
      && c.rolls == prev.rolls + [roll.value]
      && c.genes == prev.genes + [if roll.value < 500 then a[n - 1]
                                  else if roll.value > 1000 then RandInt(roll.next, 256).value
                                  else b[n - 1]]
      && c.next == if roll.value > 1000 then RandInt(roll.next, 256).next else roll.next
  {
  }

  /** The rolls of the first n - 1 genes are those of the shorter crossover. */
  lemma CrossoverRollsKept(a: seq<int>, b: seq<int>, n: nat, t: bv32, i: nat)
    requires 0 < n <= |a| && n <= |b| && i < n - 1
    ensures Crossover(a, b, n, t).rolls[i] == Crossover(a, b, n - 1, t).rolls[i]
  {
    CrossoverStep(a, b, n, t);
  }

  /** Once gene i is crossed, its roll stays whatever genes follow. */
  lemma {:induction false} CrossoverRollFixed(a: seq<int>, b: seq<int>, n: nat, t: bv32, i: nat)
    requires n <= |a| && n <= |b| && i < n
    ensures Crossover(a, b, n, t).rolls[i] == Crossover(a, b, i + 1, t).rolls[i]
  {
    if i < n - 1 {
      CrossoverRollsKept(a, b, n, t, i);
      CrossoverRollFixed(a, b, n - 1, t, i);
    }
  }

  /**
   * The roll for gene i is randInt(1100) drawn from the generator as the
   * first i genes left it, so the seed decides which parent each gene comes from.
   */
  lemma CrossoverRollAt(a: seq<int>, b: seq<int>, n: nat, t: bv32, i: nat)
    requires n <= |a| && n <= |b| && i < n
    ensures Crossover(a, b, n, t).rolls[i] == RandInt(Crossover(a, b, i, t).next, 1100).value
  {
    CrossoverRollFixed(a, b, n, t, i);
    CrossoverStep(a, b, i + 1, t);
  }

  /** Crossover of two valid genomes is a valid genome. */
  lemma CrossoverValid(a: seq<int>, b: seq<int>, t: bv32)
    requires ValidGenome(a) && ValidGenome(b)
    ensures ValidGenome(Crossover(a, b, 16, t).genes)
  {
    var c := Crossover(a, b, 16, t);
    forall i | 0 <= i < 16 ensures 0 <= c.genes[i] <= 255 {
      assert c.rolls[i] < 500 || 500 <= c.rolls[i] <= 1000 || c.rolls[i] > 1000;
    }
  }

  /**
   * buildChildRobot: crossover of the parents' genomes, then name and number
   * as for a fresh robot; mark is one more than the larger parent mark.
   */
  function ChildRobot(a: Robot, b: Robot, id: nat, t: bv32): (c: Built)
    requires ValidRobot(a) && ValidRobot(b)
    ensures ValidRobot(c.robot)
    ensures c.robot.id == id && c.robot.age == 0 && c.robot.fitness == 0
    ensures c.robot.mark == (if a.mark >= b.mark then a.mark else b.mark) + 1
    ensures c.robot.mark > a.mark && c.robot.mark > b.mark
    ensures c.robot.gene == Crossover(a.gene, b.gene, 16, t).genes
  {
    var genes := Crossover(a.gene, b.gene, 16, t);
    CrossoverValid(a.gene, b.gene, t);
    var name := RandInts(genes.next, 26, 3);
    var number := RandInt(name.next, 256);
    var mark := (if a.mark >= b.mark then a.mark else b.mark) + 1;
    Built(Robot(id, Letters(name.values), number.value, mark, genes.genes, 0, 0, ComputeStats(genes.genes)),
          number.next)
  }

  /** ChildRobot spelled out draw by draw, so callers need not unfold it. */
  lemma ChildRobotParts(a: Robot, b: Robot, id: nat, t: bv32)
    requires ValidRobot(a) && ValidRobot(b)
    ensures var genes := Crossover(a.gene, b.gene, 16, t);
      var name := RandInts(genes.next, 26, 3);
      var number := RandInt(name.next, 256);
      ChildRobot(a, b, id, t) == Built(Robot(id, Letters(name.values), number.value,
        (if a.mark >= b.mark then a.mark else b.mark) + 1, genes.genes, 0, 0, ComputeStats(genes.genes)), number.next)
  {
  }
}
