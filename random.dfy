/**
 * Seeded randomness of the simulation (app.js lines 91-121): the 32-bit FNV-1a
 * hash that turns the seed string into a number, the mulberry32 generator that
 * the hash seeds, and the integer draws built on its output.
 *
 * The generator's whole state is one 32-bit counter `t`. Every draw first adds
 * `0x6d2b79f5` to the counter and then mixes the new counter into the output, so a
 * pure function that threads `t` describes the stream exactly; `Mulberry32` is
 * the stateful form the engine uses.
 */
module Random {

  // The constants are written out where they are used, as literals, which the
  // solver's bit-vector reasoning needs: the FNV offset basis 2166136261, the
  // FNV prime 16777619 (odd, with inverse 899433627 modulo 2^32) and the
  // mulberry32 increment 0x6d2b79f5.
  const Two32: int := 0x1_0000_0000

  // ---------------------------------------------------------------------------
  // FNV-1a over UTF-16 code units

  /** A UTF-16 code unit, the value `charCodeAt` returns. */
  type CodeUnit = u: bv32 | u < 0x1_0000

  /** One round: xor in a code unit, then multiply by the prime modulo 2^32. */
  function FnvStep(hash: bv32, unit: CodeUnit): bv32 {
    (hash ^ unit) * 16777619
  }

  /** The FNV-1a hash of a string, folded from the first code unit to the last. */
  function Fnv1a(s: seq<CodeUnit>): bv32 {
    if s == [] then 2166136261 else FnvStep(Fnv1a(s[..|s| - 1]), s[|s| - 1])
  }

  /** hashString: the loop of app.js, proved to compute Fnv1a. */
  method HashString(value: seq<CodeUnit>) returns (hash: bv32)
    ensures hash == Fnv1a(value)
  {
    hash := 2166136261;
    for i := 0 to |value|
      invariant hash == Fnv1a(value[..i])
    {
      assert value[..i + 1][..i] == value[..i];
      hash := FnvStep(hash, value[i]);
    }
    assert value[..|value|] == value;
  }

  /** Multiplying by the FNV prime modulo 2^32 is undone by its inverse. */
  lemma MulPrimeInjective(a: bv32, b: bv32)
    requires a * 16777619 == b * 16777619
    ensures a == b
  {
    assert a * 16777619 * 899433627 == a;
    assert b * 16777619 * 899433627 == b;
  }

  /** Xor with a fixed hash value tells its operands apart. */
  lemma XorInjective(h: bv32, u: bv32, v: bv32)
    requires h ^ u == h ^ v
    ensures u == v
  {
    assert (h ^ u) ^ h == u;
    assert (h ^ v) ^ h == v;
  }

  /** For a fixed hash value, one round tells code units apart. */
  lemma FnvStepInjective(h: bv32, u: CodeUnit, v: CodeUnit)
    requires FnvStep(h, u) == FnvStep(h, v)
    ensures u == v
  {
    MulPrimeInjective(h ^ u, h ^ v);
    XorInjective(h, u, v);
  }

  /**
   * Two seed strings that differ only in their last code unit never hash to the
   * same value.
   */
  lemma LastUnitDeterminesHash(p: seq<CodeUnit>, u: CodeUnit, v: CodeUnit)
    ensures Fnv1a(p + [u]) == Fnv1a(p + [v]) ==> u == v
  {
    assert (p + [u])[..|p|] == p && (p + [v])[..|p|] == p;
    if Fnv1a(p + [u]) == Fnv1a(p + [v]) {
      FnvStepInjective(Fnv1a(p), u, v);
    }
  }

  // ---------------------------------------------------------------------------
  // mulberry32

  /**
   * The output of mulberry32 for an advanced counter t: the three mixing rounds
   * of app.js line 105-107, applied in order.
   */
  function Mix(t: bv32): bv32 {
    MixRounds(t, 3)
  }

  /** The first `rounds` mixing rounds applied to t. */
  function MixRounds(t: bv32, rounds: nat): bv32
    requires rounds <= 3
  {
    if rounds == 0 then t else MixRound(MixRounds(t, rounds - 1), rounds)
  }

  /** Round 1: imul(r ^ r >>> 15, r | 1); round 2: r ^ (r + imul(r ^ r >>> 7, r | 61)); round 3: r ^ r >>> 14. */
  function MixRound(r: bv32, round: nat): bv32 {
    if round == 1 then (r ^ (r >> 15)) * (r | 1)
    else if round == 2 then r ^ (r + (r ^ (r >> 7)) * (r | 61))
    else r ^ (r >> 14)
  }

  /** The value the generator returns for a raw output r: r / 2^32. */
  function Uniform(r: bv32): (u: real)
    ensures 0.0 <= u < 1.0
  {
    Fraction(r as int)
  }

  function Fraction(n: nat): (u: real)
    requires n < Two32
    ensures 0.0 <= u < 1.0
  {
    n as real / Two32 as real
  }

  /** randInt's result for a raw output n: floor(n / 2^32 * max), on integers. */
  function Scaled(n: nat, max: nat): (k: nat)
    requires n < Two32
    ensures max > 0 ==> k < max
    ensures max == 0 ==> k == 0
  {
    if max > 0 then ScaledBelow(n, max); Product(n, max) / 0x1_0000_0000 else 0
  }

  /**
   * n * max as repeated addition. Written this way the product is unfolded one
   * step at a time, which keeps the solver's nonlinear arithmetic away from
   * every proof that merely compares draws.
   */
  function Product(n: nat, max: nat): nat {
    if max == 0 then 0 else Product(n, max - 1) + n
  }

  lemma {:induction false} ProductIsMul(n: nat, max: nat)
    ensures Product(n, max) == n * max
  {
    if max > 0 {
      ProductIsMul(n, max - 1);
    }
  }

  lemma ScaledBelow(n: nat, max: nat)
    requires n < Two32 && max > 0
    ensures 0 <= Product(n, max) / 0x1_0000_0000 < max
  {
    ProductIsMul(n, max);
    assert (Two32 - 1 - n) * max == (Two32 - 1) * max - n * max;
    MulNonNegative(Two32 - 1 - n, max);
    MulNonNegative(n, max);
  }

  lemma MulNonNegative(a: int, b: int)
    requires 0 <= a && 0 <= b
    ensures 0 <= a * b
  {
  }

  /**
   * randInt(max) is Math.floor(rng() * max): the integer form agrees with the
   * floor of the real product of the uniform value and max.
   */
  lemma {:induction false} ScaledIsFloorOfProduct(n: nat, max: nat)
    requires n < Two32
    ensures Scaled(n, max) == (Fraction(n) * (max as real)).Floor
  {
    ProductIsMul(n, max);
    var q, m := (n * max) / Two32, (n * max) % Two32;
    assert n * max == q * Two32 + m;
    assert Fraction(n) * (max as real) == (n * max) as real / (Two32 as real);
    assert (n * max) as real / (Two32 as real) == q as real + m as real / (Two32 as real);
  }

  function Scale(r: bv32, max: nat): (n: nat)
    ensures max > 0 ==> n < max
    ensures max == 0 ==> n == 0
  {
    Scaled(r as int, max)
  }

  /** One integer draw: its value and the generator state after it. */
  datatype Draw = Draw(value: nat, next: bv32)

  /** randInt(max): one draw of the stream scaled to [0, max). */
  function RandInt(t: bv32, max: nat): (d: Draw)
    ensures max > 0 ==> d.value < max
    ensures max == 0 ==> d.value == 0
    ensures d.next == t + 0x6d2b79f5
  {
    Draw(Scale(Mix(t + 0x6d2b79f5), max), t + 0x6d2b79f5)
  }

  /** A chosen element and the generator state after the draw that chose it. */
  datatype Picked<T> = Picked(value: T, next: bv32)

  /** randomChoice(arr): the element at a uniform index. */
  function RandomChoice<T>(t: bv32, options: seq<T>): (p: Picked<T>)
    requires options != []
    ensures p.value in options
    ensures p.next == t + 0x6d2b79f5
  {
    var d := RandInt(t, |options|);
    Picked(options[d.value], d.next)
  }

  /** n successive randInt(max) draws and the generator state after the last. */
  datatype Draws = Draws(values: seq<nat>, next: bv32)

  /** n calls of randInt(max) in a row, as `Array.from({ length: n }, () => randInt(max))` makes them. */
  function RandInts(t: bv32, max: nat, n: nat): (d: Draws)
    ensures |d.values| == n
    ensures max > 0 ==> forall i | 0 <= i < n :: d.values[i] < max
    ensures d.next == Counter(t, n)
  {
    if n == 0 then Draws([], t)
    else
      var prev := RandInts(t, max, n - 1);
      var last := RandInt(prev.next, max);
      Draws(prev.values + [last.value], last.next)
  }

  /** The k-th of n draws is the k-th output of the stream, scaled. */
  lemma {:induction false} RandIntsAt(t: bv32, max: nat, n: nat, k: nat)
    requires k < n
    ensures RandInts(t, max, n).values[k] == Scale(Stream(t, n)[k], max)
  {
    StreamAt(t, n, k);
    if k < n - 1 {
      RandIntsAt(t, max, n - 1, k);
      StreamAt(t, n - 1, k);
    }
  }

  /** The counter after n draws from a generator seeded with `seed`. */
  function Counter(seed: bv32, n: nat): bv32 {
    if n == 0 then seed else Counter(seed, n - 1) + 0x6d2b79f5
  }

  /** The first n raw outputs of a generator seeded with `seed`. */
  function Stream(seed: bv32, n: nat): (s: seq<bv32>)
    ensures |s| == n
  {
    if n == 0 then [] else Stream(seed, n - 1) + [Mix(Counter(seed, n))]
  }

  /** The k-th output depends only on the seed and k: it is Mix(seed + (k+1) * 0x6d2b79f5). */
  lemma {:induction false} StreamAt(seed: bv32, n: nat, k: nat)
    requires k < n
    ensures Stream(seed, n)[k] == Mix(Counter(seed, k + 1))
  {
    if k < n - 1 {
      StreamAt(seed, n - 1, k);
    }
  }

  /** A longer run from the same seed starts with every shorter run. */
  lemma {:induction false} StreamPrefix(seed: bv32, m: nat, n: nat)
    requires m <= n
    ensures Stream(seed, n)[..m] == Stream(seed, m)
  {
    if m < n {
      StreamPrefix(seed, m, n - 1);
      assert Stream(seed, n)[..n - 1] == Stream(seed, n - 1);
    } else {
      assert Stream(seed, n)[..n] == Stream(seed, n);
    }
  }

  /** The generator closure returned by mulberry32(seed); `t` is its captured counter. */
  class Mulberry32 {
    var t: bv32

    constructor (seed: bv32)
      ensures t == seed
    {
      t := seed;
    }

    /** One call of the closure: returns the raw output r; the closure's value is Uniform(r). */
    method Next() returns (r: bv32)
      modifies this
      ensures t == old(t) + 0x6d2b79f5
      ensures r == Mix(t)
    {
      t := t + 0x6d2b79f5;
      r := Mix(t);
    }

    /** randInt(max) drawn from this generator. */
    method NextInt(max: nat) returns (n: nat)
      modifies this
      ensures Draw(n, t) == RandInt(old(t), max)
    {
      var r := Next();
      n := Scale(r, max);
    }

    /** `Array.from({ length: n }, () => randInt(max))`: n draws in a row. */
    method NextInts(max: nat, n: nat) returns (values: seq<nat>)
      modifies this
      ensures Draws(values, t) == RandInts(old(t), max, n)
    {
      values := [];
      for i := 0 to n
        invariant Draws(values, t) == RandInts(old(t), max, i)
      {
        var v := NextInt(max);
        values := values + [v];
      }
    }

    /** randomChoice(arr) drawn from this generator. */
    method NextChoice<T>(options: seq<T>) returns (v: T)
      requires options != []
      modifies this
      ensures Picked(v, t) == RandomChoice(old(t), options)
    {
      var k := NextInt(|options|);
      v := options[k];
    }
  }

  /**
   * Seeding a generator from a seed string and drawing n times always yields
   * the same outputs: Stream of the seed's hash.
   */
  method FirstDraws(seed: seq<CodeUnit>, n: nat) returns (draws: seq<bv32>)
    ensures draws == Stream(Fnv1a(seed), n)
  {
    var h := HashString(seed);
    var g := new Mulberry32(h);
    draws := [];
    for i := 0 to n
      invariant g.t == Counter(h, i)
      invariant draws == Stream(h, i)
    {
      var r := g.Next();
      draws := draws + [r];
    }
  }
}
