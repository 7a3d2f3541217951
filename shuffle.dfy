/**
 * shuffleArray (app.js lines 483-488): the Fisher–Yates shuffle (Knuth, The
 * Art of Computer Programming, Vol. 2, section 3.4.2, Algorithm P), from the
 * last index down to 1, swapping each element with one at a uniform index at
 * or below it.
 */
module Shuffle {
  import opened Random

  function Swap<T>(s: seq<T>, i: nat, j: nat): (r: seq<T>)
    requires i < |s| && j < |s|
    ensures |r| == |s| && r[i] == s[j] && r[j] == s[i]
    ensures forall k | 0 <= k < |s| && k != i && k != j :: r[k] == s[k]
  {
    s[i := s[j]][j := s[i]]
  }

  /** A shuffled sequence and the generator state after its draws. */
  datatype Shuffled<T> = Shuffled(items: seq<T>, next: bv32)

  /** The rounds i, i - 1, ..., 1 of the shuffle applied to s. */
  function ShuffleFrom<T>(s: seq<T>, i: int, t: bv32): (r: Shuffled<T>)
    requires i < |s|
    ensures |r.items| == |s|
    decreases i
  {
    if i <= 0 then Shuffled(s, t)
    else
      var j := RandInt(t, i + 1);
      ShuffleFrom(Swap(s, i, j.value), i - 1, j.next)
  }

  /** The whole shuffle of s from generator state t. */
  function ShuffleSpec<T>(s: seq<T>, t: bv32): Shuffled<T> {
    ShuffleFrom(s, |s| - 1, t)
  }

  /** Each round swaps two elements, so the shuffle keeps length and elements. */
  lemma {:induction false} ShuffleFromPermutes<T>(s: seq<T>, i: int, t: bv32)
    requires i < |s|
    ensures multiset(ShuffleFrom(s, i, t).items) == multiset(s)
    decreases i
  {
    if i > 0 {
      var j := RandInt(t, i + 1);
      var s1 := Swap(s, i, j.value);
      var r := ShuffleFrom(s1, i - 1, j.next);
      assert ShuffleFrom(s, i, t) == r;
      ShuffleFromPermutes(s1, i - 1, j.next);
      SwapPermutes(s, i, j.value);
      calc {
        multiset(ShuffleFrom(s, i, t).items);
        multiset(r.items);
        multiset(s1);
        multiset(s);
      }
    }
  }

  lemma SwapPermutes<T>(s: seq<T>, i: nat, j: nat)
    requires i < |s| && j < |s|
    ensures multiset(Swap(s, i, j)) == multiset(s)
  {
    if i != j {
      var r := Swap(s, i, j);
      assert r == s[i := s[j]][j := s[i]];
      calc {
        multiset(r);
        multiset(s[i := s[j]]) - multiset{s[j]} + multiset{s[i]};
        multiset(s) - multiset{s[i]} + multiset{s[j]} - multiset{s[j]} + multiset{s[i]};
        multiset(s);
      }
    }
  }

  /** The shuffle leaves a permutation of its input. */
  lemma ShufflePermutes<T>(s: seq<T>, t: bv32)
    ensures |ShuffleSpec(s, t).items| == |s|
    ensures multiset(ShuffleSpec(s, t).items) == multiset(s)
  {
    ShuffleFromPermutes(s, |s| - 1, t);
  }

  /** shuffleArray on an array, drawing from the generator `g`. */
  method ShuffleArray<T>(a: array<T>, g: Mulberry32)
    modifies a, g
    ensures Shuffled(a[..], g.t) == ShuffleSpec(old(a[..]), old(g.t))
    ensures multiset(a[..]) == multiset(old(a[..]))
  {
    ghost var spec := ShuffleSpec(a[..], g.t);
    ShufflePermutes(a[..], g.t);
    var i := a.Length - 1;
    while i > 0
      invariant -1 <= i < a.Length
      invariant ShuffleFrom(a[..], i, g.t) == spec
    {
      ghost var before, t0 := a[..], g.t;
      SwapRound(a, g, i);
      assert ShuffleFrom(a[..], i - 1, g.t) == ShuffleFrom(before, i, t0);
      i := i - 1;
    }
  }

  /** Round i of shuffleArray: swap a[i] with a[randInt(i + 1)]. */
  method SwapRound<T>(a: array<T>, g: Mulberry32, i: nat)
    requires 0 < i < a.Length
    modifies a, g
    ensures ShuffleFrom(a[..], i - 1, g.t) == ShuffleFrom(old(a[..]), i, old(g.t))
  {
    var j := g.NextInt(i + 1);
    a[i], a[j] := a[j], a[i];
    assert a[..] == Swap(old(a[..]), i, j);
  }
}
