// Sequence helpers shared by the pipeline stages: laying a sequence of
// parts end to end, applying a function to every element, and the facts
// that both respect reordering (multiset equality).

module Seqs {

  /** The parts laid end to end, in order. */
  function Concat<T>(parts: seq<seq<T>>): (r: seq<T>)
  {
    if parts == [] then [] else parts[0] + Concat(parts[1..])
  }

  /** f applied to every element, in order. */
  function Map<A, B>(f: A -> B, xs: seq<A>): (r: seq<B>)
    ensures |r| == |xs|
  {
    if xs == [] then [] else [f(xs[0])] + Map(f, xs[1..])
  }

  /** 0, 1, ..., n - 1. */
  function Indices(n: nat): (r: seq<nat>)
    ensures |r| == n
    ensures forall k :: 0 <= k < n ==> r[k] == k
  {
    if n == 0 then [] else Indices(n - 1) + [n - 1]
  }

  lemma {:induction false} ConcatAppend<T>(a: seq<seq<T>>, b: seq<seq<T>>)
    ensures Concat(a + b) == Concat(a) + Concat(b)
  {
    if a == [] {
      assert a + b == b;
    } else {
      assert (a + b)[1..] == a[1..] + b;
      ConcatAppend(a[1..], b);
    }
  }

  lemma {:induction false} MapAppend<A, B>(f: A -> B, a: seq<A>, b: seq<A>)
    ensures Map(f, a + b) == Map(f, a) + Map(f, b)
  {
    if a == [] {
      assert a + b == b;
    } else {
      assert (a + b)[1..] == a[1..] + b;
      MapAppend(f, a[1..], b);
    }
  }

  /** The element at position p, added back to what remains without it,
      gives the multiset of the whole sequence. */
  lemma RemoveAt<T>(s: seq<T>, p: nat)
    requires p < |s|
    ensures multiset(s) == multiset(s[..p] + s[p + 1..]) + multiset{s[p]}
  {
    assert s == s[..p] + [s[p]] + s[p + 1..];
  }

  /** Taking the first element out of xs and an equal element out of ys
      leaves multiset-equal rests. */
  lemma PermutationTail<T>(xs: seq<T>, ys: seq<T>, p: nat)
    requires multiset(xs) == multiset(ys)
    requires xs != [] && p < |ys| && ys[p] == xs[0]
    ensures multiset(xs[1..]) == multiset(ys[..p] + ys[p + 1..])
  {
    var a, b := multiset(xs[1..]), multiset(ys[..p] + ys[p + 1..]);
    RemoveAt(ys, p);
    assert xs == [xs[0]] + xs[1..];
    assert a + multiset{xs[0]} == b + multiset{xs[0]};
    forall e
      ensures a[e] == b[e]
    {
      assert (a + multiset{xs[0]})[e] == (b + multiset{xs[0]})[e];
    }
  }

  /** A sequence is what lies before position p, the element at p, and what lies after. */
  lemma SplitAt<T>(s: seq<T>, p: nat)
    requires p < |s|
    ensures s == s[..p] + ([s[p]] + s[p + 1..])
  {
  }

  /** Map over a sequence with a first element. */
  lemma MapCons<A, B>(f: A -> B, x: A, s: seq<A>)
    ensures Map(f, [x] + s) == [f(x)] + Map(f, s)
  {
    assert ([x] + s)[1..] == s;
  }

  /** Map over a sequence split around position p. */
  lemma MapSplit<A, B>(f: A -> B, ys: seq<A>, p: nat)
    requires p < |ys|
    ensures multiset(Map(f, ys)) == multiset(Map(f, ys[..p] + ys[p + 1..])) + multiset{f(ys[p])}
  {
    var before, after := ys[..p], ys[p + 1..];
    SplitAt(ys, p);
    MapAppend(f, before, [ys[p]] + after);
    MapCons(f, ys[p], after);
    MapAppend(f, before, after);
    MultisetMiddle(Map(f, before), [f(ys[p])], Map(f, after));
  }

  /** Reordering the inputs of Map reorders its outputs the same way. */
  lemma {:induction false} MapPermutation<A, B>(f: A -> B, xs: seq<A>, ys: seq<A>)
    requires multiset(xs) == multiset(ys)
    ensures multiset(Map(f, xs)) == multiset(Map(f, ys))
  {
    if xs == [] {
      assert |ys| == |multiset(ys)| == 0;
    } else {
      assert xs[0] in multiset(ys);
      var p :| 0 <= p < |ys| && ys[p] == xs[0];
      var rest := ys[..p] + ys[p + 1..];
      PermutationTail(xs, ys, p);
      MapPermutation(f, xs[1..], rest);
      MapSplit(f, ys, p);
      assert Map(f, xs) == [f(xs[0])] + Map(f, xs[1..]);
    }
  }

  /** Concat over a sequence of parts split around position p. */
  lemma ConcatSplit<T>(ys: seq<seq<T>>, p: nat)
    requires p < |ys|
    ensures multiset(Concat(ys)) == multiset(Concat(ys[..p] + ys[p + 1..])) + multiset(ys[p])
  {
    var before, after := ys[..p], ys[p + 1..];
    assert Concat(ys) == Concat(before) + (ys[p] + Concat(after)) by {
      var tail := [ys[p]] + after;
      assert ys == before + tail;
      ConcatAppend(before, tail);
      assert tail[1..] == after;
    }
    assert Concat(before + after) == Concat(before) + Concat(after) by {
      ConcatAppend(before, after);
    }
    MultisetMiddle(Concat(before), ys[p], Concat(after));
  }

  /** Moving the middle piece of a + m + d to the end keeps the multiset. */
  lemma MultisetMiddle<T>(a: seq<T>, m: seq<T>, d: seq<T>)
    ensures multiset(a + (m + d)) == multiset(a + d) + multiset(m)
  {
  }

  /** Laying reordered parts end to end gives the same multiset of elements. */
  lemma {:induction false} ConcatPermutation<T>(xs: seq<seq<T>>, ys: seq<seq<T>>)
    requires multiset(xs) == multiset(ys)
    ensures multiset(Concat(xs)) == multiset(Concat(ys))
  {
    if xs == [] {
      assert |ys| == |multiset(ys)| == 0;
    } else {
      assert xs[0] in multiset(ys);
      var p :| 0 <= p < |ys| && ys[p] == xs[0];
      var rest := ys[..p] + ys[p + 1..];
      PermutationTail(xs, ys, p);
      ConcatPermutation(xs[1..], rest);
      ConcatSplit(ys, p);
      assert Concat(xs) == xs[0] + Concat(xs[1..]);
    }
  }


  /** Map over a sequence of three elements. */
  lemma MapOfThree<A, B>(f: A -> B, x: A, y: A, z: A)
    ensures Map(f, [x, y, z]) == [f(x), f(y), f(z)]
  {
    assert [x, y, z][1..] == [y, z] && [y, z][1..] == [z] && [z][1..] == [];
    calc {
      Map(f, [x, y, z]);
      [f(x)] + Map(f, [y, z]);
      [f(x)] + ([f(y)] + Map(f, [z]));
      [f(x)] + ([f(y)] + ([f(z)] + Map(f, [])));
      [f(x), f(y), f(z)];
    }
  }

  /** Concat of three parts. */
  lemma ConcatOfThree<T>(x: seq<T>, y: seq<T>, z: seq<T>)
    ensures Concat([x, y, z]) == x + y + z
  {
    assert [x, y, z][1..] == [y, z] && [y, z][1..] == [z] && [z][1..] == [];
    calc {
      Concat([x, y, z]);
      x + Concat([y, z]);
      x + (y + Concat([z]));
      x + (y + (z + Concat([])));
      { assert z + [] == z; }
      x + y + z;
    }
  }
}
