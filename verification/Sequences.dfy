/** Lists gathered from lists, their members and their reorderings. */
module Sequences {

  /** Everything the elements contribute, in order. */
  function Gather<T, U>(xs: seq<T>, f: T -> seq<U>): seq<U> {
    if xs == [] then [] else Gather(xs[..|xs| - 1], f) + f(xs[|xs| - 1])
  }

  lemma LastSplits<T>(xs: seq<T>)
    requires xs != []
    ensures xs == xs[..|xs| - 1] + [xs[|xs| - 1]]
  {
  }

  lemma PrefixNext<T>(xs: seq<T>, k: nat)
    requires k < |xs|
    ensures xs[..k] + [xs[k]] == xs[..k + 1]
  {
  }

  lemma GatherNext<T, U>(xs: seq<T>, f: T -> seq<U>, k: nat)
    requires k < |xs|
    ensures Gather(xs[..k + 1], f) == Gather(xs[..k], f) + f(xs[k])
  {
    assert xs[..k + 1][..k] == xs[..k];
  }

  lemma {:induction false} GatherJoins<T, U>(xs: seq<T>, ys: seq<T>, f: T -> seq<U>)
    ensures Gather(xs + ys, f) == Gather(xs, f) + Gather(ys, f)
  {
    if ys == [] {
      assert xs + ys == xs;
    } else {
      assert (xs + ys)[..|xs + ys| - 1] == xs + ys[..|ys| - 1];
      GatherJoins(xs, ys[..|ys| - 1], f);
    }
  }

  /** A reordered list contributes the same things, as often. */
  lemma {:induction false} GatherReordered<T, U>(xs: seq<T>, ys: seq<T>, f: T -> seq<U>)
    requires multiset(xs) == multiset(ys)
    ensures multiset(Gather(xs, f)) == multiset(Gather(ys, f))
    decreases |xs|
  {
    if xs == [] {
      assert |multiset(ys)| == 0;
    } else {
      var front, x := xs[..|xs| - 1], xs[|xs| - 1];
      var j := WithoutOne(xs, ys);
      var before, after := ys[..j], ys[j + 1..];
      GatherReordered(front, before + after, f);
      GatherJoins(before, after, f);
      assert ys == ys[..j + 1] + after;
      GatherJoins(ys[..j + 1], after, f);
      GatherNext(ys, f, j);
    }
  }

  /** The last element of one list can be taken out of any reordering of it. */
  lemma WithoutOne<T>(xs: seq<T>, ys: seq<T>) returns (j: nat)
    requires multiset(xs) == multiset(ys) && xs != []
    ensures j < |ys| && ys[j] == xs[|xs| - 1]
    ensures multiset(xs[..|xs| - 1]) == multiset(ys[..j] + ys[j + 1..])
  {
    var front, x := xs[..|xs| - 1], xs[|xs| - 1];
    assert xs == front + [x];
    assert x in multiset(ys);
    j :| 0 <= j < |ys| && ys[j] == x;
    assert ys == ys[..j] + [x] + ys[j + 1..];
    assert multiset(front) == multiset(xs) - multiset{x};
    assert multiset(ys[..j] + ys[j + 1..]) == multiset(ys) - multiset{x};
  }

  lemma {:induction false} InGather<T, U>(xs: seq<T>, f: T -> seq<U>, u: U)
    ensures u in Gather(xs, f) <==> exists x :: x in xs && u in f(x)
  {
    if xs != [] {
      InGather(xs[..|xs| - 1], f, u);
      assert xs == xs[..|xs| - 1] + [xs[|xs| - 1]];
    }
  }

  function CountIf<T>(xs: seq<T>, p: T -> bool): nat {
    if xs == [] then 0 else CountIf(xs[..|xs| - 1], p) + (if p(xs[|xs| - 1]) then 1 else 0)
  }

  predicate NoRepeats<T(==)>(xs: seq<T>) {
    forall i, j :: 0 <= i < j < |xs| ==> xs[i] != xs[j]
  }

  function Elements<T>(xs: seq<T>): set<T> {
    set x | x in xs
  }

  /** A list is at least as long as it has members, and exactly as long when none repeats. */
  lemma {:induction false} ElementsCount<T>(xs: seq<T>)
    ensures |Elements(xs)| <= |xs|
    ensures |Elements(xs)| == |xs| <==> NoRepeats(xs)
  {
    if xs == [] {
      assert Elements(xs) == {};
    } else {
      var front, x := xs[..|xs| - 1], xs[|xs| - 1];
      ElementsCount(front);
      ElementsNext(front, x);
      assert xs == front + [x];
      if x in front {
        var j :| 0 <= j < |front| && front[j] == x;
        assert xs[j] == xs[|xs| - 1];
      } else if NoRepeats(front) {
        assert NoRepeats(xs);
      } else {
        var i, j :| 0 <= i < j < |front| && front[i] == front[j];
        assert xs[i] == xs[j];
      }
    }
  }

  lemma ElementsNext<T>(xs: seq<T>, x: T)
    ensures Elements(xs + [x]) == Elements(xs) + {x}
  {
    assert forall y :: y in xs + [x] <==> y in xs || y == x;
  }
}
