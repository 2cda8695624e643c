/** Facts about sequences and their permutations used by the other modules. */
module SeqFacts {

  /** Taking the first element off one of two permutations of each other,
      and the same value off the other, leaves permutations. */
  lemma RemoveMatching<T>(xs: seq<T>, ys: seq<T>, j: nat)
    requires xs != [] && j < |ys| && ys[j] == xs[0]
    requires multiset(xs) == multiset(ys)
    ensures multiset(ys[..j] + ys[j + 1..]) == multiset(xs[1..])
  {
    var x := xs[0];
    assert xs == [x] + xs[1..];
    assert ys == ys[..j] + [x] + ys[j + 1..];
    var before, after := multiset(ys[..j]), multiset(ys[j + 1..]);
    assert multiset(ys) == before + multiset{x} + after;
    assert multiset(xs) == multiset{x} + multiset(xs[1..]);
    assert multiset(ys[..j] + ys[j + 1..]) == before + after;
    forall e ensures (before + after)[e] == multiset(xs[1..])[e] {
      assert multiset(ys)[e] == before[e] + multiset{x}[e] + after[e];
      assert multiset(xs)[e] == multiset{x}[e] + multiset(xs[1..])[e];
    }
  }

  /** `f` applied to every element, in order. */
  function MapSeq<A, B>(f: A -> B, xs: seq<A>): (ys: seq<B>)
    ensures |ys| == |xs|
    ensures forall i | 0 <= i < |xs| :: ys[i] == f(xs[i])
  {
    seq(|xs|, i requires 0 <= i < |xs| => f(xs[i]))
  }

  /** Mapping permutations of each other gives permutations of each other. */
  lemma {:induction false} MapPermutation<A, B>(f: A -> B, xs: seq<A>, ys: seq<A>)
    requires multiset(xs) == multiset(ys)
    ensures multiset(MapSeq(f, xs)) == multiset(MapSeq(f, ys))
    decreases |xs|
  {
    if xs == [] {
      assert |ys| == |multiset(ys)| == 0;
    } else {
      var x := xs[0];
      assert x in multiset(ys);
      var j :| 0 <= j < |ys| && ys[j] == x;
      RemoveMatching(xs, ys, j);
      MapPermutation(f, xs[1..], ys[..j] + ys[j + 1..]);
      assert MapSeq(f, xs) == [f(x)] + MapSeq(f, xs[1..]);
      assert MapSeq(f, ys) == MapSeq(f, ys[..j]) + [f(x)] + MapSeq(f, ys[j + 1..]);
      assert MapSeq(f, ys[..j] + ys[j + 1..]) == MapSeq(f, ys[..j]) + MapSeq(f, ys[j + 1..]);
    }
  }

  /** The concatenation of `f` applied to every element, in order. */
  function FlatMap<A, B>(f: A -> seq<B>, xs: seq<A>): seq<B>
  {
    if xs == [] then [] else FlatMap(f, xs[..|xs| - 1]) + f(xs[|xs| - 1])
  }

  lemma {:induction false} FlatMapAppend<A, B>(f: A -> seq<B>, xs: seq<A>, ys: seq<A>)
    ensures FlatMap(f, xs + ys) == FlatMap(f, xs) + FlatMap(f, ys)
    decreases |ys|
  {
    if ys == [] {
      assert xs + ys == xs;
    } else {
      var front, last := ys[..|ys| - 1], ys[|ys| - 1];
      assert (xs + ys)[..|xs + ys| - 1] == xs + front && (xs + ys)[|xs + ys| - 1] == last;
      FlatMapAppend(f, xs, front);
    }
  }

  lemma FlatMapSingle<A, B>(f: A -> seq<B>, x: A)
    ensures FlatMap(f, [x]) == f(x)
  {
    assert [x][..0] == [];
  }

  lemma FlatMapPair<A, B>(f: A -> seq<B>, x: A, y: A)
    ensures FlatMap(f, [x, y]) == f(x) + f(y)
  {
    assert [x, y][..1] == [x];
    FlatMapSingle(f, x);
  }

  /** The result is empty exactly when `f` gives nothing for every element. */
  lemma {:induction false} FlatMapEmpty<A, B>(f: A -> seq<B>, xs: seq<A>)
    ensures FlatMap(f, xs) == [] <==> forall i | 0 <= i < |xs| :: f(xs[i]) == []
  {
    if xs != [] {
      var front := xs[..|xs| - 1];
      FlatMapEmpty(f, front);
      assert forall i | 0 <= i < |front| :: front[i] == xs[i];
    }
  }

  /** Permutations of each other give permutations of each other. */
  lemma {:induction false} FlatMapPermutation<A, B>(f: A -> seq<B>, xs: seq<A>, ys: seq<A>)
    requires multiset(xs) == multiset(ys)
    ensures multiset(FlatMap(f, xs)) == multiset(FlatMap(f, ys))
    decreases |xs|
  {
    if xs == [] {
      assert |ys| == |multiset(ys)| == 0;
    } else {
      var x := xs[0];
      assert x in multiset(ys);
      var j :| 0 <= j < |ys| && ys[j] == x;
      RemoveMatching(xs, ys, j);
      FlatMapPermutation(f, xs[1..], ys[..j] + ys[j + 1..]);
      assert xs == [x] + xs[1..];
      assert ys == ys[..j] + ([x] + ys[j + 1..]);
      FlatMapSingle(f, x);
      FlatMapAppend(f, [x], xs[1..]);
      FlatMapAppend(f, ys[..j], [x] + ys[j + 1..]);
      FlatMapAppend(f, [x], ys[j + 1..]);
      FlatMapAppend(f, ys[..j], ys[j + 1..]);
    }
  }
}
