/** Column means that skip missing values, as a pandas `Series.mean()` over a
    column coerced to numbers: a column with no number at all has no mean. */
module Averages {
  import opened Options
  import opened SeqFacts

  /** The sum of the numbers in a column. */
  function Sum(xs: seq<Option<real>>): real
  {
    if xs == [] then 0.0
    else (if xs[0].Some? then xs[0].value else 0.0) + Sum(xs[1..])
  }

  /** How many cells of a column hold a number. */
  function Count(xs: seq<Option<real>>): (n: nat)
  {
    if xs == [] then 0
    else (if xs[0].Some? then 1 else 0) + Count(xs[1..])
  }

  /** A column counts no number exactly when every cell is missing. */
  lemma {:induction false} CountZeroIffAllMissing(xs: seq<Option<real>>)
    ensures Count(xs) == 0 <==> forall i | 0 <= i < |xs| :: xs[i].None?
  {
    if xs != [] {
      CountZeroIffAllMissing(xs[1..]);
      assert forall i | 1 <= i < |xs| :: xs[i] == xs[1..][i - 1];
    }
  }

  /** The mean of the numbers in a column; none when the column has none. */
  function Mean(xs: seq<Option<real>>): (m: Option<real>)
    ensures m.None? <==> forall i | 0 <= i < |xs| :: xs[i].None?
    ensures m.Some? ==> m.value * (Count(xs) as real) == Sum(xs)
  {
    CountZeroIffAllMissing(xs);
    if Count(xs) == 0 then None else Some(Sum(xs) / (Count(xs) as real))
  }

  lemma {:induction false} SumCountAppend(a: seq<Option<real>>, b: seq<Option<real>>)
    ensures Sum(a + b) == Sum(a) + Sum(b)
    ensures Count(a + b) == Count(a) + Count(b)
  {
    if a == [] {
      assert a + b == b;
    } else {
      assert (a + b)[1..] == a[1..] + b;
      SumCountAppend(a[1..], b);
    }
  }

  /** The mean of a column does not depend on the order of its cells. */
  lemma {:induction false} MeanPermutation(xs: seq<Option<real>>, ys: seq<Option<real>>)
    requires multiset(xs) == multiset(ys)
    ensures Sum(xs) == Sum(ys) && Count(xs) == Count(ys)
    ensures Mean(xs) == Mean(ys)
    decreases |xs|
  {
    if xs == [] {
      assert |ys| == |multiset(ys)| == 0;
    } else {
      var x := xs[0];
      assert x in multiset(ys);
      var j :| 0 <= j < |ys| && ys[j] == x;
      var rest := ys[..j] + ys[j + 1..];
      RemoveMatching(xs, ys, j);
      assert ys == ys[..j] + ([x] + ys[j + 1..]);
      assert xs == [x] + xs[1..];
      MeanPermutation(xs[1..], rest);
      SumCountAppend([x], xs[1..]);
      SumCountAppend(ys[..j], [x] + ys[j + 1..]);
      SumCountAppend([x], ys[j + 1..]);
      SumCountAppend(ys[..j], ys[j + 1..]);
    }
  }

  /** A column holding a single number has that number as its mean. */
  lemma MeanOfSingle(x: Option<real>)
    ensures Mean([x]) == x
  {
    assert [x][1..] == [];
    assert Count([x]) == if x.Some? then 1 else 0;
    assert Sum([x]) == if x.Some? then x.value else 0.0;
  }

  lemma MeanOfPair(x: real, y: real)
    ensures Mean([Some(x), Some(y)]) == Some((x + y) / 2.0)
  {
    var xs := [Some(x), Some(y)];
    assert xs[1..] == [Some(y)] && xs[1..][1..] == [];
    assert Sum(xs[1..]) == y && Count(xs[1..]) == 1;
    assert Sum(xs) == x + y && Count(xs) == 2;
  }

  /** A mean lies between the smallest and largest numbers of its column. */
  lemma MeanWithinBounds(xs: seq<Option<real>>, lo: real, hi: real)
    requires forall i | 0 <= i < |xs| :: xs[i].Some? ==> lo <= xs[i].value <= hi
    ensures Mean(xs).Some? ==> lo <= Mean(xs).value <= hi
  {
    SumWithinBounds(xs, lo, hi);
    if Count(xs) > 0 {
      QuotientWithinBounds(Sum(xs), Count(xs) as real, lo, hi);
    }
  }

  lemma QuotientWithinBounds(s: real, n: real, lo: real, hi: real)
    requires n > 0.0 && lo * n <= s <= hi * n
    ensures lo <= s / n <= hi
  {
    var q := s / n;
    assert q * n == s;
    assert (q - lo) * n == s - lo * n;
    assert (hi - q) * n == hi * n - s;
  }

  lemma {:induction false} SumWithinBounds(xs: seq<Option<real>>, lo: real, hi: real)
    requires forall i | 0 <= i < |xs| :: xs[i].Some? ==> lo <= xs[i].value <= hi
    ensures lo * (Count(xs) as real) <= Sum(xs) <= hi * (Count(xs) as real)
  {
    if xs != [] {
      var tail := xs[1..];
      SumWithinBounds(tail, lo, hi);
      if xs[0].Some? {
        StepBounds(Sum(tail), Count(tail) as real, xs[0].value, lo, hi);
      }
    }
  }

  lemma StepBounds(s: real, c: real, v: real, lo: real, hi: real)
    requires lo * c <= s <= hi * c && lo <= v <= hi
    ensures lo * (c + 1.0) <= s + v <= hi * (c + 1.0)
  {
    assert lo * (c + 1.0) == lo * c + lo;
    assert hi * (c + 1.0) == hi * c + hi;
  }
}
