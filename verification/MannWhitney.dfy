/** The performance report's exact Mann-Whitney test. A choice of which pooled samples are the first
    group's is a sequence of labels, one a sample. */
module MannWhitney {

  function Wins(x: real, y: real): real { if x > y then 1.0 else if x == y then 0.5 else 0.0 }

  function Row(x: real, b: seq<real>): real {
    if b == [] then 0.0 else Wins(x, b[0]) + Row(x, b[1..])
  }

  function U(a: seq<real>, b: seq<real>): real {
    if a == [] then 0.0 else Row(a[0], b) + U(a[1..], b)
  }

  function If(x: real, picked: bool): seq<real> { if picked then [x] else [] }

  /** The samples labelled `side`. */
  function Pick(pool: seq<real>, labels: seq<bool>, side: bool): seq<real>
    requires |pool| == |labels|
  {
    if pool == [] then [] else If(pool[0], labels[0] == side) + Pick(pool[1..], labels[1..], side)
  }

  function Firsts(labels: seq<bool>): nat {
    if labels == [] then 0 else Firsts(labels[1..]) + if labels[0] then 1 else 0
  }

  /** Every labelling of `size` samples with `n` in the first group. */
  ghost function Labellings(size: nat, n: nat): set<seq<bool>> {
    if size == 0 then if n == 0 then {[]} else {}
    else
      (if n > 0 then set c | c in Labellings(size - 1, n - 1) :: [true] + c else {})
      + set c | c in Labellings(size - 1, n) :: [false] + c
  }

  function Abs(x: real): real { if x < 0.0 then -x else x }

  const SLACK: real := 0.000000001

  /** A labelling's U is as far from the mean as the samples' own. */
  predicate Extreme(pool: seq<real>, labels: seq<bool>, mean: real, u: real)
    requires |pool| == |labels|
  {
    Abs(U(Pick(pool, labels, true), Pick(pool, labels, false)) - mean) >= Abs(u - mean) - SLACK
  }

  ghost function Extremes(a: seq<real>, b: seq<real>): set<seq<bool>> {
    var size, mean := |a| + |b|, (|a| * |b|) as real / 2.0;
    set c | c in Labellings(size, |a|) && |c| == size && Extreme(a + b, c, mean, U(a, b))
  }

  ghost function P(a: seq<real>, b: seq<real>): real
    requires |Labellings(|a| + |b|, |a|)| > 0
  {
    |Extremes(a, b)| as real / |Labellings(|a| + |b|, |a|)| as real
  }

  // ---- labellings

  lemma Prepended(x: bool, cs: set<seq<bool>>, c: seq<bool>)
    ensures c in (set d | d in cs :: [x] + d) <==> c != [] && c[0] == x && c[1..] in cs
  {
    if c != [] {
      assert c == [c[0]] + c[1..];
    }
    if c in (set d | d in cs :: [x] + d) {
      var d :| d in cs && [x] + d == c;
      assert c[1..] == d;
    }
  }

  lemma {:induction false} IsLabelling(c: seq<bool>, size: nat, n: nat)
    ensures c in Labellings(size, n) <==> |c| == size && Firsts(c) == n
    decreases size
  {
    if size > 0 {
      if n > 0 {
        Prepended(true, Labellings(size - 1, n - 1), c);
      }
      Prepended(false, Labellings(size - 1, n), c);
      if c != [] {
        IsLabelling(c[1..], size - 1, n);
        if n > 0 {
          IsLabelling(c[1..], size - 1, n - 1);
        }
      }
    }
  }

  function Own(n: nat, m: nat): (c: seq<bool>)
    ensures |c| == n + m
  {
    seq(n, i => true) + seq(m, i => false)
  }

  lemma {:induction false} PickAll(p: seq<real>, c: seq<bool>, side: bool)
    requires |p| == |c| && forall i :: 0 <= i < |c| ==> c[i] == side
    ensures Pick(p, c, side) == p && Pick(p, c, !side) == []
  {
    if p != [] {
      PickAll(p[1..], c[1..], side);
    }
  }

  lemma OwnLabels(a: seq<real>, b: seq<real>)
    ensures Firsts(Own(|a|, |b|)) == |a|
    ensures Pick(a + b, Own(|a|, |b|), true) == a && Pick(a + b, Own(|a|, |b|), false) == b
  {
    hide Pick;
    var c, d := seq(|a|, i => true), seq(|b|, i => false);
    PickAll(a, c, true);
    PickAll(b, d, false);
    PickBoth(a, b, c, d, true);
    PickBoth(a, b, c, d, false);
    PickCounts(a + b, c + d);
  }

  /** The samples' own labelling is among them, so there is one, and it is extreme: the p-value is over 0
      and at most 1. */
  lemma PIsAProbability(a: seq<real>, b: seq<real>)
    ensures |Labellings(|a| + |b|, |a|)| > 0
    ensures 0.0 < P(a, b) <= 1.0
  {
    hide Labellings, U, Pick;
    var own, all, some := Own(|a|, |b|), Labellings(|a| + |b|, |a|), Extremes(a, b);
    OwnLabels(a, b);
    IsLabelling(own, |a| + |b|, |a|);
    assert own in all && own in some;
    Subset(some, all);
    assert |some| > 0 by {
      Subset({own}, some);
    }
    Ratio(|some|, |all|);
  }

  lemma Ratio(k: nat, n: nat)
    requires 0 < k <= n
    ensures 0.0 < k as real / n as real <= 1.0
  {
  }

  lemma {:induction false} Subset<T>(a: set<T>, b: set<T>)
    requires a <= b
    ensures |a| <= |b|
  {
    if a != {} {
      var x :| x in a;
      Subset(a - {x}, b - {x});
    }
  }

  // ---- U and its mirror

  lemma {:induction false} RowBoth(x: real, b: seq<real>, c: seq<real>)
    ensures Row(x, b + c) == Row(x, b) + Row(x, c)
  {
    if b == [] {
      assert b + c == c;
    } else {
      assert (b + c)[1..] == b[1..] + c;
      RowBoth(x, b[1..], c);
    }
  }

  lemma {:induction false} UBoth(a: seq<real>, b: seq<real>, c: seq<real>)
    ensures U(a + b, c) == U(a, c) + U(b, c)
  {
    if a == [] {
      assert a + b == b;
    } else {
      assert (a + b)[1..] == a[1..] + b;
      UBoth(a[1..], b, c);
    }
  }

  lemma {:induction false} UOfBoth(a: seq<real>, b: seq<real>, c: seq<real>)
    ensures U(a, b + c) == U(a, b) + U(a, c)
  {
    if a != [] {
      RowBoth(a[0], b, c);
      UOfBoth(a[1..], b, c);
    }
  }

  lemma {:induction false} RowMirrors(x: real, b: seq<real>)
    ensures Row(x, b) + U(b, [x]) == |b| as real
  {
    if b != [] {
      RowMirrors(x, b[1..]);
      assert [x][1..] == [];
      assert Row(b[0], [x]) == Wins(b[0], x) + Row(b[0], []);
    }
  }

  lemma {:induction false} EmptyU(b: seq<real>)
    ensures U(b, []) == 0.0
  {
    if b != [] {
      EmptyU(b[1..]);
    }
  }

  /** Every pair of samples is counted once between the two. */
  lemma {:induction false} UMirrors(a: seq<real>, b: seq<real>)
    ensures U(a, b) + U(b, a) == (|a| * |b|) as real
    decreases |a|
  {
    if a == [] {
      EmptyU(b);
    } else {
      var x, rest := a[0], a[1..];
      UMirrors(rest, b);
      RowMirrors(x, b);
      assert a == [x] + rest;
      UOfBoth(b, [x], rest);
      assert |a| * |b| == |b| + |rest| * |b|;
    }
  }

  // ---- the other way round

  /** The labels of the pool the other way round, with the groups swapped. */
  function Turn(c: seq<bool>, n: nat): (d: seq<bool>)
    requires n <= |c|
    ensures |d| == |c|
  {
    var turned := c[n..] + c[..n];
    seq(|c|, i requires 0 <= i < |c| => !turned[i])
  }

  lemma TurnBack(c: seq<bool>, n: nat)
    requires n <= |c|
    ensures Turn(Turn(c, n), |c| - n) == c
  {
  }

  lemma {:induction false} FirstsBoth(c: seq<bool>, d: seq<bool>)
    ensures Firsts(c + d) == Firsts(c) + Firsts(d)
  {
    if c == [] {
      assert c + d == d;
    } else {
      assert (c + d)[1..] == c[1..] + d;
      FirstsBoth(c[1..], d);
    }
  }

  lemma {:induction false} FirstsOfNot(c: seq<bool>, d: seq<bool>)
    requires |c| == |d| && forall i :: 0 <= i < |c| ==> d[i] == !c[i]
    ensures Firsts(d) == |c| - Firsts(c)
  {
    if c != [] {
      FirstsOfNot(c[1..], d[1..]);
    }
  }

  lemma {:induction false} PickBoth(p: seq<real>, q: seq<real>, c: seq<bool>, d: seq<bool>, side: bool)
    requires |p| == |c| && |q| == |d|
    ensures Pick(p + q, c + d, side) == Pick(p, c, side) + Pick(q, d, side)
  {
    if p == [] {
      assert p + q == q && c + d == d;
    } else {
      assert (p + q)[1..] == p[1..] + q && (c + d)[1..] == c[1..] + d;
      PickBoth(p[1..], q, c[1..], d, side);
      hide If;
      var first, rest, more := If(p[0], c[0] == side), Pick(p[1..], c[1..], side), Pick(q, d, side);
      assert first + (rest + more) == (first + rest) + more;
    }
  }

  lemma {:induction false} PickOfNot(p: seq<real>, c: seq<bool>, d: seq<bool>, side: bool)
    requires |p| == |c| == |d| && forall i :: 0 <= i < |c| ==> d[i] == !c[i]
    ensures Pick(p, d, side) == Pick(p, c, !side)
  {
    if p != [] {
      PickOfNot(p[1..], c[1..], d[1..], side);
    }
  }

  lemma {:induction false} PickCounts(p: seq<real>, c: seq<bool>)
    requires |p| == |c|
    ensures |Pick(p, c, true)| == Firsts(c) && |Pick(p, c, false)| == |c| - Firsts(c)
  {
    if p != [] {
      PickCounts(p[1..], c[1..]);
    }
  }

  lemma SwappedU(a1: seq<real>, b1: seq<real>, a0: seq<real>, b0: seq<real>)
    ensures U(a1 + b1, a0 + b0) + U(b0 + a0, b1 + a1) == (|a1 + b1| * |a0 + b0|) as real
  {
    hide U;
    var first, second := a1 + b1, a0 + b0;
    UMirrors(first, second);
    UBoth(b0, a0, b1 + a1);
    UBoth(a0, b0, first);
    UOfBoth(a0, a1, b1);
    UOfBoth(b0, a1, b1);
    UOfBoth(a0, b1, a1);
    UOfBoth(b0, b1, a1);
    assert U(second, first) == U(b0 + a0, b1 + a1);
  }

  lemma PickOfTurned(a: seq<real>, b: seq<real>, c: seq<bool>, side: bool)
    requires |c| == |a| + |b|
    ensures var x, y := c[..|a|], c[|a|..];
            && Pick(a + b, c, side) == Pick(a, x, side) + Pick(b, y, side)
            && Pick(b + a, Turn(c, |a|), side) == Pick(b, y, !side) + Pick(a, x, !side)
  {
    hide Pick;
    var x, y := c[..|a|], c[|a|..];
    assert c == x + y;
    PickBoth(a, b, x, y, side);
    PickOfNot(b + a, y + x, Turn(c, |a|), side);
    PickBoth(b, a, y, x, !side);
  }

  lemma FirstsOfTurned(c: seq<bool>, n: nat)
    requires n <= |c|
    ensures Firsts(Turn(c, n)) == |c| - Firsts(c)
  {
    hide Firsts;
    var x, y := c[..n], c[n..];
    assert c == x + y;
    FirstsBoth(x, y);
    FirstsBoth(y, x);
    FirstsOfNot(y + x, Turn(c, n));
  }

  /** A turned labelling's U is the rest of all the pairs. */
  lemma TurnedU(a: seq<real>, b: seq<real>, c: seq<bool>)
    requires |c| == |a| + |b| && Firsts(c) == |a|
    ensures var d := Turn(c, |a|);
            && Firsts(d) == |b|
            && U(Pick(a + b, c, true), Pick(a + b, c, false)) + U(Pick(b + a, d, true), Pick(b + a, d, false))
               == (|a| * |b|) as real
  {
    hide U, Pick, Turn, Firsts;
    var x, y := c[..|a|], c[|a|..];
    FirstsOfTurned(c, |a|);
    PickOfTurned(a, b, c, true);
    PickOfTurned(a, b, c, false);
    PickCounts(a + b, c);
    SwappedU(Pick(a, x, true), Pick(b, y, true), Pick(a, x, false), Pick(b, y, false));
  }

  lemma TurnExtreme(a: seq<real>, b: seq<real>, c: seq<bool>)
    requires c in Extremes(a, b)
    ensures Turn(c, |a|) in Extremes(b, a)
  {
    hide U, Pick, Labellings;
    var size, d := |a| + |b|, Turn(c, |a|);
    IsLabelling(c, size, |a|);
    TurnedU(a, b, c);
    IsLabelling(d, size, |b|);
    UMirrors(a, b);
    assert |b| + |a| == size && |b| * |a| == |a| * |b|;
  }

  lemma {:induction false} NoMore<T(!new)>(a: set<T>, b: set<T>, f: T -> T)
    requires forall x :: x in a ==> f(x) in b
    requires forall x, y :: x in a && y in a && f(x) == f(y) ==> x == y
    ensures |a| <= |b|
  {
    if a != {} {
      var x :| x in a;
      NoMore(a - {x}, b - {f(x)}, f);
    }
  }

  /** Turning a labelling, or leaving what has too few labels. */
  function TurnOr(c: seq<bool>, n: nat): seq<bool> { if n <= |c| then Turn(c, n) else c }

  lemma NoMoreExtremes(a: seq<real>, b: seq<real>)
    ensures |Extremes(a, b)| <= |Extremes(b, a)|
    ensures |Labellings(|a| + |b|, |a|)| <= |Labellings(|b| + |a|, |b|)|
  {
    hide U, Pick, Labellings, Turn, Extreme;
    var n, all := |a|, Labellings(|a| + |b|, |a|);
    forall c | c in all ensures |c| == |a| + |b| && Firsts(c) == |a| && TurnOr(c, n) in Labellings(|b| + |a|, |b|) {
      IsLabelling(c, |a| + |b|, |a|);
      TurnedU(a, b, c);
      IsLabelling(Turn(c, n), |b| + |a|, |b|);
    }
    forall c, d | c in all && d in all && TurnOr(c, n) == TurnOr(d, n) ensures c == d {
      TurnBack(c, n);
      TurnBack(d, n);
    }
    forall c | c in Extremes(a, b) ensures TurnOr(c, n) in Extremes(b, a) {
      TurnExtreme(a, b, c);
    }
    NoMore(all, Labellings(|b| + |a|, |b|), c => TurnOr(c, n));
    NoMore(Extremes(a, b), Extremes(b, a), c => TurnOr(c, n));
  }

  /** The p-value is the same whichever samples come first. */
  lemma PIsSymmetric(a: seq<real>, b: seq<real>)
    ensures |Labellings(|a| + |b|, |a|)| > 0 && |Labellings(|b| + |a|, |b|)| > 0
    ensures P(a, b) == P(b, a)
  {
    hide Labellings, Extremes;
    PIsAProbability(a, b);
    PIsAProbability(b, a);
    NoMoreExtremes(a, b);
    NoMoreExtremes(b, a);
  }
}
