/** What the exact test's p-value is: 2 of all labellings, or 1, for samples wholly apart, and no larger the
    farther U is from its mean. */
module PermutationTest {
  import opened MannWhitney

  // ---- U's extremes

  /** Every sample of `a` is above every one of `b`. */
  ghost predicate Above(a: seq<real>, b: seq<real>) {
    forall i, j :: 0 <= i < |a| && 0 <= j < |b| ==> a[i] > b[j]
  }

  lemma {:induction false} RowMost(x: real, b: seq<real>)
    ensures 0.0 <= Row(x, b) <= |b| as real
    ensures Row(x, b) == |b| as real <==> forall j :: 0 <= j < |b| ==> x > b[j]
  {
    if b != [] {
      RowMost(x, b[1..]);
      assert forall j :: 0 < j < |b| ==> b[j] == b[1..][j - 1];
      if Row(x, b[1..]) == |b[1..]| as real && x > b[0] {
        assert forall j :: 0 <= j < |b| ==> x > b[j];
      }
    }
  }

  /** U is at most all the pairs, and all of them exactly when every sample of `a` is above every one of `b`. */
  lemma {:induction false} UMost(a: seq<real>, b: seq<real>)
    ensures 0.0 <= U(a, b) <= (|a| * |b|) as real
    ensures U(a, b) == (|a| * |b|) as real <==> Above(a, b)
  {
    if a != [] {
      var rest := a[1..];
      UMost(rest, b);
      RowMost(a[0], b);
      assert |a| * |b| == |b| + |rest| * |b|;
      assert Above(a, b) <==> Above([a[0]], b) && Above(rest, b) by {
        AboveMore(a, b);
      }
    }
  }

  lemma AboveMore(a: seq<real>, b: seq<real>)
    requires a != []
    ensures Above(a, b) <==> Above([a[0]], b) && Above(a[1..], b)
  {
    assert forall i :: 0 < i < |a| ==> a[i] == a[1..][i - 1];
    if Above([a[0]], b) && Above(a[1..], b) {
      forall i, j | 0 <= i < |a| && 0 <= j < |b| ensures a[i] > b[j] {
        if i == 0 {
          assert [a[0]][0] > b[j];
        }
      }
    }
    if Above(a, b) {
      assert forall i, j :: 0 <= i < |a[1..]| && 0 <= j < |b| ==> a[1..][i] == a[i + 1] > b[j];
    }
  }

  /** None of them exactly when every sample of `b` is above every one of `a`. */
  lemma ULeast(a: seq<real>, b: seq<real>)
    ensures U(a, b) == 0.0 <==> Above(b, a)
  {
    UMost(b, a);
    UMirrors(a, b);
    assert |b| * |a| == |a| * |b|;
  }

  // ---- the slack never matters

  /** Twice a U, counted in halves. */
  function Halves(a: seq<real>, b: seq<real>): int {
    if a == [] then 0 else RowHalves(a[0], b) + Halves(a[1..], b)
  }

  function RowHalves(x: real, b: seq<real>): int {
    if b == [] then 0 else (if x > b[0] then 2 else if x == b[0] then 1 else 0) + RowHalves(x, b[1..])
  }

  lemma {:induction false} RowInHalves(x: real, b: seq<real>)
    ensures 2.0 * Row(x, b) == RowHalves(x, b) as real
  {
    if b != [] {
      RowInHalves(x, b[1..]);
    }
  }

  /** U is the pairs in which the first sample is above the second, and half those in which they are equal. */
  lemma {:induction false} UInHalves(a: seq<real>, b: seq<real>)
    ensures 2.0 * U(a, b) == Halves(a, b) as real
  {
    if a != [] {
      RowInHalves(a[0], b);
      UInHalves(a[1..], b);
    }
  }

  function Mean(n: nat, m: nat): real { (n * m) as real / 2.0 }

  function AbsInt(x: int): int { if x < 0 then -x else x }

  /** A labelling counts exactly when its U is no nearer the mean than the samples' own: the slack takes in
      none that is nearer. */
  lemma ExtremeIff(a: seq<real>, b: seq<real>, c: seq<bool>)
    requires |c| == |a| + |b|
    ensures Extreme(a + b, c, Mean(|a|, |b|), U(a, b))
       <==> Abs(U(Pick(a + b, c, true), Pick(a + b, c, false)) - Mean(|a|, |b|)) >= Abs(U(a, b) - Mean(|a|, |b|))
  {
    hide U, Pick, Halves;
    var s, t, nm := Pick(a + b, c, true), Pick(a + b, c, false), |a| * |b|;
    UInHalves(s, t);
    UInHalves(a, b);
    var x, y := Halves(s, t) - nm, Halves(a, b) - nm;
    assert 2.0 * Abs(U(s, t) - Mean(|a|, |b|)) == AbsInt(x) as real;
    assert 2.0 * Abs(U(a, b) - Mean(|a|, |b|)) == AbsInt(y) as real;
    WholeSteps(AbsInt(x), AbsInt(y));
  }

  lemma WholeSteps(x: int, y: int)
    ensures x as real >= y as real - 2.0 * SLACK <==> x >= y
  {
  }

  // ---- samples wholly apart

  /** Every sample labelled `side` is above every other. */
  ghost predicate Top(pool: seq<real>, c: seq<bool>, side: bool) {
    |c| == |pool| && forall i, j :: 0 <= i < |c| && 0 <= j < |c| && c[i] == side && c[j] != side ==> pool[i] > pool[j]
  }

  lemma {:induction false} Picked(pool: seq<real>, c: seq<bool>, side: bool, x: real)
    requires |pool| == |c|
    ensures x in Pick(pool, c, side) <==> exists i :: 0 <= i < |c| && c[i] == side && pool[i] == x
  {
    if pool != [] {
      Picked(pool[1..], c[1..], side, x);
      if x in Pick(pool[1..], c[1..], side) {
        var i :| 0 <= i < |c[1..]| && c[1..][i] == side && pool[1..][i] == x;
        assert c[i + 1] == side && pool[i + 1] == x;
      }
      if exists i :: 0 <= i < |c| && c[i] == side && pool[i] == x {
        var i :| 0 <= i < |c| && c[i] == side && pool[i] == x;
        if i > 0 {
          assert c[1..][i - 1] == side && pool[1..][i - 1] == x;
        } else {
          assert If(pool[0], true)[0] == x;
          assert Pick(pool, c, side)[0] == x;
        }
      }
    }
  }

  lemma TopIff(pool: seq<real>, c: seq<bool>, side: bool)
    requires |pool| == |c|
    ensures Above(Pick(pool, c, side), Pick(pool, c, !side)) <==> Top(pool, c, side)
  {
    hide Pick;
    var a, b := Pick(pool, c, side), Pick(pool, c, !side);
    if Above(a, b) {
      forall i, j | 0 <= i < |c| && 0 <= j < |c| && c[i] == side && c[j] != side ensures pool[i] > pool[j] {
        Picked(pool, c, side, pool[i]);
        Picked(pool, c, !side, pool[j]);
        var k, l :| 0 <= k < |a| && a[k] == pool[i] && 0 <= l < |b| && b[l] == pool[j];
        assert a[k] > b[l];
      }
    }
    if Top(pool, c, side) {
      forall k, l | 0 <= k < |a| && 0 <= l < |b| ensures a[k] > b[l] {
        Picked(pool, c, side, a[k]);
        Picked(pool, c, !side, b[l]);
        var i :| 0 <= i < |c| && c[i] == side && pool[i] == a[k];
        var j :| 0 <= j < |c| && c[j] == !side && pool[j] == b[l];
        assert pool[i] > pool[j];
      }
    }
  }

  /** Two labellings of as many firsts differ both ways. */
  lemma {:induction false} FirstsAtMost(c: seq<bool>, d: seq<bool>)
    requires |c| == |d| && forall i :: 0 <= i < |c| && c[i] ==> d[i]
    ensures Firsts(c) <= Firsts(d) && (Firsts(c) == Firsts(d) ==> c == d)
  {
    if c != [] {
      FirstsAtMost(c[1..], d[1..]);
      if Firsts(c) == Firsts(d) {
        assert c[0] == d[0] && c[1..] == d[1..];
        assert c == [c[0]] + c[1..] && d == [d[0]] + d[1..];
      }
    }
  }

  lemma OneTop(pool: seq<real>, c: seq<bool>, d: seq<bool>, side: bool)
    requires Top(pool, c, side) && Top(pool, d, side) && Firsts(c) == Firsts(d)
    ensures c == d
  {
    if forall i :: 0 <= i < |c| && c[i] ==> d[i] {
      FirstsAtMost(c, d);
    } else if forall i :: 0 <= i < |c| && d[i] ==> c[i] {
      FirstsAtMost(d, c);
    } else {
      var i :| 0 <= i < |c| && c[i] && !d[i];
      var j :| 0 <= j < |c| && d[j] && !c[j];
      assert pool[if side then i else j] > pool[if side then j else i];
    }
  }

  /** The labelling with the least samples first, if no tie forbids it. */
  ghost predicate Bottomed(a: seq<real>, b: seq<real>) {
    exists c :: c in Labellings(|a| + |b|, |a|) && Top(a + b, c, false)
  }

  lemma ExtremeOfApart(a: seq<real>, b: seq<real>, c: seq<bool>)
    requires a != [] && b != [] && Above(a, b) && c in Labellings(|a| + |b|, |a|)
    ensures |c| == |a| + |b|
    ensures c in Extremes(a, b) <==> Top(a + b, c, true) || Top(a + b, c, false)
  {
    hide U, Pick, Labellings, Extreme, Top, Above;
    IsLabelling(c, |a| + |b|, |a|);
    var x, y := Pick(a + b, c, true), Pick(a + b, c, false);
    PickCounts(a + b, c);
    UMost(a, b);
    ExtremeIff(a, b, c);
    UMost(x, y);
    ULeast(x, y);
    TopIff(a + b, c, true);
    TopIff(a + b, c, false);
    assert |x| * |y| == |a| * |b|;
  }

  lemma ApartExtremes(a: seq<real>, b: seq<real>)
    requires a != [] && b != [] && Above(a, b)
    ensures var own, all := Own(|a|, |b|), Labellings(|a| + |b|, |a|);
            && own in all && Extremes(a, b) <= all
            && forall c :: c in all ==> (c in Extremes(a, b) <==> c == own || Top(a + b, c, false))
  {
    hide U, Pick, Labellings, Extreme, Extremes, Top, Above;
    var own, all, some := Own(|a|, |b|), Labellings(|a| + |b|, |a|), Extremes(a, b);
    OwnLabels(a, b);
    IsLabelling(own, |a| + |b|, |a|);
    TopIff(a + b, own, true);
    forall c | c in some ensures c in all {
      ExtremesAre(a, b, c);
    }
    forall c | c in all ensures c in some <==> c == own || Top(a + b, c, false) {
      ExtremeOfApart(a, b, c);
      IsLabelling(c, |a| + |b|, |a|);
      if Top(a + b, c, true) {
        OneTop(a + b, c, own, true);
      }
    }
  }

  /** Where every sample of `a` is above every one of `b`, the p-value is of the two labellings wholly apart,
      or of the samples' own where ties forbid the other. */
  lemma ApartP(a: seq<real>, b: seq<real>)
    requires a != [] && b != [] && Above(a, b)
    ensures |Labellings(|a| + |b|, |a|)| > 0 && U(a, b) == (|a| * |b|) as real && U(b, a) == 0.0
    ensures P(a, b) == (if Bottomed(a, b) then 2.0 else 1.0) / |Labellings(|a| + |b|, |a|)| as real
  {
    hide U, Labellings, Extremes, Top, Above;
    PIsAProbability(a, b);
    UMost(a, b);
    ULeast(b, a);
    ApartExtremes(a, b);
    var own, all, some := Own(|a|, |b|), Labellings(|a| + |b|, |a|), Extremes(a, b);
    if Bottomed(a, b) {
      var low :| low in all && Top(a + b, low, false);
      forall c | c in some ensures c == own || c == low {
        if Top(a + b, c, false) {
          IsLabelling(c, |a| + |b|, |a|);
          IsLabelling(low, |a| + |b|, |a|);
          OneTop(a + b, c, low, false);
        }
      }
      NotBoth(a, b, low);
      assert some == {own, low};
    } else {
      assert some == {own};
    }
  }

  lemma ExtremesAre(a: seq<real>, b: seq<real>, c: seq<bool>)
    requires c in Extremes(a, b)
    ensures c in Labellings(|a| + |b|, |a|)
  {
    hide Extreme, Labellings;
  }

  lemma NotBoth(a: seq<real>, b: seq<real>, c: seq<bool>)
    requires a != [] && b != [] && Above(a, b) && Top(a + b, c, false)
    ensures c != Own(|a|, |b|)
  {
    var own := Own(|a|, |b|);
    assert own[0] && !own[|a|] && (a + b)[0] == a[0] && (a + b)[|a|] == b[0] && a[0] > b[0];
  }

  /** No tie forbids it between samples of equal sizes. */
  lemma EqualSizesBottomed(a: seq<real>, b: seq<real>)
    requires |a| == |b| && Above(a, b)
    ensures Bottomed(a, b)
  {
    hide Labellings;
    var n := |a|;
    var x, y := seq(n, i => false), seq(n, i => true);
    var c := x + y;
    FirstsBoth(x, y);
    AllFirsts(x, false);
    AllFirsts(y, true);
    IsLabelling(c, n + n, n);
    forall i, j | 0 <= i < |c| && 0 <= j < |c| && c[i] == false && c[j] != false ensures (a + b)[i] > (a + b)[j] {
      assert (a + b)[i] == a[i] && (a + b)[j] == b[j - n];
    }
    assert Top(a + b, c, false);
  }

  lemma {:induction false} AllFirsts(c: seq<bool>, first: bool)
    requires forall i :: 0 <= i < |c| ==> c[i] == first
    ensures Firsts(c) == if first then |c| else 0
  {
    if c != [] {
      AllFirsts(c[1..], first);
    }
  }

  /** Nor where no two samples are equal. */
  lemma DistinctBottomed(a: seq<real>, b: seq<real>)
    requires var pool := a + b; forall i, j :: 0 <= i < j < |pool| ==> pool[i] != pool[j]
    ensures Bottomed(a, b)
  {
    var c := Least(a + b, |a|);
    IsLabelling(c, |a| + |b|, |a|);
  }

  /** The labelling of the `n` least. */
  lemma {:induction false} Least(pool: seq<real>, n: nat) returns (c: seq<bool>)
    requires n <= |pool| && forall i, j :: 0 <= i < j < |pool| ==> pool[i] != pool[j]
    ensures |c| == |pool| && Firsts(c) == n && Top(pool, c, false)
    decreases n
  {
    if n == 0 {
      c := seq(|pool|, i => false);
      AllFirsts(c, false);
    } else {
      var d := Least(pool, n - 1);
      var i := LeastLeft(pool, d);
      c := d[i := true];
      FirstsUpdated(d, i);
    }
  }

  lemma LeastLeft(pool: seq<real>, d: seq<bool>) returns (i: nat)
    requires |d| == |pool| && Firsts(d) < |d|
    ensures i < |d| && !d[i] && forall j :: 0 <= j < |d| && !d[j] ==> pool[i] <= pool[j]
  {
    if forall j :: 0 <= j < |d| ==> d[j] {
      AllFirsts(d, true);
    }
    i :| 0 <= i < |d| && !d[i];
    var k := 0;
    while k < |d|
      invariant 0 <= k <= |d| && i < |d| && !d[i]
      invariant forall j :: 0 <= j < k && !d[j] ==> pool[i] <= pool[j]
    {
      if !d[k] && pool[k] < pool[i] {
        i := k;
      }
      k := k + 1;
    }
  }

  lemma {:induction false} FirstsUpdated(d: seq<bool>, i: nat)
    requires i < |d| && !d[i]
    ensures Firsts(d[i := true]) == Firsts(d) + 1
  {
    if i > 0 {
      FirstsUpdated(d[1..], i - 1);
      assert d[i := true][1..] == d[1..][i - 1 := true];
    } else {
      assert d[i := true][1..] == d[1..];
    }
  }

  /** So it is 2 of all the labellings for samples of equal sizes, or of no two equal values. */
  lemma TwoOfAll(a: seq<real>, b: seq<real>)
    requires a != [] && b != [] && Above(a, b)
    requires |a| == |b| || (var pool := a + b; forall i, j :: 0 <= i < j < |pool| ==> pool[i] != pool[j])
    ensures |Labellings(|a| + |b|, |a|)| > 0
    ensures P(a, b) == 2.0 / |Labellings(|a| + |b|, |a|)| as real
  {
    hide Labellings, Above, Bottomed, P;
    ApartP(a, b);
    if |a| == |b| {
      EqualSizesBottomed(a, b);
    } else {
      DistinctBottomed(a, b);
    }
  }

  // ---- one pool

  lemma {:induction false} UTaken(a: seq<real>, a': seq<real>, b: seq<real>)
    requires multiset(a) == multiset(a')
    ensures U(a, b) == U(a', b)
    decreases |a|
  {
    if a == [] {
      assert |multiset(a')| == 0;
    } else {
      assert a[0] in multiset(a');
      var j :| 0 <= j < |a'| && a'[j] == a[0];
      var rest := a'[..j] + a'[j + 1..];
      Without(a', j);
      assert a == [a[0]] + a[1..];
      Cancel(a[0], multiset(a[1..]), multiset(rest));
      UTaken(a[1..], rest, b);
      assert a' == a'[..j] + ([a[0]] + a'[j + 1..]);
      UBoth(a'[..j], [a[0]] + a'[j + 1..], b);
      UBoth([a[0]], a'[j + 1..], b);
      UBoth(a'[..j], a'[j + 1..], b);
      UBoth([a[0]], a[1..], b);
    }
  }

  lemma Cancel(x: real, s: multiset<real>, t: multiset<real>)
    requires multiset{x} + s == multiset{x} + t
    ensures s == t
  {
    assert multiset{x} + s - multiset{x} == s && multiset{x} + t - multiset{x} == t;
  }

  lemma Without(s: seq<real>, j: nat)
    requires j < |s|
    ensures multiset(s) == multiset{s[j]} + multiset(s[..j] + s[j + 1..])
  {
    assert s == s[..j] + ([s[j]] + s[j + 1..]);
  }

  /** U does not depend on the samples' order. */
  lemma UOfMultisets(a: seq<real>, a': seq<real>, b: seq<real>, b': seq<real>)
    requires multiset(a) == multiset(a') && multiset(b) == multiset(b')
    ensures U(a, b) == U(a', b')
  {
    UTaken(a, a', b);
    UTaken(b, b', a');
    UMirrors(a', b);
    UMirrors(a', b');
    assert |b| == |multiset(b)| == |b'|;
  }

  /** Groups of `n` and `m` samples with a U at least `far` from the mean. */
  datatype Tail = Tail(n: nat, m: nat, far: real)

  ghost predicate Within(s: multiset<real>, t: multiset<real>, q: Tail) {
    exists x, y :: multiset(x) == s && multiset(y) == t && Abs(U(x, y) - Mean(q.n, q.m)) >= q.far - SLACK
  }

  lemma WithinIff(s: seq<real>, t: seq<real>, q: Tail)
    ensures Within(multiset(s), multiset(t), q) <==> Abs(U(s, t) - Mean(q.n, q.m)) >= q.far - SLACK
  {
    hide U, Abs, Mean;
    forall x, y | multiset(x) == multiset(s) && multiset(y) == multiset(t) ensures U(x, y) == U(s, t) {
      UOfMultisets(x, s, y, t);
    }
    assert multiset(s) == multiset(s) && multiset(t) == multiset(t);
  }

  /** How many ways to label `p`, with `n` more in the first group, make groups with `s` and `t` in the tail. */
  ghost function Ways(p: seq<real>, n: nat, s: multiset<real>, t: multiset<real>, q: Tail): nat
    decreases |p|
  {
    if p == [] then if n == 0 && Within(s, t, q) then 1 else 0
    else (if n > 0 then Ways(p[1..], n - 1, s + multiset{p[0]}, t, q) else 0) + Ways(p[1..], n, s, t + multiset{p[0]}, q)
  }

  /** A smaller tail has fewer. */
  lemma {:induction false} WaysFewer(p: seq<real>, n: nat, s: multiset<real>, t: multiset<real>, q: Tail, far: real)
    requires q.far <= far
    ensures Ways(p, n, s, t, q.(far := far)) <= Ways(p, n, s, t, q)
    decreases |p|
  {
    hide U, Abs, Mean;
    if p != [] {
      if n > 0 {
        WaysFewer(p[1..], n - 1, s + multiset{p[0]}, t, q, far);
      }
      WaysFewer(p[1..], n, s, t + multiset{p[0]}, q, far);
    }
  }

  lemma WaysSwapped(x: real, y: real, r: seq<real>, n: nat, s: multiset<real>, t: multiset<real>, q: Tail)
    ensures Ways([x] + ([y] + r), n, s, t, q) == Ways([y] + ([x] + r), n, s, t, q)
  {
    hide Within;
    var a, b := [x] + ([y] + r), [y] + ([x] + r);
    assert a[1..] == [y] + r && ([y] + r)[1..] == r && b[1..] == [x] + r && ([x] + r)[1..] == r;
    assert s + multiset{x} + multiset{y} == s + multiset{y} + multiset{x};
    assert t + multiset{x} + multiset{y} == t + multiset{y} + multiset{x};
  }

  /** The ways do not depend on the pool's order. */
  lemma {:induction false} WaysOfPool(p: seq<real>, p': seq<real>, n: nat, s: multiset<real>, t: multiset<real>, q: Tail)
    requires multiset(p) == multiset(p')
    ensures Ways(p, n, s, t, q) == Ways(p', n, s, t, q)
    decreases |p|, 1
  {
    hide Ways;
    assert |p| == |multiset(p)| == |multiset(p')| == |p'|;
    if p != [] {
      var x, y := p[0], p'[0];
      assert p == [x] + p[1..] && p' == [y] + p'[1..];
      if x == y {
        Cancel(x, multiset(p[1..]), multiset(p'[1..]));
        AfterFirst(p, p'[1..], n, s, t, q);
      } else {
        assert y in multiset(p) && y in multiset(p[1..]);
        var j :| 0 <= j < |p[1..]| && p[1..][j] == y;
        var r := p[1..][..j] + p[1..][j + 1..];
        Without(p[1..], j);
        assert multiset(p) == multiset{x} + (multiset{y} + multiset(r));
        assert multiset(p') == multiset{y} + multiset(p'[1..]);
        assert multiset{x} + (multiset{y} + multiset(r)) == multiset{y} + (multiset{x} + multiset(r));
        Cancel(y, multiset(p'[1..]), multiset{x} + multiset(r));
        AfterFirst(p, [y] + r, n, s, t, q);
        AfterFirst(p', [x] + r, n, s, t, q);
        WaysSwapped(x, y, r, n, s, t, q);
      }
    } else {
      assert p' == [];
    }
  }

  lemma AfterFirst(p: seq<real>, rest: seq<real>, n: nat, s: multiset<real>, t: multiset<real>, q: Tail)
    requires p != [] && multiset(p[1..]) == multiset(rest)
    ensures Ways(p, n, s, t, q) == Ways([p[0]] + rest, n, s, t, q)
    decreases |p|, 0
  {
    assert ([p[0]] + rest)[1..] == rest;
    if n > 0 {
      WaysOfPool(p[1..], rest, n - 1, s + multiset{p[0]}, t, q);
    }
    WaysOfPool(p[1..], rest, n, s, t + multiset{p[0]}, q);
  }

  // ---- the labellings are the ways

  ghost predicate Makes(p: seq<real>, c: seq<bool>, s: multiset<real>, t: multiset<real>, q: Tail)
    requires |p| == |c|
  {
    Within(s + multiset(Pick(p, c, true)), t + multiset(Pick(p, c, false)), q)
  }

  ghost function Groups(p: seq<real>, n: nat, s: multiset<real>, t: multiset<real>, q: Tail): set<seq<bool>> {
    set c | c in Labellings(|p|, n) && |c| == |p| && Makes(p, c, s, t, q)
  }

  ghost function Prefixed(x: bool, cs: set<seq<bool>>): set<seq<bool>> { set c | c in cs :: [x] + c }

  lemma {:induction false} PrefixedSize(x: bool, cs: set<seq<bool>>)
    ensures |Prefixed(x, cs)| == |cs|
  {
    if cs != {} {
      var c :| c in cs;
      PrefixedSize(x, cs - {c});
      forall d ensures d in Prefixed(x, cs) <==> d in Prefixed(x, cs - {c}) + {[x] + c} {
        Prepended(x, cs, d);
        Prepended(x, cs - {c}, d);
        assert ([x] + c)[1..] == c;
        if d != [] {
          assert d == [d[0]] + d[1..];
        }
      }
      Prepended(x, cs - {c}, [x] + c);
      assert Prefixed(x, cs) == Prefixed(x, cs - {c}) + {[x] + c};
    }
  }

  lemma MakesFirst(p: seq<real>, c: seq<bool>, s: multiset<real>, t: multiset<real>, q: Tail)
    requires |p| == |c| > 0
    ensures Makes(p, c, s, t, q)
         == if c[0] then Makes(p[1..], c[1..], s + multiset{p[0]}, t, q) else Makes(p[1..], c[1..], s, t + multiset{p[0]}, q)
  {
    hide Within, Pick;
    PickFirst(p, c, true);
    PickFirst(p, c, false);
    if c[0] {
      Added(s, p[0], Pick(p[1..], c[1..], true));
      assert [] + Pick(p[1..], c[1..], false) == Pick(p[1..], c[1..], false);
    } else {
      Added(t, p[0], Pick(p[1..], c[1..], false));
      assert [] + Pick(p[1..], c[1..], true) == Pick(p[1..], c[1..], true);
    }
  }

  lemma Added(s: multiset<real>, x: real, a: seq<real>)
    ensures s + multiset([x] + a) == s + multiset{x} + multiset(a)
  {
  }

  lemma PickFirst(p: seq<real>, c: seq<bool>, side: bool)
    requires |p| == |c| > 0
    ensures Pick(p, c, side) == If(p[0], c[0] == side) + Pick(p[1..], c[1..], side)
  {
  }

  lemma GroupsOf(p: seq<real>, n: nat, s: multiset<real>, t: multiset<real>, q: Tail, c: seq<bool>)
    requires p != []
    ensures c in Groups(p, n, s, t, q)
       <==> || (n > 0 && c in Prefixed(true, Groups(p[1..], n - 1, s + multiset{p[0]}, t, q)))
            || c in Prefixed(false, Groups(p[1..], n, s, t + multiset{p[0]}, q))
  {
    hide Makes, Labellings;
    var x, rest := multiset{p[0]}, p[1..];
    IsLabelling(c, |p|, n);
    Prepended(false, Groups(rest, n, s, t + x, q), c);
    if n > 0 {
      Prepended(true, Groups(rest, n - 1, s + x, t, q), c);
    }
    if c != [] && |c| == |p| {
      IsLabelling(c[1..], |rest|, n);
      if n > 0 {
        IsLabelling(c[1..], |rest|, n - 1);
      }
      MakesFirst(p, c, s, t, q);
    }
  }

  lemma Disjoint(first: set<seq<bool>>, second: set<seq<bool>>)
    ensures |Prefixed(true, first) + Prefixed(false, second)| == |first| + |second|
  {
    forall c | c in Prefixed(true, first) ensures c !in Prefixed(false, second) {
      Prepended(true, first, c);
      Prepended(false, second, c);
    }
    assert Prefixed(true, first) !! Prefixed(false, second);
    PrefixedSize(true, first);
    PrefixedSize(false, second);
  }

  lemma GroupsSplit(p: seq<real>, n: nat, s: multiset<real>, t: multiset<real>, q: Tail)
    requires |p| > 0
    ensures |Groups(p, n, s, t, q)|
         == (if n > 0 then |Groups(p[1..], n - 1, s + multiset{p[0]}, t, q)| else 0)
            + |Groups(p[1..], n, s, t + multiset{p[0]}, q)|
  {
    hide Groups, Prefixed;
    var first := if n > 0 then Groups(p[1..], n - 1, s + multiset{p[0]}, t, q) else {};
    var second := Groups(p[1..], n, s, t + multiset{p[0]}, q);
    NonePrefixed(true);
    forall c ensures c in Groups(p, n, s, t, q) <==> c in Prefixed(true, first) + Prefixed(false, second) {
      GroupsOf(p, n, s, t, q, c);
    }
    assert Groups(p, n, s, t, q) == Prefixed(true, first) + Prefixed(false, second);
    Disjoint(first, second);
  }

  lemma {:induction false} GroupsAreWays(p: seq<real>, n: nat, s: multiset<real>, t: multiset<real>, q: Tail)
    ensures |Groups(p, n, s, t, q)| == Ways(p, n, s, t, q)
    decreases |p|
  {
    hide Groups, Ways;
    if |p| == 0 {
      assert p == [];
      NoGroups(n, s, t, q);
    } else {
      GroupsAreWays(p[1..], n, s, t + multiset{p[0]}, q);
      if n > 0 {
        GroupsAreWays(p[1..], n - 1, s + multiset{p[0]}, t, q);
      }
      GroupsSplit(p, n, s, t, q);
      WaysSplit(p, n, s, t, q);
    }
  }

  lemma WaysSplit(p: seq<real>, n: nat, s: multiset<real>, t: multiset<real>, q: Tail)
    requires |p| > 0
    ensures Ways(p, n, s, t, q)
         == (if n > 0 then Ways(p[1..], n - 1, s + multiset{p[0]}, t, q) else 0) + Ways(p[1..], n, s, t + multiset{p[0]}, q)
  {
  }

  lemma NonePrefixed(x: bool)
    ensures Prefixed(x, {}) == {}
  {
  }

  lemma NoGroups(n: nat, s: multiset<real>, t: multiset<real>, q: Tail)
    ensures |Groups([], n, s, t, q)| == Ways([], n, s, t, q)
  {
    hide Within;
    assert s + multiset{} == s && t + multiset{} == t;
    assert Pick([], [], true) == [] && Pick([], [], false) == [];
    forall c ensures c in Groups([], n, s, t, q) <==> c == [] && n == 0 && Within(s, t, q) {
      IsLabelling(c, 0, n);
    }
    if n == 0 && Within(s, t, q) {
      assert Groups([], n, s, t, q) == {[]};
    } else {
      assert Groups([], n, s, t, q) == {};
    }
  }

  // ---- the p-value falls with the distance from the mean

  function TailOf(a: seq<real>, b: seq<real>): Tail {
    Tail(|a|, |b|, Abs(U(a, b) - Mean(|a|, |b|)))
  }

  lemma ExtremesAreWays(a: seq<real>, b: seq<real>)
    ensures |Extremes(a, b)| == Ways(a + b, |a|, multiset{}, multiset{}, TailOf(a, b))
  {
    hide U, Pick, Labellings, Within, Abs, Ways;
    var pool, q := a + b, TailOf(a, b);
    forall c: seq<bool> | |c| == |pool|
      ensures Extreme(pool, c, Mean(|a|, |b|), U(a, b)) <==> Makes(pool, c, multiset{}, multiset{}, q) {
      var s, t := Pick(pool, c, true), Pick(pool, c, false);
      assert multiset{} + multiset(s) == multiset(s) && multiset{} + multiset(t) == multiset(t);
      WithinIff(s, t, q);
    }
    hide Extreme, Makes;
    assert Extremes(a, b) == Groups(pool, |a|, multiset{}, multiset{}, q);
    GroupsAreWays(pool, |a|, multiset{}, multiset{}, q);
  }

  /** The same samples, in any order. */
  ghost predicate OnePool(p: seq<real>, p': seq<real>) { multiset(p) == multiset(p') }

  lemma FewerExtremes(a: seq<real>, b: seq<real>, a': seq<real>, b': seq<real>)
    requires |a| == |a'| && |b| == |b'| && OnePool(a' + b', a + b)
    requires TailOf(a, b).far <= TailOf(a', b').far
    ensures |Extremes(a', b')| <= |Extremes(a, b)|
  {
    hide Extremes, Ways, TailOf, OnePool;
    var q, q' := TailOf(a, b), TailOf(a', b');
    assert q' == q.(far := q'.far) by {
      TailsAre(a, b);
      TailsAre(a', b');
    }
    ExtremesAreWays(a, b);
    ExtremesAreWays(a', b');
    WaysFewer(a + b, |a|, multiset{}, multiset{}, q, q'.far);
    PoolWays(a' + b', a + b, |a|, q');
  }

  lemma TailsAre(a: seq<real>, b: seq<real>)
    ensures TailOf(a, b).n == |a| && TailOf(a, b).m == |b|
  {
  }

  lemma PoolWays(p: seq<real>, p': seq<real>, n: nat, q: Tail)
    requires OnePool(p, p')
    ensures Ways(p, n, multiset{}, multiset{}, q) == Ways(p', n, multiset{}, multiset{}, q)
  {
    WaysOfPool(p, p', n, multiset{}, multiset{}, q);
  }

  /** Of two ways to part one pool into groups of the same sizes, the one whose U is farther from the mean has
      no larger a p-value. */
  lemma PFalls(a: seq<real>, b: seq<real>, a': seq<real>, b': seq<real>)
    requires |a| == |a'| && |b| == |b'| && OnePool(a' + b', a + b)
    requires Abs(U(a, b) - Mean(|a|, |b|)) <= Abs(U(a', b') - Mean(|a|, |b|))
    ensures |Labellings(|a| + |b|, |a|)| > 0 && P(a', b') <= P(a, b)
  {
    hide U, Labellings, Extremes, Abs, Mean, OnePool;
    PIsAProbability(a, b);
    FewerExtremes(a, b, a', b');
    Fewer(|Extremes(a', b')|, |Extremes(a, b)|, |Labellings(|a| + |b|, |a|)|);
  }

  lemma Fewer(k: nat, l: nat, n: nat)
    requires k <= l && n > 0
    ensures k as real / n as real <= l as real / n as real
  {
  }
}
