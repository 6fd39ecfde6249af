/** The performance report's matching of doorbells to interrupts, in a trace of a boot: a doorbell of a
    FIFO is matched to a later read of the interrupt mask with the FIFO's bit, under a lenient rule and a
    strict one. */
module Doorbells {
  import opened Options

  /** FIFO numbers a doorbell can have. */
  type Fifo = n: nat | 1 <= n < 64 witness 1

  datatype Event = Door(fifo: Fifo) | Interrupt | Read(mask: set<nat>) | Other

  datatype Line = Line(time: real, event: Event)

  /** Doorbell `door`, matched to the read at `read`. */
  datatype Match = Match(door: nat, read: nat, latency: real)

  predicate Ordered(trace: seq<Line>) {
    forall i, j :: 0 <= i < j < |trace| ==> trace[i].time <= trace[j].time
  }

  function Max(a: real, b: real): real { if a > b then a else b }

  // ---- what the loop computes

  /** The last interrupt before line `i`. */
  function LastIrq(trace: seq<Line>, i: nat): (k: Option<nat>)
    requires i <= |trace|
    ensures k.Some? ==> k.value < i && trace[k.value].event.Interrupt?
    ensures k.Some? ==> forall j :: k.value < j < i ==> !trace[j].event.Interrupt?
    ensures k.None? ==> forall j :: 0 <= j < i ==> !trace[j].event.Interrupt?
  {
    if i == 0 then None else if trace[i - 1].event.Interrupt? then Some(i - 1) else LastIrq(trace, i - 1)
  }

  /** When the interrupt a read at `i` answers was raised. */
  function Stamped(trace: seq<Line>, i: nat): real
    requires i < |trace|
  {
    var k := LastIrq(trace, i);
    if k.Some? then trace[k.value].time else trace[i].time
  }

  /** Whether a read at `i` takes doorbell `d`: the strict rule wants an interrupt after its line. */
  predicate Takes(trace: seq<Line>, i: nat, d: nat, strict: bool)
    requires i <= |trace|
  {
    !strict || (LastIrq(trace, i).Some? && LastIrq(trace, i).value > d)
  }

  function Latency(trace: seq<Line>, i: nat, d: nat, strict: bool): real
    requires i < |trace| && d < |trace|
  {
    if strict then Stamped(trace, i) - trace[d].time
    else Max(Stamped(trace, i), trace[d].time) - trace[d].time
  }

  predicate Reads(trace: seq<Line>, i: nat, n: nat)
    requires i < |trace|
  {
    trace[i].event.Read? && n in trace[i].event.mask
  }

  predicate Doors(trace: seq<Line>, ds: seq<nat>) {
    forall k :: 0 <= k < |ds| ==> ds[k] < |trace|
  }

  /** The doorbells of `ds` a read at `i` leaves. */
  function Left(trace: seq<Line>, i: nat, ds: seq<nat>, strict: bool): (r: seq<nat>)
    requires i < |trace| && Doors(trace, ds)
    ensures Doors(trace, r)
  {
    if ds == [] then []
    else
      var d, rest := ds[|ds| - 1], Left(trace, i, ds[..|ds| - 1], strict);
      if Takes(trace, i, d, strict) then rest else rest + [d]
  }

  /** Those it takes. */
  function Taken(trace: seq<Line>, i: nat, ds: seq<nat>, strict: bool): seq<Match>
    requires i < |trace| && Doors(trace, ds)
  {
    if ds == [] then []
    else
      var d, rest := ds[|ds| - 1], Taken(trace, i, ds[..|ds| - 1], strict);
      if Takes(trace, i, d, strict) then rest + [Match(d, i, Latency(trace, i, d, strict))] else rest
  }

  /** The doorbells of FIFO `n` before line `i` that no read has taken. */
  function Pending(trace: seq<Line>, i: nat, n: nat, strict: bool): (r: seq<nat>)
    requires i <= |trace|
    ensures Doors(trace, r)
  {
    if i == 0 then []
    else
      var before := Pending(trace, i - 1, n, strict);
      var e := trace[i - 1].event;
      if e.Door? && e.fifo == n then before + [i - 1]
      else if Reads(trace, i - 1, n) then Left(trace, i - 1, before, strict)
      else before
  }

  /** What a read at `i` takes of the FIFOs under `n`. */
  function TakenUnder(trace: seq<Line>, i: nat, n: nat, strict: bool): seq<Match>
    requires i < |trace|
    decreases n, i
  {
    if n == 0 then []
    else TakenUnder(trace, i, n - 1, strict)
         + if Reads(trace, i, n - 1) then Taken(trace, i, Pending(trace, i, n - 1, strict), strict) else []
  }

  const FIFOS: nat := 64

  /** The matches of the first `i` lines. */
  function Matches(trace: seq<Line>, i: nat, strict: bool): seq<Match>
    requires i <= |trace|
  {
    if i == 0 then [] else Matches(trace, i - 1, strict) + TakenUnder(trace, i - 1, FIFOS, strict)
  }

  function Get(m: map<nat, seq<nat>>, n: nat): seq<nat> { if n in m then m[n] else [] }

  method MatchDoorbells(trace: seq<Line>) returns (
      lenient: seq<Match>, strict: seq<Match>, pending: map<nat, seq<nat>>, pendingStrict: map<nat, seq<nat>>)
    ensures lenient == Matches(trace, |trace|, false) && strict == Matches(trace, |trace|, true)
    ensures forall n: nat :: n < FIFOS ==> Get(pending, n) == Pending(trace, |trace|, n, false)
    ensures forall n: nat :: n < FIFOS ==> Get(pendingStrict, n) == Pending(trace, |trace|, n, true)
  {
    hide Left, Taken, TakenUnder, Latency, Stamped, Takes;
    lenient, strict, pending, pendingStrict := [], [], map[], map[];
    var lastIrq: Option<nat> := None;
    var i := 0;
    while i < |trace|
      invariant 0 <= i <= |trace| && lastIrq == LastIrq(trace, i)
      invariant lenient == Matches(trace, i, false) && strict == Matches(trace, i, true)
      invariant forall n: nat :: n < FIFOS ==> Get(pending, n) == Pending(trace, i, n, false)
      invariant forall n: nat :: n < FIFOS ==> Get(pendingStrict, n) == Pending(trace, i, n, true)
    {
      match trace[i].event {
        case Door(fifo) =>
          NoRead(trace, i, FIFOS);
          pending := pending[fifo := Get(pending, fifo) + [i]];
          pendingStrict := pendingStrict[fifo := Get(pendingStrict, fifo) + [i]];
        case Interrupt =>
          NoRead(trace, i, FIFOS);
          lastIrq := Some(i);
        case Read(mask) =>
          lenient, strict, pending, pendingStrict := MatchRead(trace, i, lastIrq, lenient, strict, pending, pendingStrict);
        case Other =>
          NoRead(trace, i, FIFOS);
      }
      i := i + 1;
    }
  }

  lemma {:induction false} NoRead(trace: seq<Line>, i: nat, n: nat)
    requires i < |trace| && !trace[i].event.Read?
    ensures TakenUnder(trace, i, n, false) == [] && TakenUnder(trace, i, n, true) == []
  {
    if n > 0 {
      NoRead(trace, i, n - 1);
    }
  }

  lemma AfterRead(trace: seq<Line>, i: nat, n: nat, strict: bool)
    requires i < |trace| && trace[i].event.Read?
    ensures var before := Pending(trace, i, n, strict);
            Pending(trace, i + 1, n, strict) == if n in trace[i].event.mask then Left(trace, i, before, strict) else before
  {
    hide Left;
  }

  /** The FIFOs under `n` have been seen to at the read at `i`, and the others not. */
  ghost predicate ReadUnder(trace: seq<Line>, i: nat, n: nat, p: map<nat, seq<nat>>, strict: bool)
    requires i < |trace|
  {
    && (forall m: nat :: m < n ==> Get(p, m) == Pending(trace, i + 1, m, strict))
    && (forall m: nat :: n <= m < FIFOS ==> Get(p, m) == Pending(trace, i, m, strict))
  }

  lemma ReadNone(trace: seq<Line>, i: nat, p: map<nat, seq<nat>>, strict: bool)
    requires i < |trace|
    requires forall m: nat :: m < FIFOS ==> Get(p, m) == Pending(trace, i, m, strict)
    ensures ReadUnder(trace, i, 0, p, strict)
  {
  }

  lemma ReadAll(trace: seq<Line>, i: nat, p: map<nat, seq<nat>>, strict: bool)
    requires i < |trace| && ReadUnder(trace, i, FIFOS, p, strict)
    ensures forall m: nat :: m < FIFOS ==> Get(p, m) == Pending(trace, i + 1, m, strict)
  {
  }

  lemma ReadOne(trace: seq<Line>, i: nat, n: nat, p: map<nat, seq<nat>>, strict: bool)
    requires i < |trace| && trace[i].event.Read? && n < FIFOS && ReadUnder(trace, i, n, p, strict)
    ensures Get(p, n) == Pending(trace, i, n, strict) && Doors(trace, Get(p, n))
    ensures ReadUnder(trace, i, n + 1,
                      if n in trace[i].event.mask then p[n := Left(trace, i, Get(p, n), strict)] else p, strict)
  {
    hide Pending, Left, Reads;
    AfterRead(trace, i, n, strict);
    assert Get(p, n) == Pending(trace, i, n, strict);
    var q := if n in trace[i].event.mask then p[n := Left(trace, i, Get(p, n), strict)] else p;
    forall m: nat | m < n + 1 ensures Get(q, m) == Pending(trace, i + 1, m, strict) {
      if m == n {
        assert Get(q, n) == Pending(trace, i + 1, n, strict);
      } else {
        assert Get(q, m) == Get(p, m);
      }
    }
  }

  /** One read of the mask, for each FIFO whose bit is set. */
  method MatchRead(trace: seq<Line>, i: nat, lastIrq: Option<nat>, lenientBefore: seq<Match>, strictBefore: seq<Match>,
                   pendingBefore: map<nat, seq<nat>>, pendingStrictBefore: map<nat, seq<nat>>)
    returns (lenient: seq<Match>, strict: seq<Match>, pending: map<nat, seq<nat>>, pendingStrict: map<nat, seq<nat>>)
    requires i < |trace| && trace[i].event.Read? && lastIrq == LastIrq(trace, i)
    requires forall n: nat :: n < FIFOS ==> Get(pendingBefore, n) == Pending(trace, i, n, false)
    requires forall n: nat :: n < FIFOS ==> Get(pendingStrictBefore, n) == Pending(trace, i, n, true)
    ensures lenient == lenientBefore + TakenUnder(trace, i, FIFOS, false)
    ensures strict == strictBefore + TakenUnder(trace, i, FIFOS, true)
    ensures forall n: nat :: n < FIFOS ==> Get(pending, n) == Pending(trace, i + 1, n, false)
    ensures forall n: nat :: n < FIFOS ==> Get(pendingStrict, n) == Pending(trace, i + 1, n, true)
  {
    hide LastIrq, Left, Taken, Takes, Latency, Stamped, Pending, ReadUnder;
    ReadNone(trace, i, pendingBefore, false);
    ReadNone(trace, i, pendingStrictBefore, true);
    lenient, strict, pending, pendingStrict := lenientBefore, strictBefore, pendingBefore, pendingStrictBefore;
    var n: nat := 0;
    while n < FIFOS
      invariant n <= FIFOS
      invariant lenient == lenientBefore + TakenUnder(trace, i, n, false)
      invariant strict == strictBefore + TakenUnder(trace, i, n, true)
      invariant ReadUnder(trace, i, n, pending, false) && ReadUnder(trace, i, n, pendingStrict, true)
    {
      ReadOne(trace, i, n, pending, false);
      ReadOne(trace, i, n, pendingStrict, true);
      if n in trace[i].event.mask {
        var taken, left := TakeAll(trace, i, lastIrq, Get(pending, n), false);
        var takenStrict, keep := TakeAll(trace, i, lastIrq, Get(pendingStrict, n), true);
        lenient := lenient + taken;
        strict := strict + takenStrict;
        pending := pending[n := left];
        pendingStrict := pendingStrict[n := keep];
      }
      n := n + 1;
    }
    ReadAll(trace, i, pending, false);
    ReadAll(trace, i, pendingStrict, true);
  }

  /** The doorbells of one FIFO, at one read. */
  method TakeAll(trace: seq<Line>, i: nat, lastIrq: Option<nat>, ds: seq<nat>, strict: bool)
    returns (taken: seq<Match>, keep: seq<nat>)
    requires i < |trace| && lastIrq == LastIrq(trace, i) && Doors(trace, ds)
    ensures taken == Taken(trace, i, ds, strict) && keep == Left(trace, i, ds, strict)
  {
    hide LastIrq;
    taken, keep := [], [];
    var stamped := if lastIrq.Some? then trace[lastIrq.value].time else trace[i].time;
    var k := 0;
    while k < |ds|
      invariant 0 <= k <= |ds|
      invariant taken == Taken(trace, i, ds[..k], strict) && keep == Left(trace, i, ds[..k], strict)
    {
      var d := ds[k];
      assert ds[..k + 1][..k] == ds[..k];
      if !strict {
        taken := taken + [Match(d, i, Max(stamped, trace[d].time) - trace[d].time)];
      } else if lastIrq.Some? && lastIrq.value > d {
        taken := taken + [Match(d, i, stamped - trace[d].time)];
      } else {
        keep := keep + [d];
      }
      k := k + 1;
    }
    assert ds[..k] == ds;
  }

  // ---- each doorbell is matched once, at the first read that takes it, or is pending

  function Times(ds: seq<nat>, d: nat): nat {
    if ds == [] then 0 else Times(ds[..|ds| - 1], d) + if ds[|ds| - 1] == d then 1 else 0
  }

  function Count(ms: seq<Match>, d: nat): nat {
    if ms == [] then 0 else Count(ms[..|ms| - 1], d) + if ms[|ms| - 1].door == d then 1 else 0
  }

  lemma {:induction false} CountBoth(a: seq<Match>, b: seq<Match>, d: nat)
    ensures Count(a + b, d) == Count(a, d) + Count(b, d)
  {
    if b == [] {
      assert a + b == a;
    } else {
      var n := |b| - 1;
      assert (a + b)[..|a| + n] == a + b[..n];
      CountBoth(a, b[..n], d);
    }
  }

  lemma {:induction false} CountIn(ms: seq<Match>, d: nat) returns (m: Match)
    requires Count(ms, d) > 0
    ensures m in ms && m.door == d
  {
    var n := |ms| - 1;
    if ms[n].door == d {
      m := ms[n];
    } else {
      m := CountIn(ms[..n], d);
    }
  }

  lemma {:induction false} TakenOrLeft(trace: seq<Line>, i: nat, ds: seq<nat>, strict: bool, d: nat)
    requires i < |trace| && Doors(trace, ds)
    ensures Times(Left(trace, i, ds, strict), d) == if Takes(trace, i, d, strict) then 0 else Times(ds, d)
    ensures Count(Taken(trace, i, ds, strict), d) == if Takes(trace, i, d, strict) then Times(ds, d) else 0
  {
    hide Takes, Latency;
    if ds != [] {
      var n := |ds| - 1;
      TakenOrLeft(trace, i, ds[..n], strict, d);
      var left, last := Left(trace, i, ds[..n], strict), ds[n];
      assert (left + [last])[..|left|] == left;
      var taken, m := Taken(trace, i, ds[..n], strict), Match(last, i, Latency(trace, i, last, strict));
      assert (taken + [m])[..|taken|] == taken;
    }
  }

  /** No read before line `i` has taken doorbell `d` of FIFO `n`. */
  ghost predicate Waits(trace: seq<Line>, d: nat, i: nat, n: nat, strict: bool)
    requires i <= |trace|
  {
    && d < i && trace[d].event.Door? && trace[d].event.fifo == n
    && forall j :: d < j < i && Reads(trace, j, n) ==> !Takes(trace, j, d, strict)
  }

  lemma WaitsOneMore(trace: seq<Line>, d: nat, i: nat, n: nat, strict: bool)
    requires 0 < i <= |trace|
    ensures Waits(trace, d, i, n, strict)
       <==> || (d == i - 1 && trace[d].event.Door? && trace[d].event.fifo == n)
            || (Waits(trace, d, i - 1, n, strict) && !(Reads(trace, i - 1, n) && Takes(trace, i - 1, d, strict)))
  {
    hide Takes;
  }

  lemma {:induction false} PendingIsWaiting(trace: seq<Line>, i: nat, n: nat, strict: bool, d: nat)
    requires i <= |trace|
    ensures Times(Pending(trace, i, n, strict), d) == if Waits(trace, d, i, n, strict) then 1 else 0
  {
    hide Takes, Left, Waits, Times;
    if i == 0 {
      assert Times([], d) == 0 by {
        NoTimes(d);
      }
      assert !Waits(trace, d, 0, n, strict) by {
        NoneWait(trace, d, n, strict);
      }
    } else {
      PendingIsWaiting(trace, i - 1, n, strict, d);
      WaitsOneMore(trace, d, i, n, strict);
      NotYet(trace, i - 1, n, strict);
      var before := Pending(trace, i - 1, n, strict);
      TakenOrLeft(trace, i - 1, before, strict, d);
      TimesMore(before, i - 1, d);
    }
  }

  lemma TimesMore(ds: seq<nat>, x: nat, d: nat)
    ensures Times(ds + [x], d) == Times(ds, d) + if x == d then 1 else 0
  {
    assert (ds + [x])[..|ds|] == ds;
  }

  lemma NoTimes(d: nat)
    ensures Times([], d) == 0
  {
  }

  lemma NoneWait(trace: seq<Line>, d: nat, n: nat, strict: bool)
    ensures !Waits(trace, d, 0, n, strict)
  {
  }

  lemma NotYet(trace: seq<Line>, i: nat, n: nat, strict: bool)
    requires i < |trace|
    ensures !Waits(trace, i, i, n, strict)
  {
  }

  /** The read at `i` takes doorbell `d` of FIFO `n`, which no read before it did. */
  ghost predicate TakenAt(trace: seq<Line>, d: nat, i: nat, n: nat, strict: bool)
    requires i < |trace|
  {
    Waits(trace, d, i, n, strict) && Reads(trace, i, n) && Takes(trace, i, d, strict)
  }

  lemma {:induction false} TakenUnderCount(trace: seq<Line>, i: nat, m: nat, strict: bool, d: nat, n: Fifo)
    requires i < |trace|
    requires d < i ==> trace[d].event == Door(n) || !trace[d].event.Door?
    ensures Count(TakenUnder(trace, i, m, strict), d) == if n < m && TakenAt(trace, d, i, n, strict) then 1 else 0
    decreases m
  {
    hide Takes, Pending, Taken;
    if m > 0 {
      TakenUnderCount(trace, i, m - 1, strict, d, n);
      var before := Pending(trace, i, m - 1, strict);
      PendingIsWaiting(trace, i, m - 1, strict, d);
      TakenOrLeft(trace, i, before, strict, d);
      CountBoth(TakenUnder(trace, i, m - 1, strict), Taken(trace, i, before, strict), d);
      CountBoth(TakenUnder(trace, i, m - 1, strict), [], d);
    }
  }

  /** Under either rule every doorbell is matched exactly once or is still pending, once; and nothing else
      is matched. */
  lemma {:induction false} OnceOrPending(trace: seq<Line>, i: nat, strict: bool, d: nat, n: Fifo)
    requires i <= |trace| && d < |trace|
    requires trace[d].event == Door(n) || !trace[d].event.Door?
    ensures Count(Matches(trace, i, strict), d) + Times(Pending(trace, i, n, strict), d)
         == if d < i && trace[d].event.Door? then 1 else 0
    ensures Count(Matches(trace, i, strict), d) == 1 <==>
            d < i && trace[d].event.Door? && !Waits(trace, d, i, n, strict)
  {
    hide Takes, Pending, TakenUnder;
    PendingIsWaiting(trace, i, n, strict, d);
    if i > 0 {
      OnceOrPending(trace, i - 1, strict, d, n);
      PendingIsWaiting(trace, i - 1, n, strict, d);
      TakenUnderCount(trace, i - 1, FIFOS, strict, d, n);
      CountBoth(Matches(trace, i - 1, strict), TakenUnder(trace, i - 1, FIFOS, strict), d);
    }
  }

  /** A match is of a doorbell with the first later read that takes it. */
  ghost predicate IsMatch(trace: seq<Line>, m: Match, strict: bool) {
    && m.read < |trace|
    && m.door < m.read
    && trace[m.door].event.Door?
    && TakenAt(trace, m.door, m.read, trace[m.door].event.fifo, strict)
    && m.latency == Latency(trace, m.read, m.door, strict)
  }

  lemma {:induction false} TakenAre(trace: seq<Line>, i: nat, n: nat, ds: seq<nat>, strict: bool)
    requires i < |trace| && Reads(trace, i, n) && Doors(trace, ds)
    requires forall k :: 0 <= k < |ds| ==> Waits(trace, ds[k], i, n, strict)
    ensures forall m :: m in Taken(trace, i, ds, strict) ==> IsMatch(trace, m, strict)
  {
    hide Takes, Latency;
    if ds != [] {
      var last := |ds| - 1;
      TakenAre(trace, i, n, ds[..last], strict);
      assert Waits(trace, ds[last], i, n, strict);
    }
  }

  lemma {:induction false} PendingWait(trace: seq<Line>, i: nat, n: nat, strict: bool)
    requires i <= |trace|
    ensures forall k :: 0 <= k < |Pending(trace, i, n, strict)| ==> Waits(trace, Pending(trace, i, n, strict)[k], i, n, strict)
  {
    hide Takes, Pending;
    var ds := Pending(trace, i, n, strict);
    forall k | 0 <= k < |ds| ensures Waits(trace, ds[k], i, n, strict) {
      Occurs(ds, k);
      PendingIsWaiting(trace, i, n, strict, ds[k]);
    }
  }

  lemma {:induction false} Occurs(ds: seq<nat>, k: nat)
    requires k < |ds|
    ensures Times(ds, ds[k]) > 0
  {
    if k < |ds| - 1 {
      Occurs(ds[..|ds| - 1], k);
    }
  }

  lemma {:induction false} TakenUnderAre(trace: seq<Line>, i: nat, m: nat, strict: bool)
    requires i < |trace|
    ensures forall x :: x in TakenUnder(trace, i, m, strict) ==> IsMatch(trace, x, strict)
    decreases m
  {
    hide IsMatch, Pending, Waits, Taken;
    if m > 0 {
      TakenUnderAre(trace, i, m - 1, strict);
      if Reads(trace, i, m - 1) {
        PendingWait(trace, i, m - 1, strict);
        TakenAre(trace, i, m - 1, Pending(trace, i, m - 1, strict), strict);
      }
    }
  }

  lemma {:induction false} MatchesAre(trace: seq<Line>, i: nat, strict: bool)
    requires i <= |trace|
    ensures forall m :: m in Matches(trace, i, strict) ==> IsMatch(trace, m, strict)
  {
    hide IsMatch, TakenUnder;
    if i > 0 {
      MatchesAre(trace, i - 1, strict);
      TakenUnderAre(trace, i - 1, FIFOS, strict);
    }
  }

  // ---- the two rules in plain terms

  /** An interrupt is raised between lines `lo` and `hi`. */
  ghost predicate Raised(trace: seq<Line>, lo: nat, hi: nat)
    requires hi <= |trace|
  {
    exists k :: lo < k < hi && trace[k].event.Interrupt?
  }

  lemma TakesIff(trace: seq<Line>, i: nat, d: nat, strict: bool)
    requires d < i <= |trace|
    ensures Takes(trace, i, d, strict) <==> !strict || Raised(trace, d, i)
  {
    hide LastIrq;
    var k := LastIrq(trace, i);
    if k.Some? && k.value > d {
      assert trace[k.value].event.Interrupt?;
    }
  }

  lemma TakenAtIff(trace: seq<Line>, d: nat, i: nat, n: Fifo, strict: bool)
    requires d < i < |trace| && trace[d].event == Door(n)
    ensures TakenAt(trace, d, i, n, strict)
       <==> && trace[i].event.Read? && n in trace[i].event.mask && (strict ==> Raised(trace, d, i))
            && forall j :: d < j < i && trace[j].event.Read? && n in trace[j].event.mask
                 ==> strict && !Raised(trace, d, j)
  {
    hide Takes, Raised;
    TakesIff(trace, i, d, strict);
    forall j | d < j < i && trace[j].event.Read? && n in trace[j].event.mask
      ensures Reads(trace, j, n) && (Takes(trace, j, d, strict) <==> !strict || Raised(trace, d, j)) {
      TakesIff(trace, j, d, strict);
    }
    if Waits(trace, d, i, n, strict) {
      forall j | d < j < i && trace[j].event.Read? && n in trace[j].event.mask
        ensures strict && !Raised(trace, d, j) {
        assert Reads(trace, j, n);
      }
    }
  }

  /** A doorbell is matched with a read exactly when the read has its FIFO's bit, under the strict rule an
      interrupt comes between the two, and no read before it between them does as much. */
  lemma MatchedIff(trace: seq<Line>, d: nat, i: nat, n: Fifo, strict: bool)
    requires d < i < |trace| && trace[d].event == Door(n)
    ensures (exists m :: m in Matches(trace, |trace|, strict) && m.door == d && m.read == i)
       <==> && trace[i].event.Read? && n in trace[i].event.mask && (strict ==> Raised(trace, d, i))
            && forall j :: d < j < i && trace[j].event.Read? && n in trace[j].event.mask
                 ==> strict && !Raised(trace, d, j)
  {
    hide Matches, Raised, Latency, Waits, Takes;
    TakenAtIff(trace, d, i, n, strict);
    MatchesAre(trace, |trace|, strict);
    if TakenAt(trace, d, i, n, strict) {
      OnceOrPending(trace, |trace|, strict, d, n);
      TakenThenDone(trace, d, i, n, strict);
      var m := CountIn(Matches(trace, |trace|, strict), d);
      TakenOnce(trace, d, i, m.read, n, strict);
    }
  }

  lemma TakenThenDone(trace: seq<Line>, d: nat, i: nat, n: Fifo, strict: bool)
    requires i < |trace| && TakenAt(trace, d, i, n, strict)
    ensures !Waits(trace, d, |trace|, n, strict)
  {
    hide Takes;
  }

  lemma TakenOnce(trace: seq<Line>, d: nat, i: nat, j: nat, n: Fifo, strict: bool)
    requires i < |trace| && j < |trace| && TakenAt(trace, d, i, n, strict) && TakenAt(trace, d, j, n, strict)
    ensures i == j
  {
    hide Takes;
  }

  /** A match's latency is the time from the doorbell's line to the last interrupt before the read, or where
      there is none, to the read; under the lenient rule it is 0 where that is negative. */
  lemma LatencyIs(trace: seq<Line>, m: Match, strict: bool, k: nat)
    requires m in Matches(trace, |trace|, strict)
    ensures m.door < m.read < |trace|
    ensures k < m.read && trace[k].event.Interrupt? && (forall j :: k < j < m.read ==> !trace[j].event.Interrupt?) ==>
              var time := trace[k].time - trace[m.door].time;
              m.latency == if !strict && time < 0.0 then 0.0 else time
    ensures (forall j :: 0 <= j < m.read ==> !trace[j].event.Interrupt?) ==>
              var time := trace[m.read].time - trace[m.door].time;
              !strict && m.latency == if time < 0.0 then 0.0 else time
  {
    hide Matches, Waits, LastIrq;
    MatchesAre(trace, |trace|, strict);
  }

  // ---- the two rules compared

  /** A lenient latency is never negative; nor, in a trace in order, is a strict one. */
  lemma LatenciesArePositive(trace: seq<Line>, m: Match, strict: bool)
    requires Ordered(trace) && m in Matches(trace, |trace|, strict)
    ensures m.latency >= 0.0
  {
    hide Matches, Waits;
    MatchesAre(trace, |trace|, strict);
  }

  lemma LastIrqGrows(trace: seq<Line>, i: nat, j: nat)
    requires i <= j <= |trace| && LastIrq(trace, i).Some?
    ensures LastIrq(trace, j).Some? && LastIrq(trace, j).value >= LastIrq(trace, i).value
  {
  }

  /** Lenient match `l` bounds strict match `m` of one doorbell: it is no later, its latency is no larger,
      and it is `m` itself when an interrupt followed the doorbell's line before its first read. */
  predicate Bounds(trace: seq<Line>, l: Match, m: Match) {
    && l.door == m.door && l.read <= m.read && l.latency <= m.latency
    && l.read < |trace|
    && (Takes(trace, l.read, l.door, true) ==> l == m)
  }

  /** A doorbell the strict rule matches the lenient rule matches too, no later and with a latency no
      larger; and with the same when an interrupt followed its line before its first read. */
  lemma {:induction false} StrictIsAnUpperBound(trace: seq<Line>, m: Match)
    requires Ordered(trace) && m in Matches(trace, |trace|, true)
    ensures exists l :: l in Matches(trace, |trace|, false) && Bounds(trace, l, m)
  {
    hide Matches;
    MatchesAre(trace, |trace|, true);
    MatchesAre(trace, |trace|, false);
    var d, n := m.door, trace[m.door].event.fifo;
    OnceOrPending(trace, |trace|, false, d, n);
    assert !Waits(trace, d, |trace|, n, false);
    var l := CountIn(Matches(trace, |trace|, false), d);
    Compare(trace, l, m);
  }

  lemma Compare(trace: seq<Line>, l: Match, m: Match)
    requires Ordered(trace) && IsMatch(trace, l, false) && IsMatch(trace, m, true) && l.door == m.door
    ensures l.read <= m.read && l.latency <= m.latency
    ensures Takes(trace, l.read, l.door, true) ==> l == m
  {
    hide LastIrq;
    var k := LastIrq(trace, m.read).value;
    if LastIrq(trace, l.read).Some? {
      LastIrqGrows(trace, l.read, m.read);
    } else if l.read < m.read {
      assert k >= l.read;
    }
  }

  // ---- intervals in which the host was silent, or slow, merged

  datatype Interval = Interval(start: real, end: real, fifo: nat)

  datatype Stall = Stall(start: real, end: real, fifos: set<nat>)

  predicate During(x: Interval, t: real) { x.start <= t <= x.end }

  predicate Within(x: Interval, s: Stall) { s.start <= x.start && x.end <= s.end }

  ghost predicate Covered(xs: seq<Interval>, t: real) {
    exists i :: 0 <= i < |xs| && During(xs[i], t)
  }

  ghost predicate Stalled(out: seq<Stall>, t: real) {
    exists k :: 0 <= k < |out| && out[k].start <= t <= out[k].end
  }

  ghost predicate FifoWithin(xs: seq<Interval>, s: Stall, f: nat) {
    exists i :: 0 <= i < |xs| && Within(xs[i], s) && xs[i].fifo == f
  }

  /** Stalls apart and in order, which cover just what the intervals do, with just the FIFOs of the
      intervals in each. */
  ghost predicate Merged(xs: seq<Interval>, out: seq<Stall>) {
    && (forall k :: 0 <= k < |out| - 1 ==> out[k].end < out[k + 1].start)
    && (forall t :: Stalled(out, t) <==> Covered(xs, t))
    && (forall k, f :: 0 <= k < |out| ==> (f in out[k].fifos <==> FifoWithin(xs, out[k], f)))
  }

  predicate InOrder(xs: seq<Interval>) {
    && (forall i :: 0 <= i < |xs| ==> xs[i].start <= xs[i].end)
    && (forall i, j :: 0 <= i < j < |xs| ==> xs[i].start <= xs[j].start)
  }

  /** What the loop keeps besides: nothing starts after the last stall does. */
  ghost predicate Merging(xs: seq<Interval>, out: seq<Stall>) {
    && Merged(xs, out)
    && (forall k :: 0 <= k < |out| ==> out[k].start <= out[k].end)
    && (out == [] <==> xs == [])
    && (forall i :: 0 <= i < |xs| ==> xs[i].start >= out[0].start && xs[i].end <= out[|out| - 1].end)
    && (out != [] ==> out[|out| - 1].start <= xs[|xs| - 1].start)
  }

  method Merge(xs: seq<Interval>) returns (out: seq<Stall>)
    requires InOrder(xs)
    ensures Merged(xs, out)
  {
    hide Merging, Merged;
    out := [];
    var i := 0;
    assert Merging(xs[..0], out) by {
      NothingMerged();
    }
    while i < |xs|
      invariant 0 <= i <= |xs| && Merging(xs[..i], out)
    {
      var x, n := xs[i], |out| - 1;
      ghost var before := xs[..i];
      assert xs[..i + 1] == before + [x];
      if out != [] && x.start <= out[n].end {
        Joined(before, out, x);
        out := out[n := Stall(out[n].start, Max(out[n].end, x.end), out[n].fifos + {x.fifo})];
      } else {
        Apart(before, out, x);
        out := out + [Stall(x.start, x.end, {x.fifo})];
      }
      i := i + 1;
    }
    assert xs[..i] == xs;
    IsMerged(xs, out);
  }

  lemma NothingMerged()
    ensures Merging([], [])
  {
  }

  lemma IsMerged(xs: seq<Interval>, out: seq<Stall>)
    requires Merging(xs, out)
    ensures Merged(xs, out)
  {
  }

  lemma CoveredMore(xs: seq<Interval>, x: Interval, t: real)
    ensures Covered(xs + [x], t) <==> Covered(xs, t) || During(x, t)
  {
    var more := xs + [x];
    assert more[|xs|] == x;
    if Covered(xs, t) {
      var i :| 0 <= i < |xs| && During(xs[i], t);
      assert During(more[i], t);
    }
  }

  lemma FifoMore(xs: seq<Interval>, x: Interval, s: Stall, f: nat)
    ensures FifoWithin(xs + [x], s, f) <==> FifoWithin(xs, s, f) || (Within(x, s) && x.fifo == f)
  {
    var more := xs + [x];
    assert more[|xs|] == x;
    if FifoWithin(xs, s, f) {
      var i :| 0 <= i < |xs| && Within(xs[i], s) && xs[i].fifo == f;
      assert Within(more[i], s);
    }
  }

  lemma StallsApart(out: seq<Stall>, k: nat, l: nat)
    requires k < l < |out|
    requires forall k :: 0 <= k < |out| - 1 ==> out[k].end < out[k + 1].start
    requires forall k :: 0 <= k < |out| ==> out[k].start <= out[k].end
    ensures out[k].end < out[l].start
  {
    if k + 1 < l {
      StallsApart(out, k, l - 1);
    }
  }

  lemma Joined(xs: seq<Interval>, out: seq<Stall>, x: Interval)
    requires Merging(xs, out) && InOrder(xs + [x])
    requires out != [] && x.start <= out[|out| - 1].end
    ensures var n := |out| - 1;
            Merging(xs + [x], out[n := Stall(out[n].start, Max(out[n].end, x.end), out[n].fifos + {x.fifo})])
  {
    hide Covered, FifoWithin;
    var n, more := |out| - 1, xs + [x];
    var last := Stall(out[n].start, Max(out[n].end, x.end), out[n].fifos + {x.fifo});
    var all := out[n := last];
    assert more[|xs|] == x && more[|xs| - 1] == xs[|xs| - 1];
    assert x.start >= xs[|xs| - 1].start >= out[n].start;
    forall t ensures Stalled(all, t) <==> Covered(more, t) {
      CoveredMore(xs, x, t);
      JoinedCovers(out, x, all, t);
    }
    forall k, f | 0 <= k < |all| ensures f in all[k].fifos <==> FifoWithin(more, all[k], f) {
      FifoMore(xs, x, all[k], f);
      if k < n {
        StallsApart(out, k, n);
      } else {
        SameWithin(xs, out[n], last, f);
      }
    }
  }

  lemma JoinedCovers(out: seq<Stall>, x: Interval, all: seq<Stall>, t: real)
    requires out != [] && out[|out| - 1].start <= x.start <= out[|out| - 1].end
    requires |all| == |out| && all[..|out| - 1] == out[..|out| - 1]
    requires all[|out| - 1].start == out[|out| - 1].start && all[|out| - 1].end == Max(out[|out| - 1].end, x.end)
    ensures Stalled(all, t) <==> Stalled(out, t) || During(x, t)
  {
    var n := |out| - 1;
    assert forall k :: 0 <= k < n ==> all[k] == all[..n][k] == out[k];
    if Stalled(out, t) {
      var k :| 0 <= k < |out| && out[k].start <= t <= out[k].end;
      assert all[k].start <= t <= all[k].end;
    } else if During(x, t) {
      assert all[n].start <= t <= all[n].end;
    }
  }

  lemma SameWithin(xs: seq<Interval>, s: Stall, longer: Stall, f: nat)
    requires s.start == longer.start && s.end <= longer.end
    requires forall i :: 0 <= i < |xs| ==> xs[i].end <= s.end
    ensures FifoWithin(xs, s, f) <==> FifoWithin(xs, longer, f)
  {
    assert forall i :: 0 <= i < |xs| ==> (Within(xs[i], s) <==> Within(xs[i], longer));
  }

  lemma Apart(xs: seq<Interval>, out: seq<Stall>, x: Interval)
    requires Merging(xs, out) && InOrder(xs + [x])
    requires out == [] || x.start > out[|out| - 1].end
    ensures Merging(xs + [x], out + [Stall(x.start, x.end, {x.fifo})])
  {
    hide Covered, FifoWithin;
    var n, more, last := |out|, xs + [x], Stall(x.start, x.end, {x.fifo});
    var all := out + [last];
    assert more[|xs|] == x && all[n] == last;
    assert forall i :: 0 <= i < |xs| ==> more[i] == xs[i];
    forall t ensures Stalled(all, t) <==> Covered(more, t) {
      CoveredMore(xs, x, t);
      ApartCovers(out, x, last, t);
    }
    forall k, f | 0 <= k < |all| ensures f in all[k].fifos <==> FifoWithin(more, all[k], f) {
      FifoMore(xs, x, all[k], f);
      if k < n {
        if k < n - 1 {
          StallsApart(out, k, n - 1);
        }
      } else {
        NoneWithin(xs, last, f);
      }
    }
  }

  lemma ApartCovers(out: seq<Stall>, x: Interval, last: Stall, t: real)
    requires last.start == x.start && last.end == x.end
    ensures Stalled(out + [last], t) <==> Stalled(out, t) || During(x, t)
  {
    var all := out + [last];
    assert all[|out|] == last;
    if Stalled(out, t) {
      var k :| 0 <= k < |out| && out[k].start <= t <= out[k].end;
      assert all[k].start <= t <= all[k].end;
    }
  }

  lemma NoneWithin(xs: seq<Interval>, s: Stall, f: nat)
    requires forall i :: 0 <= i < |xs| ==> xs[i].start <= xs[i].end < s.start
    ensures !FifoWithin(xs, s, f)
  {
  }
}
