/** The viewer's input queue: groups of events wait for the guest's keyboard, which holds 16 scancodes
    and takes them slowly; a move replaces the move it follows, and a click ends its batch. */
module ViewInput {
  import opened Keys

  type Seconds = x: real | x >= 0.0

  /** A batch ends before the estimate passes this. */
  const KEY_QUEUE: real := 12.0

  /** How fast the estimate falls. */
  const KEYS_PER_SEC: real := 100.0

  function Flat(groups: seq<Group>): seq<Event> {
    if groups == [] then [] else groups[0] + Flat(groups[1..])
  }

  function Queued(pending: seq<Group>, g: Group): seq<Group> {
    if IsMove(g) && pending != [] && IsMove(pending[|pending| - 1]) then pending[..|pending| - 1] + [g]
    else if g != [] then pending + [g]
    else pending
  }

  function Drained(queued: real, seconds: Seconds): real {
    var rest := queued - seconds * KEYS_PER_SEC;
    if rest > 0.0 then rest else 0.0
  }

  /** How many groups of `pending` the next batch takes. */
  function Taken(pending: seq<Group>, queued: real): (n: nat)
    ensures n <= |pending|
  {
    if pending == [] then 0
    else
      var k := Slots(pending[0]) as real;
      if queued + k > KEY_QUEUE && queued > 0.0 then 0
      else if IsClick(pending[0]) then 1
      else 1 + Taken(pending[1..], queued + k)
  }

  lemma {:induction false} FlatMore(groups: seq<Group>, g: Group)
    ensures Flat(groups + [g]) == Flat(groups) + g
  {
    if groups == [] {
      assert groups + [g] == [g] && [g][1..] == [];
    } else {
      assert (groups + [g])[1..] == groups[1..] + [g];
      FlatMore(groups[1..], g);
      assert groups[0] + (Flat(groups[1..]) + g) == groups[0] + Flat(groups[1..]) + g;
    }
  }

  class InputQueue {
    var pending: seq<Group>
    var queued: real

    constructor ()
      ensures pending == [] && queued == 0.0
    {
      pending, queued := [], 0.0;
    }

    method Queue(g: Group)
      modifies this
      ensures pending == Queued(old(pending), g) && queued == old(queued)
    {
      if IsMove(g) && pending != [] && IsMove(pending[|pending| - 1]) {
        pending := pending[|pending| - 1 := g];
      } else if g != [] {
        pending := pending + [g];
      }
    }

    method Elapse(seconds: Seconds)
      modifies this
      ensures pending == old(pending) && queued == Drained(old(queued), seconds)
    {
      queued := queued - seconds * KEYS_PER_SEC;
      if queued < 0.0 {
        queued := 0.0;
      }
    }

    method TakeBatch() returns (batch: seq<Event>)
      modifies this
      ensures var n := Taken(old(pending), old(queued));
              && pending == old(pending)[n..]
              && batch == Flat(old(pending)[..n])
              && queued == old(queued) + Slots(batch) as real
    {
      hide Slots, Flat, IsClick;
      ghost var before, level := pending, queued;
      ghost var n := 0;
      batch := [];
      assert Flat(before[..0]) == [] && Slots([]) == 0 by {
        NothingTaken();
      }
      while pending != []
        invariant n <= |before| && pending == before[n..]
        invariant batch == Flat(before[..n])
        invariant queued == level + Slots(batch) as real
        invariant n + Taken(pending, queued) == Taken(before, level)
      {
        var g := pending[0];
        var k := Slots(g) as real;
        if queued + k > KEY_QUEUE && queued > 0.0 {
          break;
        }
        queued := queued + k;
        pending := pending[1..];
        SlotsOfBoth(batch, g);
        FlatMore(before[..n], g);
        assert before[..n] + [g] == before[..n + 1];
        batch, n := batch + g, n + 1;
        if IsClick(g) {
          break;
        }
      }
    }
  }

  lemma NothingTaken()
    ensures Flat([]) == [] && Slots([]) == 0
  {
  }

  // ---- every interleaving of input, time passing and batches

  datatype Action = Feed(group: Group) | Pass(seconds: Seconds) | Take

  /** The queue, and what has gone in and out of it. */
  datatype State = State(pending: seq<Group>, queued: real, fed: seq<Group>, batches: seq<seq<Group>>)

  const EMPTY: State := State([], 0.0, [], [])

  function Step(s: State, a: Action): State {
    match a
    case Feed(g) => s.(pending := Queued(s.pending, g), fed := if g == [] then s.fed else s.fed + [g])
    case Pass(seconds) => s.(queued := Drained(s.queued, seconds))
    case Take =>
      var n := Taken(s.pending, s.queued);
      if n == 0 then s
      else
        var groups := s.pending[..n];
        State(s.pending[n..], s.queued + Slots(Flat(groups)) as real, s.fed, s.batches + [groups])
  }

  function After(s: State, run: seq<Action>): State
    decreases |run|
  {
    if run == [] then s else After(Step(s, run[0]), run[1..])
  }

  function Concat(batches: seq<seq<Group>>): seq<Group> {
    if batches == [] then [] else batches[0] + Concat(batches[1..])
  }

  lemma {:induction false} ConcatMore(batches: seq<seq<Group>>, b: seq<Group>)
    ensures Concat(batches + [b]) == Concat(batches) + b
  {
    if batches == [] {
      assert batches + [b] == [b] && [b][1..] == [];
    } else {
      assert (batches + [b])[1..] == batches[1..] + [b];
      ConcatMore(batches[1..], b);
      assert batches[0] + (Concat(batches[1..]) + b) == batches[0] + Concat(batches[1..]) + b;
    }
  }

  /** `kept` is `full` without some moves, each directly followed by another move. */
  ghost predicate Thinned(full: seq<Group>, kept: seq<Group>)
    decreases |full|
  {
    if full == [] then kept == []
    else
      || (kept != [] && kept[0] == full[0] && Thinned(full[1..], kept[1..]))
      || (|full| > 1 && IsMove(full[0]) && IsMove(full[1]) && Thinned(full[1..], kept))
  }

  lemma {:induction false} ThinnedMore(full: seq<Group>, kept: seq<Group>, g: Group)
    requires Thinned(full, kept)
    ensures Thinned(full + [g], kept + [g])
    decreases |full|
  {
    var more := full + [g];
    if full == [] {
      assert more[1..] == [] && (kept + [g])[1..] == [];
    } else {
      assert more[1..] == full[1..] + [g];
      if kept != [] && kept[0] == full[0] && Thinned(full[1..], kept[1..]) {
        ThinnedMore(full[1..], kept[1..], g);
        assert (kept + [g])[1..] == kept[1..] + [g];
      } else {
        ThinnedMore(full[1..], kept, g);
      }
    }
  }

  lemma {:induction false} ThinnedByMove(full: seq<Group>, kept: seq<Group>, g: Group)
    requires Thinned(full, kept) && IsMove(g)
    requires kept != [] && IsMove(kept[|kept| - 1])
    ensures Thinned(full + [g], kept[..|kept| - 1] + [g])
    decreases |full|
  {
    var more, n := full + [g], |kept| - 1;
    var less := kept[..n] + [g];
    assert more[1..] == full[1..] + [g];
    if kept[0] == full[0] && Thinned(full[1..], kept[1..]) {
      if n > 0 {
        ThinnedByMove(full[1..], kept[1..], g);
        assert less[1..] == kept[1..][..n - 1] + [g];
      } else {
        NothingKept(full[1..]);
        assert more == [full[0], g] && more[1..][1..] == [] && less == [g] && less[1..] == [];
        assert Thinned(more[1..], less);
      }
    } else {
      ThinnedByMove(full[1..], kept, g);
    }
  }

  lemma {:induction false} NothingKept(full: seq<Group>)
    requires Thinned(full, [])
    ensures full == []
    decreases |full|
  {
    if full != [] {
      NothingKept(full[1..]);
    }
  }

  /** The events of a stream that are not moves. */
  function KeysAndButtons(events: seq<Event>): seq<Event> {
    if events == [] then []
    else (if events[0].Abs? then [] else [events[0]]) + KeysAndButtons(events[1..])
  }

  lemma {:induction false} KeysOfBoth(a: seq<Event>, b: seq<Event>)
    ensures KeysAndButtons(a + b) == KeysAndButtons(a) + KeysAndButtons(b)
  {
    if a == [] {
      assert a + b == b;
    } else {
      assert (a + b)[1..] == a[1..] + b;
      KeysOfBoth(a[1..], b);
    }
  }

  /** Thinning loses no key or button, and adds and moves none. */
  lemma {:induction false} ThinnedKeeps(full: seq<Group>, kept: seq<Group>)
    requires Thinned(full, kept)
    ensures KeysAndButtons(Flat(kept)) == KeysAndButtons(Flat(full))
    decreases |full|
  {
    if full != [] {
      KeysOfBoth(full[0], Flat(full[1..]));
      if kept != [] && kept[0] == full[0] && Thinned(full[1..], kept[1..]) {
        ThinnedKeeps(full[1..], kept[1..]);
        KeysOfBoth(kept[0], Flat(kept[1..]));
      } else {
        ThinnedKeeps(full[1..], kept);
        assert full[0][1..] == [];
        assert KeysAndButtons(full[0]) == [];
      }
    }
  }

  /** No group of a batch but its last clicks. */
  ghost predicate ClickLast(b: seq<Group>) {
    b != [] && forall i :: 0 <= i < |b| - 1 ==> !IsClick(b[i])
  }

  lemma {:induction false} TakenClickLast(pending: seq<Group>, queued: real)
    ensures var n := Taken(pending, queued); n > 0 ==> ClickLast(pending[..n])
    decreases |pending|
  {
    hide Slots, IsClick;
    var n := Taken(pending, queued);
    if n > 1 {
      var k := Slots(pending[0]) as real;
      TakenClickLast(pending[1..], queued + k);
      assert pending[..n][1..] == pending[1..][..n - 1];
      assert forall i :: 0 < i < n ==> pending[i] == pending[1..][..n - 1][i - 1];
    }
  }

  /** The estimate with the first `n` groups of `pending` taken. */
  function Level(pending: seq<Group>, queued: real, n: nat): real
    requires n <= |pending|
  {
    queued + Slots(Flat(pending[..n])) as real
  }

  lemma LevelFrom(pending: seq<Group>, queued: real, n: nat)
    requires 0 < n <= |pending|
    ensures Level(pending, queued, n) == Level(pending[1..], queued + Slots(pending[0]) as real, n - 1)
  {
    hide Slots;
    assert pending[..n][1..] == pending[1..][..n - 1];
    SlotsOfBoth(pending[0], Flat(pending[1..][..n - 1]));
  }

  /** Group `i` of `pending` may be taken after those before it: the estimate is empty, or within 12 with it. */
  predicate Allowed(pending: seq<Group>, queued: real, i: nat)
    requires i < |pending|
  {
    Level(pending, queued, i) <= 0.0 || Level(pending, queued, i + 1) <= 12.0
  }

  /** A batch is the longest of groups each allowed after those before it, up to and with the first click. */
  lemma {:induction false} TakenIsLongest(pending: seq<Group>, queued: real)
    ensures var n := Taken(pending, queued);
            && (forall i :: 0 <= i < n ==> Allowed(pending, queued, i))
            && (forall i :: 0 <= i < n - 1 ==> !IsClick(pending[i]))
            && (n < |pending| ==> !Allowed(pending, queued, n) || (n > 0 && IsClick(pending[n - 1])))
    decreases |pending|
  {
    hide Slots, IsClick;
    var n := Taken(pending, queued);
    if pending != [] {
      assert pending[..0] == [] && pending[..1] == [pending[0]] && Flat([pending[0]]) == pending[0];
      NothingTaken();
      if n > 0 && !IsClick(pending[0]) {
        var rest, more := pending[1..], queued + Slots(pending[0]) as real;
        TakenIsLongest(rest, more);
        forall i | 0 < i < |pending| ensures Allowed(pending, queued, i) == Allowed(rest, more, i - 1) {
          LevelFrom(pending, queued, i);
          LevelFrom(pending, queued, i + 1);
        }
        assert forall i :: 0 < i < |pending| ==> pending[i] == rest[i - 1];
      }
    }
  }

  /** With nothing queued a batch takes something. */
  lemma EmptyQueueTakes(pending: seq<Group>)
    requires pending != []
    ensures Taken(pending, 0.0) > 0
  {
  }

  ghost predicate LastIsOversized(b: seq<Group>, queued: real) {
    b != [] && Slots(Flat(b)) == Slots(b[|b| - 1]) && KEY_QUEUE < queued <= Slots(Flat(b)) as real
  }

  /** The estimate is within the keyboard's allowance, or is what is left of one tap bigger than it, which
      ended the last batch, with nothing else for the keyboard, while the estimate was empty. */
  ghost predicate Paced(s: State) {
    && s.queued >= 0.0
    && (s.queued <= KEY_QUEUE || (s.batches != [] && LastIsOversized(s.batches[|s.batches| - 1], s.queued)))
  }

  lemma {:induction false} TakenPaced(pending: seq<Group>, queued: real)
    requires queued >= 0.0
    ensures var n := Taken(pending, queued);
            var level := queued + Slots(Flat(pending[..n])) as real;
            || n == 0
            || level <= KEY_QUEUE
            || (queued == 0.0 && level == Slots(pending[n - 1]) as real)
    decreases |pending|
  {
    hide IsClick, Slots;
    var n := Taken(pending, queued);
    if n > 0 {
      var g := pending[0];
      assert pending[..n][1..] == pending[1..][..n - 1];
      SlotsOfBoth(g, Flat(pending[1..][..n - 1]));
      assert pending[1..][..0] == [] && Slots([]) == 0 by {
        NothingTaken();
      }
      if n > 1 {
        TakenPaced(pending[1..], queued + Slots(g) as real);
      }
    }
  }

  /** What every run keeps: the batches, then what is pending, are what was fed without superseded moves;
      clicks end batches; and the estimate is paced. */
  ghost predicate Kept(s: State) {
    && Thinned(s.fed, Concat(s.batches) + s.pending)
    && (forall b :: b in s.batches ==> ClickLast(b))
    && Paced(s)
  }

  lemma FeedKeeps(s: State, g: Group)
    requires Kept(s)
    ensures Kept(Step(s, Feed(g)))
  {
    hide IsClick, Slots, Concat, Thinned;
    var out, n := Concat(s.batches), |s.pending|;
    var kept := out + s.pending;
    if IsMove(g) && n > 0 && IsMove(s.pending[n - 1]) {
      ThinnedByMove(s.fed, kept, g);
      assert kept[..|kept| - 1] + [g] == out + (s.pending[..n - 1] + [g]);
    } else if g != [] {
      ThinnedMore(s.fed, kept, g);
      assert kept + [g] == out + (s.pending + [g]);
    }
  }

  lemma TakeKeeps(s: State)
    requires Kept(s)
    ensures Kept(Step(s, Take))
  {
    hide IsClick, Slots, Concat, Thinned, Taken, ClickLast;
    var n, t := Taken(s.pending, s.queued), Step(s, Take);
    if n > 0 {
      var groups := s.pending[..n];
      ConcatMore(s.batches, groups);
      assert Concat(s.batches) + s.pending == Concat(t.batches) + t.pending;
      TakenClickLast(s.pending, s.queued);
      TakenPaced(s.pending, s.queued);
      assert groups in t.batches;
    }
  }

  lemma {:induction false} RunKeeps(s: State, run: seq<Action>)
    requires Kept(s)
    ensures Kept(After(s, run))
    decreases |run|
  {
    hide Kept, Step;
    if run != [] {
      match run[0] {
        case Feed(g) => FeedKeeps(s, g);
        case Take => TakeKeeps(s);
        case Pass(seconds) => PassKeeps(s, seconds);
      }
      RunKeeps(Step(s, run[0]), run[1..]);
    }
  }

  lemma PassKeeps(s: State, seconds: Seconds)
    requires Kept(s)
    ensures Kept(Step(s, Pass(seconds)))
  {
    hide Slots, Concat, Thinned, ClickLast;
    assert Drained(s.queued, seconds) <= s.queued;
  }

  /** Over every interleaving: the events sent, then those pending, are those fed but for moves a later
      move directly superseded, so no key or button is lost, doubled or out of its order; a click ends its
      batch; and the estimate stays paced. */
  lemma InputIsKept(run: seq<Action>)
    ensures var t := After(EMPTY, run);
            && Thinned(t.fed, Concat(t.batches) + t.pending)
            && KeysAndButtons(Flat(Concat(t.batches) + t.pending)) == KeysAndButtons(Flat(t.fed))
            && (forall b :: b in t.batches ==> b != [] && forall i :: 0 <= i < |b| - 1 ==> !IsClick(b[i]))
            && Paced(t)
  {
    hide IsClick;
    RunKeeps(EMPTY, run);
    var t := After(EMPTY, run);
    ThinnedKeeps(t.fed, Concat(t.batches) + t.pending);
  }

  /** Of moves that follow one another only the last waits. */
  ghost predicate MovesApart(pending: seq<Group>) {
    forall i :: 0 <= i < |pending| - 1 ==> !(IsMove(pending[i]) && IsMove(pending[i + 1]))
  }

  lemma StepMovesApart(s: State, a: Action)
    requires MovesApart(s.pending)
    ensures MovesApart(Step(s, a).pending)
  {
    hide IsMove, Slots, Taken, Flat;
    if a.Feed? && IsMove([]) {
      NothingIsNoMove();
    }
  }

  lemma NothingIsNoMove()
    ensures !IsMove([])
  {
  }

  lemma {:induction false} RunMovesApart(s: State, run: seq<Action>)
    requires MovesApart(s.pending)
    ensures MovesApart(After(s, run).pending)
    decreases |run|
  {
    hide MovesApart, Step;
    if run != [] {
      StepMovesApart(s, run[0]);
      RunMovesApart(Step(s, run[0]), run[1..]);
    }
  }

  /** Over every interleaving no two moves wait one after the other, and the last group fed, if it is not empty,
      waits last until it is taken. */
  lemma OneMoveWaits(run: seq<Action>, g: Group)
    ensures MovesApart(After(EMPTY, run).pending)
    ensures g != [] ==>
              var p := Step(After(EMPTY, run), Feed(g)).pending; p != [] && p[|p| - 1] == g
  {
    hide IsMove, MovesApart;
    assert MovesApart([]) by {
      NoneTogether();
    }
    RunMovesApart(EMPTY, run);
  }

  lemma NoneTogether()
    ensures MovesApart([])
  {
  }

  /** Time takes 100 slots a second off the estimate, to none at the least. */
  lemma DrainedIs(queued: real, seconds: Seconds)
    requires queued >= 0.0
    ensures queued >= 100.0 * seconds ==> Drained(queued, seconds) == queued - 100.0 * seconds
    ensures queued <= 100.0 * seconds ==> Drained(queued, seconds) == 0.0
  {
  }

  // ---- the guest's keyboard

  /** QEMU's queue has 16 slots. */
  const QEMU_QUEUE: real := 16.0

  /** What QEMU takes of `events` with `level` slots taken: all but the keys that do not fit. */
  function Accepted(level: real, events: seq<Event>): seq<Event>
    decreases |events|
  {
    if events == [] then []
    else
      var e, slots := events[0], SlotsOf(events[0]) as real;
      if e.Key? && level + slots > QEMU_QUEUE then Accepted(level, events[1..])
      else [e] + Accepted(level + slots, events[1..])
  }

  lemma {:induction false} AcceptedFits(level: real, events: seq<Event>)
    requires 0.0 <= level <= QEMU_QUEUE
    ensures var taken := Accepted(level, events);
            && |taken| <= |events| && Slots(taken) <= Slots(events)
            && level + Slots(taken) as real <= QEMU_QUEUE
            && (|taken| == |events| ==> taken == events)
    decreases |events|
  {
    if events != [] {
      var e, rest := events[0], events[1..];
      var slots := SlotsOf(e) as real;
      if e.Key? && level + slots > QEMU_QUEUE {
        AcceptedFits(level, rest);
      } else {
        AcceptedFits(level + slots, rest);
        assert Accepted(level, events)[1..] == Accepted(level + slots, rest);
      }
    }
  }

  /** All of them exactly when they all fit. */
  lemma {:induction false} AcceptedIff(level: real, events: seq<Event>)
    requires 0.0 <= level <= QEMU_QUEUE
    ensures Accepted(level, events) == events <==> level + Slots(events) as real <= QEMU_QUEUE
    decreases |events|
  {
    AcceptedFits(level, events);
    if events != [] {
      var e, rest := events[0], events[1..];
      var slots := SlotsOf(e) as real;
      if e.Key? && level + slots > QEMU_QUEUE {
        AcceptedFits(level, rest);
      } else {
        AcceptedIff(level + slots, rest);
        assert Accepted(level, events)[1..] == Accepted(level + slots, rest);
      }
    }
  }

  predicate PressesKey(g: Group) { exists e :: e in g && e.Key? && e.down }

  /** The QMP thread's flush, as it ends: the groups that press no key. */
  function Flushed(pending: seq<Group>): seq<Group> {
    if pending == [] then []
    else (if PressesKey(pending[0]) then [] else [pending[0]]) + Flushed(pending[1..])
  }

  function Flush(queue: State): seq<Event> { Flat(Flushed(queue.pending)) }

  /** The QMP thread's queue; the slots taken of QEMU's; what is on its way there, for `waited` seconds; and
      what came of all that was sent. */
  datatype Keyboard = Keyboard(queue: State, level: real, coming: seq<Event>, waited: Seconds, came: seq<Event>,
                               lost: bool, closed: bool)

  const IDLE: Keyboard := Keyboard(EMPTY, 0.0, [], 0.0, [], false, false)

  function Due(k: Keyboard): real { Slots(k.coming) as real }

  /** Time passes; the guest takes `taken` scancodes. What is sent arrives before anything else is. */
  datatype Moment = Type(group: Group) | Wait(seconds: Seconds, taken: Seconds) | Send | Arrive | Close

  /** A guest that drains as fast as the estimate says, and batches that arrive within `delay`. */
  predicate Possible(k: Keyboard, e: Moment, delay: Seconds) {
    match e
    case Type(_) => !k.closed
    case Wait(seconds, taken) =>
      && taken <= k.level && (taken >= seconds * KEYS_PER_SEC || taken == k.level)
      && (k.coming != [] ==> k.waited + seconds <= delay)
    case Send => !k.closed && k.coming == []
    case Arrive => true
    case Close => !k.closed && k.coming == []
  }

  /** Closing sends the flush whatever the estimate. */
  function Happens(k: Keyboard, e: Moment): Keyboard {
    match e
    case Type(g) => k.(queue := Step(k.queue, Feed(g)))
    case Wait(seconds, taken) =>
      k.(queue := Step(k.queue, Pass(seconds)), level := k.level - taken, waited := k.waited + seconds)
    case Send =>
      var n := Taken(k.queue.pending, k.queue.queued);
      k.(queue := Step(k.queue, Take), coming := Flat(k.queue.pending[..n]), waited := 0.0)
    case Arrive =>
      var taken := Accepted(k.level, k.coming);
      k.(level := k.level + Slots(taken) as real, coming := [], came := k.came + taken,
         lost := k.lost || taken != k.coming)
    case Close =>
      k.(queue := k.queue.(pending := []), coming := Flush(k.queue), waited := 0.0, closed := true)
  }

  ghost predicate CanHappen(k: Keyboard, run: seq<Moment>, delay: Seconds)
    decreases |run|
  {
    run == [] || (Possible(k, run[0], delay) && CanHappen(Happens(k, run[0]), run[1..], delay))
  }

  ghost function Finally(k: Keyboard, run: seq<Moment>): Keyboard
    decreases |run|
  {
    if run == [] then k else Finally(Happens(k, run[0]), run[1..])
  }

  /** The flush fits on top of what QEMU's queue has. */
  predicate EndFits(k: Keyboard) { k.level + Slots(Flush(k.queue)) as real <= QEMU_QUEUE }

  /** So does any flush of the run. */
  ghost predicate EndsFit(k: Keyboard, run: seq<Moment>)
    decreases |run|
  {
    run == [] || ((run[0].Close? ==> EndFits(k)) && EndsFit(Happens(k, run[0]), run[1..]))
  }

  /** Until the end the guest's queue, and what is on its way there, is the estimate's but for the delay. */
  predicate Estimated(k: Keyboard, delay: Seconds) {
    && 0.0 <= k.level <= QEMU_QUEUE && k.queue.queued >= 0.0
    && k.level + Due(k) <= k.queue.queued + delay * KEYS_PER_SEC
    && Due(k) <= k.queue.queued + k.waited * KEYS_PER_SEC
  }

  lemma HappensEstimated(k: Keyboard, e: Moment, delay: Seconds)
    requires Estimated(k, delay) && Possible(k, e, delay) && !e.Close?
    ensures Estimated(Happens(k, e), delay)
  {
    hide Slots, Taken, Flat, Queued, Accepted;
    NothingTaken();
    match e
    case Arrive => AcceptedFits(k.level, k.coming);
    case Send => NoneTaken(k.queue.pending);
    case _ =>
  }

  lemma NoneTaken(pending: seq<Group>)
    ensures Flat(pending[..0]) == [] && Slots([]) == 0
  {
  }

  /** No group is bigger than `most`, nor is the estimate. */
  ghost predicate Small(s: State, most: nat) {
    && 0.0 <= s.queued <= most as real
    && forall i :: 0 <= i < |s.pending| ==> Slots(s.pending[i]) <= most
  }

  lemma HappensSmall(k: Keyboard, e: Moment, most: nat)
    requires Small(k.queue, most) && most as real >= KEY_QUEUE
    requires e.Type? ==> Slots(e.group) <= most
    ensures Small(Happens(k, e).queue, most)
  {
    hide Slots, Taken, Flat, Accepted, Flush;
    TakenPaced(k.queue.pending, k.queue.queued);
  }

  lemma {:induction false} MomentsKeep(k: Keyboard, run: seq<Moment>, delay: Seconds, most: nat)
    requires Small(k.queue, most) && Estimated(k, delay) && CanHappen(k, run, delay)
    requires most as real >= KEY_QUEUE
    requires forall i :: 0 <= i < |run| && run[i].Type? ==> Slots(run[i].group) <= most
    ensures var t := Finally(k, run); t.closed || (Small(t.queue, most) && Estimated(t, delay))
    decreases |run|
  {
    hide Small, Estimated, Possible, Happens;
    if run != [] {
      if run[0].Close? {
        CloseCloses(k);
        StaysClosed(Happens(k, run[0]), run[1..]);
      } else {
        HappensEstimated(k, run[0], delay);
        HappensSmall(k, run[0], most);
        MomentsKeep(Happens(k, run[0]), run[1..], delay, most);
      }
    }
  }

  lemma CloseCloses(k: Keyboard)
    ensures Happens(k, Close).closed
  {
  }

  lemma {:induction false} StaysClosed(k: Keyboard, run: seq<Moment>)
    requires k.closed
    ensures Finally(k, run).closed
    decreases |run|
  {
    if run != [] {
      StaysClosed(Happens(k, run[0]), run[1..]);
    }
  }

  /** No group is bigger than any tap and hold are. */
  ghost predicate TapsOnly(run: seq<Moment>) {
    forall i :: 0 <= i < |run| && run[i].Type? ==> Slots(run[i].group) <= 14
  }

  /** Over every interleaving, until the viewer ends a guest that drains as fast as the estimate says has no
      more queued, and on its way, than the largest group and what drains in the longest delay. */
  lemma GuestQueueBound(run: seq<Moment>, delay: Seconds)
    requires CanHappen(IDLE, run, delay) && TapsOnly(run)
    ensures var t := Finally(IDLE, run); t.closed || t.level + Due(t) <= 14.0 + delay * KEYS_PER_SEC
  {
    hide CanHappen, Happens;
    assert Slots([]) == 0;
    hide Slots;
    MomentsKeep(IDLE, run, delay, 14);
  }

  // ---- deliveries within 20 ms lose nothing

  /** Nothing has been lost, and all that is on its way fits. */
  ghost predicate Flows(k: Keyboard, delay: Seconds) {
    && !k.lost && 0.0 <= k.level && k.level + Due(k) <= QEMU_QUEUE
    && (k.closed || (Small(k.queue, 14) && Estimated(k, delay)))
  }

  lemma HappensFlows(k: Keyboard, e: Moment, delay: Seconds)
    requires Flows(k, delay) && Possible(k, e, delay) && delay <= 0.02
    requires e.Type? ==> Slots(e.group) <= 14
    requires e.Close? ==> EndFits(k)
    ensures Flows(Happens(k, e), delay)
  {
    hide Slots, Taken, Flat, Queued, Accepted, Step, Flush;
    NothingTaken();
    if !k.closed && !e.Close? {
      hide Possible;
      HappensEstimated(k, e, delay);
      HappensSmall(k, e, 14);
    }
    if e.Arrive? {
      AcceptedIff(k.level, k.coming);
    }
  }

  lemma {:induction false} MomentsFlow(k: Keyboard, run: seq<Moment>, delay: Seconds)
    requires Flows(k, delay) && CanHappen(k, run, delay) && EndsFit(k, run) && TapsOnly(run) && delay <= 0.02
    ensures Flows(Finally(k, run), delay)
    decreases |run|
  {
    hide Flows, Possible, Happens, EndFits;
    if run != [] {
      HappensFlows(k, run[0], delay);
      MomentsFlow(Happens(k, run[0]), run[1..], delay);
    }
  }

  lemma IdleFlows(delay: Seconds)
    ensures Flows(IDLE, delay)
  {
  }

  // ---- longer ones can

  /** The widest tap `d` seconds on its way; the guest then takes from it until the estimate runs out, and
      the next, allowed at once, comes on top of what is left. */
  function Late(g: Group, d: Seconds): seq<Moment>
    requires d <= 0.14
  {
    [Type(g), Send, Wait(d, 0.0), Arrive, Wait(0.14 - d, (0.14 - d) * KEYS_PER_SEC), Type(g), Send, Arrive]
  }

  lemma SendsAlone(k: Keyboard, g: Group)
    requires Slots(g) == 14 && k.queue.queued == 0.0 && k.queue.pending == [] && k.coming == [] && !k.closed
    ensures var typed := Happens(k, Type(g));
            var t := Happens(typed, Send);
            && (forall delay :: Possible(k, Type(g), delay) && Possible(typed, Send, delay))
            && t.coming == g && t.waited == 0.0 && t.level == k.level && t.lost == k.lost && !t.closed
            && t.queue.queued == 14.0 && t.queue.pending == []
  {
    hide Slots, IsClick;
    NothingTaken();
    var typed := Happens(k, Type(g));
    assert typed.queue.pending == [g];
    assert [g][..1] == [g] && [g][1..] == [];
    assert Flat([g]) == g;
    assert Taken(typed.queue.pending, 0.0) == 1;
  }

  lemma LateOnItsWay(k: Keyboard, d: Seconds, delay: Seconds)
    requires d <= 0.14 && d <= delay && !k.closed
    requires Slots(k.coming) == 14 && k.waited == 0.0 && k.level == 0.0 && k.queue.queued == 14.0
    ensures var left := Wait(0.14 - d, (0.14 - d) * KEYS_PER_SEC);
            var t := Happens(Happens(k, Wait(d, 0.0)), Arrive);
            && Possible(k, Wait(d, 0.0), delay) && Possible(t, left, delay)
            && var u := Happens(t, left);
               && u.queue == k.queue.(queued := 0.0) && u.level == d * KEYS_PER_SEC && u.coming == []
               && u.lost == k.lost && !u.closed
  {
    hide Slots, Accepted;
    AcceptedIff(0.0, k.coming);
  }

  lemma ComesOnTop(k: Keyboard)
    requires Slots(k.coming) == 14 && 2.0 < k.level <= QEMU_QUEUE
    ensures Happens(k, Arrive).lost
  {
    hide Slots, Accepted;
    AcceptedIff(k.level, k.coming);
  }

  /** A batch any longer than 20 ms on its way can lose keys. */
  lemma LateBatchOverruns(g: Group, d: Seconds, delay: Seconds)
    requires Slots(g) == 14 && 0.02 < d <= 0.14 && d <= delay
    ensures var run := Late(g, d);
            && CanHappen(IDLE, run, delay) && TapsOnly(run) && EndsFit(IDLE, run)
            && Finally(IDLE, run).lost
  {
    hide Slots, Step, CanHappen, Finally, Accepted, EndFits, EndsFit;
    var run := Late(g, d);
    var k1 := Happens(IDLE, Type(g));
    SendsAlone(IDLE, g);
    var k2 := Happens(k1, Send);
    LateOnItsWay(k2, d, delay);
    var k3 := Happens(k2, run[2]);
    var k4 := Happens(k3, Arrive);
    var k5 := Happens(k4, run[4]);
    var k6 := Happens(k5, Type(g));
    SendsAlone(k5, g);
    var k7 := Happens(k6, Send);
    ComesOnTop(k7);
    Nothing(Happens(k7, Arrive), delay);
    assert run[8..] == [];
    Earlier(k7, run, 7, delay);
    Earlier(k6, run, 6, delay);
    Earlier(k5, run, 5, delay);
    Earlier(k4, run, 4, delay);
    Earlier(k3, run, 3, delay);
    Earlier(k2, run, 2, delay);
    Earlier(k1, run, 1, delay);
    Earlier(IDLE, run, 0, delay);
    assert run[0..] == run;
  }

  /** QEMU drops nothing, whatever is typed and however it interleaves, as long as any flush fits, exactly
      when every batch arrives within 20 ms. */
  lemma GuestQueueHolds(delay: Seconds)
    ensures (forall run :: CanHappen(IDLE, run, delay) && TapsOnly(run) && EndsFit(IDLE, run) ==> !Finally(IDLE, run).lost)
       <==> delay <= 0.02
  {
    hide CanHappen, TapsOnly, Finally, EndsFit;
    if delay <= 0.02 {
      forall run | CanHappen(IDLE, run, delay) && TapsOnly(run) && EndsFit(IDLE, run) ensures !Finally(IDLE, run).lost {
        IdleFlows(delay);
        MomentsFlow(IDLE, run, delay);
      }
    } else {
      var g := Tap({Cmd, Opt, Ctrl, Shift}, Extended("left"));
      var d: Seconds := if delay < 0.14 then delay else 0.14;
      WidestTap("left");
      LateBatchOverruns(g, d, delay);
    }
  }

  // ---- the flush

  /** Closing sends every group pending that presses no key, in order, and nothing is sent after. */
  lemma CloseIs(k: Keyboard, delay: Seconds)
    ensures var t := Happens(k, Close);
            && t.closed && t.queue.pending == [] && t.coming == Flat(Flushed(k.queue.pending)) && t.waited == 0.0
            && t.level == k.level && t.came == k.came && t.lost == k.lost
            && !Possible(t, Send, delay) && !Possible(t, Close, delay)
            && forall g :: !Possible(t, Type(g), delay)
  {
  }

  lemma {:induction false} FlushedAre(pending: seq<Group>)
    ensures forall g :: g in Flushed(pending) <==> g in pending && !PressesKey(g)
    ensures |Flushed(pending)| <= |pending|
  {
    hide PressesKey;
    if pending != [] {
      FlushedAre(pending[1..]);
    }
  }

  lemma {:induction false} ClosedFlows(k: Keyboard, run: seq<Moment>, delay: Seconds)
    requires k.closed && !k.lost && 0.0 <= k.level && k.level + Due(k) <= QEMU_QUEUE && CanHappen(k, run, delay)
    ensures !Finally(k, run).lost
    decreases |run|
  {
    if run != [] {
      var t := Happens(k, run[0]);
      ClosedStep(k, run[0], delay);
      ClosedFlows(t, run[1..], delay);
    }
  }

  lemma ClosedStep(k: Keyboard, e: Moment, delay: Seconds)
    requires k.closed && !k.lost && 0.0 <= k.level && k.level + Due(k) <= QEMU_QUEUE && Possible(k, e, delay)
    ensures var t := Happens(k, e); t.closed && !t.lost && 0.0 <= t.level && t.level + Due(t) <= QEMU_QUEUE
  {
    assert Slots([]) == 0;
    hide Slots, Accepted, Step;
    if e.Arrive? {
      AcceptedIff(k.level, k.coming);
    }
  }

  /** Whatever the delay, QEMU drops nothing of the flush, however the end goes, exactly when all of it fits
      on top of what is queued when it is sent. */
  lemma FlushFitsIff(k: Keyboard, delay: Seconds)
    requires !k.closed && !k.lost && k.coming == [] && 0.0 <= k.level <= QEMU_QUEUE
    ensures (forall run :: CanHappen(Happens(k, Close), run, delay) ==> !Finally(Happens(k, Close), run).lost)
       <==> EndFits(k)
  {
    hide CanHappen, Finally, Slots, Accepted, Flush;
    var t := Happens(k, Close);
    if EndFits(k) {
      forall run | CanHappen(t, run, delay) ensures !Finally(t, run).lost {
        ClosedFlows(t, run, delay);
      }
    } else {
      AcceptedIff(t.level, t.coming);
      var run := [Arrive];
      Nothing(Happens(t, Arrive), delay);
      assert run[1..] == [] && run[0..] == run;
      Earlier(t, run, 0, delay);
    }
  }

  lemma Nothing(k: Keyboard, delay: Seconds)
    ensures CanHappen(k, [], delay) && Finally(k, []) == k && EndsFit(k, [])
  {
  }

  lemma Earlier(k: Keyboard, run: seq<Moment>, i: nat, delay: Seconds)
    requires i < |run| && Possible(k, run[i], delay) && CanHappen(Happens(k, run[i]), run[i + 1..], delay)
    ensures CanHappen(k, run[i..], delay) && Finally(k, run[i..]) == Finally(Happens(k, run[i]), run[i + 1..])
    ensures EndsFit(Happens(k, run[i]), run[i + 1..]) && !run[i].Close? ==> EndsFit(k, run[i..])
  {
    hide Possible, Happens, EndFits;
    assert run[i..][1..] == run[i + 1..];
  }
}
