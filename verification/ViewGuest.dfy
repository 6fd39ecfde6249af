/** The viewer as a whole: what the terminal reports goes through the input thread and the QMP thread's queue
    to the guest's keyboard, whose queue in QEMU drops what does not fit; and the viewer ends. */
module ViewGuest {
  import opened Keys
  import opened ViewHeld
  import V = ViewInput

  /** The input thread, and whether it has ended; how many of the groups it sent the QMP thread has queued;
      and the QMP thread with all beyond it. */
  datatype Viewer = Viewer(thread: Thread, ended: bool, received: nat, keyboard: V.Keyboard)

  const OPENED: Viewer := Viewer(Thread([], {}, []), false, 0, V.IDLE)

  datatype Action = Terminal(input: Input) | End | Receive | At(moment: V.Moment)

  /** The QMP thread closes once the input thread has ended and all it sent has been received. */
  predicate Enabled(v: Viewer, a: Action, delay: V.Seconds) {
    match a
    case Terminal(_) => !v.ended
    case End => !v.ended
    case Receive => v.received < |v.thread.sent| && !v.keyboard.closed
    case At(m) =>
      && !m.Type? && V.Possible(v.keyboard, m, delay)
      && (m.Close? ==> v.ended && v.received == |v.thread.sent|)
  }

  /** Ending, the input thread lets go of what it holds. */
  function Step(v: Viewer, a: Action): Viewer {
    match a
    case Terminal(e) => v.(thread := OnInput(v.thread, e))
    case End => v.(thread := OnRelease(v.thread), ended := true)
    case Receive =>
      if v.received < |v.thread.sent| then
        v.(received := v.received + 1, keyboard := V.Happens(v.keyboard, V.Type(v.thread.sent[v.received])))
      else v
    case At(m) => v.(keyboard := V.Happens(v.keyboard, m))
  }

  ghost predicate CanRun(v: Viewer, run: seq<Action>, delay: V.Seconds)
    decreases |run|
  {
    run == [] || (Enabled(v, run[0], delay) && CanRun(Step(v, run[0]), run[1..], delay))
  }

  function After(v: Viewer, run: seq<Action>): Viewer
    decreases |run|
  {
    if run == [] then v else After(Step(v, run[0]), run[1..])
  }

  /** Any flush of the run fits in QEMU's queue on top of what it has. */
  ghost predicate EndsFit(v: Viewer, run: seq<Action>)
    decreases |run|
  {
    run == [] || ((run[0] == At(V.Close) ==> V.EndFits(v.keyboard)) && EndsFit(Step(v, run[0]), run[1..]))
  }

  function Full(groups: seq<Group>): seq<Group> {
    if groups == [] then [] else (if groups[0] == [] then [] else [groups[0]]) + Full(groups[1..])
  }

  lemma {:induction false} FullMore(groups: seq<Group>, g: Group)
    ensures Full(groups + [g]) == Full(groups) + if g == [] then [] else [g]
  {
    if groups == [] {
      assert groups + [g] == [g] && [g][1..] == [];
    } else {
      assert (groups + [g])[1..] == groups[1..] + [g];
      FullMore(groups[1..], g);
    }
  }

  // ---- what reaches the guest is lossy only as allowed

  lemma {:induction false} ThinnedIsLossy(full: seq<Group>, kept: seq<Group>)
    requires V.Thinned(Full(full), kept)
    ensures Lossy(full, kept)
    decreases |full|
  {
    if full != [] {
      if full[0] == [] {
        assert Full(full) == Full(full[1..]);
        ThinnedIsLossy(full[1..], kept);
      } else {
        var dense := Full(full);
        assert dense[1..] == Full(full[1..]);
        if kept != [] && kept[0] == dense[0] && V.Thinned(dense[1..], kept[1..]) {
          ThinnedIsLossy(full[1..], kept[1..]);
        } else {
          ThinnedIsLossy(full[1..], kept);
        }
      }
    }
  }

  lemma {:induction false} LossyTwice(a: seq<Group>, b: seq<Group>, c: seq<Group>)
    requires Lossy(a, b) && Lossy(b, c)
    ensures Lossy(a, c)
    decreases |a|
  {
    hide MayDrop;
    if a != [] {
      if b != [] && b[0] == a[0] && Lossy(a[1..], b[1..]) {
        if c != [] && c[0] == b[0] && Lossy(b[1..], c[1..]) {
          LossyTwice(a[1..], b[1..], c[1..]);
        } else {
          LossyTwice(a[1..], b[1..], c);
        }
      } else {
        LossyTwice(a[1..], b, c);
      }
    }
  }

  lemma {:induction false} FlushedIsLossy(pending: seq<Group>)
    ensures Lossy(pending, V.Flushed(pending))
  {
    if pending != [] {
      FlushedIsLossy(pending[1..]);
      if V.PressesKey(pending[0]) {
        assert V.Flushed(pending) == V.Flushed(pending[1..]);
      } else {
        assert V.Flushed(pending)[1..] == V.Flushed(pending[1..]);
      }
    }
  }

  lemma {:induction false} FlushIsLossy(out: seq<Group>, pending: seq<Group>)
    ensures Lossy(out + pending, out + V.Flushed(pending))
  {
    hide V.PressesKey, MayDrop, V.Flushed;
    if out == [] {
      assert out + pending == pending && out + V.Flushed(pending) == V.Flushed(pending);
      FlushedIsLossy(pending);
    } else {
      FlushIsLossy(out[1..], pending);
      assert (out + pending)[1..] == out[1..] + pending;
      assert (out + V.Flushed(pending))[1..] == out[1..] + V.Flushed(pending);
    }
  }

  // ---- what every run keeps

  /** While nothing has been lost, what came and is coming is all that was sent: of the input thread's
      groups, once closed, all but some that may be dropped. */
  ghost predicate Streams(v: Viewer) {
    var k := v.keyboard;
    if k.closed then exists kept :: Lossy(v.thread.sent, kept) && k.came + k.coming == V.Flat(kept)
    else k.came + k.coming == V.Flat(V.Concat(k.queue.batches))
  }

  ghost predicate Consistent(v: Viewer) {
    && v.received <= |v.thread.sent| && 0.0 <= v.keyboard.level <= V.QEMU_QUEUE
    && Counted(v.thread) && AllCovered(v.thread.sent, v.thread.held)
    && (v.ended ==> v.thread.held == [])
    && (!v.keyboard.closed ==> v.keyboard.queue.fed == Full(v.thread.sent[..v.received]) && V.Kept(v.keyboard.queue))
    && (v.keyboard.closed ==> v.ended)
    && (!v.keyboard.lost ==> Streams(v))
  }

  lemma OnlySends(t: Thread, e: Input)
    ensures t.sent <= OnInput(t, e).sent
  {
    hide Tap, LetGo, PressDown, Released, LastOf;
  }

  lemma InputConsistent(v: Viewer, e: Input, ended: bool)
    requires Consistent(v) && !v.ended && (ended ==> e.FocusLost?)
    ensures Consistent(v.(thread := OnInput(v.thread, e), ended := ended))
  {
    assert e.FocusLost? ==> OnInput(v.thread, e).held == [];
    hide AllCovered, Counted, V.Kept, Lossy, V.Flat, V.Concat, OnInput;
    OnlySends(v.thread, e);
    InputCounted(v.thread, e);
    InputCovers(v.thread, e);
    assert OnInput(v.thread, e).sent[..v.received] == v.thread.sent[..v.received];
  }

  lemma ReceiveConsistent(v: Viewer)
    requires Consistent(v) && v.received < |v.thread.sent| && !v.keyboard.closed
    ensures Consistent(Step(v, Receive))
  {
    hide AllCovered, Counted, V.Kept, V.Queued, V.Flat, V.Concat;
    var g := v.thread.sent[v.received];
    FullMore(v.thread.sent[..v.received], g);
    assert v.thread.sent[..v.received] + [g] == v.thread.sent[..v.received + 1];
    V.FeedKeeps(v.keyboard.queue, g);
  }

  lemma WaitConsistent(v: Viewer, m: V.Moment)
    requires Consistent(v) && m.Wait? && m.taken <= v.keyboard.level
    ensures Consistent(Step(v, At(m)))
  {
    hide AllCovered, Counted, V.Kept, Full, Lossy, V.Flat, V.Concat, V.Drained;
    if !v.keyboard.closed {
      V.PassKeeps(v.keyboard.queue, m.seconds);
    }
  }

  lemma {:induction false} FlatBoth(a: seq<Group>, b: seq<Group>)
    ensures V.Flat(a + b) == V.Flat(a) + V.Flat(b)
  {
    if a == [] {
      assert a + b == b;
    } else {
      assert (a + b)[1..] == a[1..] + b;
      FlatBoth(a[1..], b);
    }
  }

  lemma SendConsistent(v: Viewer)
    requires Consistent(v) && !v.keyboard.closed && v.keyboard.coming == []
    ensures Consistent(Step(v, At(V.Send)))
  {
    hide AllCovered, Counted, V.Kept, V.Taken, Full, V.Flat, V.Concat, Slots;
    var q := v.keyboard.queue;
    var groups := q.pending[..V.Taken(q.pending, q.queued)];
    V.TakeKeeps(q);
    V.NothingTaken();
    V.ConcatMore(q.batches, groups);
    FlatBoth(V.Concat(q.batches), groups);
  }

  lemma ArriveConsistent(v: Viewer)
    requires Consistent(v)
    ensures Consistent(Step(v, At(V.Arrive)))
  {
    hide AllCovered, Counted, V.Kept, Full, Lossy, V.Flat, V.Concat, V.Accepted, Slots;
    var k, t := v.keyboard, V.Happens(v.keyboard, V.Arrive);
    V.AcceptedFits(k.level, k.coming);
    assert !t.lost ==> t.came + t.coming == k.came + k.coming;
  }

  lemma CloseConsistent(v: Viewer)
    requires Consistent(v) && !v.keyboard.closed && v.keyboard.coming == [] && v.ended && v.received == |v.thread.sent|
    ensures Consistent(Step(v, At(V.Close)))
  {
    hide AllCovered, Counted, V.Paced, V.ClickLast, Full, Lossy, V.Flat, V.Concat, V.Flushed, V.Thinned;
    var k, sent := v.keyboard, v.thread.sent;
    var out, pending := V.Concat(k.queue.batches), k.queue.pending;
    assert sent[..v.received] == sent;
    ThinnedIsLossy(sent, out + pending);
    FlushIsLossy(out, pending);
    LossyTwice(sent, out + pending, out + V.Flushed(pending));
    FlatBoth(out, V.Flushed(pending));
    if !k.lost {
      assert k.came + [] == k.came;
      assert k.came + V.Flush(k.queue) == V.Flat(out + V.Flushed(pending));
    }
  }

  lemma StepConsistent(v: Viewer, a: Action, delay: V.Seconds)
    requires Consistent(v) && Enabled(v, a, delay)
    ensures Consistent(Step(v, a))
  {
    hide Consistent, V.Happens;
    match a {
      case Terminal(e) => InputConsistent(v, e, false);
      case End => InputConsistent(v, FocusLost, true);
      case Receive => ReceiveConsistent(v);
      case At(m) =>
        match m {
          case Wait(_, _) => WaitConsistent(v, m);
          case Send => SendConsistent(v);
          case Arrive => ArriveConsistent(v);
          case Close => CloseConsistent(v);
        }
    }
  }

  lemma {:induction false} RunConsistent(v: Viewer, run: seq<Action>, delay: V.Seconds)
    requires Consistent(v) && CanRun(v, run, delay)
    ensures Consistent(After(v, run))
    decreases |run|
  {
    hide Consistent, Step, Enabled;
    if run != [] {
      StepConsistent(v, run[0], delay);
      RunConsistent(Step(v, run[0]), run[1..], delay);
    }
  }

  lemma OpenedConsistent()
    ensures Consistent(OPENED)
  {
    assert OPENED.thread.sent[..0] == [];
    assert Guest({}, []) == {};
  }

  // ---- nothing is lost

  lemma StepFlows(v: Viewer, a: Action, delay: V.Seconds)
    requires Consistent(v) && V.Flows(v.keyboard, delay) && Enabled(v, a, delay) && delay <= 0.02
    requires a == At(V.Close) ==> V.EndFits(v.keyboard)
    ensures V.Flows(Step(v, a).keyboard, delay)
  {
    hide V.Flows, V.Possible, V.Happens, V.EndFits, Slots, AllCovered, V.Kept, Streams;
    match a {
      case Receive =>
        TypeIsPossible(v.keyboard, v.thread.sent[v.received], delay);
        V.HappensFlows(v.keyboard, V.Type(v.thread.sent[v.received]), delay);
      case At(m) => V.HappensFlows(v.keyboard, m, delay);
      case _ =>
    }
  }

  lemma TypeIsPossible(k: V.Keyboard, g: Group, delay: V.Seconds)
    requires !k.closed
    ensures V.Possible(k, V.Type(g), delay)
  {
  }

  lemma {:induction false} RunFlows(v: Viewer, run: seq<Action>, delay: V.Seconds)
    requires Consistent(v) && V.Flows(v.keyboard, delay) && CanRun(v, run, delay)
    requires EndsFit(v, run) && delay <= 0.02
    ensures V.Flows(After(v, run).keyboard, delay)
    decreases |run|
  {
    hide Consistent, V.Flows, Step, Enabled, V.EndFits;
    if run != [] {
      StepConsistent(v, run[0], delay);
      StepFlows(v, run[0], delay);
      RunFlows(Step(v, run[0]), run[1..], delay);
    }
  }

  /** QEMU drops nothing of what the viewer sends, however a run goes, when batches arrive within 20 ms and
      the flush fits. */
  lemma NothingIsLost(run: seq<Action>, delay: V.Seconds)
    requires CanRun(OPENED, run, delay) && EndsFit(OPENED, run) && delay <= 0.02
    ensures !After(OPENED, run).keyboard.lost
  {
    hide CanRun, After, EndsFit, Consistent;
    OpenedConsistent();
    V.IdleFlows(delay);
    RunFlows(OPENED, run, delay);
  }

  // ---- nothing stays down

  lemma LossyCovered(v: Viewer, kept: seq<Group>)
    requires AllCovered(v.thread.sent, v.thread.held) && Lossy(v.thread.sent, kept) && v.thread.held == []
    ensures Guest({}, V.Flat(kept)) == {}
  {
    hide Lossy, Guest, V.Flat;
    assert Covered(Guest({}, V.Flat(kept)), v.thread.held);
  }

  /** All that was sent has been received, has left the queue, and has arrived. */
  predicate Settled(v: Viewer) {
    v.received == |v.thread.sent| && v.keyboard.queue.pending == [] && v.keyboard.coming == []
  }

  /** Whenever no button is held, as after the terminal loses focus, and all is settled, nothing is down in
      the guest: every button and modifier it was sent down has come up, if nothing was lost. */
  lemma NothingHeldNothingDown(run: seq<Action>, delay: V.Seconds)
    requires CanRun(OPENED, run, delay)
    requires var v := After(OPENED, run);
             Settled(v) && v.thread.held == [] && !v.keyboard.closed && !v.keyboard.lost
    ensures Guest({}, After(OPENED, run).keyboard.came) == {}
  {
    hide CanRun, After, Guest, V.Thinned, V.Paced, V.ClickLast, AllCovered, Lossy, Full, Counted;
    OpenedConsistent();
    RunConsistent(OPENED, run, delay);
    var v := After(OPENED, run);
    var out := V.Concat(v.keyboard.queue.batches);
    assert out + v.keyboard.queue.pending == out && v.thread.sent[..v.received] == v.thread.sent;
    ThinnedIsLossy(v.thread.sent, out);
    LossyCovered(v, out);
    assert v.keyboard.came + [] == v.keyboard.came;
  }

  /** However the viewer's run went, once it has ended and the flush has arrived nothing is down in the guest,
      though the taps and presses still pending were dropped, if QEMU lost nothing. */
  lemma NothingLostNothingStays(run: seq<Action>, delay: V.Seconds)
    requires CanRun(OPENED, run, delay)
    requires var k := After(OPENED, run).keyboard; k.closed && k.coming == [] && !k.lost
    ensures Guest({}, After(OPENED, run).keyboard.came) == {}
  {
    hide CanRun, After, Guest, AllCovered, Lossy, Full, Counted, V.Kept;
    OpenedConsistent();
    RunConsistent(OPENED, run, delay);
    var v := After(OPENED, run);
    var kept :| Lossy(v.thread.sent, kept) && v.keyboard.came + v.keyboard.coming == V.Flat(kept);
    LossyCovered(v, kept);
    assert v.keyboard.came + [] == v.keyboard.came;
  }

  /** So nothing stays down when batches arrive within 20 ms and the flush fits. */
  lemma NothingStaysHeld(run: seq<Action>, delay: V.Seconds)
    requires CanRun(OPENED, run, delay) && EndsFit(OPENED, run) && delay <= 0.02
    ensures var k := After(OPENED, run).keyboard;
            k.closed && k.coming == [] ==> Guest({}, k.came) == {}
  {
    hide CanRun, After, EndsFit, Guest;
    NothingIsLost(run, delay);
    var k := After(OPENED, run).keyboard;
    if k.closed && k.coming == [] {
      NothingLostNothingStays(run, delay);
    }
  }

  // ---- a flush that does not fit

  /** The flush releases each key once, and each is down. */
  ghost predicate ReleasesOnce(flush: seq<Event>, down: set<Part>) {
    && (forall i :: 0 <= i < |flush| && flush[i].Key? ==> !flush[i].down && KeyOf(flush[i].code) in down)
    && (forall i, j :: 0 <= i < j < |flush| && flush[i].Key? && flush[j].Key? ==> flush[i].code != flush[j].code)
  }

  lemma {:induction false} NotReleasedStays(down: set<Part>, events: seq<Event>, code: Code)
    requires KeyOf(code) in down && forall i :: 0 <= i < |events| ==> events[i].Key? ==> events[i].code != code
    ensures KeyOf(code) in Guest(down, events)
    decreases |events|
  {
    if events != [] {
      NotReleasedStays(Change(down, events[0]), events[1..], code);
    }
  }

  lemma {:induction false} AcceptedAreOf(level: real, events: seq<Event>)
    ensures forall i :: 0 <= i < |V.Accepted(level, events)| ==> V.Accepted(level, events)[i] in events
    decreases |events|
  {
    if events != [] {
      AcceptedAreOf(level, events[1..]);
      AcceptedAreOf(level + SlotsOf(events[0]) as real, events[1..]);
      assert forall e :: e in events[1..] ==> e in events;
    }
  }

  /** A key whose release does not fit stays down. */
  lemma {:induction false} DroppedStays(down: set<Part>, level: real, flush: seq<Event>)
    requires ReleasesOnce(flush, down) && 0.0 <= level <= V.QEMU_QUEUE
    requires level + Slots(flush) as real > V.QEMU_QUEUE
    ensures Guest(down, V.Accepted(level, flush)) != {}
    decreases |flush|
  {
    if flush != [] {
      var e, rest := flush[0], flush[1..];
      var slots := SlotsOf(e) as real;
      assert forall i :: 0 <= i < |rest| ==> rest[i] == flush[i + 1];
      if e.Key? && level + slots > V.QEMU_QUEUE {
        var taken := V.Accepted(level, rest);
        AcceptedAreOf(level, rest);
        forall i | 0 <= i < |taken| && taken[i].Key? ensures taken[i].code != e.code {
          assert taken[i] in rest;
        }
        NotReleasedStays(down, taken, e.code);
      } else {
        assert V.Accepted(level, flush)[1..] == V.Accepted(level + slots, rest);
        DroppedStays(Change(down, e), level + slots, rest);
      }
    }
  }

  /** When the viewer ends with nothing lost so far, and the flush releases keys that are down and each once,
      as that of one hold does, all come up exactly when the whole flush fits. */
  lemma FlushFreesIff(run: seq<Action>, delay: V.Seconds)
    requires CanRun(OPENED, run, delay)
    requires var v := After(OPENED, run);
             && !v.keyboard.lost && Enabled(v, At(V.Close), delay)
             && ReleasesOnce(V.Flush(v.keyboard.queue), Guest({}, v.keyboard.came))
    ensures var v := After(OPENED, run);
            Guest({}, Step(Step(v, At(V.Close)), At(V.Arrive)).keyboard.came) == {} <==> V.EndFits(v.keyboard)
  {
    hide CanRun, After, Guest, AllCovered, Lossy, Full, Counted, V.Kept, V.Accepted, ReleasesOnce, V.Flush, Slots;
    OpenedConsistent();
    RunConsistent(OPENED, run, delay);
    var v := After(OPENED, run);
    var k := v.keyboard;
    var flush := V.Flush(k.queue);
    CloseConsistent(v);
    GuestBoth({}, k.came, V.Accepted(k.level, flush));
    if V.EndFits(k) {
      V.AcceptedIff(k.level, flush);
      var u := Step(v, At(V.Close));
      var kept :| Lossy(u.thread.sent, kept) && u.keyboard.came + u.keyboard.coming == V.Flat(kept);
      LossyCovered(u, kept);
    } else {
      DroppedStays(Guest({}, k.came), k.level, flush);
    }
  }

  // ---- a run that leaves Command down

  lemma {:induction false} RunInTwo(v: Viewer, first: seq<Action>, rest: seq<Action>, delay: V.Seconds)
    requires CanRun(v, first, delay) && CanRun(After(v, first), rest, delay)
    ensures CanRun(v, first + rest, delay) && After(v, first + rest) == After(After(v, first), rest)
    decreases |first|
  {
    hide Step, Enabled;
    if first == [] {
      assert first + rest == rest;
    } else {
      assert (first + rest)[1..] == first[1..] + rest;
      RunInTwo(Step(v, first[0]), first[1..], rest, delay);
    }
  }

  lemma OneStep(v: Viewer, run: seq<Action>, a: Action, delay: V.Seconds)
    requires CanRun(v, run, delay) && Enabled(After(v, run), a, delay)
    ensures CanRun(v, run + [a], delay) && After(v, run + [a]) == Step(After(v, run), a)
  {
    hide Step, Enabled;
    var t := After(v, run);
    assert [a][1..] == [];
    assert CanRun(Step(t, a), [], delay) && After(Step(t, a), []) == Step(t, a);
    assert CanRun(t, [a], delay) && After(t, [a]) == Step(t, a);
    RunInTwo(v, run, [a], delay);
  }

  /** A viewer with nothing on its way, and an estimate that is right. */
  predicate Idle(v: Viewer) {
    && Settled(v) && !v.ended && !v.keyboard.closed && !v.keyboard.lost
    && v.keyboard.queue.queued == v.keyboard.level >= 0.0
  }

  /** A group typed alone is sent and arrives. */
  lemma Delivered(k: V.Keyboard, g: Group)
    requires !k.closed && k.queue.pending == [] && k.coming == [] && g != []
    requires k.queue.queued == k.level >= 0.0 && k.level + Slots(g) as real <= V.KEY_QUEUE
    ensures var sent := V.Happens(V.Happens(k, V.Type(g)), V.Send);
            var t := V.Happens(sent, V.Arrive);
            && !sent.closed && sent.coming == g
            && t.queue.pending == [] && t.coming == [] && t.lost == k.lost && !t.closed && t.came == k.came + g
            && t.queue.queued == t.level == k.level + Slots(g) as real
  {
    hide Slots, IsClick, V.Accepted;
    V.NothingTaken();
    var typed := V.Happens(k, V.Type(g));
    assert typed.queue.pending == [g];
    assert [g][..1] == [g] && [g][1..] == [];
    assert V.Flat([g]) == g;
    assert V.Taken(typed.queue.pending, k.queue.queued) == 1;
    V.AcceptedIff(k.level, g);
  }

  lemma Typed(v: Viewer, run: seq<Action>, e: Input, g: Group) returns (more: seq<Action>)
    requires CanRun(v, run, 0.0) && Idle(After(v, run)) && g != []
    requires OnInput(After(v, run).thread, e).sent == After(v, run).thread.sent + [g]
    requires After(v, run).keyboard.level + Slots(g) as real <= V.KEY_QUEUE
    ensures CanRun(v, more, 0.0) && Idle(After(v, more))
    ensures var t, u := After(v, run), After(v, more);
            && u.thread == OnInput(t.thread, e) && u.keyboard.came == t.keyboard.came + g
            && u.keyboard.level == t.keyboard.level + Slots(g) as real
  {
    hide OnInput, V.Happens, Slots, CanRun, After;
    var t := After(v, run);
    Delivered(t.keyboard, g);
    OneStep(v, run, Terminal(e), 0.0);
    more := run + [Terminal(e)];
    OneStep(v, more, Receive, 0.0);
    more := more + [Receive];
    TypedIsOpen(t.keyboard, g);
    OneStep(v, more, At(V.Send), 0.0);
    more := more + [At(V.Send)];
    OneStep(v, more, At(V.Arrive), 0.0);
    more := more + [At(V.Arrive)];
  }

  lemma TypedIsOpen(k: V.Keyboard, g: Group)
    ensures V.Happens(k, V.Type(g)).closed == k.closed && V.Happens(k, V.Type(g)).coming == k.coming
  {
  }

  const ALL: set<Mod> := {Cmd, Opt, Ctrl, Shift}
  const HOLD: Holding := Holding(Left, ALL)
  const DRAG: Input := Mouse(Report(Down(Left), 1, Spot(0, 0, true), ALL, {}))
  const PRESS: Group := Pos(Spot(0, 0, true)) + PressDown(HOLD)
  const ARROW: Code := Extended("down")

  lemma NoneChosen(from: seq<Mod>)
    ensures Chosen({}, from) == []
  {
    assert forall m: Mod :: m !in Chosen({}, from);
  }

  lemma ArrowIs()
    ensures Tap({}, ARROW) == [Key(ARROW, true), Key(ARROW, false)] && Slots(Tap({}, ARROW)) == 4
  {
    hide Chosen, Slots;
    NoneChosen(EACH);
    assert Cost([]) == 0;
    TapCost({}, ARROW);
  }

  lemma SlotsOfOne(e: Event)
    ensures Slots([e]) == SlotsOf(e)
  {
    assert [e][1..] == [];
  }

  /** A hold of every modifier is five slots to press and five to let go. */
  lemma HoldSlots()
    ensures Slots(PRESS) == 5 && Slots(LetGo(HOLD)) == 5
    ensures LetGo(HOLD) == [Btn(Left, false)] + Releases(EACH)
  {
    hide Slots, Chosen, Presses, Releases, Cost;
    AllChosen(ALL, EACH);
    PressesCost(EACH);
    EachCost();
    SlotsOfOne(Btn(Left, true));
    SlotsOfOne(Btn(Left, false));
    SlotsOfOne(Abs(0, 0));
    SlotsOfBoth(Presses(EACH), [Btn(Left, true)]);
    SlotsOfBoth([Btn(Left, false)], Releases(EACH));
    SlotsOfBoth([Abs(0, 0)], PressDown(HOLD));
  }

  /** Letting go releases the four modifiers, each once. */
  lemma LetGoOnce(down: set<Part>)
    requires Parts(HOLD) <= down
    ensures ReleasesOnce(LetGo(HOLD), down) && !V.PressesKey(LetGo(HOLD))
  {
    hide Slots, Chosen, Cost;
    HoldSlots();
    var g := LetGo(HOLD);
    assert forall i :: 0 < i < |g| ==> g[i] == Key(Modifier(EACH[4 - i]), false);
    forall i | 0 < i < |g| ensures KeyOf(g[i].code) in down {
      assert EACH[4 - i] in ALL;
      assert KeyOf(Modifier(EACH[4 - i])) in ModParts(ALL);
    }
  }

  lemma DragIs()
    ensures OnInput(OPENED.thread, DRAG) == Thread([HOLD], {}, [PRESS]) && PRESS != []
  {
    hide PressDown;
    assert ALL + {} == ALL && [] + [HOLD] == [HOLD] && [] + [PRESS] == [PRESS];
  }

  lemma ArrowTyped(t: Thread)
    ensures OnInput(t, Press({}, ARROW)) == Thread(t.held, {}, t.sent + [Tap({} + t.latch, ARROW)])
  {
  }

  lemma ArrowKeeps(down: set<Part>)
    requires Parts(HOLD) <= down
    ensures Parts(HOLD) <= Guest(down, Tap({}, ARROW))
  {
    hide Guest, Tap;
    ArrowIs();
    var on, off := Key(ARROW, true), Key(ARROW, false);
    assert Tap({}, ARROW) == [on] + [off];
    GuestBoth(down, [on], [off]);
    GuestOne(down, on);
    GuestOne(Change(down, on), off);
  }

  /** One arrow key more, while the hold stays down. */
  lemma ArrowPressed(v: Viewer, run: seq<Action>) returns (more: seq<Action>)
    requires CanRun(v, run, 0.0) && Idle(After(v, run))
    requires var t := After(v, run);
             && t.thread.held == [HOLD] && t.thread.latch == {} && t.keyboard.level <= 8.0
             && Parts(HOLD) <= Guest({}, t.keyboard.came)
    ensures CanRun(v, more, 0.0) && Idle(After(v, more))
    ensures var t, u := After(v, run), After(v, more);
            && u.thread.held == [HOLD] && u.thread.latch == {} && u.keyboard.level == t.keyboard.level + 4.0
            && Parts(HOLD) <= Guest({}, u.keyboard.came)
  {
    hide CanRun, After, Guest, Parts, Tap, OnInput, Slots;
    var t := After(v, run);
    ArrowTyped(t.thread);
    ArrowIs();
    assert {} + t.thread.latch == {};
    more := Typed(v, run, Press({}, ARROW), Tap({}, ARROW));
    GuestBoth({}, t.keyboard.came, Tap({}, ARROW));
    ArrowKeeps(Guest({}, t.keyboard.came));
  }

  /** The guest takes all that is queued, in the time it needs. */
  lemma Drains(v: Viewer, seconds: V.Seconds)
    requires Idle(v) && v.keyboard.level == seconds * V.KEYS_PER_SEC
    ensures var a := At(V.Wait(seconds, v.keyboard.level));
            var t := Step(v, a);
            && Enabled(v, a, 0.0) && Idle(t)
            && t.thread == v.thread && t.keyboard.level == 0.0 && t.keyboard.came == v.keyboard.came
  {
  }

  lemma Drained(v: Viewer, run: seq<Action>, seconds: V.Seconds) returns (more: seq<Action>)
    requires CanRun(v, run, 0.0) && Idle(After(v, run))
    requires After(v, run).keyboard.level == seconds * V.KEYS_PER_SEC
    ensures CanRun(v, more, 0.0) && Idle(After(v, more))
    ensures var t, u := After(v, run), After(v, more);
            u.thread == t.thread && u.keyboard.level == 0.0 && u.keyboard.came == t.keyboard.came
  {
    hide CanRun, After, Step, Enabled, Idle;
    Drains(After(v, run), seconds);
    var a := At(V.Wait(seconds, After(v, run).keyboard.level));
    OneStep(v, run, a, 0.0);
    more := run + [a];
  }

  lemma HoldDown()
    ensures Parts(HOLD) <= Guest({}, [] + PRESS)
  {
    hide Guest, PressDown, Pos, Parts;
    assert [] + PRESS == PRESS;
    MoveLeaves({}, Spot(0, 0, true), PressDown(HOLD));
    PressAdds({}, HOLD);
  }

  /** The left button goes down with every modifier, and the guest takes it. */
  lemma HoldPressed() returns (run: seq<Action>)
    ensures CanRun(OPENED, run, 0.0) && Idle(After(OPENED, run))
    ensures var t := After(OPENED, run);
            && t.thread.held == [HOLD] && t.thread.latch == {} && t.keyboard.level == 0.0
            && Parts(HOLD) <= Guest({}, t.keyboard.came)
  {
    hide CanRun, After, Guest, Parts, Slots, PRESS, OnInput, HOLD, ALL;
    Unmoved();
    DragIs();
    HoldSlots();
    HoldDown();
    run := Typed(OPENED, [], DRAG, PRESS);
    run := Drained(OPENED, run, 0.05);
  }

  lemma Unmoved()
    ensures CanRun(OPENED, [], 0.0) && After(OPENED, []) == OPENED
  {
  }

  lemma Ended(t: Viewer)
    requires Idle(t) && t.thread.held == [HOLD] && t.keyboard.level == 12.0
    ensures var e := Step(t, End);
            var u := Step(e, Receive);
            && Enabled(t, End, 0.0) && Enabled(e, Receive, 0.0) && Enabled(u, At(V.Close), 0.0)
            && u.keyboard == V.Happens(t.keyboard, V.Type(LetGo(HOLD)))
  {
    hide LetGo, V.Happens;
    assert [HOLD][..0] == [];
    assert Released([HOLD]) == [LetGo(HOLD)];
    TypedIsOpen(t.keyboard, LetGo(HOLD));
  }

  /** The input thread ends holding the button; its release is pending, and its five slots do not fit over
      three arrow keys'. */
  lemma EndsHolding(run: seq<Action>) returns (more: seq<Action>)
    requires CanRun(OPENED, run, 0.0) && Idle(After(OPENED, run))
    requires var t := After(OPENED, run);
             && t.thread.held == [HOLD] && t.keyboard.level == 12.0 && Parts(HOLD) <= Guest({}, t.keyboard.came)
    ensures CanRun(OPENED, more, 0.0)
    ensures var t := After(OPENED, more);
            && Enabled(t, At(V.Close), 0.0) && !t.keyboard.lost && !V.EndFits(t.keyboard)
            && ReleasesOnce(V.Flush(t.keyboard.queue), Guest({}, t.keyboard.came))
  {
    HoldSlots();
    hide CanRun, After, Guest, Parts, Slots, LetGo, ReleasesOnce, V.PressesKey, Step, Enabled, V.Step, V.Flush;
    var t := After(OPENED, run);
    LetGoOnce(Guest({}, t.keyboard.came));
    Ended(t);
    OneStep(OPENED, run, End, 0.0);
    more := run + [End];
    OneStep(OPENED, more, Receive, 0.0);
    more := more + [Receive];
    FlushIs(t.keyboard.queue, LetGo(HOLD));
  }

  lemma FlushIs(q: V.State, g: Group)
    requires q.pending == [] && g != [] && !V.PressesKey(g)
    ensures V.Flush(V.Step(q, V.Feed(g))) == g
  {
    hide V.PressesKey;
    assert V.Queued([], g) == [g] && [g][1..] == [];
    assert V.Flushed([g]) == [g];
    assert V.Flat([g]) == g;
  }

  /** With no delay at all a run ends with a key left down: the flush that lets go of a button held with
      every modifier comes on top of three arrow keys, and QEMU drops what does not fit. */
  lemma SomethingStaysDown() returns (run: seq<Action>)
    ensures CanRun(OPENED, run, 0.0)
    ensures var k := After(OPENED, run).keyboard; k.closed && k.coming == [] && Guest({}, k.came) != {}
  {
    hide CanRun, After, Guest, Parts, ReleasesOnce, V.EndFits, Idle;
    run := HoldPressed();
    run := ArrowPressed(OPENED, run);
    run := ArrowPressed(OPENED, run);
    run := ArrowPressed(OPENED, run);
    run := EndsHolding(run);
    FlushFreesIff(run, 0.0);
    OneStep(OPENED, run, At(V.Close), 0.0);
    run := run + [At(V.Close)];
    OneStep(OPENED, run, At(V.Arrive), 0.0);
    run := run + [At(V.Arrive)];
  }
}
