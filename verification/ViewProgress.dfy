/** The viewer's frames again: how long `busy` stays set, and how a resize lets two frames be on their
    way. */
module ViewProgress {
  import opened Options
  import opened ViewFrames

  // ---- busy clears

  predicate WorkStep(a: Action) {
    a.SendFrame? || ByEncoder(a) || ByMain(a)
  }

  function EncoderWork(e: Encoder): nat {
    match e
    case Receiving => 0
    case Draining => 5
    case Drained => 4
    case Looked(_, _) => 3
    case Failing => 2
  }

  function UiWork(q: seq<Ui>): nat {
    if q == [] then 0
    else UiWork(q[1..]) + if q[0].Frame? then 2 else if q[0].Resize? then 8 else 1
  }

  function MainWork(m: Main): nat {
    match m
    case Waiting => 0
    case Writing(_, _, _) => 1
    case Resending => 7
  }

  /** A bound on the steps the threads can take on what is on its way. */
  function Work(s: State): nat {
    7 * One(s.capturer.Ready?) + 6 * |s.encQueue| + EncoderWork(s.encoder) + UiWork(s.uiQueue) + MainWork(s.main)
  }

  lemma {:induction false} UiWorkMore(q: seq<Ui>, m: Ui)
    ensures UiWork(q + [m]) == UiWork(q) + UiWork([m])
  {
    if q == [] {
      assert q + [m] == [m];
    } else {
      assert (q + [m])[1..] == q[1..] + [m];
      UiWorkMore(q[1..], m);
    }
  }

  lemma QueueWork(q: seq<Ui>)
    ensures q != [] ==> UiWork(q) == UiWork([q[0]]) + UiWork(q[1..])
    ensures forall f, layout, dims :: UiWork([Frame(f, layout, dims)]) == 2
    ensures UiWork([Resize]) == 8 && UiWork([Note]) == 1
  {
  }

  lemma EncodeShrinks(s: State, ok: bool)
    requires s.encoder.Looked?
    ensures Work(Step(s, Encode(ok))) < Work(s)
  {
    hide UiWork;
    QueueWork(s.uiQueue);
    UiWorkMore(s.uiQueue, Note);
    if s.last.Some? {
      UiWorkMore(s.uiQueue, Frame(s.last.value, s.encoder.layout, s.encoder.dims));
    }
  }

  lemma HandleShrinks(s: State, size: Dims)
    requires Enabled(s, Handle(size))
    ensures Work(HandleFirst(s, size)) < Work(s)
  {
    hide UiWork;
    QueueWork(s.uiQueue);
  }

  lemma WorkShrinks(s: State, a: Action)
    requires Enabled(s, a) && WorkStep(a)
    ensures Work(Step(s, a)) < Work(s)
  {
    hide UiWork, HandleFirst;
    if a.Encode? {
      EncodeShrinks(s, a.ok);
    } else if a.Handle? {
      HandleShrinks(s, a.size);
    } else if a.NoteError? {
      QueueWork(s.uiQueue);
      UiWorkMore(s.uiQueue, Note);
    }
  }

  lemma InputAddsWork(s: State, a: Action)
    requires ByInput(a)
    ensures Work(Step(s, a)) <= Work(s) + 8
  {
    hide UiWork;
    QueueWork(s.uiQueue);
    UiWorkMore(s.uiQueue, Note);
    UiWorkMore(s.uiQueue, Resize);
  }

  /** Some thread's next step on what is on its way. */
  function NextStep(s: State): Action {
    if s.capturer.Ready? then SendFrame
    else if s.encoder.Looked? then Encode(true)
    else if s.encoder.Failing? then NoteError
    else if s.encoder.Drained? then Look
    else if s.encoder.Draining? then if s.encQueue != [] then Drain else FindEmpty
    else if s.encQueue != [] then Receive
    else if s.main.Writing? then Write
    else if s.main.Resending? then SendRedraw
    else Handle(s.dims)
  }

  /** `busy` never waits for nothing: a thread other than the input's can move. */
  lemma NeverStuck(s: State)
    requires Accounted(s) && s.busy
    ensures WorkStep(NextStep(s)) && Enabled(s, NextStep(s))
  {
  }

  ghost predicate StaysBusy(s: State, run: seq<Action>)
    requires CanRun(s, run)
    decreases |run|
  {
    s.busy && (run != [] ==> StaysBusy(Step(s, run[0]), run[1..]))
  }

  function Inputs(run: seq<Action>): nat {
    if run == [] then 0 else Inputs(run[1..]) + One(ByInput(run[0]))
  }

  lemma {:induction false} BusyRunsOut(s: State, run: seq<Action>)
    requires Accounted(s) && CanRun(s, run) && StaysBusy(s, run)
    ensures |run| <= Work(s) + 9 * Inputs(run)
    decreases |run|
  {
    hide Accounted, Step, Work;
    if run != [] {
      var a := run[0];
      StepAccounted(s, a);
      BusyRunsOut(Step(s, a), run[1..]);
      if ByInput(a) {
        InputAddsWork(s, a);
      } else {
        BusyStops(s, a);
        WorkShrinks(s, a);
      }
    }
  }

  lemma BusyStops(s: State, a: Action)
    requires Accounted(s) && s.busy && Enabled(s, a)
    ensures ByInput(a) || WorkStep(a)
  {
  }

  /** From any point of any run, `busy` stays set for no more steps than the work then on its way, and
      nine for each event the user adds meanwhile; and until it clears, some thread can take one. So
      capture never stalls for good. */
  lemma CaptureResumes(s: State, before: seq<Action>, run: seq<Action>)
    requires Initial(s) && CanRun(s, before)
    requires var t := After(s, before); CanRun(t, run) && StaysBusy(t, run)
    ensures |run| <= Work(After(s, before)) + 9 * Inputs(run)
    ensures var u := After(After(s, before), run); WorkStep(NextStep(u)) && Enabled(u, NextStep(u))
  {
    hide Initial, Accounted, Fresh, Ordered, Step, Enabled, Work, NextStep;
    InitialKeeps(s);
    RunKeeps(s, before);
    var t := After(s, before);
    BusyRunsOut(t, run);
    RunKeeps(t, run);
    BusyAtEnd(t, run);
    NeverStuck(After(t, run));
  }

  lemma {:induction false} BusyAtEnd(s: State, run: seq<Action>)
    requires CanRun(s, run) && StaysBusy(s, run)
    ensures After(s, run).busy
    decreases |run|
  {
    if run != [] {
      BusyAtEnd(Step(s, run[0]), run[1..]);
    }
  }

  // ---- a resize lets two frames be on their way

  lemma {:induction false} RunInTwo(s: State, first: seq<Action>, rest: seq<Action>)
    requires CanRun(s, first) && CanRun(After(s, first), rest)
    ensures CanRun(s, first + rest) && After(s, first + rest) == After(After(s, first), rest)
    decreases |first|
  {
    if first == [] {
      assert first + rest == rest;
    } else {
      assert (first + rest)[1..] == first[1..] + rest;
      RunInTwo(Step(s, first[0]), first[1..], rest);
    }
  }

  lemma TwoSteps(s: State, a: Action, b: Action)
    requires Enabled(s, a) && Enabled(Step(s, a), b)
    ensures CanRun(s, [a, b]) && After(s, [a, b]) == Step(Step(s, a), b)
  {
    hide Step, Enabled;
    assert [a, b][1..] == [b] && [b][1..] == [];
    var t := Step(s, a);
    var u := Step(t, b);
    assert CanRun(u, []) && After(u, []) == u;
    assert CanRun(t, [b]) && After(t, [b]) == u;
  }

  lemma ThreeSteps(s: State, a: Action, b: Action, c: Action)
    requires Enabled(s, a) && Enabled(Step(s, a), b) && Enabled(Step(Step(s, a), b), c)
    ensures CanRun(s, [a, b, c]) && After(s, [a, b, c]) == Step(Step(Step(s, a), b), c)
  {
    hide Step, Enabled;
    assert [a, b, c][1..] == [b, c];
    TwoSteps(Step(s, a), b, c);
  }

  lemma FrameIsQueued(s: State)
    requires s.capturer.Idle? && !s.busy
    ensures var run, n := [PassGate, MarkBusy, SendFrame], s.captured + 1;
            && CanRun(s, run)
            && After(s, run) == s.(busy := true, captured := n, encQueue := s.encQueue + [Some(n)])
  {
    hide CanRun, After;
    ThreeSteps(s, PassGate, MarkBusy, SendFrame);
  }

  lemma FrameIsEncoded(s: State, m: Option<nat>)
    requires s.encoder.Receiving? && s.encQueue == [m] && Or(m, s.last).Some?
    ensures var run := [Receive, FindEmpty, Look];
            && CanRun(s, run)
            && After(s, run) == s.(encQueue := [], last := Or(m, s.last), encoder := Looked(s.layout, s.dims))
  {
    hide CanRun, After;
    ThreeSteps(s, Receive, FindEmpty, Look);
  }

  lemma FrameIsWritten(s: State)
    requires s.encoder == Looked(s.layout, s.dims) && !NoArea(s.dims) && s.last.Some?
    requires s.uiQueue == [] && s.main.Waiting? && !s.blocks
    ensures var run, f := [Encode(true), Handle(s.dims), Write], s.last.value;
            && CanRun(s, run)
            && After(s, run) == s.(encoder := Receiving, busy := false,
                                   shown := s.shown + [Shown(f, s.layout, s.dims, s.layout, s.dims)])
  {
    hide CanRun, After;
    ThreeSteps(s, Encode(true), Handle(s.dims), Write);
  }

  lemma RedrawIsAskedFor(s: State)
    requires s.main.Waiting? && s.uiQueue == []
    ensures var run := [ResizeEvent, Handle(s.dims), SendRedraw];
            && CanRun(s, run)
            && After(s, run) == s.(layout := s.layout + 1, resizes := s.resizes + 1, encQueue := s.encQueue + [None])
  {
    hide CanRun, After;
    ThreeSteps(s, ResizeEvent, Handle(s.dims), SendRedraw);
  }

  lemma Extended(s: State, t: State, run: seq<Action>, more: seq<Action>, u: State)
    requires CanRun(s, run) && After(s, run) == t && CanRun(t, more) && After(t, more) == u
    ensures CanRun(s, run + more) && After(s, run + more) == u
  {
    RunInTwo(s, run, more);
  }

  /** With a resize in the run there can be two frames on their way: the encoder draws the last one
      again without setting `busy`, so the QMP thread captures another meanwhile. */
  lemma TwoInFlightAfterResize(s: State) returns (run: seq<Action>)
    requires Initial(s) && !NoArea(s.dims) && !s.blocks
    ensures CanRun(s, run) && After(s, run).resizes == 1
    ensures InFlight(After(s, run)) == 2
  {
    hide CanRun, After, Step, Enabled;
    FrameIsQueued(s);
    run := [PassGate, MarkBusy, SendFrame];
    var t := After(s, run);
    FrameIsEncoded(t, Some(1));
    Extended(s, t, run, [Receive, FindEmpty, Look], After(t, [Receive, FindEmpty, Look]));
    run, t := run + [Receive, FindEmpty, Look], After(t, [Receive, FindEmpty, Look]);
    var written := [Encode(true), Handle(s.dims), Write];
    FrameIsWritten(t);
    Extended(s, t, run, written, After(t, written));
    run, t := run + written, After(t, written);
    var redrawn := [ResizeEvent, Handle(s.dims), SendRedraw];
    RedrawIsAskedFor(t);
    Extended(s, t, run, redrawn, After(t, redrawn));
    run, t := run + redrawn, After(t, redrawn);
    FrameIsEncoded(t, None);
    Extended(s, t, run, [Receive, FindEmpty, Look], After(t, [Receive, FindEmpty, Look]));
    run, t := run + [Receive, FindEmpty, Look], After(t, [Receive, FindEmpty, Look]);
    FrameIsQueued(t);
    Extended(s, t, run, [PassGate, MarkBusy, SendFrame], After(t, [PassGate, MarkBusy, SendFrame]));
    run := run + [PassGate, MarkBusy, SendFrame];
  }
}
