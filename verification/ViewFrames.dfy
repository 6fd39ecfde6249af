/** The terminal viewer's frames: the QMP thread captures them, the encoder encodes them for the
    screen's layout, and the main loop draws them; `busy` keeps the next capture waiting for the last
    frame, and a count of resizes keeps off the screen what was encoded before one. Each
    action is one atomic step of one thread; a run is any interleaving of them. */
module ViewFrames {
  import opened Options

  /** The terminal's size, and its cells'. */
  datatype Dims = Dims(cols: nat, rows: nat, cellWidth: nat, cellHeight: nat)

  /** Too small for a frame: no columns, or no row besides the two that are not for frames. */
  predicate NoArea(d: Dims) { d.cols == 0 || d.rows <= 2 }

  /** The QMP thread: before it looks at `busy`, dumping the screen, or with `busy` set for a frame it
      has yet to send. */
  datatype Capturer = Idle | Dumping | Ready(frame: nat)

  /** The encoder: waiting, taking what else is queued, with a frame and nothing else queued, with the
      screen looked at, or with an error to note. */
  datatype Encoder = Receiving | Draining | Drained | Looked(layout: nat, dims: Dims) | Failing

  datatype Ui = Frame(frame: nat, layout: nat, dims: Dims) | Resize | Note

  /** The main loop: waiting for a message, with an encoded frame to write, or with a redraw to ask
      for after a resize. */
  datatype Main = Waiting | Writing(frame: nat, layout: nat, dims: Dims) | Resending

  /** A frame put on the screen: the layout it was encoded for, and the screen's then. */
  datatype Shown = Shown(frame: nat, layout: nat, dims: Dims, layoutThen: nat, dimsThen: Dims)

  datatype State = State(
    blocks: bool,               // half blocks, which the main loop draws itself
    busy: bool,
    capturer: Capturer, captured: nat,
    encQueue: seq<Option<nat>>, // None asks for the last frame again
    encoder: Encoder, last: Option<nat>,
    uiQueue: seq<Ui>,
    main: Main, layout: nat, dims: Dims,
    resizes: nat,
    shown: seq<Shown>)

  predicate Initial(s: State) {
    && !s.busy && s.capturer.Idle? && s.captured == 0
    && s.encQueue == [] && s.encoder.Receiving? && s.last.None?
    && s.uiQueue == [] && s.main.Waiting? && s.layout == 0 && s.resizes == 0
    && s.shown == []
  }

  datatype Action =
    // the QMP thread
    | PassGate | DumpFailed(noted: bool) | MarkBusy | SendFrame
    // the encoder
    | Receive | Drain | FindEmpty | Look | Encode(ok: bool) | NoteError
    // the main loop
    | Handle(size: Dims) | Write | SendRedraw
    // the input thread
    | ResizeEvent | NoteEvent

  predicate Enabled(s: State, a: Action) {
    match a
    case PassGate => s.capturer.Idle? && !s.busy
    case DumpFailed(_) => s.capturer.Dumping?
    case MarkBusy => s.capturer.Dumping?
    case SendFrame => s.capturer.Ready?
    case Receive => s.encoder.Receiving? && s.encQueue != []
    case Drain => s.encoder.Draining? && s.encQueue != []
    case FindEmpty => s.encoder.Draining? && s.encQueue == []
    case Look => s.encoder.Drained?
    case Encode(_) => s.encoder.Looked?
    case NoteError => s.encoder.Failing?
    case Handle(_) => s.main.Waiting? && s.uiQueue != []
    case Write => s.main.Writing?
    case SendRedraw => s.main.Resending?
    case ResizeEvent => true
    case NoteEvent => true
  }

  function Or(m: Option<nat>, last: Option<nat>): Option<nat> {
    if m.Some? then m else last
  }

  /** The main loop takes the first message; the terminal's size is `size` when it is a resize. */
  function HandleFirst(s: State, size: Dims): State
    requires s.uiQueue != []
  {
    var rest := s.(uiQueue := s.uiQueue[1..]);
    match s.uiQueue[0]
    case Frame(f, layout, dims) =>
      if layout != s.layout then rest.(busy := false)
      else if s.blocks then
        rest.(busy := false, shown := s.shown + [Shown(f, layout, dims, s.layout, s.dims)])
      else rest.(main := Writing(f, layout, dims))
    case Resize => rest.(dims := size, layout := s.layout + 1, resizes := s.resizes + 1, main := Resending)
    case Note => rest
  }

  function Step(s: State, a: Action): State
    requires Enabled(s, a)
  {
    match a
    case PassGate => s.(capturer := Dumping)
    case DumpFailed(noted) => s.(capturer := Idle, uiQueue := if noted then s.uiQueue + [Note] else s.uiQueue)
    case MarkBusy => s.(busy := true, captured := s.captured + 1, capturer := Ready(s.captured + 1))
    case SendFrame => s.(capturer := Idle, encQueue := s.encQueue + [Some(s.capturer.frame)])
    case Receive => s.(encoder := Draining, last := Or(s.encQueue[0], s.last), encQueue := s.encQueue[1..])
    case Drain => s.(last := Or(s.encQueue[0], s.last), encQueue := s.encQueue[1..])
    case FindEmpty => s.(encoder := if s.last.None? then Receiving else Drained)
    case Look => s.(encoder := Looked(s.layout, s.dims))
    case Encode(ok) =>
      var e := s.encoder;
      if NoArea(e.dims) then s.(encoder := Receiving, busy := false)
      else if ok then
        s.(encoder := Receiving,
           uiQueue := s.uiQueue + [if s.last.Some? then Frame(s.last.value, e.layout, e.dims) else Note])
      else s.(encoder := Failing, busy := false)
    case NoteError => s.(encoder := Receiving, uiQueue := s.uiQueue + [Note])
    case Handle(size) => HandleFirst(s, size)
    case Write =>
      var w := s.main;
      s.(main := Waiting, busy := false, shown := s.shown + [Shown(w.frame, w.layout, w.dims, s.layout, s.dims)])
    case SendRedraw => s.(main := Waiting, encQueue := s.encQueue + [None])
    case ResizeEvent => s.(uiQueue := s.uiQueue + [Resize])
    case NoteEvent => s.(uiQueue := s.uiQueue + [Note])
  }

  ghost predicate CanRun(s: State, run: seq<Action>)
    decreases |run|
  {
    run == [] || (Enabled(s, run[0]) && CanRun(Step(s, run[0]), run[1..]))
  }

  ghost function After(s: State, run: seq<Action>): State
    requires CanRun(s, run)
    decreases |run|
  {
    if run == [] then s else After(Step(s, run[0]), run[1..])
  }

  // ---- frames on their way

  function FramesQueued(q: seq<Option<nat>>): (n: nat)
    ensures n <= |q|
  {
    if q == [] then 0 else FramesQueued(q[1..]) + if q[0].Some? then 1 else 0
  }

  function FramesEncoded(q: seq<Ui>): nat {
    if q == [] then 0 else FramesEncoded(q[1..]) + if q[0].Frame? then 1 else 0
  }

  function One(b: bool): nat { if b then 1 else 0 }

  /** The encoder has a frame, and is going to send it or clear `busy`. */
  predicate Encoding(s: State) { HasFrame(s.encoder) || (s.encoder.Draining? && s.last.Some?) }

  predicate HasFrame(e: Encoder) { e.Drained? || e.Looked? }

  /** How many frames are captured but neither shown nor given up. */
  function InFlight(s: State): nat {
    One(s.capturer.Ready?) + FramesQueued(s.encQueue) + One(Encoding(s)) + FramesEncoded(s.uiQueue)
    + One(s.main.Writing?)
  }

  /** Redraws asked for, or about to be, that the encoder has yet to take. */
  function Redraws(s: State): nat {
    |s.encQueue| - FramesQueued(s.encQueue) + One(s.main.Resending?)
  }

  lemma {:induction false} QueuedOneMore(q: seq<Option<nat>>, m: Option<nat>)
    ensures FramesQueued(q + [m]) == FramesQueued(q) + One(m.Some?)
  {
    if q == [] {
      assert (q + [m])[1..] == [];
    } else {
      assert (q + [m])[1..] == q[1..] + [m];
      QueuedOneMore(q[1..], m);
    }
  }

  lemma {:induction false} EncodedOneMore(q: seq<Ui>, m: Ui)
    ensures FramesEncoded(q + [m]) == FramesEncoded(q) + One(m.Frame?)
  {
    if q == [] {
      assert (q + [m])[1..] == [];
    } else {
      assert (q + [m])[1..] == q[1..] + [m];
      EncodedOneMore(q[1..], m);
    }
  }

  /** `busy` is someone's to clear; and no more frames are on their way than one, and one for each
      resize. */
  predicate Accounted(s: State) {
    && (s.busy ==> InFlight(s) > 0)
    && InFlight(s) + Redraws(s) <= One(s.busy) + s.resizes
    && (s.capturer.Dumping? ==> !s.busy)
    && (HasFrame(s.encoder) ==> s.last.Some?)
  }

  predicate ByCapturer(a: Action) { a.PassGate? || a.DumpFailed? || a.MarkBusy? || a.SendFrame? }

  predicate ByEncoder(a: Action) { a.Receive? || a.Drain? || a.FindEmpty? || a.Look? || a.Encode? || a.NoteError? }

  predicate ByMain(a: Action) { a.Handle? || a.Write? || a.SendRedraw? }

  predicate ByInput(a: Action) { a.ResizeEvent? || a.NoteEvent? }

  lemma CapturerAccounted(s: State, a: Action)
    requires Accounted(s) && Enabled(s, a) && ByCapturer(a)
    ensures Accounted(Step(s, a))
  {
    if a.SendFrame? {
      QueuedOneMore(s.encQueue, Some(s.capturer.frame));
    } else {
      EncodedOneMore(s.uiQueue, Note);
    }
  }

  lemma EncodeAccounted(s: State, ok: bool)
    requires Accounted(s) && s.encoder.Looked?
    ensures Accounted(Step(s, Encode(ok)))
  {
    hide FramesQueued, FramesEncoded;
    EncodedOneMore(s.uiQueue, Note);
    EncodedOneMore(s.uiQueue, Frame(s.last.value, s.encoder.layout, s.encoder.dims));
  }

  lemma EncoderAccounted(s: State, a: Action)
    requires Accounted(s) && Enabled(s, a) && ByEncoder(a)
    ensures Accounted(Step(s, a))
  {
    if a.Encode? {
      hide Accounted, Step;
      EncodeAccounted(s, a.ok);
    } else if a.NoteError? {
      EncodedOneMore(s.uiQueue, Note);
    }
  }

  lemma HandleAccounted(s: State, size: Dims)
    requires Accounted(s) && s.main.Waiting? && s.uiQueue != []
    ensures Accounted(HandleFirst(s, size))
  {
  }

  lemma MainAccounted(s: State, a: Action)
    requires Accounted(s) && Enabled(s, a) && ByMain(a)
    ensures Accounted(Step(s, a))
  {
    hide HandleFirst, FramesQueued, FramesEncoded;
    if a.Handle? {
      HandleAccounted(s, a.size);
    } else if a.SendRedraw? {
      QueuedOneMore(s.encQueue, None);
    }
  }

  lemma InputAccounted(s: State, a: Action)
    requires Accounted(s) && Enabled(s, a) && ByInput(a)
    ensures Accounted(Step(s, a))
  {
    EncodedOneMore(s.uiQueue, Note);
    EncodedOneMore(s.uiQueue, Resize);
  }

  lemma StepAccounted(s: State, a: Action)
    requires Accounted(s) && Enabled(s, a)
    ensures Accounted(Step(s, a))
  {
    hide Accounted, Step;
    if ByCapturer(a) {
      CapturerAccounted(s, a);
    } else if ByEncoder(a) {
      EncoderAccounted(s, a);
    } else if ByMain(a) {
      MainAccounted(s, a);
    } else {
      InputAccounted(s, a);
    }
  }

  // ---- the layout frames are for

  predicate Current(s: State, layout: nat, dims: Dims) {
    layout <= s.layout && (layout == s.layout ==> dims == s.dims)
  }

  predicate Timely(r: Shown) { r.layout == r.layoutThen && r.dims == r.dimsThen }

  /** A frame whose layout's number is the screen's was encoded for the screen's size, and no other
      has been shown. */
  ghost predicate Fresh(s: State) {
    && (forall i :: 0 <= i < |s.uiQueue| && s.uiQueue[i].Frame? ==> Current(s, s.uiQueue[i].layout, s.uiQueue[i].dims))
    && (s.encoder.Looked? ==> Current(s, s.encoder.layout, s.encoder.dims))
    && (s.main.Writing? ==> s.main.layout == s.layout && s.main.dims == s.dims)
    && (forall i :: 0 <= i < |s.shown| ==> Timely(s.shown[i]))
  }

  lemma QueuedFresh(s: State, t: State)
    requires Fresh(s) && t.layout == s.layout && t.dims == s.dims && t.shown == s.shown
    requires forall i :: 0 <= i < |t.uiQueue| && t.uiQueue[i].Frame? ==>
                           t.uiQueue[i] in s.uiQueue || Current(s, t.uiQueue[i].layout, t.uiQueue[i].dims)
    requires t.encoder.Looked? ==> t.encoder == s.encoder || t.encoder == Looked(s.layout, s.dims)
    requires t.main.Writing? ==> t.main == s.main
    ensures Fresh(t)
  {
  }

  lemma HandleFresh(s: State, size: Dims)
    requires Fresh(s) && s.main.Waiting? && s.uiQueue != []
    ensures Fresh(HandleFirst(s, size))
  {
    var t := HandleFirst(s, size);
    assert forall i :: 0 <= i < |t.uiQueue| ==> t.uiQueue[i] == s.uiQueue[i + 1];
  }

  lemma MainFresh(s: State, a: Action)
    requires Fresh(s) && Enabled(s, a) && ByMain(a)
    ensures Fresh(Step(s, a))
  {
    hide HandleFirst;
    if a.Handle? {
      HandleFresh(s, a.size);
    }
  }

  lemma StepFresh(s: State, a: Action)
    requires Fresh(s) && Enabled(s, a)
    ensures Fresh(Step(s, a))
  {
    hide Fresh, Current;
    if ByMain(a) {
      MainFresh(s, a);
    } else {
      EncoderCurrent(s);
      QueuedFresh(s, Step(s, a));
    }
  }

  lemma EncoderCurrent(s: State)
    requires Fresh(s)
    ensures s.encoder.Looked? ==> Current(s, s.encoder.layout, s.encoder.dims)
  {
  }

  // ---- the order frames are shown in

  function ShownFrames(q: seq<Shown>): seq<nat> {
    if q == [] then [] else ShownFrames(q[..|q| - 1]) + [q[|q| - 1].frame]
  }

  function UiOnly(m: Ui): seq<nat> { if m.Frame? then [m.frame] else [] }

  function UiFrames(q: seq<Ui>): seq<nat> {
    if q == [] then [] else UiOnly(q[0]) + UiFrames(q[1..])
  }

  function Opt(m: Option<nat>): seq<nat> { if m.Some? then [m.value] else [] }

  function EncFrames(q: seq<Option<nat>>): seq<nat> {
    if q == [] then [] else Opt(q[0]) + EncFrames(q[1..])
  }

  function WritingFrame(m: Main): seq<nat> { if m.Writing? then [m.frame] else [] }

  function ReadyFrame(c: Capturer): seq<nat> { if c.Ready? then [c.frame] else [] }

  /** What is on the screen, or about to be, and in the main loop's queue. */
  function Downstream(s: State): seq<nat> {
    ShownFrames(s.shown) + WritingFrame(s.main) + UiFrames(s.uiQueue)
  }

  /** What the encoder has yet to take, and the last frame captured. */
  function Upstream(s: State): seq<nat> {
    EncFrames(s.encQueue) + ReadyFrame(s.capturer) + [s.captured]
  }

  ghost predicate Sorted(q: seq<nat>) {
    forall i, j :: 0 <= i < j < |q| ==> q[i] <= q[j]
  }

  /** From the screen back to the QMP thread, no frame is older than one before it. */
  ghost predicate Ordered(s: State) {
    && Sorted(Downstream(s) + Opt(s.last) + Upstream(s))
    && (s.capturer.Ready? ==> s.capturer.frame == s.captured)
  }

  lemma SortedWithout(a: seq<nat>, m: seq<nat>, b: seq<nat>)
    requires Sorted(a + m + b)
    ensures Sorted(a + b)
  {
    var q := a + m + b;
    forall i, j | 0 <= i < j < |a + b| ensures (a + b)[i] <= (a + b)[j] {
      var i', j' := if i < |a| then i else i + |m|, if j < |a| then j else j + |m|;
      assert (a + b)[i] == q[i'] && (a + b)[j] == q[j'];
    }
  }

  lemma SortedTwice(a: seq<nat>, x: nat, b: seq<nat>)
    requires Sorted(a + [x] + b)
    ensures Sorted(a + [x] + [x] + b)
  {
    var q, r := a + [x] + b, a + [x] + [x] + b;
    forall i, j | 0 <= i < j < |r| ensures r[i] <= r[j] {
      var i', j' := if i <= |a| then i else i - 1, if j <= |a| then j else j - 1;
      assert r[i] == q[i'] && r[j] == q[j'];
    }
  }

  lemma SortedNewer(a: seq<nat>, x: nat)
    requires Sorted(a + [x])
    ensures Sorted(a + [x + 1, x + 1])
  {
    var q, r := a + [x], a + [x + 1, x + 1];
    forall i, j | 0 <= i < j < |r| ensures r[i] <= r[j] {
      if j < |a| {
        assert r[i] == q[i] && r[j] == q[j];
      } else if i < |a| {
        assert r[i] == q[i] && q[|a|] == x;
      }
    }
  }

  lemma {:induction false} UiFramesMore(q: seq<Ui>, m: Ui)
    ensures UiFrames(q + [m]) == UiFrames(q) + UiOnly(m)
  {
    if q == [] {
      assert q + [m] == [m] && [m][1..] == [];
    } else {
      assert (q + [m])[1..] == q[1..] + [m];
      UiFramesMore(q[1..], m);
      var first, last := UiOnly(q[0]), UiOnly(m);
      assert UiFrames(q + [m]) == first + UiFrames((q + [m])[1..]);
      assert first + (UiFrames(q[1..]) + last) == first + UiFrames(q[1..]) + last;
    }
  }

  lemma {:induction false} EncFramesMore(q: seq<Option<nat>>, m: Option<nat>)
    ensures EncFrames(q + [m]) == EncFrames(q) + Opt(m)
  {
    if q == [] {
      assert (q + [m])[1..] == [];
    } else {
      assert (q + [m])[1..] == q[1..] + [m];
      EncFramesMore(q[1..], m);
    }
  }

  lemma ShownMore(q: seq<Shown>, m: Shown)
    ensures ShownFrames(q + [m]) == ShownFrames(q) + [m.frame]
  {
    assert (q + [m])[..|q|] == q;
  }

  lemma CapturerOrdered(s: State, a: Action)
    requires Ordered(s) && Enabled(s, a) && ByCapturer(a)
    ensures Ordered(Step(s, a))
  {
    hide UiFrames, EncFrames, ShownFrames;
    var t := Step(s, a);
    var before := Downstream(s) + Opt(s.last);
    if a.MarkBusy? {
      var older := before + EncFrames(s.encQueue);
      assert before + Upstream(s) == older + [s.captured];
      SortedNewer(older, s.captured);
      assert before + Upstream(t) == older + [s.captured + 1, s.captured + 1];
    } else if a.SendFrame? {
      EncFramesMore(s.encQueue, Some(s.capturer.frame));
      assert Upstream(t) == Upstream(s);
    } else {
      UiFramesMore(s.uiQueue, Note);
      assert Downstream(t) == Downstream(s);
    }
  }

  lemma EncodeOrdered(s: State, ok: bool)
    requires Ordered(s) && s.encoder.Looked? && s.last.Some?
    ensures Ordered(Step(s, Encode(ok)))
  {
    hide UiFrames, EncFrames, ShownFrames, Sorted;
    var t := Step(s, Encode(ok));
    UiFramesMore(s.uiQueue, Frame(s.last.value, s.encoder.layout, s.encoder.dims));
    SortedTwice(Downstream(s), s.last.value, Upstream(s));
    assert Upstream(t) == Upstream(s);
    assert Downstream(t) == Downstream(s) || Downstream(t) == Downstream(s) + [s.last.value];
  }

  lemma TakeOrdered(s: State, a: Action)
    requires Ordered(s) && Enabled(s, a) && (a.Receive? || a.Drain?)
    ensures Ordered(Step(s, a))
  {
    hide UiFrames, EncFrames, ShownFrames, Sorted;
    var t := Step(s, a);
    TakenFromQueue(s.encQueue);
    assert Downstream(t) == Downstream(s);
    if s.encQueue[0].Some? {
      SortedWithout(Downstream(s), Opt(s.last), Upstream(s));
      assert Downstream(s) + Upstream(s) == Downstream(t) + Opt(t.last) + Upstream(t);
    } else {
      assert Upstream(t) == Upstream(s);
    }
  }

  lemma EncoderOrdered(s: State, a: Action)
    requires Ordered(s) && Enabled(s, a) && ByEncoder(a) && (HasFrame(s.encoder) ==> s.last.Some?)
    ensures Ordered(Step(s, a))
  {
    hide UiFrames, EncFrames, ShownFrames, Sorted;
    if a.Encode? {
      EncodeOrdered(s, a.ok);
    } else if a.Receive? || a.Drain? {
      TakeOrdered(s, a);
    } else {
      UiFramesMore(s.uiQueue, Note);
      var t := Step(s, a);
      assert Downstream(t) == Downstream(s) && Upstream(t) == Upstream(s);
    }
  }

  lemma TakenFromQueue(q: seq<Option<nat>>)
    requires q != []
    ensures EncFrames(q) == Opt(q[0]) + EncFrames(q[1..])
  {
  }

  lemma TakenFromUi(q: seq<Ui>)
    requires q != []
    ensures UiFrames(q) == UiOnly(q[0]) + UiFrames(q[1..])
  {
  }

  lemma StaleOrdered(s: State, t: State)
    requires Ordered(s) && s.main.Waiting? && s.uiQueue != [] && s.uiQueue[0].Frame?
    requires t == s.(uiQueue := s.uiQueue[1..], busy := false)
    ensures Ordered(t)
  {
    hide UiFrames, EncFrames, ShownFrames;
    TakenFromUi(s.uiQueue);
    assert Upstream(t) == Upstream(s);
    var shown, frame := ShownFrames(s.shown), [s.uiQueue[0].frame];
    var rest := UiFrames(t.uiQueue) + Opt(s.last) + Upstream(s);
    assert Downstream(s) + Opt(s.last) + Upstream(s) == shown + frame + rest;
    SortedWithout(shown, frame, rest);
    assert Downstream(t) + Opt(t.last) + Upstream(t) == shown + rest;
  }

  lemma HandleOrdered(s: State, size: Dims)
    requires Ordered(s) && s.main.Waiting? && s.uiQueue != []
    ensures Ordered(HandleFirst(s, size))
  {
    hide UiFrames, EncFrames, ShownFrames, Sorted;
    var t := HandleFirst(s, size);
    var m := s.uiQueue[0];
    if m.Frame? && m.layout != s.layout {
      StaleOrdered(s, t);
    } else {
      TakenFromUi(s.uiQueue);
      assert Upstream(t) == Upstream(s);
      if |t.shown| > |s.shown| {
        ShownMore(s.shown, t.shown[|s.shown|]);
      }
      assert Downstream(t) == Downstream(s);
    }
  }

  lemma MainOrdered(s: State, a: Action)
    requires Ordered(s) && Enabled(s, a) && ByMain(a)
    ensures Ordered(Step(s, a))
  {
    hide UiFrames, EncFrames, ShownFrames, HandleFirst;
    var t := Step(s, a);
    match a
    case SendRedraw =>
      EncFramesMore(s.encQueue, None);
      assert Upstream(t) == Upstream(s) && Downstream(t) == Downstream(s);
    case Write =>
      ShownMore(s.shown, t.shown[|s.shown|]);
      assert Downstream(t) == Downstream(s);
    case Handle(size) => HandleOrdered(s, size);
  }

  lemma InputOrdered(s: State, a: Action)
    requires Ordered(s) && Enabled(s, a) && ByInput(a)
    ensures Ordered(Step(s, a))
  {
    hide UiFrames, EncFrames, ShownFrames;
    UiFramesMore(s.uiQueue, Note);
    UiFramesMore(s.uiQueue, Resize);
    assert Downstream(Step(s, a)) == Downstream(s);
  }

  lemma StepOrdered(s: State, a: Action)
    requires Ordered(s) && Enabled(s, a) && (HasFrame(s.encoder) ==> s.last.Some?)
    ensures Ordered(Step(s, a))
  {
    hide Ordered, Step;
    if ByCapturer(a) {
      CapturerOrdered(s, a);
    } else if ByEncoder(a) {
      EncoderOrdered(s, a);
    } else if ByMain(a) {
      MainOrdered(s, a);
    } else {
      InputOrdered(s, a);
    }
  }

  lemma {:induction false} ShownInOrder(q: seq<Shown>, rest: seq<nat>)
    requires Sorted(ShownFrames(q) + rest)
    ensures |ShownFrames(q)| == |q| && forall i :: 0 <= i < |q| ==> q[i].frame == ShownFrames(q)[i]
    ensures forall i, j :: 0 <= i < j < |q| ==> q[i].frame <= q[j].frame
    decreases |q|
  {
    if q != [] {
      assert ShownFrames(q) + rest == ShownFrames(q[..|q| - 1]) + ([q[|q| - 1].frame] + rest);
      ShownInOrder(q[..|q| - 1], [q[|q| - 1].frame] + rest);
      assert forall i :: 0 <= i < |q| ==> q[i].frame == (ShownFrames(q) + rest)[i];
    }
  }

  // ---- every run

  lemma {:induction false} RunKeeps(s: State, run: seq<Action>)
    requires CanRun(s, run) && Accounted(s) && Fresh(s) && Ordered(s)
    ensures Accounted(After(s, run)) && Fresh(After(s, run)) && Ordered(After(s, run))
    decreases |run|
  {
    hide Fresh, Ordered, Step, InFlight, Redraws;
    if run != [] {
      StepAccounted(s, run[0]);
      StepFresh(s, run[0]);
      StepOrdered(s, run[0]);
      RunKeeps(Step(s, run[0]), run[1..]);
    }
  }

  lemma InitialKeeps(s: State)
    requires Initial(s)
    ensures Accounted(s) && Fresh(s) && Ordered(s)
  {
  }

  /** In every run: every frame shown was encoded for the layout and the size of the screen it is shown
      on, and no frame is shown after a later one. */
  lemma ShownInTimeAndInOrder(s: State, run: seq<Action>)
    requires Initial(s) && CanRun(s, run)
    ensures var t := After(s, run);
            && (forall i :: 0 <= i < |t.shown| ==>
                  t.shown[i].layout == t.shown[i].layoutThen && t.shown[i].dims == t.shown[i].dimsThen)
            && (forall i, j :: 0 <= i < j < |t.shown| ==> t.shown[i].frame <= t.shown[j].frame)
  {
    hide UiFrames, EncFrames, ShownFrames, InFlight, Redraws, Step, Enabled;
    InitialKeeps(s);
    RunKeeps(s, run);
    var t := After(s, run);
    var rest := WritingFrame(t.main) + UiFrames(t.uiQueue) + Opt(t.last) + Upstream(t);
    assert Downstream(t) + Opt(t.last) + Upstream(t) == ShownFrames(t.shown) + rest;
    ShownInOrder(t.shown, rest);
  }

  /** In every run, while `busy` is set a frame is on its way whose handling clears it; and there are
      no more frames on their way than one and one for each resize. */
  lemma BusyHasItsFrame(s: State, run: seq<Action>)
    requires Initial(s) && CanRun(s, run)
    ensures var t := After(s, run);
            (t.busy ==> InFlight(t) > 0) && InFlight(t) <= One(t.busy) + t.resizes
  {
    hide UiFrames, EncFrames, ShownFrames, InFlight, Redraws, Step, Enabled, Sorted, Ordered, Fresh;
    InitialKeeps(s);
    RunKeeps(s, run);
  }

  /** In a run with no resize, `busy` says exactly whether a frame is on its way, and no two are. */
  lemma OneInFlightWithoutResizes(s: State, run: seq<Action>)
    requires Initial(s) && CanRun(s, run) && After(s, run).resizes == 0
    ensures InFlight(After(s, run)) == One(After(s, run).busy)
  {
    BusyHasItsFrame(s, run);
  }

  // ---- what is shown, and what is encoded

  /** A frame encoded for the layout now is shown and clears `busy`, at once or, where the terminal draws it,
      when it is written; one for another layout is not shown, and clears `busy`. */
  lemma HandledIsShown(s: State, f: nat, layout: nat, dims: Dims, size: Dims)
    requires s.main.Waiting? && s.uiQueue != [] && s.uiQueue[0] == Frame(f, layout, dims)
    ensures var t := Step(s, Handle(size));
            && t.uiQueue == s.uiQueue[1..] && t.layout == s.layout && t.dims == s.dims
            && (layout != s.layout ==> t.shown == s.shown && t.main.Waiting? && !t.busy)
            && (layout == s.layout && s.blocks ==>
                  t.shown == s.shown + [Shown(f, layout, dims, s.layout, s.dims)] && t.main.Waiting? && !t.busy)
            && (layout == s.layout && !s.blocks ==>
                  && Enabled(t, Write) && t.shown == s.shown
                  && var u := Step(t, Write);
                     u.shown == s.shown + [Shown(f, layout, dims, s.layout, s.dims)] && u.main.Waiting? && !u.busy)
  {
  }

  /** A screen of no columns, or of no rows but the toolbar's and the status row, has no frame encoded for it, and
      one of more has. An error clears `busy` and is noted. */
  lemma EncodedIs(s: State)
    requires s.encoder.Looked? && s.last.Some?
    ensures var e, t := s.encoder, Step(s, Encode(true));
            && t.encoder.Receiving?
            && (e.dims.cols >= 1 && e.dims.rows >= 3 ==>
                  t.busy == s.busy && t.uiQueue == s.uiQueue + [Frame(s.last.value, e.layout, e.dims)])
            && (e.dims.cols == 0 || e.dims.rows <= 2 ==> !t.busy && t.uiQueue == s.uiQueue)
    ensures s.encoder.dims.cols >= 1 && s.encoder.dims.rows >= 3 ==>
              var t := Step(s, Encode(false));
              && !t.busy && t.uiQueue == s.uiQueue && Enabled(t, NoteError)
              && Step(t, NoteError).uiQueue == s.uiQueue + [Note] && Step(t, NoteError).encoder.Receiving?
  {
  }

  /** A capture that fails is noted, or ends unnoted as the VM has stopped, and leaves `busy` as it was. */
  lemma DumpFailedIs(s: State, noted: bool)
    requires s.capturer.Dumping?
    ensures var t := Step(s, DumpFailed(noted));
            t.capturer.Idle? && t.busy == s.busy && t.captured == s.captured
            && t.uiQueue == if noted then s.uiQueue + [Note] else s.uiQueue
  {
  }

  /** A resize is taken as a new layout with the terminal's size, and a redraw is asked for. */
  lemma ResizeIsTaken(s: State, size: Dims)
    requires s.main.Waiting? && s.uiQueue != [] && s.uiQueue[0].Resize?
    ensures var t := Step(s, Handle(size));
            && t.layout == s.layout + 1 && t.dims == size && t.shown == s.shown && t.busy == s.busy
            && Enabled(t, SendRedraw) && Step(t, SendRedraw).encQueue == s.encQueue + [None]
  {
  }

  /** The frames after frame `lo`, up to frame `hi`. */
  function FramesTo(lo: nat, hi: nat): (q: seq<nat>)
    requires lo <= hi
    ensures |q| == hi - lo && forall i :: 0 <= i < |q| ==> q[i] == lo + 1 + i
  {
    seq(hi - lo, i => lo + 1 + i)
  }

  function LastTaken(s: State): nat { if s.last.Some? then s.last.value else 0 }

  /** What the encoder has not taken is just what was captured after the last frame it took. */
  ghost predicate Newest(s: State) {
    && LastTaken(s) <= s.captured
    && EncFrames(s.encQueue) + ReadyFrame(s.capturer) == FramesTo(LastTaken(s), s.captured)
  }

  lemma CapturerNewest(s: State, a: Action)
    requires Newest(s) && Enabled(s, a) && ByCapturer(a)
    ensures Newest(Step(s, a))
  {
    hide EncFrames;
    var t := Step(s, a);
    if a.SendFrame? {
      EncFramesMore(s.encQueue, Some(s.capturer.frame));
    } else if a.MarkBusy? {
      assert EncFrames(s.encQueue) + [] == EncFrames(s.encQueue);
      assert FramesTo(LastTaken(s), s.captured + 1) == FramesTo(LastTaken(s), s.captured) + [s.captured + 1];
    }
  }

  lemma TakeNewest(s: State, a: Action)
    requires Newest(s) && Enabled(s, a) && (a.Receive? || a.Drain?)
    ensures Newest(Step(s, a))
  {
    hide EncFrames;
    var t := Step(s, a);
    TakenFromQueue(s.encQueue);
    if s.encQueue[0].Some? {
      var rest := EncFrames(t.encQueue) + ReadyFrame(s.capturer);
      var all := FramesTo(LastTaken(s), s.captured);
      assert [s.encQueue[0].value] + rest == all;
      assert all[0] == s.encQueue[0].value && all[1..] == rest;
      assert FramesTo(LastTaken(t), s.captured) == all[1..];
    } else {
      assert [] + EncFrames(t.encQueue) == EncFrames(t.encQueue);
    }
  }

  lemma StepNewest(s: State, a: Action)
    requires Newest(s) && Enabled(s, a)
    ensures Newest(Step(s, a))
  {
    hide EncFrames;
    if ByCapturer(a) {
      CapturerNewest(s, a);
    } else if a.Receive? || a.Drain? {
      TakeNewest(s, a);
    } else if a.SendRedraw? {
      EncFramesMore(s.encQueue, None);
      assert EncFrames(s.encQueue) + [] == EncFrames(s.encQueue);
    }
  }

  lemma {:induction false} RunNewest(s: State, run: seq<Action>)
    requires CanRun(s, run) && Newest(s)
    ensures Newest(After(s, run))
    decreases |run|
  {
    hide Newest, Step, Enabled;
    if run != [] {
      StepNewest(s, run[0]);
      RunNewest(Step(s, run[0]), run[1..]);
    }
  }

  lemma {:induction false} FramesCounted(q: seq<Option<nat>>)
    ensures |EncFrames(q)| == FramesQueued(q)
  {
    if q != [] {
      FramesCounted(q[1..]);
    }
  }

  /** In every run what the encoder sends is the newest frame it has taken: of all captured, only those still
      queued or yet to be sent to it are newer. It is for the screen it looked at. */
  lemma EncodedIsNewest(s: State, run: seq<Action>)
    requires Initial(s) && CanRun(s, run) && After(s, run).encoder.Looked? && !NoArea(After(s, run).encoder.dims)
    ensures var t := After(s, run);
            var u := Step(t, Encode(true));
            && |u.uiQueue| == |t.uiQueue| + 1 && u.uiQueue[..|t.uiQueue|] == t.uiQueue
            && var m := u.uiQueue[|t.uiQueue|];
               && m.Frame? && m.layout == t.encoder.layout && m.dims == t.encoder.dims
               && m.frame + FramesQueued(t.encQueue) + One(t.capturer.Ready?) == t.captured
  {
    hide CanRun, After, EncFrames, Fresh, Ordered;
    InitialKeeps(s);
    RunKeeps(s, run);
    assert EncFrames([]) == [] by {
      NoFrames();
    }
    RunNewest(s, run);
    FramesCounted(After(s, run).encQueue);
  }

  lemma NoFrames()
    ensures EncFrames([]) == []
  {
  }
}
