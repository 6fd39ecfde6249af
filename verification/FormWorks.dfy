/** The interface's forms and the works they start: a running work has its form, on the screen or put away;
    success discards the form, and failure brings it back, answers and all. */
module FormWorks {
  import opened Options

  datatype Kind = Create | Edit(vm: string)

  /** A form; busy, it names the work it waits for. */
  datatype Form = Form(kind: Kind, answers: map<string, string>, busy: Option<nat>, error: Option<string>)

  datatype Overlay = NoOverlay | FormOverlay(form: Form) | Text | Confirm | Menu

  /** A work, and a copy of the form it came from as it was then. */
  datatype Work = Work(vm: string, form: Option<Form>)

  datatype State = State(
    overlay: Overlay,
    activity: set<string>,    // VMs with work
    spawned: nat,
    closed: map<nat, Form>,   // forms closed while their work runs, by its id
    failed: seq<Form>,        // forms whose work failed, to open
    paging: bool,             // logs to show in less, before anything else is taken
    running: map<nat, Work>)

  const START: State := State(NoOverlay, {}, 0, map[], [], false, map[])

  /** What a submit does before any work: it is refused, saves, or has work to start on a VM. */
  datatype Submit = Refused(error: string) | Saved | Starts(vm: string)

  /** A key, by what the view it goes to makes of it. Elsewhere is any view but a form: what it leaves
      open, and the VM it starts work on, if any; powering a VM off starts work though it has work. Or it
      leaves nothing open, with logs to show. */
  datatype Key =
    | Typed(answers: map<string, string>, error: Option<string>) | Cancelled | Submitted(submit: Submit)
    | Elsewhere(next: Overlay, vm: Option<string>, force: bool) | Logs

  datatype Action =
    | Press(key: Key) | Mouse(next: Overlay, vm: Option<string>) | MouseLogs
    | Progress(id: nat) | Ended(id: nat, error: Option<string>) | Gpus(options: seq<string>)
    | MenuGone | Paged(noLess: bool)

  predicate Fresh(o: Overlay) { o.FormOverlay? ==> o.form.busy.None? }

  /** What can happen. A busy form takes only the key that closes it; others leave it as it is. */
  predicate Enabled(s: State, a: Action) {
    s.paging == a.Paged? &&
    match a
    case Press(Elsewhere(next, _, _)) => !s.overlay.FormOverlay? && Fresh(next)
    case Press(Logs) => !s.overlay.FormOverlay?
    case Press(Typed(answers, error)) =>
      s.overlay.FormOverlay? &&
      var f := s.overlay.form;
      (f.busy.Some? ==> answers == f.answers && error == f.error)
    case Press(Cancelled) => s.overlay.FormOverlay?
    case Press(Submitted(_)) => s.overlay.FormOverlay? && s.overlay.form.busy.None?
    case Mouse(next, _) => (s.overlay.Menu? || s.overlay.NoOverlay?) && Fresh(next)
    case MouseLogs => s.overlay.Menu?
    case Progress(id) => id in s.running
    case Ended(id, _) => id in s.running
    case Gpus(_) => true
    case MenuGone => s.overlay.Menu?
    case Paged(_) => true
  }

  // ---- steps

  /** Starts work on `vm`, unless the VM is busy. */
  function Spawn(s: State, vm: string, form: Option<Form>): State {
    if vm in s.activity then s
    else
      s.(activity := s.activity + {vm}, spawned := s.spawned + 1,
         running := s.running[s.spawned + 1 := Work(vm, form)])
  }

  function OpenFailed(s: State): State {
    if s.overlay.NoOverlay? && s.failed != [] then
      s.(overlay := FormOverlay(s.failed[|s.failed| - 1]), failed := s.failed[..|s.failed| - 1])
    else s
  }

  function OnSubmit(s: State, submit: Submit): State
    requires s.overlay.FormOverlay?
  {
    var f := s.overlay.form;
    match submit
    case Refused(e) => s.(overlay := FormOverlay(f.(error := Some(e))))
    case Saved => s.(overlay := NoOverlay)
    case Starts(vm) =>
      if vm in s.activity then s.(overlay := FormOverlay(f.(error := Some(vm + " is busy"))))
      else
        var g := f.(busy := Some(s.spawned + 1));
        Spawn(s, vm, Some(g)).(overlay := FormOverlay(g))
  }

  function OnElsewhere(s: State, next: Overlay, vm: Option<string>, force: bool): State {
    var t := if vm.Some? && force then s.(activity := s.activity - {vm.value}) else s;
    (if vm.Some? then Spawn(t, vm.value, None) else t).(overlay := next)
  }

  function OnKey(s: State, k: Key): State
    requires Enabled(s, Press(k))
  {
    match k
    case Elsewhere(next, vm, force) => OnElsewhere(s, next, vm, force)
    case Logs => s.(overlay := NoOverlay, paging := true)
    case Typed(answers, error) => s.(overlay := FormOverlay(s.overlay.form.(answers := answers, error := error)))
    case Cancelled =>
      var f := s.overlay.form;
      s.(overlay := NoOverlay, closed := if f.busy.Some? then s.closed[f.busy.value := f] else s.closed)
    case Submitted(submit) => OnSubmit(s, submit)
  }

  /** Work `id`'s form, wherever it is kept. */
  function FormOf(s: State, id: nat): Option<Form> {
    if s.overlay.FormOverlay? && s.overlay.form.busy == Some(id) then Some(s.overlay.form)
    else if id in s.closed then Some(s.closed[id])
    else None
  }

  function OnEnded(s: State, id: nat, error: Option<string>): State
    requires id in s.running
  {
    var form := FormOf(s, id);
    var open := s.overlay.FormOverlay? && s.overlay.form.busy == Some(id);
    var t := s.(activity := s.activity - {s.running[id].vm}, running := s.running - {id},
                overlay := if open then NoOverlay else s.overlay,
                closed := if open then s.closed else s.closed - {id});
    if error.Some? && form.Some? then t.(failed := t.failed + [form.value.(busy := None, error := error)]) else t
  }

  /** New options for a choice keep its selection where it remains. */
  function WithOptions(f: Form, options: seq<string>): Form {
    if "gpu" !in f.answers || f.answers["gpu"] in options then f
    else f.(answers := f.answers["gpu" := if options == [] then "" else options[0]])
  }

  function Step(s: State, a: Action): State
    requires Enabled(s, a)
  {
    match a
    case Press(k) => OpenFailed(OnKey(s, k))
    case Mouse(next, vm) => OnElsewhere(s, next, vm, false)
    case MouseLogs => s.(overlay := NoOverlay, paging := true)
    case Progress(id) => OpenFailed(s.(activity := s.activity + {s.running[id].vm}))
    case Ended(id, error) => OpenFailed(OnEnded(s, id, error))
    case Gpus(options) =>
      OpenFailed(if s.overlay.FormOverlay? then s.(overlay := FormOverlay(WithOptions(s.overlay.form, options))) else s)
    case MenuGone => s.(overlay := NoOverlay)
    // without less, a view of the interface's own shows the log
    case Paged(noLess) => s.(paging := false, overlay := if noLess then Text else s.overlay)
  }

  // ---- the interface itself

  class App {
    var overlay: Overlay
    var activity: set<string>
    var spawned: nat
    var closed: map<nat, Form>
    var failed: seq<Form>
    var paging: bool
    ghost var running: map<nat, Work>

    ghost function Now(): State
      reads this
    {
      State(overlay, activity, spawned, closed, failed, paging, running)
    }

    constructor ()
      ensures Now() == START
    {
      overlay, activity, spawned, closed, failed, paging, running := NoOverlay, {}, 0, map[], [], false, map[];
    }

    method SpawnWork(vm: string, ghost form: Option<Form>) returns (id: Option<nat>)
      modifies this
      ensures Now() == Spawn(old(Now()), vm, form)
      ensures id == if vm in old(activity) then None else Some(old(spawned) + 1)
    {
      if vm in activity {
        return None;
      }
      activity := activity + {vm};
      spawned := spawned + 1;
      running := running[spawned := Work(vm, form)];
      return Some(spawned);
    }

    method OpenFailedForm()
      modifies this
      ensures Now() == OpenFailed(old(Now()))
    {
      if overlay.NoOverlay? && failed != [] {
        var f := failed[|failed| - 1];
        failed := failed[..|failed| - 1];
        overlay := FormOverlay(f);
      }
    }

    /** A form's submit, with the form taken off the overlay. */
    method SubmitForm(f: Form, submit: Submit)
      requires overlay.NoOverlay?
      modifies this
      ensures Now() == OnSubmit(old(Now()).(overlay := FormOverlay(f)), submit)
    {
      match submit {
        case Refused(e) =>
          overlay := FormOverlay(f.(error := Some(e)));
        case Saved =>
        case Starts(vm) =>
          var id := SpawnWork(vm, Some(f.(busy := Some(spawned + 1))));
          if id.None? {
            overlay := FormOverlay(f.(error := Some(vm + " is busy")));
          } else {
            overlay := FormOverlay(f.(busy := id));
          }
      }
    }

    method HandleKey(k: Key)
      requires Enabled(Now(), Press(k))
      modifies this
      ensures Now() == Step(old(Now()), Press(k))
    {
      var taken := overlay;
      overlay := NoOverlay;
      match k {
        case Typed(answers, error) =>
          overlay := FormOverlay(taken.form.(answers := answers, error := error));
        case Cancelled =>
          if taken.form.busy.Some? {
            closed := closed[taken.form.busy.value := taken.form];
          }
        case Submitted(submit) =>
          SubmitForm(taken.form, submit);
        case Elsewhere(next, vm, force) =>
          if vm.Some? {
            if force {
              activity := activity - {vm.value};
            }
            var _ := SpawnWork(vm.value, None);
          }
          overlay := next;
        case Logs =>
          paging := true;
      }
      OpenFailedForm();
    }

    /** A work's end. */
    method WorkEnded(vm: string, id: nat, error: Option<string>)
      requires Enabled(Now(), Ended(id, error)) && vm == running[id].vm
      modifies this
      ensures Now() == Step(old(Now()), Ended(id, error))
    {
      activity := activity - {vm};
      running := running - {id};
      var form := None;
      if overlay.FormOverlay? && overlay.form.busy == Some(id) {
        form := Some(overlay.form);
        overlay := NoOverlay;
      } else {
        form := if id in closed then Some(closed[id]) else None;
        closed := closed - {id};
      }
      if error.Some? && form.Some? {
        failed := failed + [form.value.(busy := None, error := error)];
      }
      OpenFailedForm();
    }
  }

  // ---- every run

  ghost predicate CanRun(s: State, run: seq<Action>)
    decreases |run|
  {
    run == [] || (Enabled(s, run[0]) && CanRun(Step(s, run[0]), run[1..]))
  }

  ghost function After(s: State, run: seq<Action>): State
    requires CanRun(s, run)
    decreases |run|
  {
    if run == [] then s else After(Step(s, run[0]), run[1..])
  }

  /** The same form, but perhaps for the GPU chosen, whose options can change while it is open. */
  predicate Like(f: Form, g: Form) {
    f.kind == g.kind && f.busy == g.busy && f.error == g.error && f.answers - {"gpu"} == g.answers - {"gpu"}
  }

  predicate BusyWith(s: State, id: nat) {
    s.overlay.FormOverlay? && s.overlay.form.busy == Some(id)
  }

  /** Each running work a form started has just one form, as it was submitted, open or closed; and no
      other form is busy. */
  ghost predicate Consistent(s: State) {
    && (forall id: nat :: id in s.running ==> id <= s.spawned)
    && (forall id: nat :: id in s.running && s.running[id].form.Some? ==>
          FormOf(s, id).Some? && Like(FormOf(s, id).value, s.running[id].form.value))
    && (forall id: nat :: id in s.closed || BusyWith(s, id) ==> id in s.running && s.running[id].form.Some?)
    && (forall id: nat :: id in s.closed ==> s.closed[id].busy == Some(id) && !BusyWith(s, id))
    && (forall i :: 0 <= i < |s.failed| ==> s.failed[i].busy.None?)
    && (s.paging ==> Fresh(s.overlay))
  }

  lemma OpensFailed(s: State)
    requires Consistent(s)
    ensures Consistent(OpenFailed(s))
  {
    var t := OpenFailed(s);
    assert forall id: nat :: FormOf(t, id) == FormOf(s, id);
  }

  lemma Spawns(s: State, vm: string)
    requires Consistent(s)
    ensures Consistent(Spawn(s, vm, None))
  {
    var t := Spawn(s, vm, None);
    assert forall id: nat :: FormOf(t, id) == FormOf(s, id);
  }

  lemma Replaced(s: State, t: State)
    requires Consistent(s) && Fresh(s.overlay)
    requires t.closed == s.closed && t.failed == s.failed && t.running == s.running && t.spawned == s.spawned
    requires Fresh(t.overlay)
    ensures Consistent(t)
  {
    assert forall id: nat :: FormOf(t, id) == FormOf(s, id);
  }

  lemma Changed(s: State, f: Form)
    requires Consistent(s) && s.overlay.FormOverlay?
    requires f.busy == s.overlay.form.busy && (f.busy.Some? ==> Like(f, s.overlay.form))
    ensures Consistent(s.(overlay := FormOverlay(f)))
  {
    var t := s.(overlay := FormOverlay(f));
    forall id: nat | id in t.running && t.running[id].form.Some?
      ensures FormOf(t, id).Some? && Like(FormOf(t, id).value, t.running[id].form.value)
    {
      assert FormOf(s, id).Some?;
    }
    assert forall id: nat :: BusyWith(t, id) == BusyWith(s, id);
  }

  lemma Elsewheres(s: State, next: Overlay, vm: Option<string>, force: bool)
    requires Consistent(s) && !s.overlay.FormOverlay? && Fresh(next) && !s.paging
    ensures Consistent(OnElsewhere(s, next, vm, force))
  {
    hide Consistent, Spawn;
    var t := if vm.Some? && force then s.(activity := s.activity - {vm.value}) else s;
    Replaced(s, t);
    if vm.Some? {
      Spawns(t, vm.value);
      SpawnKeeps(t, vm.value, None);
    }
    var u := if vm.Some? then Spawn(t, vm.value, None) else t;
    Replaced(u, u.(overlay := next));
  }

  lemma SpawnKeeps(s: State, vm: string, form: Option<Form>)
    ensures Spawn(s, vm, form).overlay == s.overlay && Spawn(s, vm, form).paging == s.paging
  {
  }

  lemma Cancels(s: State)
    requires Consistent(s) && s.overlay.FormOverlay? && !s.paging
    ensures Consistent(OnKey(s, Cancelled))
  {
    var t := OnKey(s, Cancelled);
    assert forall id: nat :: FormOf(t, id) == FormOf(s, id);
  }

  lemma Submits(s: State, submit: Submit)
    requires Consistent(s) && s.overlay.FormOverlay? && s.overlay.form.busy.None? && !s.paging
    ensures Consistent(OnSubmit(s, submit))
  {
    var t := OnSubmit(s, submit);
    if submit.Starts? && submit.vm !in s.activity {
      var n := s.spawned + 1;
      assert n !in s.running && n !in s.closed;
      forall id: nat | id in t.running && t.running[id].form.Some?
        ensures FormOf(t, id).Some? && Like(FormOf(t, id).value, t.running[id].form.value)
      {
        if id != n {
          assert FormOf(s, id).Some?;
        }
      }
    } else {
      Replaced(s, t);
    }
  }

  lemma Succeeds(s: State, id: nat)
    requires Consistent(s) && id in s.running && !s.paging
    ensures Consistent(OnEnded(s, id, None))
  {
    hide Like;
    var t := OnEnded(s, id, None);
    assert forall other: nat :: BusyWith(t, other) <==> other != id && BusyWith(s, other);
    assert forall other: nat :: other in t.closed <==> other != id && other in s.closed;
  }

  lemma Fails(s: State, f: Form)
    requires Consistent(s) && f.busy.None?
    ensures Consistent(s.(failed := s.failed + [f]))
  {
    hide Like;
    var t := s.(failed := s.failed + [f]);
    assert forall id: nat :: FormOf(t, id) == FormOf(s, id);
    assert forall id: nat :: BusyWith(t, id) == BusyWith(s, id);
  }

  lemma Ends(s: State, id: nat, error: Option<string>)
    requires Consistent(s) && id in s.running && !s.paging
    ensures Consistent(OnEnded(s, id, error))
  {
    hide Consistent;
    Succeeds(s, id);
    if error.Some? && FormOf(s, id).Some? {
      Fails(OnEnded(s, id, None), FormOf(s, id).value.(busy := None, error := error));
    }
  }

  lemma StepKeeps(s: State, a: Action)
    requires Consistent(s) && Enabled(s, a)
    ensures Consistent(Step(s, a))
  {
    hide Consistent, OpenFailed, Spawn, OnElsewhere, OnSubmit, OnEnded;
    NotPaging(s, a);
    match a {
      case Press(k) =>
        match k {
          case Elsewhere(next, vm, force) => Elsewheres(s, next, vm, force);
          case Logs => Replaced(s, OnKey(s, k));
          case Typed(answers, error) => Changed(s, s.overlay.form.(answers := answers, error := error));
          case Cancelled => Cancels(s);
          case Submitted(submit) => Submits(s, submit);
        }
        OpensFailed(OnKey(s, k));
      case Mouse(next, vm) => Elsewheres(s, next, vm, false);
      case MouseLogs => Replaced(s, Step(s, a));
      case Progress(id) =>
        Activities(s, s.activity + {s.running[id].vm});
        OpensFailed(s.(activity := s.activity + {s.running[id].vm}));
      case Ended(id, error) =>
        Ends(s, id, error);
        OpensFailed(OnEnded(s, id, error));
      case Gpus(options) =>
        if s.overlay.FormOverlay? {
          Changed(s, WithOptions(s.overlay.form, options));
          OpensFailed(s.(overlay := FormOverlay(WithOptions(s.overlay.form, options))));
        } else {
          OpensFailed(s);
        }
      case MenuGone => Replaced(s, Step(s, a));
      case Paged(_) => Replaced(s, Step(s, a));
    }
  }

  lemma NotPaging(s: State, a: Action)
    requires Consistent(s) && Enabled(s, a)
    ensures if a.Paged? then Fresh(s.overlay) else !s.paging
  {
  }

  lemma Activities(s: State, activity: set<string>)
    requires Consistent(s)
    ensures Consistent(s.(activity := activity))
  {
    var t := s.(activity := activity);
    assert forall id: nat :: FormOf(t, id) == FormOf(s, id);
  }

  lemma {:induction false} RunKeeps(s: State, run: seq<Action>)
    requires Consistent(s) && CanRun(s, run)
    ensures Consistent(After(s, run))
    decreases |run|
  {
    hide Consistent, Step, Enabled;
    if run != [] {
      StepKeeps(s, run[0]);
      RunKeeps(Step(s, run[0]), run[1..]);
    }
  }

  /** In every run, each running work a form started has exactly one form with its id, as it was
      submitted but perhaps for the GPU chosen, in the overlay or closed; and a form is busy only with a
      running work of its own. */
  lemma OneFormEach(run: seq<Action>, id: nat)
    requires CanRun(START, run)
    ensures var t := After(START, run);
            && (BusyWith(t, id) || id in t.closed <==> id in t.running && t.running[id].form.Some?)
            && !(BusyWith(t, id) && id in t.closed)
            && (FormOf(t, id).Some? ==> Like(FormOf(t, id).value, t.running[id].form.value))
            && (forall i :: 0 <= i < |t.failed| ==> t.failed[i].busy.None?)
  {
    hide CanRun, After, Like;
    RunKeeps(START, run);
  }

  // ---- a work's end

  /** The form is open, or to be opened. */
  predicate Held(s: State, f: Form) {
    || (s.overlay.FormOverlay? && Like(s.overlay.form, f))
    || exists i :: 0 <= i < |s.failed| && Like(s.failed[i], f)
  }

  lemma HeldOpens(s: State, f: Form)
    requires Held(s, f)
    ensures Held(OpenFailed(s), f)
  {
    hide Like;
    var t, n := OpenFailed(s), |s.failed| - 1;
    if s.overlay.NoOverlay? {
      var i :| 0 <= i < |s.failed| && Like(s.failed[i], f);
      if i < n {
        assert t.failed[i] == s.failed[i];
      }
    }
  }

  /** Failure loses no answers: the form is there, as it was, and shows the error. */
  lemma FailureKeepsForm(run: seq<Action>, id: nat, e: string)
    requires CanRun(START, run) && Enabled(After(START, run), Ended(id, Some(e)))
    requires After(START, run).running[id].form.Some?
    ensures var s := After(START, run);
            Held(Step(s, Ended(id, Some(e))), s.running[id].form.value.(busy := None, error := Some(e)))
  {
    hide CanRun, After;
    RunKeeps(START, run);
    var s := After(START, run);
    var f, t := FormOf(s, id).value, OnEnded(s, id, Some(e));
    assert t.failed[|t.failed| - 1] == f.(busy := None, error := Some(e));
    HeldOpens(t, s.running[id].form.value.(busy := None, error := Some(e)));
  }

  predicate OpenLike(s: State, f: Form) { s.overlay.FormOverlay? && Like(s.overlay.form, f) }

  /** Less missing, the log takes the form's place, and no form like it waits. */
  ghost predicate Replaces(s: State, a: Action, f: Form) {
    OpenLike(s, f) && a == Paged(true) && forall i :: 0 <= i < |s.failed| ==> !Like(s.failed[i], f)
  }

  lemma HeldStays(s: State, a: Action, f: Form)
    requires Enabled(s, a) && Held(s, f) && f.busy.None? && !(a.Press? && OpenLike(s, f))
    ensures Held(Step(s, a), f) <==> !Replaces(s, a, f)
  {
    hide OpenFailed;
    match a
    case Press(k) =>
      assert OnKey(s, k).failed == s.failed;
      HeldOpens(OnKey(s, k), f);
    case Progress(id) => HeldOpens(s.(activity := s.activity + {s.running[id].vm}), f);
    case Ended(id, error) =>
      EndedHolds(s, id, error, f);
    case Gpus(options) =>
      HeldOpens(if s.overlay.FormOverlay? then s.(overlay := FormOverlay(WithOptions(s.overlay.form, options))) else s, f);
    case Mouse(next, vm) =>
    case MouseLogs =>
    case MenuGone =>
    case Paged(noLess) =>
  }

  lemma EndedHolds(s: State, id: nat, error: Option<string>, f: Form)
    requires Enabled(s, Ended(id, error)) && Held(s, f) && f.busy.None?
    ensures Held(Step(s, Ended(id, error)), f)
  {
    hide OpenFailed;
    var t := OnEnded(s, id, error);
    if exists i :: 0 <= i < |s.failed| && Like(s.failed[i], f) {
      var i :| 0 <= i < |s.failed| && Like(s.failed[i], f);
      assert t.failed[i] == s.failed[i];
    }
    HeldOpens(t, f);
  }

  /** No key of the run goes to the form. */
  ghost predicate KeysElsewhere(s: State, run: seq<Action>, f: Form)
    requires CanRun(s, run)
    decreases |run|
  {
    run != [] ==> !(run[0].Press? && OpenLike(s, f)) && KeysElsewhere(Step(s, run[0]), run[1..], f)
  }

  ghost predicate HeldThroughout(s: State, run: seq<Action>, f: Form)
    requires CanRun(s, run)
    decreases |run|
  {
    Held(s, f) && (run != [] ==> HeldThroughout(Step(s, run[0]), run[1..], f))
  }

  ghost predicate NeverReplaced(s: State, run: seq<Action>, f: Form)
    requires CanRun(s, run)
    decreases |run|
  {
    run != [] ==> !Replaces(s, run[0], f) && NeverReplaced(Step(s, run[0]), run[1..], f)
  }

  /** Until a key goes to it, a failed work's form stays open, or to be opened, exactly as long as the log
      never takes its place. */
  lemma {:induction false} FailedFormStays(s: State, run: seq<Action>, f: Form)
    requires CanRun(s, run) && Held(s, f) && f.busy.None? && KeysElsewhere(s, run, f)
    ensures HeldThroughout(s, run, f) <==> NeverReplaced(s, run, f)
    decreases |run|
  {
    hide Held, Step, Enabled, Replaces, OpenLike;
    if run != [] {
      HeldStays(s, run[0], f);
      if !Replaces(s, run[0], f) {
        FailedFormStays(Step(s, run[0]), run[1..], f);
      }
    }
  }

  /** Once a key has been handled, or a message, no form waits to open over an empty screen. */
  lemma OpensOverNothing(s: State, a: Action)
    requires Enabled(s, a) && (a.Press? || a.Progress? || a.Ended? || a.Gpus?)
    ensures Step(s, a).overlay.NoOverlay? ==> Step(s, a).failed == []
  {
    hide OnKey, OnEnded, WithOptions;
  }

  /** A work that succeeds takes its form with it, and no other work's. */
  lemma SuccessRemovesForm(run: seq<Action>, id: nat)
    requires CanRun(START, run) && Enabled(After(START, run), Ended(id, None))
    ensures var s := After(START, run);
            var t := Step(s, Ended(id, None));
            && FormOf(t, id).None?
            && (forall other: nat :: other != id ==> FormOf(t, other) == FormOf(s, other))
            && |t.failed| + (if t.overlay.FormOverlay? && t.overlay.form.busy.None? then 1 else 0)
               == |s.failed| + (if s.overlay.FormOverlay? && s.overlay.form.busy.None? then 1 else 0)
  {
    hide CanRun, After, Like;
    RunKeeps(START, run);
    var s := After(START, run);
    var u := OnEnded(s, id, None);
    assert Consistent(u) by {
      Ends(s, id, None);
    }
    var t := OpenFailed(u);
    assert forall other: nat :: FormOf(t, other) == FormOf(u, other);
  }

  // ---- what a submit and new GPUs do

  /** A submit refused leaves the form open with why; one saved closes it; one with work to start leaves it open,
      with why not where the VM has work, and else busy with the new work, which has the form as it is. */
  lemma SubmitIs(s: State, submit: Submit)
    requires s.overlay.FormOverlay? && s.overlay.form.busy.None?
    ensures var f, t := s.overlay.form, OnSubmit(s, submit);
            && t.closed == s.closed && t.failed == s.failed && t.paging == s.paging
            && (submit.Refused? ==>
                  t == s.(overlay := t.overlay) && t.overlay == FormOverlay(Form(f.kind, f.answers, None, Some(submit.error))))
            && (submit.Saved? ==> t == s.(overlay := NoOverlay))
            && (submit.Starts? && submit.vm in s.activity ==>
                  && t == s.(overlay := t.overlay) && t.overlay.FormOverlay?
                  && t.overlay.form == Form(f.kind, f.answers, None, t.overlay.form.error) && t.overlay.form.error.Some?)
            && (submit.Starts? && submit.vm !in s.activity ==>
                  && t.spawned == s.spawned + 1 && t.activity == s.activity + {submit.vm}
                  && t.overlay == FormOverlay(Form(f.kind, f.answers, Some(t.spawned), f.error))
                  && t.running == s.running[t.spawned := Work(submit.vm, Some(t.overlay.form))])
  {
  }

  /** Any other view's key, or the mouse, leaves the view it says, and starts work on a VM unless it has work;
      powering a VM off starts it though it has. Logs are asked for with no view open, and shown, but for `less`,
      in a view. */
  lemma ElsewhereIs(s: State, next: Overlay, vm: Option<string>, force: bool, noLess: bool)
    ensures var t := OnElsewhere(s, next, vm, force);
            && t.overlay == next && t.closed == s.closed && t.failed == s.failed && t.paging == s.paging
            && (vm.None? || (vm.value in s.activity && !force) ==> t == s.(overlay := next))
            && (vm.Some? && (vm.value !in s.activity || force) ==>
                  && t.spawned == s.spawned + 1 && t.activity == s.activity + {vm.value}
                  && t.running == s.running[t.spawned := Work(vm.value, None)])
    ensures Enabled(s, Press(Logs)) ==> OnKey(s, Logs) == s.(overlay := NoOverlay, paging := true)
    ensures Enabled(s, MouseLogs) ==> Step(s, MouseLogs) == s.(overlay := NoOverlay, paging := true)
    ensures Enabled(s, MenuGone) ==> Step(s, MenuGone) == s.(overlay := NoOverlay)
    ensures Enabled(s, Paged(noLess)) ==>
              Step(s, Paged(noLess)) == s.(paging := false, overlay := if noLess then Text else s.overlay)
  {
  }

  /** New GPUs leave every other answer, and the GPU's where it is still among them; else it is the first. */
  lemma GpusAre(f: Form, options: seq<string>)
    ensures var g := WithOptions(f, options);
            && g.kind == f.kind && g.busy == f.busy && g.error == f.error && g.answers.Keys == f.answers.Keys
            && (forall k :: k in f.answers && k != "gpu" ==> g.answers[k] == f.answers[k])
            && ("gpu" in f.answers && f.answers["gpu"] in options ==> g == f)
            && ("gpu" in f.answers && f.answers["gpu"] !in options && options != [] ==> g.answers["gpu"] == options[0])
            && ("gpu" in f.answers && options == [] ==> g.answers["gpu"] == "")
  {
  }

  /** Of forms whose work failed the last opens first. */
  lemma LastFailedOpens(s: State)
    requires s.overlay.NoOverlay? && s.failed != []
    ensures var t := OpenFailed(s);
            s.failed == t.failed + [s.failed[|s.failed| - 1]] && t.overlay == FormOverlay(s.failed[|s.failed| - 1])
  {
  }

  // ---- busy VMs

  /** Every VM with work has a work running. */
  ghost predicate Busy(s: State) {
    forall vm :: vm in s.activity ==> exists id :: id in s.running && s.running[id].vm == vm
  }

  lemma SpawnBusy(s: State, vm: string, form: Option<Form>)
    requires Busy(s) && forall id: nat :: id in s.running ==> id <= s.spawned
    ensures Busy(Spawn(s, vm, form))
  {
    var t := Spawn(s, vm, form);
    forall v | v in t.activity ensures exists id :: id in t.running && t.running[id].vm == v {
      if v in s.activity {
        var id :| id in s.running && s.running[id].vm == v;
        assert id in t.running && t.running[id].vm == v;
      } else {
        assert t.spawned in t.running && t.running[t.spawned].vm == v;
      }
    }
  }

  lemma KeyBusy(s: State, k: Key)
    requires Busy(s) && Consistent(s) && Enabled(s, Press(k))
    ensures Busy(OnKey(s, k))
  {
    hide Spawn;
    match k
    case Submitted(Starts(vm)) =>
      SpawnBusy(s, vm, Some(s.overlay.form.(busy := Some(s.spawned + 1))));
    case Elsewhere(next, vm, force) => ElsewhereBusy(s, next, vm, force);
    case _ =>
  }

  lemma ElsewhereBusy(s: State, next: Overlay, vm: Option<string>, force: bool)
    requires Busy(s) && Consistent(s)
    ensures Busy(OnElsewhere(s, next, vm, force))
  {
    hide Spawn;
    if vm.Some? {
      SpawnBusy(s, vm.value, None);
      SpawnBusy(s.(activity := s.activity - {vm.value}), vm.value, None);
    }
  }

  lemma EndedBusy(s: State, id: nat, error: Option<string>)
    requires Busy(s) && id in s.running
    ensures Busy(OnEnded(s, id, error)) && s.running[id].vm !in OnEnded(s, id, error).activity
  {
    var t := OnEnded(s, id, error);
    forall vm | vm in t.activity ensures exists k :: k in t.running && t.running[k].vm == vm {
      var k :| k in s.running && s.running[k].vm == vm;
      assert k != id && k in t.running && t.running[k].vm == vm;
    }
  }

  lemma OpeningLeaves(s: State)
    ensures OpenFailed(s).activity == s.activity && OpenFailed(s).running == s.running
  {
  }

  lemma StepBusy(s: State, a: Action)
    requires Busy(s) && Consistent(s) && Enabled(s, a)
    ensures Busy(Step(s, a))
  {
    hide OpenFailed, OnKey, OnEnded, OnElsewhere, Busy, Consistent;
    match a
    case Press(k) =>
      KeyBusy(s, k);
      OpeningLeaves(OnKey(s, k));
      SameBusy(OnKey(s, k), Step(s, a));
    case Mouse(next, vm) => ElsewhereBusy(s, next, vm, false);
    case Ended(id, error) =>
      EndedBusy(s, id, error);
      OpeningLeaves(OnEnded(s, id, error));
      SameBusy(OnEnded(s, id, error), Step(s, a));
    case Progress(id) =>
      ProgressBusy(s, id);
      OpeningLeaves(s.(activity := s.activity + {s.running[id].vm}));
      SameBusy(s.(activity := s.activity + {s.running[id].vm}), Step(s, a));
    case Gpus(options) =>
      OpeningLeaves(if s.overlay.FormOverlay? then s.(overlay := FormOverlay(WithOptions(s.overlay.form, options))) else s);
      SameBusy(s, Step(s, a));
    case _ => SameBusy(s, Step(s, a));
  }

  lemma ProgressBusy(s: State, id: nat)
    requires Busy(s) && id in s.running
    ensures Busy(s.(activity := s.activity + {s.running[id].vm}))
  {
  }

  lemma SameBusy(s: State, t: State)
    requires Busy(s) && t.activity == s.activity && t.running == s.running
    ensures Busy(t)
  {
  }

  lemma {:induction false} RunBusy(s: State, run: seq<Action>)
    requires CanRun(s, run) && Busy(s) && Consistent(s)
    ensures Busy(After(s, run))
    decreases |run|
  {
    hide Busy, Consistent, Step, Enabled;
    if run != [] {
      StepBusy(s, run[0]);
      StepKeeps(s, run[0]);
      RunBusy(Step(s, run[0]), run[1..]);
    }
  }

  /** In every run each VM with work has a work running, and a work's end, whether it succeeds or fails, frees
      its VM for the next. */
  lemma EndFreesVm(run: seq<Action>)
    requires CanRun(START, run)
    ensures var s := After(START, run);
            && (forall vm :: vm in s.activity ==> exists id :: id in s.running && s.running[id].vm == vm)
            && (forall id: nat, error :: Enabled(s, Ended(id, error)) ==>
                  var t := Step(s, Ended(id, error));
                  s.running[id].vm !in t.activity && t.running == s.running - {id})
  {
    hide CanRun, After, OpenFailed;
    assert Consistent(START);
    RunBusy(START, run);
    var s := After(START, run);
    forall id: nat, error | Enabled(s, Ended(id, error))
      ensures var t := Step(s, Ended(id, error));
              s.running[id].vm !in t.activity && t.running == s.running - {id} {
      OpeningLeaves(OnEnded(s, id, error));
    }
  }

  // ---- without less

  /** A form whose work failed while a menu was open, and the menu's command to show the logs: the form
      opens, and without less the log takes its place before the user has seen it. */
  function LogsRun(vm: string, error: string): seq<Action> {
    [Press(Elsewhere(FormOverlay(Form(Create, map[], None, None)), None, false)),
     Press(Submitted(Starts(vm))), Press(Cancelled), Press(Elsewhere(Menu, None, false)),
     Ended(1, Some(error)), Press(Logs), Paged(true)]
  }

  lemma Earlier(s: State, run: seq<Action>, i: nat)
    requires i < |run| && Enabled(s, run[i]) && CanRun(Step(s, run[i]), run[i + 1..])
    ensures CanRun(s, run[i..]) && After(s, run[i..]) == After(Step(s, run[i]), run[i + 1..])
  {
    hide Enabled, Step;
    assert run[i..][1..] == run[i + 1..];
  }

  lemma FormFailsUnderMenu(vm: string, error: string)
    ensures var run, g := LogsRun(vm, error), Form(Create, map[], Some(1), None);
            var s2 := State(FormOverlay(g), {vm}, 1, map[], [], false, map[1 := Work(vm, Some(g))]);
            var s3 := s2.(overlay := NoOverlay, closed := map[1 := g]);
            var s4 := s3.(overlay := Menu);
            && Enabled(s2, run[2]) && Step(s2, run[2]) == s3
            && Enabled(s3, run[3]) && Step(s3, run[3]) == s4
            && Enabled(s4, run[4])
            && Step(s4, run[4]) == State(Menu, {}, 1, map[], [g.(busy := None, error := Some(error))], false, map[])
  {
  }

  lemma FormIsSubmitted(vm: string, error: string)
    ensures var run, g := LogsRun(vm, error), Form(Create, map[], Some(1), None);
            var s1 := START.(overlay := FormOverlay(g.(busy := None)));
            && Enabled(START, run[0]) && Step(START, run[0]) == s1
            && Enabled(s1, run[1])
            && Step(s1, run[1]) == State(FormOverlay(g), {vm}, 1, map[], [], false, map[1 := Work(vm, Some(g))])
  {
  }

  lemma LogReplaces(vm: string, error: string, w: Form)
    ensures var run, s5 := LogsRun(vm, error), State(Menu, {}, 1, map[], [w], false, map[]);
            && CanRun(s5, run[5..])
            && After(s5, run[5..]) == State(Text, {}, 1, map[], [], false, map[])
  {
    hide CanRun, After;
    var run := LogsRun(vm, error);
    var s5 := State(Menu, {}, 1, map[], [w], false, map[]);
    var s6 := State(FormOverlay(w), {}, 1, map[], [], true, map[]);
    var s7 := State(Text, {}, 1, map[], [], false, map[]);
    assert Enabled(s5, run[5]) && Step(s5, run[5]) == s6;
    assert Enabled(s6, run[6]) && Step(s6, run[6]) == s7;
    hide Step, Enabled;
    Nothing(s7);
    assert run[7..] == [];
    Earlier(s6, run, 6);
    Earlier(s5, run, 5);
  }

  lemma MissingLessLosesForm(vm: string, error: string)
    ensures CanRun(START, LogsRun(vm, error))
    ensures var t := After(START, LogsRun(vm, error)); t.overlay == Text && t.failed == [] && t.closed == map[]
  {
    hide CanRun, After, Step, Enabled;
    var run, g := LogsRun(vm, error), Form(Create, map[], Some(1), None);
    FormIsSubmitted(vm, error);
    FormFailsUnderMenu(vm, error);
    LogReplaces(vm, error, g.(busy := None, error := Some(error)));
    var s2 := State(FormOverlay(g), {vm}, 1, map[], [], false, map[1 := Work(vm, Some(g))]);
    var s3 := s2.(overlay := NoOverlay, closed := map[1 := g]);
    Earlier(s3.(overlay := Menu), run, 4);
    Earlier(s3, run, 3);
    Earlier(s2, run, 2);
    Earlier(START.(overlay := FormOverlay(g.(busy := None))), run, 1);
    Earlier(START, run, 0);
    assert run[0..] == run;
  }

  lemma Nothing(s: State)
    ensures CanRun(s, []) && After(s, []) == s
  {
  }
}
