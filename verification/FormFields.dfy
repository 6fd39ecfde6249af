/** A form's fields: answers that show and hide other fields, the focus moving among those shown, and the
    keys that change them. */
module FormFields {
  import opened Arithmetic
  import opened Bytes
  import L = LineEditor
  import opened Options

  type Text = seq<L.Scalar>

  datatype Value = TextValue(line: L.Line, path: bool) | Choice(options: seq<Text>, index: nat) | Toggle(on: bool)

  /** A link to another field: `While` holds as long as that field is shown and its answer is listed. */
  datatype Condition = Always | While(key: string, values: seq<Text>)

  datatype Field = Field(key: string, value: Value, showIf: Condition)

  const YES: Text := [0x79, 0x65, 0x73]
  const NO: Text := [0x6e, 0x6f]

  /** Where the field with a key is. */
  function Position(fields: seq<Field>, key: string): (i: Option<nat>)
    ensures i.Some? ==> i.value < |fields| && fields[i.value].key == key
  {
    if fields == [] then None
    else if fields[0].key == key then Some(0)
    else
      match Position(fields[1..], key)
      case None => None
      case Some(i) => Some(i + 1)
  }

  function ChoiceAt(v: Value): Text {
    match v
    case Choice(options, index) => if index < |options| then options[index] else []
    case Toggle(on) => if on then YES else NO
    case TextValue(line, _) => line.chars
  }

  /** The field that field `i` is shown by. */
  function Link(fields: seq<Field>, i: nat): (j: Option<nat>)
    requires i < |fields|
    ensures j.Some? ==> j.value < |fields|
  {
    if fields[i].showIf.Always? then None else Position(fields, fields[i].showIf.key)
  }

  /** No field is shown, however indirectly, by itself: each has a rank over that of its link. */
  ghost predicate Acyclic(fields: seq<Field>, rank: seq<nat>) {
    && |rank| == |fields|
    && forall i :: 0 <= i < |fields| && Link(fields, i).Some? ==> rank[Link(fields, i).value] < rank[i]
  }

  function Shown(fields: seq<Field>, ghost rank: seq<nat>, i: nat): bool
    requires Acyclic(fields, rank) && i < |fields|
    decreases rank[i]
  {
    match Link(fields, i)
    case None => true
    case Some(j) => Shown(fields, rank, j) && ChoiceAt(fields[j].value) in fields[i].showIf.values
  }

  function VisibleUnder(fields: seq<Field>, ghost rank: seq<nat>, n: nat): (v: seq<nat>)
    requires Acyclic(fields, rank) && n <= |fields|
    ensures forall k :: 0 <= k < |v| ==> v[k] < n && Shown(fields, rank, v[k])
    ensures forall j, k :: 0 <= j < k < |v| ==> v[j] < v[k]
    ensures forall i: nat :: i < n && Shown(fields, rank, i) ==> i in v
  {
    if n == 0 then []
    else VisibleUnder(fields, rank, n - 1) + if Shown(fields, rank, n - 1) then [n - 1] else []
  }

  function Visible(fields: seq<Field>, ghost rank: seq<nat>): (v: seq<nat>)
    requires Acyclic(fields, rank)
    ensures forall k :: 0 <= k < |v| ==> v[k] < |fields| && Shown(fields, rank, v[k])
    ensures forall j, k :: 0 <= j < k < |v| ==> v[j] < v[k]
    ensures forall i: nat :: i < |fields| && Shown(fields, rank, i) ==> i in v
  {
    VisibleUnder(fields, rank, |fields|)
  }

  /** Where `x` is in `v`; 0 when it is not. */
  function Place(v: seq<nat>, x: nat): (p: nat)
    ensures v != [] ==> p < |v|
    ensures x in v ==> p < |v| && v[p] == x
  {
    if x !in v || v[0] == x then 0 else 1 + Place(v[1..], x)
  }

  /** One place on, or back, around `n`. */
  function Turned(p: nat, n: nat, forward: bool): (q: nat)
    requires p < n
    ensures q < n
  {
    if forward then (p + 1) % n else (p + n - 1) % n
  }

  function Next(v: seq<nat>, focus: nat, forward: bool): (f: nat)
    ensures v != [] ==> f in v
    ensures v == [] ==> f == focus
  {
    if v == [] then focus
    else
      var p := Place(v, focus);
      v[Turned(p, |v|, forward)]
  }

  datatype Key = Esc | Up | Down | Enter | LeftKey | RightKey | Tab(completed: Option<Text>) | Typed(c: L.Scalar, ctrl: bool)
               | BackspaceKey | DeleteKey | Home | End | Other

  const LOWER_A: L.Scalar := 0x61
  const LOWER_C: L.Scalar := 0x63
  const LOWER_E: L.Scalar := 0x65
  const LOWER_N: L.Scalar := 0x6e
  const LOWER_S: L.Scalar := 0x73
  const LOWER_U: L.Scalar := 0x75
  const LOWER_W: L.Scalar := 0x77
  const LOWER_Y: L.Scalar := 0x79

  datatype Event = NoEvent | Submit | Cancel

  /** What a key does to a text field's line, if it edits it; a path completes with Tab where there is
      something to complete. */
  function EditOf(path: bool, k: Key): Option<L.Edit> {
    match k
    case Typed(c, ctrl) =>
      if !ctrl then Some(L.Insert(c))
      else if c == LOWER_A then Some(L.Start)
      else if c == LOWER_E then Some(L.End)
      else if c == LOWER_U then Some(L.Clear)
      else if c == LOWER_W then Some(L.WordBack)
      else None
    case BackspaceKey => Some(L.Backspace)
    case DeleteKey => Some(L.Delete)
    case LeftKey => Some(L.Back)
    case RightKey => Some(L.Forth)
    case Home => Some(L.Start)
    case End => Some(L.End)
    case Tab(Some(t)) => if path then Some(L.Completed(t)) else None
    case _ => None
  }

  function AtLeastOne(n: nat): nat { if n == 0 then 1 else n }

  predicate SoundValue(v: Value) {
    match v
    case TextValue(line, _) => L.Sound(line)
    case Choice(options, index) => index < AtLeastOne(|options|)
    case Toggle(_) => true
  }

  predicate SoundFields(fields: seq<Field>) {
    forall i :: 0 <= i < |fields| ==> SoundValue(fields[i].value)
  }

  /** A field with no condition is shown, and one whose condition names no field. Another is shown exactly when
      the first field of the name is, and its answer is one of those listed. */
  lemma ShownIff(fields: seq<Field>, rank: seq<nat>, i: nat, j: nat)
    requires Acyclic(fields, rank) && i < |fields|
    ensures fields[i].showIf.Always? ==> Shown(fields, rank, i)
    ensures fields[i].showIf.While? && (forall k :: 0 <= k < |fields| ==> fields[k].key != fields[i].showIf.key) ==>
              Shown(fields, rank, i)
    ensures fields[i].showIf.While? && j < |fields| && fields[j].key == fields[i].showIf.key
            && (forall k :: 0 <= k < j ==> fields[k].key != fields[j].key) ==>
              (Shown(fields, rank, i) <==> Shown(fields, rank, j) && ChoiceAt(fields[j].value) in fields[i].showIf.values)
  {
    if fields[i].showIf.While? {
      FirstPosition(fields, fields[i].showIf.key, j);
    }
  }

  lemma {:induction false} FirstPosition(fields: seq<Field>, key: string, j: nat)
    ensures (forall k :: 0 <= k < |fields| ==> fields[k].key != key) ==> Position(fields, key) == None
    ensures j < |fields| && fields[j].key == key && (forall k :: 0 <= k < j ==> fields[k].key != key) ==>
              Position(fields, key) == Some(j)
  {
    if fields != [] {
      FirstPosition(fields[1..], key, if j > 0 then j - 1 else 0);
      assert forall k :: 0 < k < |fields| ==> fields[k] == fields[1..][k - 1];
      if fields[0].key != key {
        assert (forall k :: 0 <= k < |fields| ==> fields[k].key != key) ==>
            forall k :: 0 <= k < |fields[1..]| ==> fields[1..][k].key != key;
      }
    }
  }

  /** A toggle answers `yes` or `no`, a choice the option chosen, and a text itself. */
  lemma AnswersAre(options: seq<Text>, index: nat, on: bool, line: L.Line, path: bool)
    ensures ChoiceAt(Toggle(on)) == if on then [0x79, 0x65, 0x73] else [0x6e, 0x6f]
    ensures index < |options| ==> ChoiceAt(Choice(options, index)) == options[index]
    ensures index >= |options| ==> ChoiceAt(Choice(options, index)) == []
    ensures ChoiceAt(TextValue(line, path)) == line.chars
  {
  }

  /** The focused field's value after a key, and whether the focus moves on. */
  function Changed(v: Value, k: Key): (r: (Value, bool))
    requires SoundValue(v)
    ensures SoundValue(r.0)
  {
    match v
    case Choice(options, index) =>
      var n := AtLeastOne(|options|);
      if k.LeftKey? then (Choice(options, (index + n - 1) % n), false)
      else if k.RightKey? || (k.Typed? && k.c == L.SPACE) then (Choice(options, (index + 1) % n), false)
      else (v, k.Tab?)
    case Toggle(on) =>
      if k.LeftKey? || k.RightKey? || (k.Typed? && k.c == L.SPACE) then (Toggle(!on), false)
      else if k.Typed? && k.c == LOWER_Y then (Toggle(true), false)
      else if k.Typed? && k.c == LOWER_N then (Toggle(false), false)
      else (v, k.Tab?)
    case TextValue(line, path) =>
      match EditOf(path, k)
      case Some(e) => (TextValue(L.Edited(line, e), path), false)
      case None => (v, k.Tab?)
  }

  predicate Closes(k: Key) { k.Esc? || (k.Typed? && k.ctrl && k.c == LOWER_C) }

  datatype Now = Now(fields: seq<Field>, focus: nat, busy: bool, error: bool)

  /** The focus, on a field shown if any is. */
  function Focused(v: seq<nat>, focus: nat): (f: nat)
    ensures v != [] ==> f in v
  {
    if focus in v then focus else if v == [] then 0 else v[0]
  }

  function WithValue(fields: seq<Field>, i: nat, v: Value): (r: seq<Field>)
    requires i < |fields|
    ensures |r| == |fields| && r[i] == fields[i].(value := v)
    ensures forall j :: 0 <= j < |fields| && j != i ==> r[j] == fields[j]
  {
    fields[i := fields[i].(value := v)]
  }

  /** What a key does to a form. */
  function Handled(s: Now, ghost rank: seq<nat>, k: Key): (Now, Event)
    requires Acyclic(s.fields, rank) && SoundFields(s.fields) && s.fields != []
  {
    var v := Visible(s.fields, rank);
    var t := s.(focus := Focused(v, s.focus));
    if s.busy && !Closes(k) then (s, NoEvent)
    else if Closes(k) then (t, Cancel)
    else if k.Typed? && k.ctrl && k.c == LOWER_S then (t, Submit)
    else if k.Up? then (t.(focus := Next(v, t.focus, false)), NoEvent)
    else if k.Down? then (t.(focus := Next(v, t.focus, true)), NoEvent)
    else if k.Enter? then
      if v != [] && v[|v| - 1] == t.focus then (t, Submit) else (t.(focus := Next(v, t.focus, true)), NoEvent)
    else
      var (value, moves) := Changed(s.fields[t.focus].value, k);
      var fields := WithValue(s.fields, t.focus, value);
      (Now(fields, if moves then Next(v, t.focus, true) else t.focus, s.busy, false), NoEvent)
  }

  // ---- focus

  lemma PlaceAt(v: seq<nat>, p: nat)
    requires p < |v| && forall j, k :: 0 <= j < k < |v| ==> v[j] < v[k]
    ensures Place(v, v[p]) == p
  {
    assert v[Place(v, v[p])] == v[p];
  }

  lemma RoundAndBack(p: nat, n: nat)
    requires p < n
    ensures ((p + 1) % n + n - 1) % n == p && ((p + n - 1) % n + 1) % n == p
  {
    if p + 1 == n {
      Divides(n, n, 1, 0);
      Divides(n - 1, n, 0, n - 1);
    } else {
      Divides(p + 1, n, 0, p + 1);
      Divides(p + n, n, 1, p);
    }
    if p == 0 {
      Divides(n - 1, n, 0, n - 1);
      Divides(n, n, 1, 0);
    } else {
      Divides(p + n - 1, n, 1, p - 1);
      Divides(p, n, 0, p);
    }
  }

  lemma TurnedBack(p: nat, n: nat)
    requires p < n
    ensures Turned(Turned(p, n, true), n, false) == p && Turned(Turned(p, n, false), n, true) == p
  {
    RoundAndBack(p, n);
  }

  predicate Increasing(v: seq<nat>) {
    forall j, k :: 0 <= j < k < |v| ==> v[j] < v[k]
  }

  /** Down goes to the next field shown, or round to the first; Up to the one before, or round to the last. */
  lemma NextIs(v: seq<nat>, p: nat)
    requires Increasing(v) && p < |v|
    ensures Next(v, v[p], true) == if p + 1 < |v| then v[p + 1] else v[0]
    ensures Next(v, v[p], false) == if p > 0 then v[p - 1] else v[|v| - 1]
  {
    PlaceAt(v, p);
    var n := |v|;
    if p + 1 == n {
      Divides(n, n, 1, 0);
    } else {
      Divides(p + 1, n, 0, p + 1);
    }
    if p == 0 {
      Divides(n - 1, n, 0, n - 1);
    } else {
      Divides(p + n - 1, n, 1, p - 1);
    }
  }

  /** Right and a space choose the option after, or the first after the last; Left the one before. A toggle
      turns with either and a space, and takes `y` and `n`; Tab moves on, unless it completes a path. */
  lemma ValuesAre(options: seq<Text>, index: nat, on: bool, ctrl: bool)
    requires index < |options|
    ensures var v := Choice(options, index);
            && Changed(v, RightKey) == (Choice(options, if index + 1 < |options| then index + 1 else 0), false)
            && Changed(v, Typed(0x20, ctrl)) == Changed(v, RightKey)
            && Changed(v, LeftKey) == (Choice(options, if index > 0 then index - 1 else |options| - 1), false)
            && Changed(v, Tab(None)) == (v, true)
    ensures Changed(Choice([], 0), RightKey) == Changed(Choice([], 0), LeftKey) == (Choice([], 0), false)
    ensures var v := Toggle(on);
            && Changed(v, RightKey) == Changed(v, LeftKey) == Changed(v, Typed(0x20, ctrl)) == (Toggle(!on), false)
            && Changed(v, Typed(0x79, ctrl)) == (Toggle(true), false)
            && Changed(v, Typed(0x6e, ctrl)) == (Toggle(false), false)
            && Changed(v, Tab(None)) == (v, true)
  {
    var n := |options|;
    if index + 1 == n {
      Divides(n, n, 1, 0);
    } else {
      Divides(index + 1, n, 0, index + 1);
    }
    if index == 0 {
      Divides(n - 1, n, 0, n - 1);
    } else {
      Divides(index + n - 1, n, 1, index - 1);
    }
  }

  /** Escape and Ctrl-C close a form, and nothing else does. */
  lemma ClosesIff(k: Key)
    ensures Closes(k) <==> k == Esc || k == Typed(0x63, true)
  {
  }

  /** The keys of a line: Ctrl-A, Ctrl-E, Ctrl-U and Ctrl-W, and those with names. */
  lemma LineKeys(c: L.Scalar, path: bool, t: Text)
    ensures EditOf(path, Typed(0x61, true)) == Some(L.Start) && EditOf(path, Typed(0x65, true)) == Some(L.End)
    ensures EditOf(path, Typed(0x75, true)) == Some(L.Clear) && EditOf(path, Typed(0x77, true)) == Some(L.WordBack)
    ensures EditOf(path, Typed(c, false)) == Some(L.Insert(c))
    ensures EditOf(path, BackspaceKey) == Some(L.Backspace) && EditOf(path, DeleteKey) == Some(L.Delete)
    ensures EditOf(path, LeftKey) == Some(L.Back) && EditOf(path, RightKey) == Some(L.Forth)
    ensures EditOf(path, Home) == Some(L.Start) && EditOf(path, End) == Some(L.End)
    ensures EditOf(path, Tab(Some(t))) == (if path then Some(L.Completed(t)) else None) && EditOf(path, Tab(None)) == None
  {
  }

  /** Moving on and back comes back. */
  lemma NextAndBack(v: seq<nat>, focus: nat)
    requires Increasing(v) && focus in v
    ensures Next(v, Next(v, focus, true), false) == focus
    ensures Next(v, Next(v, focus, false), true) == focus
  {
    hide Place, Turned;
    var p, n := Place(v, focus), |v|;
    TurnedBack(p, n);
    PlaceAt(v, Turned(p, n, true));
    PlaceAt(v, Turned(p, n, false));
  }

  /** `times` moves on. */
  function NextTimes(v: seq<nat>, focus: nat, times: nat): nat {
    if times == 0 then focus else Next(v, NextTimes(v, focus, times - 1), true)
  }

  lemma TurnedOn(p: nat, k: nat, n: nat)
    requires p < n && k < n
    ensures Turned(if p + k < n then p + k else p + k - n, n, true) == if p + k + 1 < n then p + k + 1 else p + k + 1 - n
  {
    var q := if p + k < n then p + k else p + k - n;
    if q + 1 == n {
      Divides(n, n, 1, 0);
    } else {
      Divides(q + 1, n, 0, q + 1);
    }
  }

  lemma {:induction false} NextTimesAt(v: seq<nat>, focus: nat, k: nat)
    requires Increasing(v) && focus in v && k <= |v|
    ensures var p, n := Place(v, focus), |v|;
            NextTimes(v, focus, k) == v[if p + k < n then p + k else p + k - n]
    decreases k
  {
    hide Place, Turned;
    var p, n := Place(v, focus), |v|;
    if k > 0 {
      NextTimesAt(v, focus, k - 1);
      TurnedOn(p, k - 1, n);
      PlaceAt(v, if p + k - 1 < n then p + k - 1 else p + k - 1 - n);
    }
  }

  // ---- every key

  /** Links need only keys and conditions, which keys do not change. */
  predicate SameShape(a: seq<Field>, b: seq<Field>) {
    |a| == |b| && forall i :: 0 <= i < |a| ==> a[i].key == b[i].key && a[i].showIf == b[i].showIf
  }

  lemma {:induction false} SamePosition(a: seq<Field>, b: seq<Field>, key: string)
    requires SameShape(a, b)
    ensures Position(a, key) == Position(b, key)
  {
    if a != [] && a[0].key != key {
      SamePosition(a[1..], b[1..], key);
    }
  }

  lemma SameLinks(a: seq<Field>, b: seq<Field>, rank: seq<nat>)
    requires SameShape(a, b)
    ensures forall i :: 0 <= i < |a| ==> Link(a, i) == Link(b, i)
    ensures Acyclic(a, rank) ==> Acyclic(b, rank)
  {
    forall i | 0 <= i < |a| ensures Link(a, i) == Link(b, i) {
      if a[i].showIf.While? {
        SamePosition(a, b, a[i].showIf.key);
      }
    }
  }

  /** Whether a field is shown does not depend on the ranks that show the links acyclic. */
  lemma {:induction false} ShownWhateverRank(fields: seq<Field>, rank: seq<nat>, other: seq<nat>, i: nat)
    requires Acyclic(fields, rank) && Acyclic(fields, other) && i < |fields|
    ensures Shown(fields, rank, i) == Shown(fields, other, i)
    decreases rank[i]
  {
    if Link(fields, i).Some? {
      ShownWhateverRank(fields, rank, other, Link(fields, i).value);
    }
  }

  /** A field's own value does not show or hide it, nor what it is shown by. */
  lemma {:induction false} ShownApart(a: seq<Field>, b: seq<Field>, rank: seq<nat>, i: nat, changed: nat)
    requires Acyclic(a, rank) && Acyclic(b, rank) && SameShape(a, b) && i < |a| && changed < |a|
    requires rank[i] <= rank[changed]
    requires forall j :: 0 <= j < |a| && j != changed ==> a[j] == b[j]
    ensures Shown(a, rank, i) == Shown(b, rank, i)
    decreases rank[i]
  {
    SameLinks(a, b, rank);
    if Link(a, i).Some? {
      ShownApart(a, b, rank, Link(a, i).value, changed);
    }
  }

  /** Following links from a field ends at one always shown. */
  lemma {:induction false} SomeShown(fields: seq<Field>, rank: seq<nat>, i: nat) returns (j: nat)
    requires Acyclic(fields, rank) && i < |fields|
    ensures j < |fields| && Shown(fields, rank, j)
    decreases rank[i]
  {
    if Link(fields, i).Some? {
      j := SomeShown(fields, rank, Link(fields, i).value);
    } else {
      j := i;
    }
  }

  /** What every key keeps: the fields' keys and conditions, sound values, and a focus on a shown field,
      of which there always is one, once a key has been handled while not busy. A busy form changes with no
      key but the one that closes it. */
  lemma KeyKeeps(s: Now, rank: seq<nat>, k: Key)
    requires Acyclic(s.fields, rank) && SoundFields(s.fields) && s.fields != []
    ensures var (t, event) := Handled(s, rank, k);
            && SameShape(s.fields, t.fields) && Acyclic(t.fields, rank) && SoundFields(t.fields)
            && (s.busy && !Closes(k) ==> t == s && event == NoEvent)
            && (!s.busy ==> t.focus < |t.fields| && Shown(t.fields, rank, t.focus))
  {
    hide L.Edited, Visible, Next, Shown, Changed;
    var (t, event) := Handled(s, rank, k);
    var _ := SomeShown(s.fields, rank, 0);
    var v := Visible(s.fields, rank);
    var f := Focused(v, s.focus);
    SameLinks(s.fields, t.fields, rank);
    if !s.busy {
      ShownApart(s.fields, t.fields, rank, f, f);
      ValueKept(s.fields[f].value, k);
      assert t.focus == f || (t.focus in v && t.fields == s.fields);
    }
  }

  /** A key that moves on leaves the value. */
  lemma ValueKept(v: Value, k: Key)
    requires SoundValue(v)
    ensures Changed(v, k).1 ==> Changed(v, k).0 == v
  {
    hide L.Edited;
  }

  /** A form after keys. */
  function AfterKeys(s: Now, ghost rank: seq<nat>, keys: seq<Key>): Now
    requires Acyclic(s.fields, rank) && SoundFields(s.fields) && s.fields != []
    decreases |keys|
  {
    if keys == [] then s
    else
      KeyKeeps(s, rank, keys[0]);
      AfterKeys(Handled(s, rank, keys[0]).0, rank, keys[1..])
  }

  /** Over every sequence of keys. */
  lemma {:induction false} KeysKeep(s: Now, rank: seq<nat>, keys: seq<Key>)
    requires Acyclic(s.fields, rank) && SoundFields(s.fields) && s.fields != [] && !s.busy
    ensures var t := AfterKeys(s, rank, keys);
            && SameShape(s.fields, t.fields) && Acyclic(t.fields, rank) && SoundFields(t.fields) && !t.busy
            && (keys != [] ==> t.focus < |t.fields| && Shown(t.fields, rank, t.focus))
    decreases |keys|
  {
    hide Handled, Acyclic, SoundFields, Shown;
    if keys != [] {
      KeyKeeps(s, rank, keys[0]);
      KeyStays(s, rank, keys[0]);
      KeysKeep(Handled(s, rank, keys[0]).0, rank, keys[1..]);
    }
  }

  lemma KeyStays(s: Now, rank: seq<nat>, k: Key)
    requires Acyclic(s.fields, rank) && SoundFields(s.fields) && s.fields != []
    ensures Handled(s, rank, k).0.busy == s.busy
  {
    hide Shown, Visible, Next, Changed;
  }

  /** In a choice Left and Right undo each other, all the way round, and in a toggle twice is not at all. */
  lemma ChoicesTurnBack(v: Value)
    requires SoundValue(v) && !v.TextValue?
    ensures Changed(Changed(v, LeftKey).0, RightKey).0 == v && Changed(Changed(v, RightKey).0, LeftKey).0 == v
  {
    if v.Choice? {
      RoundAndBack(v.index, AtLeastOne(|v.options|));
    }
  }

  /** Up undoes Down, and Down Up, from a focused field that is shown. */
  lemma UpUndoesDown(s: Now, rank: seq<nat>)
    requires Acyclic(s.fields, rank) && SoundFields(s.fields) && !s.busy
    requires s.focus < |s.fields| && Shown(s.fields, rank, s.focus)
    ensures Handled(Handled(s, rank, Down).0, rank, Up).0 == s
    ensures Handled(Handled(s, rank, Up).0, rank, Down).0 == s
  {
    hide Shown, Visible, Changed, Next, SoundFields, Acyclic;
    NextAndBack(Visible(s.fields, rank), s.focus);
  }

  function Downs(s: Now, ghost rank: seq<nat>, n: nat): (t: Now)
    requires Acyclic(s.fields, rank) && SoundFields(s.fields) && s.fields != []
    ensures t.fields == s.fields
  {
    if n == 0 then s else Handled(Downs(s, rank, n - 1), rank, Down).0
  }

  lemma DownIs(s: Now, rank: seq<nat>)
    requires Acyclic(s.fields, rank) && SoundFields(s.fields) && !s.busy
    requires s.focus in Visible(s.fields, rank)
    ensures Handled(s, rank, Down).0 == s.(focus := Next(Visible(s.fields, rank), s.focus, true))
  {
    hide Shown, Visible, Changed, Next, SoundFields, Acyclic;
  }

  lemma {:induction false} DownsAre(s: Now, rank: seq<nat>, n: nat)
    requires Acyclic(s.fields, rank) && SoundFields(s.fields) && !s.busy
    requires s.focus < |s.fields| && Shown(s.fields, rank, s.focus)
    ensures Downs(s, rank, n) == s.(focus := NextTimes(Visible(s.fields, rank), s.focus, n))
    ensures NextTimes(Visible(s.fields, rank), s.focus, n) in Visible(s.fields, rank)
  {
    hide Shown, Visible, Handled, Next, SoundFields, Acyclic;
    if n > 0 {
      DownsAre(s, rank, n - 1);
      DownIs(Downs(s, rank, n - 1), rank);
    }
  }

  /** As many Downs as fields are shown go all the way round. */
  lemma DownsGoRound(s: Now, rank: seq<nat>)
    requires Acyclic(s.fields, rank) && SoundFields(s.fields) && !s.busy
    requires s.focus < |s.fields| && Shown(s.fields, rank, s.focus)
    ensures Downs(s, rank, |Visible(s.fields, rank)|) == s
  {
    hide Shown, Visible, SoundFields, Acyclic, Place, NextTimes, Downs;
    var v := Visible(s.fields, rank);
    DownsAre(s, rank, |v|);
    NextTimesAt(v, s.focus, |v|);
  }

  // ---- the form

  class Form {
    var fields: seq<Field>
    var focus: nat
    var error: bool
    var busy: bool
    ghost var rank: seq<nat>

    ghost predicate Valid()
      reads this
    {
      fields != [] && Acyclic(fields, rank) && SoundFields(fields)
    }

    ghost function State(): Now
      reads this
    {
      Now(fields, focus, busy, error)
    }

    constructor (list: seq<Field>, ghost ranks: seq<nat>)
      requires list != [] && Acyclic(list, ranks) && SoundFields(list)
      ensures Valid() && State() == Now(list, 0, false, false) && rank == ranks
    {
      fields, focus, error, busy, rank := list, 0, false, false, ranks;
    }

    method MoveFocus(forward: bool)
      requires Valid()
      modifies this`focus
      ensures focus == Next(Visible(fields, rank), old(focus), forward)
    {
      hide Shown, Visible, Turned, Place;
      var v := Visible(fields, rank);
      if v == [] {
        return;
      }
      var pos := Place(v, focus);
      focus := v[Turned(pos, |v|, forward)];
    }

    method HandleKey(k: Key) returns (event: Event)
      requires Valid()
      modifies this
      ensures Valid() && rank == old(rank)
      ensures (State(), event) == Handled(old(State()), rank, k)
    {
      hide Shown, Visible, Next, SoundFields, Acyclic, Place, Changed, Turned, WithValue, Handled;
      ghost var before := State();
      KeyKeeps(before, rank, k);
      MoveHandled(before, rank, k);
      var close := Closes(k);
      if busy && !close {
        return NoEvent;
      }
      var v := Visible(fields, rank);
      if focus !in v {
        focus := if v == [] then 0 else v[0];
      }
      assert focus < |fields| by {
        FocusIn(before, rank);
      }
      match k {
        case Esc => return Cancel;
        case Up =>
          MoveFocus(false);
          return NoEvent;
        case Down =>
          MoveFocus(true);
          return NoEvent;
        case Enter =>
          if v != [] && v[|v| - 1] == focus {
            return Submit;
          }
          MoveFocus(true);
          return NoEvent;
        case _ =>
      }
      if k.Typed? && k.ctrl && k.c == LOWER_S {
        return Submit;
      }
      if close {
        return Cancel;
      }
      ChangeValue(before, k);
      return NoEvent;
    }

    /** Any other key goes to the focused field. */
    method ChangeValue(ghost before: Now, k: Key)
      requires Valid() && ToValue(before, k)
      requires State() == before.(focus := Focused(Visible(fields, rank), before.focus))
      modifies this
      ensures Valid() && rank == old(rank)
      ensures (State(), NoEvent) == Handled(before, rank, k)
    {
      hide Shown, Visible, Next, SoundFields, Acyclic, Place, Changed, Turned, WithValue, Handled;
      KeyKeeps(before, rank, k);
      ValueHandled(before, rank, k);
      error := false;
      var (value, moves) := Changed(fields[focus].value, k);
      if moves {
        MoveFocus(true);
      } else {
        fields := WithValue(fields, focus, value);
      }
    }
  }

  predicate ToValue(s: Now, k: Key) {
    !s.busy && !Closes(k) && !k.Up? && !k.Down? && !k.Enter? && !(k.Typed? && k.ctrl && k.c == LOWER_S)
  }

  /** A key that changes no value. */
  lemma MoveHandled(s: Now, rank: seq<nat>, k: Key)
    requires Acyclic(s.fields, rank) && SoundFields(s.fields) && s.fields != []
    ensures var v, r := Visible(s.fields, rank), Handled(s, rank, k);
            var t := s.(focus := Focused(v, s.focus));
            && (s.busy && !Closes(k) ==> r == (s, NoEvent))
            && (Closes(k) ==> r == (t, Cancel))
            && (!s.busy && k.Typed? && k.ctrl && k.c == LOWER_S ==> r == (t, Submit))
            && (!s.busy && k.Up? ==> r == (t.(focus := Next(v, t.focus, false)), NoEvent))
            && (!s.busy && k.Down? ==> r == (t.(focus := Next(v, t.focus, true)), NoEvent))
            && (!s.busy && k.Enter? ==>
                  r == if v != [] && v[|v| - 1] == t.focus then (t, Submit)
                       else (t.(focus := Next(v, t.focus, true)), NoEvent))
  {
    hide Shown, Visible, Next, SoundFields, Acyclic, Place, Changed, WithValue;
  }

  /** Any other key changes the focused field's value, or moves the focus on and changes none. */
  lemma ValueHandled(s: Now, rank: seq<nat>, k: Key)
    requires Acyclic(s.fields, rank) && SoundFields(s.fields) && s.fields != []
    requires ToValue(s, k)
    ensures var v := Visible(s.fields, rank);
            var focus := Focused(v, s.focus);
            && focus < |s.fields| && SoundValue(s.fields[focus].value)
            && var (value, moves) := Changed(s.fields[focus].value, k);
               Handled(s, rank, k) ==
               (if moves then Now(s.fields, Next(v, focus, true), s.busy, false)
                else Now(WithValue(s.fields, focus, value), focus, s.busy, false), NoEvent)
  {
    FocusIn(s, rank);
    var focus := Focused(Visible(s.fields, rank), s.focus);
    SoundAt(s.fields, focus);
    ValueKept(s.fields[focus].value, k);
    hide Shown, Visible, Next, SoundFields, Acyclic, Place, Changed;
    var (value, moves) := Changed(s.fields[focus].value, k);
    assert moves ==> WithValue(s.fields, focus, value) == s.fields;
  }

  lemma FocusIn(s: Now, rank: seq<nat>)
    requires Acyclic(s.fields, rank) && s.fields != []
    ensures Focused(Visible(s.fields, rank), s.focus) < |s.fields|
  {
    hide Shown, Visible;
  }

  lemma SoundAt(fields: seq<Field>, i: nat)
    requires SoundFields(fields) && i < |fields|
    ensures SoundValue(fields[i].value)
  {
  }
}
