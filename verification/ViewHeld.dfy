/** The viewer's mouse and keys: the input thread keeps the buttons it holds down in the guest, and lets
    go of them when the terminal loses focus and when it ends. */
module ViewHeld {
  import opened Keys
  import V = ViewInput

  type Physical = b: Button | !b.Wheel? witness Left

  datatype Holding = Holding(button: Physical, mods: set<Mod>)

  /** Where a report falls on the display, with the tablet's position there; nowhere before a frame is
      shown. */
  datatype Spot = Nowhere | Spot(x: nat, y: nat, on: bool)

  datatype Kind = Up(button: Physical) | Down(pressed: Physical) | Moved | Drag | Scroll(direction: string)

  /** `button` is the toolbar's modifier button under the pointer, if any. */
  datatype Report = Report(kind: Kind, row: nat, spot: Spot, mods: set<Mod>, button: set<Mod>)

  function Pos(s: Spot): Group {
    if s.Nowhere? then [] else [Abs(s.x, s.y)]
  }

  predicate On(s: Spot) { s.Spot? && s.on }

  /** The input thread: a hold for each press not yet released, the modifiers latched in the toolbar, and the
      groups sent so far. */
  datatype Thread = Thread(held: seq<Holding>, latch: set<Mod>, sent: seq<Group>)

  function Send(t: Thread, g: Group): Thread { t.(sent := t.sent + [g]) }

  /** The last of `held` with button `b`; the last of all if there is none. */
  predicate IsLast(held: seq<Holding>, b: Physical, i: nat) {
    && i < |held|
    && (forall j :: i < j < |held| && held[i].button == b ==> held[j].button != b)
    && (held[i].button != b ==> i == |held| - 1 && forall j :: 0 <= j < |held| ==> held[j].button != b)
  }

  function LastOf(held: seq<Holding>, b: Physical): (i: nat)
    requires held != []
    ensures IsLast(held, b, i)
  {
    Search(held, b, |held|)
  }

  function Search(held: seq<Holding>, b: Physical, n: nat): (i: nat)
    requires 0 < |held| && n <= |held|
    requires forall j :: n <= j < |held| ==> held[j].button != b
    ensures IsLast(held, b, i)
  {
    if n == 0 then |held| - 1
    else if held[n - 1].button == b then n - 1
    else Search(held, b, n - 1)
  }

  function Without(held: seq<Holding>, i: nat): seq<Holding>
    requires i < |held|
  {
    held[..i] + held[i + 1..]
  }

  function LetGo(h: Holding): Group {
    [Btn(h.button, false)] + Hold(h.mods, false)
  }

  function PressDown(h: Holding): Group {
    Hold(h.mods, true) + [Btn(h.button, true)]
  }

  function Turn(direction: string): Group {
    [Btn(Wheel(direction), true), Btn(Wheel(direction), false)]
  }

  function OnMouse(t: Thread, r: Report): Thread {
    match r.kind
    case Up(b) =>
      if t.held == [] then t
      else
        var i := LastOf(t.held, b);
        Send(t.(held := Without(t.held, i)), Pos(r.spot) + LetGo(t.held[i]))
    case Down(b) =>
      if b == Left && r.row == 0 then t.(latch := (t.latch - r.button) + (r.button - t.latch))
      else if On(r.spot) then
        var h := Holding(b, r.mods + t.latch);
        Send(t.(held := t.held + [h], latch := {}), Pos(r.spot) + PressDown(h))
      else t
    case Moved => if On(r.spot) then Send(t, Pos(r.spot)) else t
    case Drag => if t.held != [] then Send(t, Pos(r.spot)) else t
    case Scroll(d) => if On(r.spot) then Send(t, Pos(r.spot) + Turn(d)) else t
  }

  /** What each report does, and where it does nothing. */
  lemma ReportsAre(t: Thread, r: Report)
    ensures var u := OnMouse(t, r);
            var here := r.spot.Spot? && r.spot.on;
            var at := if r.spot.Spot? then [Abs(r.spot.x, r.spot.y)] else [];
            && (r.kind == Down(Left) && r.row == 0 ==>
                  u.sent == t.sent && u.held == t.held
                  && forall m :: m in u.latch <==> (m in t.latch) != (m in r.button))
            && (r.kind.Down? && !(r.kind.pressed == Left && r.row == 0) && !here ==> u == t)
            && (r.kind.Down? && !(r.kind.pressed == Left && r.row == 0) && here ==>
                  var h := Holding(r.kind.pressed, r.mods + t.latch);
                  u.held == t.held + [h] && u.latch == {} && u.sent == t.sent + [at + PressDown(h)])
            && (r.kind.Up? && t.held == [] ==> u == t)
            && (r.kind.Up? && t.held != [] ==>
                  exists i: nat :: i < |t.held| && u.held == t.held[..i] + t.held[i + 1..]
                    && u.latch == t.latch && u.sent == t.sent + [at + LetGo(t.held[i])]
                    && (if exists j :: 0 <= j < |t.held| && t.held[j].button == r.kind.button
                        then t.held[i].button == r.kind.button
                             && forall j :: i < j < |t.held| ==> t.held[j].button != r.kind.button
                        else i == |t.held| - 1))
            && (r.kind.Moved? ==> u == if here then t.(sent := t.sent + [at]) else t)
            && (r.kind.Drag? ==> u == if t.held != [] then t.(sent := t.sent + [at]) else t)
            && (r.kind.Scroll? ==> u == if here then t.(sent := t.sent + [at + Turn(r.kind.direction)]) else t)
  {
    hide LetGo, PressDown, Turn;
    if r.kind.Up? && t.held != [] {
      var i := LastOf(t.held, r.kind.button);
      assert IsLast(t.held, r.kind.button, i);
    }
  }

  /** A scroll is the wheel down and up once. */
  lemma TurnIs(direction: string)
    ensures Turn(direction) == [Btn(Wheel(direction), true), Btn(Wheel(direction), false)]
  {
  }

  function Released(held: seq<Holding>): seq<Group> {
    if held == [] then [] else [LetGo(held[|held| - 1])] + Released(held[..|held| - 1])
  }

  function OnRelease(t: Thread): Thread {
    t.(held := [], sent := t.sent + Released(t.held))
  }

  /** What the terminal reports: a key press, pasted characters, the mouse, and losing focus. */
  datatype Input = Press(mods: set<Mod>, code: Code) | Paste(taps: seq<(set<Mod>, Code)>)
                 | Mouse(report: Report) | FocusLost

  function Taps(taps: seq<(set<Mod>, Code)>): seq<Group> {
    seq(|taps|, i requires 0 <= i < |taps| => Tap(taps[i].0, taps[i].1))
  }

  function OnInput(t: Thread, e: Input): Thread {
    match e
    case Press(mods, code) => Send(t.(latch := {}), Tap(mods + t.latch, code))
    case Paste(taps) => t.(sent := t.sent + Taps(taps))
    case Mouse(r) => OnMouse(t, r)
    case FocusLost => OnRelease(t)
  }

  lemma JoinedInOrder(a: seq<Group>, g: Group, b: seq<Group>)
    ensures a + ([g] + b) == a + [g] + b
  {
  }

  class InputThread {
    var held: seq<Holding>
    var latch: set<Mod>
    var sent: seq<Group>

    constructor ()
      ensures State() == Thread([], {}, [])
    {
      held, latch, sent := [], {}, [];
    }

    function State(): Thread
      reads this
    {
      Thread(held, latch, sent)
    }

    method MouseEvent(r: Report)
      modifies this
      ensures State() == OnMouse(old(State()), r)
    {
      match r.kind {
        case Up(b) =>
          if held != [] {
            var n := |held|;
            while n > 0 && held[n - 1].button != b
              invariant 0 <= n <= |held|
              invariant forall j :: n <= j < |held| ==> held[j].button != b
              invariant Search(held, b, |held|) == Search(held, b, n)
            {
              n := n - 1;
            }
            var i := if n > 0 then n - 1 else |held| - 1;
            var h := held[i];
            held := held[..i] + held[i + 1..];
            sent := sent + [Pos(r.spot) + LetGo(h)];
          }
        case Down(b) =>
          if b == Left && r.row == 0 {
            latch := (latch - r.button) + (r.button - latch);
          } else if On(r.spot) {
            var h := Holding(b, r.mods + latch);
            latch := {};
            held := held + [h];
            sent := sent + [Pos(r.spot) + PressDown(h)];
          }
        case Moved =>
          if On(r.spot) {
            sent := sent + [Pos(r.spot)];
          }
        case Drag =>
          if held != [] {
            sent := sent + [Pos(r.spot)];
          }
        case Scroll(d) =>
          if On(r.spot) {
            sent := sent + [Pos(r.spot) + Turn(d)];
          }
      }
    }

    method Release()
      modifies this
      ensures State() == OnRelease(old(State()))
    {
      hide LetGo;
      ghost var before := sent + Released(held);
      while held != []
        invariant latch == old(latch)
        invariant sent + Released(held) == before
      {
        var h, rest := held[|held| - 1], held[..|held| - 1];
        assert Released(held) == [LetGo(h)] + Released(rest);
        JoinedInOrder(sent, LetGo(h), Released(rest));
        held := rest;
        sent := sent + [LetGo(h)];
      }
    }

    method Handle(e: Input)
      modifies this
      ensures State() == OnInput(old(State()), e)
    {
      match e {
        case Press(mods, code) =>
          sent := sent + [Tap(mods + latch, code)];
          latch := {};
        case Paste(taps) =>
          var i := 0;
          while i < |taps|
            invariant i <= |taps| && held == old(held) && latch == old(latch)
            invariant sent == old(sent) + Taps(taps)[..i]
          {
            sent := sent + [Tap(taps[i].0, taps[i].1)];
            i := i + 1;
          }
        case Mouse(r) =>
          MouseEvent(r);
        case FocusLost =>
          Release();
      }
    }
  }

  // ---- what is down in the guest

  datatype Part = KeyOf(code: Code) | ButtonOf(button: Button)

  function Change(down: set<Part>, e: Event): set<Part> {
    match e
    case Key(code, pressed) => if pressed then down + {KeyOf(code)} else down - {KeyOf(code)}
    case Btn(button, pressed) => if pressed then down + {ButtonOf(button)} else down - {ButtonOf(button)}
    case Abs(_, _) => down
  }

  /** The keys and buttons down after `events`, with `down` down before. */
  function Guest(down: set<Part>, events: seq<Event>): set<Part>
    decreases |events|
  {
    if events == [] then down else Guest(Change(down, events[0]), events[1..])
  }

  function ModParts(mods: set<Mod>): set<Part> { set m | m in mods :: KeyOf(Modifier(m)) }

  function Parts(h: Holding): set<Part> { ModParts(h.mods) + {ButtonOf(h.button)} }

  lemma {:induction false} GuestBoth(down: set<Part>, a: seq<Event>, b: seq<Event>)
    ensures Guest(down, a + b) == Guest(Guest(down, a), b)
    decreases |a|
  {
    if a == [] {
      assert a + b == b;
    } else {
      assert (a + b)[1..] == a[1..] + b;
      GuestBoth(Change(down, a[0]), a[1..], b);
    }
  }

  lemma GuestOne(down: set<Part>, e: Event)
    ensures Guest(down, [e]) == Change(down, e)
  {
    assert [e][1..] == [];
  }

  function Codes(mods: seq<Mod>): set<Part> { set m | m in mods :: KeyOf(Modifier(m)) }

  lemma {:induction false} PressesAdd(down: set<Part>, mods: seq<Mod>)
    ensures Guest(down, Presses(mods)) == down + Codes(mods)
    decreases |mods|
  {
    if mods != [] {
      var first, rest := mods[0], mods[1..];
      assert Presses(mods)[1..] == Presses(rest);
      PressesAdd(Change(down, Key(Modifier(first), true)), rest);
      assert Codes(mods) == {KeyOf(Modifier(first))} + Codes(rest);
    }
  }

  lemma {:induction false} ReleasesRemove(down: set<Part>, mods: seq<Mod>)
    ensures Guest(down, Releases(mods)) == down - Codes(mods)
    decreases |mods|
  {
    if mods != [] {
      var last, rest := mods[0], mods[1..];
      assert Releases(mods) == Releases(rest) + [Key(Modifier(last), false)];
      GuestBoth(down, Releases(rest), [Key(Modifier(last), false)]);
      ReleasesRemove(down, rest);
      GuestOne(down - Codes(rest), Key(Modifier(last), false));
      assert Codes(mods) == {KeyOf(Modifier(last))} + Codes(rest);
    }
  }

  lemma ChosenCodes(mods: set<Mod>)
    ensures Codes(Chosen(mods, EACH)) == ModParts(mods)
  {
    forall m | m in mods ensures m in EACH {
      match m
      case Cmd => assert EACH[0] == m;
      case Opt => assert EACH[1] == m;
      case Ctrl => assert EACH[2] == m;
      case Shift => assert EACH[3] == m;
    }
  }

  /** A tap lets go of all it presses. */
  lemma TapLeaves(down: set<Part>, mods: set<Mod>, code: Code)
    ensures Guest(down, Tap(mods, code)) <= down
  {
    hide Guest, Chosen;
    var chosen := Chosen(mods, EACH);
    var held := down + Codes(chosen);
    PressesAdd(down, chosen);
    var on, off := Key(code, true), Key(code, false);
    assert [on, off] == [on] + [off];
    GuestBoth(held, [on], [off]);
    GuestOne(held, on);
    GuestOne(Change(held, on), off);
    GuestBoth(down, Presses(chosen), [on, off]);
    GuestBoth(down, Presses(chosen) + [on, off], Releases(chosen));
    ReleasesRemove(Guest(down, Presses(chosen) + [on, off]), chosen);
  }

  lemma MoveLeaves(down: set<Part>, s: Spot, rest: seq<Event>)
    ensures Guest(down, Pos(s)) == down
    ensures Guest(down, Pos(s) + rest) == Guest(down, rest)
  {
    if s.Spot? {
      GuestOne(down, Abs(s.x, s.y));
    }
    GuestBoth(down, Pos(s), rest);
  }

  lemma LetGoFrees(down: set<Part>, h: Holding)
    ensures Guest(down, LetGo(h)) == down - Parts(h)
  {
    hide Guest, Chosen;
    var up := Btn(h.button, false);
    GuestBoth(down, [up], Hold(h.mods, false));
    GuestOne(down, up);
    ReleasesRemove(Change(down, up), Chosen(h.mods, EACH));
    ChosenCodes(h.mods);
  }

  lemma PressAdds(down: set<Part>, h: Holding)
    ensures Guest(down, PressDown(h)) == down + Parts(h)
  {
    hide Guest, Chosen;
    PressesAdd(down, Chosen(h.mods, EACH));
    ChosenCodes(h.mods);
    GuestBoth(down, Hold(h.mods, true), [Btn(h.button, true)]);
    GuestOne(Guest(down, Hold(h.mods, true)), Btn(h.button, true));
  }

  lemma TurnLeaves(down: set<Part>, direction: string)
    ensures Guest(down, Turn(direction)) <= down
  {
    var on, off := Btn(Wheel(direction), true), Btn(Wheel(direction), false);
    assert Turn(direction) == [on] + [off];
    GuestBoth(down, [on], [off]);
    GuestOne(down, on);
    GuestOne(Change(down, on), off);
  }

  // ---- what a group types or clicks

  /** The key `code` goes down once in `g`, at `i`, and up next: before it just `mods` go down, and after it
      they come up, the last first. */
  ghost predicate TypesAt(g: Group, i: nat, mods: set<Mod>, code: Code) {
    && |g| == 2 * i + 2 && g[i] == Key(code, true) && g[i + 1] == Key(code, false)
    && (forall j :: 0 <= j < i ==> g[j].Key? && g[j].down && g[j].code != code
                                   && g[2 * i + 1 - j] == Key(g[j].code, false))
    && (forall down :: Guest(down, g[..i]) == down + ModParts(mods))
    && (forall down :: Guest(down, g) == (down - {KeyOf(code)}) - ModParts(mods))
  }

  ghost predicate Types(g: Group, mods: set<Mod>, code: Code) {
    exists i: nat :: TypesAt(g, i, mods, code)
  }

  lemma ChosenAreDown(down: set<Part>, mods: set<Mod>)
    ensures Guest(down, Presses(Chosen(mods, EACH))) == down + ModParts(mods)
    ensures Guest(down, Releases(Chosen(mods, EACH))) == down - ModParts(mods)
  {
    hide Guest, Chosen;
    PressesAdd(down, Chosen(mods, EACH));
    ReleasesRemove(down, Chosen(mods, EACH));
    ChosenCodes(mods);
  }

  /** A tap types its key with just its modifiers. */
  lemma TapTypes(mods: set<Mod>, code: Code)
    requires !code.Modifier?
    ensures Types(Tap(mods, code), mods, code)
  {
    hide Guest, Chosen;
    var chosen := Chosen(mods, EACH);
    var g, i := Tap(mods, code), |chosen|;
    var on, off := Key(code, true), Key(code, false);
    assert g == Presses(chosen) + [on, off] + Releases(chosen);
    assert g[..i] == Presses(chosen);
    forall down ensures Guest(down, g[..i]) == down + ModParts(mods)
      ensures Guest(down, g) == (down - {KeyOf(code)}) - ModParts(mods) {
      ChosenAreDown(down, mods);
      var held := down + ModParts(mods);
      assert [on, off] == [on] + [off];
      GuestBoth(held, [on], [off]);
      GuestOne(held, on);
      GuestOne(Change(held, on), off);
      GuestBoth(down, Presses(chosen), [on, off]);
      GuestBoth(down, Presses(chosen) + [on, off], Releases(chosen));
      ChosenAreDown(Guest(down, Presses(chosen) + [on, off]), mods);
      assert held + {KeyOf(code)} - {KeyOf(code)} - ModParts(mods) == (down - {KeyOf(code)}) - ModParts(mods);
    }
    assert TypesAt(g, i, mods, code);
  }

  /** A key press sends one group, which types the key with the terminal's modifiers and the latched ones, and
      the latch is let go. */
  lemma PressTypes(t: Thread, mods: set<Mod>, code: Code)
    requires !code.Modifier?
    ensures var u := OnInput(t, Press(mods, code));
            && u.held == t.held && u.latch == {} && |u.sent| == |t.sent| + 1 && u.sent[..|t.sent|] == t.sent
            && Types(u.sent[|t.sent|], mods + t.latch, code)
  {
    hide Types, Tap;
    TapTypes(mods + t.latch, code);
  }

  /** A paste sends one group for each character, in order, which types its key with its modifiers. */
  lemma PasteTypes(t: Thread, taps: seq<(set<Mod>, Code)>)
    requires forall k :: 0 <= k < |taps| ==> !taps[k].1.Modifier?
    ensures var u := OnInput(t, Paste(taps));
            && u.held == t.held && u.latch == t.latch
            && |u.sent| == |t.sent| + |taps| && u.sent[..|t.sent|] == t.sent
            && forall k :: 0 <= k < |taps| ==> Types(u.sent[|t.sent| + k], taps[k].0, taps[k].1)
  {
    hide Types, Tap;
    forall k | 0 <= k < |taps| ensures Types(Tap(taps[k].0, taps[k].1), taps[k].0, taps[k].1) {
      TapTypes(taps[k].0, taps[k].1);
    }
  }

  /** A click's modifiers are down before its button is, and the button is up before they are. */
  lemma ClicksAreHeld(down: set<Part>, h: Holding)
    ensures var g := PressDown(h);
            g != [] && g[|g| - 1] == Btn(h.button, true) && Guest(down, g[..|g| - 1]) == down + ModParts(h.mods)
    ensures var g := LetGo(h);
            g != [] && g[0] == Btn(h.button, false) && Guest(down, g[1..]) == down - ModParts(h.mods)
  {
    hide Guest, Chosen;
    ChosenAreDown(down, h.mods);
    assert PressDown(h)[..|PressDown(h)| - 1] == Hold(h.mods, true);
    assert LetGo(h)[1..] == Hold(h.mods, false);
  }

  /** Presses and releases of a button click, which ends a batch; moves, scrolling and taps do not. Only a lone
      move is replaced by the next. */
  lemma ClicksAre(s: Spot, h: Holding, d: string, mods: set<Mod>, code: Code)
    ensures IsClick(Pos(s) + PressDown(h)) && IsClick(Pos(s) + LetGo(h))
    ensures !IsClick(Pos(s)) && !IsClick(Pos(s) + Turn(d)) && !IsClick(Tap(mods, code))
    ensures s.Spot? ==> IsMove(Pos(s))
    ensures !IsMove(Pos(s) + PressDown(h)) && !IsMove(Pos(s) + LetGo(h))
    ensures !IsMove(Pos(s) + Turn(d)) && !IsMove(Tap(mods, code))
  {
    hide Chosen;
    var down, up := Pos(s) + PressDown(h), Pos(s) + LetGo(h);
    assert down[|down| - 1] == Btn(h.button, true) && down[|down| - 1] in down;
    assert up[|Pos(s)|] == Btn(h.button, false) && up[|Pos(s)|] in up;
    assert forall e :: e in Tap(mods, code) ==> e.Key?;
  }

  // ---- streams on the way to the guest

  /** A group on its way may be dropped when it presses a key or only moves, never when it lets go. */
  predicate MayDrop(g: Group) {
    g == [] || IsMove(g) || V.PressesKey(g)
  }

  ghost predicate Lossy(full: seq<Group>, kept: seq<Group>)
    decreases |full|
  {
    if full == [] then kept == []
    else
      || (kept != [] && kept[0] == full[0] && Lossy(full[1..], kept[1..]))
      || (MayDrop(full[0]) && Lossy(full[1..], kept))
  }

  /** Whatever is down is held. */
  ghost predicate Covered(down: set<Part>, held: seq<Holding>) {
    forall p :: p in down ==> exists i :: 0 <= i < |held| && p in Parts(held[i])
  }

  /** Whatever has been dropped of a stream, what it leaves down is held. */
  ghost predicate AllCovered(sent: seq<Group>, held: seq<Holding>) {
    forall kept :: Lossy(sent, kept) ==> Covered(Guest({}, V.Flat(kept)), held)
  }

  lemma {:induction false} LossyEnd(full: seq<Group>, g: Group, kept: seq<Group>)
    requires Lossy(full + [g], kept)
    ensures || (kept != [] && kept[|kept| - 1] == g && Lossy(full, kept[..|kept| - 1]))
            || (MayDrop(g) && Lossy(full, kept))
    decreases |full|
  {
    hide MayDrop;
    var more := full + [g];
    if full == [] {
      assert more[1..] == [];
    } else {
      assert more[1..] == full[1..] + [g];
      if kept != [] && kept[0] == more[0] && Lossy(more[1..], kept[1..]) {
        LossyEnd(full[1..], g, kept[1..]);
        if |kept| > 1 {
          assert kept[1..][..|kept| - 2] == kept[..|kept| - 1][1..];
        }
      } else {
        LossyEnd(full[1..], g, kept);
      }
    }
  }

  /** Sending `g` keeps a stream covered, when `g` itself does and dropping it would. */
  lemma SendCovers(sent: seq<Group>, g: Group, held: seq<Holding>, held': seq<Holding>)
    requires AllCovered(sent, held)
    requires forall down :: Covered(down, held) ==> Covered(Guest(down, g), held')
    requires MayDrop(g) ==> forall down :: Covered(down, held) ==> Covered(down, held')
    ensures AllCovered(sent + [g], held')
  {
    hide Covered, Guest, MayDrop, Lossy;
    forall kept | Lossy(sent + [g], kept) ensures Covered(Guest({}, V.Flat(kept)), held') {
      LossyEnd(sent, g, kept);
      if kept != [] && kept[|kept| - 1] == g && Lossy(sent, kept[..|kept| - 1]) {
        var first := kept[..|kept| - 1];
        assert kept == first + [g];
        V.FlatMore(first, g);
        GuestBoth({}, V.Flat(first), g);
      }
    }
  }

  lemma SendHarmless(sent: seq<Group>, g: Group, held: seq<Holding>)
    requires AllCovered(sent, held)
    requires forall down :: Guest(down, g) <= down
    ensures AllCovered(sent + [g], held)
  {
    forall down | Covered(down, held) ensures Covered(Guest(down, g), held) {
      assert Guest(down, g) <= down;
    }
    SendCovers(sent, g, held, held);
  }

  lemma SendPress(sent: seq<Group>, s: Spot, h: Holding, held: seq<Holding>)
    requires AllCovered(sent, held)
    ensures AllCovered(sent + [Pos(s) + PressDown(h)], held + [h])
  {
    hide AllCovered, Guest, Parts, MayDrop, PressDown;
    var more, g := held + [h], Pos(s) + PressDown(h);
    assert forall i :: 0 <= i < |held| ==> more[i] == held[i];
    assert more[|held|] == h;
    forall down | Covered(down, held) ensures Covered(down, more) && Covered(Guest(down, g), more) {
      MoveLeaves(down, s, PressDown(h));
      PressAdds(down, h);
    }
    SendCovers(sent, g, held, more);
  }

  lemma SendLetGo(sent: seq<Group>, s: Spot, held: seq<Holding>, i: nat)
    requires AllCovered(sent, held) && i < |held|
    ensures AllCovered(sent + [Pos(s) + LetGo(held[i])], Without(held, i))
  {
    hide AllCovered, Guest, Parts, LetGo;
    var less, g := Without(held, i), Pos(s) + LetGo(held[i]);
    assert forall j :: 0 <= j < |held| && j != i ==> held[j] == less[if j < i then j else j - 1];
    forall down | Covered(down, held) ensures Covered(Guest(down, g), less) {
      MoveLeaves(down, s, LetGo(held[i]));
      LetGoFrees(down, held[i]);
    }
    LetGoIsKept(s, held[i]);
    SendCovers(sent, g, held, less);
  }

  lemma LetGoIsKept(s: Spot, h: Holding)
    ensures !MayDrop(Pos(s) + LetGo(h))
  {
    var g := Pos(s) + LetGo(h);
    assert g[|Pos(s)|] == Btn(h.button, false);
  }

  lemma {:induction false} SendReleased(sent: seq<Group>, held: seq<Holding>)
    requires AllCovered(sent, held)
    ensures AllCovered(sent + Released(held), [])
    decreases |held|
  {
    hide AllCovered, LetGo;
    if held == [] {
      assert sent + [] == sent;
    } else {
      var i := |held| - 1;
      SendLetGo(sent, Nowhere, held, i);
      assert Pos(Nowhere) + LetGo(held[i]) == LetGo(held[i]) && Without(held, i) == held[..i];
      SendReleased(sent + [LetGo(held[i])], held[..i]);
      JoinedInOrder(sent, LetGo(held[i]), Released(held[..i]));
    }
  }

  lemma {:induction false} SendTaps(sent: seq<Group>, taps: seq<(set<Mod>, Code)>, held: seq<Holding>)
    requires AllCovered(sent, held)
    ensures AllCovered(sent + Taps(taps), held)
    decreases |taps|
  {
    hide AllCovered, Tap, Guest;
    if taps == [] {
      assert sent + Taps(taps) == sent;
    } else {
      var n := |taps| - 1;
      SendTaps(sent, taps[..n], held);
      var g := Tap(taps[n].0, taps[n].1);
      forall down ensures Guest(down, g) <= down {
        TapLeaves(down, taps[n].0, taps[n].1);
      }
      SendHarmless(sent + Taps(taps[..n]), g, held);
      assert sent + Taps(taps) == sent + Taps(taps[..n]) + [g];
    }
  }

  lemma MouseCovers(t: Thread, r: Report)
    requires AllCovered(t.sent, t.held)
    ensures var u := OnMouse(t, r); AllCovered(u.sent, u.held)
  {
    hide AllCovered, Guest, LetGo, PressDown, Turn;
    match r.kind {
      case Up(b) =>
        if t.held != [] {
          SendLetGo(t.sent, r.spot, t.held, LastOf(t.held, b));
        }
      case Down(b) =>
        SendPress(t.sent, r.spot, Holding(b, r.mods + t.latch), t.held);
      case Scroll(d) =>
        forall down ensures Guest(down, Pos(r.spot) + Turn(d)) <= down {
          MoveLeaves(down, r.spot, Turn(d));
          TurnLeaves(down, d);
        }
        SendHarmless(t.sent, Pos(r.spot) + Turn(d), t.held);
      case _ =>
        forall down ensures Guest(down, Pos(r.spot)) <= down {
          MoveLeaves(down, r.spot, []);
        }
        SendHarmless(t.sent, Pos(r.spot), t.held);
    }
  }

  lemma InputCovers(t: Thread, e: Input)
    requires AllCovered(t.sent, t.held)
    ensures var u := OnInput(t, e); AllCovered(u.sent, u.held)
  {
    hide AllCovered, Guest, Tap, OnMouse, Released;
    match e {
      case Press(mods, code) =>
        forall down ensures Guest(down, Tap(mods + t.latch, code)) <= down {
          TapLeaves(down, mods + t.latch, code);
        }
        SendHarmless(t.sent, Tap(mods + t.latch, code), t.held);
      case Paste(taps) => SendTaps(t.sent, taps, t.held);
      case Mouse(r) => MouseCovers(t, r);
      case FocusLost => SendReleased(t.sent, t.held);
    }
  }

  // ---- each button's presses and releases, and the size of groups

  /** The presses of `b` less its releases. */
  function Net(events: seq<Event>, b: Button): int {
    if events == [] then 0
    else Net(events[1..], b) + if events[0].Btn? && events[0].button == b then if events[0].pressed then 1 else -1 else 0
  }

  function HeldCount(held: seq<Holding>, b: Button): nat {
    if held == [] then 0 else HeldCount(held[1..], b) + if held[0].button == b then 1 else 0
  }

  lemma {:induction false} NetBoth(x: seq<Event>, y: seq<Event>, b: Button)
    ensures Net(x + y, b) == Net(x, b) + Net(y, b)
  {
    if x == [] {
      assert x + y == y;
    } else {
      assert (x + y)[1..] == x[1..] + y;
      NetBoth(x[1..], y, b);
    }
  }

  lemma {:induction false} HeldBoth(x: seq<Holding>, y: seq<Holding>, b: Button)
    ensures HeldCount(x + y, b) == HeldCount(x, b) + HeldCount(y, b)
  {
    if x == [] {
      assert x + y == y;
    } else {
      assert (x + y)[1..] == x[1..] + y;
      HeldBoth(x[1..], y, b);
    }
  }

  predicate OnlyKeys(g: seq<Event>) { forall i :: 0 <= i < |g| ==> g[i].Key? }

  lemma {:induction false} KeysNetNothing(g: seq<Event>, b: Button)
    requires OnlyKeys(g)
    ensures Net(g, b) == 0
  {
    if g != [] {
      KeysNetNothing(g[1..], b);
    }
  }

  lemma NetPos(s: Spot, g: Group, b: Button)
    ensures Net(Pos(s) + g, b) == Net(g, b) && Net(Pos(s), b) == 0
  {
    NetBoth(Pos(s), g, b);
    if s.Spot? {
      assert Pos(s)[1..] == [];
    }
  }

  /** What a group sent with a button does to the button's count. */
  lemma NetOfHolding(h: Holding, b: Button)
    ensures Net(PressDown(h), b) == HeldCount([h], b) && Net(LetGo(h), b) == 0 - HeldCount([h], b)
  {
    hide Chosen;
    KeysNetNothing(Hold(h.mods, true), b);
    KeysNetNothing(Hold(h.mods, false), b);
    var on, off := Btn(h.button, true), Btn(h.button, false);
    NetBoth(Hold(h.mods, true), [on], b);
    NetBoth([off], Hold(h.mods, false), b);
    assert [on][1..] == [] && [off][1..] == [] && [h][1..] == [];
  }

  lemma NetOfTurn(d: string, b: Physical)
    ensures Net(Turn(d), b) == 0
  {
    var on, off := Btn(Wheel(d), true), Btn(Wheel(d), false);
    assert Turn(d) == [on, off] && [on, off][1..] == [off] && [off][1..] == [];
    assert Net([off], b) == 0;
  }

  /** Each button's presses sent, less its releases, are its count in `held`; and every group fits the
      guest's queue. */
  ghost predicate Counted(t: Thread) {
    && (forall b: Physical :: Net(V.Flat(t.sent), b) == HeldCount(t.held, b))
    && (forall i :: 0 <= i < |t.sent| ==> Slots(t.sent[i]) <= 14)
  }

  lemma SendCounted(t: Thread, g: Group, held: seq<Holding>)
    requires Counted(t) && Slots(g) <= 14
    requires forall b: Physical :: HeldCount(held, b) == HeldCount(t.held, b) + Net(g, b)
    ensures Counted(Send(t.(held := held), g))
  {
    hide Slots, HeldCount, Net;
    V.FlatMore(t.sent, g);
    forall b: Physical ensures Net(V.Flat(t.sent + [g]), b) == HeldCount(held, b) {
      NetBoth(V.Flat(t.sent), g, b);
    }
  }

  lemma GroupFits(s: Spot, h: Holding, d: string)
    ensures Slots(Pos(s) + PressDown(h)) <= 14 && Slots(Pos(s) + LetGo(h)) <= 14
    ensures Slots(Pos(s)) <= 14 && Slots(Pos(s) + Turn(d)) <= 14
  {
    hide Hold;
    TapFits(h.mods, Plain(""), true);
    TapFits(h.mods, Plain(""), false);
    var on, off := Btn(h.button, true), Btn(h.button, false);
    SlotsOfBoth(Hold(h.mods, true), [on]);
    SlotsOfBoth([off], Hold(h.mods, false));
    SlotsOfBoth(Pos(s), PressDown(h));
    SlotsOfBoth(Pos(s), LetGo(h));
    SlotsOfBoth(Pos(s), Turn(d));
    assert [on][1..] == [] && [off][1..] == [];
    assert Turn(d)[1..] == [Btn(Wheel(d), false)] && [Btn(Wheel(d), false)][1..] == [];
    if s.Spot? {
      assert Pos(s)[1..] == [];
    }
  }

  lemma LetGoCounted(t: Thread, s: Spot, i: nat)
    requires Counted(t) && i < |t.held|
    ensures Counted(Send(t.(held := Without(t.held, i)), Pos(s) + LetGo(t.held[i])))
  {
    hide Counted, Slots, Net, HeldCount, LetGo;
    var h := t.held[i];
    forall b: Physical ensures HeldCount(Without(t.held, i), b) == HeldCount(t.held, b) + Net(Pos(s) + LetGo(h), b) {
      NetPos(s, LetGo(h), b);
      NetOfHolding(h, b);
      assert t.held == t.held[..i] + ([h] + t.held[i + 1..]);
      HeldBoth(t.held[..i], [h] + t.held[i + 1..], b);
      HeldBoth([h], t.held[i + 1..], b);
      HeldBoth(t.held[..i], t.held[i + 1..], b);
    }
    GroupFits(s, h, "");
    SendCounted(t, Pos(s) + LetGo(h), Without(t.held, i));
  }

  lemma PressCounted(t: Thread, s: Spot, h: Holding)
    requires Counted(t)
    ensures Counted(Send(t.(held := t.held + [h]), Pos(s) + PressDown(h)))
  {
    hide Counted, Slots, Net, HeldCount, PressDown;
    forall b: Physical ensures HeldCount(t.held + [h], b) == HeldCount(t.held, b) + Net(Pos(s) + PressDown(h), b) {
      NetPos(s, PressDown(h), b);
      NetOfHolding(h, b);
      HeldBoth(t.held, [h], b);
    }
    GroupFits(s, h, "");
    SendCounted(t, Pos(s) + PressDown(h), t.held + [h]);
  }

  lemma TapCounted(t: Thread, mods: set<Mod>, code: Code)
    requires Counted(t)
    ensures Counted(Send(t, Tap(mods, code)))
  {
    hide Counted, Slots, Net, HeldCount, Chosen;
    forall b: Physical ensures HeldCount(t.held, b) == HeldCount(t.held, b) + Net(Tap(mods, code), b) {
      KeysNetNothing(Tap(mods, code), b);
    }
    TapFits(mods, code, true);
    SendCounted(t, Tap(mods, code), t.held);
  }

  lemma SpotCounted(t: Thread, s: Spot, d: string)
    requires Counted(t)
    ensures Counted(Send(t, Pos(s))) && Counted(Send(t, Pos(s) + Turn(d)))
  {
    hide Counted, Slots, Net, HeldCount, Turn;
    forall b: Physical ensures Net(Pos(s), b) == 0 && Net(Pos(s) + Turn(d), b) == 0 {
      NetPos(s, Turn(d), b);
      NetOfTurn(d, b);
    }
    GroupFits(s, Holding(Left, {}), d);
    SendCounted(t, Pos(s), t.held);
    SendCounted(t, Pos(s) + Turn(d), t.held);
  }

  lemma {:induction false} ReleaseCounted(t: Thread)
    requires Counted(t)
    ensures Counted(OnRelease(t))
    decreases |t.held|
  {
    hide Counted, LetGo;
    if t.held != [] {
      var i := |t.held| - 1;
      var h := t.held[i];
      LetGoCounted(t, Nowhere, i);
      assert Pos(Nowhere) + LetGo(h) == LetGo(h) && Without(t.held, i) == t.held[..i];
      ReleaseCounted(Send(t.(held := t.held[..i]), LetGo(h)));
      JoinedInOrder(t.sent, LetGo(h), Released(t.held[..i]));
    } else {
      assert t.sent + [] == t.sent;
    }
  }

  lemma {:induction false} TapsCounted(t: Thread, taps: seq<(set<Mod>, Code)>)
    requires Counted(t)
    ensures Counted(t.(sent := t.sent + Taps(taps)))
    decreases |taps|
  {
    hide Counted, Tap;
    if taps == [] {
      assert t.sent + Taps(taps) == t.sent;
    } else {
      var n := |taps| - 1;
      TapsCounted(t, taps[..n]);
      TapCounted(t.(sent := t.sent + Taps(taps[..n])), taps[n].0, taps[n].1);
      assert t.sent + Taps(taps) == t.sent + Taps(taps[..n]) + [Tap(taps[n].0, taps[n].1)];
    }
  }

  lemma LatchCounted(t: Thread, latch: set<Mod>)
    requires Counted(t)
    ensures Counted(t.(latch := latch))
  {
  }

  lemma InputCounted(t: Thread, e: Input)
    requires Counted(t)
    ensures Counted(OnInput(t, e))
  {
    hide Counted, Tap, LetGo, PressDown, Turn, Released, Taps;
    match e {
      case Press(mods, code) =>
        LatchCounted(t, {});
        TapCounted(t.(latch := {}), mods + t.latch, code);
      case Paste(taps) => TapsCounted(t, taps);
      case FocusLost => ReleaseCounted(t);
      case Mouse(r) =>
        match r.kind {
          case Up(b) =>
            if t.held != [] {
              LetGoCounted(t, r.spot, LastOf(t.held, b));
            }
          case Down(b) =>
            LatchCounted(t, (t.latch - r.button) + (r.button - t.latch));
            LatchCounted(t, {});
            PressCounted(t.(latch := {}), r.spot, Holding(b, r.mods + t.latch));
          case Scroll(d) => SpotCounted(t, r.spot, d);
          case _ => SpotCounted(t, r.spot, "");
        }
    }
  }

  function OnInputs(t: Thread, inputs: seq<Input>): Thread
    decreases |inputs|
  {
    if inputs == [] then t else OnInputs(OnInput(t, inputs[0]), inputs[1..])
  }

  lemma {:induction false} InputsCounted(t: Thread, inputs: seq<Input>)
    requires Counted(t)
    ensures Counted(OnInputs(t, inputs))
    decreases |inputs|
  {
    hide Counted, OnInput;
    if inputs != [] {
      InputCounted(t, inputs[0]);
      InputsCounted(OnInput(t, inputs[0]), inputs[1..]);
    }
  }

  /** Over every sequence of inputs: each button's presses less its releases are its count in `held`, and
      no group is bigger than the guest's queue allows for. */
  lemma PressesAreHeld(inputs: seq<Input>, b: Physical)
    ensures var t := OnInputs(Thread([], {}, []), inputs);
            && Net(V.Flat(t.sent), b) == HeldCount(t.held, b)
            && forall i :: 0 <= i < |t.sent| ==> Slots(t.sent[i]) <= 14
  {
    hide Slots, OnInputs;
    InputsCounted(Thread([], {}, []), inputs);
  }
}
