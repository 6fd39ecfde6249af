/** The input events the viewer sends a guest, and the slots they take of its keyboard's queue. */
module Keys {

  datatype Mod = Cmd | Opt | Ctrl | Shift

  /** A US keyboard's keys: the modifiers', those behind the 0xe0 prefix, and the rest. */
  datatype Code = Modifier(mod: Mod) | Extended(name: string) | Plain(name: string)

  datatype Button = Left | Right | Middle | Wheel(direction: string)

  datatype Event = Key(code: Code, down: bool) | Btn(button: Button, pressed: bool) | Abs(x: nat, y: nat)

  type Group = seq<Event>

  /** Modifiers in the order they go down. */
  const EACH: seq<Mod> := [Cmd, Opt, Ctrl, Shift]

  /** Command's key is behind the prefix too. */
  function SlotsOf(e: Event): nat {
    match e
    case Key(code, _) => if code.Extended? || code == Modifier(Cmd) then 2 else 1
    case _ => 0
  }

  function Slots(g: Group): nat {
    if g == [] then 0 else SlotsOf(g[0]) + Slots(g[1..])
  }

  predicate IsClickEvent(e: Event) { e.Btn? && !e.button.Wheel? }

  predicate IsClick(g: Group) { exists e :: e in g && IsClickEvent(e) }

  predicate IsMove(g: Group) { |g| == 1 && g[0].Abs? }

  function Chosen(mods: set<Mod>, from: seq<Mod>): (r: seq<Mod>)
    ensures forall m :: m in r <==> m in from && m in mods
  {
    if from == [] then [] else (if from[0] in mods then [from[0]] else []) + Chosen(mods, from[1..])
  }

  function Presses(mods: seq<Mod>): (g: Group)
    ensures |g| == |mods|
    ensures forall i :: 0 <= i < |g| ==> g[i] == Key(Modifier(mods[i]), true)
  {
    seq(|mods|, i requires 0 <= i < |mods| => Key(Modifier(mods[i]), true))
  }

  /** Releases, the last pressed first. */
  function Releases(mods: seq<Mod>): (g: Group)
    ensures |g| == |mods|
    ensures forall i :: 0 <= i < |g| ==> g[i] == Key(Modifier(mods[|mods| - 1 - i]), false)
  {
    seq(|mods|, i requires 0 <= i < |mods| => Key(Modifier(mods[|mods| - 1 - i]), false))
  }

  function Tap(mods: set<Mod>, code: Code): Group {
    Presses(Chosen(mods, EACH)) + [Key(code, true), Key(code, false)] + Releases(Chosen(mods, EACH))
  }

  /** The modifiers of a button held: their presses, and their releases turned about. */
  function Hold(mods: set<Mod>, down: bool): Group {
    if down then Presses(Chosen(mods, EACH)) else Releases(Chosen(mods, EACH))
  }

  lemma {:induction false} SlotsOfBoth(a: Group, b: Group)
    ensures Slots(a + b) == Slots(a) + Slots(b)
  {
    if a == [] {
      assert a + b == b;
    } else {
      assert (a + b)[1..] == a[1..] + b;
      SlotsOfBoth(a[1..], b);
    }
  }

  function Cost(mods: seq<Mod>): nat {
    if mods == [] then 0 else (if mods[0] == Cmd then 2 else 1) + Cost(mods[1..])
  }

  lemma {:induction false} PressesCost(mods: seq<Mod>)
    ensures Slots(Presses(mods)) == Cost(mods) && Slots(Releases(mods)) == Cost(mods)
  {
    if mods != [] {
      var first, rest := mods[0], mods[1..];
      PressesCost(rest);
      assert Presses(mods) == [Key(Modifier(first), true)] + Presses(rest);
      assert Releases(mods) == Releases(rest) + [Key(Modifier(first), false)];
      SlotsOfBoth(Releases(rest), [Key(Modifier(first), false)]);
    }
  }

  lemma {:induction false} ChosenCost(mods: set<Mod>, from: seq<Mod>)
    ensures Cost(Chosen(mods, from)) <= Cost(from)
  {
    if from != [] {
      ChosenCost(mods, from[1..]);
      if from[0] in mods {
        assert Chosen(mods, from)[1..] == Chosen(mods, from[1..]);
      } else {
        assert Chosen(mods, from) == Chosen(mods, from[1..]);
      }
    }
  }

  lemma EachCost()
    ensures Cost(EACH) == 5
  {
    assert EACH[1..] == [Opt, Ctrl, Shift] && [Opt, Ctrl, Shift][1..] == [Ctrl, Shift];
    assert [Ctrl, Shift][1..] == [Shift];
    assert Cost([Shift]) == 1 && Cost([Ctrl, Shift]) == 2 && Cost([Opt, Ctrl, Shift]) == 3;
  }

  /** What a tap takes: its modifiers' slots twice, and the key's twice. */
  lemma TapCost(mods: set<Mod>, code: Code)
    ensures Slots(Tap(mods, code)) == 2 * Cost(Chosen(mods, EACH)) + 2 * SlotsOf(Key(code, true))
  {
    hide Chosen, Cost;
    var chosen := Chosen(mods, EACH);
    PressesCost(chosen);
    var key := [Key(code, true), Key(code, false)];
    assert key[1..] == [Key(code, false)];
    assert Slots(key[1..]) == SlotsOf(Key(code, false));
    SlotsOfBoth(Presses(chosen) + key, Releases(chosen));
    SlotsOfBoth(Presses(chosen), key);
  }

  /** A tap of any key with any modifiers takes 14 slots at most, and holding modifiers takes five. */
  lemma TapFits(mods: set<Mod>, code: Code, down: bool)
    ensures Slots(Tap(mods, code)) <= 14 && Slots(Hold(mods, down)) <= 5
  {
    hide Slots, Chosen, Cost, Tap;
    TapCost(mods, code);
    EachCost();
    ChosenCost(mods, EACH);
    PressesCost(Chosen(mods, EACH));
  }

  /** The bound of 14 is reached. */
  lemma WidestTap(name: string)
    ensures Slots(Tap({Cmd, Opt, Ctrl, Shift}, Extended(name))) == 14
  {
    hide Slots, Chosen, Cost, Tap;
    TapCost({Cmd, Opt, Ctrl, Shift}, Extended(name));
    AllChosen({Cmd, Opt, Ctrl, Shift}, EACH);
    EachCost();
  }

  lemma {:induction false} AllChosen(mods: set<Mod>, from: seq<Mod>)
    requires forall m :: m in from ==> m in mods
    ensures Chosen(mods, from) == from
  {
    if from != [] {
      AllChosen(mods, from[1..]);
    }
  }
}
