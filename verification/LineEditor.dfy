/** A form's text field: UTF-8 edited by byte indices, with the cursor counted in characters. */
module LineEditor {
  import opened Bytes

  /** A Unicode scalar value. */
  type Scalar = c: nat | c < 0x11_0000 && !(0xd800 <= c < 0xe000)

  const SLASH: Scalar := 0x2f
  const SPACE: Scalar := 0x20

  /** The UTF-8 form of a character (section 3 of RFC 3629). */
  function Enc(c: Scalar): (b: seq<byte>)
    ensures 1 <= |b| == Width(b[0])
    ensures c < 0x80 ==> b == [c]
    ensures c >= 0x80 ==> b[0] >= 0xc0 && forall i :: 0 <= i < |b| ==> b[i] >= 0x80
    ensures forall i :: 0 < i < |b| ==> IsContinuation(b[i])
  {
    if c < 0x80 then [c]
    else if c < 0x800 then [0xc0 + c / 0x40, 0x80 + c % 0x40]
    else if c < 0x1_0000 then [0xe0 + c / 0x1000, 0x80 + c / 0x40 % 0x40, 0x80 + c % 0x40]
    else [0xf0 + c / 0x4_0000, 0x80 + c / 0x1000 % 0x40, 0x80 + c / 0x40 % 0x40, 0x80 + c % 0x40]
  }

  /** What bytes in UTF-8 stand for: the first's bits after its mark, then six of each other. */
  function Dec(b: seq<byte>): int
    requires 1 <= |b| <= 4
  {
    if |b| == 1 then b[0]
    else if |b| == 2 then 0x40 * From(b[0], 0xc0) + From(b[1], 0x80)
    else if |b| == 3 then 0x1000 * From(b[0], 0xe0) + 0x40 * From(b[1], 0x80) + From(b[2], 0x80)
    else 0x4_0000 * From(b[0], 0xf0) + 0x1000 * From(b[1], 0x80) + 0x40 * From(b[2], 0x80) + From(b[3], 0x80)
  }

  function From(b: int, mark: int): int { b - mark }

  /** A character's form decodes to it, and is the shortest of the four. */
  lemma EncDecodes(c: Scalar)
    ensures |Enc(c)| == if c < 0x80 then 1 else if c < 0x800 then 2 else if c < 0x1_0000 then 3 else 4
    ensures Dec(Enc(c)) == c
  {
    hide Width, IsContinuation;
    SixBits(c);
    SixBits(c / 0x40);
    SixBits(c / 0x1000);
    assert c / 0x40 / 0x40 == c / 0x1000 && c / 0x1000 / 0x40 == c / 0x4_0000;
  }

  lemma SixBits(c: nat)
    ensures c == 0x40 * (c / 0x40) + c % 0x40
  {
  }

  /** How long the character that starts with `b` is. */
  function Width(b: byte): nat {
    if b < 0x80 then 1 else if b < 0xe0 then 2 else if b < 0xf0 then 3 else 4
  }

  predicate IsContinuation(b: byte) { 0x80 <= b < 0xc0 }

  function Encode(s: seq<Scalar>): seq<byte> {
    if s == [] then [] else Enc(s[0]) + Encode(s[1..])
  }

  /** A character starts at `o`, or the text ends. */
  predicate Boundary(t: seq<byte>, o: nat) {
    o <= |t| && (o < |t| ==> !IsContinuation(t[o]))
  }

  /** Where character `n` starts; the text's end past the last. */
  function ByteAt(t: seq<byte>, n: nat): (o: nat)
    ensures o <= |t|
  {
    if n == 0 || t == [] then 0
    else if Width(t[0]) > |t| then |t|
    else Width(t[0]) + ByteAt(t[Width(t[0])..], n - 1)
  }

  function CountChars(t: seq<byte>): nat {
    if t == [] then 0 else if Width(t[0]) > |t| then 1 else 1 + CountChars(t[Width(t[0])..])
  }

  /** Only at a character's start, as the language demands. */
  function InsertAt(t: seq<byte>, o: nat, c: Scalar): seq<byte>
    requires Boundary(t, o)
  {
    t[..o] + Enc(c) + t[o..]
  }

  function RemoveAt(t: seq<byte>, o: nat): seq<byte>
    requires Boundary(t, o) && o < |t| && o + Width(t[o]) <= |t|
  {
    t[..o] + t[o + Width(t[o])..]
  }

  function RemoveRange(t: seq<byte>, o: nat, p: nat): seq<byte>
    requires Boundary(t, o) && Boundary(t, p) && o <= p
  {
    t[..o] + t[p..]
  }

  // ---- encoded text

  lemma {:induction false} EncodeBoth(a: seq<Scalar>, b: seq<Scalar>)
    ensures Encode(a + b) == Encode(a) + Encode(b)
  {
    hide Enc;
    if a == [] {
      assert a + b == b;
    } else {
      assert (a + b)[1..] == a[1..] + b;
      EncodeBoth(a[1..], b);
    }
  }

  lemma {:induction false} EncodedAt(s: seq<Scalar>, n: nat)
    requires n <= |s|
    ensures ByteAt(Encode(s), n) == |Encode(s[..n])| <= |Encode(s)|
    ensures Encode(s) == Encode(s[..n]) + Encode(s[n..])
  {
    hide Enc, Width;
    assert s == s[..n] + s[n..];
    EncodeBoth(s[..n], s[n..]);
    if n > 0 {
      var t := Encode(s);
      EncodedAt(s[1..], n - 1);
      assert t[|Enc(s[0])|..] == Encode(s[1..]);
      assert s[..n][1..] == s[1..][..n - 1] && s[..n][0] == s[0];
    }
  }

  lemma {:induction false} EncodedCount(s: seq<Scalar>)
    ensures CountChars(Encode(s)) == |s|
  {
    hide Enc, Width;
    if s != [] {
      EncodedCount(s[1..]);
      assert Encode(s)[|Enc(s[0])|..] == Encode(s[1..]);
    }
  }

  lemma Middle(a: seq<byte>, e: seq<byte>, b: seq<byte>)
    requires e != []
    ensures var t := a + (e + b); t[|a|] == e[0] && t[|a|..|a| + |e|] == e && t[|a| + |e|..] == b && t[..|a|] == a
  {
  }

  /** Characters' places are boundaries. */
  lemma EncodedBoundary(s: seq<Scalar>, n: nat)
    requires n <= |s|
    ensures var t, o := Encode(s), ByteAt(Encode(s), n);
            && Boundary(t, o)
            && (n < |s| ==> o + |Enc(s[n])| <= |t| && t[o..o + |Enc(s[n])|] == Enc(s[n]) && t[o] == Enc(s[n])[0])
  {
    hide Enc, Width, ByteAt, Encode;
    EncodedAt(s, n);
    if n < |s| {
      EncodedHead(s[n..]);
      Middle(Encode(s[..n]), Enc(s[n]), Encode(s[n..][1..]));
    } else {
      assert s[..n] == s;
    }
  }

  lemma EncodedHead(s: seq<Scalar>)
    requires s != []
    ensures Encode(s) == Enc(s[0]) + Encode(s[1..])
  {
  }

  // ---- a list of characters, with a cursor

  datatype Line = Line(chars: seq<Scalar>, cursor: nat)

  predicate Sound(l: Line) { l.cursor <= |l.chars| }

  /** An edit: WordBack is Ctrl-W, which in a path removes its last part; Completed has the path completed
      as a shell would. */
  datatype Edit = Start | End | Clear | WordBack | Insert(c: Scalar) | Backspace | Delete | Back | Forth
                | Completed(path: seq<Scalar>)

  function Trimmed(s: seq<Scalar>): (r: seq<Scalar>)
    ensures r <= s
  {
    if s != [] && s[|s| - 1] == SLASH then Trimmed(s[..|s| - 1]) else s
  }

  predicate Separates(c: nat) { c == SLASH || c == SPACE }

  /** One past the last separator. */
  function AfterLast(s: seq<Scalar>): (n: nat)
    ensures n <= |s|
  {
    if s == [] then 0 else if Separates(s[|s| - 1]) then |s| else AfterLast(s[..|s| - 1])
  }

  function Edited(l: Line, e: Edit): (r: Line)
    requires Sound(l)
    ensures Sound(r)
  {
    var s, n := l.chars, l.cursor;
    match e
    case Start => Line(s, 0)
    case End => Line(s, |s|)
    case Clear => Line([], 0)
    case WordBack => var cut := AfterLast(Trimmed(s[..n])); Line(s[..cut] + s[n..], cut)
    case Insert(c) => Line(s[..n] + [c] + s[n..], n + 1)
    case Backspace => if n > 0 then Line(s[..n - 1] + s[n..], n - 1) else l
    case Delete => if n < |s| then Line(s[..n] + s[n + 1..], n) else l
    case Back => Line(s, if n > 0 then n - 1 else 0)
    case Forth => Line(s, if n < |s| then n + 1 else n)
    case Completed(path) => Line(path, |path|)
  }

  /** Backspace undoes typing, and so does Delete from where the cursor was. */
  lemma EditsUndo(l: Line, c: Scalar)
    requires Sound(l)
    ensures Edited(Edited(l, Insert(c)), Backspace) == l
    ensures Edited(Edited(Edited(l, Insert(c)), Back), Delete) == l
  {
    var s, n := l.chars, l.cursor;
    var t := s[..n] + [c] + s[n..];
    assert t[..n] == s[..n] && t[n + 1..] == s[n..];
    assert s[..n] + s[n..] == s;
  }

  /** The characters of `t` typed one after another. */
  function TypeAll(l: Line, t: seq<Scalar>): (r: Line)
    requires Sound(l)
    ensures Sound(r)
    decreases |t|
  {
    if t == [] then l else TypeAll(Edited(l, Insert(t[0])), t[1..])
  }

  /** What is typed stands at the cursor, in order, and the cursor after it. */
  lemma {:induction false} TypingIs(l: Line, t: seq<Scalar>)
    requires Sound(l)
    ensures TypeAll(l, t) == Line(l.chars[..l.cursor] + t + l.chars[l.cursor..], l.cursor + |t|)
    decreases |t|
  {
    var s, n := l.chars, l.cursor;
    if t == [] {
      assert s[..n] + t + s[n..] == s;
    } else {
      var r := Edited(l, Insert(t[0]));
      TypingIs(r, t[1..]);
      assert r.chars[..n + 1] == s[..n] + [t[0]] && r.chars[n + 1..] == s[n..];
      assert s[..n] + [t[0]] + t[1..] + s[n..] == s[..n] + t + s[n..];
    }
  }

  /** Typed after Home a text stands first, after End last, and after Ctrl-U alone; Left and Right undo each
      other within the line; a completed path is typed on at its end. */
  lemma KeysMove(l: Line, t: seq<Scalar>, path: seq<Scalar>)
    requires Sound(l)
    ensures TypeAll(Edited(l, Start), t).chars == t + l.chars
    ensures TypeAll(Edited(l, End), t).chars == l.chars + t
    ensures TypeAll(Edited(l, Clear), t).chars == t
    ensures TypeAll(Edited(l, Completed(path)), t).chars == path + t
    ensures l.cursor > 0 ==> Edited(l, Back).cursor < l.cursor && Edited(Edited(l, Back), Forth) == l
    ensures l.cursor < |l.chars| ==> Edited(l, Forth).cursor > l.cursor && Edited(Edited(l, Forth), Back) == l
    ensures l.cursor == 0 ==> Edited(l, Back) == l && Edited(l, Backspace) == l
    ensures l.cursor == |l.chars| ==> Edited(l, Forth) == l && Edited(l, Delete) == l
  {
    hide TypeAll;
    TypingIs(Edited(l, Start), t);
    TypingIs(Edited(l, End), t);
    TypingIs(Edited(l, Clear), t);
    TypingIs(Edited(l, Completed(path)), t);
  }

  /** Ctrl-W takes the slashes before the cursor, and the word before them, of no slash and no space. */
  lemma WordTaken(head: seq<Scalar>, word: seq<Scalar>, slashes: seq<Scalar>, rest: seq<Scalar>)
    requires head == [] || head[|head| - 1] == 0x2f || head[|head| - 1] == 0x20
    requires word != [] && 0x2f !in word && 0x20 !in word
    requires forall i :: 0 <= i < |slashes| ==> slashes[i] == 0x2f
    ensures Edited(Line(head + word + slashes + rest, |head| + |word| + |slashes|), WordBack)
         == Line(head + rest, |head|)
  {
    var s, n := head + word + slashes + rest, |head| + |word| + |slashes|;
    assert s[..n] == head + word + slashes && s[n..] == rest && s[..|head|] == head;
    SlashesTrimmed(head + word, slashes);
    WordPassed(head, word);
  }

  lemma {:induction false} SlashesTrimmed(s: seq<Scalar>, slashes: seq<Scalar>)
    requires s != [] && s[|s| - 1] != SLASH && forall i :: 0 <= i < |slashes| ==> slashes[i] == SLASH
    ensures Trimmed(s + slashes) == s
    decreases |slashes|
  {
    if slashes == [] {
      assert s + slashes == s;
    } else {
      var k := |slashes| - 1;
      SlashesTrimmed(s, slashes[..k]);
      assert (s + slashes)[..|s| + k] == s + slashes[..k];
      assert (s + slashes)[|s| + k] == slashes[k];
    }
  }

  lemma {:induction false} WordPassed(head: seq<Scalar>, word: seq<Scalar>)
    requires head == [] || Separates(head[|head| - 1])
    requires SLASH !in word && SPACE !in word
    ensures AfterLast(head + word) == |head|
    decreases |word|
  {
    if word == [] {
      assert head + word == head;
    } else {
      var k := |word| - 1;
      assert word[k] in word;
      WordPassed(head, word[..k]);
      assert (head + word)[..|head| + k] == head + word[..k];
      assert (head + word)[|head| + k] == word[k];
    }
  }

  // ---- the same on bytes

  function TrimmedBytes(t: seq<byte>): (r: seq<byte>)
    ensures r <= t
  {
    if t != [] && t[|t| - 1] == SLASH then TrimmedBytes(t[..|t| - 1]) else t
  }

  function AfterLastByte(t: seq<byte>): (n: nat)
    ensures n <= |t|
  {
    if t == [] then 0 else if Separates(t[|t| - 1]) then |t| else AfterLastByte(t[..|t| - 1])
  }

  lemma EncodeMore(s: seq<Scalar>)
    requires s != []
    ensures Encode(s) == Encode(s[..|s| - 1]) + Enc(s[|s| - 1])
  {
    hide Enc, Width, Encode;
    var first, last := s[..|s| - 1], s[|s| - 1];
    assert first + [last] == s;
    EncodeBoth(first, [last]);
    EncodeOne(last);
  }

  lemma EncodeOne(c: Scalar)
    ensures Encode([c]) == Enc(c)
  {
    hide Enc, Width;
    assert [c][1..] == [] && Enc(c) + [] == Enc(c);
  }

  lemma {:induction false} TrimEncoded(s: seq<Scalar>)
    ensures TrimmedBytes(Encode(s)) == Encode(Trimmed(s))
  {
    hide Enc, Width, Encode;
    if s != [] {
      var n := |s| - 1;
      var a, e := Encode(s[..n]), Enc(s[n]);
      EncodeMore(s);
      assert (a + e)[|a + e| - 1] == e[|e| - 1];
      if s[n] == SLASH {
        TrimEncoded(s[..n]);
        assert (a + e)[..|a + e| - 1] == a;
      }
    } else {
      NoBytes();
    }
  }

  lemma NoBytes()
    ensures Encode([]) == []
  {
  }

  lemma {:induction false} NoSeparator(a: seq<byte>, e: seq<byte>)
    requires forall i :: 0 <= i < |e| ==> !Separates(e[i])
    ensures AfterLastByte(a + e) == AfterLastByte(a)
  {
    if e == [] {
      assert a + e == a;
    } else {
      var n := |e| - 1;
      NoSeparator(a, e[..n]);
      assert (a + e)[..|a| + n] == a + e[..n];
    }
  }

  lemma {:induction false} AfterLastEncoded(s: seq<Scalar>)
    ensures AfterLastByte(Encode(s)) == |Encode(s[..AfterLast(s)])|
  {
    hide Enc, Width, Encode;
    if s != [] {
      var n := |s| - 1;
      var a, e := Encode(s[..n]), Enc(s[n]);
      EncodeMore(s);
      if Separates(s[n]) {
        assert (a + e)[|a + e| - 1] == s[n] && s[..n + 1] == s;
      } else {
        NoSeparator(a, e);
        AfterLastEncoded(s[..n]);
        assert s[..n][..AfterLast(s[..n])] == s[..AfterLast(s[..n])];
      }
    } else {
      NoBytes();
      assert s[..0] == [];
    }
  }

  lemma PrefixEncoded(s: seq<Scalar>, n: nat)
    requires n <= |s|
    ensures Encode(s)[..ByteAt(Encode(s), n)] == Encode(s[..n])
    ensures Encode(s)[ByteAt(Encode(s), n)..] == Encode(s[n..])
  {
    hide Enc, Width, Encode, ByteAt;
    EncodedAt(s, n);
  }

  class Editor {
    var text: seq<byte>
    var cursor: nat
    ghost var chars: seq<Scalar>

    ghost predicate Valid()
      reads this
    {
      text == Encode(chars) && cursor <= |chars|
    }

    ghost function Now(): Line
      reads this
    {
      Line(chars, cursor)
    }

    constructor (ghost s: seq<Scalar>, t: seq<byte>, n: nat)
      requires t == Encode(s) && n == |s|
      ensures Valid() && Now() == Line(s, n)
    {
      text, cursor, chars := t, n, s;
    }

    method InsertChar(c: Scalar)
      requires Valid()
      modifies this
      ensures Valid() && Now() == Edited(old(Now()), Insert(c))
    {
      hide Enc, Width, Encode, ByteAt;
      var o := ByteAt(text, cursor);
      EncodedBoundary(chars, cursor);
      PrefixEncoded(chars, cursor);
      ghost var l := Now();
      text := InsertAt(text, o, c);
      chars := Edited(l, Insert(c)).chars;
      cursor := cursor + 1;
      ThreeEncoded(l.chars[..l.cursor], c, l.chars[l.cursor..]);
    }

    /** Removes the character at `n`. */
    method RemoveChar(n: nat)
      requires Valid() && n < |chars|
      modifies this`text, this`chars
      ensures text == Encode(chars) && chars == old(chars)[..n] + old(chars)[n + 1..]
    {
      hide Enc, Width, Encode, ByteAt;
      var o := ByteAt(text, n);
      EncodedBoundary(chars, n);
      PrefixEncoded(chars, n);
      ghost var s := chars;
      EncodedHead(s[n..]);
      text := RemoveAt(text, o);
      chars := s[..n] + s[n + 1..];
      assert s[n..][1..] == s[n + 1..];
      EncodeBoth(s[..n], s[n + 1..]);
    }

    /** Ctrl-W */
    method RemoveWord()
      requires Valid()
      modifies this
      ensures Valid() && Now() == Edited(old(Now()), WordBack)
    {
      hide Enc, Width, Encode, ByteAt, CountChars;
      var o := ByteAt(text, cursor);
      ghost var s, n, head := chars, cursor, Trimmed(chars[..cursor]);
      ghost var cutChars := AfterLast(head);
      EncodedBoundary(s, n);
      PrefixEncoded(s, n);
      var cut := AfterLastByte(TrimmedBytes(text[..o]));
      TrimEncoded(s[..n]);
      AfterLastEncoded(head);
      assert head[..cutChars] == s[..cutChars];
      EncodedAt(s, cutChars);
      EncodedBoundary(s, cutChars);
      PrefixEncoded(s, cutChars);
      text := RemoveRange(text, cut, o);
      chars := s[..cutChars] + s[n..];
      EncodeBoth(s[..cutChars], s[n..]);
      EncodedCount(s[..cutChars]);
      assert text[..cut] == Encode(s[..cutChars]);
      cursor := CountChars(text[..cut]);
    }

    method Handle(e: Edit)
      requires Valid()
      modifies this
      ensures Valid() && Now() == Edited(old(Now()), e)
    {
      hide Enc, Width, Encode, CountChars, AfterLast, Trimmed;
      EncodedCount(chars);
      match e {
        case Start => cursor := 0;
        case End => cursor := CountChars(text);
        case Clear =>
          text, cursor, chars := [], 0, [];
          NoBytes();
        case WordBack => RemoveWord();
        case Insert(c) => InsertChar(c);
        case Backspace =>
          if cursor > 0 {
            RemoveChar(cursor - 1);
            cursor := cursor - 1;
          }
        case Delete =>
          if cursor < CountChars(text) {
            RemoveChar(cursor);
          }
        case Back =>
          if cursor > 0 {
            cursor := cursor - 1;
          }
        case Forth => cursor := Min(cursor + 1, CountChars(text));
        case Completed(path) =>
          text, chars := Encode(path), path;
          EncodedCount(path);
          cursor := CountChars(text);
      }
    }
  }

  lemma ThreeEncoded(a: seq<Scalar>, c: Scalar, b: seq<Scalar>)
    ensures Encode(a + [c] + b) == Encode(a) + Enc(c) + Encode(b)
  {
    hide Enc;
    EncodeBoth(a + [c], b);
    EncodeMore(a + [c]);
    assert (a + [c])[..|a|] == a;
  }
}
