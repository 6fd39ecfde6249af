/** Base64 as sections 4 and 5 of RFC 4648 encode it, and its decoder, whose accumulator keeps every bit it
    has shifted in that 32 bits hold. */
module Base64 {
  import opened Arithmetic
  import opened Bytes
  import opened Options

  /** What a character of either alphabet stands for. */
  function Value(c: char): (v: Option<nat>)
    ensures v.Some? ==> v.value < 64
  {
    if 'A' <= c <= 'Z' then Some((c - 'A') as nat)
    else if 'a' <= c <= 'z' then Some((c - 'a') as nat + 26)
    else if '0' <= c <= '9' then Some((c - '0') as nat + 52)
    else if c == '+' || c == '-' then Some(62)
    else if c == '/' || c == '_' then Some(63)
    else None
  }

  predicate Skipped(c: char) { c == '=' || c == '\n' || c == '\r' || c == ' ' }

  predicate Allowed(c: char) { Skipped(c) || Value(c).Some? }

  predicate AllAllowed(s: string) { forall i :: 0 <= i < |s| ==> Allowed(s[i]) }

  /** The bytes of the sextets to come, after `bits` bits over, which make `over`. */
  function BytesOf(sextets: seq<nat>, bits: nat, over: nat): (b: seq<byte>)
    requires bits < 8 && bits % 2 == 0 && over < Pow2(bits)
    requires forall i :: 0 <= i < |sextets| ==> sextets[i] < 64
    decreases |sextets|
  {
    if sextets == [] then []
    else
      var all := 64 * over + sextets[0];
      Joins(bits, over, sextets[0]);
      if bits + 6 < 8 then BytesOf(sextets[1..], bits + 6, all)
      else [all / Pow2(bits - 2)] + BytesOf(sextets[1..], bits - 2, all % Pow2(bits - 2))
  }

  lemma Powers()
    ensures Pow2(0) == 1 && Pow2(2) == 4 && Pow2(4) == 16 && Pow2(6) == 64 && Pow2(8) == 0x100 && Pow2(10) == 0x400
    ensures Pow2(12) == 0x1000
  {
    assert Pow2(1) == 2 && Pow2(3) == 8 && Pow2(5) == 32 && Pow2(7) == 128 && Pow2(9) == 512 && Pow2(11) == 2048;
  }

  lemma Joins(bits: nat, over: nat, v: nat)
    requires bits < 8 && bits % 2 == 0 && over < Pow2(bits) && v < 64
    ensures 64 * over + v < Pow2(bits + 6)
    ensures bits + 6 >= 8 ==> (64 * over + v) / Pow2(bits - 2) < 0x100
  {
    Powers();
    hide Pow2;
    assert bits == 0 || bits == 2 || bits == 4 || bits == 6;
  }

  /** The sextets of the characters that are not skipped. */
  function Sextets(s: string): (r: seq<nat>)
    ensures forall i :: 0 <= i < |r| ==> r[i] < 64
  {
    if s == [] then []
    else if Value(s[0]).Some? then [Value(s[0]).value] + Sextets(s[1..])
    else Sextets(s[1..])
  }

  /** Four sextets for three bytes, and two or three for what is over. */
  function Encoded(d: seq<byte>): (r: seq<nat>)
    ensures forall i :: 0 <= i < |r| ==> r[i] < 64
  {
    if d == [] then []
    else if |d| == 1 then [d[0] / 4, d[0] % 4 * 16]
    else if |d| == 2 then [d[0] / 4, d[0] % 4 * 16 + d[1] / 16, d[1] % 16 * 4]
    else [d[0] / 4, d[0] % 4 * 16 + d[1] / 16, d[1] % 16 * 4 + d[2] / 64, d[2] % 64] + Encoded(d[3..])
  }

  lemma Quotient(x: nat, n: nat) returns (q: nat, r: nat)
    requires n > 0
    ensures x == q * n + r && r < n && q == x / n && r == x % n
  {
    q, r := x / n, x % n;
  }

  /** A 32-bit shift by six is exact but for a multiple of 2^32. */
  lemma Wraps(acc: nat) returns (q: nat)
    requires acc < U32
    ensures Wrap32(acc * 64) == 64 * (acc - 0x400_0000 * q) <= U32 - 64
  {
    var w;
    q, w := Quotient(acc * 64, U32);
  }

  /** Shifting in six bits, in 32 bits, keeps the bits over. */
  lemma Shifts(acc: nat, bits: nat, v: nat)
    requires acc < U32 && bits < 8 && bits % 2 == 0 && v < 64
    ensures Wrap32(acc * 64) + v < U32
    ensures (Wrap32(acc * 64) + v) % Pow2(bits + 6) == 64 * (acc % Pow2(bits)) + v
  {
    var q := Wraps(acc);
    Powers();
    hide Pow2, Wrap32;
    var w := Wrap32(acc * 64);
    if bits == 0 {
      Divides(w + v, 64, acc - 0x400_0000 * q, v);
    } else if bits == 2 {
      var k, r := Quotient(acc, 4);
      Divides(w + v, 0x100, k - 0x100_0000 * q, 64 * r + v);
    } else if bits == 4 {
      var k, r := Quotient(acc, 16);
      Divides(w + v, 0x400, k - 0x40_0000 * q, 64 * r + v);
    } else {
      var k, r := Quotient(acc, 64);
      Divides(w + v, 0x1000, k - 0x10_0000 * q, 64 * r + v);
    }
  }

  lemma Top8By(acc: nat, n: nat)
    requires n > 0
    ensures acc / n % 0x100 == acc % (0x100 * n) / n
    ensures acc % (0x100 * n) % n == acc % n
  {
    var q, r := Quotient(acc, n);
    var p, b := Quotient(q, 0x100);
    assert acc == p * (0x100 * n) + (b * n + r);
    Products(b, 0x100, n);
    Divides(acc, 0x100 * n, p, b * n + r);
    Divides(b * n + r, n, b, r);
  }

  /** The byte over the low `bits`, by itself or with all above it. */
  lemma Top8(acc: nat, bits: nat)
    requires bits < 6 && bits % 2 == 0
    ensures acc / Pow2(bits) % 0x100 == acc % Pow2(bits + 8) / Pow2(bits)
    ensures acc % Pow2(bits + 8) % Pow2(bits) == acc % Pow2(bits)
  {
    Powers();
    hide Pow2;
    if bits == 0 {
      Top8By(acc, 1);
    } else if bits == 2 {
      Top8By(acc, 4);
    } else {
      Top8By(acc, 16);
    }
  }

  lemma BytesFrom(sextets: seq<nat>, bits: nat, over: nat)
    requires sextets != [] && bits < 8 && bits % 2 == 0 && over < Pow2(bits)
    requires forall i :: 0 <= i < |sextets| ==> sextets[i] < 64
    ensures var all := 64 * over + sextets[0];
            && all < Pow2(bits + 6)
            && (bits < 2 ==> BytesOf(sextets, bits, over) == BytesOf(sextets[1..], bits + 6, all))
            && (bits >= 2 ==> all / Pow2(bits - 2) < 0x100)
            && (bits >= 2 ==>
                  BytesOf(sextets, bits, over) == [all / Pow2(bits - 2)] + BytesOf(sextets[1..], bits - 2, all % Pow2(bits - 2)))
  {
    Joins(bits, over, sextets[0]);
    hide Pow2;
  }

  lemma NoBytes(bits: nat, over: nat)
    requires bits < 8 && bits % 2 == 0 && over < Pow2(bits)
    ensures BytesOf([], bits, over) == []
  {
  }

  /** The low `bits`. */
  function Low(acc: nat, bits: nat): (r: nat)
    ensures r < Pow2(bits)
  {
    acc % Pow2(bits)
  }

  /** The byte above them. */
  function ByteOver(acc: nat, bits: nat): byte { acc / Pow2(bits) % 0x100 }

  function Shifted(acc: nat, v: nat): nat { Wrap32(acc * 64) + v }

  /** A sextet shifted into the accumulator. */
  lemma Steps(acc: nat, bits: nat, sextets: seq<nat>)
    requires acc < U32 && bits < 8 && bits % 2 == 0 && sextets != []
    requires forall i :: 0 <= i < |sextets| ==> sextets[i] < 64
    ensures var a := Shifted(acc, sextets[0]);
            && a < U32
            && BytesOf(sextets, bits, Low(acc, bits))
               == if bits < 2 then BytesOf(sextets[1..], bits + 6, Low(a, bits + 6))
                  else [ByteOver(a, bits - 2)] + BytesOf(sextets[1..], bits - 2, Low(a, bits - 2))
  {
    hide Pow2, Low, ByteOver, Shifted, BytesOf;
    var a := Shifted(acc, sextets[0]);
    LowShifted(acc, bits, sextets[0]);
    BytesFrom(sextets, bits, Low(acc, bits));
    if bits >= 2 {
      ByteOverLow(a, bits - 2);
    }
  }

  lemma LowShifted(acc: nat, bits: nat, v: nat)
    requires acc < U32 && bits < 8 && bits % 2 == 0 && v < 64
    ensures Shifted(acc, v) < U32 && Low(Shifted(acc, v), bits + 6) == 64 * Low(acc, bits) + v
  {
    hide Pow2, Wrap32;
    Shifts(acc, bits, v);
  }

  lemma ByteOverLow(acc: nat, bits: nat)
    requires bits < 6 && bits % 2 == 0
    ensures ByteOver(acc, bits) == Low(acc, bits + 8) / Pow2(bits)
    ensures Low(acc, bits) == Low(acc, bits + 8) % Pow2(bits)
  {
    hide Pow2;
    Top8(acc, bits);
  }

  /** What is out, and what the characters from `i` on make with the bits over, is what all make. */
  ghost predicate Going(s: string, i: nat, out: seq<byte>, acc: nat, bits: nat) {
    && i <= |s| && acc < U32 && bits < 8 && bits % 2 == 0
    && out + BytesOf(Sextets(s[i..]), bits, Low(acc, bits)) == BytesOf(Sextets(s), 0, 0)
  }

  lemma Begins(s: string)
    ensures Going(s, 0, [], 0, 0)
  {
    NoneOver();
    hide Pow2, Low, BytesOf, Sextets;
    assert s[0..] == s;
  }

  lemma Skips(s: string, i: nat, out: seq<byte>, acc: nat, bits: nat)
    requires Going(s, i, out, acc, bits) && i < |s| && Value(s[i]).None?
    ensures Going(s, i + 1, out, acc, bits)
  {
    hide Pow2, Low, BytesOf, Sextets;
    FirstSextet(s, i);
  }

  lemma Takes(s: string, i: nat, out: seq<byte>, acc: nat, bits: nat)
    requires Going(s, i, out, acc, bits) && i < |s| && Value(s[i]).Some?
    ensures var a := Shifted(acc, Value(s[i]).value);
            if bits < 2 then Going(s, i + 1, out, a, bits + 6)
            else Going(s, i + 1, out + [ByteOver(a, bits - 2)], a, bits - 2)
  {
    hide Pow2, Low, BytesOf, Sextets, Value, ByteOver, Shifted;
    FirstSextet(s, i);
    Steps(acc, bits, Sextets(s[i..]));
    var a, rest := Shifted(acc, Value(s[i]).value), Sextets(s[i + 1..]);
    if bits >= 2 {
      var b, more := ByteOver(a, bits - 2), BytesOf(rest, bits - 2, Low(a, bits - 2));
      assert out + ([b] + more) == out + [b] + more;
    }
  }

  lemma Finishes(s: string, out: seq<byte>, acc: nat, bits: nat)
    requires Going(s, |s|, out, acc, bits)
    ensures out == BytesOf(Sextets(s), 0, 0)
  {
    hide Pow2, Low, BytesOf, Sextets;
    NoSextets(s[|s|..]);
    NoBytes(bits, Low(acc, bits));
    assert out + [] == out;
  }

  method Decode(s: string) returns (r: Option<seq<byte>>)
    ensures r.Some? <==> AllAllowed(s)
    ensures r.Some? ==> r.value == BytesOf(Sextets(s), 0, 0)
  {
    var out: seq<byte> := [];
    var acc: nat := 0;
    var bits: nat := 0;
    var i := 0;
    Begins(s);
    assert AllAllowed(s[..0]);
    hide Going, Value, Skipped, AllAllowed, ByteOver, Shifted, Sextets, BytesOf, Pow2, Low, Wrap32;
    while i < |s|
      invariant 0 <= i <= |s| && Going(s, i, out, acc, bits) && AllAllowed(s[..i])
    {
      var c := s[i];
      if Value(c).None? {
        if !Skipped(c) {
          Refused(s, i);
          return None;
        }
        Skips(s, i, out, acc, bits);
      } else {
        Takes(s, i, out, acc, bits);
        acc := Shifted(acc, Value(c).value);
        bits := bits + 6;
        if bits >= 8 {
          bits := bits - 8;
          out := out + [ByteOver(acc, bits)];
        }
      }
      AllowedMore(s, i);
      i := i + 1;
    }
    assert s[..i] == s;
    Finishes(s, out, acc, bits);
    return Some(out);
  }

  lemma AllowedMore(s: string, i: nat)
    requires i < |s| && AllAllowed(s[..i]) && Allowed(s[i])
    ensures AllAllowed(s[..i + 1])
  {
  }

  lemma Refused(s: string, i: nat)
    requires i < |s| && !Allowed(s[i])
    ensures !AllAllowed(s)
  {
  }

  lemma NoneOver()
    ensures Low(0, 0) == 0
  {
  }

  lemma NoSextets(s: string)
    requires s == []
    ensures Sextets(s) == []
  {
  }

  lemma FirstSextet(s: string, i: nat)
    requires i < |s|
    ensures var r, rest := Sextets(s[i..]), Sextets(s[i + 1..]);
            if Value(s[i]).None? then r == rest else r != [] && r[0] == Value(s[i]).value && r[1..] == rest
  {
    hide Value;
    assert s[i..][1..] == s[i + 1..];
  }

  // ---- decoding undoes encoding

  lemma FirstByte(d0: byte, next: nat, sextets: seq<nat>)
    requires |sextets| >= 2 && forall i :: 0 <= i < |sextets| ==> sextets[i] < 64
    requires next < 16 && sextets[0] == d0 / 4 && sextets[1] == d0 % 4 * 16 + next
    ensures BytesOf(sextets, 0, 0) == [d0] + BytesOf(sextets[2..], 4, next)
  {
    Powers();
    hide Pow2, BytesOf;
    BytesFrom(sextets, 0, 0);
    BytesFrom(sextets[1..], 6, d0 / 4);
    assert sextets[1..][1..] == sextets[2..];
  }

  lemma SecondByte(d1: byte, next: nat, sextets: seq<nat>)
    requires |sextets| >= 1 && forall i :: 0 <= i < |sextets| ==> sextets[i] < 64
    requires next < 4 && sextets[0] == d1 % 16 * 4 + next
    ensures BytesOf(sextets, 4, d1 / 16) == [d1] + BytesOf(sextets[1..], 2, next)
  {
    Powers();
    hide Pow2, BytesOf;
    BytesFrom(sextets, 4, d1 / 16);
  }

  lemma ThirdByte(d2: byte, sextets: seq<nat>)
    requires |sextets| >= 1 && forall i :: 0 <= i < |sextets| ==> sextets[i] < 64
    requires sextets[0] == d2 % 64
    ensures BytesOf(sextets, 2, d2 / 64) == [d2] + BytesOf(sextets[1..], 0, 0)
  {
    Powers();
    hide Pow2, BytesOf;
    BytesFrom(sextets, 2, d2 / 64);
  }

  lemma Zeros()
    ensures Pow2(2) == 4 && Pow2(4) == 16 && BytesOf([], 4, 0) == [] && BytesOf([], 2, 0) == []
  {
    Powers();
  }

  /** The bytes an encoding's sextets make are those encoded. */
  lemma {:induction false} DecodesEncoded(d: seq<byte>)
    ensures BytesOf(Encoded(d), 0, 0) == d
    decreases |d|
  {
    Zeros();
    hide Pow2, BytesOf;
    var s := Encoded(d);
    if d == [] {
      NoBytes0();
    } else if |d| == 1 {
      FirstByte(d[0], 0, s);
      assert s[2..] == [];
    } else if |d| == 2 {
      FirstByte(d[0], d[1] / 16, s);
      SecondByte(d[1], 0, s[2..]);
      assert s[2..][1..] == [];
    } else {
      DecodesEncoded(d[3..]);
      FirstByte(d[0], d[1] / 16, s);
      SecondByte(d[1], d[2] / 64, s[2..]);
      ThirdByte(d[2], s[2..][1..]);
      assert s[2..][1..][1..] == Encoded(d[3..]);
      assert [d[0]] + ([d[1]] + ([d[2]] + d[3..])) == d;
    }
  }

  lemma NoBytes0()
    ensures BytesOf([], 0, 0) == []
  {
  }

  // ---- how an encoding may be written

  /** Tables 1 and 2 of RFC 4648. */
  function Symbol(v: nat, urlSafe: bool): char
    requires v < 64
  {
    if v < 26 then 'A' + v as char
    else if v < 52 then 'a' + (v - 26) as char
    else if v < 62 then '0' + (v - 52) as char
    else if urlSafe then if v == 62 then '-' else '_'
    else if v == 62 then '+' else '/'
  }

  lemma SymbolsRead(v: nat, urlSafe: bool)
    requires v < 64
    ensures Value(Symbol(v, urlSafe)) == Some(v)
  {
  }

  function Written(sextets: seq<nat>, urlSafe: bool): (s: string)
    requires forall i :: 0 <= i < |sextets| ==> sextets[i] < 64
    ensures |s| == |sextets|
  {
    if sextets == [] then "" else [Symbol(sextets[0], urlSafe)] + Written(sextets[1..], urlSafe)
  }

  /** Sextets written in either alphabet are read. */
  lemma {:induction false} WrittenRead(sextets: seq<nat>, urlSafe: bool)
    requires forall i :: 0 <= i < |sextets| ==> sextets[i] < 64
    ensures Sextets(Written(sextets, urlSafe)) == sextets && AllAllowed(Written(sextets, urlSafe))
  {
    hide Symbol, Sextets, AllAllowed;
    if sextets == [] {
      NoSextets("");
      assert AllAllowed("") by {
        NothingRefused();
      }
    } else {
      SymbolsRead(sextets[0], urlSafe);
      WrittenRead(sextets[1..], urlSafe);
      SymbolFirst(Symbol(sextets[0], urlSafe), Written(sextets[1..], urlSafe));
    }
  }

  lemma NothingRefused()
    ensures AllAllowed("")
  {
  }

  lemma SymbolFirst(c: char, s: string)
    requires Value(c).Some?
    ensures Sextets([c] + s) == [Value(c).value] + Sextets(s)
    ensures AllAllowed(s) ==> AllAllowed([c] + s)
  {
    hide Value;
    assert ([c] + s)[1..] == s;
  }

  /** Any character but the alphabets' letters, digits and signs, a pad, a space and line breaks is refused. */
  lemma AllowedIff(c: char)
    ensures Allowed(c) <==> 'A' <= c <= 'Z' || 'a' <= c <= 'z' || '0' <= c <= '9' || c in "+/-_=\n\r "
  {
    var t := "+/-_=\n\r ";
    assert t[0] == '+' && t[1] == '/' && t[2] == '-' && t[3] == '_' && t[4] == '=' && t[5] == '\n' && t[6] == '\r' && t[7] == ' ';
  }

  /** The two alphabets by their ends: letters, digits, then two signs each. */
  lemma AlphabetsRead(v: nat)
    requires v < 64
    ensures Value('A') == Some(0) && Value('Z') == Some(25) && Value('a') == Some(26) && Value('z') == Some(51)
    ensures Value('0') == Some(52) && Value('9') == Some(61) && Value('+') == Some(62) && Value('/') == Some(63)
    ensures Value('-') == Some(62) && Value('_') == Some(63)
    ensures Value(Symbol(v, false)) == Some(v) && Value(Symbol(v, true)) == Some(v)
    ensures Symbol(62, false) == '+' && Symbol(63, false) == '/' && Symbol(62, true) == '-' && Symbol(63, true) == '_'
  {
  }

  /** A space, a line break or a pad anywhere changes nothing. */
  lemma {:induction false} SkippedAnywhere(a: string, c: char, b: string)
    requires c == '=' || c == '\n' || c == '\r' || c == ' '
    ensures Sextets(a + [c] + b) == Sextets(a + b)
    ensures AllAllowed(a + b) ==> AllAllowed(a + [c] + b)
  {
    var s := a + [c] + b;
    assert AllAllowed(a + b) ==> AllAllowed(s) by {
      assert forall i :: 0 <= i < |a + b| ==> (a + b)[i] == s[if i < |a| then i else i + 1];
      assert forall i :: 0 <= i < |s| && i != |a| ==> s[i] == (a + b)[if i < |a| then i else i - 1];
    }
    hide Value, AllAllowed;
    if a == [] {
      assert s[1..] == b && a + b == b && Value(c).None? by {
        SkippedHasNoValue(c);
      }
    } else {
      SkippedAnywhere(a[1..], c, b);
      assert s[1..] == a[1..] + [c] + b && (a + b)[1..] == a[1..] + b;
    }
  }

  lemma SkippedHasNoValue(c: char)
    requires Skipped(c)
    ensures Value(c).None?
  {
  }

  /** Decoding a text gives back the bytes whose encoding it is, however it is written: in either alphabet,
      or both, padded or not, with spaces, line breaks and padding anywhere. */
  method DecodeOf(s: string, ghost d: seq<byte>) returns (r: Option<seq<byte>>)
    requires AllAllowed(s)
    requires Sextets(s) == Encoded(d)
    ensures r == Some(d)
  {
    DecodesEncoded(d);
    r := Decode(s);
  }
}
