/** Bytes, and unsigned integers as the formats store them. */
module Bytes {

  type byte = b: int | 0 <= b < 0x100

  const U32: int := 0x1_0000_0000
  const U64: int := 0x1_0000_0000_0000_0000

  /** Unsigned arithmetic as the release build and the firmware do it: without overflow checks. */
  function Wrap32(x: int): (r: nat)
    ensures r < U32
  {
    x % U32
  }

  function Wrap64(x: int): (r: nat)
    ensures r < U64
  {
    x % U64
  }

  function Min(a: int, b: int): int { if a <= b then a else b }

  /** One more than the largest integer of `n` bytes. */
  function Top(n: nat): (t: nat)
    ensures t > 0
  {
    if n == 0 then 1 else 0x100 * Top(n - 1)
  }

  /** `e` stands in `b` from `o`. */
  predicate Holds(b: seq<byte>, o: nat, e: seq<byte>) {
    o + |e| <= |b| && b[o..o + |e|] == e
  }

  lemma HoldsAt(b: seq<byte>, o: nat, e: seq<byte>, k: nat)
    requires Holds(b, o, e) && k < |e|
    ensures b[o + k] == e[k]
  {
    assert b[o..o + |e|][k] == e[k];
  }

  lemma HoldsParts(b: seq<byte>, o: nat, x: seq<byte>, y: seq<byte>)
    ensures Holds(b, o, x + y) <==> Holds(b, o, x) && Holds(b, o + |x|, y)
  {
    if o + |x| + |y| <= |b| {
      var s := b[o..o + |x| + |y|];
      assert s[..|x|] == b[o..o + |x|] && s[|x|..] == b[o + |x|..o + |x| + |y|];
      assert s == s[..|x|] + s[|x|..];
      assert (x + y)[..|x|] == x && (x + y)[|x|..] == y;
    }
  }

  /** What stands in `b` stands in a part of `b` around it. */
  lemma HoldsInPart(b: seq<byte>, lo: nat, hi: nat, o: nat, e: seq<byte>)
    requires lo <= hi <= |b| && lo + o + |e| <= hi
    ensures Holds(b[lo..hi], o, e) <==> Holds(b, lo + o, e)
  {
    var x, y := b[lo..hi][o..o + |e|], b[lo + o..lo + o + |e|];
    assert forall k :: 0 <= k < |e| ==> x[k] == y[k];
    assert b[lo..hi][o..o + |e|] == b[lo + o..lo + o + |e|];
  }

  // ---- little endian, which FAT, GPT and ZIP use

  function Le(x: nat, n: nat): (s: seq<byte>)
    ensures |s| == n
    decreases n, x
  {
    if n == 0 then [] else [x % 0x100] + Le(x / 0x100, n - 1)
  }

  function GetLe(b: seq<byte>, o: nat, n: nat): (x: nat)
    requires o + n <= |b|
    ensures x < Top(n)
    decreases n, o
  {
    if n == 0 then 0 else b[o] + 0x100 * GetLe(b, o + 1, n - 1)
  }

  /** An integer written little endian at `o` is read there. */
  lemma {:induction false} LeReads(b: seq<byte>, o: nat, n: nat, x: nat)
    requires x < Top(n) && Holds(b, o, Le(x, n))
    ensures GetLe(b, o, n) == x
    decreases n
  {
    if n > 0 {
      HoldsParts(b, o, [x % 0x100], Le(x / 0x100, n - 1));
      HoldsAt(b, o, [x % 0x100], 0);
      LeReads(b, o + 1, n - 1, x / 0x100);
    }
  }

  // ---- big endian, which qcow2 uses

  function Be(x: nat, n: nat): (s: seq<byte>)
    ensures |s| == n
    decreases n, x
  {
    if n == 0 then [] else Be(x / 0x100, n - 1) + [x % 0x100]
  }

  function GetBe(b: seq<byte>, o: nat, n: nat): (x: nat)
    requires o + n <= |b|
    ensures x < Top(n)
    decreases n, o
  {
    if n == 0 then 0 else 0x100 * GetBe(b, o, n - 1) + b[o + n - 1]
  }

  lemma {:induction false} BeReads(b: seq<byte>, o: nat, n: nat, x: nat)
    requires x < Top(n) && Holds(b, o, Be(x, n))
    ensures GetBe(b, o, n) == x
    decreases n
  {
    if n > 0 {
      HoldsParts(b, o, Be(x / 0x100, n - 1), [x % 0x100]);
      HoldsAt(b, o + n - 1, [x % 0x100], 0);
      BeReads(b, o, n - 1, x / 0x100);
    }
  }
}
