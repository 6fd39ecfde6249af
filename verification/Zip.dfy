/** The ZIP archive the logs are collected in, written as it goes, and its reader by sections 4.3.6 to
    4.3.16 of PKWARE's APPNOTE.TXT: from the end record to the central directory, and from each of its
    headers to the entry's local header. */
module Zip {
  import opened Bytes
  import opened Options

  datatype Entry = Entry(name: seq<byte>, data: seq<byte>)

  /** DEFLATE and CRC-32. */
  datatype Codec = Codec(deflate: seq<byte> -> seq<byte>, inflate: seq<byte> -> Option<seq<byte>>, crc: seq<byte> -> nat)

  /** Inflating undoes deflating, and a CRC has 32 bits. */
  ghost predicate Faithful(c: Codec) {
    && (forall d :: c.inflate(c.deflate(d)) == Some(d))
    && (forall d :: c.crc(d) < U32)
  }

  /** The archive's DOS time and date. */
  datatype Stamp = Stamp(time: nat, date: nat)

  const U16: int := 0x1_0000

  function Wrap16(x: int): (r: nat)
    ensures r < U16
  {
    x % U16
  }

  /** What both of an entry's headers say: the CRC, the sizes and the name's length. */
  function Sizes(c: Codec, e: Entry): (h: seq<byte>)
    ensures |h| == 14
  {
    Le(Wrap32(c.crc(e.data)), 4) +
    (Le(Wrap32(|c.deflate(e.data)|), 4) + (Le(Wrap32(|e.data|), 4) + Le(Wrap16(|e.name|), 2)))
  }

  /** UTF-8 names, deflated, and when. */
  function Kind(s: Stamp): (h: seq<byte>)
    ensures |h| == 8
  {
    Le(0x0800, 2) + (Le(8, 2) + (Le(Wrap16(s.time), 2) + Le(Wrap16(s.date), 2)))
  }

  const LOCAL: nat := 30
  const CENTRAL: nat := 46
  const END: nat := 22

  function LocalHeader(c: Codec, s: Stamp, e: Entry): (h: seq<byte>)
    ensures |h| == LOCAL
  {
    Le(0x04034b50, 4) + (Le(20, 2) + (Kind(s) + (Sizes(c, e) + Le(0, 2))))
  }

  function CentralHeader(c: Codec, s: Stamp, e: Entry, offset: nat): (h: seq<byte>)
    ensures |h| == CENTRAL
  {
    Le(0x02014b50, 4) + (Le(0x031e, 2) + (Le(20, 2) + (Kind(s) + (Sizes(c, e) + (Le(0, 2) + (Le(0, 2)
    + (Le(0, 4) + (Le(0x81a4_0000, 4) + Le(Wrap32(offset), 4)))))))))
  }

  function EndRecord(count: nat, size: nat, offset: nat): (h: seq<byte>)
    ensures |h| == END
  {
    Le(0x06054b50, 4) + (Le(0, 4) + (Le(Wrap16(count), 2) + (Le(Wrap16(count), 2)
    + (Le(Wrap32(size), 4) + (Le(Wrap32(offset), 4) + Le(0, 2))))))
  }

  function Local(c: Codec, s: Stamp, e: Entry): seq<byte> {
    LocalHeader(c, s, e) + (e.name + c.deflate(e.data))
  }

  function Locals(c: Codec, s: Stamp, es: seq<Entry>): seq<byte> {
    if es == [] then [] else Locals(c, s, es[..|es| - 1]) + Local(c, s, es[|es| - 1])
  }

  function Central(c: Codec, s: Stamp, e: Entry, offset: nat): seq<byte> {
    CentralHeader(c, s, e, offset) + e.name
  }

  function Centrals(c: Codec, s: Stamp, es: seq<Entry>): seq<byte> {
    if es == [] then []
    else
      var before := es[..|es| - 1];
      Centrals(c, s, before) + Central(c, s, es[|es| - 1], |Locals(c, s, before)|)
  }

  function Archive(c: Codec, s: Stamp, es: seq<Entry>): seq<byte> {
    var locals, centrals := Locals(c, s, es), Centrals(c, s, es);
    locals + (centrals + EndRecord(|es|, |centrals|, |locals|))
  }

  class Writer {
    const codec: Codec
    const stamp: Stamp
    var file: seq<byte>
    var offset: nat
    var central: seq<byte>
    var count: nat
    ghost var entries: seq<Entry>

    ghost predicate Valid()
      reads this
    {
      && file == Locals(codec, stamp, entries)
      && central == Centrals(codec, stamp, entries)
      && offset == Wrap32(|file|) && count == Wrap16(|entries|)
    }

    constructor (c: Codec, s: Stamp)
      ensures Valid() && entries == [] && codec == c && stamp == s
    {
      codec, stamp := c, s;
      file, offset, central, count := [], 0, [], 0;
      entries := [];
    }

    method Add(e: Entry)
      requires Valid()
      modifies this
      ensures Valid() && entries == old(entries) + [e]
    {
      hide Le, LocalHeader, CentralHeader, Wrap32, Wrap16;
      var h := LocalHeader(codec, stamp, e) + e.name;
      var comp := codec.deflate(e.data);
      ghost var before := file;
      file := file + h;
      file := file + comp;
      assert file == before + Local(codec, stamp, e);
      central := central + Central(codec, stamp, e, offset);
      WrapTwice(|before|);
      assert Central(codec, stamp, e, offset) == Central(codec, stamp, e, |before|) by {
        SameOffset(codec, stamp, e, offset, |before|);
      }
      WrapSum(|before|, |h| + |comp|);
      offset := Wrap32(offset + Wrap32(|h| + |comp|));
      Wrap16Sum(|entries|);
      count := Wrap16(count + 1);
      entries := entries + [e];
      assert entries[..|entries| - 1] == old(entries);
    }

    method Finish()
      requires Valid()
      modifies this
      ensures file == Archive(codec, stamp, entries) && entries == old(entries)
    {
      hide Le, Wrap32, Wrap16, Locals, Centrals;
      SameEnd(|entries|, |central|, |file|);
      var end := EndRecord(count, |central|, offset);
      ghost var before := file;
      file := file + central;
      file := file + end;
      assert file == before + (central + end);
    }
  }

  lemma WrapTwice(x: nat)
    ensures Wrap32(Wrap32(x)) == Wrap32(x)
  {
  }

  lemma WrapSum(x: nat, y: nat)
    ensures Wrap32(Wrap32(x) + Wrap32(y)) == Wrap32(x + y)
  {
  }

  lemma Wrap16Sum(x: nat)
    ensures Wrap16(Wrap16(x) + 1) == Wrap16(x + 1) && Wrap16(Wrap16(x)) == Wrap16(x)
  {
  }

  lemma SameOffset(c: Codec, s: Stamp, e: Entry, a: nat, b: nat)
    requires Wrap32(a) == Wrap32(b)
    ensures CentralHeader(c, s, e, a) == CentralHeader(c, s, e, b)
  {
    hide Le, Wrap32;
  }

  lemma SameEnd(count: nat, size: nat, offset: nat)
    ensures EndRecord(Wrap16(count), size, Wrap32(offset)) == EndRecord(count, size, offset)
  {
    Wrap16Sum(count);
    WrapTwice(offset);
    hide Le, Wrap16, Wrap32;
  }

  // ---- reading

  /** The last place from `o` down where an end record's comment ends with the file. */
  function FindEnd(b: seq<byte>, o: nat): (r: Option<nat>)
    requires o + END <= |b|
    ensures r.Some? ==> r.value + END <= |b|
  {
    if GetLe(b, o, 4) == 0x06054b50 && o + END + GetLe(b, o + 20, 2) == |b| then Some(o)
    else if o == 0 then None
    else FindEnd(b, o - 1)
  }

  /** The entry whose local header is at `o`, if it says what the central directory does of it. */
  function ReadLocal(c: Codec, b: seq<byte>, o: nat, name: seq<byte>, crc: nat, compressed: nat, size: nat): Option<Entry> {
    if o + LOCAL > |b| || GetLe(b, o, 4) != 0x04034b50 || GetLe(b, o + 8, 2) != 8 then None
    else if GetLe(b, o + 14, 4) != crc || GetLe(b, o + 18, 4) != compressed || GetLe(b, o + 22, 4) != size then None
    else
      var n, data := o + LOCAL, o + LOCAL + GetLe(b, o + 26, 2) + GetLe(b, o + 28, 2);
      if data + compressed > |b| || b[n..n + GetLe(b, o + 26, 2)] != name then None
      else
        match c.inflate(b[data..data + compressed])
        case None => None
        case Some(d) => if |d| == size && c.crc(d) == crc then Some(Entry(name, d)) else None
  }

  /** The next `n` entries of the central directory, from `o`. */
  function ReadCentral(c: Codec, b: seq<byte>, o: nat, n: nat): (r: Option<seq<Entry>>)
    ensures r.Some? ==> |r.value| == n
    decreases n
  {
    if n == 0 then Some([])
    else if o + CENTRAL > |b| || GetLe(b, o, 4) != 0x02014b50 then None
    else
      var name := o + CENTRAL + GetLe(b, o + 28, 2);
      var next := name + GetLe(b, o + 30, 2) + GetLe(b, o + 32, 2);
      if next > |b| then None
      else
        match ReadLocal(c, b, GetLe(b, o + 42, 4), b[o + CENTRAL..name],
                        GetLe(b, o + 16, 4), GetLe(b, o + 20, 4), GetLe(b, o + 24, 4))
        case None => None
        case Some(e) =>
          match ReadCentral(c, b, next, n - 1)
          case None => None
          case Some(rest) => Some([e] + rest)
  }

  function Read(c: Codec, b: seq<byte>): Option<seq<Entry>> {
    if |b| < END then None
    else
      match FindEnd(b, |b| - END)
      case None => None
      case Some(o) => ReadCentral(c, b, GetLe(b, o + 16, 4), GetLe(b, o + 10, 2))
  }

  // ---- the limits of the format without ZIP64

  ghost predicate EntryFits(c: Codec, e: Entry) {
    |e.name| < U16 && |e.data| < U32 && |c.deflate(e.data)| < U32
  }

  ghost predicate Fits(c: Codec, s: Stamp, es: seq<Entry>) {
    && |es| < U16 && |Locals(c, s, es)| < U32
    && forall i :: 0 <= i < |es| ==> EntryFits(c, es[i])
  }

  lemma Tops()
    ensures Top(2) == U16 && Top(4) == U32
  {
    assert Top(4) == 0x100 * Top(3) && Top(3) == 0x100 * Top(2) && Top(2) == 0x100 * Top(1) && Top(1) == 0x100;
  }

  lemma Small16(x: nat)
    requires x < U16
    ensures Wrap16(x) == x && x < Top(2)
  {
    Tops();
  }

  lemma Small32(x: nat)
    requires x < U32
    ensures Wrap32(x) == x && x < Top(4)
  {
    Tops();
  }

  lemma SizesRead(b: seq<byte>, o: nat, c: Codec, e: Entry)
    requires Faithful(c) && EntryFits(c, e) && Holds(b, o, Sizes(c, e))
    ensures o + 14 <= |b|
    ensures GetLe(b, o, 4) == c.crc(e.data) && GetLe(b, o + 4, 4) == |c.deflate(e.data)|
    ensures GetLe(b, o + 8, 4) == |e.data| && GetLe(b, o + 12, 2) == |e.name|
  {
    hide Le, GetLe, Wrap32, Wrap16, Top, Holds;
    Small32(c.crc(e.data));
    Small32(|c.deflate(e.data)|);
    Small32(|e.data|);
    Small16(|e.name|);
    var w, x, y, z := Le(c.crc(e.data), 4), Le(|c.deflate(e.data)|, 4), Le(|e.data|, 4), Le(|e.name|, 2);
    HoldsParts(b, o, w, x + (y + z));
    HoldsParts(b, o + 4, x, y + z);
    HoldsParts(b, o + 8, y, z);
    assert o + 14 <= |b| by {
      HoldsFits(b, o + 12, z);
    }
    LeReads(b, o, 4, c.crc(e.data));
    LeReads(b, o + 4, 4, |c.deflate(e.data)|);
    LeReads(b, o + 8, 4, |e.data|);
    LeReads(b, o + 12, 2, |e.name|);
  }

  lemma HoldsFits(b: seq<byte>, o: nat, e: seq<byte>)
    requires Holds(b, o, e)
    ensures o + |e| <= |b|
  {
  }

  lemma KindReads(b: seq<byte>, o: nat, s: Stamp)
    requires Holds(b, o, Kind(s))
    ensures o + 8 <= |b| && GetLe(b, o, 2) == 0x0800 && GetLe(b, o + 2, 2) == 8
    ensures GetLe(b, o + 4, 2) == Wrap16(s.time) && GetLe(b, o + 6, 2) == Wrap16(s.date)
  {
    hide Le, GetLe, Top, Holds;
    Small16(0x0800);
    Small16(8);
    Small16(Wrap16(s.time));
    Small16(Wrap16(s.date));
    HoldsFits(b, o, Kind(s));
    HoldsParts(b, o, Le(0x0800, 2), Le(8, 2) + (Le(Wrap16(s.time), 2) + Le(Wrap16(s.date), 2)));
    HoldsParts(b, o + 2, Le(8, 2), Le(Wrap16(s.time), 2) + Le(Wrap16(s.date), 2));
    HoldsParts(b, o + 4, Le(Wrap16(s.time), 2), Le(Wrap16(s.date), 2));
    LeReads(b, o, 2, 0x0800);
    LeReads(b, o + 2, 2, 8);
    LeReads(b, o + 4, 2, Wrap16(s.time));
    LeReads(b, o + 6, 2, Wrap16(s.date));
  }

  lemma SliceHeld(b: seq<byte>, o: nat, e: seq<byte>)
    requires Holds(b, o, e)
    ensures o + |e| <= |b| && b[o..o + |e|] == e
  {
  }

  lemma LocalHeaderReads(b: seq<byte>, o: nat, c: Codec, s: Stamp, e: Entry)
    requires Faithful(c) && EntryFits(c, e) && Holds(b, o, LocalHeader(c, s, e))
    ensures o + LOCAL <= |b| && GetLe(b, o, 4) == 0x04034b50 && GetLe(b, o + 4, 2) == 20 && GetLe(b, o + 8, 2) == 8
    ensures GetLe(b, o + 6, 2) == 0x0800 && GetLe(b, o + 10, 2) == Wrap16(s.time) && GetLe(b, o + 12, 2) == Wrap16(s.date)
    ensures GetLe(b, o + 14, 4) == c.crc(e.data) && GetLe(b, o + 18, 4) == |c.deflate(e.data)|
    ensures GetLe(b, o + 22, 4) == |e.data| && GetLe(b, o + 26, 2) == |e.name| && GetLe(b, o + 28, 2) == 0
  {
    hide Le, GetLe, Wrap32, Wrap16, Top, Holds, Kind, Sizes, Faithful, EntryFits;
    HoldsFits(b, o, LocalHeader(c, s, e));
    Small32(0x04034b50);
    Small16(0);
    Small16(20);
    var sizes := Sizes(c, e) + Le(0, 2);
    HoldsParts(b, o, Le(0x04034b50, 4), Le(20, 2) + (Kind(s) + sizes));
    HoldsParts(b, o + 4, Le(20, 2), Kind(s) + sizes);
    HoldsParts(b, o + 6, Kind(s), sizes);
    HoldsParts(b, o + 14, Sizes(c, e), Le(0, 2));
    LeReads(b, o, 4, 0x04034b50);
    LeReads(b, o + 4, 2, 20);
    KindReads(b, o + 6, s);
    SizesRead(b, o + 14, c, e);
    LeReads(b, o + 28, 2, 0);
  }

  lemma LocalReads(b: seq<byte>, o: nat, c: Codec, s: Stamp, e: Entry)
    requires Faithful(c) && EntryFits(c, e) && Holds(b, o, Local(c, s, e))
    ensures ReadLocal(c, b, o, e.name, c.crc(e.data), |c.deflate(e.data)|, |e.data|) == Some(e)
  {
    hide Le, GetLe, Wrap32, Wrap16, Top, Holds, LocalHeader, EntryFits;
    var comp := c.deflate(e.data);
    HoldsParts(b, o, LocalHeader(c, s, e), e.name + comp);
    HoldsParts(b, o + LOCAL, e.name, comp);
    LocalHeaderReads(b, o, c, s, e);
    SliceHeld(b, o + LOCAL, e.name);
    SliceHeld(b, o + LOCAL + |e.name|, comp);
  }

  lemma CentralHeaderReads(b: seq<byte>, o: nat, c: Codec, s: Stamp, e: Entry, offset: nat)
    requires Faithful(c) && EntryFits(c, e) && offset < U32 && Holds(b, o, CentralHeader(c, s, e, offset))
    ensures o + CENTRAL <= |b| && GetLe(b, o, 4) == 0x02014b50
    ensures GetLe(b, o + 16, 4) == c.crc(e.data) && GetLe(b, o + 20, 4) == |c.deflate(e.data)|
    ensures GetLe(b, o + 4, 2) == 0x031e && GetLe(b, o + 6, 2) == 20 && GetLe(b, o + 8, 2) == 0x0800
    ensures GetLe(b, o + 10, 2) == 8 && GetLe(b, o + 12, 2) == Wrap16(s.time) && GetLe(b, o + 14, 2) == Wrap16(s.date)
    ensures GetLe(b, o + 24, 4) == |e.data| && GetLe(b, o + 28, 2) == |e.name|
    ensures GetLe(b, o + 34, 4) == 0 && GetLe(b, o + 38, 4) == 0x81a4_0000
    ensures GetLe(b, o + 30, 2) == 0 && GetLe(b, o + 32, 2) == 0 && GetLe(b, o + 42, 4) == offset
  {
    hide Le, GetLe, Wrap32, Wrap16, Top, Holds, Kind, Sizes, Faithful, EntryFits;
    HoldsFits(b, o, CentralHeader(c, s, e, offset));
    Small32(0x02014b50);
    Small16(0x031e);
    Small16(20);
    Small16(0);
    Small32(0);
    Small32(0x81a4_0000);
    Small32(offset);
    var last := Le(0, 4) + (Le(0x81a4_0000, 4) + Le(offset, 4));
    var rest := Le(0, 2) + (Le(0, 2) + last);
    HoldsParts(b, o, Le(0x02014b50, 4), Le(0x031e, 2) + (Le(20, 2) + (Kind(s) + (Sizes(c, e) + rest))));
    HoldsParts(b, o + 4, Le(0x031e, 2), Le(20, 2) + (Kind(s) + (Sizes(c, e) + rest)));
    HoldsParts(b, o + 6, Le(20, 2), Kind(s) + (Sizes(c, e) + rest));
    HoldsParts(b, o + 8, Kind(s), Sizes(c, e) + rest);
    HoldsParts(b, o + 16, Sizes(c, e), rest);
    HoldsParts(b, o + 30, Le(0, 2), Le(0, 2) + last);
    HoldsParts(b, o + 32, Le(0, 2), last);
    HoldsParts(b, o + 34, Le(0, 4), Le(0x81a4_0000, 4) + Le(offset, 4));
    HoldsParts(b, o + 38, Le(0x81a4_0000, 4), Le(offset, 4));
    LeReads(b, o, 4, 0x02014b50);
    LeReads(b, o + 4, 2, 0x031e);
    LeReads(b, o + 6, 2, 20);
    KindReads(b, o + 8, s);
    SizesRead(b, o + 16, c, e);
    LeReads(b, o + 34, 4, 0);
    LeReads(b, o + 38, 4, 0x81a4_0000);
    LeReads(b, o + 30, 2, 0);
    LeReads(b, o + 32, 2, 0);
    LeReads(b, o + 42, 4, offset);
  }

  lemma EndReads(b: seq<byte>, o: nat, count: nat, size: nat, offset: nat)
    requires Holds(b, o, EndRecord(count, size, offset))
    ensures o + END <= |b| && GetLe(b, o, 4) == 0x06054b50 && GetLe(b, o + 20, 2) == 0
    ensures GetLe(b, o + 4, 4) == 0 && GetLe(b, o + 8, 2) == Wrap16(count)
    ensures GetLe(b, o + 10, 2) == Wrap16(count) && GetLe(b, o + 12, 4) == Wrap32(size) && GetLe(b, o + 16, 4) == Wrap32(offset)
  {
    Small16(Wrap16(count));
    Small32(Wrap32(size));
    Small32(0);
    Small32(Wrap32(offset));
    Small32(0x06054b50);
    Small16(0);
    hide Le, GetLe, Wrap32, Wrap16, Top, Holds;
    HoldsFits(b, o, EndRecord(count, size, offset));
    var n := Le(Wrap16(count), 2);
    var last := Le(Wrap32(offset), 4) + Le(0, 2);
    var rest := Le(Wrap32(size), 4) + last;
    HoldsParts(b, o, Le(0x06054b50, 4), Le(0, 4) + (n + (n + rest)));
    HoldsParts(b, o + 4, Le(0, 4), n + (n + rest));
    HoldsParts(b, o + 8, n, n + rest);
    HoldsParts(b, o + 10, n, rest);
    HoldsParts(b, o + 12, Le(Wrap32(size), 4), last);
    HoldsParts(b, o + 16, Le(Wrap32(offset), 4), Le(0, 2));
    LeReads(b, o, 4, 0x06054b50);
    LeReads(b, o + 4, 4, 0);
    LeReads(b, o + 8, 2, Wrap16(count));
    LeReads(b, o + 10, 2, Wrap16(count));
    LeReads(b, o + 12, 4, Wrap32(size));
    LeReads(b, o + 16, 4, Wrap32(offset));
    LeReads(b, o + 20, 2, 0);
  }

  // ---- where the entries are

  lemma {:induction false} LocalsHold(c: Codec, s: Stamp, es: seq<Entry>, i: nat)
    requires i < |es|
    ensures Holds(Locals(c, s, es), |Locals(c, s, es[..i])|, Local(c, s, es[i]))
    ensures |Locals(c, s, es[..i])| + |Local(c, s, es[i])| <= |Locals(c, s, es)|
    decreases |es|
  {
    hide Local;
    var n := |es| - 1;
    var before, last := Locals(c, s, es[..n]), Local(c, s, es[n]);
    assert Locals(c, s, es) == before + last;
    if i < n {
      LocalsHold(c, s, es[..n], i);
      assert es[..n][..i] == es[..i] && es[..n][i] == es[i];
      HoldsBefore(before, last, |Locals(c, s, es[..i])|, Local(c, s, es[i]));
    }
  }

  lemma HoldsBefore(a: seq<byte>, z: seq<byte>, o: nat, e: seq<byte>)
    requires Holds(a, o, e)
    ensures Holds(a + z, o, e)
  {
    assert (a + z)[o..o + |e|] == a[o..o + |e|];
  }

  lemma {:induction false} CentralsHold(c: Codec, s: Stamp, es: seq<Entry>, i: nat)
    requires i < |es|
    ensures Holds(Centrals(c, s, es), |Centrals(c, s, es[..i])|, Central(c, s, es[i], |Locals(c, s, es[..i])|))
    decreases |es|
  {
    hide Central, Locals;
    var n := |es| - 1;
    var before, last := Centrals(c, s, es[..n]), Central(c, s, es[n], |Locals(c, s, es[..n])|);
    assert Centrals(c, s, es) == before + last;
    if i < n {
      CentralsHold(c, s, es[..n], i);
      assert es[..n][..i] == es[..i] && es[..n][i] == es[i];
      HoldsBefore(before, last, |Centrals(c, s, es[..i])|, Central(c, s, es[i], |Locals(c, s, es[..i])|));
    }
  }

  lemma NextCentral(c: Codec, s: Stamp, es: seq<Entry>, i: nat)
    requires i < |es|
    ensures |Centrals(c, s, es[..i + 1])| == |Centrals(c, s, es[..i])| + CENTRAL + |es[i].name|
  {
    hide CentralHeader, Locals;
    assert es[..i + 1][..i] == es[..i];
  }

  /** The archive holds every entry's headers where the directory says. */
  lemma ArchiveHolds(c: Codec, s: Stamp, es: seq<Entry>, i: nat)
    requires i < |es|
    ensures var b, locals := Archive(c, s, es), |Locals(c, s, es)|;
            && Holds(b, |Locals(c, s, es[..i])|, Local(c, s, es[i]))
            && Holds(b, locals + |Centrals(c, s, es[..i])|, Central(c, s, es[i], |Locals(c, s, es[..i])|))
  {
    hide Local, Central, Locals, Centrals, Holds, EndRecord;
    var locals, centrals, end := Locals(c, s, es), Centrals(c, s, es), EndRecord(|es|, |Centrals(c, s, es)|, |Locals(c, s, es)|);
    LocalsHold(c, s, es, i);
    HoldsBefore(locals, centrals + end, |Locals(c, s, es[..i])|, Local(c, s, es[i]));
    CentralsHold(c, s, es, i);
    var o, e := |Centrals(c, s, es[..i])|, Central(c, s, es[i], |Locals(c, s, es[..i])|);
    HoldsBefore(centrals, end, o, e);
    HoldsAfter(locals, centrals + end, o, e);
  }

  lemma HoldsAfter(a: seq<byte>, z: seq<byte>, o: nat, e: seq<byte>)
    requires Holds(z, o, e)
    ensures Holds(a + z, |a| + o, e)
  {
    assert (a + z)[|a| + o..|a| + o + |e|] == z[o..o + |e|];
  }

  lemma {:induction false} CentralReads(c: Codec, s: Stamp, es: seq<Entry>, i: nat)
    requires Faithful(c) && Fits(c, s, es) && i <= |es|
    ensures ReadCentral(c, Archive(c, s, es), |Locals(c, s, es)| + |Centrals(c, s, es[..i])|, |es| - i) == Some(es[i..])
    decreases |es| - i
  {
    hide Faithful, EntryFits, Archive, Locals, Centrals, Local, CentralHeader, ReadLocal, GetLe, Holds;
    var b, o := Archive(c, s, es), |Locals(c, s, es)| + |Centrals(c, s, es[..i])|;
    if i < |es| {
      var e, offset := es[i], |Locals(c, s, es[..i])|;
      CentralReads(c, s, es, i + 1);
      ArchiveHolds(c, s, es, i);
      LocalsHold(c, s, es, i);
      NextCentral(c, s, es, i);
      HoldsParts(b, o, CentralHeader(c, s, e, offset), e.name);
      CentralHeaderReads(b, o, c, s, e, offset);
      SliceHeld(b, o + CENTRAL, e.name);
      LocalReads(b, offset, c, s, e);
      assert [e] + es[i + 1..] == es[i..];
    }
  }

  lemma EndIsFound(c: Codec, s: Stamp, es: seq<Entry>)
    ensures var b := Archive(c, s, es);
            && |b| >= END && FindEnd(b, |b| - END) == Some(|b| - END)
            && GetLe(b, |b| - END + 10, 2) == Wrap16(|es|)
            && GetLe(b, |b| - END + 16, 4) == Wrap32(|Locals(c, s, es)|)
  {
    hide Locals, Centrals, GetLe, EndRecord, Wrap16, Wrap32, Holds;
    var b, locals, centrals := Archive(c, s, es), Locals(c, s, es), Centrals(c, s, es);
    var end := EndRecord(|es|, |centrals|, |locals|);
    assert b == locals + centrals + end;
    WholeHolds(end);
    HoldsAfter(locals + centrals, end, 0, end);
    EndReads(b, |b| - END, |es|, |centrals|, |locals|);
  }

  lemma WholeHolds(e: seq<byte>)
    ensures Holds(e, 0, e)
  {
  }

  /** Reading an archive gives back the entries added, in order, within the format's limits. */
  lemma ReadsBack(c: Codec, s: Stamp, es: seq<Entry>)
    requires Faithful(c) && Fits(c, s, es)
    ensures Read(c, Archive(c, s, es)) == Some(es)
  {
    hide Faithful, Archive, Locals, ReadCentral, GetLe, FindEnd, EntryFits, Wrap16, Wrap32;
    EndIsFound(c, s, es);
    CentralReads(c, s, es, 0);
    Small16(|es|);
    Small32(|Locals(c, s, es)|);
    assert Centrals(c, s, es[..0]) == [] && es[0..] == es;
  }

  /** With more entries than 16 bits count it does not: the end record's count has wrapped. */
  lemma TooManyEntries(c: Codec, s: Stamp, es: seq<Entry>)
    requires |es| >= U16
    ensures Read(c, Archive(c, s, es)) != Some(es)
  {
    hide Archive, Locals, GetLe, FindEnd, ReadCentral;
    EndIsFound(c, s, es);
  }

  /** The name's length and the data's fit their fields. */
  predicate Short(e: Entry) { |e.name| < U16 && |e.data| < U32 }

  /** Whatever the bytes, every entry read from them is short. */
  lemma {:induction false} ReadAreShort(c: Codec, b: seq<byte>, o: nat, n: nat)
    ensures var r := ReadCentral(c, b, o, n);
            r.Some? ==> forall i :: 0 <= i < n ==> Short(r.value[i])
    decreases n
  {
    hide GetLe, Short, ReadLocal;
    var r := ReadCentral(c, b, o, n);
    if n > 0 && r.Some? {
      var name := o + CENTRAL + GetLe(b, o + 28, 2);
      var next := name + GetLe(b, o + 30, 2) + GetLe(b, o + 32, 2);
      ReadAreShort(c, b, next, n - 1);
      LocalIsShort(c, b, o);
      var rest := ReadCentral(c, b, next, n - 1).value;
      assert r.value[1..] == rest;
      forall i | 0 <= i < n ensures Short(r.value[i]) {
        if i > 0 {
          assert r.value[i] == rest[i - 1];
        }
      }
    }
  }

  lemma LocalIsShort(c: Codec, b: seq<byte>, o: nat)
    requires o + CENTRAL <= |b| && o + CENTRAL + GetLe(b, o + 28, 2) <= |b|
    ensures var e := ReadLocal(c, b, GetLe(b, o + 42, 4), b[o + CENTRAL..o + CENTRAL + GetLe(b, o + 28, 2)],
                               GetLe(b, o + 16, 4), GetLe(b, o + 20, 4), GetLe(b, o + 24, 4));
            e.Some? ==> Short(e.value)
  {
    hide GetLe, Top;
    assert Top(2) == U16 && Top(4) == U32 by {
      Tops();
    }
  }

  /** What is deflated is in the archive, so it is within 32 bits where the archive is. */
  lemma ShortFit(c: Codec, s: Stamp, es: seq<Entry>)
    requires |es| < U16 && |Locals(c, s, es)| < U32 && forall i :: 0 <= i < |es| ==> Short(es[i])
    ensures Fits(c, s, es)
  {
    hide Locals, LocalHeader;
    forall i | 0 <= i < |es| ensures EntryFits(c, es[i]) {
      LocalsHold(c, s, es, i);
      assert Short(es[i]);
    }
  }

  /** An archive whose entries take less than 4 GiB reads back exactly when there are fewer than 65536 of
      them, with names of less than 64 KiB and data of less than 4 GiB. */
  lemma ReadsBackIff(c: Codec, s: Stamp, es: seq<Entry>)
    requires Faithful(c) && |Locals(c, s, es)| < U32
    ensures Read(c, Archive(c, s, es)) == Some(es)
       <==> |es| < U16 && forall i :: 0 <= i < |es| ==> |es[i].name| < U16 && |es[i].data| < U32
  {
    hide Faithful, Archive, Locals, FindEnd, ReadCentral, GetLe, EntryFits;
    var b := Archive(c, s, es);
    if |es| >= U16 {
      TooManyEntries(c, s, es);
    } else if forall i :: 0 <= i < |es| ==> |es[i].name| < U16 && |es[i].data| < U32 {
      ShortFit(c, s, es);
      ReadsBack(c, s, es);
    } else if Read(c, b) == Some(es) {
      var o := FindEnd(b, |b| - END).value;
      ReadAreShort(c, b, GetLe(b, o + 16, 4), GetLe(b, o + 10, 2));
      assert forall i :: 0 <= i < |es| ==> Short(es[i]);
    }
  }
}
