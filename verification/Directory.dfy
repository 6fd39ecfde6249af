/** FAT directories: the reader of their 32-byte entries, with the long names kept in entries before
    them, and a writer; what is written is read. (Microsoft's FAT specification 1.03, "FAT Long
    Directory Entries".) */
module Directory {
  import opened Bytes
  import opened Options

  type Chunk = c: seq<byte> | |c| == 32 witness seq(32, _ => 0)
  type Part = p: seq<nat> | |p| == 13 witness seq(13, _ => 0)

  /** A live entry: its long name's UTF-16 units where one precedes it, the two fields of its 8.3
      name, its first cluster and its size. */
  datatype Entry = Entry(long: Option<seq<nat>>, base: seq<byte>, ext: seq<byte>, cluster: nat, size: nat)

  // ---- reading

  /** Where a long-name entry keeps unit `i`. */
  function UnitOffset(i: nat): nat
    requires i < 13
    ensures UnitOffset(i) + 2 <= 32
  {
    if i < 5 then 1 + 2 * i else if i < 11 then 14 + 2 * (i - 5) else 28 + 2 * (i - 11)
  }

  function PartOf(e: Chunk): Part {
    seq(13, i requires 0 <= i < 13 => GetLe(e, UnitOffset(i), 2))
  }

  predicate IsLong(e: Chunk) { e[11] % 0x40 == 0x0f }

  predicate IsLabel(e: Chunk) { e[11] / 0x08 % 2 == 1 }

  predicate IsFirstPart(e: Chunk) { e[0] / 0x40 % 2 == 1 }

  /** The units before the first zero. */
  function TakeWhileNot0(units: seq<nat>): seq<nat> {
    if units == [] || units[0] == 0 then [] else [units[0]] + TakeWhileNot0(units[1..])
  }

  /** The parts' units from the last part stored, the name's first, to the first. */
  function Reversed(parts: seq<Part>): seq<nat> {
    if parts == [] then [] else Reversed(parts[1..]) + parts[0]
  }

  function LongName(parts: seq<Part>): Option<seq<nat>> {
    if parts == [] then None else Some(TakeWhileNot0(Reversed(parts)))
  }

  function LiveEntry(parts: seq<Part>, e: Chunk): Entry {
    Entry(LongName(parts), e[..8], e[8..11], 0x1_0000 * GetLe(e, 20, 2) + GetLe(e, 26, 2), GetLe(e, 28, 4))
  }

  /** The long name's parts held after entry `e`. */
  function PartsAfter(parts: seq<Part>, e: Chunk): seq<Part> {
    if e[0] != 0xe5 && IsLong(e) then
      (if IsFirstPart(e) then [] else parts) + [PartOf(e)]
    else
      []
  }

  predicate IsLive(e: Chunk) {
    e[0] != 0xe5 && !IsLong(e) && !IsLabel(e)
  }

  /** The live entries among `chunks`, up to the first that marks the directory's end. */
  function EntriesOf(chunks: seq<Chunk>, parts: seq<Part>): seq<Entry> {
    if chunks == [] || chunks[0][0] == 0 then
      []
    else
      (if IsLive(chunks[0]) then [LiveEntry(parts, chunks[0])] else [])
      + EntriesOf(chunks[1..], PartsAfter(parts, chunks[0]))
  }

  function Chunks(bytes: seq<byte>): (chunks: seq<Chunk>)
    ensures |chunks| == |bytes| / 32
  {
    if |bytes| < 32 then [] else [bytes[..32]] + Chunks(bytes[32..])
  }

  lemma {:induction false} ChunkAt(bytes: seq<byte>, i: nat)
    requires i < |bytes| / 32
    ensures Chunks(bytes)[i] == bytes[32 * i..32 * i + 32]
  {
    if i > 0 {
      ChunkAt(bytes[32..], i - 1);
      assert bytes[32..][32 * (i - 1)..32 * (i - 1) + 32] == bytes[32 * i..32 * i + 32];
    }
  }

  lemma OneMore(chunks: seq<Chunk>, i: nat, parts: seq<Part>, out: seq<Entry>)
    requires i < |chunks| && chunks[i][0] != 0
    ensures out + EntriesOf(chunks[i..], parts)
         == (if IsLive(chunks[i]) then out + [LiveEntry(parts, chunks[i])] else out)
            + EntriesOf(chunks[i + 1..], PartsAfter(parts, chunks[i]))
  {
    hide LiveEntry, PartsAfter, IsLive;
    assert chunks[i..][0] == chunks[i] && chunks[i..][1..] == chunks[i + 1..];
  }

  method ReadEntries(bytes: seq<byte>) returns (out: seq<Entry>)
    ensures out == EntriesOf(Chunks(bytes), [])
  {
    hide Chunks, GetLe, LiveEntry, PartOf, IsLong, IsLabel, IsFirstPart, EntriesOf;
    ghost var chunks := Chunks(bytes);
    ghost var all := EntriesOf(chunks, []);
    var parts: seq<Part> := [];
    out := [];
    var i := 0;
    assert chunks[0..] == chunks;
    while i < |bytes| / 32
      invariant 0 <= i <= |chunks|
      invariant all == out + EntriesOf(chunks[i..], parts)
    {
      var e: Chunk := bytes[32 * i..32 * i + 32];
      ChunkAt(bytes, i);
      if e[0] == 0 {
        NoMore(chunks[i..], parts);
        return;
      }
      OneMore(chunks, i, parts, out);
      if e[0] == 0xe5 {
        parts := [];
      } else if IsLong(e) {
        if IsFirstPart(e) {
          parts := [];
        }
        parts := parts + [PartOf(e)];
      } else if IsLabel(e) {
        parts := [];
      } else {
        out := out + [LiveEntry(parts, e)];
        parts := [];
      }
      i := i + 1;
    }
    NoMore(chunks[i..], parts);
  }

  lemma NoMore(chunks: seq<Chunk>, parts: seq<Part>)
    requires chunks == [] || chunks[0][0] == 0
    ensures EntriesOf(chunks, parts) == []
  {
  }

  /** A chunk with attributes 0x0f is a part of a long name, which begins the name anew if bit 6 of its number
      is set and otherwise goes on with it; any other ends it. */
  lemma PartsTaken(parts: seq<Part>, e: Chunk)
    ensures e[0] == 0xe5 || !(e[11] == 0x0f || e[11] == 0x4f || e[11] == 0x8f || e[11] == 0xcf) ==>
              PartsAfter(parts, e) == []
    ensures e[11] == 0x0f && (0x40 <= e[0] <= 0x7f || (0xc0 <= e[0] && e[0] != 0xe5)) ==>
              PartsAfter(parts, e) == [PartOf(e)]
    ensures e[11] == 0x0f && (e[0] <= 0x3f || 0x80 <= e[0] <= 0xbf) ==>
              PartsAfter(parts, e) == parts + [PartOf(e)]
  {
    hide PartOf;
    assert [] + [PartOf(e)] == [PartOf(e)];
  }

  // ---- writing

  /** What a writer puts in a directory: a live entry, with a long name or none; an entry deleted; the
      volume's label. */
  datatype Item =
    | Live(long: Option<seq<nat>>, name: seq<byte>, attr: byte, cluster: nat, size: nat)
    | Deleted(chunk: Chunk)
    | Label(chunk: Chunk)
  {
    ghost predicate Valid() {
      match this
      case Live(long, name, attr, cluster, size) =>
        && |name| == 11 && name[0] != 0 && name[0] != 0xe5
        && attr % 0x40 != 0x0f && attr / 0x08 % 2 == 0
        && cluster < U32 && size < U32
        && (long.Some? ==> ValidLong(long.value))
      case Deleted(chunk) => chunk[0] == 0xe5
      case Label(chunk) => chunk[0] != 0 && chunk[0] != 0xe5 && chunk[11] % 0x40 != 0x0f && chunk[11] / 0x08 % 2 == 1
    }
  }

  /** UTF-16 units with no NUL, in no more entries than their numbers' bits count (FAT allows 20). */
  ghost predicate ValidLong(units: seq<nat>) {
    |units| < 13 * 0x40 && forall i :: 0 <= i < |units| ==> 0 < units[i] < 0x1_0000
  }

  const ZEROS: seq<byte> := [0, 0, 0, 0]

  function ShortChunk(name: seq<byte>, attr: byte, cluster: nat, size: nat): Chunk
    requires |name| == 11
  {
    name + ([attr] + (ZEROS + (ZEROS + (Le(cluster / 0x1_0000, 2)
      + (ZEROS + (Le(cluster % 0x1_0000, 2) + Le(size, 4)))))))
  }

  /** A long name's units: ended by a NUL, then filled with 0xffff, to whole parts. */
  function Padded(units: seq<nat>): (p: seq<nat>)
    ensures |p| % 13 == 0 && |units| < |p| <= |units| + 13
  {
    units + [0] + seq(12 - |units| % 13, _ => 0xffff)
  }

  function UnitBytes(us: seq<nat>): (b: seq<byte>)
    ensures |b| == 2 * |us|
  {
    if us == [] then [] else Le(us[0], 2) + UnitBytes(us[1..])
  }

  function LongChunk(number: byte, part: Part): Chunk {
    [number] + (UnitBytes(part[..5]) + ([0x0f, 0, 0] + (UnitBytes(part[5..11]) + ([0, 0] + UnitBytes(part[11..])))))
  }

  function PartAt(padded: seq<nat>, i: nat): Part
    requires 13 * i + 13 <= |padded|
  {
    padded[13 * i..13 * i + 13]
  }

  /** The number of part `i`, from 1, with bit 6 set in the name's last. */
  function PartNumber(i: nat, last: bool): byte
    requires i < 0x40
  {
    if last && i + 1 < 0x40 then i + 1 + 0x40 else i + 1
  }

  /** The entries of the first `n` parts, the last of them first. */
  function LongChunks(padded: seq<nat>, n: nat): (cs: seq<Chunk>)
    requires 13 * n <= |padded| <= 13 * 0x40
    ensures |cs| == n
  {
    if n == 0 then
      []
    else
      [LongChunk(PartNumber(n - 1, 13 * n == |padded|), PartAt(padded, n - 1))] + LongChunks(padded, n - 1)
  }

  function ChunksOf(item: Item): seq<Chunk>
    requires item.Valid()
  {
    match item
    case Live(long, name, attr, cluster, size) =>
      (if long.None? then [] else LongChunks(Padded(long.value), |Padded(long.value)| / 13))
      + [ShortChunk(name, attr, cluster, size)]
    case Deleted(chunk) => [chunk]
    case Label(chunk) => [chunk]
  }

  function WrittenChunks(items: seq<Item>): seq<Chunk>
    requires forall i :: 0 <= i < |items| ==> items[i].Valid()
  {
    if items == [] then [] else ChunksOf(items[0]) + WrittenChunks(items[1..])
  }

  function Flat(chunks: seq<Chunk>): seq<byte> {
    if chunks == [] then [] else chunks[0] + Flat(chunks[1..])
  }

  /** What a reader should make of an item, and of several. */
  function LiveIn(item: Item): seq<Entry> {
    match item
    case Live(long, name, _, cluster, size) =>
      if |name| == 11 then [Entry(long, name[..8], name[8..], cluster, size)] else []
    case _ => []
  }

  function LiveOf(items: seq<Item>): seq<Entry> {
    if items == [] then [] else LiveIn(items[0]) + LiveOf(items[1..])
  }

  // ---- what is written is read

  lemma {:induction false} UnitRead(us: seq<nat>, b: seq<byte>, o: nat, i: nat)
    requires Holds(b, o, UnitBytes(us)) && i < |us| && us[i] < 0x1_0000
    ensures GetLe(b, o + 2 * i, 2) == us[i]
    decreases i
  {
    HoldsParts(b, o, Le(us[0], 2), UnitBytes(us[1..]));
    if i == 0 {
      LeReads(b, o, 2, us[0]);
    } else {
      UnitRead(us[1..], b, o + 2, i - 1);
    }
  }

  lemma LongChunkReads(number: byte, part: Part)
    requires forall i :: 0 <= i < 13 ==> part[i] < 0x1_0000
    ensures var e := LongChunk(number, part); e[0] == number && e[11] == 0x0f && PartOf(e) == part
  {
    hide UnitBytes, GetLe, Le;
    var e := LongChunk(number, part);
    var a, b, c := UnitBytes(part[..5]), UnitBytes(part[5..11]), UnitBytes(part[11..]);
    assert Holds(e, 0, e);
    HoldsParts(e, 0, [number], a + ([0x0f, 0, 0] + (b + ([0, 0] + c))));
    HoldsParts(e, 1, a, [0x0f, 0, 0] + (b + ([0, 0] + c)));
    HoldsParts(e, 11, [0x0f, 0, 0], b + ([0, 0] + c));
    HoldsParts(e, 14, b, [0, 0] + c);
    HoldsParts(e, 26, [0, 0], c);
    HoldsAt(e, 11, [0x0f, 0, 0], 0);
    forall i | 0 <= i < 13 ensures GetLe(e, UnitOffset(i), 2) == part[i] {
      if i < 5 {
        UnitRead(part[..5], e, 1, i);
      } else if i < 11 {
        UnitRead(part[5..11], e, 14, i - 5);
      } else {
        UnitRead(part[11..], e, 28, i - 11);
      }
    }
    assert PartOf(e) == part;
  }

  lemma ShortChunkReads(name: seq<byte>, attr: byte, cluster: nat, size: nat)
    requires |name| == 11 && cluster < U32 && size < U32
    ensures var e := ShortChunk(name, attr, cluster, size);
            && e[..8] == name[..8] && e[8..11] == name[8..] && e[11] == attr && e[0] == name[0]
            && 0x1_0000 * GetLe(e, 20, 2) + GetLe(e, 26, 2) == cluster && GetLe(e, 28, 4) == size
  {
    hide GetLe, Le;
    var e := ShortChunk(name, attr, cluster, size);
    var hi, lo, sz := Le(cluster / 0x1_0000, 2), Le(cluster % 0x1_0000, 2), Le(size, 4);
    assert Holds(e, 0, e);
    HoldsParts(e, 0, name, [attr] + (ZEROS + (ZEROS + (hi + (ZEROS + (lo + sz))))));
    HoldsParts(e, 11, [attr], ZEROS + (ZEROS + (hi + (ZEROS + (lo + sz)))));
    HoldsParts(e, 12, ZEROS, ZEROS + (hi + (ZEROS + (lo + sz))));
    HoldsParts(e, 16, ZEROS, hi + (ZEROS + (lo + sz)));
    HoldsParts(e, 20, hi, ZEROS + (lo + sz));
    HoldsParts(e, 22, ZEROS, lo + sz);
    HoldsParts(e, 26, lo, sz);
    HoldsAt(e, 11, [attr], 0);
    LeReads(e, 20, 2, cluster / 0x1_0000);
    LeReads(e, 26, 2, cluster % 0x1_0000);
    LeReads(e, 28, 4, size);
    assert e[..11] == name;
    assert e[..8] == e[..11][..8] && e[8..11] == e[..11][8..] && e[0] == e[..11][0];
  }

  /** The parts of the first `n`, the last first, as the reader collects them. */
  function PartsDown(padded: seq<nat>, n: nat): seq<Part>
    requires 13 * n <= |padded|
  {
    if n == 0 then [] else [PartAt(padded, n - 1)] + PartsDown(padded, n - 1)
  }

  lemma ReversedOnto(part: Part, parts: seq<Part>)
    ensures Reversed([part] + parts) == Reversed(parts) + part
  {
    assert ([part] + parts)[1..] == parts;
  }

  lemma TakeOneMore(padded: seq<nat>, k: nat)
    requires k + 13 <= |padded|
    ensures padded[..k] + padded[k..k + 13] == padded[..k + 13]
  {
  }

  lemma {:induction false} PartsReversed(padded: seq<nat>, n: nat)
    requires 13 * n <= |padded|
    ensures Reversed(PartsDown(padded, n)) == padded[..13 * n]
  {
    hide Reversed;
    if n == 0 {
      ReversedNone();
    } else {
      PartsReversed(padded, n - 1);
      ReversedOnto(PartAt(padded, n - 1), PartsDown(padded, n - 1));
      TakeOneMore(padded, 13 * (n - 1));
    }
  }

  lemma ReversedNone()
    ensures Reversed([]) == []
  {
  }

  lemma {:induction false} NameTaken(units: seq<nat>, rest: seq<nat>)
    requires forall i :: 0 <= i < |units| ==> units[i] != 0
    ensures TakeWhileNot0(units + ([0] + rest)) == units
  {
    var all := units + ([0] + rest);
    if units != [] {
      assert all[0] == units[0] && all[1..] == units[1..] + ([0] + rest);
      NameTaken(units[1..], rest);
    }
  }

  lemma LongNameRead(units: seq<nat>)
    requires ValidLong(units)
    ensures LongName(PartsDown(Padded(units), |Padded(units)| / 13)) == Some(units)
  {
    var padded := Padded(units);
    var n := |padded| / 13;
    PartsReversed(padded, n);
    assert padded[..13 * n] == padded == units + ([0] + seq(12 - |units| % 13, _ => 0xffff));
    NameTaken(units, seq(12 - |units| % 13, _ => 0xffff));
  }

  /** An entry before others is read, then the others. */
  lemma EntryThenRest(e: Chunk, rest: seq<Chunk>, parts: seq<Part>)
    requires e[0] != 0
    ensures EntriesOf([e] + rest, parts)
         == (if IsLive(e) then [LiveEntry(parts, e)] else []) + EntriesOf(rest, PartsAfter(parts, e))
  {
    hide LiveEntry, PartsAfter, IsLive;
    assert ([e] + rest)[1..] == rest;
  }

  lemma LongChunkTaken(part: Part, i: nat, last: bool, parts: seq<Part>)
    requires i < 0x40 && (!last ==> i + 1 < 0x40) && forall k :: 0 <= k < 13 ==> part[k] < 0x1_0000
    ensures var e := LongChunk(PartNumber(i, last), part);
            e[0] != 0 && !IsLive(e) && PartsAfter(parts, e) == (if last then [] else parts) + [part]
  {
    hide LongChunk, PartOf;
    LongChunkReads(PartNumber(i, last), part);
  }

  lemma {:induction false} PartsCollected(padded: seq<nat>, n: nat, parts: seq<Part>, rest: seq<Chunk>)
    requires 13 * n <= |padded| <= 13 * 0x40 && forall i :: 0 <= i < |padded| ==> padded[i] < 0x1_0000
    ensures EntriesOf(LongChunks(padded, n) + rest, parts)
         == EntriesOf(rest, (if n > 0 && 13 * n == |padded| then [] else parts) + PartsDown(padded, n))
    decreases n
  {
    hide LongChunk, EntriesOf, PartsAfter, IsLive;
    if n == 0 {
      assert LongChunks(padded, n) + rest == rest;
      assert parts + PartsDown(padded, 0) == parts;
    } else {
      var last := 13 * n == |padded|;
      var part := PartAt(padded, n - 1);
      LongChunkTaken(part, n - 1, last, parts);
      var e := LongChunk(PartNumber(n - 1, last), part);
      var kept := if last then [] else parts;
      var more := LongChunks(padded, n - 1) + rest;
      assert LongChunks(padded, n) + rest == [e] + more;
      EntryThenRest(e, more, parts);
      PartsCollected(padded, n - 1, kept + [part], rest);
      assert kept + [part] + PartsDown(padded, n - 1) == kept + PartsDown(padded, n);
    }
  }

  lemma ShortChunkTaken(name: seq<byte>, attr: byte, cluster: nat, size: nat, parts: seq<Part>)
    requires Live(None, name, attr, cluster, size).Valid()
    ensures var e := ShortChunk(name, attr, cluster, size);
            && e[0] != 0 && IsLive(e) && PartsAfter(parts, e) == []
            && LiveEntry(parts, e) == Entry(LongName(parts), name[..8], name[8..], cluster, size)
  {
    hide ShortChunk, GetLe, LongName;
    ShortChunkReads(name, attr, cluster, size);
  }

  lemma LiveRead(long: Option<seq<nat>>, name: seq<byte>, attr: byte, cluster: nat, size: nat, rest: seq<Chunk>)
    requires Live(long, name, attr, cluster, size).Valid()
    ensures EntriesOf(ChunksOf(Live(long, name, attr, cluster, size)) + rest, [])
         == [Entry(long, name[..8], name[8..], cluster, size)] + EntriesOf(rest, [])
  {
    hide LongChunk, ShortChunk, Padded, LongChunks, LongName, EntriesOf, PartsAfter, IsLive, LiveEntry, PartsDown;
    var e := ShortChunk(name, attr, cluster, size);
    var chunks := ChunksOf(Live(long, name, attr, cluster, size));
    if long.None? {
      ShortChunkTaken(name, attr, cluster, size, []);
      EntryThenRest(e, rest, []);
      NoParts();
      assert chunks + rest == [e] + rest;
    } else {
      var padded := Padded(long.value);
      var n := |padded| / 13;
      var parts := PartsDown(padded, n);
      PaddedUnits(long.value);
      PartsCollected(padded, n, [], [e] + rest);
      assert chunks + rest == LongChunks(padded, n) + ([e] + rest);
      assert [] + parts == parts;
      ShortChunkTaken(name, attr, cluster, size, parts);
      EntryThenRest(e, rest, parts);
      LongNameRead(long.value);
    }
  }

  lemma NoParts()
    ensures LongName([]) == None
  {
  }

  lemma ItemRead(item: Item, rest: seq<Chunk>)
    requires item.Valid()
    ensures EntriesOf(ChunksOf(item) + rest, []) == LiveIn(item) + EntriesOf(rest, [])
  {
    hide EntriesOf, LiveEntry, LongChunks, Padded, ShortChunk;
    match item
    case Live(long, name, attr, cluster, size) =>
      LiveRead(long, name, attr, cluster, size, rest);
    case Deleted(chunk) =>
      EntryThenRest(chunk, rest, []);
    case Label(chunk) =>
      EntryThenRest(chunk, rest, []);
  }

  lemma PaddedUnits(units: seq<nat>)
    requires ValidLong(units)
    ensures forall i :: 0 <= i < |Padded(units)| ==> Padded(units)[i] < 0x1_0000
    ensures 0 < 13 * (|Padded(units)| / 13) == |Padded(units)| <= 13 * 0x40
  {
  }

  lemma {:induction false} ItemsRead(items: seq<Item>, rest: seq<Chunk>)
    requires forall i :: 0 <= i < |items| ==> items[i].Valid()
    ensures EntriesOf(WrittenChunks(items) + rest, []) == LiveOf(items) + EntriesOf(rest, [])
    decreases |items|
  {
    hide EntriesOf, ChunksOf, LiveIn;
    if items == [] {
      assert WrittenChunks(items) + rest == rest;
    } else {
      var tail := WrittenChunks(items[1..]) + rest;
      assert WrittenChunks(items) + rest == ChunksOf(items[0]) + tail;
      ItemRead(items[0], tail);
      ItemsRead(items[1..], rest);
    }
  }

  lemma ChunkThenRest(c: Chunk, rest: seq<byte>)
    ensures Chunks(c + rest) == [c] + Chunks(rest)
  {
    assert (c + rest)[..32] == c && (c + rest)[32..] == rest;
  }

  lemma {:induction false} ChunksOfFlat(chunks: seq<Chunk>, tail: seq<byte>)
    ensures Chunks(Flat(chunks) + tail) == chunks + Chunks(tail)
  {
    hide Chunks;
    if chunks == [] {
      assert Flat(chunks) + tail == tail;
    } else {
      var rest := Flat(chunks[1..]) + tail;
      assert Flat(chunks) + tail == chunks[0] + rest;
      ChunkThenRest(chunks[0], rest);
      ChunksOfFlat(chunks[1..], tail);
    }
  }

  /** A directory read is the directory written: its live entries, with their long names, 8.3 names,
      clusters and sizes, whatever stands between them, and whatever follows its end. */
  lemma WrittenDirectoryReadsBack(items: seq<Item>, tail: seq<byte>)
    requires forall i :: 0 <= i < |items| ==> items[i].Valid()
    requires |tail| < 32 || tail[0] == 0
    ensures EntriesOf(Chunks(Flat(WrittenChunks(items)) + tail), []) == LiveOf(items)
  {
    ChunksOfFlat(WrittenChunks(items), tail);
    ItemsRead(items, Chunks(tail));
    NoMore(Chunks(tail), []);
  }

  // ---- names

  /** The standard library's decoders, which put a replacement character for what is not valid. */
  datatype Decoders = Decoders(utf8: seq<byte> -> string, utf16: seq<nat> -> string)

  predicate IsSpace(c: char) {
    || '\t' <= c <= '\r' || c == ' ' || c == '\U{85}' || c == '\U{a0}' || c == '\U{1680}'
    || '\U{2000}' <= c <= '\U{200a}' || c == '\U{2028}' || c == '\U{2029}' || c == '\U{202f}'
    || c == '\U{205f}' || c == '\U{3000}'
  }

  /** Unicode's white space, by its ranges' ends and what stands beside them. */
  lemma SpacesAre()
    ensures IsSpace('\t') && IsSpace('\n') && IsSpace('\r') && IsSpace(' ') && IsSpace('\U{85}') && IsSpace('\U{a0}')
    ensures IsSpace('\U{1680}') && IsSpace('\U{2000}') && IsSpace('\U{200a}') && IsSpace('\U{2028}') && IsSpace('\U{2029}')
    ensures IsSpace('\U{202f}') && IsSpace('\U{205f}') && IsSpace('\U{3000}')
    ensures !IsSpace('\U{8}') && !IsSpace('\U{e}') && !IsSpace('!') && !IsSpace('\U{84}') && !IsSpace('\U{86}')
    ensures !IsSpace('\U{1fff}') && !IsSpace('\U{200b}') && !IsSpace('.')
  {
  }

  function TrimEnd(s: string): string {
    if s != [] && IsSpace(s[|s| - 1]) then TrimEnd(s[..|s| - 1]) else s
  }

  function TrimEndDots(s: string): string {
    if s != [] && s[|s| - 1] == '.' then TrimEndDots(s[..|s| - 1]) else s
  }

  function ShortName(e: Entry, d: Decoders): string {
    TrimEndDots(TrimEnd(d.utf8(e.base)) + "." + TrimEnd(d.utf8(e.ext)))
  }

  function Lower(c: char): char {
    if 'A' <= c <= 'Z' then c + 32 as char else c
  }

  predicate EqIgnoreCase(a: string, b: string) {
    |a| == |b| && forall i :: 0 <= i < |a| ==> Lower(a[i]) == Lower(b[i])
  }

  predicate Is(e: Entry, name: string, d: Decoders) {
    || (e.long.Some? && EqIgnoreCase(d.utf16(e.long.value), name))
    || EqIgnoreCase(ShortName(e, d), name)
  }

  // ---- names found

  /** The same character, or one ASCII letter in either case. */
  predicate SameLetter(a: char, b: char) {
    || a == b
    || ('A' <= a <= 'Z' && b as int == a as int + 32)
    || ('A' <= b <= 'Z' && a as int == b as int + 32)
  }

  predicate SameName(a: string, b: string) {
    |a| == |b| && forall i :: 0 <= i < |a| ==> SameLetter(a[i], b[i])
  }

  /** The entry has the long name, or the 8.3 name, whatever the case of their letters. */
  predicate Called(e: Entry, name: string, d: Decoders) {
    (e.long.Some? && SameName(d.utf16(e.long.value), name)) || SameName(ShortName(e, d), name)
  }

  lemma SameIff(a: string, b: string)
    ensures EqIgnoreCase(a, b) <==> SameName(a, b)
  {
    forall i | 0 <= i < |a| && |a| == |b| ensures Lower(a[i]) == Lower(b[i]) <==> SameLetter(a[i], b[i]) {
    }
  }

  /** A name finds an entry exactly when it is one of the entry's names in any case. */
  lemma IsIff(e: Entry, name: string, d: Decoders)
    ensures Is(e, name, d) <==> Called(e, name, d)
  {
    hide ShortName, EqIgnoreCase, SameName;
    if e.long.Some? {
      SameIff(d.utf16(e.long.value), name);
    }
    SameIff(ShortName(e, d), name);
  }

  // ---- 8.3 names

  /** The bytes of an 8.3 name's field of `width`, filled with spaces. */
  function Field(s: string, width: nat): (b: seq<byte>)
    requires Ascii(s) && |s| <= width
    ensures |b| == width
  {
    seq(width, i requires 0 <= i < width => if i < |s| then s[i] as int else 0x20)
  }

  predicate Ascii(s: string) {
    forall i :: 0 <= i < |s| ==> ' ' <= s[i] < '\U{7f}'
  }

  /** ASCII bytes decode to their characters. */
  ghost predicate AsciiDecodes(d: Decoders) {
    forall b: seq<byte> :: (forall i :: 0 <= i < |b| ==> b[i] < 0x80) ==>
      |d.utf8(b)| == |b| && forall i :: 0 <= i < |b| ==> d.utf8(b)[i] == b[i] as char
  }

  /** A field neither ends in a space nor holds a dot. */
  predicate FieldName(s: string) {
    Ascii(s) && '.' !in s && (s != [] ==> s[|s| - 1] != ' ')
  }

  lemma {:induction false} Trimmed(s: string, k: nat, name: string)
    requires |name| <= k <= |s| && s[..|name|] == name && FieldName(name)
    requires forall i :: |name| <= i < k ==> s[i] == ' '
    ensures TrimEnd(s[..k]) == name
    decreases k
  {
    if k > |name| {
      assert s[..k][..k - 1] == s[..k - 1];
      Trimmed(s, k - 1, name);
    } else if k > 0 {
      assert s[..k][k - 1] == name[k - 1];
    }
  }

  lemma FieldDecodes(s: string, width: nat, d: Decoders)
    requires AsciiDecodes(d) && FieldName(s) && |s| <= width
    ensures TrimEnd(d.utf8(Field(s, width))) == s
  {
    var t := d.utf8(Field(s, width));
    assert t[..|s|] == s;
    Trimmed(t, width, s);
    assert t[..width] == t;
  }

  lemma DotsTrimmed(base: string, ext: string)
    requires base != [] && '.' !in base && '.' !in ext
    ensures TrimEndDots(base + "." + ext) == if ext == "" then base else base + "." + ext
  {
    var s := base + "." + ext;
    if ext == "" {
      assert s[..|s| - 1] == base;
      assert base[|base| - 1] in base;
    } else {
      assert ext[|ext| - 1] in ext && s[|s| - 1] == ext[|ext| - 1];
    }
  }

  /** An 8.3 name reads with its dot, or without one where it has no extension. */
  lemma ShortNameReadsBack(base: string, ext: string, e: Entry, d: Decoders)
    requires AsciiDecodes(d) && FieldName(base) && FieldName(ext) && 0 < |base| <= 8 && |ext| <= 3
    requires e.base == Field(base, 8) && e.ext == Field(ext, 3)
    ensures ShortName(e, d) == if ext == "" then base else base + "." + ext
  {
    FieldDecodes(base, 8, d);
    FieldDecodes(ext, 3, d);
    DotsTrimmed(base, ext);
  }
}
