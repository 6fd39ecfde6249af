/** The OpenCore image reader whole: an image opened, its GPT's EFI system partition found, and a file
    read from the FAT32 volume there. What it reads is a matter of the guest's disk alone, not of the
    image that holds it. */
module OpenCore {
  import opened Bytes
  import opened Images
  import opened ImageWriter
  import opened Directory
  import opened Fat
  import opened Options

  const SECTOR: nat := 512

  /** C12A7328-F81F-11D2-BA4B-00A0C93EC93B, as a GPT stores it. */
  const ESP_TYPE: seq<byte> :=
    [0x28, 0x73, 0x2a, 0xc1, 0x1f, 0xf8, 0xd2, 0x11, 0xba, 0x4b, 0x00, 0xa0, 0xc9, 0x3e, 0xc9, 0x3b]

  const EFI_PART: seq<byte> := [0x45, 0x46, 0x49, 0x20, 0x50, 0x41, 0x52, 0x54]

  /** The first GPT entry, of `size` bytes each, for an EFI system partition. */
  function FindEsp(entries: seq<byte>, size: nat): (e: Option<seq<byte>>)
    requires size >= 128
    ensures e.Some? ==> |e.value| == size
  {
    if |entries| < size then None
    else if entries[..16] == ESP_TYPE then Some(entries[..size])
    else FindEsp(entries[size..], size)
  }

  /** A GPT's entries: where they are, how many, and the size of each. */
  datatype Table = Table(at: nat, count: nat, size: nat)

  function ReadHeader(h: seq<byte>): (t: Option<Table>)
    requires |h| == SECTOR
    ensures t.Some? ==> t.value.size >= 128
  {
    var size, count := GetLe(h, 84, 4), GetLe(h, 80, 4);
    if h[..8] != EFI_PART || !(128 <= size <= 4096) then None
    else Some(Table(Wrap64(GetLe(h, 72, 8) * SECTOR), if count < 128 then count else 128, size))
  }

  /** A header is read exactly with the signature and entries of 128 to 4096 bytes; 128 entries are read at
      most. */
  lemma HeaderIff(h: seq<byte>)
    requires |h| == SECTOR
    ensures var t := ReadHeader(h);
            && (t.Some? <==> h[..8] == EFI_PART && 128 <= GetLe(h, 84, 4) <= 4096)
            && (t.Some? ==>
                  && t.value.size == GetLe(h, 84, 4) && t.value.count <= 128 && t.value.count <= GetLe(h, 80, 4)
                  && (t.value.count == 128 || t.value.count == GetLe(h, 80, 4)))
  {
    hide GetLe, Wrap64;
  }

  /** Where no entry is an EFI system partition's, none is found. */
  lemma {:induction false} NoEsp(entries: seq<byte>, size: nat)
    requires size >= 128
    requires forall k: nat :: EntryStart(k, size) + size <= |entries| ==>
               entries[EntryStart(k, size)..EntryStart(k, size) + 16] != ESP_TYPE
    ensures FindEsp(entries, size) == None
    decreases |entries|
  {
    if |entries| >= size {
      assert EntryStart(0, size) == 0 && entries[0..16] == entries[..16];
      forall k: nat | EntryStart(k, size) + size <= |entries[size..]|
        ensures entries[size..][EntryStart(k, size)..EntryStart(k, size) + 16] != ESP_TYPE {
        TimesOneMore(k + 1, size);
        assert EntryStart(k + 1, size) == EntryStart(k, size) + size;
        var o := EntryStart(k, size);
        assert entries[size..][o..o + 16] == entries[size + o..size + o + 16];
      }
      NoEsp(entries[size..], size);
    }
  }

  function EntryStart(k: nat, size: nat): nat { k * size }

  /** The first byte of the EFI system partition, by the GPT's header and entries. */
  ghost function EspStart(img: Image): Option<nat> {
    var h := ReadAt(img, SECTOR, SECTOR);
    var t := if h.None? then None else ReadHeader(h.value);
    if t.None? then None
    else
      var entries := ReadAt(img, t.value.at, Product(t.value.count, t.value.size));
      var e := if entries.None? then None else FindEsp(entries.value, t.value.size);
      if e.None? then None else Some(Wrap64(GetLe(e.value, 32, 8) * SECTOR))
  }

  /** The file at `names` of an open image's EFI system partition. */
  ghost function FileIn(img: Image, names: seq<string>, d: Decoders): Found {
    var start := EspStart(img);
    if start.None? then Failed
    else
      var v := OpenVolume(img, start.value);
      if v.None? then Failed else FileAt(img, v.value, v.value.root, names, d)
  }

  ghost function ReadConfig(file: seq<byte>, format: Format, names: seq<string>, d: Decoders): Found {
    var img := Open(file, format);
    if img.None? then Failed else FileIn(img.value, names, d)
  }

  method ReadStart(img: Image) returns (start: Option<nat>)
    ensures start == EspStart(img)
  {
    hide ReadAt, GetLe, Wrap64, FindEsp, ReadHeader;
    var header := new byte[SECTOR];
    var ok := ReadDisk(img, SECTOR, header);
    if !ok || ReadHeader(header[..]).None? {
      return None;
    }
    var t := ReadHeader(header[..]).value;
    var entries := new byte[Product(t.count, t.size)];
    ok := ReadDisk(img, t.at, entries);
    if !ok || FindEsp(entries[..], t.size).None? {
      return None;
    }
    start := Some(Wrap64(GetLe(FindEsp(entries[..], t.size).value, 32, 8) * SECTOR));
  }

  method ReadConfigFile(file: seq<byte>, format: Format, names: seq<string>, d: Decoders) returns (r: Found)
    ensures r == ReadConfig(file, format, names, d)
  {
    hide ReadAt, EspStart, FileAt, FromBootSector, OpenQcow2;
    var img := Open(file, format);
    if img.None? {
      return Failed;
    }
    var start := ReadStart(img.value);
    if start.None? {
      return Failed;
    }
    var sector := new byte[512];
    var ok := ReadDisk(img.value, start.value, sector);
    if !ok || FromBootSector(sector[..], start.value).None? {
      return Failed;
    }
    ghost var v := OpenVolume(img.value, start.value);
    r := ReadFile(img.value, FromBootSector(sector[..], start.value).value, names, d);
  }

  // ---- the same disk, the same answers

  /** Two images of one guest disk. */
  ghost predicate SameDisk(a: Image, b: Image) {
    a.Size() == b.Size() && forall g :: 0 <= g < a.Size() ==> ByteAt(a, g) == ByteAt(b, g)
  }

  lemma SameRead(a: Image, b: Image, offset: nat, n: nat)
    requires SameDisk(a, b)
    ensures ReadAt(a, offset, n) == ReadAt(b, offset, n)
  {
    hide ByteAt;
    if offset + n <= a.Size() {
      assert forall g :: offset <= g < offset + n ==> ByteOr0(a, g) == ByteOr0(b, g);
      assert forall g :: offset <= g < offset + n ==> Readable(a, g) == Readable(b, g);
      assert BytesAt(a, offset, n) == BytesAt(b, offset, n);
    }
  }

  lemma SameVisit(a: Image, b: Image, v: Volume, c: nat)
    requires SameDisk(a, b)
    ensures IsData(c) ==> ClusterData(a, v, c) == ClusterData(b, v, c)
    ensures Link(a, v, c) == Link(b, v, c) && CanVisit(a, v, c) == CanVisit(b, v, c)
  {
    hide ReadAt, SameDisk, Wrap64, GetLe;
    if IsData(c) {
      SameRead(a, b, DataOffset(v, c), v.clusterSize);
    }
    SameRead(a, b, LinkOffset(v, c), 4);
  }

  lemma {:induction false} SameChain(a: Image, b: Image, v: Volume, first: nat, most: nat)
    requires SameDisk(a, b) && v.clusterSize > 0
    ensures Chain(a, v, first, most) == Chain(b, v, first, most)
    decreases most
  {
    hide SameDisk, CanVisit, Link;
    SameVisit(a, b, v, first);
    if most > 0 && IsData(first) && CanVisit(a, v, first) {
      CanFollow(a, v, first);
      SameChain(a, b, v, Link(a, v, first).value, Less(most, v.clusterSize));
    }
  }

  lemma CanFollow(img: Image, v: Volume, c: nat)
    requires CanVisit(img, v, c)
    ensures Link(img, v, c).Some?
  {
  }

  lemma {:induction false} SameContent(a: Image, b: Image, v: Volume, cs: seq<nat>)
    requires SameDisk(a, b)
    ensures Content(a, v, cs) == Content(b, v, cs)
  {
    hide SameDisk, ReadAt;
    if cs != [] {
      SameVisit(a, b, v, cs[0]);
      SameContent(a, b, v, cs[1..]);
    }
  }

  lemma SameBytes(a: Image, b: Image, v: Volume, first: nat, most: nat)
    requires SameDisk(a, b) && v.clusterSize > 0
    ensures ChainBytes(a, v, first, most) == ChainBytes(b, v, first, most)
  {
    hide SameDisk, Chain, Content;
    SameChain(a, b, v, first, most);
    if Chain(a, v, first, most).Some? {
      SameContent(a, b, v, Chain(a, v, first, most).value);
    }
  }

  lemma {:induction false} SameFile(a: Image, b: Image, v: Volume, dir: nat, names: seq<string>, d: Decoders)
    requires SameDisk(a, b) && v.clusterSize > 0
    ensures FileAt(a, v, dir, names, d) == FileAt(b, v, dir, names, d)
    decreases |names|
  {
    hide SameDisk, ChainBytes, EntriesOf, Chunks, FindEntry;
    if names != [] {
      SameBytes(a, b, v, dir, MOST);
      var es := Directories(a, v, dir);
      if es.Some? && FindEntry(es.value, names[0], d).Some? {
        var e := FindEntry(es.value, names[0], d).value;
        SameBytes(a, b, v, e.cluster, Min(e.size, MOST));
        if |names| > 1 {
          SameFile(a, b, v, e.cluster, names[1..], d);
        }
      }
    }
  }

  lemma SameEsp(a: Image, b: Image)
    requires SameDisk(a, b)
    ensures EspStart(a) == EspStart(b)
  {
    hide SameDisk, ReadAt, GetLe, Wrap64, FindEsp, ReadHeader;
    SameRead(a, b, SECTOR, SECTOR);
    var h := ReadAt(a, SECTOR, SECTOR);
    if h.Some? && |h.value| == SECTOR && ReadHeader(h.value).Some? {
      var t := ReadHeader(h.value).value;
      SameRead(a, b, t.at, Product(t.count, t.size));
    }
  }

  /** Any two images of one disk give the same file. */
  lemma SameConfig(a: Image, b: Image, names: seq<string>, d: Decoders)
    requires SameDisk(a, b)
    ensures FileIn(a, names, d) == FileIn(b, names, d)
  {
    hide SameDisk, EspStart, ReadAt, FileAt, FromBootSector;
    SameEsp(a, b);
    if EspStart(a).Some? {
      SameRead(a, b, EspStart(a).value, 512);
      var v := OpenVolume(a, EspStart(a).value);
      if v.Some? {
        SameFile(a, b, v.value, v.value.root, names, d);
      }
    }
  }

  /** A file is read alike from a raw disk and from any qcow2 image of it a writer makes. */
  lemma WrittenImageReadsAsRaw(w: Plan, names: seq<string>, d: Decoders)
    requires w.Valid()
    ensures ReadConfig(w.File(), Qcow2Format, names, d) == ReadConfig(w.disk, RawFormat, names, d)
  {
    hide FileIn, OpenQcow2, ByteAt, Plan.File, Plan.Valid;
    WrittenDiskReadsBack(w);
    var img := OpenQcow2(w.File()).value;
    forall g | 0 <= g < |w.disk| ensures ByteAt(img, g) == ByteAt(Raw(w.disk), g) {
      RawByte(w.disk, g);
    }
    SameConfig(img, Raw(w.disk), names, d);
  }

  lemma RawByte(disk: seq<byte>, g: nat)
    requires g < |disk|
    ensures ByteAt(Raw(disk), g) == Some(disk[g])
  {
  }
}
