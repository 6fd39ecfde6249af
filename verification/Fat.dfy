/** A FAT32 volume in an image: cluster chains, which may be cyclic, and files found by their paths.
    (Microsoft's FAT specification 1.03.) */
module Fat {
  import opened Bytes
  import opened Images
  import opened Directory
  import opened Options

  /** What the boot sector comes to: the image's bytes at which the first FAT starts, and the data with
      cluster 2, a cluster's bytes, and the root directory's first cluster. */
  datatype Volume = Volume(fat: nat, data: nat, clusterSize: nat, root: nat)

  /** Past these bytes a chain is not followed. */
  const MOST: nat := 0x100_0000

  /** A volume as its boot sector `b`, at `start`, describes it. */
  function FromBootSector(b: seq<byte>, start: nat): Option<Volume>
    requires |b| == 512
  {
    var sector, perCluster: nat := GetLe(b, 11, 2), b[13];
    var reserved, fats: nat, fatSectors := GetLe(b, 14, 2), b[16], GetLe(b, 36, 4);
    if b[510] != 0x55 || b[511] != 0xaa || GetLe(b, 22, 2) != 0 || fatSectors == 0 then None
    else if sector < 512 || perCluster == 0 then None
    else Some(Volume(Wrap64(start + reserved * sector), Wrap64(start + (reserved + fats * fatSectors) * sector),
                     Product(perCluster, sector), GetLe(b, 44, 4)))
  }

  /** A boot sector is a FAT32 volume's exactly with the signature, no FAT of 16 bits, sectors for its FAT, of
      512 bytes at least, and clusters of some. */
  lemma BootIff(b: seq<byte>, start: nat)
    requires |b| == 512
    ensures FromBootSector(b, start).Some?
       <==> && b[510] == 0x55 && b[511] == 0xaa && GetLe(b, 22, 2) == 0 && GetLe(b, 36, 4) > 0
            && GetLe(b, 11, 2) >= 512 && b[13] > 0
  {
    hide GetLe, Wrap64, Product;
  }

  function Product(a: nat, b: nat): (p: nat)
    ensures a > 0 && b > 0 ==> p > 0
  {
    a * b
  }

  ghost function OpenVolume(img: Image, start: nat): (r: Option<Volume>)
    ensures r.Some? ==> r.value.clusterSize > 0
  {
    var b := ReadAt(img, start, 512);
    if b.None? then None else FromBootSector(b.value, start)
  }

  // ---- chains

  predicate IsData(c: nat) { 2 <= c < 0x0fff_fff8 }

  function DataOffset(v: Volume, c: nat): nat
    requires IsData(c)
  {
    Wrap64(v.data + (c - 2) * v.clusterSize)
  }

  function LinkOffset(v: Volume, c: nat): nat { Wrap64(v.fat + 4 * c) }

  ghost function ClusterData(img: Image, v: Volume, c: nat): Option<seq<byte>>
    requires IsData(c)
  {
    ReadAt(img, DataOffset(v, c), v.clusterSize)
  }

  /** The cluster after `c`. */
  ghost function Link(img: Image, v: Volume, c: nat): Option<nat> {
    match ReadAt(img, LinkOffset(v, c), 4)
    case None => None
    case Some(b) => Some(GetLe(b, 0, 4) % 0x1000_0000)
  }

  ghost predicate CanVisit(img: Image, v: Volume, c: nat) {
    IsData(c) && ClusterData(img, v, c).Some? && Link(img, v, c).Some?
  }

  function Less(most: nat, n: nat): nat { if most <= n then 0 else most - n }

  /** The clusters from `first` that hold `most` bytes, or all there are; None where one of them, or
      its link, cannot be read. */
  ghost function Chain(img: Image, v: Volume, first: nat, most: nat): Option<seq<nat>>
    requires v.clusterSize > 0
    decreases most
  {
    if most == 0 || !IsData(first) then Some([])
    else if !CanVisit(img, v, first) then None
    else
      match Chain(img, v, Link(img, v, first).value, Less(most, v.clusterSize))
      case None => None
      case Some(rest) => Some([first] + rest)
  }

  ghost function Content(img: Image, v: Volume, clusters: seq<nat>): seq<byte> {
    if clusters == [] then
      []
    else
      (if CanVisit(img, v, clusters[0]) then ClusterData(img, v, clusters[0]).value else [])
      + Content(img, v, clusters[1..])
  }

  function Truncated(s: seq<byte>, most: nat): seq<byte> {
    if |s| <= most then s else s[..most]
  }

  /** At most `most` bytes of the chain from `first`. */
  ghost function ChainBytes(img: Image, v: Volume, first: nat, most: nat): Option<seq<byte>>
    requires v.clusterSize > 0
  {
    match Chain(img, v, first, most)
    case None => None
    case Some(clusters) => Some(Truncated(Content(img, v, clusters), most))
  }

  lemma {:induction false} ContentOneMore(img: Image, v: Volume, clusters: seq<nat>, c: nat)
    requires CanVisit(img, v, c)
    ensures Content(img, v, clusters + [c]) == Content(img, v, clusters) + ClusterData(img, v, c).value
  {
    hide ReadAt;
    if clusters == [] {
      assert Content(img, v, [c]) == ClusterData(img, v, c).value + Content(img, v, []);
    } else {
      ContentOneMore(img, v, clusters[1..], c);
      assert (clusters + [c])[1..] == clusters[1..] + [c];
    }
  }

  /** What the clusters before have to do with the whole chain: they come before what is left of it. */
  ghost predicate Visited(whole: Option<seq<nat>>, visited: seq<nat>, left: Option<seq<nat>>) {
    whole == match left case None => None case Some(rest) => Some(visited + rest)
  }

  method ReadChain(img: Image, v: Volume, first: nat, most: nat) returns (r: Option<seq<byte>>)
    requires v.clusterSize > 0
    ensures r == ChainBytes(img, v, first, most)
  {
    hide ReadAt, Content, GetLe, Wrap64;
    var out: seq<byte> := [];
    var c: nat := first;
    ghost var visited: seq<nat> := [];
    ghost var whole := Chain(img, v, first, most);
    EmptyContent(img, v);
    assert forall rest: seq<nat> :: [] + rest == rest;
    while IsData(c) && |out| < most
      invariant Visited(whole, visited, Chain(img, v, c, Less(most, |out|)))
      invariant out == Content(img, v, visited)
      decreases most - |out|
    {
      var part := new byte[v.clusterSize];
      var read := ReadDisk(img, DataOffset(v, c), part);
      if !read {
        return None;
      }
      var next := new byte[4];
      read := ReadDisk(img, LinkOffset(v, c), next);
      if !read {
        return None;
      }
      ContentOneMore(img, v, visited, c);
      assert forall rest: seq<nat> :: visited + ([c] + rest) == visited + [c] + rest;
      out := out + part[..];
      visited := visited + [c];
      c := GetLe(next[..], 0, 4) % 0x1000_0000;
    }
    assert visited + [] == visited;
    r := Some(Truncated(out, most));
  }

  lemma EmptyContent(img: Image, v: Volume)
    ensures Content(img, v, []) == []
  {
  }

  /** A chain, cyclic or not, is followed only as far as `most` bytes need: all but the last of its
      clusters hold fewer. */
  lemma {:induction false} ChainIsShort(img: Image, v: Volume, first: nat, most: nat)
    requires v.clusterSize > 0 && Chain(img, v, first, most).Some?
    ensures var n := |Chain(img, v, first, most).value|; n > 0 ==> (n - 1) * v.clusterSize < most
    decreases most
  {
    hide ReadAt, Link, ClusterData;
    if most > 0 && IsData(first) {
      var next := Link(img, v, first).value;
      var left := Less(most, v.clusterSize);
      ChainIsShort(img, v, next, left);
      TimesOneMore(|Chain(img, v, next, left).value|, v.clusterSize);
    }
  }

  lemma TimesOneMore(n: nat, size: nat)
    ensures n * size == (n - 1) * size + size
  {
  }

  /** The clusters are linked one to the next from `first`, and each can be read. */
  ghost predicate Linked(img: Image, v: Volume, first: nat, cs: seq<nat>) {
    forall i :: 0 <= i < |cs| ==> CanVisit(img, v, cs[i]) && LinkedAt(img, v, first, cs, i)
  }

  ghost predicate LinkedAt(img: Image, v: Volume, first: nat, cs: seq<nat>, i: nat)
    requires i < |cs|
  {
    if i == 0 then cs[0] == first else Link(img, v, cs[i - 1]) == Some(cs[i])
  }

  /** Where the links lead after `cs`. */
  ghost function After(img: Image, v: Volume, first: nat, cs: seq<nat>): Option<nat> {
    if cs == [] then Some(first) else Link(img, v, cs[|cs| - 1])
  }

  lemma LinkedFrom(img: Image, v: Volume, first: nat, next: nat, rest: seq<nat>)
    requires CanVisit(img, v, first) && Link(img, v, first) == Some(next) && Linked(img, v, next, rest)
    ensures Linked(img, v, first, [first] + rest)
    ensures After(img, v, first, [first] + rest) == After(img, v, next, rest)
  {
    hide CanVisit, Link;
    var cs := [first] + rest;
    forall i | 0 <= i < |cs| ensures CanVisit(img, v, cs[i]) && LinkedAt(img, v, first, cs, i) {
      if i > 0 {
        assert CanVisit(img, v, rest[i - 1]) && LinkedAt(img, v, next, rest, i - 1);
      }
    }
  }

  /** `cs` is linked, and ends where the volume's chain from `first` ends or where it holds `most`
      bytes. */
  ghost predicate Follows(img: Image, v: Volume, first: nat, most: nat, cs: seq<nat>) {
    && Linked(img, v, first, cs)
    && After(img, v, first, cs).Some?
    && (|cs| * v.clusterSize < most ==> !IsData(After(img, v, first, cs).value))
  }

  lemma FollowsFrom(img: Image, v: Volume, first: nat, next: nat, most: nat, rest: seq<nat>)
    requires CanVisit(img, v, first) && Link(img, v, first) == Some(next)
    requires Follows(img, v, next, Less(most, v.clusterSize), rest)
    ensures Follows(img, v, first, most, [first] + rest)
  {
    hide CanVisit, Link, Linked, After;
    LinkedFrom(img, v, first, next, rest);
    assert |[first] + rest| * v.clusterSize == v.clusterSize + |rest| * v.clusterSize;
  }

  lemma {:induction false} ChainIsLinked(img: Image, v: Volume, first: nat, most: nat)
    requires v.clusterSize > 0 && Chain(img, v, first, most).Some?
    ensures Follows(img, v, first, most, Chain(img, v, first, most).value)
    decreases most
  {
    hide ReadAt, ClusterData, Linked;
    if most > 0 && IsData(first) {
      var next := Link(img, v, first).value;
      ChainIsLinked(img, v, next, Less(most, v.clusterSize));
      FollowsFrom(img, v, first, next, most, Chain(img, v, next, Less(most, v.clusterSize)).value);
    } else {
      NoneLinked(img, v, first);
    }
  }

  lemma NoneLinked(img: Image, v: Volume, first: nat)
    ensures Linked(img, v, first, [])
  {
  }

  lemma {:induction false} ContentLength(img: Image, v: Volume, cs: seq<nat>)
    requires forall i :: 0 <= i < |cs| ==> CanVisit(img, v, cs[i])
    ensures |Content(img, v, cs)| == |cs| * v.clusterSize
  {
    hide ReadAt, Link;
    if cs != [] {
      ContentLength(img, v, cs[1..]);
      assert CanVisit(img, v, cs[0]);
      assert |cs| * v.clusterSize == v.clusterSize + |cs[1..]| * v.clusterSize;
    }
  }

  // ---- files

  datatype Found = Failed | Missing | File(bytes: seq<byte>)

  /** The first entry called `name`. */
  function FindEntry(es: seq<Entry>, name: string, d: Decoders): Option<Entry> {
    if es == [] then None
    else if Is(es[0], name, d) then Some(es[0])
    else FindEntry(es[1..], name, d)
  }

  ghost function Directories(img: Image, v: Volume, dir: nat): Option<seq<Entry>>
    requires v.clusterSize > 0
  {
    var bytes := ChainBytes(img, v, dir, MOST);
    if bytes.None? then None else Some(EntriesOf(Chunks(bytes.value), []))
  }

  /** The bytes of the file an entry names: all `size` of them, or a failure. */
  ghost function FileOf(img: Image, v: Volume, e: Entry): Found
    requires v.clusterSize > 0
  {
    var bytes := ChainBytes(img, v, e.cluster, Min(e.size, MOST));
    if bytes.None? || |bytes.value| != e.size then Failed else File(bytes.value)
  }

  /** The file at the path `names` under the directory at cluster `dir`. */
  ghost function FileAt(img: Image, v: Volume, dir: nat, names: seq<string>, d: Decoders): Found
    requires v.clusterSize > 0
    decreases |names|
  {
    if names == [] then Missing
    else
      var es := Directories(img, v, dir);
      if es.None? then Failed
      else
        var e := FindEntry(es.value, names[0], d);
        if e.None? then Missing
        else if |names| > 1 then FileAt(img, v, e.value.cluster, names[1..], d)
        else FileOf(img, v, e.value)
  }

  method FindFirst(es: seq<Entry>, name: string, d: Decoders) returns (r: Option<Entry>)
    ensures r == FindEntry(es, name, d)
  {
    hide Is;
    var i := 0;
    while i < |es|
      invariant 0 <= i <= |es|
      invariant FindEntry(es, name, d) == FindEntry(es[i..], name, d)
    {
      if Is(es[i], name, d) {
        return Some(es[i]);
      }
      assert es[i..][1..] == es[i + 1..];
      i := i + 1;
    }
    r := None;
  }

  method ReadFile(img: Image, v: Volume, names: seq<string>, d: Decoders) returns (r: Found)
    requires v.clusterSize > 0
    ensures r == FileAt(img, v, v.root, names, d)
  {
    hide ChainBytes, FindEntry, EntriesOf, Chunks;
    var dir: nat := v.root;
    var i := 0;
    assert names[0..] == names;
    while i < |names|
      invariant 0 <= i <= |names|
      invariant FileAt(img, v, v.root, names, d) == FileAt(img, v, dir, names[i..], d)
    {
      assert names[i..][0] == names[i] && names[i..][1..] == names[i + 1..];
      var bytes := ReadChain(img, v, dir, MOST);
      if bytes.None? {
        return Failed;
      }
      var es := ReadEntries(bytes.value);
      var e := FindFirst(es, names[i], d);
      if e.None? {
        return Missing;
      }
      if i + 1 < |names| {
        dir := e.value.cluster;
      } else {
        bytes := ReadChain(img, v, e.value.cluster, Min(e.value.size, MOST));
        if bytes.None? || |bytes.value| != e.value.size {
          return Failed;
        }
        return File(bytes.value);
      }
      i := i + 1;
    }
    r := Missing;
  }

  // ---- a written path

  /** A directory a writer left at `dir`, and the live entry, of index `taken`, a path goes on
      through. */
  datatype Step = Step(dir: nat, items: seq<Item>, tail: seq<byte>, taken: nat, entry: Entry)
  {
    /** The directory is there, in no more bytes than are read, with its end marked, and the entry
        taken is the first called `name`. */
    ghost predicate Holds(img: Image, v: Volume, name: string, d: Decoders)
      requires v.clusterSize > 0
    {
      && (forall i :: 0 <= i < |items| ==> items[i].Valid())
      && (|tail| < 32 || tail[0] == 0)
      && ChainBytes(img, v, dir, MOST) == Some(Flat(WrittenChunks(items)) + tail)
      && taken < |LiveOf(items)|
      && LiveOf(items)[taken] == entry && Called(entry, name, d)
      && forall i :: 0 <= i < taken ==> !Called(LiveOf(items)[i], name, d)
    }
  }

  /** The first entry that has the name, in any case, is found. */
  lemma {:induction false} FirstFound(es: seq<Entry>, k: nat, name: string, d: Decoders)
    requires k < |es| && Called(es[k], name, d) && forall i :: 0 <= i < k ==> !Called(es[i], name, d)
    ensures FindEntry(es, name, d) == Some(es[k])
  {
    hide Is, Called;
    IsIff(es[0], name, d);
    if k > 0 {
      assert !Called(es[0], name, d);
      assert forall i :: 0 <= i < k - 1 ==> es[1..][i] == es[i + 1];
      FirstFound(es[1..], k - 1, name, d);
    }
  }

  /** And where none has it, none is. */
  lemma {:induction false} NoneFound(es: seq<Entry>, name: string, d: Decoders)
    requires forall i :: 0 <= i < |es| ==> !Called(es[i], name, d)
    ensures FindEntry(es, name, d) == None
  {
    hide Is, Called;
    if es != [] {
      IsIff(es[0], name, d);
      NoneFound(es[1..], name, d);
    }
  }

  /** A path leads through the directories written along it to the bytes of the last entry's chain,
      which are the file if the chain holds the entry's size. */
  lemma {:induction false} WrittenPathIsRead(img: Image, v: Volume, names: seq<string>, steps: seq<Step>, d: Decoders)
    requires v.clusterSize > 0 && |steps| == |names| > 0
    requires forall k :: 0 <= k < |steps| ==> steps[k].Holds(img, v, names[k], d)
    requires forall k :: 0 < k < |steps| ==> steps[k].dir == steps[k - 1].entry.cluster
    ensures FileAt(img, v, steps[0].dir, names, d) == FileOf(img, v, steps[|steps| - 1].entry)
    decreases |names|
  {
    hide ChainBytes, Called, EntriesOf, Chunks, WrittenChunks, LiveOf, FindEntry, FileOf;
    var s := steps[0];
    assert s.Holds(img, v, names[0], d);
    WrittenDirectoryReadsBack(s.items, s.tail);
    FirstFound(LiveOf(s.items), s.taken, names[0], d);
    if |names| > 1 {
      assert steps[1].dir == s.entry.cluster;
      WrittenPathIsRead(img, v, names[1..], steps[1..], d);
    }
  }

  /** The entry the path `names` under `dir` ends at. */
  ghost function EntryAt(img: Image, v: Volume, dir: nat, names: seq<string>, d: Decoders): Option<Entry>
    requires v.clusterSize > 0
    decreases |names|
  {
    var es := Directories(img, v, dir);
    if names == [] || es.None? then None
    else
      var e := FindEntry(es.value, names[0], d);
      if e.Some? && |names| > 1 then EntryAt(img, v, e.value.cluster, names[1..], d) else e
  }

  /** A path gives a file exactly when it ends at an entry of no more bytes than are read of a chain and
      the entry's chain holds them all; the file is those bytes. */
  lemma {:induction false} FileHasItsSize(img: Image, v: Volume, dir: nat, names: seq<string>, d: Decoders, b: seq<byte>)
    requires v.clusterSize > 0
    ensures FileAt(img, v, dir, names, d) == File(b)
       <==> var e := EntryAt(img, v, dir, names, d);
            e.Some? && |b| == e.value.size <= MOST && ChainBytes(img, v, e.value.cluster, e.value.size) == Some(b)
    decreases |names|
  {
    hide Directories, FindEntry, Chain;
    var e := EntryAt(img, v, dir, names, d);
    if |names| > 1 && Directories(img, v, dir).Some? {
      var next := FindEntry(Directories(img, v, dir).value, names[0], d);
      if next.Some? {
        FileHasItsSize(img, v, next.value.cluster, names[1..], d, b);
      }
    }
  }

  /** A directory whose chain cannot be read fails the path, and a file whose chain cannot, or is short. */
  lemma Fails(img: Image, v: Volume, dir: nat, names: seq<string>, d: Decoders, e: Entry)
    requires v.clusterSize > 0
    ensures names != [] && ChainBytes(img, v, dir, MOST).None? ==> FileAt(img, v, dir, names, d) == Failed
    ensures var bytes := ChainBytes(img, v, e.cluster, Min(e.size, MOST));
            bytes.None? || |bytes.value| < e.size ==> FileOf(img, v, e) == Failed
  {
    hide ChainBytes;
  }

  /** A file of more than 16 MiB is never read. */
  lemma BiggerFails(img: Image, v: Volume, e: Entry)
    requires v.clusterSize > 0 && e.size > 0x100_0000
    ensures FileOf(img, v, e) == Failed
  {
  }
}
