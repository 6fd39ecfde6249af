/** A writer of FAT32 volumes: files and directories are put in chains of clusters, and the reader gets back
    each file whole by its path. (Microsoft's FAT specification 1.03.) */
module FatWriter {
  import opened Bytes
  import opened Images
  import opened Directory
  import opened Fat
  import opened Options

  /** A FAT, and the bytes of the clusters from cluster 2 on. An entry's low 28 bits are the next cluster;
      `last` ends a chain. */
  datatype Tables = Tables(size: nat, last: nat, links: seq<nat>, clusters: seq<seq<byte>>)
  {
    ghost predicate Valid() {
      && size > 0 && |links| == |clusters| + 2 && |links| <= 0x0fff_fff8
      && 0x0fff_fff8 <= last <= 0x0fff_ffff
      && (forall c :: 0 <= c < |links| ==> links[c] < U32)
      && (forall k :: 0 <= k < |clusters| ==> |clusters[k]| == size)
    }

    function Next(c: nat): nat
      requires c < |links|
    {
      links[c] % 0x1000_0000
    }

    predicate Has(c: nat) { 2 <= c < |links| && c - 2 < |clusters| }

    function Data(c: nat): seq<byte>
      requires Has(c)
    {
      clusters[c - 2]
    }
  }

  // ---- the tables on a disk

  function FatBytes(links: seq<nat>): (b: seq<byte>)
    ensures |b| == 4 * |links|
  {
    if links == [] then [] else Le(links[0], 4) + FatBytes(links[1..])
  }

  function Concat(parts: seq<seq<byte>>): seq<byte> {
    if parts == [] then [] else parts[0] + Concat(parts[1..])
  }

  /** The tables stand where the volume has them, on a disk of less than 2^64 bytes. */
  ghost predicate Lays(disk: seq<byte>, v: Volume, t: Tables) {
    && t.Valid() && v.clusterSize == t.size && |disk| < U64
    && Holds(disk, v.fat, FatBytes(t.links)) && Holds(disk, v.data, Concat(t.clusters))
  }

  lemma {:induction false} LinkHeld(b: seq<byte>, o: nat, links: seq<nat>, c: nat)
    requires Holds(b, o, FatBytes(links)) && c < |links|
    ensures Holds(b, o + 4 * c, Le(links[c], 4))
    decreases c
  {
    HoldsParts(b, o, Le(links[0], 4), FatBytes(links[1..]));
    if c > 0 {
      LinkHeld(b, o + 4, links[1..], c - 1);
    }
  }

  lemma {:induction false} PartHeld(b: seq<byte>, o: nat, parts: seq<seq<byte>>, size: nat, k: nat)
    requires Holds(b, o, Concat(parts)) && k < |parts| && forall j :: 0 <= j < |parts| ==> |parts[j]| == size
    ensures Holds(b, o + k * size, parts[k])
    decreases k
  {
    HoldsParts(b, o, parts[0], Concat(parts[1..]));
    if k > 0 {
      PartHeld(b, o + size, parts[1..], size, k - 1);
      TimesOneMore(k, size);
    }
  }

  lemma HeldIsRead(disk: seq<byte>, o: nat, e: seq<byte>)
    requires Holds(disk, o, e)
    ensures ReadAt(Raw(disk), o, |e|) == Some(e)
  {
    assert AllReadable(Raw(disk), o, o + |e|);
    var bytes := BytesAt(Raw(disk), o, |e|);
    forall k | 0 <= k < |e| ensures bytes[k] == e[k] {
      HoldsAt(disk, o, e, k);
    }
    assert bytes == e;
  }

  lemma WholeLe(x: nat)
    requires x < U32
    ensures GetLe(Le(x, 4), 0, 4) == x
  {
    assert Top(4) == 0x100 * Top(3) && Top(3) == 0x100 * Top(2) && Top(2) == 0x100 * Top(1) && Top(1) == 0x100;
    LeReads(Le(x, 4), 0, 4, x);
  }

  lemma LinkRead(disk: seq<byte>, v: Volume, t: Tables, c: nat)
    requires Lays(disk, v, t) && c < |t.links|
    ensures Link(Raw(disk), v, c) == Some(t.Next(c))
  {
    hide ReadAt, GetLe, Le, FatBytes, Wrap64, Holds;
    LinkHeld(disk, v.fat, t.links, c);
    HoldsFits(disk, v.fat + 4 * c, Le(t.links[c], 4));
    NoWrap64(v.fat + 4 * c);
    HeldIsRead(disk, v.fat + 4 * c, Le(t.links[c], 4));
    WholeLe(t.links[c]);
  }

  lemma DataRead(disk: seq<byte>, v: Volume, t: Tables, c: nat)
    requires Lays(disk, v, t) && t.Has(c)
    ensures IsData(c) && ClusterData(Raw(disk), v, c) == Some(t.Data(c))
  {
    hide ReadAt, FatBytes, Concat, Wrap64, Holds;
    PartHeld(disk, v.data, t.clusters, t.size, c - 2);
    var at := v.data + (c - 2) * t.size;
    HoldsFits(disk, at, t.Data(c));
    NoWrap64(at);
    HeldIsRead(disk, at, t.Data(c));
  }

  lemma NoWrap64(x: nat)
    requires x < U64
    ensures Wrap64(x) == x
  {
  }

  lemma HoldsFits(b: seq<byte>, o: nat, e: seq<byte>)
    requires Holds(b, o, e)
    ensures o + |e| <= |b|
  {
  }

  // ---- chains

  /** The clusters `cs` are linked one to the next, and the last to none. */
  ghost predicate Chained(t: Tables, cs: seq<nat>) {
    && (forall i :: 0 <= i < |cs| ==> t.Has(cs[i]))
    && (forall i :: 0 <= i < |cs| - 1 ==> t.Next(cs[i]) == cs[i + 1])
    && (cs != [] ==> !IsData(t.Next(cs[|cs| - 1])))
  }

  function Joined(t: Tables, cs: seq<nat>): seq<byte>
    requires forall i :: 0 <= i < |cs| ==> t.Has(cs[i])
  {
    if cs == [] then [] else t.Data(cs[0]) + Joined(t, cs[1..])
  }

  lemma {:induction false} JoinedLength(t: Tables, cs: seq<nat>)
    requires t.Valid() && forall i :: 0 <= i < |cs| ==> t.Has(cs[i])
    ensures |Joined(t, cs)| == |cs| * t.size
  {
    if cs != [] {
      JoinedLength(t, cs[1..]);
      TimesOneMore(|cs|, t.size);
    }
  }

  /** The clusters a reader visits are the chain's, or as many of them as hold what it wants. */
  lemma {:induction false} ChainVisited(disk: seq<byte>, v: Volume, t: Tables, cs: seq<nat>, most: nat)
    requires Lays(disk, v, t) && Chained(t, cs) && cs != []
    ensures var r := Chain(Raw(disk), v, cs[0], most);
            && r.Some? && r.value <= cs
            && (r.value == cs || |r.value| * t.size >= most)
    decreases |cs|
  {
    hide ReadAt, Link, ClusterData, Lays;
    VisitedIs(disk, v, t, cs[0]);
    if most > 0 {
      var next, left := t.Next(cs[0]), Less(most, v.clusterSize);
      if |cs| > 1 {
        var rest := cs[1..];
        assert rest[0] == next;
        ChainVisited(disk, v, t, rest, left);
        var r := Chain(Raw(disk), v, next, left).value;
        TimesOneMore(|r| + 1, t.size);
        assert [cs[0]] + r <= cs;
        assert [cs[0]] + rest == cs;
      } else {
        assert [cs[0]] + [] == cs;
      }
    }
  }

  lemma VisitedIs(disk: seq<byte>, v: Volume, t: Tables, c: nat)
    requires Lays(disk, v, t) && t.Has(c)
    ensures IsData(c) && CanVisit(Raw(disk), v, c) && Link(Raw(disk), v, c) == Some(t.Next(c))
    ensures ClusterData(Raw(disk), v, c) == Some(t.Data(c)) && v.clusterSize == t.size > 0
  {
    LinkRead(disk, v, t, c);
    DataRead(disk, v, t, c);
  }

  lemma {:induction false} ContentIs(disk: seq<byte>, v: Volume, t: Tables, cs: seq<nat>)
    requires Lays(disk, v, t) && forall i :: 0 <= i < |cs| ==> t.Has(cs[i])
    ensures Content(Raw(disk), v, cs) == Joined(t, cs)
  {
    hide ReadAt, Link, ClusterData, Lays, CanVisit;
    if cs != [] {
      VisitedIs(disk, v, t, cs[0]);
      ContentIs(disk, v, t, cs[1..]);
    }
  }

  lemma {:induction false} JoinedBoth(t: Tables, a: seq<nat>, b: seq<nat>)
    requires forall i :: 0 <= i < |a + b| ==> t.Has((a + b)[i])
    ensures (forall i :: 0 <= i < |a| ==> t.Has(a[i])) && (forall i :: 0 <= i < |b| ==> t.Has(b[i]))
    ensures Joined(t, a + b) == Joined(t, a) + Joined(t, b)
    decreases |a|
  {
    assert forall i :: 0 <= i < |a| ==> a[i] == (a + b)[i];
    assert forall i :: 0 <= i < |b| ==> b[i] == (a + b)[|a| + i];
    if a == [] {
      assert a + b == b;
    } else {
      assert (a + b)[1..] == a[1..] + b;
      JoinedBoth(t, a[1..], b);
    }
  }

  lemma AllHas(t: Tables, cs: seq<nat>)
    requires Chained(t, cs)
    ensures forall i :: 0 <= i < |cs| ==> t.Has(cs[i])
  {
  }

  /** Following a chain reads its clusters' bytes, or the first `most` of them. */
  lemma ChainIsRead(disk: seq<byte>, v: Volume, t: Tables, cs: seq<nat>, most: nat)
    requires Lays(disk, v, t) && Chained(t, cs) && cs != []
    ensures v.clusterSize > 0 && ChainBytes(Raw(disk), v, cs[0], most) == Some(Truncated(Joined(t, cs), most))
  {
    assert t.Valid() && v.clusterSize == t.size;
    hide Lays, Chain, Content, Joined, CanVisit, Chained, Tables.Has, Tables.Valid, Truncated;
    AllHas(t, cs);
    ChainVisited(disk, v, t, cs, most);
    var r := Chain(Raw(disk), v, cs[0], most).value;
    assert forall i :: 0 <= i < |r| ==> r[i] == cs[i];
    ContentIs(disk, v, t, r);
    if r != cs {
      var rest := cs[|r|..];
      assert cs == r + rest;
      JoinedBoth(t, r, rest);
      JoinedLength(t, r);
      SameTruncated(Joined(t, r), Joined(t, rest), most);
    }
  }

  lemma SameTruncated(a: seq<byte>, b: seq<byte>, most: nat)
    requires |a| >= most
    ensures Truncated(a + b, most) == Truncated(a, most)
  {
    assert (a + b)[..most] == a[..most];
  }

  // ---- putting bytes in a chain

  function Zeroed(n: nat): (z: seq<byte>)
    ensures |z| == n
  {
    seq(n, _ => 0)
  }

  function Filled(b: seq<byte>, size: nat): (c: seq<byte>)
    ensures |c| == size
  {
    if |b| < size then b + Zeroed(size - |b|) else b[..size]
  }

  function Rest(b: seq<byte>, size: nat): seq<byte> {
    if |b| < size then [] else b[size..]
  }

  /** An entry with its low 28 bits changed. */
  function Relinked(entry: nat, next: nat): nat { entry / 0x1000_0000 * 0x1000_0000 + next }

  /** The first of `cs` filled, and linked to the next. */
  function PutFirst(t: Tables, cs: seq<nat>, b: seq<byte>): (u: Tables)
    requires cs != [] && t.Has(cs[0])
    ensures u.size == t.size && u.last == t.last && |u.links| == |t.links| && |u.clusters| == |t.clusters|
    ensures forall c :: u.Has(c) <==> t.Has(c)
  {
    t.(links := t.links[cs[0] := Relinked(t.links[cs[0]], if |cs| > 1 then cs[1] else t.last)],
       clusters := t.clusters[cs[0] - 2 := Filled(b, t.size)])
  }

  /** The bytes `b` put in the clusters `cs`, in order, the last filled with zeros. */
  function Put(t: Tables, cs: seq<nat>, b: seq<byte>): (u: Tables)
    requires forall i :: 0 <= i < |cs| ==> t.Has(cs[i])
    ensures u.size == t.size && u.last == t.last && |u.links| == |t.links| && |u.clusters| == |t.clusters|
    ensures forall c :: u.Has(c) <==> t.Has(c)
    decreases |cs|
  {
    if cs == [] then t else Put(PutFirst(t, cs, b), cs[1..], Rest(b, t.size))
  }

  /** Two tables agree on the clusters `cs`. */
  ghost predicate Same(t: Tables, u: Tables, cs: seq<nat>) {
    forall c :: c in cs && t.Has(c) ==> u.Has(c) && u.links[c] == t.links[c] && u.Data(c) == t.Data(c)
  }

  /** Putting changes no other cluster. */
  lemma {:induction false} PutKeeps(t: Tables, cs: seq<nat>, b: seq<byte>, others: seq<nat>)
    requires forall i :: 0 <= i < |cs| ==> t.Has(cs[i])
    requires forall c :: c in cs ==> c !in others
    ensures Same(t, Put(t, cs, b), others)
    decreases |cs|
  {
    hide Filled;
    if cs != [] {
      assert cs[0] in cs;
      PutKeeps(PutFirst(t, cs, b), cs[1..], Rest(b, t.size), others);
    }
  }

  lemma {:induction false} SameChained(t: Tables, u: Tables, cs: seq<nat>)
    requires Chained(t, cs) && Same(t, u, cs)
    ensures Chained(u, cs) && Joined(u, cs) == Joined(t, cs)
    decreases |cs|
  {
    assert forall i :: 0 <= i < |cs| ==> cs[i] in cs;
    if cs != [] {
      if |cs| > 1 {
        ChainedRest(t, cs);
      }
      SameChained(t, u, cs[1..]);
    }
  }

  lemma ChainedRest(t: Tables, cs: seq<nat>)
    requires Chained(t, cs) && cs != []
    ensures Chained(t, cs[1..])
  {
    assert forall i :: 0 <= i < |cs| - 1 ==> cs[1..][i] == cs[i + 1];
  }

  lemma FirstPut(t: Tables, cs: seq<nat>, b: seq<byte>)
    requires t.Valid() && cs != [] && forall i :: 0 <= i < |cs| ==> t.Has(cs[i])
    ensures var u := PutFirst(t, cs, b);
            && u.Valid() && u.Has(cs[0])
            && u.Next(cs[0]) == (if |cs| > 1 then cs[1] else t.last) && u.Data(cs[0]) == Filled(b, t.size)
  {
    assert t.Has(cs[0]) && (|cs| > 1 ==> t.Has(cs[1]));
    var next := if |cs| > 1 then cs[1] else t.last;
    LowBits(t.links[cs[0]], next);
  }

  lemma LowBits(entry: nat, next: nat)
    requires entry < U32 && next < 0x1000_0000
    ensures Relinked(entry, next) < U32 && Relinked(entry, next) % 0x1000_0000 == next
  {
  }

  lemma ChainedMore(t: Tables, cs: seq<nat>)
    requires cs != [] && t.Has(cs[0]) && Chained(t, cs[1..])
    requires t.Valid() && t.Next(cs[0]) == if |cs| > 1 then cs[1] else t.last
    ensures Chained(t, cs)
  {
    assert forall i :: 0 < i < |cs| ==> cs[i] == cs[1..][i - 1];
  }

  ghost predicate Distinct(cs: seq<nat>) {
    forall i, j :: 0 <= i < j < |cs| ==> cs[i] != cs[j]
  }

  /** What was put is chained there, and followed by zeros. */
  lemma {:induction false} PutHolds(t: Tables, cs: seq<nat>, b: seq<byte>)
    requires t.Valid() && Distinct(cs) && |b| <= |cs| * t.size
    requires forall i :: 0 <= i < |cs| ==> t.Has(cs[i])
    ensures var u := Put(t, cs, b);
            u.Valid() && Chained(u, cs) && Joined(u, cs) == b + Zeroed(|cs| * t.size - |b|)
    decreases |cs|
  {
    hide Tables.Valid, Tables.Has, Chained, PutFirst, Filled, Rest, Zeroed, Put, Joined;
    if cs == [] {
      NothingPut(t, b);
    } else {
      var c, rest, more := cs[0], cs[1..], Rest(b, t.size);
      var u := PutFirst(t, cs, b);
      FirstPut(t, cs, b);
      PutIs(t, cs, b);
      assert |cs| * t.size == t.size + |rest| * t.size by {
        TimesOneMore(|cs|, t.size);
      }
      FilledThenRest(b, t.size, |rest| * t.size);
      assert forall i :: 0 <= i < |rest| ==> rest[i] == cs[i + 1];
      PutHolds(u, rest, more);
      PutKeeps(u, rest, more, [c]);
      assert c in [c];
      ChainedMore(Put(u, rest, more), cs);
      JoinedMore(Put(u, rest, more), cs);
    }
  }

  lemma JoinedMore(t: Tables, cs: seq<nat>)
    requires cs != [] && forall i :: 0 <= i < |cs| ==> t.Has(cs[i])
    ensures (forall i :: 0 <= i < |cs[1..]| ==> t.Has(cs[1..][i]))
    ensures Joined(t, cs) == t.Data(cs[0]) + Joined(t, cs[1..])
  {
  }

  lemma PutIs(t: Tables, cs: seq<nat>, b: seq<byte>)
    requires cs != [] && forall i :: 0 <= i < |cs| ==> t.Has(cs[i])
    ensures (forall i :: 0 <= i < |cs[1..]| ==> PutFirst(t, cs, b).Has(cs[1..][i]))
    ensures Put(t, cs, b) == Put(PutFirst(t, cs, b), cs[1..], Rest(b, t.size))
  {
    hide PutFirst, Rest;
  }

  lemma NothingPut(t: Tables, b: seq<byte>)
    requires |b| <= 0
    ensures Put(t, [], b) == t && Chained(t, []) && Joined(t, []) == b + Zeroed(0 - |b|)
  {
  }

  lemma FilledThenRest(b: seq<byte>, size: nat, more: nat)
    requires |b| <= size + more
    ensures |Rest(b, size)| <= more
    ensures Filled(b, size) + (Rest(b, size) + Zeroed(more - |Rest(b, size)|)) == b + Zeroed(size + more - |b|)
  {
  }

  // ---- several files

  /** Bytes, and the clusters they are put in. */
  datatype File = File(clusters: seq<nat>, bytes: seq<byte>)

  /** No file has a cluster the tables have not. */
  ghost predicate AllHad(t: Tables, files: seq<File>) {
    forall f :: f in files ==> forall i :: 0 <= i < |f.clusters| ==> t.Has(f.clusters[i])
  }

  ghost function PutAll(t: Tables, files: seq<File>): (u: Tables)
    requires AllHad(t, files)
    ensures u.size == t.size && |u.links| == |t.links| && |u.clusters| == |t.clusters|
    decreases |files|
  {
    if files == [] then t
    else
      assert files[0] in files;
      PutAll(Put(t, files[0].clusters, files[0].bytes), files[1..])
  }

  /** Each file has clusters for its bytes, none if it has none, and no cluster is another's. */
  ghost predicate Placed(t: Tables, files: seq<File>) {
    && t.Valid()
    && (forall f :: f in files ==> Fits(t, f))
    && (forall i, j :: 0 <= i < j < |files| ==> Apart(files[i], files[j]))
  }

  ghost predicate Fits(t: Tables, f: File) {
    && Distinct(f.clusters) && |f.bytes| <= |f.clusters| * t.size
    && forall i :: 0 <= i < |f.clusters| ==> t.Has(f.clusters[i])
  }

  ghost predicate Apart(f: File, g: File) {
    forall c :: c in f.clusters ==> c !in g.clusters
  }

  /** The file's bytes, and zeros to the end of its clusters. */
  function Whole(t: Tables, f: File): seq<byte> {
    f.bytes + Zeroed(if |f.bytes| <= |f.clusters| * t.size then |f.clusters| * t.size - |f.bytes| else 0)
  }

  ghost predicate Stored(t: Tables, f: File) {
    Chained(t, f.clusters) && Joined(t, f.clusters) == Whole(t, f)
  }

  lemma {:induction false} OthersKeep(t: Tables, files: seq<File>, f: File)
    requires AllHad(t, files)
    requires Stored(t, f) && forall g :: g in files ==> Apart(g, f)
    ensures Stored(PutAll(t, files), f)
    decreases |files|
  {
    hide Put, Chained, Joined;
    if files != [] {
      var g := files[0];
      assert g in files;
      var u := Put(t, g.clusters, g.bytes);
      PutKeeps(t, g.clusters, g.bytes, f.clusters);
      SameChained(t, u, f.clusters);
      OthersKeep(u, files[1..], f);
    }
  }

  /** Every file put in a volume is stored there. */
  lemma {:induction false} AllStored(t: Tables, files: seq<File>)
    requires Placed(t, files)
    ensures AllHad(t, files)
    ensures var u := PutAll(t, files); u.Valid() && forall f :: f in files ==> Stored(u, f)
    decreases |files|
  {
    hide Put, Stored, Tables.Valid, Apart;
    forall f | f in files ensures Fits(t, f) {
    }
    if files != [] {
      var f, rest := files[0], files[1..];
      assert f in files;
      var u := Put(t, f.clusters, f.bytes);
      PutHolds(t, f.clusters, f.bytes);
      assert Stored(u, f) by {
        PutStored(t, f);
      }
      forall g | g in rest ensures Fits(u, g) && Apart(f, g) && Apart(g, f) {
        assert g in files && Fits(t, g);
        var j :| 0 <= j < |rest| && rest[j] == g;
        assert files[j + 1] == g && Apart(files[0], files[j + 1]);
        ApartBack(f, g);
      }
      forall i, j | 0 <= i < j < |rest| ensures Apart(rest[i], rest[j]) {
        assert Apart(files[i + 1], files[j + 1]);
      }
      AllStored(u, rest);
      OthersKeep(u, rest, f);
    }
  }

  lemma PutStored(t: Tables, f: File)
    requires t.Valid() && Fits(t, f)
    ensures Stored(Put(t, f.clusters, f.bytes), f)
  {
    hide Put, Chained, Joined, Tables.Valid;
    PutHolds(t, f.clusters, f.bytes);
  }

  lemma ApartBack(f: File, g: File)
    requires Apart(f, g)
    ensures Apart(g, f)
  {
  }

  // ---- a path

  /** The directory's file, with its live entry of index `taken`, which a path goes on through. */
  datatype Level = Level(file: File, items: seq<Item>, taken: nat, entry: Entry)

  ghost predicate Written(t: Tables, l: Level, name: string, d: Decoders) {
    && (forall i :: 0 <= i < |l.items| ==> l.items[i].Valid())
    && l.file.clusters != [] && l.file.bytes == Directory.Flat(WrittenChunks(l.items))
    && |l.file.bytes| <= |l.file.clusters| * t.size <= MOST
    && l.taken < |LiveOf(l.items)|
    && LiveOf(l.items)[l.taken] == l.entry && Called(l.entry, name, d)
    && forall i :: 0 <= i < l.taken ==> !Called(LiveOf(l.items)[i], name, d)
  }

  function StepOf(t: Tables, l: Level): Step
    requires l.file.clusters != [] && |l.file.bytes| <= |l.file.clusters| * t.size
  {
    Step(l.file.clusters[0], l.items, Zeroed(|l.file.clusters| * t.size - |l.file.bytes|), l.taken, l.entry)
  }

  /** A directory stored is one a reader's path goes on through. */
  lemma LevelHolds(disk: seq<byte>, v: Volume, t: Tables, l: Level, name: string, d: Decoders)
    requires Lays(disk, v, t) && Stored(t, l.file) && Written(t, l, name, d)
    ensures v.clusterSize > 0 && StepOf(t, l).Holds(Raw(disk), v, name, d)
  {
    hide Lays, Chained, Joined, Called, WrittenChunks, LiveOf, ChainBytes;
    ChainIsRead(disk, v, t, l.file.clusters, MOST);
    assert |Whole(t, l.file)| <= MOST;
  }

  /** The path leads from the root through the levels to the file: each level's entry has the next's first
      cluster, and the last's has the file's, and its size. */
  ghost predicate Leads(t: Tables, root: nat, levels: seq<Level>, file: File, names: seq<string>, d: Decoders) {
    && |levels| == |names| > 0
    && (forall k :: 0 <= k < |levels| ==> Written(t, levels[k], names[k], d))
    && levels[0].file.clusters[0] == root
    && (forall k :: 0 < k < |levels| ==> levels[k].file.clusters[0] == levels[k - 1].entry.cluster)
    && var e := levels[|levels| - 1].entry;
       e.size == |file.bytes| <= MOST && (file.bytes != [] ==> file.clusters != [] && e.cluster == file.clusters[0])
  }

  /** A file stored under a path of directories stored is read by it, whole. */
  lemma StoredIsRead(disk: seq<byte>, v: Volume, t: Tables, levels: seq<Level>, file: File, names: seq<string>,
                     d: Decoders)
    requires Lays(disk, v, t) && Leads(t, v.root, levels, file, names, d)
    requires Stored(t, file) && |file.bytes| <= |file.clusters| * t.size
    requires forall k :: 0 <= k < |levels| ==> Stored(t, levels[k].file)
    ensures v.clusterSize > 0 && FileAt(Raw(disk), v, v.root, names, d) == Found.File(file.bytes)
  {
    hide Lays, Chained, Joined, ChainBytes, Written, FileAt, Step.Holds, StepOf, Stored;
    forall k | 0 <= k < |levels|
      ensures levels[k].file.clusters != [] && |levels[k].file.bytes| <= |levels[k].file.clusters| * t.size {
      WrittenFits(t, levels[k], names[k], d);
    }
    FileIsRead(disk, v, t, file, levels[|levels| - 1].entry.cluster);
    var steps := seq(|levels|, k requires 0 <= k < |levels| => StepOf(t, levels[k]));
    forall k | 0 <= k < |steps|
      ensures steps[k].Holds(Raw(disk), v, names[k], d)
      ensures steps[k].dir == levels[k].file.clusters[0] && steps[k].entry == levels[k].entry {
      LevelHolds(disk, v, t, levels[k], names[k], d);
      StepIs(t, levels[k]);
    }
    WrittenPathIsRead(Raw(disk), v, names, steps, d);
  }

  lemma StepIs(t: Tables, l: Level)
    requires l.file.clusters != [] && |l.file.bytes| <= |l.file.clusters| * t.size
    ensures StepOf(t, l).dir == l.file.clusters[0] && StepOf(t, l).entry == l.entry
  {
  }

  lemma FileIsRead(disk: seq<byte>, v: Volume, t: Tables, f: File, first: nat)
    requires Lays(disk, v, t) && Stored(t, f) && |f.bytes| <= |f.clusters| * t.size
    requires f.bytes != [] ==> f.clusters != [] && first == f.clusters[0]
    ensures v.clusterSize > 0 && ChainBytes(Raw(disk), v, first, |f.bytes|) == Some(f.bytes)
  {
    assert v.clusterSize == t.size > 0;
    hide Lays, Chained, Joined, Content;
    if f.bytes == [] {
      EmptyContent(Raw(disk), v);
    } else {
      hide ChainBytes;
      ChainIsRead(disk, v, t, f.clusters, |f.bytes|);
      assert Whole(t, f)[..|f.bytes|] == f.bytes;
      assert Truncated(Whole(t, f), |f.bytes|) == f.bytes;
    }
  }

  lemma WrittenFits(t: Tables, l: Level, name: string, d: Decoders)
    requires Written(t, l, name, d)
    ensures l.file.clusters != [] && |l.file.bytes| <= |l.file.clusters| * t.size
  {
  }

  /** A volume with files and directories put in it, on a disk: every file is read, whole, by any path
      written to it. */
  lemma PutIsRead(disk: seq<byte>, v: Volume, t: Tables, files: seq<File>, levels: seq<Level>, file: File,
                  names: seq<string>, d: Decoders)
    requires Placed(t, files) && file in files && forall k :: 0 <= k < |levels| ==> levels[k].file in files
    requires AllHad(t, files) && Lays(disk, v, PutAll(t, files)) && Leads(t, v.root, levels, file, names, d)
    ensures v.clusterSize > 0 && FileAt(Raw(disk), v, v.root, names, d) == Found.File(file.bytes)
  {
    hide Lays, Stored, PutAll, FileAt, Called, WrittenChunks, LiveOf;
    AllStored(t, files);
    var u := PutAll(t, files);
    assert Fits(t, file);
    forall k | 0 <= k < |levels| ensures Written(u, levels[k], names[k], d) {
      assert Written(t, levels[k], names[k], d);
    }
    StoredIsRead(disk, v, u, levels, file, names, d);
  }
}
