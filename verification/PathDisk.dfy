/** A disk for any file and any path: what a reader gets from it by every path as long. */
module PathDisk {
  import opened Bytes
  import opened Images
  import opened Directory
  import opened Fat
  import opened FatWriter
  import opened DiskWriter
  import opened OpenCore
  import opened Options

  /** A file's or directory's names: a long one, or none, and an 8.3 one. */
  datatype Name = Name(long: Option<seq<nat>>, base: string, ext: string)
  {
    ghost predicate Valid() {
      && FieldName(base) && FieldName(ext) && 0 < |base| <= 8 && |ext| <= 3
      && (long.Some? ==> ValidLong(long.value))
    }

    function Short(): string { if ext == "" then base else base + "." + ext }

    /** `name` is one of the two, in any case. */
    predicate Finds(name: string, d: Decoders) {
      (long.Some? && SameName(d.utf16(long.value), name)) || SameName(Short(), name)
    }

    ghost function ItemAt(cluster: nat, size: nat): Item
      requires Valid()
    {
      Live(long, Field(base, 8) + Field(ext, 3), 0, cluster, size)
    }

    ghost function EntryAt(cluster: nat, size: nat): Entry
      requires Valid()
    {
      Entry(long, Field(base, 8), Field(ext, 3), cluster, size)
    }
  }

  // ---- one directory

  lemma {:induction false} FlatLength(chunks: seq<Chunk>)
    ensures |Directory.Flat(chunks)| == 32 * |chunks|
  {
    if chunks != [] {
      FlatLength(chunks[1..]);
    }
  }

  lemma FieldsAre(name: Name, cluster: nat, size: nat)
    requires name.Valid() && cluster < U32 && size < U32
    ensures var item := name.ItemAt(cluster, size);
            item.Valid() && LiveIn(item) == [name.EntryAt(cluster, size)]
  {
    hide ValidLong;
    var fields := Field(name.base, 8) + Field(name.ext, 3);
    assert fields[..8] == Field(name.base, 8) && fields[8..] == Field(name.ext, 3);
    assert fields[0] == Field(name.base, 8)[0] == name.base[0] as int;
  }

  lemma OneItem(item: Item)
    requires item.Valid()
    ensures WrittenChunks([item]) == ChunksOf(item) && LiveOf([item]) == LiveIn(item)
  {
    hide ChunksOf, LiveIn, Item.Valid;
    assert [item][1..] == [] && WrittenChunks([]) == [] && LiveOf([]) == [];
    assert ChunksOf(item) + [] == ChunksOf(item) && LiveIn(item) + [] == LiveIn(item);
  }

  lemma FewChunks(item: Item)
    requires item.Valid() && item.Live?
    ensures |ChunksOf(item)| <= 65
  {
    hide ShortChunk, LongChunks, Padded;
  }

  /** A directory of one entry takes no more than 65 chunks. */
  lemma OnlyItem(name: Name, cluster: nat, size: nat)
    requires name.Valid() && cluster < U32 && size < U32
    ensures var item := name.ItemAt(cluster, size);
            && item.Valid() && LiveOf([item]) == [name.EntryAt(cluster, size)]
            && |Directory.Flat(WrittenChunks([item]))| <= 2080
  {
    var item := name.ItemAt(cluster, size);
    assert item.Live?;
    hide Item.Valid, Name.ItemAt, Name.EntryAt, LiveIn, ChunksOf;
    FieldsAre(name, cluster, size);
    OneItem(item);
    FewChunks(item);
    FlatLength(WrittenChunks([item]));
  }

  lemma FindsIff(name: Name, cluster: nat, size: nat, s: string, d: Decoders)
    requires name.Valid() && AsciiDecodes(d)
    ensures Called(name.EntryAt(cluster, size), s, d) <==> name.Finds(s, d)
  {
    hide ShortName, SameName, AsciiDecodes;
    ShortNameReadsBack(name.base, name.ext, name.EntryAt(cluster, size), d);
  }

  // ---- the volume

  function Range(first: nat, n: nat): (cs: seq<nat>)
    ensures |cs| == n && forall i :: 0 <= i < n ==> cs[i] == first + i
  {
    seq(n, i => first + i)
  }

  /** The first cluster of directory `k`, or of the file after the last. */
  function First(k: nat): nat { 2 + 5 * k }

  ghost predicate ValidPath(path: seq<Name>) {
    0 < |path| <= 0x1_0000 && forall k :: 0 <= k < |path| ==> path[k].Valid()
  }

  ghost function ItemOf(path: seq<Name>, k: nat, size: nat): Item
    requires ValidPath(path) && k < |path|
  {
    path[k].ItemAt(First(k + 1), if k + 1 < |path| then 0 else size)
  }

  ghost function EntryOf(path: seq<Name>, k: nat, size: nat): Entry
    requires ValidPath(path) && k < |path|
  {
    path[k].EntryAt(First(k + 1), if k + 1 < |path| then 0 else size)
  }

  lemma ItemIs(path: seq<Name>, k: nat, size: nat)
    requires ValidPath(path) && k < |path| && size < U32
    ensures ItemOf(path, k, size).Valid() && LiveOf([ItemOf(path, k, size)]) == [EntryOf(path, k, size)]
    ensures |Directory.Flat(WrittenChunks([ItemOf(path, k, size)]))| <= 2080
  {
    OnlyItem(path[k], First(k + 1), if k + 1 < |path| then 0 else size);
  }

  /** What is put in the volume: the directories, each in five clusters, then the file. */
  ghost function FileAtPlace(path: seq<Name>, b: seq<byte>, k: nat): FatWriter.File
    requires ValidPath(path) && k <= |path| && |b| < U32
  {
    if k == |path| then FatWriter.File(Range(First(k), |b| / SECTOR + 1), b)
    else
      ItemIs(path, k, |b|);
      FatWriter.File(Range(First(k), 5), Directory.Flat(WrittenChunks([ItemOf(path, k, |b|)])))
  }

  ghost function FilesOf(path: seq<Name>, b: seq<byte>): (files: seq<FatWriter.File>)
    requires ValidPath(path) && |b| < U32
    ensures |files| == |path| + 1
    ensures forall k :: 0 <= k <= |path| ==> files[k] == FileAtPlace(path, b, k)
  {
    seq(|path| + 1, k requires 0 <= k <= |path| => FileAtPlace(path, b, k))
  }

  /** Clusters of 512 bytes with none in use. */
  function Blank(n: nat, last: nat): Tables {
    Tables(SECTOR, last, seq(n + 2, _ => 0), seq(n, _ => Zeroed(SECTOR)))
  }

  function Total(path: seq<Name>, b: seq<byte>): nat { 5 * |path| + |b| / SECTOR + 1 }

  lemma FileFits(path: seq<Name>, b: seq<byte>, last: nat, k: nat)
    requires ValidPath(path) && k <= |path| && |b| < U32
    ensures FatWriter.Fits(Blank(Total(path, b), last), FileAtPlace(path, b, k))
  {
    var t, f := Blank(Total(path, b), last), FileAtPlace(path, b, k);
    if k < |path| {
      ItemIs(path, k, |b|);
    }
    hide WrittenChunks, Directory.Flat, ItemOf, ValidPath;
    assert |f.bytes| <= |f.clusters| * t.size;
  }

  lemma FilesApart(path: seq<Name>, b: seq<byte>, j: nat, k: nat)
    requires ValidPath(path) && j < k <= |path| && |b| < U32
    ensures Apart(FileAtPlace(path, b, j), FileAtPlace(path, b, k))
  {
    ItemIs(path, j, |b|);
    hide WrittenChunks, Directory.Flat, ItemOf, ValidPath;
  }

  lemma AllPlaced(path: seq<Name>, b: seq<byte>, last: nat)
    requires ValidPath(path) && |b| <= MOST && 0x0fff_fff8 <= last <= 0x0fff_ffff
    ensures Placed(Blank(Total(path, b), last), FilesOf(path, b))
    ensures AllHad(Blank(Total(path, b), last), FilesOf(path, b))
  {
    var t, files := Blank(Total(path, b), last), FilesOf(path, b);
    assert t.Valid() by {
      assert |path| <= 0x1_0000;
    }
    hide Tables.Valid, ValidPath, FatWriter.Fits, Apart, FileAtPlace, FilesOf, Blank;
    forall f | f in files ensures FatWriter.Fits(t, f) {
      var k :| 0 <= k < |files| && files[k] == f;
      FileFits(path, b, last, k);
    }
    forall j, k | 0 <= j < k < |files| ensures Apart(files[j], files[k]) {
      FilesApart(path, b, j, k);
    }
    forall f | f in files ensures forall i :: 0 <= i < |f.clusters| ==> t.Has(f.clusters[i]) {
      FitsHas(t, f);
    }
  }

  lemma FitsHas(t: Tables, f: FatWriter.File)
    requires FatWriter.Fits(t, f)
    ensures forall i :: 0 <= i < |f.clusters| ==> t.Has(f.clusters[i])
  {
  }

  // ---- what is read

  /** The volume's disk. */
  ghost predicate On(disk: seq<byte>, v: Volume, t: Tables, path: seq<Name>, b: seq<byte>)
    requires ValidPath(path) && |b| < U32
  {
    && Lays(disk, v, t) && t.size == SECTOR
    && forall f :: f in FilesOf(path, b) ==> Stored(t, f)
  }

  lemma StoredAt(disk: seq<byte>, v: Volume, t: Tables, path: seq<Name>, b: seq<byte>, k: nat)
    requires ValidPath(path) && |b| < U32 && On(disk, v, t, path, b) && k <= |path|
    ensures Stored(t, FileAtPlace(path, b, k))
  {
    assert FilesOf(path, b)[k] in FilesOf(path, b);
  }

  lemma DirectoryRead(disk: seq<byte>, v: Volume, t: Tables, path: seq<Name>, b: seq<byte>, k: nat)
    requires ValidPath(path) && |b| < U32 && On(disk, v, t, path, b) && k < |path|
    ensures v.clusterSize > 0 && Directories(Raw(disk), v, First(k)) == Some([EntryOf(path, k, |b|)])
  {
    ItemIs(path, k, |b|);
    StoredAt(disk, v, t, path, b, k);
    var f, item := FileAtPlace(path, b, k), ItemOf(path, k, |b|);
    var bytes := Directory.Flat(WrittenChunks([item]));
    assert f.bytes == bytes && |f.clusters| == 5 && f.clusters[0] == First(k);
    hide Lays, Chained, Joined, ChainBytes, WrittenChunks, LiveOf, ItemOf, EntryOf, EntriesOf, Chunks, Directory.Flat,
         ValidPath, FileAtPlace, FilesOf, Item.Valid;
    ChainIsRead(disk, v, t, f.clusters, MOST);
    var tail := Zeroed(5 * SECTOR - |bytes|);
    assert Whole(t, f) == bytes + tail;
    WrittenDirectoryReadsBack([item], tail);
  }

  /** Every path as long as the one written gives the file where its names find each entry, and nothing
      where one does not. */
  lemma {:induction false} PathRead(disk: seq<byte>, v: Volume, t: Tables, path: seq<Name>, b: seq<byte>, k: nat,
                                    names: seq<string>, d: Decoders)
    requires ValidPath(path) && |b| <= MOST && On(disk, v, t, path, b) && AsciiDecodes(d)
    requires |names| == |path| && k < |path|
    ensures v.clusterSize > 0
    ensures FileAt(Raw(disk), v, First(k), names[k..], d)
         == if forall j :: k <= j < |path| ==> path[j].Finds(names[j], d) then Found.File(b) else Missing
    decreases |path| - k
  {
    hide On, AsciiDecodes, Name.Finds, Directories, FindEntry, FileOf, Called;
    var e := EntryOf(path, k, |b|);
    DirectoryRead(disk, v, t, path, b, k);
    FindsIff(path[k], First(k + 1), if k + 1 < |path| then 0 else |b|, names[k], d);
    assert e.cluster == First(k + 1) && (k + 1 == |path| ==> e.size == |b|);
    hide EntryOf, ValidPath;
    assert names[k..][0] == names[k] && names[k..][1..] == names[k + 1..];
    if path[k].Finds(names[k], d) {
      FirstFound([e], 0, names[k], d);
      if k + 1 < |path| {
        PathRead(disk, v, t, path, b, k + 1, names, d);
      } else {
        LastRead(disk, v, t, path, b, e);
      }
    } else {
      NoneFound([e], names[k], d);
    }
  }

  lemma LastRead(disk: seq<byte>, v: Volume, t: Tables, path: seq<Name>, b: seq<byte>, e: Entry)
    requires ValidPath(path) && |b| <= MOST && On(disk, v, t, path, b)
    requires e.cluster == First(|path|) && e.size == |b|
    ensures v.clusterSize > 0 && FileOf(Raw(disk), v, e) == Found.File(b)
  {
    hide Lays, ChainBytes, ValidPath, FilesOf, Stored;
    StoredAt(disk, v, t, path, b, |path|);
    FileIsRead(disk, v, t, FileAtPlace(path, b, |path|), e.cluster);
  }

  // ---- the whole disk

  /** Clusters of 512 bytes, and the GPT's entries from sector `at` on. */
  function DiskOf(at: nat, links: nat): Disk
    requires at >= 2
  {
    var fatSectors := 4 * links / SECTOR + 1;
    Disk(Gpt(Zeroed(SECTOR), Zeroed(64), at, 1, 128, Zeroed(424), [], Zeroed(16), Zeroed(88), []),
         Zeroed((at - 2) * SECTOR), Zeroed(384),
         Boot(Zeroed(11), SECTOR, 1, 1, 1, Zeroed(5), Zeroed(12), fatSectors, Zeroed(4), First(0), Zeroed(462)),
         [], Zeroed(SECTOR * fatSectors - 4 * links), [])
  }

  lemma DiskParts(at: nat, links: nat)
    requires 2 <= at && at * SECTOR < U64
    ensures DiskOf(at, links).gpt.Valid() && DiskOf(at, links).TableLength() == 128
    ensures DiskOf(at, links).boot.root == First(0)
  {
    assert Concat([]) == [];
  }

  lemma DiskIsValid(at: nat, t: Tables)
    requires 2 <= at <= 0x1_0000_0000 && t.Valid() && t.size == SECTOR && |t.links| <= 0x100_0000
    ensures DiskOf(at, |t.links|).Valid(t)
  {
    var w := DiskOf(at, |t.links|);
    DiskParts(at, |t.links|);
    HeaderParts(w.gpt);
    ConcatLength(t.clusters, SECTOR);
    assert |w.boot.Bytes()| == SECTOR by {
      BootFields(w.boot);
    }
    assert |w.gpt.Table(w.Lba())| == 128 by {
      TableFits(w.gpt, w.Lba());
    }
    hide Gpt.Valid, Gpt.Header, Gpt.Table, Boot.Bytes, Tables.Valid, Le;
    assert |w.Written(t)| < U64;
  }

  /** Any bytes up to 16 MiB, and any path of directories and a file with long and 8.3 names, have a disk: by a
      path as long it gives the bytes where each name is one of its entry's two, in any case of their letters,
      and nothing where one is not. The GPT's entries are from sector `at` on, and `last` ends the chains. */
  lemma AnyPathHasADisk(b: seq<byte>, path: seq<Name>, d: Decoders, at: nat, last: nat) returns (disk: seq<byte>)
    requires |b| <= 0x100_0000 && AsciiDecodes(d) && ValidPath(path)
    requires 2 <= at <= 0x1_0000_0000 && 0x0fff_fff8 <= last <= 0x0fff_ffff
    ensures forall names :: |names| == |path| ==>
              ReadConfig(disk, RawFormat, names, d)
              == if forall j :: 0 <= j < |path| ==> path[j].Finds(names[j], d) then Found.File(b) else Missing
  {
    hide AsciiDecodes, ValidPath, Placed, AllHad, FilesOf, PutAll, Stored, Blank, Name.Finds, DiskOf, Disk.Valid,
         Disk.Written, Tables.Valid, EspStart, OpenVolume, FileAt, Lays, Disk.Start;
    var t, files := Blank(Total(path, b), last), FilesOf(path, b);
    AllPlaced(path, b, last);
    AllStored(t, files);
    BlankIs(path, b, last);
    var u := PutAll(t, files);
    DiskIsValid(at, u);
    var w := DiskOf(at, |u.links|);
    DiskParts(at, |u.links|);
    disk := w.Written(u);
    StartRead(w, u);
    VolumeRead(w, u);
    var v := w.boot.VolumeAt(w.Start());
    forall names | |names| == |path|
      ensures ReadConfig(disk, RawFormat, names, d)
           == if forall j :: 0 <= j < |path| ==> path[j].Finds(names[j], d) then Found.File(b) else Missing {
      SomeName(path);
      PathRead(disk, v, u, path, b, 0, names, d);
      assert names[0..] == names;
    }
  }

  lemma SomeName(path: seq<Name>)
    requires ValidPath(path)
    ensures |path| > 0
  {
  }

  lemma BlankIs(path: seq<Name>, b: seq<byte>, last: nat)
    requires ValidPath(path) && |b| <= MOST
    ensures var t := Blank(Total(path, b), last); t.size == SECTOR && |t.links| <= 0x100_0000
  {
  }
}
