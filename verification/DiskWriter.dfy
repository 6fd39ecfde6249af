/** A disk written whole: a GPT with an EFI system partition, the FAT32 volume in it, and files put in the
    volume, kept raw or as qcow2. The image reader gives each file back. (Section 5.3 of the UEFI specification;
    Microsoft's FAT specification 1.03.) */
module DiskWriter {
  import opened Bytes
  import opened Images
  import opened Directory
  import opened Fat
  import opened FatWriter
  import opened OpenCore
  import opened Options
  import W = ImageWriter

  /** A GPT's parts: what its fields hold, with the entries from sector `at` on, and any bytes elsewhere. */
  datatype Gpt = Gpt(mbr: seq<byte>, afterSignature: seq<byte>, at: nat, count: nat, size: nat, headerEnd: seq<byte>,
                     before: seq<seq<byte>>, afterType: seq<byte>, entryEnd: seq<byte>, after: seq<byte>)
  {
    ghost predicate Valid() {
      && |mbr| == SECTOR && |afterSignature| == 64 && |headerEnd| == 424
      && 2 <= at && at * SECTOR < U64 && count < U32 && 128 <= size <= 4096
      && (forall i :: 0 <= i < |before| ==> |before[i]| == size && before[i][..16] != ESP_TYPE)
      && |afterType| == 16 && |entryEnd| == size - 40
      && |before| < Entries() && Product(Entries(), size) <= |Concat(before)| + size + |after|
    }

    /** How many entries are read. */
    function Entries(): nat { if count < 128 then count else 128 }

    function Header(): seq<byte> {
      EFI_PART + (afterSignature + (Le(at, 8) + (Le(count, 4) + (Le(size, 4) + headerEnd))))
    }

    /** The EFI system partition's entry; the partition starts at sector `lba`. */
    function Esp(lba: nat): seq<byte> { ESP_TYPE + (afterType + (Le(lba, 8) + entryEnd)) }

    function Table(lba: nat): seq<byte> { Concat(before) + (Esp(lba) + after) }
  }

  /** A boot sector's fields, and any bytes elsewhere. */
  datatype Boot = Boot(start: seq<byte>, sector: nat, perCluster: byte, reserved: nat, fats: byte,
                       afterFats: seq<byte>, after22: seq<byte>, fatSectors: nat, after40: seq<byte>, root: nat,
                       end: seq<byte>)
  {
    ghost predicate Valid() {
      && |start| == 11 && |afterFats| == 5 && |after22| == 12 && |after40| == 4 && |end| == 462
      && 512 <= sector < 0x1_0000 && perCluster > 0 && reserved < 0x1_0000 && 0 < fatSectors < U32 && root < U32
    }

    function Bytes(): seq<byte> {
      start + (Le(sector, 2) + ([perCluster] + (Le(reserved, 2) + ([fats] + (afterFats + (Le(0, 2)
      + (after22 + (Le(fatSectors, 4) + (after40 + (Le(root, 4) + (end + [0x55, 0xaa])))))))))))
    }

    function FatAt(at: nat): nat { at + reserved * sector }

    function DataAt(at: nat): nat { at + (reserved + fats * fatSectors) * sector }

    function VolumeAt(at: nat): Volume {
      Volume(FatAt(at), DataAt(at), Product(perCluster, sector), root)
    }
  }

  /** A disk: `afterHeader` up to the GPT's entries, `gap` up to the partition, `reservedRest` up to the FAT, `fatRest` up to the clusters. */
  datatype Disk = Disk(gpt: Gpt, afterHeader: seq<byte>, gap: seq<byte>, boot: Boot, reservedRest: seq<byte>,
                       fatRest: seq<byte>, tail: seq<byte>)
  {
    function TableLength(): nat { |Concat(gpt.before)| + gpt.size + |gpt.after| }

    /** Where the partition starts, in sectors. */
    function Lba(): nat { gpt.at + (TableLength() + |gap|) / SECTOR }

    function Start(): nat { gpt.at * SECTOR + TableLength() + |gap| }

    ghost predicate Valid(t: Tables) {
      && gpt.Valid() && boot.Valid() && t.Valid() && t.size == boot.VolumeAt(0).clusterSize
      && 2 * SECTOR + |afterHeader| == gpt.at * SECTOR && (TableLength() + |gap|) % SECTOR == 0
      && SECTOR + |reservedRest| == boot.reserved * boot.sector
      && 4 * |t.links| + |fatRest| == boot.fats * boot.fatSectors * boot.sector
      && |Written(t)| < U64
    }

    function Partition(t: Tables): seq<byte> {
      boot.Bytes() + (reservedRest + (FatBytes(t.links) + (fatRest + (Concat(t.clusters) + tail))))
    }

    function Written(t: Tables): seq<byte> {
      gpt.mbr + (gpt.Header() + (afterHeader + (gpt.Table(Lba()) + (gap + Partition(t)))))
    }
  }

  // ---- the GPT

  lemma Tops()
    ensures Top(2) == 0x1_0000 && Top(4) == U32 && Top(8) == U64
  {
    assert Top(8) == 0x100 * Top(7) && Top(7) == 0x100 * Top(6) && Top(6) == 0x100 * Top(5) && Top(5) == 0x100 * Top(4);
    assert Top(4) == 0x100 * Top(3) && Top(3) == 0x100 * Top(2) && Top(2) == 0x100 * Top(1) && Top(1) == 0x100;
  }

  lemma SelfHeld(e: seq<byte>)
    ensures Holds(e, 0, e)
  {
  }

  lemma HeaderRead(g: Gpt)
    requires g.Valid()
    ensures |g.Header()| == SECTOR && ReadHeader(g.Header()) == Some(OpenCore.Table(g.at * SECTOR, g.Entries(), g.size))
  {
    Tops();
    hide Le, GetLe, Top, Holds, Gpt.Valid, Wrap64;
    HeaderParts(g);
    NoWrap64(g.at * SECTOR);
    var h := g.Header();
    var sized := Le(g.size, 4) + g.headerEnd;
    var counted := Le(g.count, 4) + sized;
    SelfHeld(h);
    HoldsParts(h, 0, EFI_PART, g.afterSignature + (Le(g.at, 8) + counted));
    HoldsParts(h, 8, g.afterSignature, Le(g.at, 8) + counted);
    HoldsParts(h, 72, Le(g.at, 8), counted);
    HoldsParts(h, 80, Le(g.count, 4), sized);
    HoldsParts(h, 84, Le(g.size, 4), g.headerEnd);
    LeReads(h, 72, 8, g.at);
    LeReads(h, 80, 4, g.count);
    LeReads(h, 84, 4, g.size);
    assert h[..8] == EFI_PART;
  }

  lemma HeaderParts(g: Gpt)
    requires g.Valid()
    ensures |g.afterSignature| == 64 && |g.headerEnd| == 424 && g.count < U32 && 128 <= g.size <= 4096
    ensures 2 <= g.at && g.at * SECTOR < U64
    ensures |g.mbr| == SECTOR && |g.Header()| == SECTOR
  {
  }

  lemma EspRead(g: Gpt, lba: nat)
    requires g.Valid() && lba < U64
    ensures var e := g.Esp(lba);
            |e| == g.size && e[..16] == ESP_TYPE && GetLe(e, 32, 8) == lba
  {
    Tops();
    assert |g.afterType| == 16 && |g.entryEnd| == g.size - 40;
    hide Le, GetLe, Top, Holds, Gpt.Valid;
    var e := g.Esp(lba);
    SelfHeld(e);
    HoldsParts(e, 0, ESP_TYPE, g.afterType + (Le(lba, 8) + g.entryEnd));
    HoldsParts(e, 16, g.afterType, Le(lba, 8) + g.entryEnd);
    HoldsParts(e, 32, Le(lba, 8), g.entryEnd);
    LeReads(e, 32, 8, lba);
  }

  /** Entries of other types are passed over. */
  lemma {:induction false} EspFound(before: seq<seq<byte>>, esp: seq<byte>, after: seq<byte>, size: nat)
    requires size >= 128 && |esp| == size && esp[..16] == ESP_TYPE
    requires forall i :: 0 <= i < |before| ==> |before[i]| == size && before[i][..16] != ESP_TYPE
    ensures FindEsp(Concat(before) + (esp + after), size) == Some(esp)
    decreases |before|
  {
    var all := Concat(before) + (esp + after);
    if before == [] {
      assert all == esp + after;
      assert all[..16] == esp[..16] && all[..size] == esp;
    } else {
      var rest := Concat(before[1..]) + (esp + after);
      assert all == before[0] + rest;
      assert all[..16] == before[0][..16] && all[size..] == rest;
      EspFound(before[1..], esp, after, size);
    }
  }

  lemma {:induction false} ConcatLength(parts: seq<seq<byte>>, size: nat)
    requires forall i :: 0 <= i < |parts| ==> |parts[i]| == size
    ensures |Concat(parts)| == |parts| * size
  {
    if parts != [] {
      ConcatLength(parts[1..], size);
      TimesOneMore(|parts|, size);
    }
  }

  /** The entries read are the partition's among them, and part of what follows it. */
  lemma EntriesRead(g: Gpt, lba: nat)
    requires g.Valid() && lba < U64
    ensures var n := Product(g.Entries(), g.size);
            n <= |g.Table(lba)| && FindEsp(g.Table(lba)[..n], g.size) == Some(g.Esp(lba))
  {
    hide Gpt.Esp, GetLe;
    var n := Product(g.Entries(), g.size);
    EspRead(g, lba);
    ConcatLength(g.before, g.size);
    assert |g.before| * g.size + g.size <= n by {
      Times(|g.before| + 1, g.Entries(), g.size);
      TimesOneMore(|g.before| + 1, g.size);
    }
    var k := n - |Concat(g.before)| - g.size;
    assert g.Table(lba)[..n] == Concat(g.before) + (g.Esp(lba) + g.after[..k]);
    EspFound(g.before, g.Esp(lba), g.after[..k], g.size);
  }

  lemma Times(a: nat, b: nat, c: nat)
    requires a <= b
    ensures a * c <= b * c
  {
  }

  // ---- the boot sector

  lemma BootRead(b: Boot, at: nat)
    requires b.Valid() && b.FatAt(at) < U64 && b.DataAt(at) < U64
    ensures |b.Bytes()| == 512 && FromBootSector(b.Bytes(), at) == Some(b.VolumeAt(at))
  {
    BootFields(b);
    NoWrap64(b.FatAt(at));
    NoWrap64(b.DataAt(at));
    hide Boot.Bytes, Wrap64, Product, FromBootSector, GetLe;
    FieldsRead(b.Bytes(), at, b);
  }

  lemma FieldsRead(s: seq<byte>, at: nat, b: Boot)
    requires |s| == 512 && s[510] == 0x55 && s[511] == 0xaa && GetLe(s, 22, 2) == 0
    requires GetLe(s, 11, 2) == b.sector >= 512 && s[13] == b.perCluster > 0 && GetLe(s, 14, 2) == b.reserved
    requires s[16] == b.fats && GetLe(s, 36, 4) == b.fatSectors > 0 && GetLe(s, 44, 4) == b.root
    ensures FromBootSector(s, at)
         == Some(Volume(Wrap64(b.FatAt(at)), Wrap64(b.DataAt(at)), Product(b.perCluster, b.sector), b.root))
  {
    hide GetLe, Wrap64, Product;
  }

  lemma BootFields(b: Boot)
    requires b.Valid()
    ensures var s := b.Bytes();
            && |s| == 512 && GetLe(s, 11, 2) == b.sector && s[13] == b.perCluster && GetLe(s, 14, 2) == b.reserved
            && s[16] == b.fats && GetLe(s, 22, 2) == 0 && GetLe(s, 36, 4) == b.fatSectors && GetLe(s, 44, 4) == b.root
            && s[510] == 0x55 && s[511] == 0xaa
  {
    Tops();
    hide Le, GetLe, Top, Holds;
    var s := b.Bytes();
    var p510 := [0x55, 0xaa];
    var p44 := Le(b.root, 4) + (b.end + p510);
    var p36 := Le(b.fatSectors, 4) + (b.after40 + p44);
    var p22 := Le(0, 2) + (b.after22 + p36);
    var p16 := [b.fats] + (b.afterFats + p22);
    var p14 := Le(b.reserved, 2) + p16;
    SelfHeld(s);
    HoldsParts(s, 0, b.start, Le(b.sector, 2) + ([b.perCluster] + p14));
    HoldsParts(s, 11, Le(b.sector, 2), [b.perCluster] + p14);
    HoldsParts(s, 13, [b.perCluster], p14);
    HoldsParts(s, 14, Le(b.reserved, 2), p16);
    HoldsParts(s, 16, [b.fats], b.afterFats + p22);
    HoldsParts(s, 17, b.afterFats, p22);
    HoldsParts(s, 22, Le(0, 2), b.after22 + p36);
    HoldsParts(s, 24, b.after22, p36);
    HoldsParts(s, 36, Le(b.fatSectors, 4), b.after40 + p44);
    HoldsParts(s, 40, b.after40, p44);
    HoldsParts(s, 44, Le(b.root, 4), b.end + p510);
    HoldsParts(s, 48, b.end, p510);
    HoldsAt(s, 13, [b.perCluster], 0);
    HoldsAt(s, 16, [b.fats], 0);
    HoldsAt(s, 510, p510, 0);
    HoldsAt(s, 510, p510, 1);
    LeReads(s, 11, 2, b.sector);
    LeReads(s, 14, 2, b.reserved);
    LeReads(s, 22, 2, 0);
    LeReads(s, 36, 4, b.fatSectors);
    LeReads(s, 44, 4, b.root);
  }

  // ---- the disk

  /** Where the disk's parts stand. */
  lemma DiskHolds(w: Disk, t: Tables)
    requires w.Valid(t)
    ensures var disk, v := w.Written(t), w.boot.VolumeAt(w.Start());
            && Holds(disk, SECTOR, w.gpt.Header()) && Holds(disk, w.gpt.at * SECTOR, w.gpt.Table(w.Lba()))
            && Holds(disk, w.Start(), w.boot.Bytes())
            && Holds(disk, v.fat, FatBytes(t.links)) && Holds(disk, v.data, Concat(t.clusters))
  {
    hide Le, Holds, Concat, FatBytes, Gpt.Valid, Boot.Valid, Tables.Valid, Gpt.Header, Boot.Bytes, Gpt.Table;
    var disk, boot := w.Written(t), w.boot;
    var table := w.gpt.Table(w.Lba());
    HeaderParts(w.gpt);
    assert |table| == w.TableLength() by {
      TableFits(w.gpt, w.Lba());
    }
    assert |boot.Bytes()| == SECTOR by {
      BootFields(boot);
    }
    SelfHeld(disk);
    var p := w.Partition(t);
    var clusters := Concat(t.clusters) + w.tail;
    var fat := FatBytes(t.links) + (w.fatRest + clusters);
    var at := w.Start();
    var tableAt := 2 * SECTOR + |w.afterHeader|;
    HoldsParts(disk, 0, w.gpt.mbr, w.gpt.Header() + (w.afterHeader + (table + (w.gap + p))));
    HoldsParts(disk, SECTOR, w.gpt.Header(), w.afterHeader + (table + (w.gap + p)));
    HoldsParts(disk, 2 * SECTOR, w.afterHeader, table + (w.gap + p));
    HoldsParts(disk, tableAt, table, w.gap + p);
    HoldsParts(disk, tableAt + |table|, w.gap, p);
    HoldsParts(disk, at, boot.Bytes(), w.reservedRest + fat);
    HoldsParts(disk, at + SECTOR, w.reservedRest, fat);
    var fatAt := at + SECTOR + |w.reservedRest|;
    HoldsParts(disk, fatAt, FatBytes(t.links), w.fatRest + clusters);
    HoldsParts(disk, fatAt + 4 * |t.links|, w.fatRest, clusters);
    HoldsParts(disk, fatAt + 4 * |t.links| + |w.fatRest|, Concat(t.clusters), w.tail);
    Spread(boot.reserved, boot.fats * boot.fatSectors, boot.sector);
  }

  lemma Spread(a: nat, b: nat, c: nat)
    ensures (a + b) * c == a * c + b * c
  {
  }

  lemma TableFits(g: Gpt, lba: nat)
    requires g.Valid()
    ensures |g.Table(lba)| == |Concat(g.before)| + g.size + |g.after|
  {
    hide Le, Concat;
  }

  lemma StartIs(w: Disk, t: Tables)
    requires w.Valid(t)
    ensures w.Lba() * SECTOR == w.Start() < U64 && w.Lba() < U64
  {
    hide Gpt.Valid, Boot.Valid, Tables.Valid, Disk.Written, Concat;
    DiskHolds(w, t);
    HoldsFits(w.Written(t), w.Start(), w.boot.Bytes());
    var n := w.TableLength() + |w.gap|;
    assert n == n / SECTOR * SECTOR;
  }

  lemma GptRead(disk: seq<byte>, g: Gpt, lba: nat)
    requires g.Valid() && lba < U64
    requires Holds(disk, SECTOR, g.Header()) && Holds(disk, g.at * SECTOR, g.Table(lba))
    ensures EspStart(Raw(disk)) == Some(Wrap64(lba * SECTOR))
  {
    hide ReadAt, GetLe, FindEsp, ReadHeader, Gpt.Header, Gpt.Table, Gpt.Esp, Holds, Gpt.Valid, Product, Wrap64;
    HeaderRead(g);
    EntriesRead(g, lba);
    EspRead(g, lba);
    var n := Product(g.Entries(), g.size);
    var table := g.Table(lba)[..n];
    PrefixHeld(disk, g.at * SECTOR, g.Table(lba), n);
    HeldIsRead(disk, SECTOR, g.Header());
    HeldIsRead(disk, g.at * SECTOR, table);
    EspStartIs(Raw(disk), g.Header(), OpenCore.Table(g.at * SECTOR, g.Entries(), g.size), table, g.Esp(lba));
  }

  /** The partition is found where it was put. */
  lemma StartRead(w: Disk, t: Tables)
    requires w.Valid(t)
    ensures EspStart(Raw(w.Written(t))) == Some(w.Start())
  {
    assert w.gpt.Valid();
    hide Disk.Written, Gpt.Valid, Gpt.Header, Gpt.Table, Disk.Start, Disk.Lba, Holds, EspStart, Disk.Valid, Wrap64;
    DiskHolds(w, t);
    StartIs(w, t);
    NoWrap64(w.Start());
    GptRead(w.Written(t), w.gpt, w.Lba());
  }

  lemma EspStartIs(img: Image, h: seq<byte>, t: Table, entries: seq<byte>, e: seq<byte>)
    requires |h| == SECTOR && t.size >= 128 && |e| == t.size
    requires ReadAt(img, SECTOR, SECTOR) == Some(h) && ReadHeader(h) == Some(t)
    requires ReadAt(img, t.at, Product(t.count, t.size)) == Some(entries) && FindEsp(entries, t.size) == Some(e)
    ensures EspStart(img) == Some(Wrap64(GetLe(e, 32, 8) * SECTOR))
  {
    hide ReadAt, FindEsp, ReadHeader, GetLe;
  }

  lemma PrefixHeld(b: seq<byte>, o: nat, e: seq<byte>, n: nat)
    requires Holds(b, o, e) && n <= |e|
    ensures Holds(b, o, e[..n])
  {
    HoldsParts(b, o, e[..n], e[n..]);
    assert e == e[..n] + e[n..];
  }

  /** So are the volume, and its tables. */
  lemma VolumeRead(w: Disk, t: Tables)
    requires w.Valid(t)
    ensures var v := w.boot.VolumeAt(w.Start());
            OpenVolume(Raw(w.Written(t)), w.Start()) == Some(v) && Lays(w.Written(t), v, t)
  {
    assert w.boot.Valid() && t.Valid() && t.size == w.boot.VolumeAt(0).clusterSize && |w.Written(t)| < U64;
    assert w.boot.VolumeAt(0).clusterSize == w.boot.VolumeAt(w.Start()).clusterSize;
    hide Disk.Written, Disk.Valid, Boot.Valid, Boot.Bytes, Disk.Start, Concat, FatBytes, Tables.Valid, OpenVolume, Holds,
         Boot.FatAt, Boot.DataAt;
    var disk, v := w.Written(t), w.boot.VolumeAt(w.Start());
    DiskHolds(w, t);
    HoldsFits(disk, v.fat, FatBytes(t.links));
    HoldsFits(disk, v.data, Concat(t.clusters));
    BootAt(disk, w.boot, w.Start());
  }

  lemma BootAt(disk: seq<byte>, b: Boot, at: nat)
    requires b.Valid() && b.FatAt(at) < U64 && b.DataAt(at) < U64 && Holds(disk, at, b.Bytes())
    ensures OpenVolume(Raw(disk), at) == Some(b.VolumeAt(at))
  {
    hide ReadAt, FromBootSector, Boot.Valid, Boot.Bytes, Holds;
    BootRead(b, at);
    HeldIsRead(disk, at, b.Bytes());
  }

  /** A file put in a volume of a disk is read back, whole, by any path of directories put there that leads
      to it, from the disk kept raw and from any qcow2 image of it. */
  lemma FileIsReadBack(w: Disk, t: Tables, files: seq<FatWriter.File>, levels: seq<Level>, file: FatWriter.File,
                       names: seq<string>, d: Decoders)
    requires Placed(t, files) && file in files && forall k :: 0 <= k < |levels| ==> levels[k].file in files
    requires AllHad(t, files) && w.Valid(PutAll(t, files)) && Leads(t, w.boot.root, levels, file, names, d)
    ensures var disk := w.Written(PutAll(t, files));
            && ReadConfig(disk, RawFormat, names, d) == Found.File(file.bytes)
            && forall q: W.Plan :: q.Valid() && q.disk == disk ==>
                 ReadConfig(q.File(), Qcow2Format, names, d) == Found.File(file.bytes)
  {
    hide Placed, Leads, Disk.Valid, Disk.Written, PutAll, EspStart, FileAt, OpenVolume, Lays, Disk.Start, W.Plan.Valid,
         W.Plan.File, OpenQcow2;
    var u := PutAll(t, files);
    var disk, v := w.Written(u), w.boot.VolumeAt(w.Start());
    StartRead(w, u);
    VolumeRead(w, u);
    PutIsRead(disk, v, t, files, levels, file, names, d);
    assert ReadConfig(disk, RawFormat, names, d) == Found.File(file.bytes);
    forall q: W.Plan | q.Valid() && q.disk == disk
      ensures ReadConfig(q.File(), Qcow2Format, names, d) == Found.File(file.bytes) {
      WrittenImageReadsAsRaw(q, names, d);
    }
  }
}
