/** A writer of qcow2 images, the partner of the reader: from any disk, any size of clusters and any
    choice of which zero clusters to leave out or flag, it makes a file that reads as that disk. */
module ImageWriter {
  import opened Arithmetic
  import opened Bytes
  import opened Images
  import opened Options

  /** How a writer keeps a guest cluster: not at all, flagged as zeros (over a cluster of the file
      whose bytes are left as they were), or by its bytes. */
  datatype Kept = Unallocated | Flagged | Stored

  /** `x << n`. */
  function Shl(x: nat, n: nat): nat
    decreases n
  {
    if n == 0 then x else 2 * Shl(x, n - 1)
  }

  lemma {:induction false} ShlSums(x: nat, y: nat, n: nat)
    ensures Shl(x, n) + Shl(y, n) == Shl(x + y, n)
    decreases n
  {
    if n > 0 {
      ShlSums(x, y, n - 1);
    }
  }

  lemma {:induction false} ShlOne(n: nat)
    ensures Shl(1, n) == Pow2(n)
  {
    if n > 0 {
      ShlOne(n - 1);
    }
  }

  lemma {:induction false} ShrLow(x: nat, n: nat)
    ensures x == Shl(Shr(x, n), n) + Low(x, n)
    decreases n
  {
    if n > 0 {
      ShrLow(x / 2, n - 1);
      assert Shr(x, n) == Shr(x / 2, n - 1);
    }
  }

  lemma {:induction false} ShrBound(x: nat, c: nat, n: nat)
    requires x < Shl(c, n)
    ensures Shr(x, n) < c
    decreases n
  {
    if n > 0 {
      ShrBound(x / 2, c, n - 1);
    }
  }

  lemma {:induction false} ShlEight(x: nat, n: nat)
    requires n >= 3
    ensures Shl(x, n) == 8 * Shl(x, n - 3)
  {
    assert Shl(x, n) == 2 * Shl(x, n - 1) && Shl(x, n - 1) == 2 * Shl(x, n - 2);
  }

  /** Clusters start at multiples of 512, so entries have room for their flags. */
  lemma Aligned(x: nat, bits: ClusterBits)
    ensures Shl(x, bits) == 512 * Shl(x, bits - 9)
  {
    ShlEight(x, bits);
    ShlEight(x, bits - 3);
    ShlEight(x, bits - 6);
  }

  lemma {:induction false} ShlMonotone(x: nat, y: nat, n: nat)
    requires x <= y
    ensures Shl(x, n) <= Shl(y, n)
    decreases n
  {
    ShlSums(x, y - x, n);
  }

  lemma ShlStrict(x: nat, y: nat, n: nat)
    requires x < y
    ensures Shl(x, n) + Pow2(n) <= Shl(y, n)
  {
    ShlOne(n);
    ShlSums(x, 1, n);
    ShlMonotone(x + 1, y, n);
  }

  lemma {:induction false} ShlPositive(x: nat, n: nat)
    ensures Shl(x, n) >= x
    decreases n
  {
    if n > 0 {
      ShlPositive(x, n - 1);
    }
  }

  // ---- table entries

  const MOST_FILE: nat := 0x100_0000_0000_0000

  /** The entry for the cluster, or the table, at 512 * `m` in the file: used once (bit 63), and with
      `flag` in bit 0. */
  function Entry(m: nat, flag: byte): (e: seq<byte>)
    ensures |e| == 8
  {
    [0x80] + Be(2 * m, 6) + [flag]
  }

  lemma EntryReads(b: seq<byte>, o: nat, m: nat, flag: byte)
    requires Holds(b, o, Entry(m, flag)) && 512 * m < MOST_FILE
    ensures EntryOffset(b, o) == 512 * m
    ensures b[o] == 0x80 && b[o + 7] == flag
  {
    HoldsParts(b, o, [0x80] + Be(2 * m, 6), [flag]);
    HoldsParts(b, o, [0x80], Be(2 * m, 6));
    BeReads(b, o + 1, 6, 2 * m);
    HoldsAt(b, o, [0x80], 0);
    HoldsAt(b, o + 7, [flag], 0);
    HoldsAt(b, o + 1, Be(2 * m, 6), 5);
  }

  const NO_ENTRY: seq<byte> := [0, 0, 0, 0, 0, 0, 0, 0]

  lemma NoEntryReads(b: seq<byte>, o: nat)
    requires Holds(b, o, NO_ENTRY)
    ensures EntryOffset(b, o) == 0 && b[o] == b[o + 7] == 0
  {
    assert NO_ENTRY == [0] + Be(0, 6) + [0];
    HoldsParts(b, o, [0] + Be(0, 6), [0]);
    HoldsParts(b, o, [0], Be(0, 6));
    BeReads(b, o + 1, 6, 0);
    HoldsAt(b, o, [0], 0);
    HoldsAt(b, o + 7, [0], 0);
    HoldsAt(b, o + 1, Be(0, 6), 5);
  }

  // ---- the file

  /** A disk to write, and where the file keeps what: the header in its first cluster, then the L1
      table, the `tables` L2 tables from cluster `l2`, and a cluster for each of the disk's. */
  datatype Plan = Plan(disk: seq<byte>, bits: ClusterBits, kept: seq<Kept>, tables: nat, l2: nat)
  {
    function Data(): nat { l2 + tables }
    function Length(): nat { Shl(Data() + |kept|, bits) }

    /** There is room for all, and the file is as qcow2 and its reader allow: 2^56 bytes, and an L1
        table of 2^20 entries. */
    predicate Fits() {
      && |disk| <= Shl(|kept|, bits)
      && |kept| <= Shl(tables, bits - 3)
      && l2 >= 1 && 8 * tables <= Shl(l2 - 1, bits)
      && Length() <= MOST_FILE
      && tables <= 0x10_0000
    }

    /** A cluster is left out, or flagged, only if it is zeros. */
    ghost predicate Valid() {
      && Fits()
      && forall g :: 0 <= g < |disk| && Shr(g, bits) < |kept| && !kept[Shr(g, bits)].Stored? ==> disk[g] == 0
    }

    function L1Entry(i: nat): (e: seq<byte>)
      ensures |e| == 8
    {
      Entry(Shl(l2 + i, bits - 9), 0)
    }

    function L2Entry(j: nat): (e: seq<byte>)
      ensures |e| == 8
    {
      if j >= |kept| || kept[j].Unallocated? then NO_ENTRY
      else Entry(Shl(Data() + j, bits - 9), if kept[j].Flagged? then 1 else 0)
    }

    /** Magic, version, no backing file, cluster bits, size, no encryption, and the L1 table. */
    function Header(): (h: seq<byte>)
      ensures |h| == 48
    {
      [0x51, 0x46, 0x49, 0xfb] + ([0, 0, 0, 3] + (Be(0, 8) + (Be(0, 4) + (Be(bits, 4) +
        (Be(|disk|, 8) + (Be(0, 4) + (Be(tables, 4) + Be(Pow2(bits), 8))))))))
    }

    function FileByte(p: nat): byte {
      if p < 48 then
        Header()[p]
      else if p < Pow2(bits) then
        0
      else if p < Shl(l2, bits) then
        var k := p - Pow2(bits);
        if k / 8 < tables then L1Entry(k / 8)[k % 8] else 0
      else if p < Shl(Data(), bits) then
        var k := p - Shl(l2, bits);
        L2Entry(k / 8)[k % 8]
      else
        var g := p - Shl(Data(), bits);
        if g < |disk| then disk[g] else 0
    }

    function File(): (file: seq<byte>)
      ensures |file| == Length()
    {
      seq<byte>(Length(), p requires 0 <= p < Length() => FileByte(p))
    }
  }

  lemma {:induction false} Pow2AtLeast(n: nat, m: nat)
    requires m <= n
    ensures Pow2(n) >= Pow2(m)
    ensures m == 9 ==> Pow2(m) == 512
  {
    if m < n {
      Pow2AtLeast(n - 1, m);
    } else if m == 9 {
      assert Pow2(9) == 8 * Pow2(6) && Pow2(6) == 8 * Pow2(3) && Pow2(3) == 8;
    }
  }

  lemma Addresses(w: Plan)
    requires w.Fits()
    ensures 512 <= Pow2(w.bits) && Pow2(w.bits) + 8 * w.tables <= Shl(w.l2, w.bits)
    ensures Shl(w.Data(), w.bits) == Shl(w.l2, w.bits) + Shl(w.tables, w.bits)
    ensures Shl(w.Data(), w.bits) + Shl(|w.kept|, w.bits) == w.Length()
    ensures 8 * |w.kept| <= Shl(w.tables, w.bits)
  {
    hide Shl, Pow2;
    ShlOne(w.bits);
    ShlSums(1, w.l2 - 1, w.bits);
    ShlSums(w.l2, w.tables, w.bits);
    ShlSums(w.Data(), |w.kept|, w.bits);
    ShlEight(w.tables, w.bits);
    Pow2AtLeast(w.bits, 9);
  }

  // ---- the file keeps it all

  /** `file` is laid out as `w` plans. */
  ghost predicate Keeps(w: Plan, file: seq<byte>) {
    && |file| == w.Length()
    && Holds(file, 0, w.Header())
    && (forall i :: 0 <= i < w.tables ==> Holds(file, Pow2(w.bits) + 8 * i, w.L1Entry(i)))
    && (forall j :: 0 <= j < |w.kept| ==> Holds(file, Shl(w.l2, w.bits) + 8 * j, w.L2Entry(j)))
    && Holds(file, Shl(w.Data(), w.bits), w.disk)
  }

  lemma L1Byte(w: Plan, i: nat, k: nat)
    requires k < 8 && i < w.tables
    requires 48 <= Pow2(w.bits) && Pow2(w.bits) + 8 * i + k < Shl(w.l2, w.bits)
    ensures w.FileByte(Pow2(w.bits) + 8 * i + k) == w.L1Entry(i)[k]
  {
    hide Shl, Pow2, Entry;
    assert (8 * i + k) / 8 == i && (8 * i + k) % 8 == k;
  }

  lemma L2Byte(w: Plan, j: nat, k: nat)
    requires k < 8
    requires 48 <= Pow2(w.bits) <= Shl(w.l2, w.bits)
    requires Shl(w.l2, w.bits) + 8 * j + k < Shl(w.Data(), w.bits)
    ensures w.FileByte(Shl(w.l2, w.bits) + 8 * j + k) == w.L2Entry(j)[k]
  {
    hide Shl, Pow2, Entry;
    assert (8 * j + k) / 8 == j && (8 * j + k) % 8 == k;
  }

  lemma FileKeepsL1(w: Plan, i: nat)
    requires w.Fits() && i < w.tables
    ensures Holds(w.File(), Pow2(w.bits) + 8 * i, w.L1Entry(i))
  {
    hide Shl, Pow2, Entry, Plan.FileByte, Plan.L1Entry;
    Addresses(w);
    var o := Pow2(w.bits) + 8 * i;
    forall k | 0 <= k < 8 ensures w.File()[o..o + 8][k] == w.L1Entry(i)[k] {
      L1Byte(w, i, k);
    }
  }

  lemma FileKeepsL2(w: Plan, j: nat)
    requires w.Fits() && j < |w.kept|
    ensures Holds(w.File(), Shl(w.l2, w.bits) + 8 * j, w.L2Entry(j))
  {
    hide Shl, Pow2, Entry, Plan.FileByte, Plan.L2Entry;
    Addresses(w);
    var o := Shl(w.l2, w.bits) + 8 * j;
    forall k | 0 <= k < 8 ensures w.File()[o..o + 8][k] == w.L2Entry(j)[k] {
      L2Byte(w, j, k);
    }
  }

  lemma FileKeepsDisk(w: Plan)
    requires w.Fits()
    ensures Holds(w.File(), Shl(w.Data(), w.bits), w.disk)
    ensures Holds(w.File(), 0, w.Header())
  {
    Addresses(w);
  }

  lemma FileKeeps(w: Plan)
    requires w.Fits()
    ensures Keeps(w, w.File())
  {
    FileKeepsDisk(w);
    forall i | 0 <= i < w.tables ensures Holds(w.File(), Pow2(w.bits) + 8 * i, w.L1Entry(i)) {
      FileKeepsL1(w, i);
    }
    forall j | 0 <= j < |w.kept| ensures Holds(w.File(), Shl(w.l2, w.bits) + 8 * j, w.L2Entry(j)) {
      FileKeepsL2(w, j);
    }
  }

  // ---- and the reader finds it

  lemma HeaderRead(w: Plan, file: seq<byte>)
    requires |w.disk| < U64 && w.tables <= 0x10_0000 && Pow2(w.bits) < U64
    requires Holds(file, 0, w.Header())
    ensures |file| >= 48 && Holds(file, 0, [0x51, 0x46, 0x49, 0xfb]) && GetBe(file, 8, 8) == 0
    ensures GetBe(file, 20, 4) == w.bits && GetBe(file, 24, 8) == |w.disk|
    ensures GetBe(file, 36, 4) == w.tables && GetBe(file, 40, 8) == Pow2(w.bits)
  {
    hide Be, GetBe;
    var l1 := Be(w.tables, 4) + Be(Pow2(w.bits), 8);
    var sized := Be(w.bits, 4) + (Be(|w.disk|, 8) + (Be(0, 4) + l1));
    HoldsParts(file, 0, [0x51, 0x46, 0x49, 0xfb], [0, 0, 0, 3] + (Be(0, 8) + (Be(0, 4) + sized)));
    HoldsParts(file, 4, [0, 0, 0, 3], Be(0, 8) + (Be(0, 4) + sized));
    HoldsParts(file, 8, Be(0, 8), Be(0, 4) + sized);
    HoldsParts(file, 16, Be(0, 4), sized);
    HoldsParts(file, 20, Be(w.bits, 4), Be(|w.disk|, 8) + (Be(0, 4) + l1));
    HoldsParts(file, 24, Be(|w.disk|, 8), Be(0, 4) + l1);
    HoldsParts(file, 32, Be(0, 4), l1);
    HoldsParts(file, 36, Be(w.tables, 4), Be(Pow2(w.bits), 8));
    BeReads(file, 8, 8, 0);
    BeReads(file, 20, 4, w.bits);
    BeReads(file, 24, 8, |w.disk|);
    BeReads(file, 36, 4, w.tables);
    BeReads(file, 40, 8, Pow2(w.bits));
  }

  /** `img` is `file` opened. */
  ghost predicate Opened(w: Plan, file: seq<byte>, img: Image) {
    && Pow2(w.bits) + 8 * w.tables <= |file|
    && img == Qcow2(file, w.bits, |w.disk|, file[Pow2(w.bits)..Pow2(w.bits) + 8 * w.tables])
  }

  lemma FileOpens(w: Plan, file: seq<byte>)
    requires w.Fits() && Keeps(w, file)
    ensures OpenQcow2(file).Some? && Opened(w, file, OpenQcow2(file).value)
  {
    hide Be, GetBe, Shl, Pow2, Plan.Header;
    Addresses(w);
    HeaderRead(w, file);
  }

  /** An entry for cluster `x` of the file. */
  lemma EntryTo(b: seq<byte>, o: nat, x: nat, bits: ClusterBits, flag: byte)
    requires Holds(b, o, Entry(Shl(x, bits - 9), flag)) && Shl(x, bits) < MOST_FILE
    ensures EntryOffset(b, o) == Shl(x, bits)
    ensures b[o] / 0x40 % 2 == 0 && b[o + 7] == flag
  {
    Aligned(x, bits);
    EntryReads(b, o, Shl(x, bits - 9), flag);
  }

  lemma InFile(w: Plan, x: nat)
    requires w.Fits() && w.l2 <= x < w.Data() + |w.kept|
    ensures 0 < Shl(x, w.bits) < MOST_FILE
  {
    ShlStrict(x, w.Data() + |w.kept|, w.bits);
    ShlPositive(x, w.bits);
  }

  lemma L1Read(w: Plan, file: seq<byte>, img: Image, i: nat)
    requires w.Fits() && i < w.tables && Opened(w, file, img)
    requires Holds(file, Pow2(w.bits) + 8 * i, w.L1Entry(i))
    ensures EntryOffset(img.l1, 8 * i) == Shl(w.l2 + i, w.bits) > 0
  {
    hide Shl, Pow2, EntryOffset, Entry;
    HoldsInPart(file, Pow2(w.bits), Pow2(w.bits) + 8 * w.tables, 8 * i, w.L1Entry(i));
    InFile(w, w.l2 + i);
    EntryTo(img.l1, 8 * i, w.l2 + i, w.bits, 0);
  }

  lemma L2Read(w: Plan, file: seq<byte>, j: nat)
    requires w.Fits() && j < |w.kept|
    requires Holds(file, Shl(w.l2, w.bits) + 8 * j, w.L2Entry(j))
    ensures L2Lookup(file, Shl(w.l2, w.bits) + 8 * j)
         == if w.kept[j].Stored? then At(Shl(w.Data() + j, w.bits)) else Zeros
  {
    hide Shl, Pow2, EntryOffset, Entry;
    var e := Shl(w.l2, w.bits) + 8 * j;
    if w.kept[j].Unallocated? {
      NoEntryReads(file, e);
    } else {
      InFile(w, w.Data() + j);
      EntryTo(file, e, w.Data() + j, w.bits, if w.kept[j].Flagged? then 1 else 0);
    }
  }

  /** Where the L1 table leads for cluster `j`: to its entry among the L2 tables, which follow one
      another. */
  lemma L2EntryAt(l2: nat, j: nat, bits: ClusterBits)
    ensures Shl(l2 + Shr(j, bits - 3), bits) + Low(j, bits - 3) * 8 == Shl(l2, bits) + 8 * j
  {
    var table := Shr(j, bits - 3);
    ShlSums(l2, table, bits);
    ShlEight(table, bits);
    ShrLow(j, bits - 3);
  }

  lemma LookupThrough(img: Image, j: nat, l2: nat)
    requires img.Qcow2? && 8 * Shr(j, img.clusterBits - 3) + 8 <= |img.l1|
    requires EntryOffset(img.l1, 8 * Shr(j, img.clusterBits - 3)) == l2 > 0
    ensures ClusterAt(img, j) == L2Lookup(img.file, l2 + Low(j, img.clusterBits - 3) * 8)
  {
  }

  lemma ClusterRead(w: Plan, file: seq<byte>, img: Image, j: nat)
    requires w.Fits() && j < |w.kept| && Opened(w, file, img)
    requires Shr(j, w.bits - 3) < w.tables
    requires Holds(file, Pow2(w.bits) + 8 * Shr(j, w.bits - 3), w.L1Entry(Shr(j, w.bits - 3)))
    requires Holds(file, Shl(w.l2, w.bits) + 8 * j, w.L2Entry(j))
    ensures ClusterAt(img, j) == if w.kept[j].Stored? then At(Shl(w.Data() + j, w.bits)) else Zeros
  {
    hide Shl, Shr, Low, Pow2, EntryOffset, L2Lookup, Entry;
    var table := Shr(j, w.bits - 3);
    L2Read(w, file, j);
    L1Read(w, file, img, table);
    L2EntryAt(w.l2, j, w.bits);
    LookupThrough(img, j, Shl(w.l2 + table, w.bits));
  }

  /** Byte `g` of the disk is in its cluster's place. */
  lemma DataAt(w: Plan, g: nat)
    requires w.Fits() && g < |w.disk|
    ensures Shr(g, w.bits) < |w.kept|
    ensures Shl(w.Data() + Shr(g, w.bits), w.bits) + Low(g, w.bits) == Shl(w.Data(), w.bits) + g
  {
    ShrBound(g, |w.kept|, w.bits);
    ShrLow(g, w.bits);
    ShlSums(w.Data(), Shr(g, w.bits), w.bits);
  }

  lemma ByteThrough(img: Image, g: nat)
    requires img.Qcow2?
    ensures match ClusterAt(img, Shr(g, img.clusterBits))
            case Unreadable => true
            case Zeros => ByteAt(img, g) == Some(0)
            case At(c) => c + Low(g, img.clusterBits) < |img.file| ==>
                            ByteAt(img, g) == Some(img.file[c + Low(g, img.clusterBits)])
  {
  }

  lemma ByteRead(w: Plan, file: seq<byte>, img: Image, g: nat)
    requires w.Valid() && Keeps(w, file) && g < |w.disk| && Opened(w, file, img)
    ensures ByteAt(img, g) == Some(w.disk[g])
  {
    hide Shl, Shr, Low, Pow2, ClusterAt, Entry, Plan.Header;
    DataAt(w, g);
    ShrBound(Shr(g, w.bits), w.tables, w.bits - 3);
    ClusterRead(w, file, img, Shr(g, w.bits));
    ByteThrough(img, g);
    HoldsAt(file, Shl(w.Data(), w.bits), w.disk, g);
  }

  /** Whatever the size of its clusters, and whichever of its zero clusters it leaves out or flags, a
      qcow2 image reads as the disk it was written from. */
  lemma WrittenDiskReadsBack(w: Plan)
    requires w.Valid()
    ensures OpenQcow2(w.File()).Some? && OpenQcow2(w.File()).value.Size() == |w.disk|
    ensures forall g :: 0 <= g < |w.disk| ==> ByteAt(OpenQcow2(w.File()).value, g) == Some(w.disk[g])
  {
    var file := w.File();
    FileKeeps(w);
    FileOpens(w, file);
    forall g | 0 <= g < |w.disk| ensures ByteAt(OpenQcow2(file).value, g) == Some(w.disk[g]) {
      ByteRead(w, file, OpenQcow2(file).value, g);
    }
  }
}
