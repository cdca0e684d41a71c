/** GUID partition tables as byte buffers: the checks and transformations of gpt.rs. */
module Gpt {
  import opened Bytes
  import opened Crc32

  datatype Result<T> = Ok(value: T) | Err(code: string)

  const ENTRIES := 16384
  const HEAD := 17408   // MBR, primary header and entry array: 34 sectors
  const TAIL := 16896   // entry array and backup header: 33 sectors
  const SIGNATURE: seq<byte> := [69, 70, 73, 32, 80, 65, 82, 84]  // "EFI PART"

  // One header sector.

  /** A header sector whose size field can be trusted to index it. */
  predicate Sized(h: seq<byte>) {
    |h| == 512 && 92 <= U32At(h, 12) <= 512
  }

  /** The CRC-32 over the declared header size, with the checksum field taken as zero. */
  function Checksum(h: seq<byte>): (n: nat)
    requires Sized(h)
    ensures n < U32
  {
    Crc(Blanked(h)[..U32At(h, 12)])
  }

  function Blanked(h: seq<byte>): (s: seq<byte>)
    ensures |s| == |h|
  {
    seq(|h|, i requires 0 <= i < |h| => if 16 <= i < 20 then 0 else h[i])
  }

  /** The fields every header must carry, wherever it lies. */
  predicate Constant(h: seq<byte>) {
    && Sized(h)
    && h[..8] == SIGNATURE
    && U32At(h, 8) == 0x10000
    && U32At(h, 20) == 0
    && U32At(h, 80) == 128
    && U32At(h, 84) == 128
  }

  predicate Placed(h: seq<byte>, current: nat, other: nat, entries: nat)
    requires |h| == 512
  {
    U64At(h, 24) == current && U64At(h, 32) == other && U64At(h, 72) == entries
  }

  predicate HeaderOk(h: seq<byte>, current: nat, other: nat, entries: nat) {
    Constant(h) && Checksum(h) == U32At(h, 16) && Placed(h, current, other, entries)
  }

  function Sealed(h: seq<byte>): (s: seq<byte>)
    requires Sized(h)
    ensures |s| == 512
  {
    Put32(h, 16, Checksum(h))
  }

  function Moved(h: seq<byte>, current: nat, other: nat, entries: nat): (s: seq<byte>)
    requires |h| == 512 && current < U64 && other < U64 && entries < U64
    ensures |s| == 512
  {
    Put64(Put64(Put64(h, 24, current), 32, other), 72, entries)
  }

  /** Two header sectors that may differ only in checksum and placement. */
  predicate SameOutside(a: seq<byte>, b: seq<byte>)
    requires |a| == |b| == 512
  {
    Same(a, b, 0, 16) && Same(a, b, 20, 24) && Same(a, b, 40, 72) && Same(a, b, 80, 512)
  }

  lemma MovedKeeps(h: seq<byte>, current: nat, other: nat, entries: nat)
    requires |h| == 512 && current < U64 && other < U64 && entries < U64
    ensures var m := Moved(h, current, other, entries);
      && Placed(m, current, other, entries)
      && SameOutside(m, h) && Same(m, h, 16, 20)
      && (Sized(h) ==> Sized(m))
  {
    var h1 := Put64(h, 24, current);
    var h2 := Put64(h1, 32, other);
    var m := Put64(h2, 72, entries);
    assert Same(h1, h, 0, 24) && Same(h1, h, 32, 512) && U64At(h1, 24) == current by {
      Put64Reads(h, 24, current);
    }
    assert Same(h2, h1, 0, 32) && Same(h2, h1, 40, 512) && U64At(h2, 32) == other by {
      Put64Reads(h1, 32, other);
    }
    assert Same(m, h2, 0, 72) && Same(m, h2, 80, 512) && U64At(m, 72) == entries by {
      Put64Reads(h2, 72, entries);
    }
    U64Bytes(m, h1, 24);
    U64Bytes(m, h2, 32);
    U32Bytes(m, h, 12);
  }

  lemma SealedKeeps(h: seq<byte>)
    requires Sized(h)
    ensures var s := Sealed(h);
      && Same(s, h, 0, 16) && Same(s, h, 20, 512)
      && Sized(s) && Checksum(s) == U32At(s, 16) == Checksum(h)
  {
    var s := Sealed(h);
    Put32Reads(h, 16, Checksum(h));
    ChecksumOf(s, h);
  }

  /** The checksum does not depend on the checksum field. */
  lemma ChecksumOf(a: seq<byte>, b: seq<byte>)
    requires |a| == |b| == 512 && Same(a, b, 0, 16) && Same(a, b, 20, 512)
    ensures Sized(a) <==> Sized(b)
    ensures Sized(a) ==> Checksum(a) == Checksum(b)
  {
    U32Bytes(a, b, 12);
    assert Blanked(a) == Blanked(b);
  }

  /** A sealed header is determined by its placement and its constant bytes. */
  lemma SealedUnique(a: seq<byte>, b: seq<byte>)
    requires Sized(a) && Sized(b) && SameOutside(a, b)
    requires U64At(a, 24) == U64At(b, 24) && U64At(a, 32) == U64At(b, 32) && U64At(a, 72) == U64At(b, 72)
    requires Checksum(a) == U32At(a, 16) && Checksum(b) == U32At(b, 16)
    ensures a == b
  {
    U64Bytes(a, b, 24);
    U64Bytes(a, b, 32);
    U64Bytes(a, b, 72);
    ChecksumOf(a, b);
    U32Bytes(a, b, 16);
  }

  /** `s` is the header `h` rewritten for another place on the disk, and sealed again. */
  predicate IsRetargeted(s: seq<byte>, h: seq<byte>, current: nat, other: nat, entries: nat)
    requires |h| == 512
  {
    Sized(s) && SameOutside(s, h) && Placed(s, current, other, entries) && Checksum(s) == U32At(s, 16)
  }

  /** What the field writes of gpt.rs followed by `seal` produce. */
  lemma SealedMoved(h: seq<byte>, current: nat, other: nat, entries: nat)
    requires Sized(h) && current < U64 && other < U64 && entries < U64
    ensures var m := Moved(h, current, other, entries);
      Sized(m) && IsRetargeted(Sealed(m), h, current, other, entries)
  {
    MovedKeeps(h, current, other, entries);
    var m := Moved(h, current, other, entries);
    SealedKeeps(m);
    var r := Sealed(m);
    U64Bytes(r, m, 24);
    U64Bytes(r, m, 32);
    U64Bytes(r, m, 72);
  }

  /** The only such sector: see RetargetedIs and RetargetedUnique. */
  ghost function Retargeted(h: seq<byte>, current: nat, other: nat, entries: nat): (s: seq<byte>)
    requires Sized(h) && current < U64 && other < U64 && entries < U64
    ensures Sized(s)
  {
    SealedMoved(h, current, other, entries);
    var s :| IsRetargeted(s, h, current, other, entries);
    s
  }

  lemma RetargetedIs(h: seq<byte>, current: nat, other: nat, entries: nat)
    requires Sized(h) && current < U64 && other < U64 && entries < U64
    ensures IsRetargeted(Retargeted(h, current, other, entries), h, current, other, entries)
  {
    SealedMoved(h, current, other, entries);
  }

  lemma RetargetedUnique(s: seq<byte>, h: seq<byte>, current: nat, other: nat, entries: nat)
    requires Sized(h) && current < U64 && other < U64 && entries < U64
    requires IsRetargeted(s, h, current, other, entries)
    ensures s == Retargeted(h, current, other, entries)
  {
    RetargetedIs(h, current, other, entries);
    SealedUnique(s, Retargeted(h, current, other, entries));
  }

  lemma ConstantSame(a: seq<byte>, b: seq<byte>)
    requires |a| == |b| == 512 && Same(a, b, 0, 16) && Same(a, b, 20, 24) && Same(a, b, 80, 88)
    ensures Constant(a) <==> Constant(b)
  {
    U32Bytes(a, b, 8);
    U32Bytes(a, b, 12);
    U32Bytes(a, b, 20);
    U32Bytes(a, b, 80);
    U32Bytes(a, b, 84);
    assert a[..8] == b[..8] by {
      assert forall k :: 0 <= k < 8 ==> a[..8][k] == b[..8][k];
    }
  }

  /** A valid header retargeted away and back again is the same sector. */
  lemma RetargetedBack(h: seq<byte>, c: nat, o: nat, a: nat, c': nat, o': nat, a': nat)
    requires HeaderOk(h, c, o, a)
    requires c' < U64 && o' < U64 && a' < U64
    ensures Retargeted(Retargeted(h, c', o', a'), c, o, a) == h
    ensures Retargeted(h, c, o, a) == h
  {
    RetargetedIs(h, c', o', a');
    RetargetedUnique(h, Retargeted(h, c', o', a'), c, o, a);
    RetargetedUnique(h, h, c, o, a);
  }

  // The entry array.

  predicate Used(x: seq<byte>, i: nat)
    requires |x| == ENTRIES && i < 128
  {
    exists k :: 128 * i <= k < 128 * i + 16 && x[k] != 0
  }

  function Start(x: seq<byte>, i: nat): (n: nat)
    requires |x| == ENTRIES && i < 128
    ensures n < U64
  {
    U64At(x, 128 * i + 32)
  }

  function Finish(x: seq<byte>, i: nat): (n: nat)
    requires |x| == ENTRIES && i < 128
    ensures n < U64
  {
    U64At(x, 128 * i + 40)
  }

  predicate InBounds(x: seq<byte>, first: nat, last: nat)
    requires |x| == ENTRIES
  {
    forall i :: 0 <= i < 128 && Used(x, i) ==> first <= Start(x, i) <= Finish(x, i) <= last
  }

  predicate Disjoint(x: seq<byte>)
    requires |x| == ENTRIES
  {
    forall i, j :: 0 <= i < j < 128 && Used(x, i) && Used(x, j) ==>
      Finish(x, i) < Start(x, j) || Finish(x, j) < Start(x, i)
  }

  /** The partitions lie inside the usable area, which keeps clear of both copies, and apart. */
  predicate Layout(h: seq<byte>, x: seq<byte>, sectors: nat)
    requires |h| == 512 && |x| == ENTRIES
  {
    && 34 <= U64At(h, 40) <= U64At(h, 48)
    && U64At(h, 48) + 34 <= sectors
    && InBounds(x, U64At(h, 40), U64At(h, 48))
    && Disjoint(x)
  }

  predicate CopyValid(h: seq<byte>, x: seq<byte>, current: nat, other: nat, entries: nat, sectors: nat)
    requires |x| == ENTRIES
  {
    HeaderOk(h, current, other, entries) && Crc(x) == U32At(h, 88) && Layout(h, x, sectors)
  }

  // The pair of copies on a disk.

  predicate Captured(p: seq<byte>, t: seq<byte>, sectors: nat) {
    |p| == HEAD && |t| == TAIL && 34849 < sectors < U32
  }

  function Header(p: seq<byte>): (h: seq<byte>)
    requires |p| == HEAD
    ensures |h| == 512
  {
    p[512..1024]
  }

  function Array(p: seq<byte>): (x: seq<byte>)
    requires |p| == HEAD
    ensures |x| == ENTRIES
  {
    p[1024..]
  }

  function BackupHeader(t: seq<byte>): (h: seq<byte>)
    requires |t| == TAIL
    ensures |h| == 512
  {
    t[ENTRIES..]
  }

  function BackupArray(t: seq<byte>): (x: seq<byte>)
    requires |t| == TAIL
    ensures |x| == ENTRIES
  {
    t[..ENTRIES]
  }

  predicate PrimaryValid(p: seq<byte>, sectors: nat)
    requires |p| == HEAD && sectors > 0
  {
    CopyValid(Header(p), Array(p), 1, sectors - 1, 2, sectors)
  }

  predicate BackupValid(t: seq<byte>, sectors: nat)
    requires |t| == TAIL && sectors >= 33
  {
    CopyValid(BackupHeader(t), BackupArray(t), sectors - 1, 1, sectors - 33, sectors)
  }

  predicate ProtectiveMbr(p: seq<byte>)
    requires |p| == HEAD
  {
    p[510] == 0x55 && p[511] == 0xaa && p[450] == 0xee
  }

  /** What `check` calls a healthy pair. */
  predicate Healthy(p: seq<byte>, t: seq<byte>, sectors: nat) {
    && Captured(p, t, sectors)
    && PrimaryValid(p, sectors)
    && BackupValid(t, sectors)
    && Array(p) == BackupArray(t)
    && Same(Header(p), BackupHeader(t), 40, 72)
    && ProtectiveMbr(p)
  }

  /** The backup copy that mirrors a primary header and array. */
  ghost function BackupOf(h: seq<byte>, x: seq<byte>, sectors: nat): (t: seq<byte>)
    requires Sized(h) && |x| == ENTRIES && 33 <= sectors < U32
    ensures |t| == TAIL
  {
    x + Retargeted(h, sectors - 1, 1, sectors - 33)
  }

  ghost function PrimaryOf(mbr: seq<byte>, h: seq<byte>, x: seq<byte>, sectors: nat): (p: seq<byte>)
    requires |mbr| == 512 && Sized(h) && |x| == ENTRIES && 33 <= sectors < U32
    ensures |p| == HEAD
  {
    mbr + Retargeted(h, 1, sectors - 1, 2) + x
  }

  /** A pair whose backup is exactly the mirror of its primary. */
  ghost predicate Mirrored(p: seq<byte>, t: seq<byte>, sectors: nat) {
    Captured(p, t, sectors) && Sized(Header(p)) && t == BackupOf(Header(p), Array(p), sectors)
  }

  lemma LayoutSame(h: seq<byte>, g: seq<byte>, x: seq<byte>, sectors: nat)
    requires |h| == |g| == 512 && |x| == ENTRIES && Same(h, g, 40, 56)
    ensures Layout(h, x, sectors) <==> Layout(g, x, sectors)
  {
    U64Bytes(h, g, 40);
    U64Bytes(h, g, 48);
  }

  /** A valid copy retargeted is a valid copy of the same layout at the new place. */
  lemma CopyRetargeted(h: seq<byte>, x: seq<byte>, c: nat, o: nat, a: nat, c': nat, o': nat, a': nat, sectors: nat)
    requires |x| == ENTRIES && CopyValid(h, x, c, o, a, sectors)
    requires c' < U64 && o' < U64 && a' < U64
    ensures CopyValid(Retargeted(h, c', o', a'), x, c', o', a', sectors)
    ensures Same(h, Retargeted(h, c', o', a'), 40, 72)
  {
    var r := Retargeted(h, c', o', a');
    RetargetedIs(h, c', o', a');
    ConstantSame(r, h);
    assert Same(h, r, 40, 56) && Same(h, r, 88, 92);
    U32Bytes(h, r, 88);
    LayoutSame(h, r, x, sectors);
  }

  lemma Joined(x: seq<byte>, h: seq<byte>)
    requires |x| == ENTRIES && |h| == 512
    ensures BackupArray(x + h) == x && BackupHeader(x + h) == h
  {
  }

  lemma JoinedHead(mbr: seq<byte>, h: seq<byte>, x: seq<byte>)
    requires |mbr| == 512 && |x| == ENTRIES && |h| == 512
    ensures var p := mbr + h + x; p[..512] == mbr && Array(p) == x && Header(p) == h
  {
  }

  /** Mirroring a valid primary copy gives a valid backup of the same layout. */
  lemma BackupOfValid(p: seq<byte>, sectors: nat)
    requires |p| == HEAD && 34849 < sectors < U32 && PrimaryValid(p, sectors)
    ensures var t := BackupOf(Header(p), Array(p), sectors);
      && BackupValid(t, sectors)
      && BackupArray(t) == Array(p) && Same(Header(p), BackupHeader(t), 40, 72)
      && (ProtectiveMbr(p) ==> Healthy(p, t, sectors))
  {
    var h, x := Header(p), Array(p);
    CopyRetargeted(h, x, 1, sectors - 1, 2, sectors - 1, 1, sectors - 33, sectors);
    Joined(x, Retargeted(h, sectors - 1, 1, sectors - 33));
  }

  lemma MirroredBy(mbr: seq<byte>, h: seq<byte>, y: seq<byte>, b: seq<byte>, sectors: nat)
    requires |mbr| == 512 && Sized(h) && |y| == ENTRIES && 34849 < sectors < U32
    requires Retargeted(h, sectors - 1, 1, sectors - 33) == b
    ensures Mirrored(mbr + h + y, y + b, sectors)
  {
    JoinedHead(mbr, h, y);
  }

  /** The backup a rebuilt primary was taken from is exactly its mirror. */
  lemma PrimaryOfMirrored(mbr: seq<byte>, b: seq<byte>, y: seq<byte>, sectors: nat)
    requires |mbr| == 512 && |y| == ENTRIES && 34849 < sectors < U32
    requires HeaderOk(b, sectors - 1, 1, sectors - 33)
    ensures Mirrored(PrimaryOf(mbr, b, y, sectors), y + b, sectors)
  {
    assert Retargeted(Retargeted(b, 1, sectors - 1, 2), sectors - 1, 1, sectors - 33) == b by {
      RetargetedBack(b, sectors - 1, 1, sectors - 33, 1, sectors - 1, 2);
    }
    MirroredBy(mbr, Retargeted(b, 1, sectors - 1, 2), y, b, sectors);
  }

  /** Rebuilding the primary from a valid backup gives a valid copy of the same layout. */
  lemma PrimaryOfValid(mbr: seq<byte>, t: seq<byte>, sectors: nat)
    requires |mbr| == 512 && |t| == TAIL && 34849 < sectors < U32 && BackupValid(t, sectors)
    ensures var p := PrimaryOf(mbr, BackupHeader(t), BackupArray(t), sectors);
      && PrimaryValid(p, sectors)
      && p[..512] == mbr && Array(p) == BackupArray(t)
  {
    var b, y := BackupHeader(t), BackupArray(t);
    CopyRetargeted(b, y, sectors - 1, 1, sectors - 33, 1, sectors - 1, 2, sectors);
    JoinedHead(mbr, Retargeted(b, 1, sectors - 1, 2), y);
  }
}
