/** The conditions that describe a built operation leave no choice: there is one work for one operation on one disk. */
module Determined {
  import opened Common
  import opened Bytes
  import opened Crc32
  import opened Gpt
  import opened GptRepair
  import opened GptMove
  import opened GptEdit
  import opened Disk
  import opened Archive
  import opened ArchiveFile
  import opened Plan
  import opened Operations

  lemma AdaptedUnique(g: seq<byte>, k: seq<byte>, h: seq<byte>, target: nat, arrayCrc: nat)
    requires |h| == 512 && target >= 34
    requires IsAdapted(g, h, target, arrayCrc) && IsAdapted(k, h, target, arrayCrc)
    ensures g == k
  {
    U64Bytes(g, k, 32);
    U64Bytes(g, k, 48);
    U32Bytes(g, k, 88);
    ChecksumOf(g, k);
    U32Bytes(g, k, 16);
  }

  lemma MbrUnique(a: seq<byte>, b: seq<byte>, p: seq<byte>, target: nat)
    requires |a| == |b| == |p| == HEAD && target > 0 && MbrResized(a, p, target) && MbrResized(b, p, target)
    ensures a[..512] == b[..512]
  {
    U32Bytes(a, b, 458);
  }

  lemma EntryUnique(y: seq<byte>, z: seq<byte>, x: seq<byte>, i: nat)
    requires |x| == |y| == |z| == ENTRIES && i < 128 && ShiftedEntry(y, x, i) && ShiftedEntry(z, x, i)
    ensures Same(y, z, 128 * i, 128 * i + 128)
  {
    if Used(x, i) {
      U64Bytes(y, z, 128 * i + 32);
      U64Bytes(y, z, 128 * i + 40);
    }
  }

  lemma ShiftedUnique(y: seq<byte>, z: seq<byte>, x: seq<byte>)
    requires |x| == |y| == |z| == ENTRIES && IsShifted(y, x) && IsShifted(z, x)
    ensures y == z
  {
    forall k | 0 <= k < ENTRIES ensures y[k] == z[k] {
      EntryUnique(y, z, x, k / 128);
    }
  }

  lemma HeadsEqual(a: seq<byte>, b: seq<byte>)
    requires |a| == |b| == HEAD && a[..512] == b[..512] && Header(a) == Header(b) && Array(a) == Array(b)
    ensures a == b
  {
    assert a == a[..512] + a[512..1024] + a[1024..];
    assert b == b[..512] + b[512..1024] + b[1024..];
  }

  lemma RelocatedUnique(a: seq<byte>, b: seq<byte>, p: seq<byte>, target: nat)
    requires |p| == HEAD && target >= 34 && IsRelocated(a, p, target) && IsRelocated(b, p, target)
    ensures a == b
  {
    ShiftedUnique(Array(a), Array(b), Array(p));
    AdaptedUnique(Header(a), Header(b), Header(p), target, Crc(Array(a)));
    MbrUnique(a, b, p, target);
    HeadsEqual(a, b);
  }

  lemma ResizedUnique(a: seq<byte>, b: seq<byte>, p: seq<byte>, target: nat)
    requires |p| == HEAD && target >= 34 && IsResized(a, p, target) && IsResized(b, p, target)
    ensures a == b
  {
    AdaptedUnique(Header(a), Header(b), Header(p), target, U32At(Header(p), 88));
    MbrUnique(a, b, p, target);
    HeadsEqual(a, b);
  }

  lemma InstallUnique(image: seq<byte>, firmware: seq<byte>, w: Work, v: Work, sectors: nat)
    requires IsInstallWork(image, firmware, w, sectors) && IsInstallWork(image, firmware, v, sectors)
    ensures w == v
  {
    RelocatedUnique(w.primary, v.primary, image[..HEAD], sectors);
  }

  lemma FactoryUnique(image: seq<byte>, w: Work, v: Work, sectors: nat)
    requires IsFactoryWork(image, w, sectors) && IsFactoryWork(image, v, sectors)
    ensures w == v
  {
    if HasGpt(image) {
      ResizedUnique(w.primary, v.primary, image[..HEAD], sectors);
    }
  }

  lemma WorkUnique(op: Operation, c: Snapshot, w: Work, v: Work, sectors: nat)
    requires Follows(op, c, w, sectors) && Follows(op, c, v, sectors)
    ensures w == v
  {
    match op
    case FactoryRaw(image) => FactoryUnique(image, w, v, sectors);
    case Install(image, firmware) => InstallUnique(image, firmware, w, v, sectors);
    case _ =>
  }
}
