/** The on-disk formats spelled out in bytes and characters, and what the model's conditions come to in these terms. */
module Formats {
  import opened Common
  import opened Bytes
  import opened Crc32
  import opened CrcDivision
  import opened Gpt
  import opened GptRepair
  import opened Spans
  import opened Disk
  import opened Archive
  import opened ArchiveFile
  import opened Plan
  import opened Operations

  /** A string as the bytes of its characters. */
  predicate Spells(b: seq<byte>, o: nat, s: string) {
    o + |s| <= |b| && forall k :: 0 <= k < |s| ==> b[o + k] as int == s[k] as int
  }

  /** And with two bytes for each character, the lower one first, and a terminator. */
  predicate SpellsWide(b: seq<byte>, o: nat, s: string) {
    && o + 2 * |s| + 2 <= |b| && b[o + 2 * |s|] == 0 && b[o + 2 * |s| + 1] == 0
    && forall k :: 0 <= k < |s| ==> WideAt(b, o, k, s[k])
  }

  predicate WideAt(b: seq<byte>, o: nat, k: nat, c: char)
    requires o + 2 * k + 2 <= |b|
  {
    (b[o + 2 * k] as int) + 0x100 * (b[o + 2 * k + 1] as int) == c as int
  }

  lemma TwoBytes(b: seq<byte>, o: nat)
    requires o + 2 <= |b|
    ensures U16At(b, o) == (b[o] as int) + 0x100 * (b[o + 1] as int)
  {
    assert LeAt(b, o, 2) == (b[o] as int) + 0x100 * LeAt(b, o + 1, 1);
    assert LeAt(b, o + 1, 1) == (b[o + 1] as int) + 0x100 * LeAt(b, o + 2, 0);
  }

  // The GPT header.

  /** Section 5.3.2 of the UEFI specification: signature, revision 1.0, header size, zero, this header's sector and the
      other's, the array's sector, 128 entries of 128 bytes. */
  predicate HeaderSpelled(h: seq<byte>, current: nat, other: nat, entries: nat) {
    && |h| == 512 && Spells(h, 0, "EFI PART") && h[8..12] == [0, 0, 1, 0]
    && 92 <= (h[12] as int) + 0x100 * (h[13] as int) <= 512 && h[14] == 0 && h[15] == 0
    && h[20..24] == [0, 0, 0, 0]
    && h[24..32] == Le(current, 8) && h[32..40] == Le(other, 8) && h[72..80] == Le(entries, 8)
    && h[80..84] == [128, 0, 0, 0] && h[84..88] == [128, 0, 0, 0]
  }

  lemma FieldSpelled(h: seq<byte>, o: nat, k: nat, n: nat)
    requires o + k <= |h| && n < Pow256(k)
    ensures LeAt(h, o, k) == n <==> h[o..o + k] == Le(n, k)
  {
    if h[o..o + k] == Le(n, k) {
      LeValue(n, k);
      assert Le(n, k)[0..k] == Le(n, k);
      LeAtSame(h, Le(n, k), o, 0, k);
    }
    LeInverse(h, o, k);
  }

  lemma SmallNumbers()
    ensures Le(0x10000, 4) == [0, 0, 1, 0] && Le(0, 4) == [0, 0, 0, 0] && Le(128, 4) == [128, 0, 0, 0]
    ensures Pow256(4) == U32 && Pow256(8) == U64
  {
    assert Le(1, 2) == [1, 0] && Le(0x100, 3) == [0] + Le(1, 2) && Le(0x10000, 4) == [0] + Le(0x100, 3);
    assert Le(0, 2) == [0, 0] && Le(0, 3) == [0] + Le(0, 2) && Le(0, 4) == [0] + Le(0, 3);
    assert Le(128, 4) == [128] + Le(0, 3);
  }

  lemma SizeSpelled(h: seq<byte>)
    requires |h| == 512
    ensures Sized(h) <==> 92 <= (h[12] as int) + 0x100 * (h[13] as int) <= 512 && h[14] == 0 && h[15] == 0
  {
    LittleEndian(h, 12);
    TwoBytes(h, 12);
    TwoBytes(h, 14);
  }

  lemma ConstantSpelled(h: seq<byte>)
    requires |h| == 512
    ensures Constant(h) <==>
      && Spells(h, 0, "EFI PART") && h[8..12] == [0, 0, 1, 0]
      && 92 <= (h[12] as int) + 0x100 * (h[13] as int) <= 512 && h[14] == 0 && h[15] == 0
      && h[20..24] == [0, 0, 0, 0] && h[80..84] == [128, 0, 0, 0] && h[84..88] == [128, 0, 0, 0]
  {
    SmallNumbers();
    SizeSpelled(h);
    FieldSpelled(h, 8, 4, 0x10000);
    FieldSpelled(h, 20, 4, 0);
    FieldSpelled(h, 80, 4, 128);
    FieldSpelled(h, 84, 4, 128);
    SignatureSpelled(h);
  }

  lemma SignatureSpelled(h: seq<byte>)
    requires |h| == 512
    ensures h[..8] == SIGNATURE <==> Spells(h, 0, "EFI PART")
  {
    var s := "EFI PART";
    assert forall k :: 0 <= k < 8 ==> SIGNATURE[k] == s[k] as int;
    assert forall k :: 0 <= k < 8 ==> h[..8][k] == h[k];
    if Spells(h, 0, s) {
      assert forall k :: 0 <= k < 8 ==> h[0 + k] as int == s[k] as int;
      assert h[..8] == SIGNATURE;
    }
  }

  /** A header passes the check exactly if its bytes are those of the specification and the number in its checksum field
      is the CRC-32 of the header with that field zero. */
  lemma HeaderExactly(h: seq<byte>, current: nat, other: nat, entries: nat)
    requires current < U64 && other < U64 && entries < U64
    ensures HeaderOk(h, current, other, entries) <==>
      && HeaderSpelled(h, current, other, entries)
      && U32At(h, 12) <= 512 && U32At(h, 16) == Crc(Blanked(h)[..U32At(h, 12)])
  {
    if |h| == 512 {
      SmallNumbers();
      ConstantSpelled(h);
      SizeSpelled(h);
      FieldSpelled(h, 24, 8, current);
      FieldSpelled(h, 32, 8, other);
      FieldSpelled(h, 72, 8, entries);
    }
  }

  // The K11C table.

  function PartName(i: nat): string {
    match i
    case 0 => "hassos-boot"
    case 1 => "hassos-kernel0"
    case 2 => "hassos-system0"
    case 3 => "hassos-kernel1"
    case 4 => "hassos-system1"
    case 5 => "hassos-bootstate"
    case 6 => "hassos-overlay"
    case _ => "hassos-data"
  }

  lemma NameSpelled(x: seq<byte>, i: nat, name: string)
    requires |x| == ENTRIES && i < 128 && |name| < 36
    ensures Labelled(x, i, name) <==> SpellsWide(x, 128 * i + 56, name)
  {
    var o := 128 * i + 56;
    forall k | 0 <= k <= |name|
      ensures U16At(x, o + 2 * k) == (x[o + 2 * k] as int) + 0x100 * (x[o + 2 * k + 1] as int)
    {
      TwoBytes(x, o + 2 * k);
    }
    if SpellsWide(x, o, name) {
      forall k | 0 <= k < |name| ensures U16At(x, o + 2 * k) == name[k] as int {
        assert WideAt(x, o, k, name[k]);
      }
    }
  }

  lemma PartNames(i: nat)
    requires i < 8
    ensures LABELS[i] == PartName(i) && |PartName(i)| < 36
  {
  }

  /** The eight names in the order of the table, the first partition at sector 34816, none below, and nothing else. */
  lemma K11cExactly(x: seq<byte>)
    requires |x| == ENTRIES
    ensures K11c(x) <==>
      && (forall i :: 0 <= i < 8 ==> SpellsWide(x, 128 * i + 56, PartName(i)) && 17825792 <= 512 * Start(x, i))
      && 512 * Start(x, 0) == 17825792 && forall k :: 8 * 128 <= k < 128 * 128 ==> x[k] == 0
  {
    forall i | 0 <= i < 8
      ensures LABELS[i] == PartName(i) && (Labelled(x, i, LABELS[i]) <==> SpellsWide(x, 128 * i + 56, PartName(i)))
    {
      PartNames(i);
      NameSpelled(x, i, PartName(i));
    }
  }

  /** The first partition of an inspected image is of type C12A7328-F81F-11D2-BA4B-00A0C93EC93B, the EFI System Partition:
      three numbers with the lower byte first, then eight bytes. */
  lemma SystemTypeSpelled(x: seq<byte>)
    requires |x| == ENTRIES
    ensures x[..16] == EFI_SYSTEM <==>
      && U32At(x, 0) == 0xC12A7328 && U16At(x, 4) == 0xF81F && U16At(x, 6) == 0x11D2
      && x[8..16] == [0xBA, 0x4B, 0x00, 0xA0, 0xC9, 0x3E, 0xC9, 0x3B]
  {
    TypeFields(x);
    var tail: seq<byte> := [0xBA, 0x4B, 0x00, 0xA0, 0xC9, 0x3E, 0xC9, 0x3B];
    assert x[..16] == [x[0], x[1], x[2], x[3], x[4], x[5], x[6], x[7]] + x[8..16];
    assert EFI_SYSTEM == [0x28, 0x73, 0x2a, 0xc1, 0x1f, 0xf8, 0xd2, 0x11] + tail;
  }

  lemma TypeFields(x: seq<byte>)
    requires |x| == ENTRIES
    ensures U32At(x, 0) == 0xC12A7328 <==> x[0] == 0x28 && x[1] == 0x73 && x[2] == 0x2A && x[3] == 0xC1
    ensures U16At(x, 4) == 0xF81F <==> x[4] == 0x1F && x[5] == 0xF8
    ensures U16At(x, 6) == 0x11D2 <==> x[6] == 0xD2 && x[7] == 0x11
  {
    LittleEndian(x, 0);
    TwoBytes(x, 0);
    TwoBytes(x, 2);
    TwoBytes(x, 4);
    TwoBytes(x, 6);
  }

  // Which images are which.

  /** No image is both: a manufacturer image whose table names a HAOS partition is refused, and an inspected HAOS image
      names one. */
  lemma NeverBoth(image: seq<byte>)
    ensures !(InspectedImage(image) && RawImage(image))
  {
    if InspectedImage(image) && RawImage(image) {
      InspectedNames(image);
    }
  }

  lemma InspectedNames(image: seq<byte>)
    requires InspectedImage(image)
    ensures HasGpt(image) && NamesHassos(image[1024..HEAD])
  {
    var p := image[..HEAD];
    InspectedParts(p, image[|image| - TAIL..], |image| / 512);
    SliceOfHeader(image, p);
    NamesIt(image, Array(p));
  }

  lemma InspectedParts(p: seq<byte>, t: seq<byte>, sectors: nat)
    requires Inspected(p, t, sectors)
    ensures |p| == HEAD && Header(p)[..8] == SIGNATURE && Labelled(Array(p), 0, LABELS[0])
  {
    assert Named(Array(p), 0);
  }

  lemma SliceOfHeader(image: seq<byte>, p: seq<byte>)
    requires |image| >= HEAD && p == image[..HEAD]
    ensures Header(p)[..8] == image[512..520] && Array(p) == image[1024..HEAD]
  {
  }

  lemma NamesIt(image: seq<byte>, x: seq<byte>)
    requires |image| >= HEAD && x == image[1024..HEAD] && Labelled(x, 0, LABELS[0])
    ensures NamesHassos(image[1024..HEAD])
  {
    var s := "hassos-boot";
    assert LABELS[0] == s;
    forall k | 0 <= k < 6 ensures x[56 + 2 * k] == s[k] as int && x[56 + 2 * k + 1] == 0 {
      TwoBytes(x, 56 + 2 * k);
      assert U16At(x, 128 * 0 + 56 + 2 * k) == s[k] as int;
      SmallCode(x, 56 + 2 * k, s[k] as int);
    }
    assert x[56..68] == [x[56], x[57], x[58], x[59], x[60], x[61], x[62], x[63], x[64], x[65], x[66], x[67]];
    assert x[56 + 2 * 0] == 104 && x[56 + 2 * 1] == 97 && x[56 + 2 * 2] == 115;
    assert x[56 + 2 * 3] == 115 && x[56 + 2 * 4] == 111 && x[56 + 2 * 5] == 115;
    assert HassosAt(x, 56);
  }

  lemma SmallCode(b: seq<byte>, o: nat, n: int)
    requires o + 2 <= |b| && (b[o] as int) + 0x100 * (b[o + 1] as int) == n && 0 <= n < 0x100
    ensures b[o] == n && b[o + 1] == 0
  {
  }

  // Backups.

  /** Which bytes a backup of each kind saves: all of them; the first 34816 sectors and the last 33; or, if the table uses
      all of its eight entries, exactly those of the eight partitions. */
  lemma SavedExactly(m: Meta, i: nat)
    requires Meaningful(m)
    ensures m.kind == Full ==> (Saved(m, i) <==> i < 512 * m.sectors)
    ensures m.kind == Boot ==> (Saved(m, i) <==> i < 34816 * 512 || 512 * m.sectors - 33 * 512 <= i < 512 * m.sectors)
    ensures m.kind == Haos && EightUsed(Array(m.primary)) ==>
      (Saved(m, i) <==> exists k :: 0 <= k < 8 && InPartition(Array(m.primary), k, i))
  {
    MeaningfulParts(m);
    if m.kind == Haos {
      if EightUsed(Array(m.primary)) {
        HaosSaved(m, i);
      }
    } else if m.kind == Full {
      assert Extents(m, 0);
      if i < 512 * m.sectors { assert InExtent(m.ranges[0], i); }
    } else {
      assert Extents(m, 0) && Extents(m, 1);
      if i < 34816 * 512 { assert InExtent(m.ranges[0], i); }
      if 512 * m.sectors - 33 * 512 <= i < 512 * m.sectors { assert InExtent(m.ranges[1], i); }
    }
  }

  /** Range `k` is the place of that number. */
  predicate Extents(m: Meta, k: nat)
    requires m.sectors > 34849
  {
    k < |m.ranges| == |PlacesOf(m)| && (m.ranges[k].lba, m.ranges[k].bytes) == PlacesOf(m)[k]
  }

  predicate EightUsed(x: seq<byte>)
    requires |x| == ENTRIES
  {
    forall k :: 0 <= k < 8 ==> Used(x, k)
  }

  /** Byte `i` of the disk belongs to partition `k`: both of its addresses are inclusive. */
  predicate InPartition(x: seq<byte>, k: nat, i: nat)
    requires |x| == ENTRIES && k < 128
  {
    512 * Start(x, k) <= i < 512 * (Finish(x, k) + 1)
  }

  lemma HaosRange(m: Meta, k: nat)
    requires Meaningful(m) && m.kind == Haos && EightUsed(Array(m.primary)) && k < 8
    ensures |m.ranges| == 8
    ensures m.ranges[k].lba == Start(Array(m.primary), k)
    ensures m.ranges[k].bytes == 512 * (Finish(Array(m.primary), k) + 1 - Start(Array(m.primary), k))
  {
    var start, finish := HaosExtent(m, k);
    NoWrap(start, finish);
  }

  lemma HaosExtent(m: Meta, k: nat) returns (start: nat, finish: nat)
    requires Meaningful(m) && m.kind == Haos && k < 8 && EightUsed(Array(m.primary))
    ensures start == Start(Array(m.primary), k) <= finish == Finish(Array(m.primary), k) < U32
    ensures |m.ranges| == 8
    ensures m.ranges[k].lba == start % U32 && m.ranges[k].bytes == (finish + 1 - start) % U64 * 512 % U64
  {
    start, finish := HaosBounds(m, k);
    HaosRanged(m, k);
  }

  lemma HaosBounds(m: Meta, k: nat) returns (start: nat, finish: nat)
    requires Meaningful(m) && m.kind == Haos && k < 8 && EightUsed(Array(m.primary))
    ensures start == Start(Array(m.primary), k) <= finish == Finish(Array(m.primary), k) < U32
  {
    MeaningfulParts(m);
    UsedBounds(m.primary, m.tail, m.sectors, k);
    start, finish := Start(Array(m.primary), k), Finish(Array(m.primary), k);
  }

  lemma HaosRanged(m: Meta, k: nat)
    requires Meaningful(m) && m.kind == Haos && k < 8
    ensures |m.ranges| == 8 && |m.primary| == HEAD
    ensures (m.ranges[k].lba, m.ranges[k].bytes) == EntryExtent(Array(m.primary), k)
  {
    MeaningfulParts(m);
    assert Extents(m, k);
  }

  lemma UsedBounds(p: seq<byte>, t: seq<byte>, sectors: nat, k: nat)
    requires Accepted(p, t, sectors) && k < 128 && Used(Array(p), k)
    ensures Start(Array(p), k) <= Finish(Array(p), k) < U32
  {
  }

  lemma NoWrap(start: nat, finish: nat)
    requires start <= finish < U32
    ensures start % U32 == start
    ensures (finish + 1 - start) % U64 * 512 % U64 == 512 * (finish + 1 - start)
  {
  }

  lemma HaosSaved(m: Meta, i: nat)
    requires Meaningful(m) && m.kind == Haos && EightUsed(Array(m.primary))
    ensures Saved(m, i) <==> exists k :: 0 <= k < 8 && InPartition(Array(m.primary), k, i)
  {
    var x := Array(m.primary);
    forall k | 0 <= k < 8 ensures |m.ranges| == 8 && (InExtent(m.ranges[k], i) <==> InPartition(x, k, i)) {
      HaosRange(m, k);
    }
  }

  /** Six parts of a file, of known sizes. */
  lemma SixParts(file: seq<byte>, a: seq<byte>, b: seq<byte>, c: seq<byte>, d: seq<byte>, e: seq<byte>, n: nat)
    requires file == a + b + c + d + e + a && |a| == |e| == 8 && |d| == 32 && n == |b| + |c|
    ensures |file| == n + 56 && file[..8] == a == file[|file| - 8..]
    ensures file[8..8 + |b|] == b && file[8 + |b|..8 + n] == c
    ensures file[|file| - 48..|file| - 16] == d && file[|file| - 16..|file| - 8] == e
  {
  }

  /** The frame of an archive file: the format's name, payload, metadata, their digest of 32 bytes, their length in eight
      bytes, and the name again. */
  lemma FrameSpelled(f: Frame, mark: Hash)
    requires Framable(f) && Digest32(mark)
    ensures var file, name := Framed(f, mark), if f.format == 3 then "K11CBK03" else "K11CBK04";
      && |file| == |f.stored| + |f.meta| + 56
      && Spells(file, 0, name) && Spells(file, |file| - 8, name)
      && file[8..8 + |f.stored|] == f.stored && file[8 + |f.stored|..8 + |f.stored| + |f.meta|] == f.meta
      && file[|file| - 48..|file| - 16] == mark(f.meta) && U64At(file, |file| - 16) == |f.meta|
  {
    var file, s, e := Framed(f, mark), Signature(f.format), Le(|f.meta|, 8);
    LengthField(|f.meta|);
    SixParts(file, s, f.stored, f.meta, mark(f.meta), e, |f.stored| + |f.meta|);
    LengthAt(file, |file| - 16, e);
    NameOf(f.format);
    NameAt(file, s, f.format);
  }

  lemma LengthAt(file: seq<byte>, o: nat, e: seq<byte>)
    requires |e| == 8 && o + 8 <= |file| && file[o..o + 8] == e
    ensures U64At(file, o) == U64At(e, 0)
  {
    assert e[0..8] == e;
    LeAtSame(file, e, o, 0, 8);
  }

  lemma NameAt(file: seq<byte>, s: seq<byte>, format: nat)
    requires |file| >= 8 && |s| == 8 && file[..8] == s == file[|file| - 8..]
    requires Spells(s, 0, if format == 3 then "K11CBK03" else "K11CBK04")
    ensures Spells(file, 0, if format == 3 then "K11CBK03" else "K11CBK04")
    ensures Spells(file, |file| - 8, if format == 3 then "K11CBK03" else "K11CBK04")
  {
    var name, at := if format == 3 then "K11CBK03" else "K11CBK04", |file| - 8;
    forall k | 0 <= k < 8 ensures file[k] as int == name[k] as int && file[at + k] as int == name[k] as int {
      assert s[0 + k] as int == name[k] as int;
      assert file[..8][k] == s[k] && file[at..][k] == s[k];
    }
  }

  lemma NameOf(format: nat)
    requires format == 3 || format == 4
    ensures Spells(Signature(format), 0, if format == 3 then "K11CBK03" else "K11CBK04")
  {
    var three, four := "K11CBK03", "K11CBK04";
    assert forall k :: 0 <= k < 8 ==> MAGIC_XZ[k] == three[k] as int;
    assert forall k :: 0 <= k < 8 ==> MAGIC_ZSTD[k] == four[k] as int;
  }
}
