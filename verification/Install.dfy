/** From the official image and the prepared data partition to the eMMC: composition, installation, and what the disk
    then holds when it is read through its own partition table. */
module Install {
  import opened Bytes
  import opened Gpt
  import opened GptRepair
  import opened GptMove
  import opened GptCheck
  import opened GptEdit
  import opened Disk
  import opened Plan
  import opened Operations

  // `compose`.

  /** An ext4 superblock labelled hassos-data. */
  predicate HassosData(data: seq<byte>) {
    && |data| >= 1024 + 136
    && data[1024 + 56] == 0x53 && data[1024 + 57] == 0xef
    && data[1024 + 120..1024 + 131] == [104, 97, 115, 115, 111, 115, 45, 100, 97, 116, 97]
  }

  function DataLba(raw: seq<byte>): nat
    requires |raw| >= HEAD
  {
    Start(Table(raw), 7)
  }

  /** The table with the data partition stretched, the official bytes up to it, the prepared data, the mirror table. */
  predicate IsComposed(image: seq<byte>, raw: seq<byte>, data: seq<byte>) {
    InspectedImage(raw) && InspectedImage(image) && ComposedBytes(image, raw, data)
  }

  predicate ComposedBytes(image: seq<byte>, raw: seq<byte>, data: seq<byte>) {
    && |raw| >= HEAD && |data| % 512 == 0
    && var start := DataLba(raw);
    && 34 <= start && 512 * start <= |raw| && |image| == 512 * start + |data| + TAIL
    && image[HEAD..512 * start] == raw[HEAD..512 * start]
    && image[512 * start..|image| - TAIL] == data
    && DataResized(Table(image), Table(raw), |image| / 512)
    && DataLast(Table(raw), |image| / 512)
  }

  lemma ComposedFrom(image: seq<byte>, raw: seq<byte>, data: seq<byte>, head: seq<byte>, sectors: nat)
    requires |raw| >= HEAD && |data| % 512 == 0 && |head| == HEAD
    requires var start := DataLba(raw);
      && 34 <= start && 512 * start <= |raw| && |image| == 512 * start + |data| + TAIL
      && image[HEAD..512 * start] == raw[HEAD..512 * start] && image[512 * start..|image| - TAIL] == data
      && sectors == (512 * start + |data|) / 512 + 33
    requires image[..HEAD] == head
    requires DataResized(Array(head), Table(raw), sectors) && DataLast(Table(raw), sectors)
    ensures ComposedBytes(image, raw, data)
  {
  }

  lemma ComposedPieces(head: seq<byte>, middle: seq<byte>, data: seq<byte>, tail: seq<byte>)
    requires |head| == HEAD && |tail| == TAIL
    ensures var image := head + middle + data + tail;
      && image[..HEAD] == head
      && image[HEAD..HEAD + |middle|] == middle
      && image[HEAD + |middle|..|image| - TAIL] == data
      && image[|image| - TAIL..] == tail
  {
  }

  lemma OfficialParts(raw: seq<byte>)
    requires InspectedImage(raw)
    ensures Healthy(raw[..HEAD], raw[|raw| - TAIL..], |raw| / 512)
    ensures forall i :: 0 <= i < 8 ==> Used(Table(raw), i)
    ensures 34 <= DataLba(raw) && 512 * DataLba(raw) <= |raw|
  {
    forall i | 0 <= i < 8 ensures Used(Table(raw), i) {
      assert Named(Table(raw), i);
    }
    assert Used(Table(raw), 7);
  }

  /** `compose` succeeds exactly here. */
  predicate Composable(raw: seq<byte>, data: seq<byte>) {
    && InspectedImage(raw) && HassosData(data)
    && var sectors := DataLba(raw) + |data| / 512 + 33;
    && 34849 < sectors && 512 * sectors <= LIMIT
    && DataLast(Table(raw), sectors)
  }

  method Compose(raw: seq<byte>, data: seq<byte>) returns (r: Result<seq<byte>>)
    requires |data| % 512 == 0
    ensures r.Ok? <==> Composable(raw, data)
    ensures r.Ok? ==> IsComposed(r.value, raw, data)
  {
    var good := InspectImage(raw);
    if !good { return Err("IMAGE_PLATFORM"); }
    if !HassosData(data) { return Err("COMPONENT_DATA"); }
    var start := FirstData(raw);
    var sectors := (512 * start + |data|) / 512 + 33;
    if 512 * sectors > LIMIT { return Err("IMAGE_SIZE"); }
    var pair := StretchTable(raw, sectors, |data|);
    if pair.Err? { return Err(pair.code); }
    var (head, tail) := pair.value;
    var image := WriteOut(raw, data, head, tail, start);
    StillInspected(image, Table(raw), head, tail, sectors);
    good := InspectImage(image);
    r := if good then Ok(image) else Err("IMAGE_PLATFORM");
  }

  /** The pieces written one after the other: new table, official bytes, data, backup table. */
  method WriteOut(raw: seq<byte>, data: seq<byte>, head: seq<byte>, tail: seq<byte>, start: nat)
    returns (image: seq<byte>)
    requires |raw| >= HEAD && |head| == HEAD && |tail| == TAIL && |data| % 512 == 0
    requires start == DataLba(raw) && 34 <= start && 512 * start <= |raw|
    requires var sectors := (512 * start + |data|) / 512 + 33;
      DataResized(Array(head), Table(raw), sectors) && DataLast(Table(raw), sectors)
    ensures |image| == 512 * start + |data| + TAIL
    ensures image[..HEAD] == head && image[|image| - TAIL..] == tail && ComposedBytes(image, raw, data)
  {
    image := head + raw[HEAD..512 * start] + data + tail;
    ComposedPieces(head, raw[HEAD..512 * start], data, tail);
    ComposedFrom(image, raw, data, head, (512 * start + |data|) / 512 + 33);
  }

  /** The inspection at the end of a composition never fails: only an address changed in the table. */
  lemma StillInspected(image: seq<byte>, x: seq<byte>, head: seq<byte>, tail: seq<byte>, sectors: nat)
    requires |image| == 512 * sectors && 34849 < sectors && 512 * sectors <= LIMIT
    requires image[..HEAD] == head && image[|image| - TAIL..] == tail && Healthy(head, tail, sectors)
    requires |x| == ENTRIES && EightPartitions(x) && DataResized(Array(head), x, sectors)
    ensures InspectedImage(image)
  {
    assert Inspected(head, tail, sectors) by {
      StillEight(Array(head), x, sectors);
      InspectedOf(head, tail, sectors);
    }
    InspectedByParts(image, head, tail, sectors);
  }

  lemma InspectedByParts(image: seq<byte>, head: seq<byte>, tail: seq<byte>, sectors: nat)
    requires |image| == 512 * sectors && 34849 < sectors && 512 * sectors <= LIMIT
    requires image[..HEAD] == head && image[|image| - TAIL..] == tail && Inspected(head, tail, sectors)
    ensures InspectedImage(image)
  {
  }

  lemma {:induction false} UsedSame(x: seq<byte>, y: seq<byte>, n: nat)
    requires |x| == |y| == ENTRIES && n <= 128
    requires forall i :: 0 <= i < n ==> (Used(x, i) <==> Used(y, i))
    ensures UsedUpTo(x, n) == UsedUpTo(y, n)
  {
    if n > 0 {
      UsedSame(x, y, n - 1);
      assert Used(x, n - 1) <==> Used(y, n - 1);
    }
  }

  lemma StillNamed(y: seq<byte>, x: seq<byte>, sectors: nat, i: nat)
    requires |x| == |y| == ENTRIES && sectors >= 34 && DataResized(y, x, sectors) && i < 8 && Named(x, i)
    ensures Named(y, i)
  {
    LabelledSame(y, x, i, LABELS[i]);
    DataResizedReads(y, x, sectors, i);
    var k :| 128 * i + 16 <= k < 128 * i + 32 && x[k] != 0;
    assert y[k] != 0;
  }

  predicate EightPartitions(x: seq<byte>)
    requires |x| == ENTRIES
  {
    |UsedUpTo(x, 128)| == 8 && EightNamed(x) && x[..16] == EFI_SYSTEM
  }

  lemma InspectedOf(p: seq<byte>, t: seq<byte>, sectors: nat)
    requires Healthy(p, t, sectors) && EightPartitions(Array(p))
    ensures Inspected(p, t, sectors)
  {
  }

  lemma StillEight(y: seq<byte>, x: seq<byte>, sectors: nat)
    requires |x| == |y| == ENTRIES && sectors >= 34 && DataResized(y, x, sectors) && EightPartitions(x)
    ensures EightPartitions(y)
  {
    forall i | 0 <= i < 128 ensures Used(x, i) <==> Used(y, i) {
      DataResizedReads(y, x, sectors, i);
    }
    UsedSame(x, y, 128);
    forall i | 0 <= i < 8 ensures Named(y, i) {
      assert Named(x, i);
      StillNamed(y, x, sectors, i);
    }
    assert y[..16] == x[..16];
  }

  method FirstData(raw: seq<byte>) returns (start: nat)
    requires InspectedImage(raw)
    ensures start == DataLba(raw) && 34 <= start && 512 * start <= |raw|
    ensures EightPartitions(Table(raw))
  {
    OfficialParts(raw);
    start := U64At(Array(raw[..HEAD]), 7 * 128 + 32);
  }

  method StretchTable(raw: seq<byte>, sectors: nat, dataBytes: nat) returns (r: Result<(seq<byte>, seq<byte>)>)
    requires InspectedImage(raw)
    ensures r.Ok? <==>
      34849 < sectors < U32 && sectors == DataLba(raw) + dataBytes / 512 + 33 && DataLast(Table(raw), sectors)
    ensures r.Ok? ==>
      && |r.value.0| == HEAD && |r.value.1| == TAIL
      && Healthy(r.value.0, r.value.1, sectors)
      && DataResized(Array(r.value.0), Table(raw), sectors) && DataLast(Table(raw), sectors)
  {
    OfficialParts(raw);
    r := ResizeData(raw[..HEAD], raw[|raw| - TAIL..], |raw| / 512, sectors, dataBytes);
    if r.Ok? {
      ResizedParts(r.value.0, r.value.1, raw[..HEAD], sectors);
    }
  }

  lemma ResizedParts(a: seq<byte>, b: seq<byte>, p: seq<byte>, sectors: nat)
    requires |p| == HEAD && sectors >= 34 && IsDataResized(a, p, sectors) && Mirrored(a, b, sectors)
    ensures |a| == HEAD && |b| == TAIL && DataResized(Array(a), Array(p), sectors)
  {
  }

  // What is installed.

  /** The bytes of partition `i` of a disk or image, by its own table `x`. */
  function Content(d: seq<byte>, x: seq<byte>, i: nat): (c: seq<byte>)
    requires |x| == ENTRIES && i < 128 && Start(x, i) <= Finish(x, i) && 512 * (Finish(x, i) + 1) <= |d|
  {
    d[512 * Start(x, i)..512 * (Finish(x, i) + 1)]
  }

  /** Nothing of the entry but its two addresses differs. */
  predicate SameIdentity(y: seq<byte>, x: seq<byte>, i: nat)
    requires |x| == |y| == ENTRIES && i < 128
  {
    Same(y, x, 128 * i, 128 * i + 32) && Same(y, x, 128 * i + 48, 128 * i + 128)
  }

  predicate Within(x: seq<byte>, i: nat, lo: nat, hi: nat)
    requires |x| == ENTRIES && i < 128
  {
    lo <= Start(x, i) <= Finish(x, i) < hi
  }

  /** Partition `i` of the disk `r` by the table `x` is partition `i` of the image, further along. */
  predicate InstalledAs(r: seq<byte>, x: seq<byte>, image: seq<byte>, i: nat) {
    && |x| == ENTRIES && |image| >= HEAD + TAIL && i < 8
    && var y := Table(image);
    && EntryMovedAs(x, y, i, |image| / 512 - 33)
    && 512 * (Finish(x, i) + 1) <= |r|
    && Content(r, x, i) == Content(image, y, i)
  }

  predicate EntryMovedAs(x: seq<byte>, y: seq<byte>, i: nat, limit: nat)
    requires |x| == |y| == ENTRIES && i < 8
  {
    && Within(y, i, 2048, limit)
    && Start(x, i) == Start(y, i) + SHIFT && Finish(x, i) == Finish(y, i) + SHIFT
    && SameIdentity(x, y, i)
  }

  lemma InstalledPartition(r: seq<byte>, x: seq<byte>, image: seq<byte>, i: nat)
    requires |x| == ENTRIES && |image| % 512 == 0 && 34849 * 512 <= |image| && |image| + 512 * SHIFT <= |r| && i < 8
    requires r[RESERVE..|image| - TAIL + 512 * SHIFT] == image[2048 * 512..|image| - TAIL]
    requires EntryMovedAs(x, Table(image), i, |image| / 512 - 33)
    ensures InstalledAs(r, x, image, i)
  {
    var a, b := Start(Table(image), i), Finish(Table(image), i) + 1;
    SubSlices(r, image, RESERVE, 2048 * 512, |image| - TAIL - 2048 * 512, 512 * (a - 2048), 512 * (b - 2048));
  }

  lemma InstalledEntry(image: seq<byte>, firmware: seq<byte>, w: Work, sectors: nat, i: nat)
    requires IsInstallWork(image, firmware, w, sectors) && i < 8
    ensures |w.primary| == HEAD && |image| >= HEAD + TAIL
    ensures EntryMovedAs(Array(w.primary), Table(image), i, |image| / 512 - 33)
  {
    PreparedBounds(image, i);
    RelocatedEntry(w.primary, image[..HEAD], sectors, i);
    AcceptedStart(w.primary, w.tail, sectors, i);
  }

  lemma PreparedBounds(image: seq<byte>, i: nat)
    requires InspectedImage(image) && i < 8
    ensures Used(Table(image), i) && Start(Table(image), i) <= Finish(Table(image), i) < |image| / 512 - 33
  {
    assert Named(Table(image), i);
  }

  lemma RelocatedEntry(a: seq<byte>, p: seq<byte>, target: nat, i: nat)
    requires |p| == HEAD && target >= 34 && IsRelocated(a, p, target) && i < 8 && Used(Array(p), i)
    ensures |a| == HEAD
    ensures var x, y := Array(a), Array(p);
      Start(x, i) == Start(y, i) + SHIFT && Finish(x, i) == Finish(y, i) + SHIFT && SameIdentity(x, y, i)
  {
    assert ShiftedEntry(Array(a), Array(p), i);
  }

  lemma AcceptedStart(p: seq<byte>, t: seq<byte>, sectors: nat, i: nat)
    requires Accepted(p, t, sectors) && i < 8
    ensures |p| == HEAD && Start(Array(p), i) >= 34816
  {
  }

  /** Partition `i` of a composed image: an official one, or as the eighth the prepared data. */
  predicate ComposedAs(image: seq<byte>, raw: seq<byte>, data: seq<byte>, i: nat) {
    && |image| >= HEAD + TAIL && |raw| >= HEAD && i < 8
    && var x, y := Table(image), Table(raw);
    && Within(x, i, 34, |image| / 512 - 33)
    && SameIdentity(x, y, i)
    && if i == 7 then Content(image, x, 7) == data
       else Within(y, i, 34, |raw| / 512) && Content(image, x, i) == Content(raw, y, i)
  }

  lemma ComposedPartition(image: seq<byte>, raw: seq<byte>, data: seq<byte>, i: nat)
    requires IsComposed(image, raw, data) && i < 8
    requires Within(Table(image), i, 34, |image| / 512 - 33)
    ensures ComposedAs(image, raw, data, i)
  {
    OfficialParts(raw);
    assert i < 7 ==> Used(Table(raw), i);
    DataResizedReads(Table(image), Table(raw), |image| / 512, i);
    ComposedBy(image, raw, data, i, DataLba(raw));
  }

  lemma ComposedBy(image: seq<byte>, raw: seq<byte>, data: seq<byte>, i: nat, start: nat)
    requires |raw| >= HEAD && i < 8 && 34 <= start && 512 * start <= |raw| && |raw| % 512 == |data| % 512 == 0
    requires |image| == 512 * start + |data| + TAIL && |image| >= HEAD + TAIL
    requires image[HEAD..512 * start] == raw[HEAD..512 * start] && image[512 * start..|image| - TAIL] == data
    requires var x, y := Table(image), Table(raw);
      && Within(x, i, 34, |image| / 512 - 33)
      && SameIdentity(x, y, i) && Start(x, i) == Start(y, i)
      && (i == 7 ==> Start(x, 7) == start && Finish(x, 7) == |image| / 512 - 34)
      && (i < 7 ==> Finish(x, i) == Finish(y, i) && Finish(x, i) < start)
    ensures ComposedAs(image, raw, data, i)
  {
    if i < 7 {
      var a, b := Start(Table(image), i), Finish(Table(image), i) + 1;
      SubSlices(image, raw, HEAD, HEAD, 512 * start - HEAD, 512 * a - HEAD, 512 * b - HEAD);
    }
  }

  /** Partition `i` read through the table of the installed disk. */
  predicate Delivered(r: seq<byte>, raw: seq<byte>, data: seq<byte>, sectors: nat, i: nat) {
    && |r| == 512 * sectors && sectors > 34849 && |raw| >= HEAD && i < 8
    && var x, y := Table(r), Table(raw);
    && Within(x, i, 34816, sectors - 33)
    && SameIdentity(x, y, i)
    && if i == 7 then Content(r, x, 7) == data
       else Within(y, i, 34, |raw| / 512) && Content(r, x, i) == Content(raw, y, i)
  }

  lemma Combined(r: seq<byte>, image: seq<byte>, raw: seq<byte>, data: seq<byte>, sectors: nat, i: nat)
    requires |r| == 512 * sectors && sectors > 34849
    requires InstalledAs(r, Table(r), image, i) && ComposedAs(image, raw, data, i)
    requires |image| / 512 + SHIFT <= sectors
    ensures Delivered(r, raw, data, sectors, i)
  {
  }

  /** The whole installation: the disk carries the K11C table it was announced; read through it, the seven OS partitions
      are byte for byte those of the official image, the eighth is the prepared data, and of their entries nothing but
      the addresses has changed. */
  lemma InstallationPreservesPartitions(raw: seq<byte>, data: seq<byte>, image: seq<byte>, firmware: seq<byte>,
                                        w: Work, sectors: nat, d: seq<byte>)
    requires IsComposed(image, raw, data) && IsInstallWork(image, firmware, w, sectors) && |d| == 512 * sectors
    ensures Settles(w, d, sectors) && Accepted(w.primary, w.tail, sectors)
    ensures forall i :: 0 <= i < 8 ==> Delivered(Laid(d, w.segments), raw, data, sectors, i)
  {
    InstalledSettles(d, image, firmware, w.primary, w.tail, sectors);
    InstalledPartitions(d, image, firmware, w.primary, w.tail, sectors);
    forall i | 0 <= i < 8 ensures Delivered(Laid(d, w.segments), raw, data, sectors, i) {
      InstalledEntry(image, firmware, w, sectors, i);
      ComposedPartition(image, raw, data, i);
      var r := Laid(d, w.segments);
      InstalledPartition(r, Table(r), image, i);
      Combined(r, image, raw, data, sectors, i);
    }
  }
}
