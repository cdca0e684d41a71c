/** `build` as flash.rs runs it, for all six storage operations. */
module Operations {
  import opened Common
  import opened Bytes
  import opened Gpt
  import opened GptRepair
  import opened GptMove
  import opened GptCheck
  import opened GptEdit
  import opened Spans
  import opened Disk
  import opened Archive
  import opened ArchiveFile
  import opened Plan

  datatype Operation =
    | FactoryRaw(image: seq<byte>)
    | Install(image: seq<byte>, firmware: seq<byte>)
    | Uboot(firmware: seq<byte>)
    | RestoreArchive(meta: Meta, payload: seq<byte>)
    | Restore(saved: Snapshot)
    | Repairing

  /** What opening the sources has already established. */
  predicate Given(op: Operation) {
    match op
    case FactoryRaw(_) => true
    case Install(_, firmware) => BootFirmware(firmware)
    case Uboot(firmware) => BootFirmware(firmware)
    case RestoreArchive(m, payload) =>
      Meaningful(m) && Complete(m, payload) && (m.kind != Haos ==> m.sectors >= 33 && TablesMatch(m, payload))
    case Restore(saved) => Shot(saved)
    case Repairing => true
  }

  // Manufacturer images.

  const HASSOS: seq<byte> := [104, 0, 97, 0, 115, 0, 115, 0, 111, 0, 115, 0]

  predicate NamesHassos(x: seq<byte>) {
    exists i :: 0 <= i <= |x| - 12 && HassosAt(x, i)
  }

  predicate HassosAt(x: seq<byte>, i: nat)
    requires i + 12 <= |x|
  {
    x[i..i + 12] == HASSOS
  }

  method FindHassos(x: seq<byte>) returns (found: bool)
    ensures found <==> NamesHassos(x)
  {
    var i := 0;
    while i + 12 <= |x|
      invariant 0 <= i
      invariant forall j :: 0 <= j < i && j <= |x| - 12 ==> !HassosAt(x, j)
    {
      if HassosAt(x, i) { return true; }
      i := i + 1;
    }
    return false;
  }

  function MbrSpan(a: seq<byte>, k: nat): Span
    requires |a| == HEAD && k < 4
  {
    (U32At(a, 446 + 16 * k + 8), U32At(a, 446 + 16 * k + 8) + U32At(a, 446 + 16 * k + 12))
  }

  predicate MbrUsed(a: seq<byte>, k: nat)
    requires |a| == HEAD && k < 4
  {
    a[446 + 16 * k + 4] != 0
  }

  /** A primary partition that is neither protective nor extended, inside the image. */
  predicate MbrEntryOk(a: seq<byte>, k: nat, sectors: nat)
    requires |a| == HEAD && k < 4
  {
    var kind := a[446 + 16 * k + 4];
    && kind != 0xee && kind != 0x05 && kind != 0x0f && kind != 0x85
    && 0 < MbrSpan(a, k).0 < MbrSpan(a, k).1 <= sectors
  }

  function MbrSpans(a: seq<byte>, n: nat): (s: seq<Span>)
    requires |a| == HEAD && n <= 4
  {
    if n == 0 then []
    else if MbrUsed(a, n - 1) then MbrSpans(a, n - 1) + [MbrSpan(a, n - 1)]
    else MbrSpans(a, n - 1)
  }

  predicate MbrOk(a: seq<byte>, sectors: nat)
    requires |a| == HEAD
  {
    && (forall k :: 0 <= k < 4 && MbrUsed(a, k) ==> MbrEntryOk(a, k, sectors))
    && MbrSpans(a, 4) != [] && AllApart(MbrSpans(a, 4), 1)
  }

  method CheckMbr(a: seq<byte>, sectors: nat) returns (ok: bool)
    requires |a| == HEAD
    ensures ok <==> MbrOk(a, sectors)
  {
    var spans: seq<Span> := [];
    var k := 0;
    while k < 4
      invariant 0 <= k <= 4
      invariant forall j :: 0 <= j < k && MbrUsed(a, j) ==> MbrEntryOk(a, j, sectors)
      invariant spans == MbrSpans(a, k) && Proper(spans, 1)
    {
      if a[446 + 16 * k + 4] != 0 {
        var kind := a[446 + 16 * k + 4];
        var start, count := U32At(a, 446 + 16 * k + 8), U32At(a, 446 + 16 * k + 12);
        if kind == 0xee || kind == 0x05 || kind == 0x0f || kind == 0x85 || start == 0 || count == 0
           || start + count > sectors {
          assert MbrUsed(a, k) && !MbrEntryOk(a, k, sectors);
          return false;
        }
        spans := spans + [(start, start + count)];
      }
      k := k + 1;
    }
    NeighboursSuffice(spans, 1);
    var overlap := NeighboursOverlap(Sort(spans), 1);
    return spans != [] && !overlap;
  }

  predicate HasGpt(image: seq<byte>) {
    |image| >= 520 && image[512..520] == SIGNATURE
  }

  /** `raw_layout`: a whole-disk image with either kind of partition table. */
  predicate RawImage(image: seq<byte>) {
    && |image| % 512 == 0 && 34849 * 512 < |image| < 512 * U32
    && image[510..512] == [0x55, 0xaa]
    && if HasGpt(image) then
         && Healthy(image[..HEAD], image[|image| - TAIL..], |image| / 512)
         && !NamesHassos(image[1024..HEAD])
       else MbrOk(image[..HEAD], |image| / 512)
  }

  method RawLayout(image: seq<byte>) returns (ok: bool)
    ensures ok <==> RawImage(image)
  {
    if |image| % 512 != 0 || |image| <= 34849 * 512 || |image| / 512 >= U32 { return false; }
    var a, b := image[..HEAD], image[|image| - TAIL..];
    if a[510..512] != [0x55, 0xaa] { return false; }
    assert a[510..512] == image[510..512] && a[512..520] == image[512..520];
    if a[512..520] == SIGNATURE {
      var report := Check(a, b, |image| / 512);
      if !report.Ok() { return false; }
      assert a[1024..] == image[1024..HEAD];
      var hassos := FindHassos(a[1024..]);
      return !hassos;
    }
    ok := CheckMbr(a, |image| / 512);
  }

  ghost predicate IsFactoryWork(image: seq<byte>, w: Work, sectors: nat) {
    && RawImage(image) && |image| <= 512 * sectors && sectors > 34849
    && if HasGpt(image) then
         && IsResized(w.primary, image[..HEAD], sectors) && Mirrored(w.primary, w.tail, sectors)
         && w.segments == FactoryGpt(image, w.primary, w.tail, sectors)
       else w == Work(FactoryMbr(image, sectors), image[..HEAD], FactoryTail(image, sectors))
  }

  method BuildFactory(image: seq<byte>, sectors: nat) returns (r: Result<Work>)
    requires 34849 < sectors < U32
    ensures r.Ok? <==> RawImage(image) && |image| <= 512 * sectors
    ensures r.Ok? ==> IsFactoryWork(image, r.value, sectors)
  {
    var raw := RawLayout(image);
    if !raw { return Err("FACTORY_FORMAT"); }
    var size := |image| / 512;
    if size > sectors { return Err("CAPACITY"); }
    if HasGpt(image) {
      r := BuildFactoryGpt(image, sectors);
    } else {
      r := Ok(Work(FactoryMbr(image, sectors), image[..HEAD], FactoryTail(image, sectors)));
    }
  }

  method BuildFactoryGpt(image: seq<byte>, sectors: nat) returns (r: Result<Work>)
    requires RawImage(image) && HasGpt(image) && |image| <= 512 * sectors && sectors < U32
    ensures r.Ok? && IsFactoryWork(image, r.value, sectors)
  {
    var pair := Resize(image[..HEAD], image[|image| - TAIL..], |image| / 512, sectors);
    var (primary, tail) := pair.value;
    r := Ok(Work(FactoryGpt(image, primary, tail, sectors), primary, tail));
  }

  // Installing a prepared HAOS image.

  /** What `inspect` demands of the partition table: eight partitions, named and identified, an EFI system partition
      first. */
  predicate Inspected(p: seq<byte>, t: seq<byte>, sectors: nat) {
    && Healthy(p, t, sectors)
    && |UsedUpTo(Array(p), 128)| == 8
    && EightNamed(Array(p))
    && Array(p)[..16] == EFI_SYSTEM
  }

  const EFI_SYSTEM: seq<byte> :=
    [0x28, 0x73, 0x2a, 0xc1, 0x1f, 0xf8, 0xd2, 0x11, 0xba, 0x4b, 0, 0xa0, 0xc9, 0x3e, 0xc9, 0x3b]

  predicate EightNamed(x: seq<byte>)
    requires |x| == ENTRIES
  {
    forall i :: 0 <= i < 8 ==> Named(x, i)
  }

  /** The expected name, and neither the type nor the partition's own identifier blank. */
  predicate Named(x: seq<byte>, i: nat)
    requires |x| == ENTRIES && i < 8
  {
    Labelled(x, i, LABELS[i]) && Used(x, i) && exists k :: 128 * i + 16 <= k < 128 * i + 32 && x[k] != 0
  }

  method Inspect(p: seq<byte>, t: seq<byte>, sectors: nat) returns (ok: bool)
    requires sectors < U32
    ensures ok <==> Inspected(p, t, sectors)
  {
    var report := Check(p, t, sectors);
    if !report.Ok() || report.partitions != 8 { return false; }
    var named := InspectEntries(Array(p));
    return named && Array(p)[..16] == EFI_SYSTEM;
  }

  method InspectEntries(x: seq<byte>) returns (ok: bool)
    requires |x| == ENTRIES
    ensures ok <==> EightNamed(x)
  {
    var i := 0;
    while i < 8
      invariant 0 <= i <= 8
      invariant forall j :: 0 <= j < i ==> Named(x, j)
    {
      ok := InspectEntry(x, i);
      if !ok { return false; }
      i := i + 1;
    }
    return true;
  }

  method InspectEntry(x: seq<byte>, i: nat) returns (ok: bool)
    requires |x| == ENTRIES && i < 8
    ensures ok <==> Named(x, i)
  {
    LabelsPlain();
    UnitsDecide(x, i, LABELS[i]);
    var zero := TypeIsZero(x, i);
    var anonymous := AllZero(x, 128 * i + 16, 128 * i + 32);
    return Units(x, i, 0) == Codes(LABELS[i]) && !zero && !anonymous;
  }

  predicate InspectedImage(image: seq<byte>) {
    && |image| % 512 == 0 && 34849 * 512 < |image| <= LIMIT
    && Inspected(image[..HEAD], image[|image| - TAIL..], |image| / 512)
  }

  /** `inspect`, as far as the partition table goes. */
  method InspectImage(image: seq<byte>) returns (ok: bool)
    ensures ok <==> InspectedImage(image)
  {
    if |image| % 512 != 0 || |image| / 512 <= 34849 || |image| > LIMIT { return false; }
    ok := Inspect(image[..HEAD], image[|image| - TAIL..], |image| / 512);
  }

  ghost predicate IsInstallWork(image: seq<byte>, firmware: seq<byte>, w: Work, sectors: nat) {
    && InspectedImage(image) && sectors > 34849
    && IsRelocated(w.primary, image[..HEAD], sectors) && Mirrored(w.primary, w.tail, sectors)
    && Accepted(w.primary, w.tail, sectors)
    && Installable(image, firmware, w.primary, w.tail, sectors)
    && w.segments == Installed(image, firmware, w.primary, w.tail, sectors)
  }

  /** The image is one, and its table can be moved to the eMMC as a K11C table. */
  predicate InstallBuildable(image: seq<byte>, sectors: nat) {
    && InspectedImage(image)
    && Relocatable(image[..HEAD], image[|image| - TAIL..], |image| / 512, sectors)
    && Fits(Table(image), sectors) && K11cSource(Table(image))
  }

  function Table(image: seq<byte>): (x: seq<byte>)
    requires |image| >= HEAD
    ensures |x| == ENTRIES
  {
    Array(image[..HEAD])
  }

  method BuildInstall(image: seq<byte>, firmware: seq<byte>, sectors: nat) returns (r: Result<Work>)
    requires BootFirmware(firmware) && 34849 < sectors < U32
    ensures r.Ok? <==> InstallBuildable(image, sectors)
    ensures r.Ok? ==> IsInstallWork(image, firmware, r.value, sectors)
  {
    if |image| % 512 != 0 || |image| <= 34849 * 512 || |image| > LIMIT { return Err("IMAGE_SIZE"); }
    var pair := MoveTable(image, sectors);
    if pair.Err? { return Err(pair.code); }
    r := Assemble(image, firmware, pair.value.0, pair.value.1, sectors);
  }

  /** Inspection and relocation of the image's own table. */
  method MoveTable(image: seq<byte>, sectors: nat) returns (r: Result<(seq<byte>, seq<byte>)>)
    requires |image| % 512 == 0 && 34849 * 512 < |image| <= LIMIT && sectors < U32
    ensures r.Ok? <==> InstallBuildable(image, sectors)
    ensures r.Ok? ==>
      && |image| / 512 + SHIFT <= sectors
      && |r.value.0| == HEAD && |r.value.1| == TAIL
      && IsRelocated(r.value.0, image[..HEAD], sectors) && Mirrored(r.value.0, r.value.1, sectors)
      && Accepted(r.value.0, r.value.1, sectors)
  {
    var a, b := image[..HEAD], image[|image| - TAIL..];
    var good := Inspect(a, b, |image| / 512);
    if !good { return Err("IMAGE_PLATFORM"); }
    r := Relocate(a, b, |image| / 512, sectors);
    if r.Ok? { RelocatedRoom(a, b, |image| / 512, sectors); }
  }

  /** Below the 32 GiB limit the capacity test cannot saturate. */
  lemma RelocatedRoom(p: seq<byte>, t: seq<byte>, source: nat, target: nat)
    requires Relocatable(p, t, source, target) && 512 * source <= LIMIT
    ensures source + SHIFT <= target
  {
  }

  method Assemble(image: seq<byte>, firmware: seq<byte>, primary: seq<byte>, tail: seq<byte>, sectors: nat)
    returns (r: Result<Work>)
    requires Installable(image, firmware, primary, tail, sectors)
    ensures r == Ok(Work(Installed(image, firmware, primary, tail, sectors), primary, tail))
  {
    var reserved := ReservedArea(firmware);
    var segments := [Segment(34816, image[2048 * 512..|image| - TAIL])];
    var oldTail := |image| / 512 + 32768 - 33;
    if oldTail < sectors - 33 {
      segments := segments + [Segment(oldTail, Zeros(512 * Least(sectors - 33 - oldTail, 33)))];
    }
    segments := segments + [Segment(34, reserved)];
    segments := segments + [Segment(sectors - 33, tail)];
    segments := segments + [Segment(0, primary)];
    assert segments == Installed(image, firmware, primary, tail, sectors);
    r := Ok(Work(segments, primary, tail));
  }

  // The other four, and the dispatch.

  ghost predicate IsArchiveWork(m: Meta, payload: seq<byte>, c: Snapshot, w: Work, sectors: nat) {
    && m.sectors == sectors
    && w.segments == Segments(m, payload)
    && (m.kind != Full ==>
          && Accepted(c.primary, c.tail, sectors)
          && |m.primary| == HEAD && Array(c.primary) == Array(m.primary))
    && (if m.kind == Haos then w.primary == c.primary && w.tail == c.tail
        else w.primary == m.primary && w.tail == m.tail)
  }

  /** The same capacity, and for a partial restore the partition layout that was saved. */
  predicate ArchiveBuildable(m: Meta, c: Snapshot, sectors: nat)
    requires Shot(c) && |m.primary| == HEAD
  {
    && m.sectors == sectors
    && (m.kind != Full ==> Accepted(c.primary, c.tail, sectors) && Array(c.primary) == Array(m.primary))
  }

  method BuildArchive(m: Meta, payload: seq<byte>, c: Snapshot, sectors: nat) returns (r: Result<Work>)
    requires Shot(c) && |m.primary| == HEAD && 34849 < sectors < U32
    ensures r.Ok? <==> ArchiveBuildable(m, c, sectors)
    ensures r.Ok? ==> IsArchiveWork(m, payload, c, r.value, sectors)
  {
    if m.sectors != sectors { return Err("RESTORE_CAPACITY"); }
    if m.kind != Full {
      var verdict := RequireK11c(c.primary, c.tail, sectors);
      if verdict.Err? { return Err(verdict.code); }
      if c.primary[1024..] != m.primary[1024..] { return Err("RESTORE_LAYOUT"); }
    }
    var pair := if m.kind == Haos then (c.primary, c.tail) else (m.primary, m.tail);
    return Ok(Work(Segments(m, payload), pair.0, pair.1));
  }

  ghost predicate IsRestoreWork(saved: Snapshot, c: Snapshot, w: Work, sectors: nat) {
    && Shot(saved) && Shot(c) && sectors >= 33
    && Accepted(saved.primary, saved.tail, sectors)
    && Repaired(c.primary, c.tail, sectors).Ok?
    && Settled(c.primary, c.tail, sectors) == Array(saved.primary)
    && w == Work(Restored(saved, sectors), saved.primary, saved.tail)
  }

  ghost predicate RestoreBuildable(saved: Snapshot, c: Snapshot, sectors: nat)
    requires Shot(saved) && Shot(c)
  {
    && Accepted(saved.primary, saved.tail, sectors)
    && Repaired(c.primary, c.tail, sectors).Ok?
    && Settled(c.primary, c.tail, sectors) == Array(saved.primary)
  }

  method BuildRestore(saved: Snapshot, c: Snapshot, sectors: nat) returns (r: Result<Work>)
    requires Shot(saved) && Shot(c) && 34849 < sectors < U32
    ensures r.Ok? <==> RestoreBuildable(saved, c, sectors)
    ensures r.Ok? ==> IsRestoreWork(saved, c, r.value, sectors)
  {
    var verdict := RequireK11c(saved.primary, saved.tail, sectors);
    if verdict.Err? { return Err(verdict.code); }
    var active := Repair(c.primary, c.tail, sectors);
    if active.Err? { return Err(active.code); }
    if active.value.0[1024..] != saved.primary[1024..] { return Err("RESTORE_LAYOUT"); }
    return Ok(Work(Restored(saved, sectors), saved.primary, saved.tail));
  }

  ghost predicate IsRepairWork(c: Snapshot, w: Work, sectors: nat) {
    && Repaired(c.primary, c.tail, sectors) == Ok((w.primary, w.tail)) && sectors >= 33
    && w.segments == Rewritten(c, w.primary, w.tail, sectors)
  }

  method BuildRepair(c: Snapshot, sectors: nat) returns (r: Result<Work>)
    requires Shot(c) && 34849 < sectors < U32
    ensures r.Ok? ==> IsRepairWork(c, r.value, sectors)
    ensures r.Ok? <==> Repaired(c.primary, c.tail, sectors).Ok?
  {
    var pair := Repair(c.primary, c.tail, sectors);
    if pair.Err? { return Err(pair.code); }
    var (p, t) := pair.value;
    var segments := [];
    if t != c.tail { segments := segments + [Segment(sectors - 33, t)]; }
    if p != c.primary { segments := segments + [Segment(0, p)]; }
    return Ok(Work(segments, p, t));
  }

  /** What each operation's work is made of. */
  ghost predicate Follows(op: Operation, c: Snapshot, w: Work, sectors: nat) {
    match op
    case FactoryRaw(image) => IsFactoryWork(image, w, sectors)
    case Install(image, firmware) => IsInstallWork(image, firmware, w, sectors)
    case Uboot(firmware) => Accepted(c.primary, c.tail, sectors) && w == Work([Segment(64, firmware)], c.primary, c.tail)
    case RestoreArchive(m, payload) => IsArchiveWork(m, payload, c, w, sectors)
    case Restore(saved) => IsRestoreWork(saved, c, w, sectors)
    case Repairing => IsRepairWork(c, w, sectors)
  }

  /** The one thing only the range check finds out: whether the places that an archive's table names fit the disk. A
      caller can read it off the table; it holds of all other operations. */
  predicate Fitting(op: Operation) {
    op.RestoreArchive? ==> op.meta.sectors > 34849 && PlacesFit(PlacesOf(op.meta), op.meta.sectors)
  }

  /** A partial restore that stays out of both tables. */
  predicate Sparing(op: Operation) {
    op.RestoreArchive? && op.meta.kind == Haos ==>
      op.meta.sectors > 34849 && PlacesClear(PlacesOf(op.meta), op.meta.sectors)
  }

  /** Which plans can be made, the range check aside. */
  ghost predicate Buildable(op: Operation, c: Snapshot, sectors: nat)
    requires Given(op) && Shot(c) && sectors > 34849
  {
    match op
    case FactoryRaw(image) => RawImage(image) && |image| <= 512 * sectors
    case Install(image, _) => InstallBuildable(image, sectors)
    case Uboot(_) => Accepted(c.primary, c.tail, sectors)
    case RestoreArchive(m, _) => ArchiveBuildable(m, c, sectors)
    case Restore(saved) => RestoreBuildable(saved, c, sectors)
    case Repairing => Repaired(c.primary, c.tail, sectors).Ok?
  }

  method Dispatch(op: Operation, c: Snapshot, sectors: nat) returns (r: Result<Work>)
    requires Given(op) && Shot(c) && 34849 < sectors < U32
    ensures r.Ok? <==> Buildable(op, c, sectors)
    ensures r.Ok? ==> Follows(op, c, r.value, sectors)
  {
    match op
    case FactoryRaw(image) => r := BuildFactory(image, sectors);
    case Install(image, firmware) => r := BuildInstall(image, firmware, sectors);
    case Uboot(firmware) =>
      var verdict := RequireK11c(c.primary, c.tail, sectors);
      r := if verdict.Err? then Err(verdict.code) else Ok(Work([Segment(64, firmware)], c.primary, c.tail));
    case RestoreArchive(m, payload) => r := BuildArchive(m, payload, c, sectors);
    case Restore(saved) => r := BuildRestore(saved, c, sectors);
    case Repairing => r := BuildRepair(c, sectors);
  }

  /** `build`: the operation's segments. The range check at its end refuses exactly the archives whose places do not fit
      the disk. */
  method Build(op: Operation, c: Snapshot, sectors: nat) returns (r: Result<Work>)
    requires Given(op) && Shot(c) && 34849 < sectors < U32
    ensures r.Ok? <==> Buildable(op, c, sectors) && Fitting(op)
    ensures r.Ok? ==> Follows(op, c, r.value, sectors) && Plannable(r.value.segments, sectors)
  {
    r := Dispatch(op, c, sectors);
    if r.Ok? {
      WorkPlannable(op, c, r.value, sectors);
      var valid := ValidateRanges(r.value.segments, sectors);
      if !valid { r := Err("WRITE_RANGE"); }
    }
  }

  // Every operation's segments are whole sectors of the device, kept apart.

  lemma FactoryPlannable(image: seq<byte>, w: Work, sectors: nat)
    requires IsFactoryWork(image, w, sectors)
    ensures Plannable(w.segments, sectors)
  {
    var ss, n := w.segments, |image| / 512;
    if HasGpt(image) {
      assert |w.primary| == HEAD && |w.tail| == TAIL;
      FactoryGptPlannable(image, w.primary, w.tail, sectors);
    } else {
      FactoryMbrPlannable(image, sectors);
    }
  }

  lemma ArchivePlannable(m: Meta, payload: seq<byte>, c: Snapshot, w: Work, sectors: nat)
    requires Meaningful(m) && Complete(m, payload) && IsArchiveWork(m, payload, c, w, sectors)
    ensures sectors == m.sectors > 34849
    ensures Plannable(w.segments, sectors) <==> PlacesFit(PlacesOf(m), sectors)
  {
    MeaningfulParts(m);
    SegmentsPlannable(m, payload, PlacesOf(m));
  }

  lemma OwnPlannable(op: Operation, c: Snapshot, w: Work, sectors: nat)
    requires Given(op) && Shot(c) && sectors > 34849 && Follows(op, c, w, sectors) && !op.RestoreArchive?
    ensures Plannable(w.segments, sectors)
  {
    match op
    case FactoryRaw(image) => FactoryPlannable(image, w, sectors);
    case Install(image, firmware) => InstalledPlannable(image, firmware, w.primary, w.tail, sectors);
    case Uboot(firmware) =>
    case Restore(saved) => RestoredPlannable(saved, sectors);
    case Repairing => RewrittenPlannable(c, w.primary, w.tail, sectors);
  }

  /** Whatever the operation, its segments are whole sectors of the device, kept apart; those of an archive exactly if its
      places are. */
  lemma WorkPlannable(op: Operation, c: Snapshot, w: Work, sectors: nat)
    requires Given(op) && Shot(c) && sectors > 34849 && Follows(op, c, w, sectors)
    ensures Plannable(w.segments, sectors) <==> Fitting(op)
  {
    if op.RestoreArchive? {
      ArchivePlannable(op.meta, op.payload, c, w, sectors);
    } else {
      OwnPlannable(op, c, w, sectors);
    }
  }

  // Every operation's work settles.

  lemma ArchiveTables(m: Meta, payload: seq<byte>)
    requires Meaningful(m) && Complete(m, payload) && m.kind != Haos && m.sectors >= 33 && TablesMatch(m, payload)
    ensures Shaped(m.kind, m.sectors, m.ranges) && |m.primary| == HEAD && |m.tail| == TAIL
    ensures |payload| >= 34849 * 512
    ensures payload[..HEAD] == m.primary && payload[|payload| - TAIL..] == m.tail
  {
    MeaningfulShaped(m);
    TablesInPayload(m, payload);
  }

  lemma FullSettles(m: Meta, payload: seq<byte>, d: seq<byte>)
    requires Shaped(Full, m.sectors, m.ranges) && m.kind == Full && Complete(m, payload) && |d| == 512 * m.sectors
    requires |payload| >= HEAD + TAIL && payload[..HEAD] == m.primary && payload[|payload| - TAIL..] == m.tail
    ensures Settles(Work(Segments(m, payload), m.primary, m.tail), d, m.sectors)
  {
    FullTables(m, payload);
    var ss := Segments(m, payload);
    assert ss == [Segment(0, payload)];
    LaidFront(d, ss, 0, |payload|);
    assert Laid(d, ss) == payload;
  }

  lemma BootSettles(m: Meta, payload: seq<byte>, d: seq<byte>)
    requires Shaped(Boot, m.sectors, m.ranges) && m.kind == Boot && Complete(m, payload) && |d| == 512 * m.sectors
    requires |payload| == 34849 * 512 && payload[..HEAD] == m.primary && payload[|payload| - TAIL..] == m.tail
    ensures Settles(Work(Segments(m, payload), m.primary, m.tail), d, m.sectors)
  {
    BootTables(m, payload);
    var ss := Segments(m, payload);
    assert ss == [Segment(0, payload[..34816 * 512]), Segment(m.sectors - 33, payload[34816 * 512..])];
    LaidFront(d, ss, 0, HEAD);
    LaidEnd(d, ss, 1);
    assert payload[..34816 * 512][..HEAD] == payload[..HEAD];
  }

  lemma HaosSettles(m: Meta, payload: seq<byte>, places: seq<(nat, nat)>, c: Snapshot, d: seq<byte>)
    requires Complete(m, payload) && Matches(m.ranges, places) && TakenFrom(c, d, m.sectors)
    requires PlacesFit(places, m.sectors) && PlacesClear(places, m.sectors)
    ensures Settles(Work(Segments(m, payload), c.primary, c.tail), d, m.sectors)
  {
    var ss := Segments(m, payload);
    SegmentsPlannable(m, payload, places);
    forall k | 0 <= k < |ss| ensures HEAD <= ss[k].From() && ss[k].To() <= 512 * (m.sectors - 33) {
      SegmentsShape(m, payload, k);
      assert (m.ranges[k].lba, m.ranges[k].bytes) == places[k] && OnDisk(places[k], m.sectors);
    }
    LaidFrontBeside(d, ss, HEAD);
    LaidEndBeside(d, ss, 512 * (m.sectors - 33));
  }

  lemma ArchiveSettles(m: Meta, payload: seq<byte>, c: Snapshot, w: Work, sectors: nat, d: seq<byte>)
    requires IsArchiveWork(m, payload, c, w, sectors) && TakenFrom(c, d, sectors)
    requires Meaningful(m) && Complete(m, payload) && (m.kind != Haos ==> m.sectors >= 33 && TablesMatch(m, payload))
    requires m.kind == Haos ==> PlacesFit(PlacesOf(m), sectors) && PlacesClear(PlacesOf(m), sectors)
    ensures Settles(w, d, sectors)
  {
    if m.kind == Haos {
      MeaningfulParts(m);
      HaosSettles(m, payload, PlacesOf(m), c, d);
    } else {
      ArchiveTables(m, payload);
      if m.kind == Full {
        FullSettles(m, payload, d);
      } else {
        BootTables(m, payload);
        BootSettles(m, payload, d);
      }
    }
  }

  /** Whatever the operation, writing its segments onto the disk it was planned for leaves exactly the two tables it
      announced, unless a partial restore reaches into them (PartialRestore has the converse). */
  lemma WorkSettles(op: Operation, c: Snapshot, w: Work, sectors: nat, d: seq<byte>)
    requires Given(op) && Follows(op, c, w, sectors) && TakenFrom(c, d, sectors) && sectors < U32
    requires Fitting(op) && Sparing(op)
    ensures Settles(w, d, sectors)
  {
    match op
    case FactoryRaw(image) => FactorySettles(image, w, sectors, d);
    case Install(image, firmware) => InstalledSettles(d, image, firmware, w.primary, w.tail, sectors);
    case Uboot(firmware) => UbootSettles(d, c, firmware, sectors);
    case RestoreArchive(m, payload) => ArchiveSettles(m, payload, c, w, sectors, d);
    case Restore(saved) => RestoredSettles(d, saved, sectors);
    case Repairing => RewrittenSettles(d, c, w.primary, w.tail, sectors);
  }

  lemma FactorySettles(image: seq<byte>, w: Work, sectors: nat, d: seq<byte>)
    requires IsFactoryWork(image, w, sectors) && |d| == 512 * sectors
    ensures Settles(w, d, sectors)
  {
    if HasGpt(image) {
      FactoryGptSettles(d, image, w.primary, w.tail, sectors);
    } else {
      FactoryMbrSettles(d, image, sectors);
    }
  }
}
