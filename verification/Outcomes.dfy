/** What the whole eMMC holds after a storage operation that succeeded, byte for byte. */
module Outcomes {
  import opened Bytes
  import opened Gpt
  import opened GptRepair
  import opened GptMove
  import opened Disk
  import opened Archive
  import opened ArchiveFile
  import opened Plan
  import opened Operations
  import opened Plans
  import opened Flash
  import opened Transaction

  /** A raw image: its usable area and its table fitted to the eMMC, the place of its own backup table blank; or the image
      from sector 0 on, behind which the place of a backup table is blank. The rest is as before. */
  ghost predicate RawWritten(image: seq<byte>, d: seq<byte>, e: seq<byte>, sectors: nat)
    requires sectors > 34849 && |d| == |e| == 512 * sectors
  {
    && RawImage(image) && |image| <= |d|
    && if HasGpt(image) then
         && IsResized(e[..HEAD], image[..HEAD], sectors) && Mirrored(e[..HEAD], e[|e| - TAIL..], sectors)
         && e[HEAD..|image| - TAIL] == image[HEAD..|image| - TAIL]
         && Cleared(e, d, |image| - TAIL)
       else
         var blank := if |image| > |d| - TAIL then |image| else |d| - TAIL;
         e == image + d[|image|..blank] + Zeros(|d| - blank)
  }

  ghost predicate HaosTables(image: seq<byte>, p: seq<byte>, t: seq<byte>, sectors: nat) {
    InspectedImage(image) && sectors >= 34 && Accepted(p, t, sectors) && IsRelocated(p, image[..HEAD], sectors)
  }

  /** HAOS: an accepted table, the boot firmware at sector 64 between blanks, and behind it the image's partitions 32768
      sectors further along; the place of the image's own backup table blank, the rest as before. */
  ghost predicate HaosWritten(image: seq<byte>, firmware: seq<byte>, d: seq<byte>, e: seq<byte>, sectors: nat)
    requires sectors > 34849 && |d| == |e| == 512 * sectors && BootFirmware(firmware)
  {
    && HaosTables(image, e[..HEAD], e[|e| - TAIL..], sectors)
    && RESERVE <= |image| - TAIL + 512 * SHIFT <= |e|
    && e[HEAD..RESERVE] == Zeros(30 * 512) + firmware + Zeros(RESERVE - 64 * 512 - |firmware|)
    && e[RESERVE..|image| - TAIL + 512 * SHIFT] == image[2048 * 512..|image| - TAIL]
    && Cleared(e, d, |image| - TAIL + 512 * SHIFT)
  }

  /** The tables `p` and `t` repaired, everything between them as it was. */
  ghost predicate RepairWritten(p: seq<byte>, t: seq<byte>, d: seq<byte>, e: seq<byte>, sectors: nat)
    requires |d| >= HEAD + TAIL
  {
    var pair := Repaired(p, t, sectors);
    pair.Ok? && e == pair.value.0 + d[HEAD..|d| - TAIL] + pair.value.1
  }

  /** An archive: every saved range at its place and nothing else; without a full one the disk had an accepted table, and
      keeps its partition entries, unless a partial restore reaches into the tables. */
  ghost predicate ArchiveWritten(m: Meta, payload: seq<byte>, d: seq<byte>, e: seq<byte>, sectors: nat)
    requires sectors > 34849 && |d| == |e| == 512 * sectors
  {
    && Inside(Segments(m, payload), |d|) && e == Laid(d, Segments(m, payload))
    && (m.kind != Full ==> Accepted(d[..HEAD], d[|d| - TAIL..], sectors))
    && var op := RestoreArchive(m, payload);
       (m.kind == Boot || (m.kind == Haos && Fitting(op) && Sparing(op)) ==>
          e[1024..HEAD] == d[1024..HEAD])
  }

  /** A boot restore: the saved boot area and tables, which are an accepted pair with the partition entries that a repair
      of the disk's own tables settles on; the partitions as before. */
  ghost predicate RestoreWritten(saved: Snapshot, d: seq<byte>, e: seq<byte>, sectors: nat)
    requires |d| >= RESERVE + TAIL
  {
    && e == saved.primary + saved.reserved + d[RESERVE..|d| - TAIL] + saved.tail
    && |saved.primary| == HEAD && Accepted(saved.primary, saved.tail, sectors)
    && var pair := Repaired(d[..HEAD], d[|d| - TAIL..], sectors);
       pair.Ok? && saved.primary[1024..] == pair.value.0[1024..]
  }

  ghost predicate Outcome(op: Operation, d: seq<byte>, e: seq<byte>, sectors: nat)
    requires Given(op) && sectors > 34849 && |d| == |e| == 512 * sectors
  {
    match op
    case FactoryRaw(image) => RawWritten(image, d, e, sectors)
    case Install(image, firmware) => HaosWritten(image, firmware, d, e, sectors)
    case Uboot(firmware) => e == d[..64 * 512] + firmware + d[64 * 512 + |firmware|..]
    case RestoreArchive(m, payload) => ArchiveWritten(m, payload, d, e, sectors)
    case Restore(saved) => RestoreWritten(saved, d, e, sectors)
    case Repairing => RepairWritten(d[..HEAD], d[|d| - TAIL..], d, e, sectors)
  }

  /** Three parts that meet. */
  lemma Joined3(e: seq<byte>, a: seq<byte>, b: seq<byte>, c: seq<byte>, i: nat, j: nat)
    requires i <= j <= |e| && e[..i] == a && e[i..j] == b && e[j..] == c
    ensures e == a + b + c
  {
    assert e == e[..i] + e[i..j] + e[j..];
  }

  lemma MbrWritten(d: seq<byte>, image: seq<byte>, sectors: nat) returns (e: seq<byte>)
    requires |image| % 512 == 0 && 34849 * 512 < |image| <= 512 * sectors == |d|
    ensures Inside(FactoryMbr(image, sectors), |d|) && e == Laid(d, FactoryMbr(image, sectors))
    ensures var blank := if |image| > |d| - TAIL then |image| else |d| - TAIL;
      e == image + d[|image|..blank] + Zeros(|d| - blank)
  {
    FactoryMbrHolds(d, image, sectors);
    e := Laid(d, FactoryMbr(image, sectors));
    var blank := if |image| > |d| - TAIL then |image| else |d| - TAIL;
    if |image| < |d| {
      FactoryMbrCleared(d, image, sectors);
      LaidBeside(d, FactoryMbr(image, sectors), |image|, blank);
    }
    Joined3(e, image, d[|image|..blank], Zeros(|d| - blank), |image|, blank);
  }

  lemma HaosBytes(d: seq<byte>, image: seq<byte>, firmware: seq<byte>, primary: seq<byte>, tail: seq<byte>, sectors: nat)
    returns (e: seq<byte>)
    requires Installable(image, firmware, primary, tail, sectors) && |d| == 512 * sectors
    ensures |e| == |d| && HEAD <= RESERVE <= |image| - TAIL + 512 * SHIFT <= |e| && |e| >= HEAD + TAIL
    ensures var ss := Installed(image, firmware, primary, tail, sectors); Inside(ss, |d|) && e == Laid(d, ss)
    ensures e[..HEAD] == primary && e[|e| - TAIL..] == tail
    ensures e[HEAD..RESERVE] == Zeros(30 * 512) + firmware + Zeros(RESERVE - 64 * 512 - |firmware|)
    ensures e[RESERVE..|image| - TAIL + 512 * SHIFT] == image[2048 * 512..|image| - TAIL]
    ensures Cleared(e, d, |image| - TAIL + 512 * SHIFT)
  {
    ReservedIs(firmware);
    InstalledCleared(d, image, firmware, primary, tail, sectors);
    InstalledSettles(d, image, firmware, primary, tail, sectors);
    InstalledFirmware(d, image, firmware, primary, tail, sectors);
    InstalledPartitions(d, image, firmware, primary, tail, sectors);
    e := Laid(d, Installed(image, firmware, primary, tail, sectors));
  }

  lemma RestoreBytes(d: seq<byte>, saved: Snapshot, sectors: nat) returns (e: seq<byte>)
    requires Shot(saved) && sectors > 34849 && |d| == 512 * sectors
    ensures Inside(Restored(saved, sectors), |d|) && e == Laid(d, Restored(saved, sectors)) && |e| == |d|
    ensures e[..HEAD] == saved.primary && e[HEAD..RESERVE] == saved.reserved
    ensures e[RESERVE..|d| - TAIL] == d[RESERVE..|d| - TAIL] && e[|d| - TAIL..] == saved.tail
  {
    RestoredSettles(d, saved, sectors);
    RestoredHolds(d, saved, sectors);
    RestoredKeeps(d, saved, sectors);
    e := Laid(d, Restored(saved, sectors));
  }

  lemma RestoreWhole(d: seq<byte>, saved: Snapshot, sectors: nat) returns (e: seq<byte>)
    requires Shot(saved) && sectors > 34849 && |d| == 512 * sectors
    ensures Inside(Restored(saved, sectors), |d|) && e == Laid(d, Restored(saved, sectors))
    ensures e == saved.primary + saved.reserved + d[RESERVE..|d| - TAIL] + saved.tail
  {
    e := RestoreBytes(d, saved, sectors);
    assert e[..RESERVE] == e[..HEAD] + e[HEAD..RESERVE];
    Joined3(e, saved.primary + saved.reserved, d[RESERVE..|d| - TAIL], saved.tail, RESERVE, |d| - TAIL);
  }

  lemma RepairWhole(d: seq<byte>, c: Snapshot, p: seq<byte>, t: seq<byte>, sectors: nat) returns (e: seq<byte>)
    requires TakenFrom(c, d, sectors) && |p| == HEAD && |t| == TAIL && |d| == 512 * sectors && sectors > 34849
    ensures Inside(Rewritten(c, p, t, sectors), |d|) && e == Laid(d, Rewritten(c, p, t, sectors))
    ensures e == p + d[HEAD..|d| - TAIL] + t
  {
    RewrittenSettles(d, c, p, t, sectors);
    RewrittenHolds(d, c, p, t, sectors);
    e := Laid(d, Rewritten(c, p, t, sectors));
    Joined3(e, p, d[HEAD..|d| - TAIL], t, HEAD, |d| - TAIL);
  }

  lemma RawDone(image: seq<byte>, w: Work, d: seq<byte>, e: seq<byte>, sectors: nat)
    requires IsFactoryWork(image, w, sectors) && |d| == |e| == 512 * sectors
    requires Inside(w.segments, |d|) && e == Laid(d, w.segments)
    ensures RawWritten(image, d, e, sectors)
  {
    FactorySettles(image, w, sectors, d);
    if HasGpt(image) {
      FactoryGptHolds(d, image, w.primary, w.tail, sectors);
      FactoryGptCleared(d, image, w.primary, w.tail, sectors);
    } else {
      var same := MbrWritten(d, image, sectors);
    }
  }

  lemma HaosParts(image: seq<byte>, firmware: seq<byte>, w: Work, sectors: nat)
    requires IsInstallWork(image, firmware, w, sectors)
    ensures HaosTables(image, w.primary, w.tail, sectors)
    ensures Installable(image, firmware, w.primary, w.tail, sectors)
    ensures w.segments == Installed(image, firmware, w.primary, w.tail, sectors)
  {
  }

  lemma HaosPut(d: seq<byte>, image: seq<byte>, firmware: seq<byte>, p: seq<byte>, t: seq<byte>, ss: seq<Segment>,
                sectors: nat)
    returns (e: seq<byte>)
    requires HaosTables(image, p, t, sectors) && Installable(image, firmware, p, t, sectors) && BootFirmware(firmware)
    requires sectors > 34849 && |d| == 512 * sectors && ss == Installed(image, firmware, p, t, sectors)
    ensures Inside(ss, |d|) && e == Laid(d, ss) && HaosWritten(image, firmware, d, e, sectors)
  {
    e := HaosBytes(d, image, firmware, p, t, sectors);
  }

  lemma HaosDone(image: seq<byte>, firmware: seq<byte>, w: Work, d: seq<byte>, e: seq<byte>, sectors: nat)
    requires IsInstallWork(image, firmware, w, sectors) && BootFirmware(firmware)
    requires sectors > 34849 && |d| == |e| == 512 * sectors && Inside(w.segments, |d|) && e == Laid(d, w.segments)
    ensures HaosWritten(image, firmware, d, e, sectors)
  {
    HaosParts(image, firmware, w, sectors);
    var same := HaosPut(d, image, firmware, w.primary, w.tail, w.segments, sectors);
  }

  lemma RestoreDone(saved: Snapshot, c: Snapshot, w: Work, d: seq<byte>, e: seq<byte>, sectors: nat)
    requires IsRestoreWork(saved, c, w, sectors) && sectors > 34849 && |d| == |e| == 512 * sectors
    requires Inside(w.segments, |d|) && e == Laid(d, w.segments) && TakenFrom(c, d, sectors)
    ensures RestoreWritten(saved, d, e, sectors)
  {
    var same := RestoreWhole(d, saved, sectors);
    RestoreParts(saved, c, w, d, sectors);
  }

  lemma RestoreParts(saved: Snapshot, c: Snapshot, w: Work, d: seq<byte>, sectors: nat)
    requires IsRestoreWork(saved, c, w, sectors) && sectors > 34849 && TakenFrom(c, d, sectors)
    ensures |saved.primary| == HEAD && Accepted(saved.primary, saved.tail, sectors)
    ensures var pair := Repaired(d[..HEAD], d[|d| - TAIL..], sectors);
      pair.Ok? && saved.primary[1024..] == pair.value.0[1024..]
  {
    var p, t := TakenTables(c, d, sectors);
  }

  lemma ArchiveDone(m: Meta, payload: seq<byte>, c: Snapshot, w: Work, d: seq<byte>, e: seq<byte>, sectors: nat)
    requires Given(RestoreArchive(m, payload)) && IsArchiveWork(m, payload, c, w, sectors) && TakenFrom(c, d, sectors)
    requires |d| == |e| == 512 * sectors && Inside(w.segments, |d|) && e == Laid(d, w.segments)
    ensures ArchiveWritten(m, payload, d, e, sectors)
  {
    if m.kind != Full {
      var p, t := TakenTables(c, d, sectors);
      if m.kind == Boot || (Fitting(RestoreArchive(m, payload)) && Sparing(RestoreArchive(m, payload))) {
        ArchiveSettles(m, payload, c, w, sectors, d);
        ArrayKept(m, c, w, d, e, sectors);
      }
    }
  }

  lemma ArrayKept(m: Meta, c: Snapshot, w: Work, d: seq<byte>, e: seq<byte>, sectors: nat)
    requires |m.primary| == HEAD && TakenFrom(c, d, sectors) && |e| == |d| && e[..HEAD] == w.primary
    requires c.primary[1024..] == m.primary[1024..] && (w.primary == c.primary || w.primary == m.primary)
    ensures e[1024..HEAD] == d[1024..HEAD]
  {
    assert e[1024..HEAD] == e[..HEAD][1024..] && d[1024..HEAD] == d[..HEAD][1024..];
  }

  lemma RepairParts(c: Snapshot, w: Work, sectors: nat)
    requires IsRepairWork(c, w, sectors)
    ensures |w.primary| == HEAD && |w.tail| == TAIL && w.segments == Rewritten(c, w.primary, w.tail, sectors)
  {
    RepairedSound(c.primary, c.tail, sectors);
  }

  lemma RepairDone(c: Snapshot, w: Work, d: seq<byte>, e: seq<byte>, sectors: nat)
    requires IsRepairWork(c, w, sectors) && TakenFrom(c, d, sectors) && sectors > 34849
    requires |d| == |e| == 512 * sectors && Inside(w.segments, |d|) && e == Laid(d, w.segments)
    ensures RepairWritten(d[..HEAD], d[|d| - TAIL..], d, e, sectors)
  {
    var p, t := TakenTables(c, d, sectors);
    RepairParts(c, w, sectors);
    var same := RepairWhole(d, c, w.primary, w.tail, sectors);
    assert RepairWritten(p, t, d, e, sectors);
  }

  lemma TakenTables(c: Snapshot, d: seq<byte>, sectors: nat) returns (p: seq<byte>, t: seq<byte>)
    requires TakenFrom(c, d, sectors) && sectors > 34849 && |d| == 512 * sectors
    ensures p == c.primary == d[..HEAD] && t == c.tail == d[|d| - TAIL..]
  {
    p, t := c.primary, c.tail;
  }

  /** The operations that stay out of the partitions. */
  lemma BootOutcome(op: Operation, c: Snapshot, w: Work, d: seq<byte>, e: seq<byte>, sectors: nat)
    requires Given(op) && 34849 < sectors && TakenFrom(c, d, sectors) && |d| == |e| == 512 * sectors
    requires Follows(op, c, w, sectors) && Inside(w.segments, |d|) && e == Laid(d, w.segments)
    requires op.Uboot? || op.Restore? || op.Repairing?
    ensures Outcome(op, d, e, sectors)
  {
    match op
    case Uboot(firmware) => UbootSettles(d, c, firmware, sectors);
    case Restore(saved) => RestoreDone(saved, c, w, d, e, sectors);
    case Repairing => RepairDone(c, w, d, e, sectors);
  }

  /** Whatever the operation: the work that was built for it, laid over the disk it was built for, has its outcome. */
  lemma WorkOutcome(op: Operation, c: Snapshot, w: Work, d: seq<byte>, e: seq<byte>, sectors: nat)
    requires Given(op) && 34849 < sectors && TakenFrom(c, d, sectors) && |d| == |e| == 512 * sectors
    requires Follows(op, c, w, sectors) && Inside(w.segments, |d|) && e == Laid(d, w.segments)
    ensures Outcome(op, d, e, sectors)
  {
    if op.Uboot? || op.Restore? || op.Repairing? {
      BootOutcome(op, c, w, d, e, sectors);
    } else {
      match op
      case FactoryRaw(image) => RawDone(image, w, d, e, sectors);
      case Install(image, firmware) => HaosDone(image, firmware, w, d, e, sectors);
      case RestoreArchive(m, payload) => ArchiveDone(m, payload, c, w, d, e, sectors);
    }
  }

  /** The transaction, and what it leaves on the eMMC. */
  method Carry(dev: Emmc, store: Store, id: Id, name: Record -> Id, op: Operation, backup: Snapshot, confirmed: bool,
               gate: bool, sha: Hash)
    returns (r: Result<Work>)
    requires dev.Valid() && dev.sectors < U32 && Given(op) && Shot(backup) && CollisionFree(sha)
    modifies dev`disk, store
    ensures dev.Valid()
    ensures r.Ok? ==> dev.sectors > 34849 && Outcome(op, old(dev.disk), dev.disk, dev.sectors)
  {
    var permitted, started;
    r, permitted, started := Execute(dev, store, id, name, op, backup, confirmed, gate, sha);
    if r.Ok? {
      WorkOutcome(op, SnapshotOf(old(dev.disk), dev.sectors), r.value, old(dev.disk), dev.disk, dev.sectors);
    }
  }
}
