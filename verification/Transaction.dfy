/** `execute_with_gate`: from a confirmed plan to a verified disk, or to an error with nothing else touched. */
module Transaction {
  import opened Common
  import opened Bytes
  import opened Gpt
  import opened GptRepair
  import opened GptEdit
  import opened Disk
  import opened Archive
  import opened ArchiveFile
  import opened Plan
  import opened Operations
  import opened Plans
  import opened Flash
  import opened GptMove
  import opened GptCheck
  import opened Determined
  import Install

  /** The capture a quiet, readable device gives. */
  function SnapshotOf(d: seq<byte>, sectors: nat): (c: Snapshot)
    requires sectors > 34849 && |d| == 512 * sectors
    ensures TakenFrom(c, d, sectors)
  {
    Snapshot(d[..HEAD], d[HEAD..RESERVE], d[512 * (sectors - 33)..])
  }

  predicate InRanges(ranges: seq<Range>, i: nat) {
    exists k :: 0 <= k < |ranges| && InRange(ranges[k], i)
  }

  predicate InRange(r: Range, i: nat) {
    512 * r.lba <= i < 512 * r.lba + r.bytes
  }

  lemma TouchesRanges(ss: seq<Segment>, sha: Hash, i: nat)
    ensures Touches(ss, i) <==> InRanges(RangesOf(ss, sha), i)
  {
    var rs := RangesOf(ss, sha);
    forall k | 0 <= k < |ss| ensures Covers(ss[k], i) <==> InRange(rs[k], i) {
    }
  }

  /** The two captures agree on every byte. */
  predicate SameBoot(a: Snapshot, b: Snapshot) {
    a.primary + a.reserved == b.primary + b.reserved && a.tail == b.tail
  }

  lemma SameBootEqual(a: Snapshot, b: Snapshot)
    requires Shot(a) && Shot(b) && SameBoot(a, b)
    ensures a == b
  {
    assert (a.primary + a.reserved)[..HEAD] == a.primary && (b.primary + b.reserved)[..HEAD] == b.primary;
    assert (a.primary + a.reserved)[HEAD..] == a.reserved && (b.primary + b.reserved)[HEAD..] == b.reserved;
  }

  /** What the last capture must show, beyond the digests of the ranges. */
  predicate Checked(op: Operation, w: Work, after: Snapshot, saved: Snapshot, sectors: nat) {
    && after.primary == w.primary && after.tail == w.tail
    && (!op.RestoreArchive? && !op.FactoryRaw? ==> Accepted(after.primary, after.tail, sectors))
    && (op.Repairing? ==> after.reserved == saved.reserved)
    && (op.Uboot? ==> Beside(after.reserved, saved.reserved, 30 * 512, |op.firmware|))
  }

  predicate Beside(a: seq<byte>, b: seq<byte>, start: nat, length: nat) {
    && start + length <= |a| && start + length <= |b|
    && a[..start] == b[..start] && a[start + length..] == b[start + length..]
  }

  method CheckAfter(op: Operation, w: Work, after: Snapshot, saved: Snapshot, sectors: nat) returns (e: Result<()>)
    requires sectors < U32
    ensures e.Ok? <==> Checked(op, w, after, saved, sectors)
  {
    if after.primary != w.primary || after.tail != w.tail { return Err("WRITE_VERIFY"); }
    if !op.RestoreArchive? && !op.FactoryRaw? {
      var verdict := RequireK11c(after.primary, after.tail, sectors);
      if verdict.Err? { return Err(verdict.code); }
    }
    if op.Uboot? && !Beside(after.reserved, saved.reserved, 30 * 512, |op.firmware|) { return Err("WRITE_VERIFY"); }
    if op.Repairing? && after.reserved != saved.reserved { return Err("WRITE_VERIFY"); }
    return Ok(());
  }

  // What a transaction asks of plan, device and disk.

  /** The plan was made for this boot area: it carries its digest, or the backup it names was taken of it. */
  predicate Remembered(p: Record, backup: Snapshot, d: seq<byte>, sectors: nat, sha: Hash)
    requires sectors > 34849 && |d| == 512 * sectors
  {
    match p.fingerprint
    case Some(digest) => digest == sha(d[..HEAD] + d[HEAD..RESERVE] + d[512 * (sectors - 33)..])
    case None => backup.primary == d[..HEAD] && backup.reserved == d[HEAD..RESERVE]
                 && backup.tail == d[512 * (sectors - 33)..]
  }

  /** For this eMMC, with this boot area, which can be read. */
  predicate Recognized(p: Record, backup: Snapshot, d: seq<byte>, sectors: nat, identity: nat, sha: Hash) {
    && sectors > 34849 && |d| == 512 * sectors && identity == p.identity && Trusted(d)
    && Remembered(p, backup, d, sectors, sha)
  }

  /** The operation can be built from what was captured, and what it writes are the confirmed ranges. */
  ghost predicate Rebuilt(p: Record, op: Operation, c: Snapshot, sectors: nat, sha: Hash)
    requires Given(op) && Shot(c) && sectors > 34849
  {
    && Buildable(op, c, sectors) && Fitting(op)
    && forall w :: Follows(op, c, w, sectors) ==> RangesOf(w.segments, sha) == p.ranges
  }

  /** The written disk has the tables the operation announced, and they do not look like a denied read. */
  predicate Lasting(w: Work, d: seq<byte>, sectors: nat)
    requires |d| >= HEAD + TAIL
  {
    Settles(w, d, sectors) && Trusted(Laid(d, w.segments))
  }

  ghost predicate AllLasting(op: Operation, c: Snapshot, d: seq<byte>, sectors: nat)
    requires |d| >= HEAD + TAIL
  {
    forall w :: Follows(op, c, w, sectors) ==> Lasting(w, d, sectors)
  }

  ghost predicate Prepared(p: Record, op: Operation, backup: Snapshot, d: seq<byte>, sectors: nat, identity: nat, sha: Hash)
    requires Given(op)
  {
    Recognized(p, backup, d, sectors, identity, sha) && Rebuilt(p, op, SnapshotOf(d, sectors), sectors, sha)
  }

  /** All that has to hold when nothing fails and the gate opens. */
  ghost predicate Ready(p: Record, op: Operation, backup: Snapshot, d: seq<byte>, sectors: nat, identity: nat, sha: Hash)
    requires Given(op)
  {
    && Prepared(p, op, backup, d, sectors, identity, sha)
    && AllLasting(op, SnapshotOf(d, sectors), d, sectors)
  }

  /** What the plan was made from: the boot area as it is now, if it still has the planned fingerprint, or the backup. */
  method Recall(dev: Emmc, p: Record, backup: Snapshot, sha: Hash) returns (r: Result<Snapshot>)
    requires dev.Valid() && dev.sectors > 34849 && Shot(backup)
    ensures r.Ok? ==> Shot(r.value) && (p.fingerprint.None? ==> r.value == backup)
    ensures r.Ok? && p.fingerprint.Some? ==>
      r.value == SnapshotOf(dev.disk, dev.sectors) && Remembered(p, backup, dev.disk, dev.sectors, sha)
    ensures dev.faultless && Trusted(dev.disk) && Remembered(p, backup, dev.disk, dev.sectors, sha) ==> r.Ok?
  {
    if p.fingerprint.None? { return Ok(backup); }
    var observed := Capture(dev);
    if observed.Err? { return Err(observed.code); }
    assert observed.value == SnapshotOf(dev.disk, dev.sectors);
    if Fingerprint(observed.value, sha) != p.fingerprint.value { return Err("DEVICE_CHANGED"); }
    return observed;
  }

  /** The device still is, and holds, what the plan was made for. */
  method Confirm(dev: Emmc, p: Record, saved: Snapshot) returns (e: Result<()>)
    requires dev.Valid() && dev.sectors > 34849 && Shot(saved)
    ensures e.Ok? ==> saved == SnapshotOf(dev.disk, dev.sectors) && Trusted(dev.disk)
    ensures dev.faultless && Trusted(dev.disk) && saved == SnapshotOf(dev.disk, dev.sectors) ==>
      (e.Ok? <==> dev.identity == p.identity)
  {
    var current := Capture(dev);
    if current.Err? { return Err(current.code); }
    if !SameBoot(current.value, saved) { return Err("DEVICE_CHANGED"); }
    SameBootEqual(current.value, saved);
    var identity := dev.Identify();
    if identity != p.identity { return Err("DEVICE_CHANGED"); }
    return Ok(());
  }

  /** The boot area to build from, on the device that the plan names. */
  method Recollect(dev: Emmc, p: Record, backup: Snapshot, sha: Hash) returns (r: Result<Snapshot>)
    requires dev.Valid() && Shot(backup)
    ensures r.Ok? ==> dev.sectors > 34849 && Shot(r.value) && (p.fingerprint.None? ==> r.value == backup)
    ensures r.Ok? && p.fingerprint.Some? ==>
      r.value == SnapshotOf(dev.disk, dev.sectors) && Remembered(p, backup, dev.disk, dev.sectors, sha)
    ensures dev.faultless && r.Ok? ==> dev.identity == p.identity
    ensures dev.faultless && Recognized(p, backup, dev.disk, dev.sectors, dev.identity, sha) ==> r.Ok?
  {
    var identity := dev.Identify();
    if dev.sectors <= 34849 { return Err("INVALID_CAPACITY"); }
    if identity != p.identity { return Err("DEVICE_CHANGED"); }
    r := Recall(dev, p, backup, sha);
  }

  /** The operation built again, and compared with the plan. */
  method Rebuild(p: Record, op: Operation, saved: Snapshot, sectors: nat, sha: Hash) returns (r: Result<Work>)
    requires Given(op) && Shot(saved) && 34849 < sectors < U32
    ensures r.Ok? ==>
      && Follows(op, saved, r.value, sectors) && Plannable(r.value.segments, sectors)
      && RangesOf(r.value.segments, sha) == p.ranges
    ensures r.Ok? <==> Rebuilt(p, op, saved, sectors, sha)
  {
    r := Build(op, saved, sectors);
    if r.Err? { return; }
    OneWork(op, saved, r.value, sectors);
    if RangesOf(r.value.segments, sha) != p.ranges { return Err("PLAN_CHANGED"); }
  }

  /** And compared with the device once more. */
  method RebuildSame(dev: Emmc, p: Record, op: Operation, saved: Snapshot, sha: Hash) returns (r: Result<Work>)
    requires dev.Valid() && 34849 < dev.sectors < U32 && Given(op) && Shot(saved)
    ensures r.Ok? ==> saved == SnapshotOf(dev.disk, dev.sectors) && Trusted(dev.disk)
    ensures r.Ok? ==>
      && Follows(op, saved, r.value, dev.sectors) && Plannable(r.value.segments, dev.sectors)
      && RangesOf(r.value.segments, sha) == p.ranges
    ensures r.Ok? ==> Rebuilt(p, op, saved, dev.sectors, sha)
    ensures dev.faultless && Trusted(dev.disk) && saved == SnapshotOf(dev.disk, dev.sectors) ==>
      dev.identity == p.identity && Rebuilt(p, op, saved, dev.sectors, sha) ==> r.Ok?
  {
    r := Rebuild(p, op, saved, dev.sectors, sha);
    if r.Err? { return; }
    var same := Confirm(dev, p, saved);
    if same.Err? { return Err(same.code); }
  }

  lemma RememberedBackup(p: Record, saved: Snapshot, d: seq<byte>, sectors: nat, sha: Hash)
    requires sectors > 34849 && |d| == 512 * sectors && Shot(saved) && p.fingerprint.None?
    ensures Remembered(p, saved, d, sectors, sha) <==> saved == SnapshotOf(d, sectors)
  {
  }

  /** Everything up to the gate; nothing is written. */
  method Prepare(dev: Emmc, p: Record, op: Operation, backup: Snapshot, sha: Hash)
    returns (r: Result<Work>, saved: Snapshot)
    requires dev.Valid() && dev.sectors < U32 && Given(op) && Shot(backup)
    ensures r.Ok? ==>
      && dev.sectors > 34849 && saved == SnapshotOf(dev.disk, dev.sectors)
      && Trusted(dev.disk) && Remembered(p, backup, dev.disk, dev.sectors, sha)
      && Follows(op, saved, r.value, dev.sectors)
      && Plannable(r.value.segments, dev.sectors)
      && RangesOf(r.value.segments, sha) == p.ranges
    ensures dev.faultless ==> (r.Ok? <==> Prepared(p, op, backup, dev.disk, dev.sectors, dev.identity, sha))
  {
    saved := backup;
    var recalled := Recollect(dev, p, backup, sha);
    if recalled.Err? { return Err(recalled.code), saved; }
    saved := recalled.value;
    if p.fingerprint.None? { RememberedBackup(p, saved, dev.disk, dev.sectors, sha); }
    r := RebuildSame(dev, p, op, saved, sha);
  }

  lemma OneWork(op: Operation, c: Snapshot, w: Work, sectors: nat)
    requires Follows(op, c, w, sectors)
    ensures forall v :: Follows(op, c, v, sectors) ==> v == w
  {
    forall v | Follows(op, c, v, sectors) ensures v == w {
      WorkUnique(op, c, w, v, sectors);
    }
  }

  /** What the closing checks would find on the written disk. */
  predicate Closing(op: Operation, w: Work, saved: Snapshot, d: seq<byte>, sectors: nat)
    requires sectors > 34849 && |d| == 512 * sectors && Inside(w.segments, |d|)
  {
    Trusted(Laid(d, w.segments)) && Checked(op, w, SnapshotOf(Laid(d, w.segments), sectors), saved, sectors)
  }

  /** The segments and the checks that close the transaction. */
  method Perform(dev: Emmc, p: Record, op: Operation, w: Work, saved: Snapshot, steady: bool, sha: Hash)
    returns (r: Result<Work>)
    requires dev.Valid() && 34849 < dev.sectors < U32 && Plannable(w.segments, dev.sectors) && CollisionFree(sha)
    modifies dev`disk
    ensures dev.Valid()
    ensures forall i :: 0 <= i < |dev.disk| && !Touches(w.segments, i) ==> dev.disk[i] == old(dev.disk)[i]
    ensures r.Ok? ==>
      && r.value == w
      && dev.disk == Laid(old(dev.disk), w.segments)
      && Checked(op, w, SnapshotOf(dev.disk, dev.sectors), saved, dev.sectors)
      && Closing(op, w, saved, old(dev.disk), dev.sectors)
    ensures dev.faultless && steady && dev.identity == p.identity && Closing(op, w, saved, old(dev.disk), dev.sectors) ==>
      r.Ok?
  {
    var sent := TransferAll(dev, w.segments, steady, sha);
    if sent.Err? { return Err(sent.code); }
    var after := Capture(dev);
    if after.Err? { return Err(after.code); }
    assert after.value == SnapshotOf(dev.disk, dev.sectors);
    var closed := CheckAfter(op, w, after.value, saved, dev.sectors);
    if closed.Err? { return Err(closed.code); }
    var identity := dev.Identify();
    if identity != p.identity { return Err("DEVICE_CHANGED"); }
    return Ok(w);
  }

  /** When the tables are the announced ones, the other closing checks cannot fail. */
  lemma ClosingHolds(op: Operation, c: Snapshot, w: Work, d: seq<byte>, e: seq<byte>, sectors: nat)
    requires Given(op) && Follows(op, c, w, sectors) && TakenFrom(c, d, sectors) && sectors < U32
    requires Settles(w, d, sectors) && e == Laid(d, w.segments)
    ensures |e| == 512 * sectors && Checked(op, w, SnapshotOf(e, sectors), c, sectors)
  {
    match op
    case Uboot(firmware) => UbootCloses(d, c, firmware, e, sectors);
    case Repairing => RepairCloses(c, w, d, e, sectors);
    case _ =>
  }

  lemma UbootCloses(d: seq<byte>, c: Snapshot, firmware: seq<byte>, e: seq<byte>, sectors: nat)
    requires TakenFrom(c, d, sectors) && BootFirmware(firmware) && e == Laid(d, [Segment(64, firmware)])
    ensures |e| == 512 * sectors && Beside(e[HEAD..RESERVE], c.reserved, 30 * 512, |firmware|)
  {
    UbootSettles(d, c, firmware, sectors);
    var a, b, n := e[HEAD..RESERVE], c.reserved, 30 * 512 + |firmware|;
    assert a[..30 * 512] == e[HEAD..64 * 512] == d[HEAD..64 * 512] == b[..30 * 512];
    assert a[n..] == e[HEAD + n..RESERVE] == d[HEAD + n..RESERVE] == b[n..];
  }

  lemma RepairCloses(c: Snapshot, w: Work, d: seq<byte>, e: seq<byte>, sectors: nat)
    requires IsRepairWork(c, w, sectors) && TakenFrom(c, d, sectors) && Inside(w.segments, |d|)
    requires e == Laid(d, w.segments)
    ensures |e| == 512 * sectors && e[HEAD..RESERVE] == c.reserved && Accepted(w.primary, w.tail, sectors)
  {
    RepairAccepted(c, w, sectors);
    ReservedKept(d, c, w.primary, w.tail, e, sectors);
  }

  lemma RepairAccepted(c: Snapshot, w: Work, sectors: nat)
    requires IsRepairWork(c, w, sectors)
    ensures |w.primary| == HEAD && |w.tail| == TAIL && Accepted(w.primary, w.tail, sectors)
  {
    RepairedSound(c.primary, c.tail, sectors);
  }

  lemma ReservedKept(d: seq<byte>, c: Snapshot, p: seq<byte>, t: seq<byte>, e: seq<byte>, sectors: nat)
    requires TakenFrom(c, d, sectors) && |p| == HEAD && |t| == TAIL
    requires Inside(Rewritten(c, p, t, sectors), |d|) && e == Laid(d, Rewritten(c, p, t, sectors))
    ensures |e| == 512 * sectors && e[HEAD..RESERVE] == c.reserved
  {
    RewrittenHolds(d, c, p, t, sectors);
    assert e[HEAD..RESERVE] == e[HEAD..512 * (sectors - 33)][..RESERVE - HEAD];
    assert d[HEAD..RESERVE] == d[HEAD..512 * (sectors - 33)][..RESERVE - HEAD];
  }

  method Confirmed(store: Store, id: Id, name: Record -> Id, confirmed: bool) returns (r: Result<Record>)
    ensures r.Ok? <==> confirmed && id in store.shelf.pending && name(store.shelf.pending[id]) == id
    ensures r.Ok? ==> r.value == store.shelf.pending[id]
  {
    if !confirmed { return Err("CONFIRM_WRITE"); }
    r := store.Load(id, name);
  }

  /** The gate, then the claim, then the journal. */
  method Release(store: Store, id: Id, gate: bool) returns (e: Result<()>, permitted: bool, started: bool)
    modifies store
    ensures Step(old(store.shelf), if started then Started(id) else Idle, store.shelf)
    ensures permitted == gate && (started ==> gate) && (e.Ok? ==> started)
    ensures store.reliable && id in old(store.shelf).pending ==> (e.Ok? <==> gate)
  {
    permitted, started := gate, false;
    if !permitted { return Err("STORAGE_CANCELLED"), permitted, started; }
    started := store.Claim(id);
    if !started { return Err("TRANSACTION_IO"), permitted, started; }
    var journal := Journal(store);
    e := if journal then Ok(()) else Err("TRANSACTION_IO");
  }

  /** Everything before the first write: the gate is asked once all is checked, and the plan consumed once it opened. */
  method Begin(dev: Emmc, store: Store, id: Id, name: Record -> Id, op: Operation, backup: Snapshot, confirmed: bool,
               gate: bool, sha: Hash)
    returns (r: Result<Work>, saved: Snapshot, p: Record, permitted: bool, started: bool)
    requires dev.Valid() && dev.sectors < U32 && Given(op) && Shot(backup)
    modifies store
    ensures Step(old(store.shelf), if started then Started(id) else Idle, store.shelf)
    ensures started ==> confirmed && permitted && gate && p == old(store.shelf).pending[id]
    ensures r.Ok? ==> started
    ensures started ==>
      && dev.sectors > 34849 && saved == SnapshotOf(dev.disk, dev.sectors)
      && Remembered(p, backup, dev.disk, dev.sectors, sha)
    ensures r.Ok? ==>
      && Follows(op, saved, r.value, dev.sectors) && Plannable(r.value.segments, dev.sectors)
      && RangesOf(r.value.segments, sha) == p.ranges
    ensures dev.faultless && store.reliable ==>
      (r.Ok? <==>
        && confirmed && gate
        && id in old(store.shelf).pending && name(old(store.shelf).pending[id]) == id
        && Prepared(old(store.shelf).pending[id], op, backup, dev.disk, dev.sectors, dev.identity, sha))
  {
    permitted, started, saved, p := false, false, backup, Record("", 0, [], None, 0);
    var loaded := Confirmed(store, id, name, confirmed);
    if loaded.Err? { return Err(loaded.code), saved, p, permitted, started; }
    p := loaded.value;
    r, saved := Prepare(dev, p, op, backup, sha);
    if r.Err? { return; }
    var e;
    e, permitted, started := Release(store, id, gate);
    if e.Err? { r := Err(e.code); }
  }

  /** What remains of `Ready` once the work is there. */
  lemma Decided(op: Operation, c: Snapshot, w: Work, d: seq<byte>, sectors: nat)
    requires Given(op) && 34849 < sectors < U32 && |d| == 512 * sectors && c == SnapshotOf(d, sectors)
    requires Follows(op, c, w, sectors) && Inside(w.segments, |d|)
    ensures Closing(op, w, c, d, sectors) <==> AllLasting(op, c, d, sectors)
  {
    OneWork(op, c, w, sectors);
    if Settles(w, d, sectors) {
      ClosingHolds(op, c, w, d, Laid(d, w.segments), sectors);
    }
  }

  method PerformPlanned(dev: Emmc, p: Record, op: Operation, w: Work, saved: Snapshot, steady: bool, sha: Hash)
    returns (r: Result<Work>)
    requires dev.Valid() && 34849 < dev.sectors < U32 && Given(op) && CollisionFree(sha)
    requires saved == SnapshotOf(dev.disk, dev.sectors) && Follows(op, saved, w, dev.sectors)
    requires Plannable(w.segments, dev.sectors) && RangesOf(w.segments, sha) == p.ranges
    modifies dev`disk
    ensures dev.Valid()
    ensures forall i :: 0 <= i < |dev.disk| && !InRanges(p.ranges, i) ==> dev.disk[i] == old(dev.disk)[i]
    ensures r.Ok? ==>
      && r.value == w && dev.disk == Laid(old(dev.disk), w.segments)
      && Checked(op, w, SnapshotOf(dev.disk, dev.sectors), saved, dev.sectors)
    ensures r.Ok? ==> AllLasting(op, saved, old(dev.disk), dev.sectors)
    ensures dev.faultless && steady && dev.identity == p.identity
      ==> AllLasting(op, saved, old(dev.disk), dev.sectors) ==> r.Ok?
  {
    ghost var d := dev.disk;
    Decided(op, saved, w, d, dev.sectors);
    r := Perform(dev, p, op, w, saved, steady, sha);
    forall i | 0 <= i < |dev.disk| && !InRanges(p.ranges, i) ensures dev.disk[i] == d[i] {
      TouchesRanges(w.segments, sha, i);
    }
  }

  /** One storage operation. `gate` is whether the write gate would open, `permitted` whether it was asked and did,
      `started` whether the plan was consumed. */
  method Execute(dev: Emmc, store: Store, id: Id, name: Record -> Id, op: Operation, backup: Snapshot, confirmed: bool,
                 gate: bool, sha: Hash)
    returns (r: Result<Work>, permitted: bool, started: bool)
    requires dev.Valid() && dev.sectors < U32 && Given(op) && Shot(backup) && CollisionFree(sha)
    modifies dev`disk, store
    ensures dev.Valid()
    // A plan is consumed before anything is written, and only with permission.
    ensures Step(old(store.shelf), if started then Started(id) else Idle, store.shelf)
    ensures started ==> confirmed && permitted && gate
    ensures dev.disk != old(dev.disk) ==> started
    // And only for the boot area it was made for.
    ensures started ==>
      && dev.sectors > 34849
      && Remembered(old(store.shelf).pending[id], backup, old(dev.disk), dev.sectors, sha)
    // Whatever happens, no sector outside the confirmed ranges changes.
    ensures started ==> forall i :: 0 <= i < |dev.disk| && !InRanges(old(store.shelf).pending[id].ranges, i) ==>
      dev.disk[i] == old(dev.disk)[i]
    // Success means the old disk with exactly the planned payloads laid over it, tables checked.
    ensures r.Ok? ==> started && dev.sectors > 34849
    ensures r.Ok? ==>
      && var before := SnapshotOf(old(dev.disk), dev.sectors);
      && Follows(op, before, r.value, dev.sectors)
      && Plannable(r.value.segments, dev.sectors)
      && RangesOf(r.value.segments, sha) == old(store.shelf).pending[id].ranges
      && dev.disk == Laid(old(dev.disk), r.value.segments)
      && Checked(op, r.value, SnapshotOf(dev.disk, dev.sectors), before, dev.sectors)
    // When nothing fails, it succeeds exactly if the plan is confirmed, permitted, unaltered and ready.
    ensures dev.faultless && store.reliable ==>
      (r.Ok? <==>
        && confirmed && gate
        && id in old(store.shelf).pending && name(old(store.shelf).pending[id]) == id
        && Ready(old(store.shelf).pending[id], op, backup, old(dev.disk), dev.sectors, dev.identity, sha))
  {
    var ready, saved, p;
    ready, saved, p, permitted, started := Begin(dev, store, id, name, op, backup, confirmed, gate, sha);
    if ready.Err? { return Err(ready.code), permitted, started; }
    r := PerformPlanned(dev, p, op, ready.value, saved, store.reliable, sha);
  }

  /** A HAOS installation from its two inputs to the finished disk. */
  method InstallHaos(dev: Emmc, store: Store, id: Id, name: Record -> Id, raw: seq<byte>, data: seq<byte>,
                     firmware: seq<byte>, backup: Snapshot, gate: bool, sha: Hash)
    returns (r: Result<Work>)
    requires dev.Valid() && dev.sectors < U32 && Shot(backup) && CollisionFree(sha)
    requires BootFirmware(firmware) && |data| % 512 == 0
    modifies dev`disk, store
    ensures dev.Valid()
    ensures r.Ok? ==>
      && dev.sectors > 34849
      && Accepted(dev.disk[..HEAD], dev.disk[512 * (dev.sectors - 33)..], dev.sectors)
      && forall i :: 0 <= i < 8 ==> Install.Delivered(dev.disk, raw, data, dev.sectors, i)
  {
    var image := Install.Compose(raw, data);
    if image.Err? { return Err(image.code); }
    var permitted, started;
    r, permitted, started := Execute(dev, store, id, name, Operation.Install(image.value, firmware), backup, true, gate, sha);
    if r.Ok? {
      Install.InstallationPreservesPartitions(raw, data, image.value, firmware, r.value, dev.sectors, old(dev.disk));
    }
  }

  /** A backup file opened, verified and restored: every sector it saved is again what it was on the disk `d` the backup
      was made of, and no other sector changes, whatever the saved table says. A FULL backup puts back the whole disk. */
  method RestoreBackup(dev: Emmc, store: Store, id: Id, name: Record -> Id, file: seq<byte>, ghost d: seq<byte>,
                       backup: Snapshot, gate: bool, sha: Hash, mark: Hash, c: Codec)
    returns (r: Result<Work>)
    requires dev.Valid() && dev.sectors < U32 && Shot(backup) && CollisionFree(sha)
    requires Opened(file, mark, c).Ok? ==>
      var (m, payload) := Opened(file, mark, c).value; Held(m, payload, d) && |d| == 512 * m.sectors
    modifies dev`disk, store
    ensures dev.Valid()
    ensures r.Ok? ==>
      && Opened(file, mark, c).Ok?
      && var (m, payload) := Opened(file, mark, c).value;
      && m.sectors == dev.sectors
      && (forall i :: 0 <= i < |dev.disk| ==> dev.disk[i] == if Saved(m, i) then d[i] else old(dev.disk)[i])
      && (m.kind == Full ==> dev.disk == d)
  {
    var source := Opened(file, mark, c);
    if source.Err? { return Err(source.code); }
    var (m, payload) := source.value;
    var good := Verify(m, payload, sha);
    if !good { return Err("BACKUP_VERIFY"); }
    var permitted, started;
    r, permitted, started := Execute(dev, store, id, name, RestoreArchive(m, payload), backup, true, gate, sha);
    if r.Ok? {
      BackupRestore(file, d, old(dev.disk), sha, mark, c);
    }
  }
}
