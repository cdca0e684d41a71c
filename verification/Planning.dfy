/** Making a plan, and that a plan that was made can be carried out: `plan_inner` and `execute_with_gate` in sequence. */
module Planning {
  import opened Common
  import opened Bytes
  import opened Gpt
  import opened GptRepair
  import opened GptMove
  import opened Disk
  import opened Archive
  import opened Plan
  import opened Operations
  import opened Plans
  import opened Flash
  import opened Determined
  import opened Transaction
  import PartialRestore

  datatype Planned = NoChanges | Made(id: Id)

  /** What a transaction is given as the plan's backup: that of a legacy plan, any other for the rest. */
  function BackupFor(legacy: Option<Snapshot>, d: seq<byte>, sectors: nat): Snapshot
    requires sectors > 34849 && |d| == 512 * sectors
  {
    match legacy
    case Some(backup) => backup
    case None => SnapshotOf(d, sectors)
  }

  /** What can be planned. */
  ghost predicate Drawable(op: Operation, d: seq<byte>, sectors: nat)
    requires Given(op)
  {
    && sectors > 34849 && |d| == 512 * sectors && Trusted(d)
    && Buildable(op, SnapshotOf(d, sectors), sectors) && Fitting(op)
  }

  /** The device, its boot area, and the operation's work on it. */
  method Draw(dev: Emmc, op: Operation) returns (r: Result<(nat, Snapshot, Work)>)
    requires dev.Valid() && dev.sectors < U32 && Given(op)
    ensures r.Ok? ==>
      && dev.sectors > 34849 && Trusted(dev.disk) && r.value.1 == SnapshotOf(dev.disk, dev.sectors)
      && Buildable(op, r.value.1, dev.sectors) && Fitting(op) && Follows(op, r.value.1, r.value.2, dev.sectors)
      && (dev.faultless ==> r.value.0 == dev.identity)
    ensures dev.faultless ==> (r.Ok? <==> Drawable(op, dev.disk, dev.sectors))
  {
    var identity := dev.Identify();
    if dev.sectors <= 34849 { return Err("INVALID_CAPACITY"); }
    var current := Capture(dev);
    if current.Err? { return Err(current.code); }
    assert current.value == SnapshotOf(dev.disk, dev.sectors);
    var work := Build(op, current.value, dev.sectors);
    if work.Err? { return Err(work.code); }
    return Ok((identity, current.value, work.value));
  }

  /** The record of the plan. A legacy plan names a backup that shows the captured boot area; every other carries its
      digest. */
  method Draft(op: Operation, c: Snapshot, w: Work, sectors: nat, identity: nat, what: string, legacy: Option<Snapshot>,
               sha: Hash)
    returns (r: Result<Record>)
    requires Given(op) && Shot(c) && sectors > 34849 && (legacy.Some? ==> Shot(legacy.value))
    requires Buildable(op, c, sectors) && Fitting(op) && Follows(op, c, w, sectors)
    ensures r.Ok? <==> legacy.Some? ==> legacy.value == c
    ensures r.Ok? ==>
      && Rebuilt(r.value, op, c, sectors, sha) && r.value.identity == identity && r.value.attempt == 0
      && r.value.fingerprint == if legacy.Some? then None else Some(Fingerprint(c, sha))
  {
    if legacy.Some? {
      if !SameBoot(legacy.value, c) { return Err("DEVICE_CHANGED"); }
      SameBootEqual(legacy.value, c);
    }
    OneWork(op, c, w, sectors);
    var digest := if legacy.Some? then None else Some(Fingerprint(c, sha));
    return Ok(Record(what, identity, RangesOf(w.segments, sha), digest, 0));
  }

  /** Every pending file still holds the plan it is named after, and there is an attempt number left. */
  ghost predicate Usable(s: Shelf, name: Record -> Id) {
    (forall id :: id in s.pending ==> name(s.pending[id]) == id) && |s.used| < U64 - 1
  }

  /** The operation would write nothing. */
  ghost predicate NothingToDo(op: Operation, c: Snapshot, sectors: nat) {
    forall w :: Follows(op, c, w, sectors) ==> w.segments == []
  }

  /** The record of a drawn plan, saved, unless there is nothing to write. */
  method Keep(store: Store, name: Record -> Id, op: Operation, c: Snapshot, w: Work, ghost d: seq<byte>, sectors: nat,
              identity: nat, what: string, legacy: Option<Snapshot>, sha: Hash)
    returns (r: Result<Planned>)
    requires Given(op) && sectors > 34849 && |d| == 512 * sectors && c == SnapshotOf(d, sectors)
    requires Buildable(op, c, sectors) && Fitting(op) && Follows(op, c, w, sectors)
    requires (legacy.Some? ==> Shot(legacy.value)) && Distinct(name)
    modifies store
    ensures Usable(old(store.shelf), name) ==> (r.Ok? <==> w.segments == [] || BackupFor(legacy, d, sectors) == c)
    ensures !(r.Ok? && r.value.Made?) ==> store.shelf == old(store.shelf)
    ensures r.Ok? ==> (r.value.NoChanges? <==> w.segments == [])
    ensures r.Ok? && r.value.Made? ==>
      && var id := r.value.id;
      && id in store.shelf.pending && name(store.shelf.pending[id]) == id
      && var p := store.shelf.pending[id];
      && Step(old(store.shelf), Issued(id, p), store.shelf) && p.identity == identity
      && Remembered(p, BackupFor(legacy, d, sectors), d, sectors, sha) && Rebuilt(p, op, c, sectors, sha)
  {
    if w.segments == [] { return Ok(NoChanges); }
    var drafted := Draft(op, c, w, sectors, identity, what, legacy, sha);
    if drafted.Err? { return Err(drafted.code); }
    ghost var attempt;
    var id;
    id, attempt := store.Save(drafted.value, name);
    if id.Err? { return Err(id.code); }
    SameButAttempt(drafted.value, attempt, op, BackupFor(legacy, d, sectors), d, sectors, sha);
    r := Ok(Made(id.value));
  }

  lemma NothingIs(op: Operation, c: Snapshot, w: Work, sectors: nat)
    requires Follows(op, c, w, sectors)
    ensures NothingToDo(op, c, sectors) <==> w.segments == []
  {
    OneWork(op, c, w, sectors);
  }

  /** Drawn and saved. */
  method MakePlan(dev: Emmc, store: Store, name: Record -> Id, op: Operation, what: string, legacy: Option<Snapshot>,
                  sha: Hash)
    returns (r: Result<Planned>)
    requires dev.Valid() && dev.sectors < U32 && Given(op) && (legacy.Some? ==> Shot(legacy.value)) && Distinct(name)
    modifies store
    ensures dev.faultless && Usable(old(store.shelf), name) ==>
      (r.Ok? <==>
        && Drawable(op, dev.disk, dev.sectors)
        && (NothingToDo(op, SnapshotOf(dev.disk, dev.sectors), dev.sectors)
            || BackupFor(legacy, dev.disk, dev.sectors) == SnapshotOf(dev.disk, dev.sectors)))
    ensures !(r.Ok? && r.value.Made?) ==> store.shelf == old(store.shelf)
    ensures r.Ok? ==> dev.sectors > 34849
    ensures r.Ok? ==> (r.value.NoChanges? <==> NothingToDo(op, SnapshotOf(dev.disk, dev.sectors), dev.sectors))
    ensures r.Ok? && r.value.Made? ==>
      && Trusted(dev.disk)
      && var id := r.value.id;
      && id in store.shelf.pending && name(store.shelf.pending[id]) == id
      && var p := store.shelf.pending[id];
      && Step(old(store.shelf), Issued(id, p), store.shelf)
      && Remembered(p, BackupFor(legacy, dev.disk, dev.sectors), dev.disk, dev.sectors, sha)
      && Rebuilt(p, op, SnapshotOf(dev.disk, dev.sectors), dev.sectors, sha)
      && (dev.faultless ==> p.identity == dev.identity)
  {
    var drawn := Draw(dev, op);
    if drawn.Err? { return Err(drawn.code); }
    var (identity, c, w) := drawn.value;
    NothingIs(op, c, w, dev.sectors);
    r := Keep(store, name, op, c, w, dev.disk, dev.sectors, identity, what, legacy, sha);
  }

  lemma SameButAttempt(p: Record, n: nat, op: Operation, backup: Snapshot, d: seq<byte>, sectors: nat, sha: Hash)
    requires sectors > 34849 && |d| == 512 * sectors && Given(op)
    requires Remembered(p, backup, d, sectors, sha) && Rebuilt(p, op, SnapshotOf(d, sectors), sectors, sha)
    ensures Remembered(Again(p, n), backup, d, sectors, sha)
    ensures Rebuilt(Again(p, n), op, SnapshotOf(d, sectors), sectors, sha)
  {
  }

  /** A plan that was made on a device, carried out on the same device: when nothing fails and the gate opens, it succeeds
      exactly if what it writes lasts (LastingExcept). */
  method PlanAndExecute(dev: Emmc, store: Store, name: Record -> Id, op: Operation, what: string,
                        legacy: Option<Snapshot>, gate: bool, sha: Hash)
    returns (planned: Result<Planned>, r: Result<Work>)
    requires dev.Valid() && dev.sectors < U32 && Given(op) && (legacy.Some? ==> Shot(legacy.value))
    requires Distinct(name) && CollisionFree(sha)
    modifies dev`disk, store
    ensures dev.Valid()
    ensures planned.Ok? ==> dev.sectors > 34849
    ensures !(planned.Ok? && planned.value.Made?) ==> dev.disk == old(dev.disk)
    ensures dev.faultless && store.reliable && planned.Ok? && planned.value.Made? ==>
      (r.Ok? <==> gate && AllLasting(op, SnapshotOf(old(dev.disk), dev.sectors), old(dev.disk), dev.sectors))
  {
    planned := MakePlan(dev, store, name, op, what, legacy, sha);
    r := Err("");
    if planned.Ok? && planned.value.Made? {
      var backup := BackupFor(legacy, dev.disk, dev.sectors);
      var permitted, started;
      r, permitted, started := Execute(dev, store, planned.value.id, name, op, backup, true, gate, sha);
    }
  }

  // What lasts.

  /** A raw image with a classic boot record is the one source whose first or last sectors may look like a denied read. */
  predicate Readable(op: Operation, sectors: nat)
    requires sectors > 34849
  {
    op.FactoryRaw? && !HasGpt(op.image) && HEAD <= |op.image| <= 512 * sectors ==>
      !Denied(op.image[512..HEAD]) && !Denied(FactoryTail(op.image, sectors))
  }

  lemma HealthyRead(p: seq<byte>, t: seq<byte>, sectors: nat)
    requires Healthy(p, t, sectors)
    ensures |p| == HEAD && |t| == TAIL && !Denied(p[512..]) && !Denied(t)
  {
    assert Header(p)[..8][0] == p[512..][0] == 69;
    assert BackupHeader(t)[..8][0] == t[ENTRIES] == 69;
  }

  lemma FactoryRead(image: seq<byte>, w: Work, sectors: nat)
    requires IsFactoryWork(image, w, sectors) && sectors < U32 && Readable(FactoryRaw(image), sectors)
    ensures |w.primary| == HEAD && !Denied(w.primary[512..]) && !Denied(w.tail)
  {
    if HasGpt(image) {
      ResizedHealthy(w.primary, image[..HEAD], image[|image| - TAIL..], |image| / 512, sectors);
      HealthyRead(w.primary, w.tail, sectors);
    } else {
      assert w.primary[512..] == image[512..HEAD];
    }
  }

  lemma ArchiveRead(op: Operation, c: Snapshot, w: Work, sectors: nat)
    requires op.RestoreArchive? && Given(op) && Follows(op, c, w, sectors)
    ensures |w.primary| == HEAD && !Denied(w.primary[512..]) && !Denied(w.tail)
  {
    if op.meta.kind == Haos {
      HealthyRead(c.primary, c.tail, sectors);
    }
  }

  /** The tables that an operation announces do not look like a denied read. */
  lemma WorkRead(op: Operation, c: Snapshot, w: Work, sectors: nat)
    requires Given(op) && Follows(op, c, w, sectors) && 34849 < sectors < U32 && Readable(op, sectors)
    ensures |w.primary| == HEAD && !Denied(w.primary[512..]) && !Denied(w.tail)
  {
    match op
    case FactoryRaw(image) => FactoryRead(image, w, sectors);
    case Install(_, _) => HealthyRead(w.primary, w.tail, sectors);
    case Uboot(_) => HealthyRead(c.primary, c.tail, sectors);
    case RestoreArchive(_, _) => ArchiveRead(op, c, w, sectors);
    case Restore(saved) => HealthyRead(saved.primary, saved.tail, sectors);
    case Repairing =>
      RepairAccepted(c, w, sectors);
      HealthyRead(w.primary, w.tail, sectors);
  }

  lemma TablesTrusted(w: Work, d: seq<byte>, sectors: nat)
    requires Settles(w, d, sectors) && |w.primary| == HEAD
    ensures Trusted(Laid(d, w.segments)) <==> !Denied(w.primary[512..]) && !Denied(w.tail)
  {
    var e := Laid(d, w.segments);
    TrustedParts(e, e[..RESERVE], e[|e| - TAIL..]);
    assert e[..RESERVE][512..HEAD] == e[..HEAD][512..];
  }

  /** What every operation writes lasts, except a partial restore that reaches into the tables and a raw image that looks
      like a denied read. */
  lemma LastingExcept(op: Operation, d: seq<byte>, sectors: nat)
    requires Given(op) && 34849 < sectors < U32 && |d| == 512 * sectors && Fitting(op)
    requires Sparing(op) && Readable(op, sectors)
    ensures AllLasting(op, SnapshotOf(d, sectors), d, sectors)
  {
    var c := SnapshotOf(d, sectors);
    forall w | Follows(op, c, w, sectors) ensures Lasting(w, d, sectors) {
      WorkSettles(op, c, w, sectors, d);
      WorkRead(op, c, w, sectors);
      TablesTrusted(w, d, sectors);
    }
  }

  /** And such a raw image never lasts: it is written, and then reported as unreadable. */
  lemma UnreadableImage(image: seq<byte>, d: seq<byte>, sectors: nat)
    requires RawImage(image) && |image| <= 512 * sectors == |d| && 34849 < sectors < U32
    requires !Readable(FactoryRaw(image), sectors)
    ensures !AllLasting(FactoryRaw(image), SnapshotOf(d, sectors), d, sectors)
  {
    var w := Work(FactoryMbr(image, sectors), image[..HEAD], FactoryTail(image, sectors));
    FactorySettles(image, w, sectors, d);
    TablesTrusted(w, d, sectors);
    assert w.primary[512..] == image[512..HEAD];
    assert Follows(FactoryRaw(image), SnapshotOf(d, sectors), w, sectors);
  }

  predicate TablesOf(d: seq<byte>, sectors: nat, p: seq<byte>, t: seq<byte>) {
    34849 < sectors < U32 && |d| == 512 * sectors && p == d[..HEAD] && t == d[512 * (sectors - 33)..]
  }

  lemma ReadableTables(d: seq<byte>, sectors: nat, p: seq<byte>, t: seq<byte>)
    requires TablesOf(d, sectors, p, t) && !Denied(p[512..]) && !Denied(t)
    ensures Trusted(d)
  {
    TrustedParts(d, d[..RESERVE], t);
    assert d[..RESERVE][512..HEAD] == p[512..];
  }

  lemma HealthyTrusted(d: seq<byte>, sectors: nat, p: seq<byte>, t: seq<byte>)
    requires TablesOf(d, sectors, p, t) && Healthy(p, t, sectors)
    ensures Trusted(d)
  {
    HealthyRead(p, t, sectors);
    ReadableTables(d, sectors, p, t);
  }

  lemma RepairNothing(c: Snapshot, sectors: nat)
    requires Shot(c) && sectors > 34849 && Repaired(c.primary, c.tail, sectors) == Ok((c.primary, c.tail))
    ensures Buildable(Repairing, c, sectors) && NothingToDo(Repairing, c, sectors)
  {
    var w := Work([], c.primary, c.tail);
    assert IsRepairWork(c, w, sectors);
    NothingIs(Repairing, c, w, sectors);
  }

  lemma RestoreOwn(c: Snapshot, sectors: nat)
    requires Shot(c) && sectors > 34849 && Repaired(c.primary, c.tail, sectors) == Ok((c.primary, c.tail))
    requires Accepted(c.primary, c.tail, sectors)
    ensures Buildable(Operation.Restore(c), c, sectors)
  {
  }

  /** An eMMC with an accepted pair, the backup mirroring the primary, can always be given a boot firmware and its own
      boot backup, and needs no repair; the engine asks for nothing more. */
  lemma AlwaysDrawable(d: seq<byte>, sectors: nat, c: Snapshot, firmware: seq<byte>)
    requires 34849 < sectors < U32 && |d| == 512 * sectors && c == SnapshotOf(d, sectors) && BootFirmware(firmware)
    requires Accepted(c.primary, c.tail, sectors) && Mirrored(c.primary, c.tail, sectors)
    ensures Drawable(Uboot(firmware), d, sectors)
    ensures Drawable(Operation.Restore(c), d, sectors)
    ensures Drawable(Repairing, d, sectors) && NothingToDo(Repairing, c, sectors)
  {
    RepairedFixpoint(c.primary, c.tail, sectors);
    HealthyTrusted(d, sectors, c.primary, c.tail);
    RestoreOwn(c, sectors);
    RepairNothing(c, sectors);
  }
}
