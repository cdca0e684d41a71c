/** The framed archive file, making an archive from a device, and what restoring it puts back. */
module ArchiveFile {
  import opened Common
  import opened Bytes
  import opened Gpt
  import opened GptRepair
  import opened Disk
  import opened Archive

  // The frame: signature, stored payload, metadata, its digest and length, signature again.

  datatype Frame = Frame(format: nat, stored: seq<byte>, meta: seq<byte>)

  ghost predicate Digest32(mark: Hash) {
    forall b :: |mark(b)| == 32
  }

  function Signature(format: nat): (s: seq<byte>)
    requires format == 3 || format == 4
    ensures |s| == 8
  {
    if format == 3 then MAGIC_XZ else MAGIC_ZSTD
  }

  predicate Framable(f: Frame) {
    (f.format == 3 || f.format == 4) && |f.meta| <= MAX_META
  }

  /** What `create` and `append_footer` write one after the other. */
  function Framed(f: Frame, mark: Hash): (file: seq<byte>)
    requires Framable(f)
  {
    Signature(f.format) + f.stored + f.meta + mark(f.meta) + Le(|f.meta|, 8) + Signature(f.format)
  }

  /** `Archive::open`, up to the metadata itself. */
  function Parsed(file: seq<byte>, mark: Hash): (r: Result<Frame>)
    ensures r.Ok? ==> Framable(r.value)
  {
    var len := |file|;
    if len < 56 then Err("BACKUP_VERIFY")
    else
      var signature := file[..8];
      if signature != MAGIC_XZ && signature != MAGIC_ZSTD then Err("BACKUP_VERIFY")
      else
        var footer := file[len - 48..];
        var n := U64At(footer, 32);
        if footer[40..] != signature || n > MAX_META || n > len - 56 then Err("BACKUP_VERIFY")
        else
          var meta := file[len - 48 - n..len - 48];
          if mark(meta) != footer[..32] then Err("BACKUP_VERIFY")
          else Ok(Frame(if signature == MAGIC_XZ then 3 else 4, file[8..len - 48 - n], meta))
  }

  lemma LengthField(n: nat)
    requires n <= MAX_META
    ensures |Le(n, 8)| == 8 && U64At(Le(n, 8), 0) == n
  {
    assert Pow256(8) == U64;
    LeValue(n, 8);
  }

  lemma FramedParts(f: Frame, mark: Hash)
    requires Framable(f) && Digest32(mark)
    ensures var file := Framed(f, mark);
      var n := |f.meta|;
      && |file| == 8 + |f.stored| + n + 48
      && file[..8] == Signature(f.format)
      && file[8..|file| - 48 - n] == f.stored
      && file[|file| - 48 - n..|file| - 48] == f.meta
      && file[|file| - 48..] == mark(f.meta) + Le(n, 8) + Signature(f.format)
  {
    var file := Framed(f, mark);
    var n := |f.meta|;
    var foot := mark(f.meta) + Le(n, 8) + Signature(f.format);
    assert file == Signature(f.format) + f.stored + f.meta + foot;
  }

  /** Whatever was framed is found again. */
  lemma ParsedFramed(f: Frame, mark: Hash)
    requires Framable(f) && Digest32(mark)
    ensures Parsed(Framed(f, mark), mark) == Ok(f)
  {
    var file, n := Framed(f, mark), |f.meta|;
    FramedParts(f, mark);
    var foot := file[|file| - 48..];
    assert foot[32..40] == Le(n, 8) && foot[..32] == mark(f.meta) && foot[40..] == Signature(f.format);
    LengthField(n);
    LeAtSame(foot, Le(n, 8), 32, 0, 8);
    assert MAGIC_XZ[7] != MAGIC_ZSTD[7];
  }

  /** And a file is accepted only if it is a frame, byte for byte. */
  lemma FramedParsed(file: seq<byte>, mark: Hash)
    requires Parsed(file, mark).Ok?
    ensures file == Framed(Parsed(file, mark).value, mark)
  {
    var f := Parsed(file, mark).value;
    var len, n := |file|, |f.meta|;
    var foot := file[len - 48..];
    assert Le(n, 8) == foot[32..40] by {
      LeInverse(foot, 32, 8);
    }
    assert mark(f.meta) == foot[..32] && Signature(f.format) == foot[40..] == file[..8];
    assert f.meta == file[len - 48 - n..len - 48] && f.stored == file[8..len - 48 - n];
    FramePieces(file, n);
  }

  lemma FramePieces(file: seq<byte>, n: nat)
    requires n + 56 <= |file|
    ensures var len := |file|;
      var foot := file[len - 48..];
      file == file[..8] + file[8..len - 48 - n] + file[len - 48 - n..len - 48] + foot[..32] + foot[32..40] + foot[40..]
  {
  }

  // The segments of a valid archive.

  predicate EightUsed(x: seq<byte>)
    requires |x| == ENTRIES
  {
    forall i :: 0 <= i < 8 ==> Used(x, i)
  }

  predicate Is(e: Extent, lba: nat, bytes: nat) {
    e.lba == lba && e.bytes == bytes
  }

  /** The ranges of a FULL or BOOT archive. Those of a HAOS archive are whatever the entries of its table say. */
  predicate Shaped(kind: Kind, sectors: nat, ranges: seq<Extent>) {
    && 34849 < sectors
    && match kind
       case Full => |ranges| == 1 && Is(ranges[0], 0, 512 * sectors)
       case Boot => |ranges| == 2 && Is(ranges[0], 0, 34816 * 512) && Is(ranges[1], sectors - 33, TAIL)
       case Haos => true
  }

  predicate ClearOf(a: (nat, nat), b: (nat, nat)) {
    a.0 + a.1 / 512 <= b.0 || b.0 + b.1 / 512 <= a.0
  }

  predicate OnDisk(a: (nat, nat), sectors: nat) {
    0 < a.1 && a.1 % 512 == 0 && a.0 + a.1 / 512 <= sectors
  }

  /** The places are non-empty, on the disk and apart: what a caller can read off the saved table. */
  predicate PlacesFit(places: seq<(nat, nat)>, sectors: nat) {
    && (forall k :: 0 <= k < |places| ==> OnDisk(places[k], sectors))
    && forall j, k :: 0 <= j < k < |places| ==> ClearOf(places[j], places[k])
  }

  /** And they stay out of both tables. */
  predicate PlacesClear(places: seq<(nat, nat)>, sectors: nat) {
    forall k :: 0 <= k < |places| ==> 34 <= places[k].0 && places[k].0 + places[k].1 / 512 + 33 <= sectors
  }

  function PlacesOf(m: Meta): seq<(nat, nat)>
    requires m.sectors > 34849
  {
    Places(m.kind, m.primary, m.sectors)
  }

  /** What is left of valid metadata when only places and sizes matter. */
  lemma MeaningfulParts(m: Meta)
    requires Meaningful(m)
    ensures 34849 < m.sectors < U32 && |m.primary| == HEAD && |m.tail| == TAIL
    ensures Matches(m.ranges, PlacesOf(m))
    ensures m.kind != Full ==> Accepted(m.primary, m.tail, m.sectors)
  {
  }

  lemma MeaningfulShaped(m: Meta)
    requires Meaningful(m)
    ensures Shaped(m.kind, m.sectors, m.ranges)
    ensures |m.primary| == HEAD && |m.tail| == TAIL && m.sectors < U32
  {
    MeaningfulParts(m);
    if m.kind != Haos {
      MatchedShaped(m);
    }
  }

  lemma MatchedShaped(m: Meta)
    requires 34849 < m.sectors && m.kind != Haos && Matches(m.ranges, PlacesOf(m))
    ensures Shaped(m.kind, m.sectors, m.ranges)
  {
    assert (m.ranges[0].lba, m.ranges[0].bytes) == PlacesOf(m)[0];
    assert m.kind == Boot ==> (m.ranges[1].lba, m.ranges[1].bytes) == PlacesOf(m)[1];
  }

  /** FULL and BOOT archives always fit. */
  lemma WholePlacesFit(kind: Kind, p: seq<byte>, sectors: nat)
    requires 34849 < sectors && kind != Haos
    ensures PlacesFit(Places(kind, p, sectors), sectors)
  {
  }

  /** So do those of eight entries that are all in use, as `inspect` finds them in every image that is installed; they
      stay clear of the whole boot area too. */
  lemma EightUsedFit(p: seq<byte>, t: seq<byte>, sectors: nat)
    requires Accepted(p, t, sectors) && EightUsed(Array(p))
    ensures PlacesFit(EightExtents(p), sectors) && PlacesClear(EightExtents(p), sectors)
    ensures forall k :: 0 <= k < 8 ==> 34816 <= EightExtents(p)[k].0
  {
    PartitionBounds(p, t, sectors);
    RunsFit(p, sectors);
  }

  lemma PartitionBounds(p: seq<byte>, t: seq<byte>, sectors: nat)
    requires Accepted(p, t, sectors) && EightUsed(Array(p))
    ensures |p| == HEAD && 34849 < sectors < U32 && RunsApart(Array(p), sectors)
  {
  }

  predicate RunsApart(x: seq<byte>, sectors: nat)
    requires |x| == ENTRIES && sectors >= 34
  {
    && (forall i :: 0 <= i < 8 ==> 34816 <= Start(x, i) <= Finish(x, i) <= sectors - 34)
    && forall i, j :: 0 <= i < j < 8 ==> Finish(x, i) < Start(x, j) || Finish(x, j) < Start(x, i)
  }

  lemma ExtentValue(x: seq<byte>, i: nat)
    requires |x| == ENTRIES && i < 128 && Start(x, i) <= Finish(x, i) < U32 - 1
    ensures EntryExtent(x, i) == (Start(x, i), 512 * (Finish(x, i) + 1 - Start(x, i)))
  {
  }

  lemma RunsFit(p: seq<byte>, sectors: nat)
    requires |p| == HEAD && 34849 < sectors < U32 && RunsApart(Array(p), sectors)
    ensures PlacesFit(EightExtents(p), sectors) && PlacesClear(EightExtents(p), sectors)
    ensures forall k :: 0 <= k < 8 ==> 34816 <= EightExtents(p)[k].0
  {
    var x, places := Array(p), EightExtents(p);
    forall k | 0 <= k < 8
      ensures places[k].0 == Start(x, k) && places[k].1 == 512 * (Finish(x, k) + 1 - Start(x, k))
    {
      ExtentValue(x, k);
    }
  }

  lemma SegmentsShape(m: Meta, payload: seq<byte>, k: nat)
    requires Complete(m, payload) && k < |m.ranges|
    ensures var s := Segments(m, payload)[k]; s.lba == m.ranges[k].lba && |s.content| == m.ranges[k].bytes
  {
    BeforeGrows(m.ranges, k + 1, |m.ranges|);
  }

  /** An archive's segments pass the range check exactly if the places that its table names fit the disk. */
  lemma SegmentsPlannable(m: Meta, payload: seq<byte>, places: seq<(nat, nat)>)
    requires Complete(m, payload) && Matches(m.ranges, places)
    ensures Plannable(Segments(m, payload), m.sectors) <==> PlacesFit(places, m.sectors)
  {
    var ss := Segments(m, payload);
    forall k | 0 <= k < |ss| ensures places[k] == (ss[k].lba, |ss[k].content|) {
      SegmentsShape(m, payload, k);
      assert (m.ranges[k].lba, m.ranges[k].bytes) == places[k];
    }
    PlannablePlaces(ss, places, m.sectors);
  }

  lemma PlannablePlaces(ss: seq<Segment>, places: seq<(nat, nat)>, sectors: nat)
    requires |ss| == |places| && forall k :: 0 <= k < |ss| ==> places[k] == (ss[k].lba, |ss[k].content|)
    ensures Plannable(ss, sectors) <==> PlacesFit(places, sectors)
  {
    if PlacesFit(places, sectors) {
      forall k | 0 <= k < |ss| ensures ss[k].To() <= 512 * sectors && 0 < |ss[k].content| && |ss[k].content| % 512 == 0 {
        assert OnDisk(places[k], sectors);
      }
      forall j, k | 0 <= j < k < |ss| ensures ss[j].To() <= ss[k].From() || ss[k].To() <= ss[j].From() {
        assert OnDisk(places[j], sectors) && OnDisk(places[k], sectors) && ClearOf(places[j], places[k]);
      }
    }
    if Plannable(ss, sectors) {
      forall k | 0 <= k < |ss| ensures OnDisk(places[k], sectors) {
        assert 0 < |ss[k].content| && |ss[k].content| % 512 == 0 && ss[k].To() <= 512 * sectors;
      }
      forall j, k | 0 <= j < k < |ss| ensures ClearOf(places[j], places[k]) {
        assert ss[j].To() <= ss[k].From() || ss[k].To() <= ss[j].From();
      }
    }
  }

  /** `verify` ties the saved tables to the payload: it begins with one and ends with the other. */
  lemma TablesInPayload(m: Meta, payload: seq<byte>)
    requires Shaped(m.kind, m.sectors, m.ranges) && m.kind != Haos && Complete(m, payload)
    ensures |payload| >= 34849 * 512
    ensures TablesMatch(m, payload) <==> payload[..HEAD] == m.primary && payload[|payload| - TAIL..] == m.tail
  {
    if m.kind == Full {
      FullTables(m, payload);
    } else {
      BootTables(m, payload);
    }
  }

  lemma FullTables(m: Meta, payload: seq<byte>)
    requires Shaped(m.kind, m.sectors, m.ranges) && m.kind == Full && Complete(m, payload)
    ensures |payload| == 512 * m.sectors
    ensures Slice(m, payload, 0) == payload
    ensures Window(m, payload, 1, 0, HEAD) == payload[..HEAD]
    ensures Window(m, payload, 1, 512 * (m.sectors - 33), TAIL) == payload[|payload| - TAIL..]
  {
    assert Before(m.ranges, 1) == 512 * m.sectors;
    assert Slice(m, payload, 0) == payload;
  }

  lemma BootTables(m: Meta, payload: seq<byte>)
    requires Shaped(m.kind, m.sectors, m.ranges) && m.kind == Boot && Complete(m, payload)
    ensures |payload| == 34849 * 512
    ensures Slice(m, payload, 0) == payload[..34816 * 512] && Slice(m, payload, 1) == payload[34816 * 512..]
    ensures Window(m, payload, 2, 0, HEAD) == payload[..HEAD]
    ensures Window(m, payload, 2, 512 * (m.sectors - 33), TAIL) == payload[|payload| - TAIL..]
  {
    assert Before(m.ranges, 1) == 34816 * 512;
    assert Before(m.ranges, 2) == 34849 * 512;
    var a, b := Slice(m, payload, 0), Slice(m, payload, 1);
    assert a == payload[..34816 * 512] && b == payload[34816 * 512..];
    assert Window(m, payload, 1, 0, HEAD) == a[..HEAD];
    assert |Window(m, payload, 1, 512 * (m.sectors - 33), TAIL)| == TAIL;
    assert Window(m, payload, 2, 0, HEAD) == Overlaid(b, 512 * (m.sectors - 33), a[..HEAD], 0);
  }

  // Backup and restore.

  /** The archive holds what the disk holds in every saved range. */
  predicate Holds(m: Meta, payload: seq<byte>, d: seq<byte>) {
    forall k :: 0 <= k < |m.ranges| ==>
      && 512 * m.ranges[k].lba + m.ranges[k].bytes <= |d|
      && Slice(m, payload, k) == d[512 * m.ranges[k].lba..512 * m.ranges[k].lba + m.ranges[k].bytes]
  }

  /** Every non-empty range of the archive is what the disk holds there. */
  predicate Held(m: Meta, payload: seq<byte>, d: seq<byte>) {
    forall k :: 0 <= k < |m.ranges| && m.ranges[k].bytes > 0 ==>
      && 512 * m.ranges[k].lba + m.ranges[k].bytes <= |d|
      && Slice(m, payload, k) == d[512 * m.ranges[k].lba..512 * m.ranges[k].lba + m.ranges[k].bytes]
  }

  predicate Saved(m: Meta, i: nat) {
    exists k :: 0 <= k < |m.ranges| && InExtent(m.ranges[k], i)
  }

  predicate InExtent(e: Extent, i: nat) {
    512 * e.lba <= i < 512 * e.lba + e.bytes
  }

  lemma SavedTouches(m: Meta, payload: seq<byte>, i: nat)
    requires Complete(m, payload)
    ensures Touches(Segments(m, payload), i) <==> Saved(m, i)
  {
    var ss := Segments(m, payload);
    forall k | 0 <= k < |ss| ensures Covers(ss[k], i) <==> InExtent(m.ranges[k], i) {
      SegmentsShape(m, payload, k);
    }
  }

  /** Restoring onto any disk of the same size puts back every saved sector and changes no other. */
  lemma RestoreSaved(m: Meta, payload: seq<byte>, d: seq<byte>, target: seq<byte>)
    requires Plannable(Segments(m, payload), m.sectors) && Complete(m, payload) && Held(m, payload, d)
    requires |d| == |target| == 512 * m.sectors
    ensures Inside(Segments(m, payload), |target|)
    ensures forall i :: 0 <= i < |d| ==>
      Laid(target, Segments(m, payload))[i] == if Saved(m, i) then d[i] else target[i]
  {
    var ss := Segments(m, payload);
    HeldHolds(m, payload, d);
    HoldsCopies(m, payload, d);
    forall i | 0 <= i < |d| ensures Laid(target, ss)[i] == if Saved(m, i) then d[i] else target[i] {
      SavedTouches(m, payload, i);
      LaidCopies(ss, d, target, i);
    }
  }

  /** Of a FULL archive that is all of the disk. */
  lemma FullSaved(m: Meta, i: nat)
    requires Shaped(m.kind, m.sectors, m.ranges) && m.kind == Full && i < 512 * m.sectors
    ensures Saved(m, i)
  {
    assert InExtent(m.ranges[0], i);
  }

  lemma HeldHolds(m: Meta, payload: seq<byte>, d: seq<byte>)
    requires Plannable(Segments(m, payload), m.sectors) && Complete(m, payload) && Held(m, payload, d)
    ensures Holds(m, payload, d)
  {
    forall k | 0 <= k < |m.ranges| ensures m.ranges[k].bytes > 0 {
      SegmentsShape(m, payload, k);
      assert 0 < |Segments(m, payload)[k].content|;
    }
  }

  lemma HoldsCopies(m: Meta, payload: seq<byte>, d: seq<byte>)
    requires Complete(m, payload) && Holds(m, payload, d)
    ensures forall k :: 0 <= k < |Segments(m, payload)| ==> Copies(Segments(m, payload)[k], d)
  {
    var ss := Segments(m, payload);
    forall k | 0 <= k < |ss| ensures Copies(ss[k], d) {
      SegmentsShape(m, payload, k);
    }
  }

  // Making an archive.

  /** The libraries the file is written and read with: the metadata text and the compression. */
  datatype Codec = Codec(enc: Meta -> seq<byte>, dec: seq<byte> -> Result<Meta>,
                         zip: seq<byte> -> seq<byte>, unzip: (nat, seq<byte>) -> Result<seq<byte>>)

  ghost predicate Lossless(c: Codec) {
    && (forall m :: c.dec(c.enc(m)) == Ok(m))
    && forall b :: c.unzip(4, c.zip(b)) == Ok(b)
  }

  /** `Archive::open` followed by its reader: metadata that passed `validate`, and the payload. */
  function Opened(file: seq<byte>, mark: Hash, c: Codec): (r: Result<(Meta, seq<byte>)>)
    ensures r.Ok? ==> Meaningful(r.value.0)
  {
    var f := Parsed(file, mark);
    if f.Err? then Err(f.code)
    else
      var m := c.dec(f.value.meta);
      if m.Err? then Err(m.code)
      else if !Meaningful(m.value) || m.value.format != f.value.format then Err("BACKUP_VERIFY")
      else
        var payload := c.unzip(f.value.format, f.value.stored);
        if payload.Err? then Err(payload.code) else Ok((m.value, payload.value))
  }

  /** What was written under one set of metadata opens as exactly that. */
  lemma OpenedFramed(m: Meta, payload: seq<byte>, mark: Hash, c: Codec)
    requires Digest32(mark) && Lossless(c) && Meaningful(m) && m.format == 4 && |c.enc(m)| <= MAX_META
    ensures Opened(Framed(Frame(4, c.zip(payload), c.enc(m)), mark), mark, c) == Ok((m, payload))
  {
    ParsedFramed(Frame(4, c.zip(payload), c.enc(m)), mark);
    assert c.dec(c.enc(m)) == Ok(m);
  }

  predicate Readable(disk: seq<byte>, e: (nat, nat)) {
    e.1 == 0 || 512 * e.0 + e.1 <= |disk|
  }

  /** The bytes of a run of sectors, none if the disk ends before it. */
  function RunOf(disk: seq<byte>, e: (nat, nat)): (data: seq<byte>)
    ensures Readable(disk, e) ==> |data| == e.1
  {
    if e.1 > 0 && Readable(disk, e) then disk[512 * e.0..512 * e.0 + e.1] else []
  }

  /** A run of sectors read in chunks. */
  method ReadRun(disk: seq<byte>, e: (nat, nat)) returns (r: Result<seq<byte>>)
    ensures r.Ok? <==> Readable(disk, e)
    ensures r.Ok? ==> r.value == RunOf(disk, e)
  {
    var (lba, bytes) := e;
    var data: seq<byte> := [];
    var offset := 0;
    while offset < bytes
      invariant 0 <= offset <= bytes && (offset == 0 || 512 * lba + offset <= |disk|)
      invariant |data| == offset && (offset > 0 ==> data == disk[512 * lba..512 * lba + offset])
      invariant offset < bytes ==> offset % 512 == 0
    {
      var n := if bytes - offset < CHUNK then bytes - offset else CHUNK;
      var at := 512 * (lba + offset / 512);
      if at + n > |disk| { return Err("SHORT_READ"); }
      data := data + disk[at..at + n];
      offset := offset + n;
    }
    return Ok(data);
  }

  function Digested(disk: seq<byte>, wanted: seq<(nat, nat)>, sha: Hash): (ranges: seq<Extent>)
    ensures Matches(ranges, wanted)
  {
    seq(|wanted|, k requires 0 <= k < |wanted| => Extent(wanted[k].0, wanted[k].1, sha(RunOf(disk, wanted[k]))))
  }

  /** The payload is what the disk holds in the first `n` ranges, one after the other. */
  predicate Gathered(payload: seq<byte>, ranges: seq<Extent>, n: nat, disk: seq<byte>)
    requires n <= |ranges|
  {
    && |payload| == Before(ranges, n)
    && forall k :: 0 <= k < n ==> GatheredAt(payload, ranges, k, disk)
  }

  predicate GatheredAt(payload: seq<byte>, ranges: seq<Extent>, k: nat, disk: seq<byte>)
    requires k < |ranges|
  {
    && Before(ranges, k + 1) <= |payload|
    && payload[Before(ranges, k)..Before(ranges, k + 1)] == RunOf(disk, (ranges[k].lba, ranges[k].bytes))
  }

  lemma GatheredGrows(payload: seq<byte>, ranges: seq<Extent>, n: nat, disk: seq<byte>)
    requires n < |ranges| && Gathered(payload, ranges, n, disk)
    requires Readable(disk, (ranges[n].lba, ranges[n].bytes))
    ensures Gathered(payload + RunOf(disk, (ranges[n].lba, ranges[n].bytes)), ranges, n + 1, disk)
  {
    var run := RunOf(disk, (ranges[n].lba, ranges[n].bytes));
    forall k | 0 <= k < n + 1 ensures GatheredAt(payload + run, ranges, k, disk) {
      if k < n {
        assert GatheredAt(payload, ranges, k, disk);
        SliceOfFront(payload, run, Before(ranges, k), Before(ranges, k + 1));
      } else {
        assert (payload + run)[|payload|..] == run;
      }
    }
  }

  lemma SliceOfFront(a: seq<byte>, b: seq<byte>, i: nat, j: nat)
    requires i <= j <= |a|
    ensures (a + b)[i..j] == a[i..j]
  {
  }

  /** The first pass: every range read, digested and appended to the payload. */
  method ReadAll(disk: seq<byte>, wanted: seq<(nat, nat)>, sha: Hash) returns (r: Result<(seq<Extent>, seq<byte>)>)
    ensures r.Ok? <==> forall k :: 0 <= k < |wanted| ==> Readable(disk, wanted[k])
    ensures r.Ok? ==>
      && r.value.0 == Digested(disk, wanted, sha)
      && Gathered(r.value.1, r.value.0, |wanted|, disk)
  {
    ghost var all := Digested(disk, wanted, sha);
    var ranges: seq<Extent> := [];
    var payload: seq<byte> := [];
    var k := 0;
    while k < |wanted|
      invariant 0 <= k <= |wanted|
      invariant ranges == all[..k]
      invariant forall j :: 0 <= j < k ==> Readable(disk, wanted[j])
      invariant Gathered(payload, all, k, disk)
    {
      var got := ReadRun(disk, wanted[k]);
      if got.Err? { return Err(got.code); }
      GatheredGrows(payload, all, k, disk);
      ranges := ranges + [Extent(wanted[k].0, wanted[k].1, sha(got.value))];
      payload := payload + got.value;
      k := k + 1;
    }
    assert ranges == all;
    return Ok((ranges, payload));
  }

  /** `compare_device`: the second pass finds every range with the digest that was saved. */
  method Compare(disk: seq<byte>, ranges: seq<Extent>, sha: Hash) returns (ok: bool)
    ensures ok <==> forall k :: 0 <= k < |ranges| ==> Reread(disk, ranges[k], sha)
  {
    var k := 0;
    while k < |ranges|
      invariant 0 <= k <= |ranges|
      invariant forall j :: 0 <= j < k ==> Reread(disk, ranges[j], sha)
    {
      var got := ReadRun(disk, (ranges[k].lba, ranges[k].bytes));
      if got.Err? || sha(got.value) != ranges[k].sha { return false; }
      k := k + 1;
    }
    return true;
  }

  predicate Reread(disk: seq<byte>, e: Extent, sha: Hash) {
    Readable(disk, (e.lba, e.bytes)) && sha(RunOf(disk, (e.lba, e.bytes))) == e.sha
  }

  /** A device with a table that can be read, and for a partial backup with the K11C layout. */
  predicate Steady(kind: Kind, primary: seq<byte>, tail: seq<byte>, disk: seq<byte>, sectors: nat) {
    && 34849 < sectors < U32 && |disk| == 512 * sectors
    && |primary| == HEAD && |tail| == TAIL
    && disk[..HEAD] == primary && disk[512 * (sectors - 33)..] == tail
    && !Denied(primary[512..]) && !Denied(tail)
    && (kind != Full ==> Accepted(primary, tail, sectors))
  }

  /** What a backup of it says about itself. */
  function MetaOf(kind: Kind, primary: seq<byte>, tail: seq<byte>, disk: seq<byte>, sectors: nat, sha: Hash): (m: Meta)
    requires sectors > 34849
  {
    Meta(4, kind, sectors, Digested(disk, Places(kind, primary, sectors), sha), primary, tail,
         Classify(primary, tail, sectors))
  }

  lemma SteadyMeaningful(kind: Kind, primary: seq<byte>, tail: seq<byte>, disk: seq<byte>, sectors: nat, sha: Hash)
    requires Steady(kind, primary, tail, disk, sectors)
    ensures Wanted(kind, primary, tail, sectors) == Ok(Places(kind, primary, sectors))
    ensures Meaningful(MetaOf(kind, primary, tail, disk, sectors, sha))
  {
  }

  predicate AllReadable(disk: seq<byte>, places: seq<(nat, nat)>) {
    forall k :: 0 <= k < |places| ==> Readable(disk, places[k])
  }

  /** What was gathered from a steady device passes `verify`. */
  lemma SteadyFaithful(m: Meta, payload: seq<byte>, disk: seq<byte>, sha: Hash)
    requires Shaped(m.kind, m.sectors, m.ranges) && Gathered(payload, m.ranges, |m.ranges|, disk)
    requires |disk| == 512 * m.sectors && disk[..HEAD] == m.primary && disk[512 * (m.sectors - 33)..] == m.tail
    requires forall k :: 0 <= k < |m.ranges| ==> Reread(disk, m.ranges[k], sha)
    ensures Faithful(m, payload, sha)
  {
    forall k | 0 <= k < |m.ranges| ensures RangeHashed(m, payload, sha, k) {
      assert GatheredAt(payload, m.ranges, k, disk) && Reread(disk, m.ranges[k], sha);
    }
    if m.kind != Haos {
      TablesInPayload(m, payload);
      TablesGathered(m, payload, disk);
    }
  }

  lemma TablesGathered(m: Meta, payload: seq<byte>, disk: seq<byte>)
    requires Shaped(m.kind, m.sectors, m.ranges) && m.kind != Haos && Gathered(payload, m.ranges, |m.ranges|, disk)
    requires |disk| == 512 * m.sectors
    ensures |payload| >= 34849 * 512
    ensures payload[..HEAD] == disk[..HEAD] && payload[|payload| - TAIL..] == disk[512 * (m.sectors - 33)..]
  {
    assert GatheredAt(payload, m.ranges, 0, disk);
    if m.kind == Full {
      FullTables(m, payload);
      assert payload == disk;
    } else {
      BootTables(m, payload);
      assert GatheredAt(payload, m.ranges, 1, disk);
      assert payload[..34816 * 512] == disk[..34816 * 512];
      assert payload[..34816 * 512][..HEAD] == payload[..HEAD] && disk[..34816 * 512][..HEAD] == disk[..HEAD];
    }
  }

  /** `create`. The device may change between the two passes over it, or between them and the header read: an
      archive comes out only if it opens, passes `verify`, and holds what the second pass found. If it does not change,
      one comes out unless a range runs off the disk or its metadata is too long. `same` is whether the identity asked for
      at the end is still the one from the start. */
  method Create(kind: Kind, primary: seq<byte>, tail: seq<byte>, first: seq<byte>, second: seq<byte>, same: bool,
                sectors: nat, sha: Hash, mark: Hash, c: Codec)
    returns (r: Result<seq<byte>>)
    requires Digest32(mark) && Lossless(c) && CollisionFree(sha)
    requires |primary| == HEAD && |tail| == TAIL && sectors < U32
    ensures first == second && Steady(kind, primary, tail, first, sectors) ==>
      (r.Ok? <==> same && AllReadable(first, Places(kind, primary, sectors)) &&
                  |c.enc(MetaOf(kind, primary, tail, first, sectors, sha))| <= MAX_META)
    ensures r.Ok? ==>
      && same && Opened(r.value, mark, c).Ok?
      && var (m, payload) := Opened(r.value, mark, c).value;
      && m.kind == kind && m.sectors == sectors && m.primary == primary && m.tail == tail
      && Faithful(m, payload, sha)
      && Held(m, payload, second)
  {
    var pass := FirstPass(kind, primary, tail, first, sectors, sha);
    if pass.Err? { return Err(pass.code); }
    var (m, payload) := pass.value;
    var reread := Compare(second, m.ranges, sha);
    if !reread || !same { return Err("DEVICE_CHANGED"); }
    if first == second && Steady(kind, primary, tail, first, sectors) {
      SteadyArchive(m, payload, kind, primary, tail, first, sectors, sha);
    }
    r := Publish(m, payload, sha, mark, c);
    if r.Ok? {
      RereadHeld(m, payload, second, sha);
    }
  }

  /** The ranges this kind saves, read and digested. */
  method FirstPass(kind: Kind, primary: seq<byte>, tail: seq<byte>, disk: seq<byte>, sectors: nat, sha: Hash)
    returns (r: Result<(Meta, seq<byte>)>)
    requires |primary| == HEAD && |tail| == TAIL && sectors < U32
    ensures r.Ok? ==>
      && sectors > 34849 && r.value.0 == MetaOf(kind, primary, tail, disk, sectors, sha)
      && Gathered(r.value.1, r.value.0.ranges, |r.value.0.ranges|, disk)
      && forall k :: 0 <= k < |r.value.0.ranges| ==> Reread(disk, r.value.0.ranges[k], sha)
    ensures Steady(kind, primary, tail, disk, sectors) ==> (r.Ok? <==> AllReadable(disk, Places(kind, primary, sectors)))
  {
    if Steady(kind, primary, tail, disk, sectors) {
      SteadyMeaningful(kind, primary, tail, disk, sectors, sha);
    }
    var wanted := Wanted(kind, primary, tail, sectors);
    if wanted.Err? { return Err(wanted.code); }
    assert wanted.value == Places(kind, primary, sectors);
    var pass := ReadAll(disk, wanted.value, sha);
    if pass.Err? { return Err(pass.code); }
    return Ok((Meta(4, kind, sectors, pass.value.0, primary, tail, Classify(primary, tail, sectors)), pass.value.1));
  }

  /** The file written, opened again and verified before it gets its name. */
  method Publish(m: Meta, payload: seq<byte>, sha: Hash, mark: Hash, c: Codec) returns (r: Result<seq<byte>>)
    requires Digest32(mark) && Lossless(c) && m.format == 4
    ensures r.Ok? <==> |c.enc(m)| <= MAX_META && Meaningful(m) && m.sectors >= 33 && Faithful(m, payload, sha)
    ensures r.Ok? ==> Opened(r.value, mark, c) == Ok((m, payload))
  {
    var meta := c.enc(m);
    if |meta| > MAX_META { return Err("BACKUP_VERIFY"); }
    var file := Framed(Frame(4, c.zip(payload), meta), mark);
    OpensAgain(m, payload, mark, c);
    var archived := Opened(file, mark, c);
    if archived.Err? { return Err(archived.code); }
    var good := Verify(archived.value.0, archived.value.1, sha);
    r := if good then Ok(file) else Err("BACKUP_VERIFY");
  }

  lemma OpensAgain(m: Meta, payload: seq<byte>, mark: Hash, c: Codec)
    requires Digest32(mark) && Lossless(c) && m.format == 4 && |c.enc(m)| <= MAX_META
    ensures var o := Opened(Framed(Frame(4, c.zip(payload), c.enc(m)), mark), mark, c);
      && (o.Ok? <==> Meaningful(m))
      && (o.Ok? ==> o == Ok((m, payload)) && m.sectors >= 33 && |m.primary| == HEAD && |m.tail| == TAIL)
  {
    if Meaningful(m) {
      OpenedFramed(m, payload, mark, c);
    }
    if Opened(Framed(Frame(4, c.zip(payload), c.enc(m)), mark), mark, c).Ok? {
      OpenedAs(m, payload, mark, c);
    }
  }

  lemma SteadyArchive(m: Meta, payload: seq<byte>, kind: Kind, primary: seq<byte>, tail: seq<byte>, disk: seq<byte>,
                      sectors: nat, sha: Hash)
    requires Steady(kind, primary, tail, disk, sectors) && m == MetaOf(kind, primary, tail, disk, sectors, sha)
    requires Gathered(payload, m.ranges, |m.ranges|, disk)
    requires forall k :: 0 <= k < |m.ranges| ==> Reread(disk, m.ranges[k], sha)
    ensures Meaningful(m) && m.sectors >= 33 && Faithful(m, payload, sha)
  {
    SteadyMeaningful(kind, primary, tail, disk, sectors, sha);
    SteadyParts(m, kind, primary, tail, disk, sectors, sha);
    MeaningfulShaped(m);
    SteadyFaithful(m, payload, disk, sha);
  }

  lemma SteadyParts(m: Meta, kind: Kind, primary: seq<byte>, tail: seq<byte>, disk: seq<byte>, sectors: nat, sha: Hash)
    requires Steady(kind, primary, tail, disk, sectors) && m == MetaOf(kind, primary, tail, disk, sectors, sha)
    ensures m.sectors == sectors > 34849 && |disk| == 512 * m.sectors
    ensures disk[..HEAD] == m.primary && disk[512 * (m.sectors - 33)..] == m.tail
  {
  }

  lemma OpenedAs(m: Meta, payload: seq<byte>, mark: Hash, c: Codec)
    requires Digest32(mark) && Lossless(c) && |c.enc(m)| <= MAX_META
    requires Opened(Framed(Frame(4, c.zip(payload), c.enc(m)), mark), mark, c).Ok?
    ensures Opened(Framed(Frame(4, c.zip(payload), c.enc(m)), mark), mark, c) == Ok((m, payload))
  {
    ParsedFramed(Frame(4, c.zip(payload), c.enc(m)), mark);
    assert c.dec(c.enc(m)) == Ok(m);
  }

  lemma RereadHeld(m: Meta, payload: seq<byte>, d: seq<byte>, sha: Hash)
    requires CollisionFree(sha) && Hashed(m, payload, sha, |m.ranges|)
    requires forall k :: 0 <= k < |m.ranges| ==> Reread(d, m.ranges[k], sha)
    ensures Held(m, payload, d)
  {
    forall k | 0 <= k < |m.ranges| && m.ranges[k].bytes > 0
      ensures 512 * m.ranges[k].lba + m.ranges[k].bytes <= |d|
      ensures Slice(m, payload, k) == d[512 * m.ranges[k].lba..512 * m.ranges[k].lba + m.ranges[k].bytes]
    {
      assert Reread(d, m.ranges[k], sha) && RangeHashed(m, payload, sha, k);
    }
  }

  /** Backup and restore are inverse, file format and all: what `create` made of a device, opened and restored onto any
      disk of that size, puts back every saved sector and changes no other; a FULL backup puts back the whole disk. The
      restore is possible at all exactly if the places that the saved table names fit the disk. */
  lemma BackupRestore(file: seq<byte>, d: seq<byte>, target: seq<byte>, sha: Hash, mark: Hash, c: Codec)
    requires Opened(file, mark, c).Ok?
    requires var (m, payload) := Opened(file, mark, c).value;
      && m.sectors >= 33 && Faithful(m, payload, sha) && Held(m, payload, d)
      && |d| == |target| == 512 * m.sectors
    ensures var (m, payload) := Opened(file, mark, c).value;
      && m.sectors > 34849
      && (Plannable(Segments(m, payload), m.sectors) <==> PlacesFit(PlacesOf(m), m.sectors))
      && (m.kind != Haos ==> PlacesFit(PlacesOf(m), m.sectors))
      && (PlacesFit(PlacesOf(m), m.sectors) ==>
            && Inside(Segments(m, payload), |target|)
            && (forall i :: 0 <= i < |d| ==>
                  Laid(target, Segments(m, payload))[i] == if Saved(m, i) then d[i] else target[i])
            && (m.kind == Full ==> Laid(target, Segments(m, payload)) == d))
  {
    var (m, payload) := Opened(file, mark, c).value;
    MeaningfulParts(m);
    MeaningfulShaped(m);
    RestoreMeaningful(m, payload, d, target);
  }

  lemma RestoreMeaningful(m: Meta, payload: seq<byte>, d: seq<byte>, target: seq<byte>)
    requires Shaped(m.kind, m.sectors, m.ranges) && Matches(m.ranges, PlacesOf(m))
    requires Complete(m, payload) && Held(m, payload, d) && |d| == |target| == 512 * m.sectors
    ensures Plannable(Segments(m, payload), m.sectors) <==> PlacesFit(PlacesOf(m), m.sectors)
    ensures m.kind != Haos ==> PlacesFit(PlacesOf(m), m.sectors)
    ensures PlacesFit(PlacesOf(m), m.sectors) ==>
      && Inside(Segments(m, payload), |target|)
      && (forall i :: 0 <= i < |d| ==>
            Laid(target, Segments(m, payload))[i] == if Saved(m, i) then d[i] else target[i])
      && (m.kind == Full ==> Laid(target, Segments(m, payload)) == d)
  {
    SegmentsPlannable(m, payload, PlacesOf(m));
    if m.kind != Haos {
      WholePlacesFit(m.kind, m.primary, m.sectors);
    }
    if PlacesFit(PlacesOf(m), m.sectors) {
      RestoreSaved(m, payload, d, target);
      if m.kind == Full {
        forall i | 0 <= i < |d| ensures Saved(m, i) {
          FullSaved(m, i);
        }
      }
    }
  }
}
