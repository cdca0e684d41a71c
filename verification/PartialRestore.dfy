/** Restoring a HAOS archive: for which saved tables the plan is always accepted and always leaves the tables of the disk
    as it announced. */
module PartialRestore {
  import opened Bytes
  import opened Gpt
  import opened GptRepair
  import opened Disk
  import opened Archive
  import opened ArchiveFile
  import opened Plan
  import opened Operations

  /** `m` and `payload` are an archive of the table `p`, `t` that opens and verifies, and `d` is a disk, captured as `c`,
      that it may be planned for. */
  predicate MayBePlanned(m: Meta, payload: seq<byte>, c: Snapshot, d: seq<byte>, p: seq<byte>, t: seq<byte>,
                         sectors: nat, sha: Hash) {
    && sectors > 34849 && m.kind == Haos && m.primary == p && m.tail == t && m.sectors == sectors
    && Meaningful(m) && Faithful(m, payload, sha)
    && TakenFrom(c, d, sectors) && ArchiveBuildable(m, c, sectors)
  }

  /** The range check passes, and the disk ends with the tables it had. */
  predicate Sound(m: Meta, payload: seq<byte>, c: Snapshot, d: seq<byte>, sectors: nat) {
    && Plannable(Segments(m, payload), sectors)
    && Settles(Work(Segments(m, payload), c.primary, c.tail), d, sectors)
  }

  ghost predicate AlwaysSound(p: seq<byte>, t: seq<byte>, sectors: nat, sha: Hash) {
    forall m, payload, c, d :: MayBePlanned(m, payload, c, d, p, t, sectors, sha) ==> Sound(m, payload, c, d, sectors)
  }

  /** The exact condition on a saved table: its eight places are non-empty, on the disk, apart, and out of both tables. */
  lemma PartialRestoreExactly(p: seq<byte>, t: seq<byte>, sectors: nat, sha: Hash)
    requires Accepted(p, t, sectors)
    ensures AlwaysSound(p, t, sectors, sha) <==>
      PlacesFit(EightExtents(p), sectors) && PlacesClear(EightExtents(p), sectors)
  {
    var places := EightExtents(p);
    if PlacesFit(places, sectors) && PlacesClear(places, sectors) {
      forall m, payload, c, d | MayBePlanned(m, payload, c, d, p, t, sectors, sha)
        ensures Sound(m, payload, c, d, sectors)
      {
        FittingSound(m, payload, c, d, p, t, sectors, sha);
      }
    } else {
      UnsoundArchive(p, t, sectors, sha);
    }
  }

  lemma UnsoundArchive(p: seq<byte>, t: seq<byte>, sectors: nat, sha: Hash)
    requires Accepted(p, t, sectors)
    requires !(PlacesFit(EightExtents(p), sectors) && PlacesClear(EightExtents(p), sectors))
    ensures !AlwaysSound(p, t, sectors, sha)
  {
    NotDenied(p, t, sectors);
    var places, d := EightExtents(p), WitnessDisk(p, t, sectors);
    var v: byte, k: nat, i: nat := 0, 0, 0;
    if PlacesFit(places, sectors) {
      v, k, i := Telltale(places, d, sectors);
    }
    WitnessMayBePlanned(p, t, sectors, v, sha);
    var m, payload := WitnessMeta(p, t, sectors, v, sha), Filled(places, v);
    assert !Sound(m, payload, WitnessCapture(p, t), d, sectors) by {
      SizesComplete(m, payload, places);
      SegmentsPlannable(m, payload, places);
      if PlacesFit(places, sectors) {
        Unsettled(m, payload, places, p, t, sectors, v, k, i);
      }
    }
  }

  /** Eight entries in use are enough. */
  lemma EightUsedSound(p: seq<byte>, t: seq<byte>, sectors: nat, sha: Hash)
    requires Accepted(p, t, sectors) && EightUsed(Array(p))
    ensures AlwaysSound(p, t, sectors, sha)
  {
    EightUsedFit(p, t, sectors);
    PartialRestoreExactly(p, t, sectors, sha);
  }

  /** A place in one of the tables does harm as soon as the disk that was saved and the disk that is restored differ
      there, in their boot sectors for one. */
  lemma StrayRestore(m: Meta, payload: seq<byte>, s: seq<byte>, c: Snapshot, d: seq<byte>, k: nat, i: nat)
    requires Plannable(Segments(m, payload), m.sectors) && Complete(m, payload) && Held(m, payload, s)
    requires TakenFrom(c, d, m.sectors) && |s| == |d|
    requires k < |m.ranges| && InExtent(m.ranges[k], i) && i < |d| && s[i] != d[i]
    requires i < HEAD || 512 * (m.sectors - 33) <= i
    ensures !Settles(Work(Segments(m, payload), c.primary, c.tail), d, m.sectors)
  {
    var ss := Segments(m, payload);
    RestoreSaved(m, payload, s, d);
    assert Saved(m, i) && Laid(d, ss)[i] == s[i];
    if i < HEAD {
      assert Laid(d, ss)[..HEAD][i] != d[..HEAD][i];
    } else {
      var o := 512 * (m.sectors - 33);
      assert Laid(d, ss)[o..][i - o] != d[o..][i - o];
    }
  }

  lemma FittingSound(m: Meta, payload: seq<byte>, c: Snapshot, d: seq<byte>, p: seq<byte>, t: seq<byte>, sectors: nat,
                     sha: Hash)
    requires MayBePlanned(m, payload, c, d, p, t, sectors, sha)
    requires PlacesFit(EightExtents(p), sectors) && PlacesClear(EightExtents(p), sectors)
    ensures Sound(m, payload, c, d, sectors)
  {
    MeaningfulParts(m);
    SegmentsPlannable(m, payload, EightExtents(p));
    HaosSettles(m, payload, EightExtents(p), c, d);
  }

  // An archive and a disk that show the condition to be needed.

  function Upto(places: seq<(nat, nat)>, k: nat): (n: nat)
    requires k <= |places|
  {
    if k == 0 then 0 else Upto(places, k - 1) + places[k - 1].1
  }

  lemma {:induction false} UptoBefore(ranges: seq<Extent>, places: seq<(nat, nat)>, k: nat)
    requires Matches(ranges, places) && k <= |places|
    ensures Before(ranges, k) == Upto(places, k)
  {
    if k > 0 {
      UptoBefore(ranges, places, k - 1);
      assert (ranges[k - 1].lba, ranges[k - 1].bytes) == places[k - 1];
    }
  }

  lemma {:induction false} UptoGrows(places: seq<(nat, nat)>, j: nat, k: nat)
    requires j <= k <= |places|
    ensures Upto(places, j) <= Upto(places, k)
    decreases k
  {
    if j < k {
      UptoGrows(places, j, k - 1);
    }
  }

  /** As many bytes as the places hold, all of them `v`. */
  function Filled(places: seq<(nat, nat)>, v: byte): (payload: seq<byte>)
    ensures |payload| == Upto(places, |places|)
  {
    seq(Upto(places, |places|), _ => v)
  }

  function FilledRanges(places: seq<(nat, nat)>, v: byte, sha: Hash): (ranges: seq<Extent>)
    ensures Matches(ranges, places)
  {
    seq(|places|, k requires 0 <= k < |places| => Extent(places[k].0, places[k].1, sha(seq(places[k].1, _ => v))))
  }

  function WitnessMeta(p: seq<byte>, t: seq<byte>, sectors: nat, v: byte, sha: Hash): Meta {
    Meta(4, Haos, sectors, FilledRanges(EightExtents(p), v, sha), p, t, "HAOS")
  }

  function WitnessCapture(p: seq<byte>, t: seq<byte>): Snapshot {
    Snapshot(p, Zeros(RESERVE - HEAD), t)
  }

  function WitnessDisk(p: seq<byte>, t: seq<byte>, sectors: nat): (d: seq<byte>)
    requires |p| == HEAD && |t| == TAIL && sectors > 34849
    ensures |d| == 512 * sectors
  {
    p + Zeros(512 * sectors - HEAD - TAIL) + t
  }

  lemma WitnessTaken(p: seq<byte>, t: seq<byte>, sectors: nat)
    requires |p| == HEAD && |t| == TAIL && sectors > 34849
    ensures TakenFrom(WitnessCapture(p, t), WitnessDisk(p, t, sectors), sectors)
  {
    var d := WitnessDisk(p, t, sectors);
    assert d[..HEAD] == p && d[512 * (sectors - 33)..] == t;
    assert d[HEAD..RESERVE] == Zeros(RESERVE - HEAD);
  }

  lemma NotDenied(p: seq<byte>, t: seq<byte>, sectors: nat)
    requires Accepted(p, t, sectors)
    ensures |p| == HEAD && |t| == TAIL && 34849 < sectors < U32
    ensures !Denied(p[512..]) && !Denied(t)
  {
    assert Header(p)[..8][0] == p[512..][0] == 69;
    assert BackupHeader(t)[..8][0] == t[ENTRIES] == 69;
  }

  lemma FilledHashed(m: Meta, places: seq<(nat, nat)>, v: byte, sha: Hash)
    requires m.ranges == FilledRanges(places, v, sha)
    ensures Complete(m, Filled(places, v)) && Hashed(m, Filled(places, v), sha, |m.ranges|)
  {
    var payload := Filled(places, v);
    UptoBefore(m.ranges, places, |places|);
    forall k | 0 <= k < |places| ensures RangeHashed(m, payload, sha, k) {
      UptoBefore(m.ranges, places, k);
      UptoBefore(m.ranges, places, k + 1);
      UptoGrows(places, k + 1, |places|);
      assert Slice(m, payload, k) == seq(places[k].1, _ => v);
    }
  }

  lemma WitnessMayBePlanned(p: seq<byte>, t: seq<byte>, sectors: nat, v: byte, sha: Hash)
    requires Accepted(p, t, sectors)
    ensures |p| == HEAD && |t| == TAIL && 34849 < sectors < U32
    ensures MayBePlanned(WitnessMeta(p, t, sectors, v, sha), Filled(EightExtents(p), v), WitnessCapture(p, t),
                         WitnessDisk(p, t, sectors), p, t, sectors, sha)
  {
    NotDenied(p, t, sectors);
    WitnessTaken(p, t, sectors);
    FilledHashed(WitnessMeta(p, t, sectors, v, sha), EightExtents(p), v, sha);
  }

  lemma SizesComplete(m: Meta, payload: seq<byte>, places: seq<(nat, nat)>)
    requires Matches(m.ranges, places) && |payload| == Upto(places, |places|)
    ensures Complete(m, payload)
  {
    UptoBefore(m.ranges, places, |places|);
  }

  /** A place on the disk that is not out of both tables covers a byte of one of them. */
  lemma Reaches(a: (nat, nat), sectors: nat) returns (i: nat)
    requires sectors > 34849 && OnDisk(a, sectors) && !(34 <= a.0 && a.0 + a.1 / 512 + 33 <= sectors)
    ensures 512 * a.0 <= i < 512 * a.0 + a.1 <= 512 * sectors && (i < HEAD || 512 * (sectors - 33) <= i)
  {
    i := if a.0 < 34 then 512 * a.0 else 512 * a.0 + a.1 - 1;
  }

  predicate Shown(places: seq<(nat, nat)>, d: seq<byte>, sectors: nat, v: byte, k: nat, i: nat) {
    && k < |places| && 512 * places[k].0 <= i < 512 * places[k].0 + places[k].1
    && sectors > 34849 && i < |d| == 512 * sectors && d[i] != v && (i < HEAD || 512 * (sectors - 33) <= i)
  }

  /** A byte value that a table has not got at a byte which one of its own places covers. */
  lemma Telltale(places: seq<(nat, nat)>, d: seq<byte>, sectors: nat) returns (v: byte, k: nat, i: nat)
    requires sectors > 34849 && |d| == 512 * sectors && PlacesFit(places, sectors) && !PlacesClear(places, sectors)
    ensures Shown(places, d, sectors, v, k, i)
  {
    k :| 0 <= k < |places| && !(34 <= places[k].0 && places[k].0 + places[k].1 / 512 + 33 <= sectors);
    i := Reaches(places[k], sectors);
    v := if d[i] == 0 then 1 else 0;
  }

  lemma Unsettled(m: Meta, payload: seq<byte>, places: seq<(nat, nat)>, p: seq<byte>, t: seq<byte>, sectors: nat, v: byte,
                  k: nat, i: nat)
    requires |p| == HEAD && |t| == TAIL && 34849 < sectors == m.sectors
    requires Matches(m.ranges, places) && payload == Filled(places, v) && Complete(m, payload)
    requires Plannable(Segments(m, payload), sectors)
    requires Shown(places, WitnessDisk(p, t, sectors), sectors, v, k, i)
    ensures !Settles(Work(Segments(m, payload), p, t), WitnessDisk(p, t, sectors), sectors)
  {
    var d, ss := WitnessDisk(p, t, sectors), Segments(m, payload);
    SegmentsShape(m, payload, k);
    assert (m.ranges[k].lba, m.ranges[k].bytes) == places[k];
    LaidAt(d, ss, k, i);
    assert Laid(d, ss)[i] == v;
    WitnessTaken(p, t, sectors);
    if i < HEAD {
      assert Laid(d, ss)[..HEAD][i] != p[i];
    } else {
      assert Laid(d, ss)[512 * (sectors - 33)..][i - 512 * (sectors - 33)] != t[i - 512 * (sectors - 33)];
    }
  }
}
