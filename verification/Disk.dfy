/** Disks as bytes in 512-byte sectors, and the write segments a storage operation is turned into. */
module Disk {
  import opened Bytes
  import opened Spans

  /** What is to be written, and where: an LBA and whole sectors from there on. */
  datatype Segment = Segment(lba: nat, content: seq<byte>) {
    function From(): nat { 512 * lba }
    function To(): nat { 512 * lba + |content| }
  }

  predicate Covers(s: Segment, i: nat) {
    s.From() <= i < s.To()
  }

  predicate Inside(ss: seq<Segment>, size: nat) {
    forall k :: 0 <= k < |ss| ==> ss[k].To() <= size
  }

  predicate Touches(ss: seq<Segment>, i: nat) {
    exists k :: 0 <= k < |ss| && Covers(ss[k], i)
  }

  predicate Separate(ss: seq<Segment>) {
    forall j, k :: 0 <= j < k < |ss| ==> ss[j].To() <= ss[k].From() || ss[k].To() <= ss[j].From()
  }

  /** Whole sectors, on the disk, and no two of the segments on the same sector. */
  predicate Plannable(ss: seq<Segment>, sectors: nat) {
    && (forall k :: 0 <= k < |ss| ==> 0 < |ss[k].content| && |ss[k].content| % 512 == 0)
    && Inside(ss, 512 * sectors)
    && Separate(ss)
  }

  /** The disk after writing one segment. */
  function Written(d: seq<byte>, s: Segment): (r: seq<byte>)
    requires s.To() <= |d|
    ensures |r| == |d|
  {
    seq(|d|, i requires 0 <= i < |d| => if s.From() <= i < s.To() then s.content[i - s.From()] else d[i])
  }

  /** The disk after writing the segments one after the other. */
  function Laid(d: seq<byte>, ss: seq<Segment>): (r: seq<byte>)
    requires Inside(ss, |d|)
    ensures |r| == |d|
  {
    if ss == [] then d
    else
      Written(Laid(d, ss[..|ss| - 1]), ss[|ss| - 1])
  }

  lemma {:induction false} LaidOutside(d: seq<byte>, ss: seq<Segment>, i: nat)
    requires Inside(ss, |d|) && i < |d| && !Touches(ss, i)
    ensures Laid(d, ss)[i] == d[i]
  {
    if ss != [] {
      var front, s := ss[..|ss| - 1], ss[|ss| - 1];
      assert !Covers(s, i);
      assert forall k :: 0 <= k < |front| ==> !Covers(ss[k], i);
      LaidOutside(d, front, i);
    }
  }

  /** The last segment to cover a byte decides it. */
  lemma {:induction false} LaidByte(d: seq<byte>, ss: seq<Segment>, k: nat, i: nat)
    requires Inside(ss, |d|) && k < |ss| && Covers(ss[k], i)
    requires forall j :: k < j < |ss| ==> !Covers(ss[j], i)
    ensures i < |d| && Laid(d, ss)[i] == ss[k].content[i - ss[k].From()]
  {
    var front, s := ss[..|ss| - 1], ss[|ss| - 1];
    assert ss[k].To() <= |d|;
    if k < |ss| - 1 {
      assert front[k] == ss[k] && !Covers(s, i);
      LaidByte(d, front, k, i);
    }
  }

  lemma LaidBeside(d: seq<byte>, ss: seq<Segment>, lo: nat, hi: nat)
    requires Inside(ss, |d|) && lo <= hi <= |d|
    requires forall k :: 0 <= k < |ss| ==> ss[k].To() <= lo || hi <= ss[k].From()
    ensures Laid(d, ss)[lo..hi] == d[lo..hi]
  {
    forall i | lo <= i < hi ensures Laid(d, ss)[i] == d[i] {
      assert forall k :: 0 <= k < |ss| ==> !Covers(ss[k], i);
      LaidOutside(d, ss, i);
    }
  }

  /** The bytes from `lo` to `hi` are left alone by the segments from number `k` on. */
  predicate Spared(ss: seq<Segment>, k: nat, lo: nat, hi: nat) {
    forall j :: k <= j < |ss| ==> ss[j].To() <= lo || hi <= ss[j].From()
  }

  lemma SparedByte(ss: seq<Segment>, k: nat, lo: nat, hi: nat, i: nat)
    requires Spared(ss, k, lo, hi) && lo <= i < hi
    ensures forall j :: k <= j < |ss| ==> !Covers(ss[j], i)
  {
  }

  lemma LaidPartByte(d: seq<byte>, ss: seq<Segment>, k: nat, from: nat, to: nat, i: nat)
    requires Inside(ss, |d|) && k < |ss| && from <= to <= |ss[k].content|
    requires Spared(ss, k + 1, ss[k].From() + from, ss[k].From() + to)
    requires ss[k].From() + from <= i < ss[k].From() + to
    ensures i < |d| && Laid(d, ss)[i] == ss[k].content[i - ss[k].From()]
  {
    SparedByte(ss, k + 1, ss[k].From() + from, ss[k].From() + to, i);
    LaidByte(d, ss, k, i);
  }

  /** From `o + from` up to `o + to`, `a` holds what `b` holds from `from` up to `to`. */
  predicate Agrees(a: seq<byte>, b: seq<byte>, o: nat, from: nat, to: nat) {
    && from <= to <= |b|
    && o + to <= |a|
    && forall i :: o + from <= i < o + to ==> a[i] == b[i - o]
  }

  lemma AgreesSlices(a: seq<byte>, b: seq<byte>, o: nat, from: nat, to: nat)
    requires Agrees(a, b, o, from, to)
    ensures a[o + from..o + to] == b[from..to]
  {
    var x, y := a[o + from..o + to], b[from..to];
    forall i | 0 <= i < to - from ensures x[i] == y[i] {
      assert x[i] == a[o + from + i];
    }
  }

  lemma LaidAgrees(d: seq<byte>, ss: seq<Segment>, k: nat, from: nat, to: nat)
    requires Inside(ss, |d|) && k < |ss| && from <= to <= |ss[k].content|
    requires Spared(ss, k + 1, ss[k].From() + from, ss[k].From() + to)
    ensures Agrees(Laid(d, ss), ss[k].content, ss[k].From(), from, to)
  {
    assert ss[k].To() <= |d|;
    forall i | ss[k].From() + from <= i < ss[k].From() + to
      ensures Laid(d, ss)[i] == ss[k].content[i - ss[k].From()]
    {
      LaidPartByte(d, ss, k, from, to, i);
    }
  }

  /** What part of a segment survives the segments written after it. */
  lemma LaidPart(d: seq<byte>, ss: seq<Segment>, k: nat, from: nat, to: nat)
    requires Inside(ss, |d|) && k < |ss| && from <= to <= |ss[k].content|
    requires Spared(ss, k + 1, ss[k].From() + from, ss[k].From() + to)
    ensures ss[k].From() + to <= |d|
    ensures Laid(d, ss)[ss[k].From() + from..ss[k].From() + to] == ss[k].content[from..to]
  {
    LaidAgrees(d, ss, k, from, to);
    AgreesSlices(Laid(d, ss), ss[k].content, ss[k].From(), from, to);
  }

  /** Equal runs have equal parts. */
  lemma SubSlices(a: seq<byte>, b: seq<byte>, p: nat, q: nat, n: nat, i: nat, j: nat)
    requires p + n <= |a| && q + n <= |b| && a[p..p + n] == b[q..q + n] && i <= j <= n
    ensures a[p + i..p + j] == b[q + i..q + j]
  {
    var x, y := a[p + i..p + j], b[q + i..q + j];
    forall k | 0 <= k < j - i ensures x[k] == y[k] {
      assert a[p..p + n][i + k] == b[q..q + n][i + k];
    }
  }

  lemma LaidWhole(d: seq<byte>, ss: seq<Segment>, k: nat)
    requires Inside(ss, |d|) && k < |ss|
    requires forall j :: k < j < |ss| ==> ss[j].To() <= ss[k].From() || ss[k].To() <= ss[j].From()
    ensures ss[k].To() <= |d|
    ensures Laid(d, ss)[ss[k].From()..ss[k].To()] == ss[k].content
  {
    LaidPart(d, ss, k, 0, |ss[k].content|);
    assert ss[k].content[0..|ss[k].content|] == ss[k].content;
  }

  /** The same at the ends of the disk: `n` bytes at the front, or from `at` on. */
  lemma LaidFront(d: seq<byte>, ss: seq<Segment>, k: nat, n: nat)
    requires Inside(ss, |d|) && k < |ss| && ss[k].From() == 0 && n <= |ss[k].content|
    requires forall j :: k < j < |ss| ==> n <= ss[j].From()
    ensures n <= |d| && Laid(d, ss)[..n] == ss[k].content[..n]
  {
    LaidPart(d, ss, k, 0, n);
    assert Laid(d, ss)[0..n] == Laid(d, ss)[..n] && ss[k].content[0..n] == ss[k].content[..n];
  }

  lemma LaidEnd(d: seq<byte>, ss: seq<Segment>, k: nat)
    requires Inside(ss, |d|) && k < |ss| && ss[k].To() == |d|
    requires forall j :: k < j < |ss| ==> ss[j].To() <= ss[k].From()
    ensures Laid(d, ss)[ss[k].From()..] == ss[k].content
  {
    LaidWhole(d, ss, k);
    assert Laid(d, ss)[ss[k].From()..|d|] == Laid(d, ss)[ss[k].From()..];
  }

  lemma LaidFrontBeside(d: seq<byte>, ss: seq<Segment>, n: nat)
    requires Inside(ss, |d|) && n <= |d|
    requires forall k :: 0 <= k < |ss| ==> n <= ss[k].From()
    ensures Laid(d, ss)[..n] == d[..n]
  {
    LaidBeside(d, ss, 0, n);
    assert Laid(d, ss)[0..n] == Laid(d, ss)[..n] && d[0..n] == d[..n];
  }

  lemma LaidEndBeside(d: seq<byte>, ss: seq<Segment>, at: nat)
    requires Inside(ss, |d|) && at <= |d|
    requires forall k :: 0 <= k < |ss| ==> ss[k].To() <= at
    ensures Laid(d, ss)[at..] == d[at..]
  {
    LaidBeside(d, ss, at, |d|);
    assert Laid(d, ss)[at..|d|] == Laid(d, ss)[at..] && d[at..|d|] == d[at..];
  }

  /** Segments kept apart are all on the disk in the end, whatever their order. */
  lemma LaidAt(d: seq<byte>, ss: seq<Segment>, k: nat, i: nat)
    requires Inside(ss, |d|) && Separate(ss) && k < |ss| && Covers(ss[k], i)
    ensures Laid(d, ss)[i] == ss[k].content[i - ss[k].From()]
  {
    LaidByte(d, ss, k, i);
  }

  /** A segment that holds what the disk `d` holds at its place. */
  predicate Copies(s: Segment, d: seq<byte>) {
    s.To() <= |d| && s.content == d[s.From()..s.To()]
  }

  /** Writing such segments onto another disk makes it agree with `d` exactly there. */
  lemma LaidCopies(ss: seq<Segment>, d: seq<byte>, target: seq<byte>, i: nat)
    requires Separate(ss) && |d| == |target| && i < |d| && Inside(ss, |target|)
    requires forall k :: 0 <= k < |ss| ==> Copies(ss[k], d)
    ensures Laid(target, ss)[i] == if Touches(ss, i) then d[i] else target[i]
  {
    if Touches(ss, i) {
      var k :| 0 <= k < |ss| && Covers(ss[k], i);
      LaidAt(target, ss, k, i);
      assert Copies(ss[k], d);
    } else {
      LaidOutside(target, ss, i);
    }
  }

  // `validate_ranges`.

  function Spanned(ss: seq<Segment>): (r: seq<Span>)
    ensures |r| == |ss|
  {
    seq(|ss|, k requires 0 <= k < |ss| => (ss[k].lba, ss[k].lba + |ss[k].content| / 512))
  }

  predicate Aligned(ss: seq<Segment>, n: nat, sectors: nat)
    requires n <= |ss|
  {
    forall k :: 0 <= k < n ==>
      && 0 < |ss[k].content| && |ss[k].content| % 512 == 0
      && ss[k].lba + |ss[k].content| / 512 <= sectors
  }

  /** Sorting and comparing neighbours finds every overlap. */
  lemma SpansDecide(ss: seq<Segment>, sectors: nat)
    requires Aligned(ss, |ss|, sectors)
    ensures Stepped(Sort(Spanned(ss)), 1) <==> Plannable(ss, sectors)
  {
    var r := Spanned(ss);
    assert Proper(r, 1);
    NeighboursSuffice(r, 1);
    forall j, k | 0 <= j < k < |ss|
      ensures Apart(r[j], r[k], 1) <==> ss[j].To() <= ss[k].From() || ss[k].To() <= ss[j].From()
    {
    }
  }

  method ValidateRanges(ss: seq<Segment>, sectors: nat) returns (ok: bool)
    ensures ok <==> Plannable(ss, sectors)
  {
    var spans: seq<Span> := [];
    var i := 0;
    while i < |ss|
      invariant 0 <= i <= |ss|
      invariant Aligned(ss, i, sectors)
      invariant spans == Spanned(ss)[..i]
    {
      var end := ss[i].lba + |ss[i].content| / 512;
      if |ss[i].content| == 0 || |ss[i].content| % 512 != 0 || end > sectors { return false; }
      spans := spans + [(ss[i].lba, end)];
      i := i + 1;
    }
    assert spans == Spanned(ss);
    SpansDecide(ss, sectors);
    var overlap := NeighboursOverlap(Sort(spans), 1);
    return !overlap;
  }
}
