/** `check` and `require_k11c` as gpt.rs runs them, proved to decide Healthy and Accepted. */
module GptCheck {
  import opened Bytes
  import opened Crc32
  import opened Gpt
  import opened GptRepair
  import opened Spans

  datatype Issue = CaptureSize | PrimaryHeader | BackupHeaderIssue | EntriesCrc | CopiesDiffer
                 | ProtectiveMbrIssue | UsableBounds | PartitionBounds | PartitionOverlap

  datatype Report = Report(issues: set<Issue>, partitions: nat) {
    predicate Ok() { issues == {} }
  }

  method ComputeHeaderOk(h: seq<byte>, current: nat, other: nat, entries: nat) returns (ok: bool)
    ensures ok <==> HeaderOk(h, current, other, entries)
  {
    if |h| != 512 || h[..8] != SIGNATURE { return false; }
    var size := U32At(h, 12);
    if !(92 <= size <= 512) { return false; }
    var bytes := Splice(h[..size], 16, Zeros(4));
    assert bytes == Blanked(h)[..size];
    var c := Compute(bytes);
    return c == U32At(h, 16) && U32At(h, 8) == 0x10000 && U32At(h, 20) == 0 && U64At(h, 24) == current
        && U64At(h, 32) == other && U64At(h, 72) == entries && U32At(h, 80) == 128 && U32At(h, 84) == 128;
  }

  method TypeIsZero(x: seq<byte>, i: nat) returns (zero: bool)
    requires |x| == ENTRIES && i < 128
    ensures zero <==> !Used(x, i)
  {
    var k := 128 * i;
    while k < 128 * i + 16
      invariant 128 * i <= k <= 128 * i + 16
      invariant forall j :: 128 * i <= j < k ==> x[j] == 0
    {
      if x[k] != 0 { return false; }
      k := k + 1;
    }
    return true;
  }

  /** The used entries among the first `n`, in order. */
  function UsedUpTo(x: seq<byte>, n: nat): (s: seq<nat>)
    requires |x| == ENTRIES && n <= 128
    ensures forall k :: 0 <= k < |s| ==> s[k] < n && Used(x, s[k])
    ensures forall j, k :: 0 <= j < k < |s| ==> s[j] < s[k]
    ensures forall i :: 0 <= i < n && Used(x, i) ==> i in s
  {
    if n == 0 then []
    else if Used(x, n - 1) then UsedUpTo(x, n - 1) + [n - 1]
    else UsedUpTo(x, n - 1)
  }

  function Extent(x: seq<byte>, i: nat): Span
    requires |x| == ENTRIES && i < 128
  {
    (Start(x, i), Finish(x, i))
  }

  function Extents(x: seq<byte>, n: nat): (s: seq<Span>)
    requires |x| == ENTRIES && n <= 128
    ensures |s| == |UsedUpTo(x, n)|
    ensures forall k :: 0 <= k < |s| ==> s[k] == Extent(x, UsedUpTo(x, n)[k])
  {
    if n == 0 then []
    else if Used(x, n - 1) then Extents(x, n - 1) + [Extent(x, n - 1)]
    else Extents(x, n - 1)
  }

  lemma ApartThenDisjoint(x: seq<byte>)
    requires |x| == ENTRIES && AllApart(Extents(x, 128), 0)
    ensures Disjoint(x)
  {
    var u, s := UsedUpTo(x, 128), Extents(x, 128);
    forall i, j | 0 <= i < j < 128 && Used(x, i) && Used(x, j)
      ensures Finish(x, i) < Start(x, j) || Finish(x, j) < Start(x, i)
    {
      var a :| 0 <= a < |u| && u[a] == i;
      var b :| 0 <= b < |u| && u[b] == j;
      assert a < b;
      assert Apart(s[a], s[b], 0);
    }
  }

  lemma DisjointThenApart(x: seq<byte>)
    requires |x| == ENTRIES && Disjoint(x)
    ensures AllApart(Extents(x, 128), 0)
  {
    var u, s := UsedUpTo(x, 128), Extents(x, 128);
    forall a, b | 0 <= a < b < |s| ensures Apart(s[a], s[b], 0) {
      assert u[a] < u[b];
    }
  }

  method CollectExtents(x: seq<byte>, first: nat, last: nat) returns (ranges: seq<Span>, bounds: bool)
    requires |x| == ENTRIES
    ensures ranges == Extents(x, 128)
    ensures bounds <==> InBounds(x, first, last)
  {
    ranges := [];
    bounds := true;
    var i := 0;
    while i < 128
      invariant 0 <= i <= 128
      invariant ranges == Extents(x, i)
      invariant bounds <==> forall k :: 0 <= k < i && Used(x, k) ==> first <= Start(x, k) <= Finish(x, k) <= last
    {
      var zero := TypeIsZero(x, i);
      if !zero {
        var start, finish := U64At(x, 128 * i + 32), U64At(x, 128 * i + 40);
        if start < first || finish > last || start > finish { bounds := false; }
        ranges := ranges + [(start, finish)];
      }
      i := i + 1;
    }
  }

  /** With every span proper, no sorted neighbours overlapping means no two partitions overlapping. */
  lemma NeighboursDecide(x: seq<byte>, first: nat, last: nat)
    requires |x| == ENTRIES && InBounds(x, first, last)
    ensures Stepped(Sort(Extents(x, 128)), 0) <==> Disjoint(x)
  {
    var ranges := Extents(x, 128);
    assert Proper(ranges, 0);
    NeighboursSuffice(ranges, 0);
    if Disjoint(x) {
      DisjointThenApart(x);
    } else if AllApart(ranges, 0) {
      ApartThenDisjoint(x);
    }
  }

  method CheckLayout(x: seq<byte>, first: nat, last: nat) returns (partitions: nat, bounds: bool, overlap: bool)
    requires |x| == ENTRIES
    ensures partitions == |UsedUpTo(x, 128)|
    ensures bounds <==> InBounds(x, first, last)
    ensures overlap <==> !Stepped(Sort(Extents(x, 128)), 0)
    ensures bounds ==> (overlap <==> !Disjoint(x))
  {
    var ranges;
    ranges, bounds := CollectExtents(x, first, last);
    var s := Sort(ranges);
    overlap := NeighboursOverlap(s, 0);
    partitions := |ranges|;
    if bounds {
      NeighboursDecide(x, first, last);
    }
  }

  /** `issue` pushed unless its test passed. */
  function Noted(issues: set<Issue>, ok: bool, issue: Issue): set<Issue> {
    if ok then issues else issues + {issue}
  }

  /** The tests of `check` behind its size test, in order. */
  datatype Tests = Tests(okA: bool, okB: bool, crcs: bool, same: bool, mbr: bool, usable: bool, bounds: bool, apart: bool)

  function Issues(t: Tests): set<Issue> {
    var issues := Noted(Noted({}, t.okA, PrimaryHeader), t.okB, BackupHeaderIssue);
    var issues := Noted(Noted(issues, t.crcs, EntriesCrc), t.same, CopiesDiffer);
    var issues := Noted(Noted(issues, t.mbr, ProtectiveMbrIssue), t.usable, UsableBounds);
    Noted(Noted(issues, t.bounds, PartitionBounds), t.apart, PartitionOverlap)
  }

  /** The report names exactly the tests that failed. */
  lemma IssuesExactly(t: Tests)
    ensures Issues(t) == {} <==> t == Tests(true, true, true, true, true, true, true, true)
    ensures (PrimaryHeader in Issues(t) <==> !t.okA) && (BackupHeaderIssue in Issues(t) <==> !t.okB)
    ensures (EntriesCrc in Issues(t) <==> !t.crcs) && (CopiesDiffer in Issues(t) <==> !t.same)
    ensures (ProtectiveMbrIssue in Issues(t) <==> !t.mbr) && (UsableBounds in Issues(t) <==> !t.usable)
    ensures (PartitionBounds in Issues(t) <==> !t.bounds) && (PartitionOverlap in Issues(t) <==> !t.apart)
    ensures CaptureSize !in Issues(t)
  {
  }

  predicate Usable(h: seq<byte>, sectors: nat)
    requires |h| == 512
  {
    34 <= U64At(h, 40) <= U64At(h, 48) && U64At(h, 48) + 34 <= sectors
  }

  function TestsOf(a: seq<byte>, x: seq<byte>, b: seq<byte>, y: seq<byte>, mbr: bool, sectors: nat): Tests
    requires |a| == |b| == 512 && |x| == |y| == ENTRIES && 34849 < sectors < U32
  {
    Tests(HeaderOk(a, 1, sectors - 1, 2), HeaderOk(b, sectors - 1, 1, sectors - 33),
          Crc(x) == U32At(a, 88) && Crc(y) == U32At(b, 88), x == y && Same(a, b, 40, 72), mbr, Usable(a, sectors),
          InBounds(x, U64At(a, 40), U64At(a, 48)), Stepped(Sort(Extents(x, 128)), 0))
  }

  method CheckCopies(a: seq<byte>, x: seq<byte>, b: seq<byte>, y: seq<byte>, sectors: nat)
    returns (okA: bool, okB: bool, crcs: bool, same: bool)
    requires |a| == |b| == 512 && |x| == |y| == ENTRIES && 34849 < sectors < U32
    ensures okA == HeaderOk(a, 1, sectors - 1, 2)
    ensures okB == HeaderOk(b, sectors - 1, 1, sectors - 33)
    ensures crcs == (Crc(x) == U32At(a, 88) && Crc(y) == U32At(b, 88))
    ensures same == (x == y && Same(a, b, 40, 72))
  {
    var end := sectors - 1;
    okA := ComputeHeaderOk(a, 1, end, 2);
    okB := ComputeHeaderOk(b, end, 1, end - 32);
    var cx := Compute(x);
    var cy := Compute(y);
    crcs := cx == U32At(a, 88) && cy == U32At(b, 88);
    SlicesSame(a, b);
    same := x == y && a[56..72] == b[56..72] && a[40..56] == b[40..56];
  }

  /** The conjuncts as the code tests them, the layout on one copy only. */
  predicate Sound(a: seq<byte>, x: seq<byte>, b: seq<byte>, y: seq<byte>, mbr: bool, sectors: nat)
    requires |a| == |b| == 512 && |x| == |y| == ENTRIES && 34849 < sectors < U32
  {
    && HeaderOk(a, 1, sectors - 1, 2)
    && HeaderOk(b, sectors - 1, 1, sectors - 33)
    && Crc(x) == U32At(a, 88) && Crc(y) == U32At(b, 88)
    && x == y && Same(a, b, 40, 72)
    && mbr
    && Layout(a, x, sectors)
  }

  lemma SoundExactly(a: seq<byte>, x: seq<byte>, b: seq<byte>, y: seq<byte>, mbr: bool, sectors: nat)
    requires |a| == |b| == 512 && |x| == |y| == ENTRIES && 34849 < sectors < U32
    ensures Issues(TestsOf(a, x, b, y, mbr, sectors)) == {} <==> Sound(a, x, b, y, mbr, sectors)
  {
    IssuesExactly(TestsOf(a, x, b, y, mbr, sectors));
    if InBounds(x, U64At(a, 40), U64At(a, 48)) {
      NeighboursDecide(x, U64At(a, 40), U64At(a, 48));
    }
  }

  method CheckParts(a: seq<byte>, x: seq<byte>, b: seq<byte>, y: seq<byte>, mbr: bool, sectors: nat)
    returns (r: Report)
    requires |a| == |b| == 512 && |x| == |y| == ENTRIES && 34849 < sectors < U32
    ensures r == Report(Issues(TestsOf(a, x, b, y, mbr, sectors)), |UsedUpTo(x, 128)|)
  {
    var okA, okB, crcs, same := CheckCopies(a, x, b, y, sectors);
    var first, last := U64At(a, 40), U64At(a, 48);
    var usable := !(first < 34 || last >= sectors - 33 || first > last);
    var partitions, bounds, overlap := CheckLayout(x, first, last);
    var tests := Tests(okA, okB, crcs, same, mbr, usable, bounds, !overlap);
    assert tests == TestsOf(a, x, b, y, mbr, sectors);
    r := Report(Issues(tests), partitions);
  }

  /** `check`: the tests of both copies, each failure under its own issue (IssuesExactly). */
  function TestsOn(primary: seq<byte>, tail: seq<byte>, sectors: nat): Tests
    requires Captured(primary, tail, sectors)
  {
    TestsOf(Header(primary), Array(primary), BackupHeader(tail), BackupArray(tail), ProtectiveMbr(primary), sectors)
  }

  method ComputeMbr(p: seq<byte>) returns (ok: bool)
    requires |p| == HEAD
    ensures ok == ProtectiveMbr(p)
  {
    return p[510..512] == [0x55, 0xaa] && p[450] == 0xee;
  }

  method CheckCaptured(primary: seq<byte>, tail: seq<byte>, sectors: nat) returns (r: Report)
    requires Captured(primary, tail, sectors)
    ensures r == Report(Issues(TestsOn(primary, tail, sectors)), |UsedUpTo(Array(primary), 128)|)
  {
    var mbr := ComputeMbr(primary);
    r := CheckParts(Header(primary), Array(primary), BackupHeader(tail), BackupArray(tail), mbr, sectors);
  }

  method Check(primary: seq<byte>, tail: seq<byte>, sectors: nat) returns (r: Report)
    requires sectors < U32
    ensures r.Ok() <==> Healthy(primary, tail, sectors)
    ensures !Captured(primary, tail, sectors) ==> r == Report({CaptureSize}, 0)
    ensures Captured(primary, tail, sectors) ==>
      r == Report(Issues(TestsOn(primary, tail, sectors)), |UsedUpTo(Array(primary), 128)|)
  {
    if |primary| != 34 * 512 || |tail| != 33 * 512 || sectors <= 34849 {
      return Report({CaptureSize}, 0);
    }
    r := CheckCaptured(primary, tail, sectors);
    TestsHealthy(primary, tail, sectors);
  }

  lemma TestsHealthy(p: seq<byte>, t: seq<byte>, sectors: nat)
    requires Captured(p, t, sectors)
    ensures Issues(TestsOn(p, t, sectors)) == {} <==> Healthy(p, t, sectors)
  {
    SoundExactly(Header(p), Array(p), BackupHeader(t), BackupArray(t), ProtectiveMbr(p), sectors);
    SoundIsHealthy(p, t, sectors);
  }

  lemma SlicesSame(a: seq<byte>, b: seq<byte>)
    requires |a| == |b| == 512
    ensures Same(a, b, 40, 72) <==> a[56..72] == b[56..72] && a[40..56] == b[40..56]
  {
    if a[56..72] == b[56..72] && a[40..56] == b[40..56] {
      forall i | 40 <= i < 72 ensures a[i] == b[i] {
        if i < 56 {
          assert a[i] == a[40..56][i - 40] && b[i] == b[40..56][i - 40];
        } else {
          assert a[i] == a[56..72][i - 56] && b[i] == b[56..72][i - 56];
        }
      }
    }
  }

  lemma SoundIsHealthy(p: seq<byte>, t: seq<byte>, sectors: nat)
    requires Captured(p, t, sectors)
    ensures Sound(Header(p), Array(p), BackupHeader(t), BackupArray(t), ProtectiveMbr(p), sectors)
       <==> Healthy(p, t, sectors)
  {
    if Sound(Header(p), Array(p), BackupHeader(t), BackupArray(t), ProtectiveMbr(p), sectors) {
      LayoutSame(Header(p), BackupHeader(t), Array(p), sectors);
    }
  }
}
