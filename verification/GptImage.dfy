/** gpt_image.py: the inspection of a whole image by the scripts, which compares both copies with each other and not
    just each with itself. */
module GptImage {
  import opened Bytes
  import opened Crc32
  import opened Gpt
  import opened GptRepair
  import opened GptCheck
  import opened GptEdit
  import opened Spans

  // Names, as Python decodes them: all 36 units, before the terminator is looked for.

  predicate High(u: nat) {
    0xD800 <= u < 0xDC00
  }

  predicate Low(u: nat) {
    0xDC00 <= u < 0xE000
  }

  /** Every surrogate is half of a pair: a low one exactly behind each high one. */
  predicate Decodable(x: seq<byte>, i: nat)
    requires |x| == ENTRIES && i < 128
  {
    && !Low(Unit(x, i, 0)) && !High(Unit(x, i, 35))
    && forall k :: 0 <= k < 35 ==> (High(Unit(x, i, k)) <==> Low(Unit(x, i, k + 1)))
  }

  /** `decode("utf-16-le")`: raises at the first surrogate that is alone. */
  method Decodes(x: seq<byte>, i: nat) returns (ok: bool)
    requires |x| == ENTRIES && i < 128
    ensures ok <==> Decodable(x, i)
  {
    var k := 0;
    while k < 36
      invariant 0 <= k <= 36
      invariant forall m :: 0 <= m < k && m < 35 && m + 1 < k ==> (High(Unit(x, i, m)) <==> Low(Unit(x, i, m + 1)))
      invariant k > 0 ==> !Low(Unit(x, i, 0)) && !High(Unit(x, i, k - 1))
    {
      var u := Unit(x, i, k);
      if Low(u) {
        assert k == 0 || !High(Unit(x, i, k - 1));
        return false;
      }
      if High(u) {
        if k == 35 || !Low(Unit(x, i, k + 1)) { return false; }
        k := k + 2;
      } else {
        k := k + 1;
      }
    }
    return true;
  }

  // The inspection.

  /** The first eight entries are in use under their names, no others are, and the first starts behind the boot region. */
  predicate EightNamed(x: seq<byte>)
    requires |x| == ENTRIES
  {
    && FirstEight(x)
    && (forall i :: 0 <= i < 8 ==> Decodable(x, i) && Labelled(x, i, LABELS[i]))
    && Start(x, 0) == 34816
  }

  predicate SimpleMbr(p: seq<byte>, s: nat)
    requires |p| == HEAD
  {
    && ProtectiveMbr(p) && U32At(p, 454) == 1 && U32At(p, 458) == (if s <= U32 then s - 1 else U32 - 1)
    && forall k :: 462 <= k < 510 ==> p[k] == 0
  }

  predicate Policy(a: seq<byte>, b: seq<byte>)
    requires |a| == |b| == 512
  {
    Same(a, b, 8, 16) && Same(a, b, 40, 72)
  }

  /** What inspect_image demands of the first 34 sectors, the last 33 and the size: two headers that describe one disk,
      the same array twice, a simple protective boot sector, and the eight K11C partitions. */
  predicate TablesK11c(p: seq<byte>, t: seq<byte>, s: nat)
    requires |p| == HEAD && |t| == TAIL && s >= 33
  {
    && PrimaryValid(p, s) && HeaderOk(BackupHeader(t), s - 1, 1, s - 33)
    && Policy(Header(p), BackupHeader(t))
    && Crc(BackupArray(t)) == U32At(BackupHeader(t), 88) && Array(p) == BackupArray(t)
    && SimpleMbr(p, s) && EightNamed(Array(p))
  }

  /** inspect_image with its K11C checks. The first partition alone needs more than the 68 sectors asked for. */
  predicate InspectedK11c(image: seq<byte>) {
    && |image| % 512 == 0 && |image| >= 34850 * 512
    && TablesK11c(image[..HEAD], image[|image| - TAIL..], |image| / 512)
  }

  lemma InspectedHealthy(image: seq<byte>)
    requires InspectedK11c(image) && |image| < 512 * U32
    ensures Healthy(image[..HEAD], image[|image| - TAIL..], |image| / 512)
    ensures forall i :: 0 <= i < 8 ==> Used(Array(image[..HEAD]), i)
  {
    LayoutSame(Header(image[..HEAD]), BackupHeader(image[|image| - TAIL..]), Array(image[..HEAD]), |image| / 512);
  }

  // The script and the engine.

  /** What the script asks for beyond the engine: all eight entries in use, names that decode, the protective entry's
      fields, and both headers of one size. */
  predicate ScriptOnly(p: seq<byte>, t: seq<byte>, s: nat)
    requires |p| == HEAD && |t| == TAIL
  {
    && (forall i :: 0 <= i < 8 ==> Used(Array(p), i) && Decodable(Array(p), i))
    && SimpleMbr(p, s) && Same(Header(p), BackupHeader(t), 12, 16)
  }

  /** What the engine asks for beyond the script: no partition below the boot region, and nothing in unused entries. */
  predicate EngineOnly(x: seq<byte>)
    requires |x| == ENTRIES
  {
    (forall i :: 0 <= i < 8 ==> Start(x, i) >= 34816) && forall k :: 1024 <= k < ENTRIES ==> x[k] == 0
  }

  lemma UnusedRest(x: seq<byte>, i: nat)
    requires |x| == ENTRIES && 8 <= i < 128 && forall k :: 1024 <= k < ENTRIES ==> x[k] == 0
    ensures !Used(x, i)
  {
  }

  lemma ScriptToEngine(p: seq<byte>, t: seq<byte>, s: nat)
    requires |p| == HEAD && |t| == TAIL && 34849 < s < U32
    requires TablesK11c(p, t, s) && EngineOnly(Array(p))
    ensures Accepted(p, t, s) && ScriptOnly(p, t, s)
  {
    LayoutSame(Header(p), BackupHeader(t), Array(p), s);
  }

  lemma PairsAgree(p: seq<byte>, t: seq<byte>, s: nat)
    requires Healthy(p, t, s) && SimpleMbr(p, s) && Same(Header(p), BackupHeader(t), 12, 16)
    ensures PrimaryValid(p, s) && HeaderOk(BackupHeader(t), s - 1, 1, s - 33) && Policy(Header(p), BackupHeader(t))
    ensures Crc(BackupArray(t)) == U32At(BackupHeader(t), 88) && Array(p) == BackupArray(t)
  {
    U32Bytes(Header(p), BackupHeader(t), 8);
  }

  lemma NamesAgree(x: seq<byte>)
    requires |x| == ENTRIES && K11c(x) && forall i :: 0 <= i < 8 ==> Used(x, i) && Decodable(x, i)
    ensures EightNamed(x) && EngineOnly(x)
  {
    forall i | 8 <= i < 128 ensures !Used(x, i) {
      UnusedRest(x, i);
    }
  }

  /** The two inspections agree but for these conditions: an image that passes the script and the engine's own conditions
      has a table the engine accepts, and conversely. */
  lemma EngineAgrees(p: seq<byte>, t: seq<byte>, s: nat)
    requires |p| == HEAD && |t| == TAIL && 34849 < s < U32
    ensures TablesK11c(p, t, s) && EngineOnly(Array(p)) <==> Accepted(p, t, s) && ScriptOnly(p, t, s)
  {
    if TablesK11c(p, t, s) && EngineOnly(Array(p)) {
      ScriptToEngine(p, t, s);
    }
    if Accepted(p, t, s) && ScriptOnly(p, t, s) {
      PairsAgree(p, t, s);
      NamesAgree(Array(p));
    }
  }

  // How the script does it.

  predicate FirstEight(x: seq<byte>)
    requires |x| == ENTRIES
  {
    forall i :: 0 <= i < 128 ==> (Used(x, i) <==> i < 8)
  }

  predicate Counting(s: seq<nat>, n: nat) {
    |s| == n && forall k :: 0 <= k < n ==> s[k] == k
  }

  lemma {:induction false} FirstUsed(x: seq<byte>, n: nat)
    requires |x| == ENTRIES && n <= 128 && FirstEight(x)
    ensures Counting(UsedUpTo(x, n), if n < 8 then n else 8)
  {
    if n > 0 {
      FirstUsed(x, n - 1);
      assert Used(x, n - 1) <==> n - 1 < 8;
    }
  }

  /** The list of numbers in use counts the first eight. */
  lemma NumbersDecide(x: seq<byte>)
    requires |x| == ENTRIES
    ensures Counting(UsedUpTo(x, 128), 8) <==> FirstEight(x)
  {
    if FirstEight(x) {
      FirstUsed(x, 128);
    }
    if Counting(UsedUpTo(x, 128), 8) {
      CountingFirst(x);
    }
  }

  lemma CountingFirst(x: seq<byte>)
    requires |x| == ENTRIES && Counting(UsedUpTo(x, 128), 8)
    ensures FirstEight(x)
  {
    var u := UsedUpTo(x, 128);
    forall i | 0 <= i < 128 ensures Used(x, i) <==> i < 8 {
      assert i < 8 ==> u[i] == i;
    }
  }

  predicate EntryRead(x: seq<byte>, i: nat, first: nat, last: nat)
    requires |x| == ENTRIES && i < 128
  {
    Used(x, i) ==> first <= Start(x, i) <= Finish(x, i) <= last && Decodable(x, i)
  }

  method ReadPart(x: seq<byte>, i: nat, first: nat, last: nat) returns (ok: bool, used: bool)
    requires |x| == ENTRIES && i < 128
    ensures ok <==> EntryRead(x, i, first, last)
    ensures used <==> Used(x, i)
  {
    var zero := TypeIsZero(x, i);
    used := !zero;
    if zero { return true, false; }
    var start, end := Start(x, i), Finish(x, i);
    ok := Decodes(x, i);
    ok := ok && first <= start <= end <= last;
  }

  predicate AllRead(x: seq<byte>, n: nat, first: nat, last: nat)
    requires |x| == ENTRIES && n <= 128
  {
    forall i :: 0 <= i < n ==> EntryRead(x, i, first, last)
  }

  /** The names of the used entries among the first `n`. */
  function Names(x: seq<byte>, n: nat): (r: seq<seq<nat>>)
    requires |x| == ENTRIES && n <= 128
    ensures |r| == |UsedUpTo(x, n)|
    ensures forall k :: 0 <= k < |r| ==> r[k] == Units(x, UsedUpTo(x, n)[k], 0)
  {
    if n == 0 then []
    else if Used(x, n - 1) then Names(x, n - 1) + [Units(x, n - 1, 0)]
    else Names(x, n - 1)
  }

  lemma AllReadNext(x: seq<byte>, i: nat, first: nat, last: nat)
    requires |x| == ENTRIES && i < 128 && AllRead(x, i, first, last)
    ensures AllRead(x, i + 1, first, last) <==> EntryRead(x, i, first, last)
    ensures AllRead(x, 128, first, last) ==> EntryRead(x, i, first, last)
  {
  }

  /** The loop over the array. */
  method ReadParts(x: seq<byte>, first: nat, last: nat)
    returns (ok: bool, numbers: seq<nat>, ranges: seq<Span>, names: seq<seq<nat>>)
    requires |x| == ENTRIES
    ensures ok <==> AllRead(x, 128, first, last)
    ensures ok ==> numbers == UsedUpTo(x, 128) && ranges == Extents(x, 128) && names == Names(x, 128)
  {
    numbers, ranges, names := [], [], [];
    var i := 0;
    while i < 128
      invariant 0 <= i <= 128 && AllRead(x, i, first, last)
      invariant numbers == UsedUpTo(x, i) && ranges == Extents(x, i) && names == Names(x, i)
    {
      var used;
      ok, used := ReadPart(x, i, first, last);
      AllReadNext(x, i, first, last);
      if !ok { return; }
      if used {
        numbers, ranges, names := numbers + [i], ranges + [Extent(x, i)], names + [Units(x, i, 0)];
      }
      i := i + 1;
    }
    ok := true;
  }

  predicate NamesMatch(names: seq<seq<nat>>) {
    |names| == 8 && forall i :: 0 <= i < 8 ==> names[i] == Codes(LABELS[i])
  }

  lemma NamesDecide(x: seq<byte>, names: seq<seq<nat>>)
    requires |x| == ENTRIES && |names| == 8 && forall k :: 0 <= k < 8 ==> names[k] == Units(x, k, 0)
    ensures NamesMatch(names) <==> forall i :: 0 <= i < 8 ==> Labelled(x, i, LABELS[i])
  {
    forall i | 0 <= i < 8 ensures names[i] == Codes(LABELS[i]) <==> Labelled(x, i, LABELS[i]) {
      NameDecides(x, i);
    }
  }

  lemma NameDecides(x: seq<byte>, i: nat)
    requires |x| == ENTRIES && i < 8
    ensures Units(x, i, 0) == Codes(LABELS[i]) <==> Labelled(x, i, LABELS[i])
  {
    LabelsPlain();
    UnitsDecide(x, i, LABELS[i]);
  }

  method CompareNames(names: seq<seq<nat>>) returns (ok: bool)
    ensures ok <==> NamesMatch(names)
  {
    if |names| != 8 { return false; }
    var i := 0;
    while i < 8
      invariant 0 <= i <= 8 && forall k :: 0 <= k < i ==> names[k] == Codes(LABELS[k])
    {
      if names[i] != Codes(LABELS[i]) { return false; }
      i := i + 1;
    }
    return true;
  }

  predicate PartsOk(numbers: seq<nat>, names: seq<seq<nat>>, start: nat) {
    Counting(numbers, 8) && NamesMatch(names) && start == 34816
  }

  /** What the conditions on the parts come to, once every entry could be read. */
  lemma PartsDecide(x: seq<byte>, first: nat, last: nat)
    requires |x| == ENTRIES && AllRead(x, 128, first, last)
    ensures InBounds(x, first, last)
    ensures EightNamed(x) <==> PartsOk(UsedUpTo(x, 128), Names(x, 128), Start(x, 0))
  {
    NumbersDecide(x);
    forall i | 0 <= i < 128 && Used(x, i) ensures first <= Start(x, i) <= Finish(x, i) <= last && Decodable(x, i) {
      assert EntryRead(x, i, first, last);
    }
    if FirstEight(x) {
      NamesDecide(x, Names(x, 128));
    }
  }

  lemma NotRead(x: seq<byte>, first: nat, last: nat)
    requires |x| == ENTRIES && !AllRead(x, 128, first, last)
    ensures !InBounds(x, first, last) || !EightNamed(x)
  {
    var i :| 0 <= i < 128 && !EntryRead(x, i, first, last);
  }

  method PartsApart(x: seq<byte>, first: nat, last: nat, ranges: seq<Span>) returns (apart: bool)
    requires |x| == ENTRIES && InBounds(x, first, last) && ranges == Extents(x, 128)
    ensures apart <==> Disjoint(x)
  {
    NeighboursDecide(x, first, last);
    var overlap := NeighboursOverlap(Sort(ranges), 0);
    apart := !overlap;
  }

  method MatchParts(numbers: seq<nat>, names: seq<seq<nat>>, start: nat) returns (ok: bool)
    ensures ok <==> PartsOk(numbers, names, start)
  {
    var matching := CompareNames(names);
    return numbers == [0, 1, 2, 3, 4, 5, 6, 7] && matching && start == 34816;
  }

  method InspectParts(x: seq<byte>, first: nat, last: nat) returns (ok: bool)
    requires |x| == ENTRIES
    ensures ok <==> InBounds(x, first, last) && Disjoint(x) && EightNamed(x)
  {
    var numbers, ranges, names;
    ok, numbers, ranges, names := ReadParts(x, first, last);
    if !ok {
      NotRead(x, first, last);
      return;
    }
    PartsDecide(x, first, last);
    var apart := PartsApart(x, first, last, ranges);
    var matching := MatchParts(numbers, names, Start(x, 0));
    return apart && matching;
  }

  /** header_fields, the usable bounds included. */
  method HeaderFields(h: seq<byte>, own: nat, other: nat, entries: nat, sectors: nat) returns (ok: bool)
    requires |h| == 512
    ensures ok <==> HeaderOk(h, own, other, entries) && Usable(h, sectors)
  {
    ok := ComputeHeaderOk(h, own, other, entries);
    var first, last := U64At(h, 40), U64At(h, 48);
    return ok && 34 <= first <= last <= sectors - 34;
  }

  method InspectMbr(p: seq<byte>, s: nat) returns (ok: bool)
    requires |p| == HEAD && s > 0
    ensures ok <==> SimpleMbr(p, s)
  {
    var zero := AllZero(p, 462, 510);
    var signed := ComputeMbr(p);
    return signed && U32At(p, 454) == 1
        && U32At(p, 458) == (if s - 1 < 0xFFFFFFFF then s - 1 else 0xFFFFFFFF) && zero;
  }

  /** `p[:2] == b[:2]` and the two slices compared before it. */
  lemma PolicyDecides(a: seq<byte>, b: seq<byte>)
    requires |a| == |b| == 512
    ensures Same(a, b, 8, 16) && Same(a, b, 40, 72) <==>
      a[56..72] == b[56..72] && a[8..16] == b[8..16] && U64At(a, 40) == U64At(b, 40) && U64At(a, 48) == U64At(b, 48)
  {
    LeBytes(a, b, 40, 8);
    LeBytes(a, b, 48, 8);
    if a[56..72] == b[56..72] {
      assert forall i :: 56 <= i < 72 ==> a[i] == a[56..72][i - 56] && b[i] == b[56..72][i - 56];
    }
    if a[8..16] == b[8..16] {
      assert forall i :: 8 <= i < 16 ==> a[i] == a[8..16][i - 8] && b[i] == b[8..16][i - 8];
    }
  }

  method ComparePolicy(a: seq<byte>, b: seq<byte>) returns (ok: bool)
    requires |a| == |b| == 512
    ensures ok <==> Policy(a, b)
  {
    PolicyDecides(a, b);
    return a[56..72] == b[56..72] && a[8..16] == b[8..16] && U64At(a, 40) == U64At(b, 40) && U64At(a, 48) == U64At(b, 48);
  }

  /** The tests in the order of the script, on the two headers, the two arrays and the boot sector. */
  predicate Passing(a: seq<byte>, x: seq<byte>, b: seq<byte>, y: seq<byte>, mbr: bool, s: nat)
    requires |a| == |b| == 512 && |x| == |y| == ENTRIES && s >= 68
  {
    && HeaderOk(a, 1, s - 1, 2) && Usable(a, s) && HeaderOk(b, s - 1, 1, s - 33) && Usable(b, s) && Policy(a, b)
    && Crc(x) == U32At(a, 88) && Crc(y) == U32At(b, 88) && x == y && mbr
    && InBounds(x, U64At(a, 40), U64At(a, 48)) && Disjoint(x) && EightNamed(x)
  }

  method InspectPair(a: seq<byte>, x: seq<byte>, b: seq<byte>, y: seq<byte>, mbr: bool, s: nat) returns (ok: bool)
    requires |a| == |b| == 512 && |x| == |y| == ENTRIES && s >= 68
    ensures ok <==> Passing(a, x, b, y, mbr, s)
  {
    var okA := HeaderFields(a, 1, s - 1, 2, s);
    var okB := HeaderFields(b, s - 1, 1, s - 33, s);
    var policy := ComparePolicy(a, b);
    var cx := Compute(x);
    var cy := Compute(y);
    var parts := InspectParts(x, U64At(a, 40), U64At(a, 48));
    return okA && okB && policy && cx == U32At(a, 88) && cy == U32At(b, 88) && x == y && mbr && parts;
  }

  lemma PassingDecides(p: seq<byte>, t: seq<byte>, s: nat)
    requires |p| == HEAD && |t| == TAIL && s >= 68
    ensures Passing(Header(p), Array(p), BackupHeader(t), BackupArray(t), SimpleMbr(p, s), s) <==> TablesK11c(p, t, s)
  {
    if Policy(Header(p), BackupHeader(t)) {
      U64Bytes(Header(p), BackupHeader(t), 40);
      U64Bytes(Header(p), BackupHeader(t), 48);
    }
  }

  /** The first partition starts behind the boot region and ends before the backup table. */
  lemma EightNamedSize(a: seq<byte>, x: seq<byte>, s: nat)
    requires |a| == 512 && |x| == ENTRIES && EightNamed(x) && Layout(a, x, s)
    ensures s >= 34850
  {
    assert Used(x, 0);
  }

  /** inspect_image with `k11c`. */
  method Inspect(image: seq<byte>) returns (ok: bool)
    ensures ok <==> InspectedK11c(image)
  {
    if |image| % 512 != 0 || |image| < 68 * 512 { return false; }
    var p, t, s := image[..HEAD], image[|image| - TAIL..], |image| / 512;
    var mbr := InspectMbr(p, s);
    ok := InspectPair(Header(p), Array(p), BackupHeader(t), BackupArray(t), mbr, s);
    PassingDecides(p, t, s);
    if TablesK11c(p, t, s) {
      EightNamedSize(Header(p), Array(p), s);
    }
  }
}
