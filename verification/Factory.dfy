/** Manufacturer firmware read back: which parts of the eMMC are compared, and what a successful comparison proves. */
module Factory {
  import opened Common
  import opened Bytes
  import opened Gpt
  import opened GptCheck
  import opened GptEdit
  import opened Sparse

  datatype Entry = Entry(name: string, offset: nat, bytes: nat, sparse: bool)

  /** Without a size, the partition takes the rest of the disk. */
  datatype Partition = Partition(name: string, lba: nat, sectors: Option<nat>)

  // `parameter`, from the split rows on.

  /** A name of letters, digits, underscores and dashes. */
  predicate Plainly(name: string) {
    name != "" && forall i :: 0 <= i < |name| ==>
      'a' <= name[i] <= 'z' || 'A' <= name[i] <= 'Z' || '0' <= name[i] <= '9' || name[i] == '_' || name[i] == '-'
  }

  predicate RowOk(p: Partition) {
    34 <= p.lba < U32 && (p.sectors.Some? ==> 0 < p.sectors.value < U32) && Plainly(p.name)
  }

  /** `q` starts where `p` has ended, and is called something else. */
  predicate Behind(p: Partition, q: Partition) {
    p.sectors.Some? && p.lba + p.sectors.value <= q.lba && p.name != q.name
  }

  /** Up to 128 partitions, one behind the other; only the last may take the rest of the disk. */
  predicate Placed(parts: seq<Partition>) {
    && 0 < |parts| <= 128
    && (forall k :: 0 <= k < |parts| ==> RowOk(parts[k]))
    && forall j, k :: 0 <= j < k < |parts| ==> Behind(parts[j], parts[k])
  }

  /** The bounds that the loop checks against the end of the row before. */
  method Parameter(rows: seq<Partition>) returns (ok: bool)
    ensures ok <==> Placed(rows)
  {
    var end := 34;
    var i := 0;
    while i < |rows|
      invariant 0 <= i <= |rows| && i <= 128
      invariant forall k :: 0 <= k < i ==> RowOk(rows[k])
      invariant forall j, k :: 0 <= j < k < i ==> Behind(rows[j], rows[k])
      invariant if i == 0 then end == 34
                else end == if rows[i - 1].sectors.Some? then rows[i - 1].lba + rows[i - 1].sectors.value else U64 - 1
    {
      var p := rows[i];
      if p.lba >= U32 || (p.sectors.Some? && p.sectors.value >= U32) { return false; }
      var known := false;
      var j := 0;
      while j < i
        invariant 0 <= j <= i && (known <==> exists k :: 0 <= k < j && rows[k].name == p.name)
      {
        if rows[j].name == p.name { known := true; }
        j := j + 1;
      }
      if p.lba < end || p.sectors == Some(0) || i >= 128 || known || !Plainly(p.name) {
        assert !Placed(rows) by { NotPlaced(rows, i, end); }
        return false;
      }
      forall k | 0 <= k < i ensures Behind(rows[k], p) {
        assert k < i - 1 ==> Behind(rows[k], rows[i - 1]);
      }
      end := if p.sectors.Some? then p.lba + p.sectors.value else U64 - 1;
      i := i + 1;
    }
    return |rows| > 0;
  }

  lemma NotPlaced(rows: seq<Partition>, i: nat, end: nat)
    requires i < |rows|
    requires if i == 0 then end == 34
             else end == if rows[i - 1].sectors.Some? then rows[i - 1].lba + rows[i - 1].sectors.value else U64 - 1
    requires rows[i].lba < end || rows[i].sectors == Some(0) || i >= 128 || !Plainly(rows[i].name)
          || exists k :: 0 <= k < i && rows[k].name == rows[i].name
    ensures !Placed(rows)
  {
    if Placed(rows) {
      PlacedBefore(rows, i);
    }
  }

  lemma PlacedBefore(rows: seq<Partition>, i: nat)
    requires Placed(rows) && i < |rows|
    ensures RowOk(rows[i]) && forall k :: 0 <= k < i ==> Behind(rows[k], rows[i])
  {
  }

  /** The first partition of that name, from number `k` on. */
  function NamedFrom(parts: seq<Partition>, name: string, k: nat): (r: nat)
    requires k <= |parts|
    ensures k <= r <= |parts|
    ensures r < |parts| ==> parts[r].name == name
    decreases |parts| - k
  {
    if k == |parts| || parts[k].name == name then k else NamedFrom(parts, name, k + 1)
  }

  function Named(parts: seq<Partition>, name: string): (r: nat)
    ensures r <= |parts|
    ensures r < |parts| ==> parts[r].name == name
  {
    NamedFrom(parts, name, 0)
  }

  function Capacity(p: Partition, sectors: nat): nat
    requires p.lba + 34 <= sectors
  {
    512 * if p.sectors.Some? then p.sectors.value else sectors - 33 - p.lba
  }

  /** The partition has room on the disk: unless its row says it is empty, its capacity is not, and its area ends
      before the backup table. */
  predicate HasRoom(p: Partition, sectors: nat) {
    if p.sectors == Some(0) then p.lba + 33 <= sectors
    else
      p.lba + 34 <= sectors && 0 < Capacity(p, sectors)
      && 512 * p.lba + Capacity(p, sectors) <= 512 * (sectors - 33)
  }

  predicate FitsDisk(parts: seq<Partition>, sectors: nat) {
    sectors > 34849 && forall k :: 0 <= k < |parts| ==> HasRoom(parts[k], sectors)
  }

  /** `validate_capacity` looks at one bound per row, with a single sector for the row that has no size. */
  method ValidateCapacity(parts: seq<Partition>, sectors: nat) returns (ok: bool)
    ensures ok <==> FitsDisk(parts, sectors)
  {
    if sectors <= 34849 { return false; }
    var k := 0;
    while k < |parts|
      invariant 0 <= k <= |parts| && forall j :: 0 <= j < k ==> HasRoom(parts[j], sectors)
    {
      var least := if parts[k].sectors.Some? then parts[k].sectors.value else 1;
      if parts[k].lba + least > sectors - 33 {
        assert !HasRoom(parts[k], sectors);
        return false;
      }
      k := k + 1;
    }
    return true;
  }

  predicate Located(parts: seq<Partition>, sectors: nat) {
    forall k :: 0 <= k < |parts| ==> parts[k].lba + 34 <= sectors
  }

  // `verification`.

  /** The checks of one entry. */
  function EntryChecks(file: seq<byte>, e: Entry, lba: nat, capacity: nat): seq<Check> {
    if !e.sparse then [Check(lba, e.bytes, e.offset, None)]
    else
      var ps := Image(file, e.offset, e.bytes, capacity);
      if ps.Some? then Checks(ps.value, lba) else []
  }

  predicate EntryOk(file: seq<byte>, e: Entry, lba: nat, capacity: nat, used: nat) {
    if e.sparse then ImageOk(file, e.offset, e.bytes, lba, capacity, used) else e.bytes % 512 == 0 && e.bytes <= capacity
  }

  predicate Homed(parts: seq<Partition>, e: Entry) {
    Named(parts, e.name) < |parts|
  }

  function Home(parts: seq<Partition>, e: Entry): (p: Partition)
    requires Homed(parts, e)
    ensures p.name == e.name && p in parts
  {
    parts[Named(parts, e.name)]
  }

  /** The checks of the first `n` entries; one without a partition has none. */
  function AllChecks(file: seq<byte>, entries: seq<Entry>, n: nat, parts: seq<Partition>, sectors: nat): seq<Check>
    requires n <= |entries| && Located(parts, sectors)
  {
    if n == 0 then []
    else
      var e := entries[n - 1];
      AllChecks(file, entries, n - 1, parts, sectors) +
        if Homed(parts, e) then EntryChecks(file, e, Home(parts, e).lba, Capacity(Home(parts, e), sectors)) else []
  }

  predicate EntriesOk(file: seq<byte>, entries: seq<Entry>, n: nat, parts: seq<Partition>, sectors: nat)
    requires n <= |entries| && Located(parts, sectors)
  {
    forall i {:trigger EntryOkAt(file, entries, i, parts, sectors)} ::
      0 <= i < n && Homed(parts, entries[i]) ==> EntryOkAt(file, entries, i, parts, sectors)
  }

  predicate EntryOkAt(file: seq<byte>, entries: seq<Entry>, i: nat, parts: seq<Partition>, sectors: nat)
    requires i < |entries| && Located(parts, sectors) && Homed(parts, entries[i])
  {
    var p := Home(parts, entries[i]);
    EntryOk(file, entries[i], p.lba, Capacity(p, sectors), |AllChecks(file, entries, i, parts, sectors)|)
  }

  predicate Verifiable(file: seq<byte>, entries: seq<Entry>, parts: seq<Partition>, sectors: nat)
    requires Located(parts, sectors)
  {
    && EntriesOk(file, entries, |entries|, parts, sectors)
    && AllChecks(file, entries, |entries|, parts, sectors) != []
  }

  predicate InFile(file: seq<byte>, entries: seq<Entry>) {
    forall i :: 0 <= i < |entries| ==> entries[i].offset + entries[i].bytes <= |file|
  }

  method AddEntry(file: seq<byte>, e: Entry, p: Partition, capacity: nat, before: seq<Check>)
    returns (ok: bool, out: seq<Check>)
    requires e.offset + e.bytes <= |file|
    ensures ok <==> EntryOk(file, e, p.lba, capacity, |before|)
    ensures ok ==> out == before + EntryChecks(file, e, p.lba, capacity)
  {
    if e.sparse {
      ok, out := Parse(file, e.offset, e.bytes, p.lba, capacity, before);
    } else {
      ok := e.bytes % 512 == 0 && e.bytes <= capacity;
      out := before + [Check(p.lba, e.bytes, e.offset, None)];
    }
  }

  method AddAt(file: seq<byte>, entries: seq<Entry>, i: nat, parts: seq<Partition>, sectors: nat, before: seq<Check>)
    returns (ok: bool, out: seq<Check>)
    requires i < |entries| && Located(parts, sectors) && Homed(parts, entries[i]) && InFile(file, entries)
    requires before == AllChecks(file, entries, i, parts, sectors)
    ensures ok <==> EntryOkAt(file, entries, i, parts, sectors)
    ensures ok ==> out == AllChecks(file, entries, i + 1, parts, sectors)
  {
    var p := Home(parts, entries[i]);
    ok, out := AddEntry(file, entries[i], p, Capacity(p, sectors), before);
  }

  lemma NotVerifiable(file: seq<byte>, entries: seq<Entry>, i: nat, parts: seq<Partition>, sectors: nat)
    requires i < |entries| && Located(parts, sectors) && Homed(parts, entries[i])
    requires !EntryOkAt(file, entries, i, parts, sectors)
    ensures !Verifiable(file, entries, parts, sectors)
  {
  }

  lemma EntriesStep(file: seq<byte>, entries: seq<Entry>, i: nat, parts: seq<Partition>, sectors: nat)
    requires i < |entries| && Located(parts, sectors) && EntriesOk(file, entries, i, parts, sectors)
    requires Homed(parts, entries[i]) ==> EntryOkAt(file, entries, i, parts, sectors)
    ensures EntriesOk(file, entries, i + 1, parts, sectors)
  {
  }

  method Verification(file: seq<byte>, entries: seq<Entry>, parts: seq<Partition>, sectors: nat)
    returns (r: Result<seq<Check>>)
    requires InFile(file, entries) && Located(parts, sectors)
    ensures r.Ok? <==> Verifiable(file, entries, parts, sectors)
    ensures r.Ok? ==> r.value == AllChecks(file, entries, |entries|, parts, sectors)
  {
    var out: seq<Check> := [];
    var i := 0;
    while i < |entries|
      invariant 0 <= i <= |entries|
      invariant EntriesOk(file, entries, i, parts, sectors) && out == AllChecks(file, entries, i, parts, sectors)
    {
      if Homed(parts, entries[i]) {
        var ok;
        ok, out := AddAt(file, entries, i, parts, sectors, out);
        if !ok {
          NotVerifiable(file, entries, i, parts, sectors);
          return Err("FACTORY_IMAGE");
        }
      }
      EntriesStep(file, entries, i, parts, sectors);
      i := i + 1;
    }
    return if out == [] then Err("FACTORY_IMAGE") else Ok(out);
  }

  lemma {:induction false} ChecksIncluded(file: seq<byte>, entries: seq<Entry>, n: nat, parts: seq<Partition>,
                                          sectors: nat, i: nat, c: Check)
    requires i < n <= |entries| && Located(parts, sectors) && Homed(parts, entries[i])
    requires c in EntryChecks(file, entries[i], Home(parts, entries[i]).lba, Capacity(Home(parts, entries[i]), sectors))
    ensures c in AllChecks(file, entries, n, parts, sectors)
    decreases n
  {
    if i < n - 1 {
      ChecksIncluded(file, entries, n - 1, parts, sectors, i, c);
    }
  }

  // Where the checks lie.

  predicate InArea(c: Check, lo: nat, hi: nat) {
    lo <= 512 * c.lba && 512 * c.lba + c.bytes <= hi
  }

  predicate Clear(a: Check, b: Check) {
    512 * a.lba + a.bytes <= 512 * b.lba || 512 * b.lba + b.bytes <= 512 * a.lba
  }

  predicate AllClear(cs: seq<Check>) {
    forall j, k :: 0 <= j < k < |cs| ==> Clear(cs[j], cs[k])
  }

  lemma EntryArea(file: seq<byte>, e: Entry, lba: nat, capacity: nat, used: nat)
    requires EntryOk(file, e, lba, capacity, used)
    ensures forall c :: c in EntryChecks(file, e, lba, capacity) ==> InArea(c, 512 * lba, 512 * lba + capacity)
    ensures AllClear(EntryChecks(file, e, lba, capacity))
  {
    if e.sparse {
      var ps := Image(file, e.offset, e.bytes, capacity).value;
      ImageFits(file, e.offset, e.bytes, capacity);
      ChecksInOrder(ps, lba);
    }
  }

  /** Two partitions of a placed list that fits the disk: their areas are apart and end before the backup table. */
  lemma AreasApart(parts: seq<Partition>, sectors: nat, j: nat, k: nat)
    requires Placed(parts) && FitsDisk(parts, sectors) && j < |parts| && k < |parts| && j != k
    ensures Located(parts, sectors)
    ensures 512 * parts[j].lba + Capacity(parts[j], sectors) <= 512 * parts[k].lba
         || 512 * parts[k].lba + Capacity(parts[k], sectors) <= 512 * parts[j].lba
  {
    assert Behind(parts[if j < k then j else k], parts[if j < k then k else j]);
  }

  lemma AreaFits(parts: seq<Partition>, sectors: nat, k: nat)
    requires Placed(parts) && FitsDisk(parts, sectors) && k < |parts|
    ensures Located(parts, sectors)
    ensures 34 <= parts[k].lba && 512 * parts[k].lba + Capacity(parts[k], sectors) <= 512 * (sectors - 33)
  {
    assert RowOk(parts[k]);
  }

  predicate DistinctNames(entries: seq<Entry>) {
    forall i, j :: 0 <= i < j < |entries| ==> entries[i].name != entries[j].name
  }

  predicate InHome(c: Check, e: Entry, parts: seq<Partition>, sectors: nat)
    requires Located(parts, sectors)
  {
    && Homed(parts, e)
    && InArea(c, 512 * Home(parts, e).lba, 512 * Home(parts, e).lba + Capacity(Home(parts, e), sectors))
  }

  /** Every check lies in the partition of the entry it came from. */
  lemma {:induction false} ChecksHomed(file: seq<byte>, entries: seq<Entry>, n: nat, parts: seq<Partition>,
                                       sectors: nat,
                                       c: Check)
    returns (i: nat)
    requires n <= |entries| && Located(parts, sectors) && EntriesOk(file, entries, n, parts, sectors)
    requires c in AllChecks(file, entries, n, parts, sectors)
    ensures i < n && InHome(c, entries[i], parts, sectors)
  {
    if c in AllChecks(file, entries, n - 1, parts, sectors) {
      i := ChecksHomed(file, entries, n - 1, parts, sectors, c);
    } else {
      i := n - 1;
      var p := Home(parts, entries[i]);
      assert EntryOkAt(file, entries, i, parts, sectors);
      EntryArea(file, entries[i], p.lba, Capacity(p, sectors), |AllChecks(file, entries, i, parts, sectors)|);
    }
  }

  lemma HomesApart(a: Check, b: Check, e: Entry, f: Entry, parts: seq<Partition>, sectors: nat)
    requires Placed(parts) && FitsDisk(parts, sectors) && Located(parts, sectors) && e.name != f.name
    requires InHome(a, e, parts, sectors) && InHome(b, f, parts, sectors)
    ensures Clear(a, b)
  {
    AreasApart(parts, sectors, Named(parts, e.name), Named(parts, f.name));
  }

  lemma ClearJoin(a: seq<Check>, b: seq<Check>)
    requires AllClear(a) && AllClear(b) && forall x, y :: x in a && y in b ==> Clear(x, y)
    ensures AllClear(a + b)
  {
  }

  /** No two checks of a firmware image overlap. */
  lemma {:induction false} ChecksClear(file: seq<byte>, entries: seq<Entry>, n: nat, parts: seq<Partition>,
                                       sectors: nat)
    requires n <= |entries| && Placed(parts) && FitsDisk(parts, sectors) && Located(parts, sectors)
    requires DistinctNames(entries) && EntriesOk(file, entries, n, parts, sectors)
    ensures AllClear(AllChecks(file, entries, n, parts, sectors))
  {
    if n > 0 {
      ChecksClear(file, entries, n - 1, parts, sectors);
      var e := entries[n - 1];
      if Homed(parts, e) {
        var before := AllChecks(file, entries, n - 1, parts, sectors);
        var p := Home(parts, e);
        var more := EntryChecks(file, e, p.lba, Capacity(p, sectors));
        assert EntryOkAt(file, entries, n - 1, parts, sectors);
        EntryArea(file, e, p.lba, Capacity(p, sectors), |before|);
        forall x, y | x in before && y in more ensures Clear(x, y) {
          var i := ChecksHomed(file, entries, n - 1, parts, sectors, x);
          HomesApart(x, y, entries[i], e, parts, sectors);
        }
        ClearJoin(before, more);
      }
    }
  }

  /** What is compared lies between the boot sectors and the backup table, and no byte of it is compared twice. */
  lemma ChecksPlaced(file: seq<byte>, entries: seq<Entry>, parts: seq<Partition>, sectors: nat)
    requires Placed(parts) && FitsDisk(parts, sectors) && DistinctNames(entries)
    requires Located(parts, sectors) && Verifiable(file, entries, parts, sectors)
    ensures AllClear(AllChecks(file, entries, |entries|, parts, sectors))
    ensures forall c :: c in AllChecks(file, entries, |entries|, parts, sectors) ==>
      InArea(c, 512 * 34, 512 * (sectors - 33))
  {
    ChecksClear(file, entries, |entries|, parts, sectors);
    forall c | c in AllChecks(file, entries, |entries|, parts, sectors)
      ensures InArea(c, 512 * 34, 512 * (sectors - 33))
    {
      var i := ChecksHomed(file, entries, |entries|, parts, sectors, c);
      AreaFits(parts, sectors, Named(parts, entries[i].name));
    }
  }

  // Read-back.

  function Pattern(c: Check, file: seq<byte>, offset: nat, n: nat): Option<seq<byte>> {
    if c.fill.Some? then
      if |c.fill.value| == 4 then Some(seq(n, i requires 0 <= i < n => c.fill.value[i % 4])) else None
    else if c.offset + offset + n <= |file| then Some(file[c.offset + offset..c.offset + offset + n])
    else None
  }

  lemma PatternWanted(c: Check, file: seq<byte>, d: seq<byte>, offset: nat, n: nat)
    requires offset % 4 == 0 && 512 * c.lba + offset + n <= |d|
    requires Pattern(c, file, offset, n) == Some(d[512 * c.lba + offset..512 * c.lba + offset + n])
    ensures forall i :: offset <= i < offset + n ==> OnDisk(file, d, c, i)
  {
    var p := Pattern(c, file, offset, n).value;
    forall i | offset <= i < offset + n ensures OnDisk(file, d, c, i) {
      assert p[i - offset] == d[512 * c.lba + i];
      assert (i - offset) % 4 == i % 4;
    }
  }

  method SameChunk(expected: Option<seq<byte>>, d: seq<byte>, at: nat, n: nat) returns (same: bool)
    ensures same <==> at + n <= |d| && expected == Some(d[at..at + n])
  {
    if expected.None? || at + n > |d| { return false; }
    return expected.value == d[at..at + n];
  }

  /** A disk that passes would have shown the pattern. */
  lemma PatternShown(c: Check, file: seq<byte>, d: seq<byte>, offset: nat, n: nat)
    requires offset % 4 == 0 && n > 0 && forall i :: offset <= i < offset + n ==> OnDisk(file, d, c, i)
    ensures 512 * c.lba + offset + n <= |d|
    ensures Pattern(c, file, offset, n) == Some(d[512 * c.lba + offset..512 * c.lba + offset + n])
  {
    assert OnDisk(file, d, c, offset + n - 1);
    assert Pattern(c, file, offset, n).Some?;
    var want := d[512 * c.lba + offset..512 * c.lba + offset + n];
    var p := Pattern(c, file, offset, n).value;
    forall i | 0 <= i < n ensures p[i] == want[i] {
      assert OnDisk(file, d, c, offset + i);
      assert (offset + i) % 4 == i % 4;
    }
    assert p == want;
  }

  lemma PatternDecides(c: Check, file: seq<byte>, d: seq<byte>, offset: nat, n: nat)
    requires offset % 4 == 0 && n > 0
    ensures
      512 * c.lba + offset + n <= |d|
      && Pattern(c, file, offset, n) == Some(d[512 * c.lba + offset..512 * c.lba + offset + n])
      <==> forall i :: offset <= i < offset + n ==> OnDisk(file, d, c, i)
  {
    if forall i :: offset <= i < offset + n ==> OnDisk(file, d, c, i) {
      PatternShown(c, file, d, offset, n);
    }
    if 512 * c.lba + offset + n <= |d|
       && Pattern(c, file, offset, n) == Some(d[512 * c.lba + offset..512 * c.lba + offset + n]) {
      PatternWanted(c, file, d, offset, n);
    }
  }

  method CompareChunk(file: seq<byte>, d: seq<byte>, c: Check, offset: nat, n: nat) returns (same: bool)
    requires offset % 512 == 0 && n > 0 && offset + n <= c.bytes
    ensures same <==> forall i :: offset <= i < offset + n ==> OnDisk(file, d, c, i)
  {
    var at := 512 * (c.lba + offset / 512);
    assert at == 512 * c.lba + offset && offset % 4 == 0;
    PatternDecides(c, file, d, offset, n);
    same := SameChunk(Pattern(c, file, offset, n), d, at, n);
  }

  /** One check, chunk by chunk. */
  method Compare(file: seq<byte>, d: seq<byte>, c: Check) returns (ok: bool)
    ensures ok <==> Passes(file, d, c)
  {
    var offset := 0;
    while offset < c.bytes
      invariant 0 <= offset <= c.bytes && (offset < c.bytes ==> offset % 512 == 0)
      invariant forall i :: 0 <= i < offset ==> OnDisk(file, d, c, i)
    {
      var n := if c.bytes - offset < CHUNK then c.bytes - offset else CHUNK;
      ok := CompareChunk(file, d, c, offset, n);
      if !ok { return; }
      offset := offset + n;
    }
    return true;
  }

  // The partitions actually created.

  /** The vendor's tool rounds the end of the last partition down to 64 sectors, or takes the full capacity. */
  predicate EndMatches(p: Partition, end: nat, last: bool, sectors: nat)
    requires sectors >= 34
  {
    if p.sectors.Some? then end + 1 == p.lba + p.sectors.value
    else last && (end == sectors - 34 || end + 1 == (sectors - 33) / 64 * 64)
  }

  /** A partition of a given size ends with its last sector; one without must be the last, and ends with the last usable
      sector of the disk, or before a multiple of 64 less than 64 sectors below it. */
  lemma EndExactly(p: Partition, end: nat, last: bool, sectors: nat)
    requires sectors >= 34
    ensures p.sectors.Some? ==> (EndMatches(p, end, last, sectors) <==> end + 1 - p.lba == p.sectors.value)
    ensures p.sectors.None? ==>
      (EndMatches(p, end, last, sectors) <==>
        last && (end + 34 == sectors || ((end + 1) % 64 == 0 && end + 34 <= sectors < end + 98)))
  {
  }

  predicate RowMatches(x: seq<byte>, e: nat, p: Partition, last: bool, sectors: nat)
    requires |x| == ENTRIES && e < 128 && sectors >= 34
  {
    Units(x, e, 0) == Codes(p.name) && Start(x, e) == p.lba && EndMatches(p, Finish(x, e), last, sectors)
  }

  /** The planned partitions with the sizes they have on the disk. */
  function Actual(x: seq<byte>, parts: seq<Partition>): (r: seq<Partition>)
    requires |x| == ENTRIES && |UsedUpTo(x, 128)| == |parts|
    ensures |r| == |parts|
  {
    seq(|parts|, i requires 0 <= i < |parts| =>
      var e := UsedUpTo(x, 128)[i];
      Partition(parts[i].name, parts[i].lba,
                Some(if Finish(x, e) >= Start(x, e) then Finish(x, e) - Start(x, e) + 1 else 0)))
  }

  lemma {:induction false} NamedSame(a: seq<Partition>, b: seq<Partition>, name: string, k: nat)
    requires |a| == |b| && k <= |a| && forall i :: 0 <= i < |a| ==> a[i].name == b[i].name
    ensures NamedFrom(a, name, k) == NamedFrom(b, name, k)
    decreases |a| - k
  {
    if k < |a| {
      NamedSame(a, b, name, k + 1);
    }
  }

  predicate LayoutMatches(p: seq<byte>, t: seq<byte>, sectors: nat, parts: seq<Partition>) {
    && Healthy(p, t, sectors)
    && var x := Array(p);
    && |UsedUpTo(x, 128)| == |parts|
    && forall i :: 0 <= i < |parts| ==> RowMatches(x, UsedUpTo(x, 128)[i], parts[i], i + 1 == |parts|, sectors)
  }

  method MatchEnd(p: Partition, end: nat, last: bool, sectors: nat) returns (ok: bool)
    requires sectors >= 34
    ensures ok <==> EndMatches(p, end, last, sectors)
  {
    var full := sectors - 34;
    match p.sectors
    case Some(count) => return end == p.lba + count - 1;
    case None => return last && (end == full || end + 1 == full + 1 - (full + 1) % 64);
  }

  method MatchRow(x: seq<byte>, e: nat, p: Partition, last: bool, sectors: nat) returns (ok: bool)
    requires |x| == ENTRIES && e < 128 && sectors >= 34
    ensures ok <==> RowMatches(x, e, p, last, sectors)
  {
    if Units(x, e, 0) != Codes(p.name) || Start(x, e) != p.lba { return false; }
    ok := MatchEnd(p, Finish(x, e), last, sectors);
  }

  method CheckRows(x: seq<byte>, parts: seq<Partition>, sectors: nat) returns (ok: bool)
    requires |x| == ENTRIES && sectors >= 34 && |UsedUpTo(x, 128)| == |parts|
    ensures ok <==> forall i :: 0 <= i < |parts| ==>
      RowMatches(x, UsedUpTo(x, 128)[i], parts[i], i + 1 == |parts|, sectors)
  {
    var rows := UsedUpTo(x, 128);
    var i := 0;
    while i < |parts|
      invariant 0 <= i <= |parts|
      invariant forall k :: 0 <= k < i ==> RowMatches(x, rows[k], parts[k], k + 1 == |parts|, sectors)
    {
      var same := MatchRow(x, rows[i], parts[i], i + 1 == |parts|, sectors);
      if !same { return false; }
      i := i + 1;
    }
    return true;
  }

  method CheckPartitions(p: seq<byte>, t: seq<byte>, sectors: nat, parts: seq<Partition>) returns (ok: bool)
    requires sectors < U32
    ensures ok <==> LayoutMatches(p, t, sectors, parts)
  {
    var report := GptCheck.Check(p, t, sectors);
    if !report.Ok() || report.partitions != |parts| { return false; }
    ok := CheckRows(Array(p), parts, sectors);
  }

  /** Partition `k` has a row of its own, which starts where it was planned. */
  predicate Roomy(x: seq<byte>, parts: seq<Partition>, k: nat, sectors: nat) {
    && |x| == ENTRIES && |UsedUpTo(x, 128)| == |parts| && k < |parts|
    && parts[k].lba == Start(x, UsedUpTo(x, 128)[k]) <= Finish(x, UsedUpTo(x, 128)[k])
    && Finish(x, UsedUpTo(x, 128)[k]) + 34 <= sectors
  }

  predicate Rooms(x: seq<byte>, parts: seq<Partition>, sectors: nat) {
    && |x| == ENTRIES && |UsedUpTo(x, 128)| == |parts|
    && forall k :: 0 <= k < |parts| ==> Roomy(x, parts, k, sectors)
  }

  lemma LayoutRooms(p: seq<byte>, t: seq<byte>, sectors: nat, parts: seq<Partition>)
    requires LayoutMatches(p, t, sectors, parts)
    ensures |p| == HEAD && Rooms(Array(p), parts, sectors)
  {
    var x := Array(p);
    forall k | 0 <= k < |parts| ensures Roomy(x, parts, k, sectors) {
      assert Used(x, UsedUpTo(x, 128)[k]);
      assert RowMatches(x, UsedUpTo(x, 128)[k], parts[k], k + 1 == |parts|, sectors);
    }
  }

  lemma RoomsLocated(x: seq<byte>, parts: seq<Partition>, sectors: nat)
    requires Rooms(x, parts, sectors)
    ensures Located(Actual(x, parts), sectors)
  {
    forall k | 0 <= k < |parts| ensures Actual(x, parts)[k].lba + 34 <= sectors {
      assert Roomy(x, parts, k, sectors);
    }
  }

  /** Every entry, placed in the partitions of the table `x`, passes `verification`. */
  predicate Fitting(file: seq<byte>, x: seq<byte>, sectors: nat, entries: seq<Entry>, parts: seq<Partition>) {
    && Rooms(x, parts, sectors) && Located(Actual(x, parts), sectors)
    && Verifiable(file, entries, Actual(x, parts), sectors)
  }

  /** `verify_layout`: the partitions are the planned ones, and every entry's full extent fits the one it went to. */
  method VerifyLayout(p: seq<byte>, t: seq<byte>, sectors: nat, file: seq<byte>, entries: seq<Entry>,
                      parts: seq<Partition>)
    returns (ok: bool)
    requires sectors < U32 && InFile(file, entries)
    ensures ok <==> LayoutMatches(p, t, sectors, parts) && |p| == HEAD && Fitting(file, Array(p), sectors, entries, parts)
  {
    ok := CheckPartitions(p, t, sectors, parts);
    if !ok { return; }
    LayoutRooms(p, t, sectors, parts);
    ok := VerifyAgain(Array(p), sectors, file, entries, parts);
  }

  method VerifyAgain(x: seq<byte>, sectors: nat, file: seq<byte>, entries: seq<Entry>, parts: seq<Partition>)
    returns (ok: bool)
    requires Rooms(x, parts, sectors) && InFile(file, entries)
    ensures ok <==> Fitting(file, x, sectors, entries, parts)
  {
    RoomsLocated(x, parts, sectors);
    var again := Verification(file, entries, Actual(x, parts), sectors);
    ok := again.Ok?;
  }

  /** What `readback` accepts: the planned bytes are there, in the planned partitions. */
  predicate ReadsBack(file: seq<byte>, d: seq<byte>, sectors: nat, checks: seq<Check>, entries: seq<Entry>,
                      parts: seq<Partition>)
    requires |d| >= HEAD + TAIL
  {
    && (forall k :: 0 <= k < |checks| ==> Passes(file, d, checks[k]))
    && LayoutMatches(d[..HEAD], d[|d| - TAIL..], sectors, parts)
    && Fitting(file, Array(d[..HEAD]), sectors, entries, parts)
  }

  /** `readback` on the disk `d`, whose first and last sectors are the tables it reads at the end. `same` is whether the
      device answers with the planned identity and can be read in full. */
  method Readback(same: bool, file: seq<byte>, d: seq<byte>, sectors: nat, checks: seq<Check>, entries: seq<Entry>,
                  parts: seq<Partition>)
    returns (ok: bool)
    requires 34849 < sectors < U32 && |d| == 512 * sectors && InFile(file, entries)
    ensures ok <==> same && ReadsBack(file, d, sectors, checks, entries, parts)
  {
    if !same { return false; }
    var k := 0;
    while k < |checks|
      invariant 0 <= k <= |checks|
      invariant forall j :: 0 <= j < k ==> Passes(file, d, checks[j])
    {
      ok := Compare(file, d, checks[k]);
      if !ok { return; }
      k := k + 1;
    }
    ok := VerifyLayout(d[..HEAD], d[|d| - TAIL..], sectors, file, entries, parts);
  }

  // What a successful read-back proves.

  /** The bytes an entry defines: its own, or those of the sparse image it holds. */
  function Defined(file: seq<byte>, e: Entry, capacity: nat, i: nat): Option<byte> {
    if e.sparse then
      var ps := Image(file, e.offset, e.bytes, capacity);
      if ps.Some? then Expanded(file, ps.value, i) else None
    else if i < e.bytes && e.offset + i < |file| then Some(file[e.offset + i])
    else None
  }

  function Extent(file: seq<byte>, e: Entry, capacity: nat): nat {
    if e.sparse then
      var ps := Image(file, e.offset, e.bytes, capacity);
      if ps.Some? then Total(ps.value) else 0
    else e.bytes
  }

  lemma EntrySound(file: seq<byte>, e: Entry, lba: nat, capacity: nat, used: nat, d: seq<byte>, i: nat)
    requires EntryOk(file, e, lba, capacity, used) && e.offset + e.bytes <= |file|
    requires forall c :: c in EntryChecks(file, e, lba, capacity) ==> Passes(file, d, c)
    ensures var m := Defined(file, e, capacity, i);
      m.Some? ==> 512 * lba + i < |d| && d[512 * lba + i] == m.value
  {
    if e.sparse {
      SparseSound(file, e.offset, e.bytes, capacity, lba, d, i);
    } else if i < e.bytes {
      assert Passes(file, d, Check(lba, e.bytes, e.offset, None));
      assert OnDisk(file, d, Check(lba, e.bytes, e.offset, None), i);
    }
  }

  lemma EntryFits(file: seq<byte>, e: Entry, lba: nat, capacity: nat, used: nat)
    requires EntryOk(file, e, lba, capacity, used)
    ensures Extent(file, e, capacity) <= capacity
  {
    if e.sparse {
      ImageFits(file, e.offset, e.bytes, capacity);
    }
  }

  /** A read-back that succeeded found the planned bytes, and the entries fitting in the table now on the disk. */
  lemma ReadsBackParts(file: seq<byte>, d: seq<byte>, sectors: nat, checks: seq<Check>, entries: seq<Entry>,
                       parts: seq<Partition>)
    requires |d| >= HEAD + TAIL && ReadsBack(file, d, sectors, checks, entries, parts)
    ensures forall c :: c in checks ==> Passes(file, d, c)
    ensures Fitting(file, Array(d[..HEAD]), sectors, entries, parts)
  {
  }

  /** The entries of a list that passes the checks, by the table `x` in which they fit. */
  lemma EntryPlaced(file: seq<byte>, d: seq<byte>, x: seq<byte>, sectors: nat, entries: seq<Entry>,
                    parts: seq<Partition>, n: nat, i: nat)
    requires InFile(file, entries) && Located(parts, sectors) && Verifiable(file, entries, parts, sectors)
    requires forall c :: c in AllChecks(file, entries, |entries|, parts, sectors) ==> Passes(file, d, c)
    requires Fitting(file, x, sectors, entries, parts)
    requires n < |entries| && Homed(parts, entries[n])
    ensures EntryInPlace(file, d, x, sectors, entries[n], parts, i)
  {
    var row := RoomPlaced(file, x, sectors, entries, parts, n);
    ByteSound(file, d, sectors, entries, parts, n, i);
  }

  lemma RoomPlaced(file: seq<byte>, x: seq<byte>, sectors: nat, entries: seq<Entry>, parts: seq<Partition>, n: nat)
    returns (row: nat)
    requires Fitting(file, x, sectors, entries, parts) && n < |entries| && Homed(parts, entries[n])
    ensures Roomy(x, parts, Named(parts, entries[n].name), sectors)
    ensures row == UsedUpTo(x, 128)[Named(parts, entries[n].name)]
    ensures var room := 512 * (Finish(x, row) + 1 - Start(x, row)); Extent(file, entries[n], room) <= room
  {
    assert Roomy(x, parts, Named(parts, entries[n].name), sectors);
    RoomSound(file, x, sectors, entries, parts, n);
    row := UsedUpTo(x, 128)[Named(parts, entries[n].name)];
  }

  /** By the table `x` the partition of the entry exists and is large enough for its full extent, unspecified bytes
      included, and the entry's byte `i`, if it defines one, is at its place there. */
  predicate EntryInPlace(file: seq<byte>, d: seq<byte>, x: seq<byte>, sectors: nat, e: Entry, parts: seq<Partition>,
                         i: nat)
    requires Located(parts, sectors) && Homed(parts, e)
  {
    var k := Named(parts, e.name);
    && Roomy(x, parts, k, sectors)
    && var row := UsedUpTo(x, 128)[k];
    && var room := 512 * (Finish(x, row) + 1 - Start(x, row));
    && Extent(file, e, room) <= room
    && var m := Defined(file, e, Capacity(parts[k], sectors), i);
       m.Some? ==> 512 * Start(x, row) + i < |d| && d[512 * Start(x, row) + i] == m.value
  }

  lemma PlacedLocated(parts: seq<Partition>, sectors: nat)
    requires Placed(parts) && FitsDisk(parts, sectors)
    ensures Located(parts, sectors)
  {
    forall k | 0 <= k < |parts| ensures parts[k].lba + 34 <= sectors {
      assert RowOk(parts[k]) && HasRoom(parts[k], sectors);
    }
  }

  /** The whole check, from the parsed image to the disk: after a successful read-back every byte that a firmware entry
      defines is at its place in its partition by the table now on the disk, and the entry's full extent lies inside the
      partition that the disk really has. */
  lemma ReadbackSound(file: seq<byte>, d: seq<byte>, sectors: nat, entries: seq<Entry>, parts: seq<Partition>, n: nat,
                      i: nat)
    requires InFile(file, entries) && Placed(parts) && FitsDisk(parts, sectors) && |d| == 512 * sectors
    requires Verifiable(file, entries, parts, sectors)
    requires ReadsBack(file, d, sectors, AllChecks(file, entries, |entries|, parts, sectors), entries, parts)
    requires n < |entries| && Homed(parts, entries[n])
    ensures Located(parts, sectors) && |d| >= HEAD + TAIL
    ensures EntryInPlace(file, d, Array(d[..HEAD]), sectors, entries[n], parts, i)
  {
    PlacedLocated(parts, sectors);
    ReadsBackParts(file, d, sectors, AllChecks(file, entries, |entries|, parts, sectors), entries, parts);
    EntryPlaced(file, d, Array(d[..HEAD]), sectors, entries, parts, n, i);
  }

  lemma ByteSound(file: seq<byte>, d: seq<byte>, sectors: nat, entries: seq<Entry>, parts: seq<Partition>, n: nat,
                  i: nat)
    requires InFile(file, entries) && Located(parts, sectors) && EntriesOk(file, entries, |entries|, parts, sectors)
    requires forall c :: c in AllChecks(file, entries, |entries|, parts, sectors) ==> Passes(file, d, c)
    requires n < |entries| && Homed(parts, entries[n])
    ensures var p := Home(parts, entries[n]);
      var m := Defined(file, entries[n], Capacity(p, sectors), i);
      m.Some? ==> 512 * p.lba + i < |d| && d[512 * p.lba + i] == m.value
  {
    var p := Home(parts, entries[n]);
    assert EntryOkAt(file, entries, n, parts, sectors);
    forall c | c in EntryChecks(file, entries[n], p.lba, Capacity(p, sectors)) ensures Passes(file, d, c) {
      ChecksIncluded(file, entries, |entries|, parts, sectors, n, c);
    }
    EntrySound(file, entries[n], p.lba, Capacity(p, sectors), |AllChecks(file, entries, n, parts, sectors)|, d, i);
  }

  lemma ActualRoom(x: seq<byte>, parts: seq<Partition>, name: string, sectors: nat)
    returns (actual: seq<Partition>, k: nat, room: nat)
    requires |x| == ENTRIES && |UsedUpTo(x, 128)| == |parts| && Located(Actual(x, parts), sectors)
    requires Named(parts, name) < |parts|
    requires var row := UsedUpTo(x, 128)[Named(parts, name)]; Start(x, row) <= Finish(x, row)
    ensures actual == Actual(x, parts) && k == Named(parts, name) == Named(actual, name)
    ensures room == 512 * (Finish(x, UsedUpTo(x, 128)[k]) + 1 - Start(x, UsedUpTo(x, 128)[k]))
    ensures room == Capacity(actual[k], sectors)
  {
    actual, k := Actual(x, parts), Named(parts, name);
    NamedSame(parts, actual, name, 0);
    room := Capacity(actual[k], sectors);
  }

  lemma EntryRoom(file: seq<byte>, entries: seq<Entry>, n: nat, parts: seq<Partition>, sectors: nat, k: nat, room: nat)
    requires Located(parts, sectors) && EntriesOk(file, entries, |entries|, parts, sectors)
    requires n < |entries| && Named(parts, entries[n].name) == k < |parts| && room == Capacity(parts[k], sectors)
    ensures Extent(file, entries[n], room) <= room
  {
    assert EntryOkAt(file, entries, n, parts, sectors);
    EntryFits(file, entries[n], parts[k].lba, room, |AllChecks(file, entries, n, parts, sectors)|);
  }

  lemma RoomSound(file: seq<byte>, x: seq<byte>, sectors: nat, entries: seq<Entry>, parts: seq<Partition>, n: nat)
    requires |x| == ENTRIES && |UsedUpTo(x, 128)| == |parts| && Located(Actual(x, parts), sectors)
    requires EntriesOk(file, entries, |entries|, Actual(x, parts), sectors)
    requires n < |entries| && Homed(parts, entries[n])
    requires var row := UsedUpTo(x, 128)[Named(parts, entries[n].name)]; Start(x, row) <= Finish(x, row)
    ensures var row := UsedUpTo(x, 128)[Named(parts, entries[n].name)];
      var room := 512 * (Finish(x, row) + 1 - Start(x, row));
      Extent(file, entries[n], room) <= room
  {
    var actual, k, room := ActualRoom(x, parts, entries[n].name, sectors);
    EntryRoom(file, entries, n, actual, sectors, k, room);
  }
}
