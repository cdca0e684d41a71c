/** Tables at which the code is seen to fall short: valid pairs put together from eight rows, and what goes wrong there. */
module Samples {
  import opened Bytes
  import opened Crc32
  import opened Gpt
  import opened GptRepair
  import opened GptMove
  import opened GptEdit
  import opened Disk
  import opened Archive
  import opened ArchiveFile
  import opened Plan
  import opened Operations
  import opened PartialRestore

  datatype Row = Row(start: nat, finish: nat, used: bool)

  // The entry array of eight labelled rows.

  predicate Rows(rows: seq<Row>) {
    |rows| == 8 && forall e :: 0 <= e < 8 ==> rows[e].start < U64 && rows[e].finish < U64
  }

  function RowByte(row: Row, name: string, o: nat): byte
    requires row.start < U64 && row.finish < U64
  {
    if o == 0 then if row.used then 1 else 0
    else if 32 <= o < 40 then Le(row.start, 8)[o - 32]
    else if 40 <= o < 48 then Le(row.finish, 8)[o - 40]
    else if 56 <= o && o % 2 == 0 && (o - 56) / 2 < |name| then (name[(o - 56) / 2] as int) % 256
    else 0
  }

  function TableOf(rows: seq<Row>): (x: seq<byte>)
    requires Rows(rows)
    ensures |x| == ENTRIES
  {
    seq(ENTRIES, i requires 0 <= i < ENTRIES => if i < 1024 then RowByte(rows[i / 128], LABELS[i / 128], i % 128) else 0)
  }

  lemma RowAt(rows: seq<Row>, e: nat, o: nat)
    requires Rows(rows) && e < 8 && o < 128
    ensures TableOf(rows)[128 * e + o] == RowByte(rows[e], LABELS[e], o)
  {
    assert (128 * e + o) / 128 == e && (128 * e + o) % 128 == o;
  }

  lemma FieldOf(b: seq<byte>, o: nat, n: nat, k: nat)
    requires o + k <= |b| && n < Pow256(k) && forall i :: o <= i < o + k ==> b[i] == Le(n, k)[i - o]
    ensures LeAt(b, o, k) == n
  {
    LeValue(n, k);
    assert b[o..o + k] == Le(n, k)[0..k];
    LeAtSame(b, Le(n, k), o, 0, k);
  }

  predicate Address(row: Row, n: nat, at: nat) {
    (at == 32 && n == row.start) || (at == 40 && n == row.finish)
  }

  lemma AddressByte(rows: seq<Row>, e: nat, n: nat, at: nat, k: nat)
    requires Rows(rows) && e < 8 && Address(rows[e], n, at) && k < 8
    ensures TableOf(rows)[128 * e + at + k] == Le(n, 8)[k]
  {
    RowAt(rows, e, at + k);
  }

  lemma AddressAt(rows: seq<Row>, e: nat, n: nat, at: nat)
    requires Rows(rows) && e < 8 && Address(rows[e], n, at)
    ensures U64At(TableOf(rows), 128 * e + at) == n
  {
    var x, o := TableOf(rows), 128 * e + at;
    forall i | o <= i < o + 8 ensures x[i] == Le(n, 8)[i - o] {
      AddressByte(rows, e, n, at, i - o);
    }
    assert Pow256(8) == U64;
    FieldOf(x, o, n, 8);
  }

  lemma UsedAt(rows: seq<Row>, e: nat)
    requires Rows(rows) && e < 8
    ensures Used(TableOf(rows), e) <==> rows[e].used
  {
    var x := TableOf(rows);
    forall k | 128 * e <= k < 128 * e + 16 ensures x[k] == if k == 128 * e && rows[e].used then 1 else 0 {
      RowAt(rows, e, k - 128 * e);
    }
    assert rows[e].used ==> x[128 * e] != 0;
  }

  lemma LabelsPlainBytes(e: nat)
    requires e < 8
    ensures |LABELS[e]| < 36 && forall k :: 0 <= k < |LABELS[e]| ==> LABELS[e][k] as int < 256
  {
  }

  lemma UnitOf(x: seq<byte>, o: nat)
    requires o + 2 <= |x|
    ensures U16At(x, o) == x[o] as int + 0x100 * x[o + 1] as int
  {
    assert LeAt(x, o + 1, 1) == x[o + 1] as int + 0x100 * LeAt(x, o + 2, 0);
  }

  lemma NameByte(row: Row, name: string, k: nat)
    requires row.start < U64 && row.finish < U64 && k <= |name|
    requires forall i :: 0 <= i < |name| ==> name[i] as int < 256
    ensures RowByte(row, name, 56 + 2 * k) == if k < |name| then name[k] as int else 0
    ensures RowByte(row, name, 57 + 2 * k) == 0
  {
    assert (56 + 2 * k) % 2 == 0 && (56 + 2 * k - 56) / 2 == k && (57 + 2 * k) % 2 == 1;
  }

  lemma LabelUnit(rows: seq<Row>, e: nat, k: nat, name: string)
    requires Rows(rows) && e < 8 && name == LABELS[e] && k <= |name| < 36
    requires forall i :: 0 <= i < |name| ==> name[i] as int < 256
    ensures U16At(TableOf(rows), 128 * e + 56 + 2 * k) == if k < |name| then name[k] as int else 0
  {
    NameByte(rows[e], name, k);
    RowAt(rows, e, 56 + 2 * k);
    RowAt(rows, e, 57 + 2 * k);
    UnitOf(TableOf(rows), 128 * e + 56 + 2 * k);
  }

  lemma LabelAt(rows: seq<Row>, e: nat)
    requires Rows(rows) && e < 8
    ensures Labelled(TableOf(rows), e, LABELS[e])
  {
    var name := LABELS[e];
    LabelsPlainBytes(e);
    forall k | 0 <= k < |name| ensures U16At(TableOf(rows), 128 * e + 56 + 2 * k) == name[k] as int {
      LabelUnit(rows, e, k, name);
    }
    LabelUnit(rows, e, |name|, name);
  }

  /** The table says what its rows say. */
  lemma TableReads(rows: seq<Row>)
    requires Rows(rows)
    ensures forall e :: 0 <= e < 8 ==>
      && Start(TableOf(rows), e) == rows[e].start && Finish(TableOf(rows), e) == rows[e].finish
      && (Used(TableOf(rows), e) <==> rows[e].used) && Labelled(TableOf(rows), e, LABELS[e])
    ensures forall e :: 8 <= e < 128 ==> !Used(TableOf(rows), e)
  {
    forall e | 0 <= e < 8
      ensures Start(TableOf(rows), e) == rows[e].start && Finish(TableOf(rows), e) == rows[e].finish
      ensures (Used(TableOf(rows), e) <==> rows[e].used) && Labelled(TableOf(rows), e, LABELS[e])
    {
      AddressAt(rows, e, rows[e].start, 32);
      AddressAt(rows, e, rows[e].finish, 40);
      UsedAt(rows, e);
      LabelAt(rows, e);
    }
  }

  // The header and the boot sector.

  function HeaderByte(sectors: nat, crc: nat, i: nat): byte
    requires 34 <= sectors < U32
  {
    if i < 8 then SIGNATURE[i]
    else if i == 10 then 1
    else if i == 12 then 92
    else if i == 40 then 34
    else if 48 <= i < 56 then Le(sectors - 34, 8)[i - 48]
    else if i == 80 || i == 84 then 128
    else if 88 <= i < 92 then Le(crc, 4)[i - 88]
    else 0
  }

  function BaseHeader(sectors: nat, crc: nat): (h: seq<byte>)
    requires 34 <= sectors < U32
    ensures |h| == 512
  {
    seq(512, i requires 0 <= i < 512 => HeaderByte(sectors, crc, i))
  }

  lemma SmallField(b: seq<byte>, o: nat, k: nat)
    requires 0 < k && o + k <= |b| && forall i :: o < i < o + k ==> b[i] == 0
    ensures LeAt(b, o, k) == b[o] as int
  {
    ZeroField(b, o + 1, k - 1);
  }

  lemma {:induction false} ZeroField(b: seq<byte>, o: nat, k: nat)
    requires o + k <= |b| && forall i :: o <= i < o + k ==> b[i] == 0
    ensures LeAt(b, o, k) == 0
    decreases k
  {
    if k > 0 {
      ZeroField(b, o + 1, k - 1);
    }
  }

  lemma BaseFields(sectors: nat, crc: nat)
    requires 34 <= sectors < U32 && crc < U32
    ensures var h := BaseHeader(sectors, crc);
      && Constant(h)
      && U64At(h, 40) == 34 && U64At(h, 48) == sectors - 34 && U32At(h, 88) == crc
  {
    var h := BaseHeader(sectors, crc);
    assert Pow256(8) == U64 && Pow256(4) == U32;
    SmallField(h, 12, 4);
    SmallField(h, 80, 4);
    SmallField(h, 84, 4);
    ZeroField(h, 20, 4);
    SmallField(h, 40, 8);
    FieldOf(h, 48, sectors - 34, 8);
    FieldOf(h, 88, crc, 4);
    SmallField(h, 10, 2);
    assert LeAt(h, 8, 4) == h[8] as int + 0x100 * LeAt(h, 9, 3);
    assert LeAt(h, 9, 3) == h[9] as int + 0x100 * LeAt(h, 10, 2);
    assert h[..8] == SIGNATURE;
  }

  function BootSector(sectors: nat): (b: seq<byte>)
    requires 0 < sectors < U32
    ensures |b| == 512
  {
    seq(512, i requires 0 <= i < 512 =>
      if i == 450 then 0xee else if i == 454 then 1
      else if 458 <= i < 462 then Le(sectors - 1, 4)[i - 458]
      else if i == 510 then 0x55 else if i == 511 then 0xaa else 0)
  }

  // The pair.

  ghost function Primary(rows: seq<Row>, sectors: nat): (p: seq<byte>)
    requires Rows(rows) && 34849 < sectors < U32
    ensures |p| == HEAD && Array(p) == TableOf(rows)
  {
    var x := TableOf(rows);
    BaseFields(sectors, Crc(x));
    JoinedHead(BootSector(sectors), Retargeted(BaseHeader(sectors, Crc(x)), 1, sectors - 1, 2), x);
    PrimaryOf(BootSector(sectors), BaseHeader(sectors, Crc(x)), x, sectors)
  }

  ghost function Tail(rows: seq<Row>, sectors: nat): (t: seq<byte>)
    requires Rows(rows) && 34849 < sectors < U32 && Sized(Header(Primary(rows, sectors)))
    ensures |t| == TAIL
  {
    BackupOf(Header(Primary(rows, sectors)), TableOf(rows), sectors)
  }

  /** The used rows are partitions of a disk of that size. */
  predicate Partitions(rows: seq<Row>, sectors: nat) {
    && Rows(rows) && 34849 < sectors < U32
    && (forall e :: 0 <= e < 8 && rows[e].used ==> 34 <= rows[e].start <= rows[e].finish && rows[e].finish + 34 <= sectors)
    && forall e, f :: 0 <= e < f < 8 && rows[e].used && rows[f].used ==>
         rows[e].finish < rows[f].start || rows[f].finish < rows[e].start
  }

  lemma HeaderValid(rows: seq<Row>, sectors: nat)
    requires Rows(rows) && 34849 < sectors < U32
    ensures var p := Primary(rows, sectors);
      && HeaderOk(Header(p), 1, sectors - 1, 2)
      && U64At(Header(p), 40) == 34 && U64At(Header(p), 48) == sectors - 34
      && U32At(Header(p), 88) == Crc(TableOf(rows))
      && p[..512] == BootSector(sectors)
  {
    var x := TableOf(rows);
    var h := BaseHeader(sectors, Crc(x));
    BaseFields(sectors, Crc(x));
    var r := Retargeted(h, 1, sectors - 1, 2);
    RetargetedIs(h, 1, sectors - 1, 2);
    ConstantSame(r, h);
    U64Bytes(r, h, 40);
    U64Bytes(r, h, 48);
    U32Bytes(r, h, 88);
    JoinedHead(BootSector(sectors), r, x);
  }

  lemma TableLayout(rows: seq<Row>, sectors: nat)
    requires Partitions(rows, sectors)
    ensures InBounds(TableOf(rows), 34, sectors - 34) && Disjoint(TableOf(rows))
  {
    TableReads(rows);
  }

  lemma BootFields(sectors: nat)
    requires 0 < sectors < U32
    ensures U32At(BootSector(sectors), 454) == 1 && U32At(BootSector(sectors), 458) == sectors - 1
  {
    assert Pow256(4) == U32;
    SmallField(BootSector(sectors), 454, 4);
    FieldOf(BootSector(sectors), 458, sectors - 1, 4);
  }

  lemma SampleBoot(rows: seq<Row>, sectors: nat)
    requires Rows(rows) && 34849 < sectors < U32
    ensures ProtectiveMbr(Primary(rows, sectors)) && SimpleMbr(Primary(rows, sectors), sectors)
  {
    var p, b := Primary(rows, sectors), BootSector(sectors);
    HeaderValid(rows, sectors);
    BootFields(sectors);
    forall i | 0 <= i < 512 ensures p[i] == b[i] {
      assert p[..512][i] == b[i];
    }
    U32Bytes(p, b, 454);
    U32Bytes(p, b, 458);
  }

  /** Such rows make a healthy pair. */
  lemma SampleHealthy(rows: seq<Row>, sectors: nat)
    requires Partitions(rows, sectors)
    ensures Sized(Header(Primary(rows, sectors)))
    ensures Healthy(Primary(rows, sectors), Tail(rows, sectors), sectors)
  {
    var p := Primary(rows, sectors);
    HeaderValid(rows, sectors);
    TableLayout(rows, sectors);
    SampleBoot(rows, sectors);
    assert PrimaryValid(p, sectors);
    BackupOfValid(p, sectors);
  }

  lemma SampleAccepted(rows: seq<Row>, sectors: nat)
    requires Partitions(rows, sectors) && rows[0].start == 34816
    requires forall e :: 0 <= e < 8 ==> rows[e].start >= 34816
    ensures Sized(Header(Primary(rows, sectors)))
    ensures Accepted(Primary(rows, sectors), Tail(rows, sectors), sectors)
  {
    SampleHealthy(rows, sectors);
    TableReads(rows);
  }

  // What goes wrong.

  /** Seven partitions of 1000 sectors each, and the given eighth row. */
  function Seven(first: nat, last: Row): (rows: seq<Row>)
    ensures |rows| == 8
  {
    seq(8, e requires 0 <= e < 8 => if e < 7 then Row(first + 1000 * e, first + 1000 * e + 999, true) else last)
  }

  function Wrapped(last: Row): (nat, nat)
    requires last.start < U64 && last.finish < U64
  {
    (last.start % U32, (last.finish + 1 - last.start) % U64 * 512 % U64)
  }

  /** Seven runs one behind the other, and an eighth. */
  function SevenRuns(eighth: (nat, nat)): (places: seq<(nat, nat)>)
    ensures |places| == 8 && places[7] == eighth
  {
    seq(8, e requires 0 <= e < 8 => if e < 7 then (34816 + 1000 * e, 512000) else eighth)
  }

  lemma SevenExtent(rows: seq<Row>, e: nat)
    requires Rows(rows) && e < 7 && rows[e] == Row(34816 + 1000 * e, 34816 + 1000 * e + 999, true)
    ensures EntryExtent(TableOf(rows), e) == (34816 + 1000 * e, 512000)
  {
    TableReads(rows);
    ExtentValue(TableOf(rows), e);
  }

  lemma LastExtent(rows: seq<Row>)
    requires Rows(rows)
    ensures EntryExtent(TableOf(rows), 7) == Wrapped(rows[7])
    ensures Used(TableOf(rows), 7) <==> rows[7].used
  {
    TableReads(rows);
  }

  lemma SevenPlaces(last: Row)
    requires last.start < U64 && last.finish < U64
    ensures Rows(Seven(34816, last))
    ensures forall e :: 0 <= e < 8 ==> EntryExtent(TableOf(Seven(34816, last)), e) == SevenRuns(Wrapped(last))[e]
  {
    var rows := Seven(34816, last);
    forall e | 0 <= e < 8 ensures EntryExtent(TableOf(rows), e) == SevenRuns(Wrapped(last))[e] {
      if e < 7 {
        SevenExtent(rows, e);
      } else {
        LastExtent(rows);
      }
    }
  }

  /** An accepted pair of a disk of 100000 sectors with an unused eighth row. */
  lemma SevenAccepted(last: Row) returns (p: seq<byte>, t: seq<byte>)
    requires 34816 <= last.start < U64 && last.finish < U64 && !last.used
    ensures Accepted(p, t, 100000) && |p| == HEAD
    ensures EightExtents(p) == SevenRuns(Wrapped(last)) && !Used(Array(p), 7)
  {
    var rows := Seven(34816, last);
    SampleAccepted(rows, 100000);
    SevenPlaces(last);
    LastExtent(rows);
    p, t := Primary(rows, 100000), Tail(rows, 100000);
    SameExtents(p, TableOf(rows), SevenRuns(Wrapped(last)));
  }

  lemma SameExtents(p: seq<byte>, x: seq<byte>, places: seq<(nat, nat)>)
    requires |p| == HEAD && |x| == ENTRIES && Array(p) == x && |places| == 8
    requires forall e :: 0 <= e < 8 ==> EntryExtent(x, e) == places[e]
    ensures EightExtents(p) == places
  {
  }

  lemma SevenRunsFit(eighth: (nat, nat))
    requires OnDisk(eighth, 100000) && (eighth.0 + eighth.1 / 512 <= 34816 || 41816 <= eighth.0)
    ensures PlacesFit(SevenRuns(eighth), 100000)
    ensures PlacesClear(SevenRuns(eighth), 100000) <==> 34 <= eighth.0 && eighth.0 + eighth.1 / 512 + 33 <= 100000
  {
    var places := SevenRuns(eighth);
    assert places[7] == eighth;
  }

  lemma WrappedRows()
    ensures Wrapped(Row(U32, U32, false)) == (0, 512)
    ensures Wrapped(Row(50000, 49999, false)) == (50000, 0)
    ensures Wrapped(Row(50000, 50999, false)) == (50000, 512000)
  {
  }

  lemma ExactlyFor(p: seq<byte>, t: seq<byte>, sha: Hash, places: seq<(nat, nat)>)
    requires Accepted(p, t, 100000) && EightExtents(p) == places
    ensures AlwaysSound(p, t, 100000, sha) <==> PlacesFit(places, 100000) && PlacesClear(places, 100000)
  {
    PartialRestoreExactly(p, t, 100000, sha);
  }

  /** An accepted table whose unused eighth entry has wrapped around to sector 0: the plan passes the range check, and
      there is an archive and a disk for which it overwrites the boot sector. */
  lemma StrayEntry(sha: Hash) returns (p: seq<byte>, t: seq<byte>)
    ensures Accepted(p, t, 100000) && EightExtents(p) == SevenRuns((0, 512))
    ensures PlacesFit(SevenRuns((0, 512)), 100000)
    ensures !AlwaysSound(p, t, 100000, sha)
  {
    WrappedRows();
    p, t := SevenAccepted(Row(U32, U32, false));
    SevenRunsFit((0, 512));
    ExactlyFor(p, t, sha, SevenRuns((0, 512)));
  }

  /** One whose unused eighth entry ends right before it starts: a backup can be made of any disk that has it, and every
      restore of that backup is refused. */
  lemma EmptyEntry() returns (p: seq<byte>, t: seq<byte>)
    ensures Accepted(p, t, 100000) && EightExtents(p) == SevenRuns((50000, 0))
    ensures forall d :: |d| == 512 * 100000 ==> AllReadable(d, SevenRuns((50000, 0)))
    ensures !PlacesFit(SevenRuns((50000, 0)), 100000)
  {
    WrappedRows();
    p, t := SevenAccepted(Row(50000, 49999, false));
    assert !OnDisk(SevenRuns((50000, 0))[7], 100000);
  }

  /** And one whose unused eighth entry does no harm. */
  lemma HarmlessEntry(sha: Hash) returns (p: seq<byte>, t: seq<byte>)
    ensures Accepted(p, t, 100000) && |p| == HEAD && !EightUsed(Array(p))
    ensures AlwaysSound(p, t, 100000, sha)
  {
    WrappedRows();
    p, t := SevenAccepted(Row(50000, 50999, false));
    SevenRunsFit((50000, 512000));
    ExactlyFor(p, t, sha, SevenRuns((50000, 512000)));
  }

  lemma UnfitMove(p: seq<byte>, rows: seq<Row>, sectors: nat)
    requires |p| == HEAD && Rows(rows) && Array(p) == TableOf(rows)
    requires rows[7].used && sectors < rows[7].finish + SHIFT + 34
    ensures !Fits(Array(p), sectors)
  {
    TableReads(rows);
    assert Used(Array(p), 7) && Finish(Array(p), 7) == rows[7].finish;
  }

  lemma TableTail(rows: seq<Row>)
    requires Rows(rows)
    ensures forall k :: 1024 <= k < ENTRIES ==> TableOf(rows)[k] == 0
  {
  }

  lemma MovableSource(rows: seq<Row>)
    requires Rows(rows) && rows[0].start == 2048
    requires forall e :: 0 <= e < 8 ==> rows[e].used && 2048 <= rows[e].start
    ensures Start(TableOf(rows), 0) == 2048 && K11cSource(TableOf(rows))
  {
    assert Start(TableOf(rows), 0) == 2048 && forall e :: 0 <= e < 8 ==>
      Labelled(TableOf(rows), e, LABELS[e]) && Used(TableOf(rows), e) && Start(TableOf(rows), e) >= 2048 by {
      TableReads(rows);
    }
    TableTail(rows);
    MovableBy(TableOf(rows));
  }

  lemma MovableBy(x: seq<byte>)
    requires |x| == ENTRIES && Start(x, 0) == 2048 && forall k :: 1024 <= k < ENTRIES ==> x[k] == 0
    requires forall e :: 0 <= e < 8 ==> Labelled(x, e, LABELS[e]) && Used(x, e) && Start(x, e) >= 2048
    ensures K11cSource(x)
  {
  }

  /** At the largest disk the capacity guard of `relocated` saturates: an image of that very size passes all the guards,
      and its data partition no longer fits once moved. */
  lemma SaturatedGuard() returns (p: seq<byte>, t: seq<byte>)
    ensures Relocatable(p, t, U32 - 1, U32 - 1) && K11cSource(Array(p))
    ensures !Fits(Array(p), U32 - 1)
  {
    var rows := Seven(2048, Row(20000, U32 - 35, true));
    SampleHealthy(rows, U32 - 1);
    SampleBoot(rows, U32 - 1);
    p, t := Primary(rows, U32 - 1), Tail(rows, U32 - 1);
    MovableSource(rows);
    UnfitMove(p, rows, U32 - 1);
  }

  lemma BaseSize(sectors: nat, crc: nat)
    requires 34 <= sectors < U32
    ensures U32At(BaseHeader(sectors, crc), 12) == 92
  {
    SmallField(BaseHeader(sectors, crc), 12, 4);
  }

  lemma PlacedHeader(b: seq<byte>) returns (h: seq<byte>)
    requires Constant(b)
    ensures |h| == 512 && HeaderOk(h, 1, 99999, 2) && U32At(h, 12) == U32At(b, 12)
  {
    h := Retargeted(b, 1, 99999, 2);
    RetargetedIs(b, 1, 99999, 2);
    ConstantSame(h, b);
    U32Bytes(h, b, 12);
  }

  /** A valid header of the usual declared size, 92 bytes, with a byte behind it changed: it is as valid as before. */
  lemma UnnoticedByte() returns (h: seq<byte>, k: nat, v: byte)
    ensures k < |h| == 512 && v != h[k]
    ensures HeaderOk(h, 1, 99999, 2) && HeaderOk(h[k := v], 1, 99999, 2)
  {
    BaseFields(100000, 0);
    BaseSize(100000, 0);
    h := PlacedHeader(BaseHeader(100000, 0));
    k, v := 200, if h[200] == 0 then 1 else 0;
    HeaderDamageNoticed(h, k, v, 1, 99999, 2);
  }
}
