/** A successful read-back in terms of the firmware as it was written: entries of plain bytes, or of sparse images by what
    their writer put into them. */
module FactoryReadback {
  import opened Common
  import opened Bytes
  import opened Gpt
  import opened GptCheck
  import opened GptEdit
  import opened Sparse
  import opened Factory
  import SparseFormat

  /** The entry's bytes are a sparse image of the chunks `cs`. */
  predicate WrittenAs(file: seq<byte>, e: Entry, l: SparseFormat.Layout, cs: seq<SparseFormat.Chunk>) {
    && SparseFormat.Writable(l, cs) && e.offset + e.bytes <= |file|
    && file[e.offset..e.offset + e.bytes] == SparseFormat.Encoding(l, cs)
  }

  /** What an entry is meant to put on the disk, byte by byte, with nothing where a sparse image leaves blocks open. */
  ghost predicate Holds(file: seq<byte>, e: Entry, content: seq<Option<byte>>) {
    if e.sparse then
      exists l, cs :: WrittenAs(file, e, l, cs) && content == SparseFormat.Contents(cs, l.block)
    else
      && e.offset + e.bytes <= |file| && |content| == e.bytes
      && forall i :: 0 <= i < e.bytes ==> content[i] == Some(file[e.offset + i])
  }

  predicate OnDiskAt(d: seq<byte>, at: nat, content: seq<Option<byte>>) {
    forall i :: 0 <= i < |content| && content[i].Some? ==> at + i < |d| && d[at + i] == content[i].value
  }

  /** By the table `x` the partition of the entry exists, is large enough for all of `content`, open blocks included, and
      holds it from its first sector on. */
  predicate InPlace(d: seq<byte>, x: seq<byte>, sectors: nat, e: Entry, parts: seq<Partition>, content: seq<Option<byte>>)
    requires Homed(parts, e)
  {
    var k := Named(parts, e.name);
    && Roomy(x, parts, k, sectors)
    && var row := UsedUpTo(x, 128)[k];
    && |content| <= 512 * (Finish(x, row) + 1 - Start(x, row))
    && OnDiskAt(d, 512 * Start(x, row), content)
  }

  /** The image of an accepted entry, for either capacity it was accepted for. */
  lemma SparseMeant(file: seq<byte>, e: Entry, l: SparseFormat.Layout, cs: seq<SparseFormat.Chunk>, capacity: nat,
                    content: seq<Option<byte>>, i: nat)
    requires e.sparse && WrittenAs(file, e, l, cs) && content == SparseFormat.Contents(cs, l.block)
    requires Image(file, e.offset, e.bytes, capacity).Some?
    ensures Factory.Extent(file, e, capacity) == |content|
    ensures i < |content| ==> Defined(file, e, capacity, i) == content[i]
  {
    SparseFormat.AcceptedFits(file, e.offset, e.bytes, l, cs, capacity);
    var ps, c := SparseFormat.WrittenImage(file, e.offset, e.bytes, l, cs, capacity, i);
  }

  lemma Meant(file: seq<byte>, e: Entry, capacity: nat, content: seq<Option<byte>>, i: nat)
    requires Holds(file, e, content) && (e.sparse ==> Image(file, e.offset, e.bytes, capacity).Some?)
    ensures Factory.Extent(file, e, capacity) == |content|
    ensures i < |content| ==> Defined(file, e, capacity, i) == content[i]
  {
    if e.sparse {
      var l, cs :| WrittenAs(file, e, l, cs) && content == SparseFormat.Contents(cs, l.block);
      SparseMeant(file, e, l, cs, capacity, content, i);
    }
  }

  /** The image of an entry that passed `verification` was accepted. */
  lemma Accepted(file: seq<byte>, entries: seq<Entry>, parts: seq<Partition>, sectors: nat, n: nat) returns (capacity: nat)
    requires Located(parts, sectors) && Verifiable(file, entries, parts, sectors)
    requires n < |entries| && Homed(parts, entries[n])
    ensures capacity == Capacity(Home(parts, entries[n]), sectors)
    ensures entries[n].sparse ==> Image(file, entries[n].offset, entries[n].bytes, capacity).Some?
  {
    assert EntryOkAt(file, entries, n, parts, sectors);
    capacity := Capacity(Home(parts, entries[n]), sectors);
  }

  lemma AcceptedAgain(file: seq<byte>, x: seq<byte>, sectors: nat, entries: seq<Entry>, parts: seq<Partition>, n: nat)
    returns (room: nat)
    requires Fitting(file, x, sectors, entries, parts) && n < |entries| && Homed(parts, entries[n])
    ensures Roomy(x, parts, Named(parts, entries[n].name), sectors)
    ensures var row := UsedUpTo(x, 128)[Named(parts, entries[n].name)];
      room == 512 * (Finish(x, row) + 1 - Start(x, row))
    ensures entries[n].sparse ==> Image(file, entries[n].offset, entries[n].bytes, room).Some?
  {
    assert Roomy(x, parts, Named(parts, entries[n].name), sectors);
    var actual, k, r := ActualRoom(x, parts, entries[n].name, sectors);
    room := Accepted(file, entries, actual, sectors, n);
  }

  lemma ByteInPlace(file: seq<byte>, d: seq<byte>, x: seq<byte>, sectors: nat, entries: seq<Entry>, parts: seq<Partition>,
                    n: nat, content: seq<Option<byte>>, i: nat)
    requires Located(parts, sectors) && Verifiable(file, entries, parts, sectors)
    requires Fitting(file, x, sectors, entries, parts)
    requires n < |entries| && Homed(parts, entries[n]) && Holds(file, entries[n], content)
    requires EntryInPlace(file, d, x, sectors, entries[n], parts, i)
    ensures var row := UsedUpTo(x, 128)[Named(parts, entries[n].name)];
      && |content| <= 512 * (Finish(x, row) + 1 - Start(x, row))
      && (i < |content| && content[i].Some? ==>
            512 * Start(x, row) + i < |d| && d[512 * Start(x, row) + i] == content[i].value)
  {
    var capacity := Accepted(file, entries, parts, sectors, n);
    var room := AcceptedAgain(file, x, sectors, entries, parts, n);
    Meant(file, entries[n], capacity, content, i);
    Meant(file, entries[n], room, content, i);
  }

  /** Where the partition of an entry starts, and how much room it has, by the table `x`. */
  predicate Site(x: seq<byte>, sectors: nat, e: Entry, parts: seq<Partition>, at: nat, room: nat) {
    && Homed(parts, e) && Roomy(x, parts, Named(parts, e.name), sectors)
    && var row := UsedUpTo(x, 128)[Named(parts, e.name)];
    && at == 512 * Start(x, row) && room == 512 * (Finish(x, row) + 1 - Start(x, row))
  }

  lemma ByteThere(file: seq<byte>, d: seq<byte>, x: seq<byte>, sectors: nat, entries: seq<Entry>, parts: seq<Partition>,
                  n: nat, content: seq<Option<byte>>, i: nat, at: nat, room: nat)
    requires InFile(file, entries) && Located(parts, sectors) && Verifiable(file, entries, parts, sectors)
    requires forall c :: c in AllChecks(file, entries, |entries|, parts, sectors) ==> Passes(file, d, c)
    requires Fitting(file, x, sectors, entries, parts)
    requires n < |entries| && Holds(file, entries[n], content) && Site(x, sectors, entries[n], parts, at, room)
    ensures |content| <= room
    ensures i < |content| && content[i].Some? ==> at + i < |d| && d[at + i] == content[i].value
  {
    EntryPlaced(file, d, x, sectors, entries, parts, n, i);
    ByteInPlace(file, d, x, sectors, entries, parts, n, content, i);
  }

  lemma ContentThere(file: seq<byte>, d: seq<byte>, x: seq<byte>, sectors: nat, entries: seq<Entry>,
                     parts: seq<Partition>, n: nat, content: seq<Option<byte>>, at: nat, room: nat)
    requires InFile(file, entries) && Located(parts, sectors) && Verifiable(file, entries, parts, sectors)
    requires forall c :: c in AllChecks(file, entries, |entries|, parts, sectors) ==> Passes(file, d, c)
    requires Fitting(file, x, sectors, entries, parts)
    requires n < |entries| && Holds(file, entries[n], content) && Site(x, sectors, entries[n], parts, at, room)
    ensures |content| <= room && OnDiskAt(d, at, content)
  {
    ByteThere(file, d, x, sectors, entries, parts, n, content, 0, at, room);
    forall i | 0 <= i < |content| && content[i].Some? ensures at + i < |d| && d[at + i] == content[i].value {
      ByteThere(file, d, x, sectors, entries, parts, n, content, i, at, room);
    }
  }

  lemma SiteOf(file: seq<byte>, x: seq<byte>, sectors: nat, entries: seq<Entry>, parts: seq<Partition>, n: nat)
    returns (at: nat, room: nat)
    requires Fitting(file, x, sectors, entries, parts) && n < |entries| && Homed(parts, entries[n])
    ensures Site(x, sectors, entries[n], parts, at, room)
  {
    room := AcceptedAgain(file, x, sectors, entries, parts, n);
    at := 512 * Start(x, UsedUpTo(x, 128)[Named(parts, entries[n].name)]);
  }

  lemma ContentInPlace(file: seq<byte>, d: seq<byte>, x: seq<byte>, sectors: nat, entries: seq<Entry>,
                       parts: seq<Partition>, n: nat, content: seq<Option<byte>>)
    requires InFile(file, entries) && Located(parts, sectors) && Verifiable(file, entries, parts, sectors)
    requires forall c :: c in AllChecks(file, entries, |entries|, parts, sectors) ==> Passes(file, d, c)
    requires Fitting(file, x, sectors, entries, parts)
    requires n < |entries| && Homed(parts, entries[n]) && Holds(file, entries[n], content)
    ensures InPlace(d, x, sectors, entries[n], parts, content)
  {
    var at, room := SiteOf(file, x, sectors, entries, parts, n);
    ContentThere(file, d, x, sectors, entries, parts, n, content, at, room);
  }

  /** The whole check, from the firmware file to the disk: after a successful read-back every firmware entry lies in its
      partition by the table now on the disk, as its writer meant it, and its full extent inside the partition that the
      disk really has. */
  lemma ReadbackWritten(file: seq<byte>, d: seq<byte>, sectors: nat, entries: seq<Entry>, parts: seq<Partition>, n: nat,
                        content: seq<Option<byte>>)
    requires InFile(file, entries) && Factory.Placed(parts) && FitsDisk(parts, sectors) && |d| == 512 * sectors
    requires Located(parts, sectors) && Verifiable(file, entries, parts, sectors)
    requires ReadsBack(file, d, sectors, AllChecks(file, entries, |entries|, parts, sectors), entries, parts)
    requires n < |entries| && Homed(parts, entries[n]) && Holds(file, entries[n], content)
    ensures |d| >= HEAD + TAIL && InPlace(d, Array(d[..HEAD]), sectors, entries[n], parts, content)
  {
    ReadsBackParts(file, d, sectors, AllChecks(file, entries, |entries|, parts, sectors), entries, parts);
    ContentInPlace(file, d, Array(d[..HEAD]), sectors, entries, parts, n, content);
  }

  /** Every entry that passed `verification` means something: a sparse one was written from some list of chunks. */
  lemma HoldsSomething(file: seq<byte>, entries: seq<Entry>, parts: seq<Partition>, sectors: nat, n: nat)
    returns (content: seq<Option<byte>>)
    requires InFile(file, entries) && Located(parts, sectors) && Verifiable(file, entries, parts, sectors)
    requires n < |entries| && Homed(parts, entries[n])
    ensures Holds(file, entries[n], content)
  {
    var e := entries[n];
    if e.sparse {
      var capacity := Accepted(file, entries, parts, sectors, n);
      var l, cs := SparseFormat.AcceptedWritten(file, e.offset, e.bytes, capacity);
      content := SparseFormat.Contents(cs, l.block);
      assert WrittenAs(file, e, l, cs);
    } else {
      content := seq(e.bytes, i requires 0 <= i < e.bytes => Some(file[e.offset + i]));
    }
  }

  // And nothing else is refused.

  lemma EntryComplete(file: seq<byte>, e: Entry, lba: nat, capacity: nat, used: nat, d: seq<byte>,
                      content: seq<Option<byte>>, c: Check)
    requires EntryOk(file, e, lba, capacity, used) && Holds(file, e, content) && OnDiskAt(d, 512 * lba, content)
    requires c in EntryChecks(file, e, lba, capacity)
    ensures Passes(file, d, c)
  {
    if e.sparse {
      SparseComplete(file, e, lba, capacity, d, content, c);
    } else {
      forall i | 0 <= i < c.bytes ensures OnDisk(file, d, c, i) {
        assert content[i].Some?;
      }
    }
  }

  lemma SparseComplete(file: seq<byte>, e: Entry, lba: nat, capacity: nat, d: seq<byte>, content: seq<Option<byte>>,
                       c: Check)
    requires e.sparse && Image(file, e.offset, e.bytes, capacity).Some? && Holds(file, e, content)
    requires OnDiskAt(d, 512 * lba, content) && c in Checks(Image(file, e.offset, e.bytes, capacity).value, lba)
    ensures Passes(file, d, c)
  {
    var ps := ImageProper(file, e.offset, e.bytes, capacity);
    forall i: nat ensures ByteHeld(Expanded(file, ps, i), d, 512 * lba + i) {
      Meant(file, e, capacity, content, i);
      ExpandedWithin(file, ps, i);
    }
    ChecksComplete(file, ps, lba, d, c);
  }

  lemma ImageProper(file: seq<byte>, o: nat, bytes: nat, capacity: nat) returns (ps: seq<Piece>)
    requires Image(file, o, bytes, capacity).Some?
    ensures Image(file, o, bytes, capacity) == Some(ps) && Whole(ps) && AllProper(file, ps)
  {
    var h := HeaderAt(file, o);
    ImageFits(file, o, bytes, capacity);
    PiecesProper(file, h, o + bytes, o + h.fh, h.chunks, 0);
    ps := Image(file, o, bytes, capacity).value;
  }

  /** The entry a check came from. */
  lemma {:induction false} CheckFrom(file: seq<byte>, entries: seq<Entry>, n: nat, parts: seq<Partition>, sectors: nat,
                                     c: Check)
    returns (i: nat)
    requires n <= |entries| && Located(parts, sectors) && c in AllChecks(file, entries, n, parts, sectors)
    ensures i < n && Homed(parts, entries[i])
    ensures c in EntryChecks(file, entries[i], Home(parts, entries[i]).lba, Capacity(Home(parts, entries[i]), sectors))
  {
    if c in AllChecks(file, entries, n - 1, parts, sectors) {
      i := CheckFrom(file, entries, n - 1, parts, sectors, c);
    } else {
      i := n - 1;
    }
  }

  /** What each entry that has a partition is meant to put there. */
  ghost predicate AllHold(file: seq<byte>, entries: seq<Entry>, parts: seq<Partition>, contents: seq<seq<Option<byte>>>) {
    && |contents| == |entries|
    && forall n :: 0 <= n < |entries| && Homed(parts, entries[n]) ==> Holds(file, entries[n], contents[n])
  }

  lemma PassesOnDisk(file: seq<byte>, entries: seq<Entry>, parts: seq<Partition>, sectors: nat, d: seq<byte>,
                     contents: seq<seq<Option<byte>>>, c: Check)
    requires Located(parts, sectors) && Verifiable(file, entries, parts, sectors)
    requires AllHold(file, entries, parts, contents)
    requires forall n :: 0 <= n < |entries| && Homed(parts, entries[n]) ==>
      OnDiskAt(d, 512 * Home(parts, entries[n]).lba, contents[n])
    requires c in AllChecks(file, entries, |entries|, parts, sectors)
    ensures Passes(file, d, c)
  {
    var i := CheckFrom(file, entries, |entries|, parts, sectors, c);
    var p := Home(parts, entries[i]);
    assert EntryOkAt(file, entries, i, parts, sectors);
    EntryComplete(file, entries[i], p.lba, Capacity(p, sectors), |AllChecks(file, entries, i, parts, sectors)|, d,
                  contents[i], c);
  }

  /** An image is read the same in any partition that is large enough. */
  lemma ImageAnyRoom(file: seq<byte>, o: nat, bytes: nat, capacity: nat, room: nat)
    requires Image(file, o, bytes, capacity).Some? && Total(Image(file, o, bytes, capacity).value) <= room
    ensures Image(file, o, bytes, room) == Image(file, o, bytes, capacity)
  {
    ImageFits(file, o, bytes, capacity);
  }

  lemma EntryAnyRoom(file: seq<byte>, e: Entry, lba: nat, capacity: nat, room: nat, used: nat)
    requires EntryOk(file, e, lba, capacity, used) && Factory.Extent(file, e, capacity) <= room
    ensures EntryOk(file, e, lba, room, used)
    ensures EntryChecks(file, e, lba, room) == EntryChecks(file, e, lba, capacity)
  {
    if e.sparse {
      ImageAnyRoom(file, e.offset, e.bytes, capacity, room);
    }
  }

  /** Other partitions of the same names and starts, each large enough for its entry. */
  predicate Roomier(file: seq<byte>, entries: seq<Entry>, parts: seq<Partition>, actual: seq<Partition>, sectors: nat)
    requires Located(parts, sectors) && Located(actual, sectors)
  {
    && |actual| == |parts|
    && (forall k :: 0 <= k < |parts| ==> actual[k].name == parts[k].name && actual[k].lba == parts[k].lba)
    && forall n :: 0 <= n < |entries| && Homed(parts, entries[n]) ==> EntryRoomy(file, entries[n], parts, actual, sectors)
  }

  predicate EntryRoomy(file: seq<byte>, e: Entry, parts: seq<Partition>, actual: seq<Partition>, sectors: nat)
    requires Located(parts, sectors) && Located(actual, sectors) && Homed(parts, e) && |actual| == |parts|
  {
    Factory.Extent(file, e, Capacity(Home(parts, e), sectors)) <= Capacity(actual[Named(parts, e.name)], sectors)
  }

  lemma SameHome(parts: seq<Partition>, actual: seq<Partition>, e: Entry) returns (k: nat)
    requires |actual| == |parts| && forall k :: 0 <= k < |parts| ==> actual[k].name == parts[k].name
    ensures k == Named(parts, e.name) == Named(actual, e.name) && (Homed(parts, e) <==> Homed(actual, e))
  {
    NamedSame(parts, actual, e.name, 0);
    k := Named(parts, e.name);
  }

  lemma {:induction false} SameChecks(file: seq<byte>, entries: seq<Entry>, n: nat, parts: seq<Partition>,
                                      actual: seq<Partition>, sectors: nat)
    requires n <= |entries| && Located(parts, sectors) && Located(actual, sectors)
    requires Roomier(file, entries, parts, actual, sectors) && EntriesOk(file, entries, |entries|, parts, sectors)
    ensures AllChecks(file, entries, n, actual, sectors) == AllChecks(file, entries, n, parts, sectors)
  {
    if n > 0 {
      SameChecks(file, entries, n - 1, parts, actual, sectors);
      var k := SameHome(parts, actual, entries[n - 1]);
      if Homed(parts, entries[n - 1]) {
        assert EntryOkAt(file, entries, n - 1, parts, sectors);
        assert EntryRoomy(file, entries[n - 1], parts, actual, sectors);
        EntryAnyRoom(file, entries[n - 1], parts[k].lba, Capacity(parts[k], sectors), Capacity(actual[k], sectors),
                     |AllChecks(file, entries, n - 1, parts, sectors)|);
      }
    }
  }

  lemma VerifiableAgain(file: seq<byte>, entries: seq<Entry>, parts: seq<Partition>, actual: seq<Partition>, sectors: nat)
    requires Located(parts, sectors) && Located(actual, sectors) && Verifiable(file, entries, parts, sectors)
    requires Roomier(file, entries, parts, actual, sectors)
    ensures Verifiable(file, entries, actual, sectors)
  {
    SameChecks(file, entries, |entries|, parts, actual, sectors);
    forall i | 0 <= i < |entries| && Homed(actual, entries[i]) ensures EntryOkAt(file, entries, i, actual, sectors) {
      var k := SameHome(parts, actual, entries[i]);
      SameChecks(file, entries, i, parts, actual, sectors);
      assert EntryOkAt(file, entries, i, parts, sectors) && EntryRoomy(file, entries[i], parts, actual, sectors);
      EntryAnyRoom(file, entries[i], parts[k].lba, Capacity(parts[k], sectors), Capacity(actual[k], sectors),
                   |AllChecks(file, entries, i, parts, sectors)|);
    }
  }

  ghost predicate AllInPlace(d: seq<byte>, x: seq<byte>, sectors: nat, entries: seq<Entry>, parts: seq<Partition>,
                             contents: seq<seq<Option<byte>>>)
    requires |contents| == |entries|
  {
    forall n :: 0 <= n < |entries| && Homed(parts, entries[n]) ==> InPlace(d, x, sectors, entries[n], parts, contents[n])
  }

  lemma ActualRoomier(file: seq<byte>, d: seq<byte>, x: seq<byte>, sectors: nat, entries: seq<Entry>,
                      parts: seq<Partition>, contents: seq<seq<Option<byte>>>)
    requires Located(parts, sectors) && Verifiable(file, entries, parts, sectors)
    requires AllHold(file, entries, parts, contents)
    requires Rooms(x, parts, sectors) && Located(Actual(x, parts), sectors)
    requires AllInPlace(d, x, sectors, entries, parts, contents)
    ensures Roomier(file, entries, parts, Actual(x, parts), sectors)
  {
    var actual := Actual(x, parts);
    forall n | 0 <= n < |entries| && Homed(parts, entries[n])
      ensures EntryRoomy(file, entries[n], parts, actual, sectors)
    {
      assert InPlace(d, x, sectors, entries[n], parts, contents[n]);
      var same, k, room := ActualRoom(x, parts, entries[n].name, sectors);
      var capacity := Accepted(file, entries, parts, sectors, n);
      Meant(file, entries[n], capacity, contents[n], 0);
    }
  }

  lemma StartsPlanned(d: seq<byte>, x: seq<byte>, sectors: nat, entries: seq<Entry>, parts: seq<Partition>,
                      contents: seq<seq<Option<byte>>>)
    requires |contents| == |entries| && AllInPlace(d, x, sectors, entries, parts, contents)
    ensures forall n :: 0 <= n < |entries| && Homed(parts, entries[n]) ==>
      OnDiskAt(d, 512 * Home(parts, entries[n]).lba, contents[n])
  {
    forall n | 0 <= n < |entries| && Homed(parts, entries[n])
      ensures OnDiskAt(d, 512 * Home(parts, entries[n]).lba, contents[n])
    {
      assert InPlace(d, x, sectors, entries[n], parts, contents[n]);
    }
  }

  lemma FittingAgain(file: seq<byte>, d: seq<byte>, x: seq<byte>, sectors: nat, entries: seq<Entry>,
                     parts: seq<Partition>, contents: seq<seq<Option<byte>>>)
    requires Located(parts, sectors) && Verifiable(file, entries, parts, sectors)
    requires AllHold(file, entries, parts, contents)
    requires Rooms(x, parts, sectors) && AllInPlace(d, x, sectors, entries, parts, contents)
    ensures Fitting(file, x, sectors, entries, parts)
    ensures forall c :: c in AllChecks(file, entries, |entries|, parts, sectors) ==> Passes(file, d, c)
  {
    RoomsLocated(x, parts, sectors);
    ActualRoomier(file, d, x, sectors, entries, parts, contents);
    VerifiableAgain(file, entries, parts, Actual(x, parts), sectors);
    StartsPlanned(d, x, sectors, entries, parts, contents);
    forall c | c in AllChecks(file, entries, |entries|, parts, sectors) ensures Passes(file, d, c) {
      PassesOnDisk(file, entries, parts, sectors, d, contents, c);
    }
  }

  /** What a read-back accepts, exactly: the planned partitions, and in each of them what its entry is meant to put
      there. */
  lemma ReadbackExactly(file: seq<byte>, d: seq<byte>, sectors: nat, entries: seq<Entry>, parts: seq<Partition>,
                        contents: seq<seq<Option<byte>>>)
    requires InFile(file, entries) && Factory.Placed(parts) && FitsDisk(parts, sectors) && |d| == 512 * sectors
    requires Located(parts, sectors) && Verifiable(file, entries, parts, sectors)
    requires AllHold(file, entries, parts, contents)
    ensures |d| >= HEAD + TAIL
    ensures ReadsBack(file, d, sectors, AllChecks(file, entries, |entries|, parts, sectors), entries, parts) <==>
      && LayoutMatches(d[..HEAD], d[|d| - TAIL..], sectors, parts)
      && AllInPlace(d, Array(d[..HEAD]), sectors, entries, parts, contents)
  {
    var p, t := d[..HEAD], d[|d| - TAIL..];
    var checks := AllChecks(file, entries, |entries|, parts, sectors);
    if ReadsBack(file, d, sectors, checks, entries, parts) {
      forall n | 0 <= n < |entries| && Homed(parts, entries[n])
        ensures InPlace(d, Array(p), sectors, entries[n], parts, contents[n])
      {
        ReadbackWritten(file, d, sectors, entries, parts, n, contents[n]);
      }
    }
    if LayoutMatches(p, t, sectors, parts) && AllInPlace(d, Array(p), sectors, entries, parts, contents) {
      LayoutRooms(p, t, sectors, parts);
      FittingAgain(file, d, Array(p), sectors, entries, parts, contents);
    }
  }
}
