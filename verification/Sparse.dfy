/** Android sparse images: the parser of factory.rs that turns one into read-back checks, and what the image means. */
module Sparse {
  import opened Common
  import opened Bytes

  /** `bytes` bytes of the disk from sector `lba` on: those of the file from `offset` on, or one word repeated. */
  datatype Check = Check(lba: nat, bytes: nat, offset: nat, fill: Option<seq<byte>>)

  datatype Header = Header(fh: nat, ch: nat, block: nat, total: nat, chunks: nat)

  const MOST := 100000

  function HeaderAt(file: seq<byte>, o: nat): Header
    requires o + 28 <= |file|
  {
    Header(U16At(file, o + 8), U16At(file, o + 10), U32At(file, o + 12), U32At(file, o + 16), U32At(file, o + 20))
  }

  predicate HeaderOk(file: seq<byte>, o: nat, capacity: nat) {
    && o + 28 <= |file|
    && var h := HeaderAt(file, o);
    && file[o..o + 4] == [0x3a, 0xff, 0x26, 0xed] && U16At(file, o + 4) == 1
    && 28 <= h.fh <= 4096 && 12 <= h.ch <= 4096 && h.block > 0 && h.block % 512 == 0
    && h.total * h.block <= capacity && h.chunks <= 1000000
  }

  // One chunk.

  /** What a chunk contributes: bytes of the file, a repeated word, unspecified bytes, or a checksum of nothing. */
  datatype Piece = Raw(at: nat, n: nat) | Fill(word: seq<byte>, n: nat) | Skip(n: nat) | Sum(n: nat)

  /** The chunk at `pos`, unless it is damaged or does not fit. */
  function PieceAt(file: seq<byte>, h: Header, end: nat, pos: nat, expanded: nat): (p: Option<Piece>)
    ensures p.Some? ==> pos + 12 <= |file| && p.value.n == U32At(file, pos + 4) * h.block
  {
    if h.ch < 12 || pos + h.ch > end || end > |file| then None
    else
      var kind, n, size := U16At(file, pos), U32At(file, pos + 4) * h.block, U32At(file, pos + 8);
      if size < h.ch || pos + size > end || expanded + n > h.total * h.block then None
      else
        var payload := size - h.ch;
        if kind == 0xcac1 && payload == n && n > 0 then Some(Raw(pos + h.ch, n))
        else if kind == 0xcac2 && payload == 4 && n > 0 then Some(Fill(file[pos + h.ch..pos + h.ch + 4], n))
        else if kind == 0xcac3 && payload == 0 && n > 0 then Some(Skip(n))
        else if kind == 0xcac4 && payload == 4 && n == 0 then Some(Sum(0))
        else None
  }

  /** The `left` chunks from `pos` on, which must fill the image exactly and end where the entry ends. */
  function Pieces(file: seq<byte>, h: Header, end: nat, pos: nat, left: nat, expanded: nat): Option<seq<Piece>>
    decreases left
  {
    if left == 0 then
      if pos == end && expanded == h.total * h.block then Some([]) else None
    else
      var p := PieceAt(file, h, end, pos, expanded);
      if p.None? then None
      else
        var rest := Pieces(file, h, end, pos + U32At(file, pos + 8), left - 1, expanded + p.value.n);
        if rest.None? then None else Some([p.value] + rest.value)
  }

  /** The chunks of a sparse entry, or nothing if it is no good. */
  function Image(file: seq<byte>, o: nat, bytes: nat, capacity: nat): Option<seq<Piece>> {
    if !HeaderOk(file, o, capacity) then None
    else
      var h := HeaderAt(file, o);
      Pieces(file, h, o + bytes, o + h.fh, h.chunks, 0)
  }

  // What the image means.

  function Total(ps: seq<Piece>): nat {
    if ps == [] then 0 else Total(ps[..|ps| - 1]) + ps[|ps| - 1].n
  }

  function Byte(file: seq<byte>, p: Piece, i: nat): Option<byte> {
    match p
    case Raw(at, _) => if at + i < |file| then Some(file[at + i]) else None
    case Fill(word, _) => if |word| == 4 then Some(word[i % 4]) else None
    case _ => None
  }

  /** Byte `i` of the expanded image by definition of the format: raw data, a repeated word, or unspecified. */
  function Expanded(file: seq<byte>, ps: seq<Piece>, i: nat): Option<byte> {
    if ps == [] then None
    else
      var front, p := ps[..|ps| - 1], ps[|ps| - 1];
      if i < Total(front) then Expanded(file, front, i)
      else if i < Total(front) + p.n then Byte(file, p, i - Total(front))
      else None
  }

  // What the parser makes of it.

  function CheckOf(p: Piece, lba: nat, expanded: nat): seq<Check> {
    match p
    case Raw(at, n) => [Check(lba + expanded / 512, n, at, None)]
    case Fill(word, n) => [Check(lba + expanded / 512, n, 0, Some(word))]
    case _ => []
  }

  function Checks(ps: seq<Piece>, lba: nat): seq<Check> {
    if ps == [] then []
    else Checks(ps[..|ps| - 1], lba) + CheckOf(ps[|ps| - 1], lba, Total(ps[..|ps| - 1]))
  }

  lemma Push(ps: seq<Piece>, p: Piece, lba: nat)
    ensures Total(ps + [p]) == Total(ps) + p.n
    ensures Checks(ps + [p], lba) == Checks(ps, lba) + CheckOf(p, lba, Total(ps))
  {
    assert (ps + [p])[..|ps|] == ps;
  }

  /** What is done and what is left make up the whole. */
  predicate Joins(done: seq<Piece>, rest: Option<seq<Piece>>, all: Option<seq<Piece>>) {
    if rest.Some? then all == Some(done + rest.value) else all == None
  }

  lemma JoinsStart(all: Option<seq<Piece>>)
    ensures Joins([], all, all)
  {
    if all.Some? {
      assert [] + all.value == all.value;
    }
  }

  lemma JoinsOn(done: seq<Piece>, p: Piece, rest: Option<seq<Piece>>, rest': Option<seq<Piece>>,
                all: Option<seq<Piece>>)
    requires Joins(done, rest, all)
    requires rest == if rest'.Some? then Some([p] + rest'.value) else None
    ensures Joins(done + [p], rest', all)
  {
    if rest'.Some? {
      assert done + ([p] + rest'.value) == done + [p] + rest'.value;
    }
  }

  method ParseChunk(file: seq<byte>, h: Header, lba: nat, end: nat, pos: nat, expanded: nat)
    returns (ok: bool, found: seq<Check>, n: nat, count: nat)
    requires end <= |file| && h.ch >= 12
    ensures ok <==> PieceAt(file, h, end, pos, expanded).Some?
    ensures ok ==>
      && found == CheckOf(PieceAt(file, h, end, pos, expanded).value, lba, expanded)
      && n == PieceAt(file, h, end, pos, expanded).value.n && count == U32At(file, pos + 8)
  {
    found, n, count := [], 0, 0;
    if pos + h.ch > end { return false, found, n, count; }
    var kind := U16At(file, pos);
    n, count := U32At(file, pos + 4) * h.block, U32At(file, pos + 8);
    if count < h.ch { return false, found, n, count; }
    var payload := count - h.ch;
    if pos + count > end || expanded + n > h.total * h.block { return false, found, n, count; }
    if kind == 0xcac1 && payload == n && n > 0 {
      found := [Check(lba + expanded / 512, n, pos + h.ch, None)];
    } else if kind == 0xcac2 && payload == 4 && n > 0 {
      found := [Check(lba + expanded / 512, n, 0, Some(file[pos + h.ch..pos + h.ch + 4]))];
    } else if !(kind == 0xcac3 && payload == 0 && n > 0) && !(kind == 0xcac4 && payload == 4 && n == 0) {
      return false, found, n, count;
    }
    ok := true;
  }

  lemma PiecesStep(file: seq<byte>, h: Header, end: nat, pos: nat, left: nat, expanded: nat)
    requires left > 0
    ensures var p := PieceAt(file, h, end, pos, expanded);
      if p.None? then Pieces(file, h, end, pos, left, expanded) == None
      else
        var rest := Pieces(file, h, end, pos + U32At(file, pos + 8), left - 1, expanded + p.value.n);
        Pieces(file, h, end, pos, left, expanded) == if rest.Some? then Some([p.value] + rest.value) else None
  {
  }

  /** One chunk consumed: the chunks still to come are one fewer. */
  method ParseNext(file: seq<byte>, h: Header, end: nat, lba: nat, pos0: nat, expanded0: nat, ghost left: nat)
    returns (ok: bool, found: seq<Check>, pos: nat, expanded: nat, ghost p: Piece)
    requires end <= |file| && h.ch >= 12 && left > 0
    ensures !ok ==> Pieces(file, h, end, pos0, left, expanded0) == None
    ensures ok ==>
      && expanded == expanded0 + p.n && found == CheckOf(p, lba, expanded0)
      && var rest := Pieces(file, h, end, pos, left - 1, expanded);
         Pieces(file, h, end, pos0, left, expanded0) == if rest.Some? then Some([p] + rest.value) else None
  {
    PiecesStep(file, h, end, pos0, left, expanded0);
    ghost var piece := PieceAt(file, h, end, pos0, expanded0);
    p := if piece.Some? then piece.value else Sum(0);
    var n, count;
    ok, found, n, count := ParseChunk(file, h, lba, end, pos0, expanded0);
    pos, expanded := pos0 + count, expanded0 + n;
  }

  lemma {:induction false} ChecksGrow(a: seq<Piece>, b: seq<Piece>, lba: nat)
    ensures |Checks(a, lba)| <= |Checks(a + b, lba)|
    decreases |b|
  {
    if b == [] {
      assert a + b == a;
    } else {
      assert (a + b)[..|a + b| - 1] == a + b[..|b| - 1];
      ChecksGrow(a, b[..|b| - 1], lba);
    }
  }

  /** The chunk loop. The list of checks is bounded in length, which every chunk looks at. */
  method ParseChunks(file: seq<byte>, h: Header, end: nat, start: nat, lba: nat, before: seq<Check>)
    returns (ok: bool, out: seq<Check>, ghost done: seq<Piece>)
    requires end <= |file| && h.ch >= 12
    ensures ok <==>
      var all := Pieces(file, h, end, start, h.chunks, 0);
      all.Some? && (h.chunks > 0 ==> |before| + |Checks(all.value, lba)| <= MOST)
    ensures ok ==> out == before + Checks(Pieces(file, h, end, start, h.chunks, 0).value, lba)
    ensures ok ==> Pieces(file, h, end, start, h.chunks, 0) == Some(done)
  {
    out, done := before, [];
    var pos: nat, expanded: nat, left: nat := start, 0, h.chunks;
    ghost var all := Pieces(file, h, end, start, h.chunks, 0);
    ghost var rest := all;
    JoinsStart(all);
    while left > 0
      invariant left <= h.chunks && (left < h.chunks ==> |out| <= MOST)
      invariant expanded == Total(done) && out == before + Checks(done, lba)
      invariant rest == Pieces(file, h, end, pos, left, expanded) && Joins(done, rest, all)
    {
      var found;
      ghost var p, was := Sum(0), rest;
      ok, found, pos, expanded, p := ParseNext(file, h, end, lba, pos, expanded, left);
      if !ok { return; }
      Push(done, p, lba);
      out := out + found;
      left := left - 1;
      rest := Pieces(file, h, end, pos, left, expanded);
      JoinsOn(done, p, was, rest, all);
      done := done + [p];
      if |out| > MOST {
        if rest.Some? { ChecksGrow(done, rest.value, lba); }
        return false, out, done;
      }
    }
    ok := pos == end && expanded == h.total * h.block;
    if ok { assert rest == Some([]) && done + [] == done; }
  }

  /** The entry is a sparse image, and with `used` checks already there the list does not get too long. */
  predicate ImageOk(file: seq<byte>, o: nat, bytes: nat, lba: nat, capacity: nat, used: nat) {
    var ps := Image(file, o, bytes, capacity);
    ps.Some? && (HeaderAt(file, o).chunks > 0 ==> used + |Checks(ps.value, lba)| <= MOST)
  }

  /** `sparse`. */
  method Parse(file: seq<byte>, o: nat, bytes: nat, lba: nat, capacity: nat, before: seq<Check>)
    returns (ok: bool, out: seq<Check>)
    requires o + bytes <= |file|
    ensures ok <==> ImageOk(file, o, bytes, lba, capacity, |before|)
    ensures ok ==> out == before + Checks(Image(file, o, bytes, capacity).value, lba)
  {
    if !HeaderOk(file, o, capacity) { return false, before; }
    var h := HeaderAt(file, o);
    ghost var done;
    ok, out, done := ParseChunks(file, h, o + bytes, o + h.fh, lba, before);
  }

  // Soundness of the checks.

  /** What a check expects of byte `i` of its range. */
  function Wanted(file: seq<byte>, c: Check, i: nat): Option<byte> {
    if c.fill.Some? then
      if |c.fill.value| == 4 then Some(c.fill.value[i % 4]) else None
    else if c.offset + i < |file| then Some(file[c.offset + i]) else None
  }

  predicate OnDisk(file: seq<byte>, d: seq<byte>, c: Check, i: nat) {
    512 * c.lba + i < |d| && Wanted(file, c, i) == Some(d[512 * c.lba + i])
  }

  /** The disk passes a check. */
  predicate Passes(file: seq<byte>, d: seq<byte>, c: Check) {
    forall i :: 0 <= i < c.bytes ==> OnDisk(file, d, c, i)
  }

  predicate Whole(ps: seq<Piece>) {
    forall k :: 0 <= k < |ps| ==> ps[k].n % 512 == 0
  }

  lemma {:induction false} TotalWhole(ps: seq<Piece>)
    requires Whole(ps)
    ensures Total(ps) % 512 == 0
  {
    if ps != [] {
      TotalWhole(ps[..|ps| - 1]);
    }
  }

  /** If the disk passes every check, then every byte that the image defines is on the disk at its place. */
  lemma {:induction false} ChecksSound(file: seq<byte>, ps: seq<Piece>, lba: nat, d: seq<byte>, i: nat)
    requires Whole(ps) && forall c :: c in Checks(ps, lba) ==> Passes(file, d, c)
    ensures var m := Expanded(file, ps, i);
      m.Some? ==> 512 * lba + i < |d| && d[512 * lba + i] == m.value
  {
    if ps != [] {
      var front, p := ps[..|ps| - 1], ps[|ps| - 1];
      TotalWhole(front);
      ChecksSound(file, front, lba, d, i);
      if Total(front) <= i < Total(front) + p.n {
        PieceSound(file, p, lba, Total(front), d, i - Total(front));
      }
    }
  }

  lemma PieceSound(file: seq<byte>, p: Piece, lba: nat, expanded: nat, d: seq<byte>, i: nat)
    requires expanded % 512 == 0 && i < p.n && forall c :: c in CheckOf(p, lba, expanded) ==> Passes(file, d, c)
    ensures var m := Byte(file, p, i);
      m.Some? ==> 512 * lba + expanded + i < |d| && d[512 * lba + expanded + i] == m.value
  {
    if CheckOf(p, lba, expanded) != [] {
      var c := CheckOf(p, lba, expanded)[0];
      assert c in CheckOf(p, lba, expanded);
      assert OnDisk(file, d, c, i);
    }
  }

  // And complete.

  /** Raw pieces lie in the file, and a fill has its word of four bytes. */
  predicate Proper(file: seq<byte>, p: Piece) {
    match p
    case Raw(at, n) => at + n <= |file|
    case Fill(word, _) => |word| == 4
    case _ => true
  }

  predicate AllProper(file: seq<byte>, ps: seq<Piece>) {
    forall k :: 0 <= k < |ps| ==> Proper(file, ps[k])
  }

  predicate ByteHeld(m: Option<byte>, d: seq<byte>, at: nat) {
    m.Some? ==> at < |d| && d[at] == m.value
  }

  lemma {:induction false} PiecesProper(file: seq<byte>, h: Header, end: nat, pos: nat, left: nat, expanded: nat)
    requires Pieces(file, h, end, pos, left, expanded).Some?
    ensures AllProper(file, Pieces(file, h, end, pos, left, expanded).value)
    decreases left
  {
    if left > 0 {
      var p := PieceAt(file, h, end, pos, expanded).value;
      PiecesProper(file, h, end, pos + U32At(file, pos + 8), left - 1, expanded + p.n);
    }
  }

  /** If every byte that the image defines is on the disk at its place, then the disk passes every check. */
  lemma {:induction false} ChecksComplete(file: seq<byte>, ps: seq<Piece>, lba: nat, d: seq<byte>, c: Check)
    requires Whole(ps) && AllProper(file, ps) && c in Checks(ps, lba)
    requires forall i: nat :: ByteHeld(Expanded(file, ps, i), d, 512 * lba + i)
    ensures Passes(file, d, c)
  {
    var front, p := ps[..|ps| - 1], ps[|ps| - 1];
    if c in Checks(front, lba) {
      forall i: nat ensures ByteHeld(Expanded(file, front, i), d, 512 * lba + i) {
        ExpandedFront(file, ps, i);
        assert ByteHeld(Expanded(file, ps, i), d, 512 * lba + i);
      }
      ChecksComplete(file, front, lba, d, c);
    } else {
      TotalWhole(front);
      forall i | 0 <= i < c.bytes ensures OnDisk(file, d, c, i) {
        assert ByteHeld(Expanded(file, ps, Total(front) + i), d, 512 * lba + (Total(front) + i));
      }
    }
  }

  lemma ExpandedFront(file: seq<byte>, ps: seq<Piece>, i: nat)
    requires ps != []
    ensures var front := ps[..|ps| - 1]; Expanded(file, front, i).Some? ==> Expanded(file, ps, i) == Expanded(file, front, i)
  {
    ExpandedWithin(file, ps[..|ps| - 1], i);
  }

  lemma {:induction false} ExpandedWithin(file: seq<byte>, ps: seq<Piece>, i: nat)
    ensures Expanded(file, ps, i).Some? ==> i < Total(ps)
  {
    if ps != [] {
      ExpandedWithin(file, ps[..|ps| - 1], i);
    }
  }

  /** The checks lie one behind the other, whole sectors each, from `from` to the end of the image. */
  predicate InOrder(cs: seq<Check>, from: nat, to: nat) {
    && (forall k :: 0 <= k < |cs| ==>
          cs[k].bytes % 512 == 0 && from <= 512 * cs[k].lba && 512 * cs[k].lba + cs[k].bytes <= to)
    && forall j, k :: 0 <= j < k < |cs| ==> 512 * cs[j].lba + cs[j].bytes <= 512 * cs[k].lba
  }

  lemma InOrderJoin(a: seq<Check>, b: seq<Check>, from: nat, mid: nat, to: nat)
    requires InOrder(a, from, mid) && InOrder(b, mid, to) && from <= mid <= to
    ensures InOrder(a + b, from, to)
  {
  }

  lemma {:induction false} ChecksInOrder(ps: seq<Piece>, lba: nat)
    requires Whole(ps)
    ensures InOrder(Checks(ps, lba), 512 * lba, 512 * lba + Total(ps))
  {
    if ps != [] {
      var front, p := ps[..|ps| - 1], ps[|ps| - 1];
      TotalWhole(front);
      ChecksInOrder(front, lba);
      InOrderJoin(Checks(front, lba), CheckOf(p, lba, Total(front)),
                  512 * lba, 512 * lba + Total(front), 512 * lba + Total(ps));
    }
  }

  // What an accepted image is.

  lemma MulMod(a: nat, b: nat)
    requires b % 512 == 0
    ensures a * b % 512 == 0
  {
    var q := b / 512;
    assert a * b == 512 * (a * q);
  }

  lemma {:induction false} PiecesWhole(file: seq<byte>, h: Header, end: nat, pos: nat, left: nat, expanded: nat)
    requires h.block % 512 == 0 && Pieces(file, h, end, pos, left, expanded).Some?
    ensures Whole(Pieces(file, h, end, pos, left, expanded).value)
    decreases left
  {
    if left > 0 {
      MulMod(U32At(file, pos + 4), h.block);
      PiecesWhole(file, h, end, pos + U32At(file, pos + 8), left - 1, expanded + U32At(file, pos + 4) * h.block);
    }
  }

  lemma {:induction false} TotalPrepend(p: Piece, ps: seq<Piece>)
    ensures Total([p] + ps) == p.n + Total(ps)
  {
    if ps == [] {
      assert [p] + ps == [p] && [p][..0] == [];
    } else {
      assert ([p] + ps)[..|ps|] == [p] + ps[..|ps| - 1];
      TotalPrepend(p, ps[..|ps| - 1]);
    }
  }

  lemma {:induction false} PiecesTotal(file: seq<byte>, h: Header, end: nat, pos: nat, left: nat, expanded: nat)
    requires Pieces(file, h, end, pos, left, expanded).Some?
    ensures expanded + Total(Pieces(file, h, end, pos, left, expanded).value) == h.total * h.block
    decreases left
  {
    if left > 0 {
      var p := PieceAt(file, h, end, pos, expanded).value;
      var rest := Pieces(file, h, end, pos + U32At(file, pos + 8), left - 1, expanded + p.n).value;
      PiecesTotal(file, h, end, pos + U32At(file, pos + 8), left - 1, expanded + p.n);
      TotalPrepend(p, rest);
    }
  }

  /** An accepted image is whole sectors, exactly as long as its header says, and fits. */
  lemma ImageFits(file: seq<byte>, o: nat, bytes: nat, capacity: nat)
    requires Image(file, o, bytes, capacity).Some?
    ensures var ps := Image(file, o, bytes, capacity).value;
      Whole(ps) && Total(ps) <= capacity && Total(ps) == HeaderAt(file, o).total * HeaderAt(file, o).block
  {
    var h := HeaderAt(file, o);
    PiecesWhole(file, h, o + bytes, o + h.fh, h.chunks, 0);
    PiecesTotal(file, h, o + bytes, o + h.fh, h.chunks, 0);
  }

  /** The two together, for one sparse entry: its checks are in order inside its partition, and a disk that passes them
      holds every byte that the image defines. */
  lemma SparseSound(file: seq<byte>, o: nat, bytes: nat, capacity: nat, lba: nat, d: seq<byte>, i: nat)
    requires Image(file, o, bytes, capacity).Some?
    ensures var ps := Image(file, o, bytes, capacity).value;
      && InOrder(Checks(ps, lba), 512 * lba, 512 * lba + capacity)
      && ((forall c :: c in Checks(ps, lba) ==> Passes(file, d, c)) ==>
            var m := Expanded(file, ps, i);
            m.Some? ==> 512 * lba + i < |d| && d[512 * lba + i] == m.value)
  {
    var ps := Image(file, o, bytes, capacity).value;
    ImageFits(file, o, bytes, capacity);
    ChecksInOrder(ps, lba);
    if forall c :: c in Checks(ps, lba) ==> Passes(file, d, c) {
      ChecksSound(file, ps, lba, d, i);
    }
  }
}
