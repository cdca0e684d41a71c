/** Android sparse images from the side of whoever writes them: which bytes a list of chunks becomes, and which bytes it
    stands for. The parser knows nothing of this file; the theorems say that it reads exactly such files, as meant. */
module SparseFormat {
  import opened Common
  import opened Bytes
  import opened Sparse

  /** Bytes as they are, one word of four bytes for whole blocks, blocks left open, or a checksum of what came before. */
  datatype Body =
    | Data(bytes: seq<byte>, blocks: nat)
    | Repeat(word: seq<byte>, blocks: nat)
    | Hole(blocks: nat)
    | Digest(sum: seq<byte>)

  /** With the two reserved bytes of its header, and what a longer header has behind them. */
  datatype Chunk = Chunk(body: Body, reserved: seq<byte>, extra: seq<byte>)

  /** The free choices of a writer for the whole file: `ch` is the size of a chunk header. */
  datatype Layout = Layout(minor: seq<byte>, ch: nat, block: nat, checksum: seq<byte>, extra: seq<byte>)

  // The file.

  function Payload(b: Body): seq<byte> {
    match b
    case Data(bytes, _) => bytes
    case Repeat(word, _) => word
    case Hole(_) => []
    case Digest(sum) => sum
  }

  function Code(b: Body): (s: seq<byte>)
    ensures |s| == 2
  {
    match b
    case Data(_, _) => [0xc1, 0xca]
    case Repeat(_, _) => [0xc2, 0xca]
    case Hole(_) => [0xc3, 0xca]
    case Digest(_) => [0xc4, 0xca]
  }

  /** How many blocks of the image a chunk covers. */
  function Blocks(b: Body): nat {
    match b
    case Data(_, blocks) => blocks
    case Repeat(_, blocks) => blocks
    case Hole(blocks) => blocks
    case Digest(_) => 0
  }

  /** Code, reserved bytes, number of blocks, size of the chunk with its header; then the payload. */
  function Encoded(c: Chunk): seq<byte> {
    Code(c.body) + c.reserved + Le(Blocks(c.body), 4) + Le(12 + |c.extra| + |Payload(c.body)|, 4)
    + c.extra + Payload(c.body)
  }

  function EncodedAll(cs: seq<Chunk>): seq<byte> {
    if cs == [] then [] else Encoded(cs[0]) + EncodedAll(cs[1..])
  }

  function AllBlocks(cs: seq<Chunk>): nat {
    if cs == [] then 0 else Blocks(cs[0].body) + AllBlocks(cs[1..])
  }

  /** Magic number, version 1 with any minor one, sizes of the two headers, block size, number of blocks and of chunks,
      checksum. */
  function Heading(l: Layout, total: nat, chunks: nat): seq<byte> {
    [0x3a, 0xff, 0x26, 0xed, 1, 0] + l.minor + Le(28 + |l.extra|, 2) + Le(l.ch, 2) + Le(l.block, 4)
    + Le(total, 4) + Le(chunks, 4) + l.checksum + l.extra
  }

  function Encoding(l: Layout, cs: seq<Chunk>): seq<byte> {
    Heading(l, AllBlocks(cs), |cs|) + EncodedAll(cs)
  }

  /** A chunk that a writer can write: whole blocks and at least one of them, and sizes that fit their fields. */
  predicate ChunkOk(c: Chunk, block: nat, ch: nat) {
    && |c.reserved| == 2 && ch >= 12 && |c.extra| == ch - 12
    && 12 + |c.extra| + |Payload(c.body)| < U32 && Blocks(c.body) < U32
    && match c.body
       case Data(bytes, blocks) => blocks > 0 && |bytes| == blocks * block
       case Repeat(word, blocks) => |word| == 4 && blocks > 0
       case Hole(blocks) => blocks > 0
       case Digest(sum) => |sum| == 4
  }

  predicate ChunksOk(cs: seq<Chunk>, block: nat, ch: nat) {
    forall k :: 0 <= k < |cs| ==> ChunkOk(cs[k], block, ch)
  }

  predicate LayoutOk(l: Layout) {
    && |l.minor| == 2 && |l.checksum| == 4 && 28 + |l.extra| <= 4096 && 12 <= l.ch <= 4096
    && 0 < l.block < U32 && l.block % 512 == 0
  }

  predicate Writable(l: Layout, cs: seq<Chunk>) {
    LayoutOk(l) && ChunksOk(cs, l.block, l.ch) && |cs| <= 1000000 && AllBlocks(cs) < U32
  }

  /** What the parser accepts in a partition of `capacity` bytes. */
  predicate Valid(l: Layout, cs: seq<Chunk>, capacity: nat) {
    Writable(l, cs) && AllBlocks(cs) * l.block <= capacity
  }

  // What it stands for.

  function ChunkContents(b: Body, block: nat): seq<Option<byte>> {
    match b
    case Data(bytes, _) => seq(|bytes|, i requires 0 <= i < |bytes| => Some(bytes[i]))
    case Repeat(word, blocks) => seq(blocks * block, i => if |word| == 4 then Some(word[i % 4]) else None)
    case Hole(blocks) => seq(blocks * block, _ => None)
    case Digest(_) => []
  }

  function Contents(cs: seq<Chunk>, block: nat): seq<Option<byte>> {
    if cs == [] then [] else ChunkContents(cs[0].body, block) + Contents(cs[1..], block)
  }

  // Reading it.

  predicate Lies(file: seq<byte>, at: nat, s: seq<byte>) {
    at + |s| <= |file| && file[at..at + |s|] == s
  }

  lemma LiesApart(file: seq<byte>, at: nat, s: seq<byte>, t: seq<byte>)
    ensures Lies(file, at, s + t) <==> Lies(file, at, s) && Lies(file, at + |s|, t)
  {
    if at + |s| + |t| <= |file| {
      var whole := file[at..at + |s| + |t|];
      assert whole[..|s|] == file[at..at + |s|] && whole[|s|..] == file[at + |s|..at + |s| + |t|];
      assert whole == whole[..|s|] + whole[|s|..];
      assert (s + t)[..|s|] == s && (s + t)[|s|..] == t;
    }
  }

  lemma NumberLies(file: seq<byte>, at: nat, n: nat, k: nat)
    requires n < Pow256(k) && at + k <= |file|
    ensures Lies(file, at, Le(n, k)) <==> LeAt(file, at, k) == n
  {
    if Lies(file, at, Le(n, k)) {
      LeValue(n, k);
      assert Le(n, k)[0..k] == Le(n, k);
      LeAtSame(file, Le(n, k), at, 0, k);
    }
    if LeAt(file, at, k) == n {
      LeInverse(file, at, k);
    }
  }

  /** The twelve bytes of a chunk header that matter, field by field. */
  predicate Fields(file: seq<byte>, at: nat, c: Chunk) {
    && Lies(file, at, Code(c.body)) && Lies(file, at + 2, c.reserved)
    && Lies(file, at + 4, Le(Blocks(c.body), 4))
    && Lies(file, at + 8, Le(12 + |c.extra| + |Payload(c.body)|, 4))
    && Lies(file, at + 12, c.extra) && Lies(file, at + 12 + |c.extra|, Payload(c.body))
  }

  lemma EncodedFields(file: seq<byte>, at: nat, c: Chunk)
    requires |c.reserved| == 2
    ensures |Encoded(c)| == Extent(c)
    ensures Lies(file, at, Encoded(c)) <==> Fields(file, at, c)
  {
    var a, b := Code(c.body), c.reserved;
    var n, m := Le(Blocks(c.body), 4), Le(12 + |c.extra| + |Payload(c.body)|, 4);
    LiesApart(file, at, a, b);
    LiesApart(file, at, a + b, n);
    LiesApart(file, at, a + b + n, m);
    LiesApart(file, at, a + b + n + m, c.extra);
    LiesApart(file, at, a + b + n + m + c.extra, Payload(c.body));
  }

  function Kind(b: Body): nat {
    match b
    case Data(_, _) => 0xcac1
    case Repeat(_, _) => 0xcac2
    case Hole(_) => 0xcac3
    case Digest(_) => 0xcac4
  }

  lemma CodeLies(file: seq<byte>, at: nat, b: Body)
    requires at + 2 <= |file|
    ensures Lies(file, at, Code(b)) <==> U16At(file, at) == Kind(b)
  {
    assert file[at..at + 2] == [file[at], file[at + 1]];
    assert LeAt(file, at, 2) == (file[at] as int) + 0x100 * LeAt(file, at + 1, 1);
    assert LeAt(file, at + 1, 1) == (file[at + 1] as int) + 0x100 * LeAt(file, at + 2, 0);
  }

  /** What the parser makes of a chunk at `at`. */
  function PieceFor(c: Chunk, at: nat, block: nat): Piece {
    match c.body
    case Data(bytes, _) => Raw(at + 12 + |c.extra|, |bytes|)
    case Repeat(word, blocks) => Fill(word, blocks * block)
    case Hole(blocks) => Skip(blocks * block)
    case Digest(_) => Sum(0)
  }

  function PiecesFor(cs: seq<Chunk>, at: nat, block: nat): seq<Piece> {
    if cs == [] then []
    else [PieceFor(cs[0], at, block)] + PiecesFor(cs[1..], at + Extent(cs[0]), block)
  }

  function Extent(c: Chunk): nat {
    12 + |c.extra| + |Payload(c.body)|
  }

  lemma WholeBlocks(c: Chunk, block: nat, ch: nat, at: nat)
    requires block > 0 && ChunkOk(c, block, ch)
    ensures Blocks(c.body) * block == PieceFor(c, at, block).n == |ChunkContents(c.body, block)|
    ensures !c.body.Digest? ==> PieceFor(c, at, block).n > 0
  {
    if !c.body.Digest? {
      Grows(c.body.blocks, block);
    }
  }

  lemma Grows(n: nat, block: nat)
    requires n > 0 && block > 0
    ensures n * block > 0
  {
  }

  predicate Reads(file: seq<byte>, h: Header, end: nat, pos: nat, expanded: nat, c: Chunk) {
    PieceAt(file, h, end, pos, expanded) == Some(PieceFor(c, pos, h.block)) && U32At(file, pos + 8) == Extent(c)
  }

  /** A written chunk is read as what it is. */
  lemma ChunkRead(file: seq<byte>, h: Header, end: nat, pos: nat, expanded: nat, c: Chunk)
    requires h.block > 0 && ChunkOk(c, h.block, h.ch) && Lies(file, pos, Encoded(c))
    requires pos + |Encoded(c)| <= end <= |file|
    requires expanded + PieceFor(c, pos, h.block).n <= h.total * h.block
    ensures Reads(file, h, end, pos, expanded, c) && |Encoded(c)| == Extent(c)
  {
    assert Pow256(4) == U32;
    EncodedFields(file, pos, c);
    CodeLies(file, pos, c.body);
    NumberLies(file, pos + 4, Blocks(c.body), 4);
    NumberLies(file, pos + 8, 12 + |c.extra| + |Payload(c.body)|, 4);
    WholeBlocks(c, h.block, h.ch, pos);
  }

  /** The chunks of `cs` lie from `pos` to `end` and are what is missing of the image. */
  predicate ChunksLie(file: seq<byte>, h: Header, end: nat, pos: nat, expanded: nat, cs: seq<Chunk>) {
    && h.block > 0 && ChunksOk(cs, h.block, h.ch) && Lies(file, pos, EncodedAll(cs))
    && end == pos + |EncodedAll(cs)| <= |file|
    && expanded + Size(cs, h.block) == h.total * h.block
  }

  /** The number of bytes a list of chunks stands for. */
  function Size(cs: seq<Chunk>, block: nat): nat {
    if cs == [] then 0 else PieceFor(cs[0], 0, block).n + Size(cs[1..], block)
  }

  lemma {:induction false} SizeInBlocks(cs: seq<Chunk>, block: nat, ch: nat)
    requires block > 0 && ChunksOk(cs, block, ch)
    ensures Size(cs, block) == AllBlocks(cs) * block
    decreases |cs|
  {
    if cs != [] {
      WholeBlocks(cs[0], block, ch, 0);
      SizeInBlocks(cs[1..], block, ch);
      Distributes(Blocks(cs[0].body), AllBlocks(cs[1..]), block);
    }
  }

  predicate AllRead(file: seq<byte>, h: Header, end: nat, pos: nat, expanded: nat, cs: seq<Chunk>)
    decreases |cs|
  {
    if cs == [] then pos == end && expanded == h.total * h.block
    else
      && Reads(file, h, end, pos, expanded, cs[0])
      && AllRead(file, h, end, pos + Extent(cs[0]), expanded + PieceFor(cs[0], pos, h.block).n, cs[1..])
  }

  lemma FirstLies(file: seq<byte>, h: Header, end: nat, pos: nat, expanded: nat, cs: seq<Chunk>)
    returns (next: nat, done: nat)
    requires cs != [] && ChunksLie(file, h, end, pos, expanded, cs)
    ensures next == pos + Extent(cs[0]) && done == expanded + PieceFor(cs[0], pos, h.block).n
    ensures Reads(file, h, end, pos, expanded, cs[0]) && ChunksLie(file, h, end, next, done, cs[1..])
  {
    done := expanded + PieceFor(cs[0], pos, h.block).n;
    next := FirstApart(file, pos, cs);
    ChunkRead(file, h, end, pos, expanded, cs[0]);
  }

  lemma FirstApart(file: seq<byte>, pos: nat, cs: seq<Chunk>) returns (next: nat)
    requires cs != [] && |cs[0].reserved| == 2 && Lies(file, pos, EncodedAll(cs))
    ensures |Encoded(cs[0])| == Extent(cs[0]) && next == pos + Extent(cs[0])
    ensures Lies(file, pos, Encoded(cs[0])) && Lies(file, next, EncodedAll(cs[1..]))
    ensures next + |EncodedAll(cs[1..])| == pos + |EncodedAll(cs)|
  {
    next := pos + Extent(cs[0]);
    LiesApart(file, pos, Encoded(cs[0]), EncodedAll(cs[1..]));
    EncodedFields(file, pos, cs[0]);
  }

  lemma FirstOfAll(file: seq<byte>, h: Header, end: nat, pos: nat, expanded: nat, cs: seq<Chunk>)
    returns (next: nat, done: nat)
    requires cs != [] && ChunksLie(file, h, end, pos, expanded, cs)
    ensures ChunksLie(file, h, end, next, done, cs[1..])
    ensures AllRead(file, h, end, next, done, cs[1..]) ==> AllRead(file, h, end, pos, expanded, cs)
  {
    next, done := FirstLies(file, h, end, pos, expanded, cs);
  }

  lemma {:induction false} LyingRead(file: seq<byte>, h: Header, end: nat, pos: nat, expanded: nat, cs: seq<Chunk>)
    requires ChunksLie(file, h, end, pos, expanded, cs)
    ensures AllRead(file, h, end, pos, expanded, cs)
    decreases |cs|
  {
    if cs != [] {
      var next, done := FirstOfAll(file, h, end, pos, expanded, cs);
      LyingRead(file, h, end, next, done, cs[1..]);
    }
  }

  lemma PiecesOn(file: seq<byte>, h: Header, end: nat, pos: nat, left: nat, expanded: nat, p: Piece, next: nat,
                 rest: seq<Piece>)
    requires PieceAt(file, h, end, pos, expanded) == Some(p) && pos + U32At(file, pos + 8) == next
    requires Pieces(file, h, end, next, left, expanded + p.n) == Some(rest)
    ensures Pieces(file, h, end, pos, left + 1, expanded) == Some([p] + rest)
  {
  }

  lemma {:induction false} ChunksRead(file: seq<byte>, h: Header, end: nat, pos: nat, expanded: nat, cs: seq<Chunk>)
    requires AllRead(file, h, end, pos, expanded, cs)
    ensures Pieces(file, h, end, pos, |cs|, expanded) == Some(PiecesFor(cs, pos, h.block))
    decreases |cs|
  {
    if cs != [] {
      var p, next := PieceFor(cs[0], pos, h.block), pos + Extent(cs[0]);
      ChunksRead(file, h, end, next, expanded + p.n, cs[1..]);
      PiecesOn(file, h, end, pos, |cs| - 1, expanded, p, next, PiecesFor(cs[1..], next, h.block));
    }
  }

  lemma Distributes(a: nat, b: nat, m: nat)
    ensures (a + b) * m == a * m + b * m
  {
  }

  // The heading.

  predicate HeadingFields(file: seq<byte>, o: nat, l: Layout, total: nat, chunks: nat) {
    && Lies(file, o, [0x3a, 0xff, 0x26, 0xed]) && Lies(file, o + 4, [1, 0]) && Lies(file, o + 6, l.minor)
    && Lies(file, o + 8, Le(28 + |l.extra|, 2)) && Lies(file, o + 10, Le(l.ch, 2)) && Lies(file, o + 12, Le(l.block, 4))
    && Lies(file, o + 16, Le(total, 4)) && Lies(file, o + 20, Le(chunks, 4)) && Lies(file, o + 24, l.checksum)
    && Lies(file, o + 28, l.extra)
  }

  lemma HeadingLies(file: seq<byte>, o: nat, l: Layout, total: nat, chunks: nat)
    requires |l.minor| == 2 && |l.checksum| == 4
    ensures |Heading(l, total, chunks)| == 28 + |l.extra|
    ensures Lies(file, o, Heading(l, total, chunks)) <==> HeadingFields(file, o, l, total, chunks)
  {
    var magic: seq<byte> := [0x3a, 0xff, 0x26, 0xed];
    var a := magic + [1, 0];
    assert a == [0x3a, 0xff, 0x26, 0xed, 1, 0];
    var b := a + l.minor;
    var d := b + Le(28 + |l.extra|, 2);
    var e := d + Le(l.ch, 2);
    var f := e + Le(l.block, 4);
    var g := f + Le(total, 4);
    var i := g + Le(chunks, 4);
    LiesApart(file, o, magic, [1, 0]);
    LiesApart(file, o, a, l.minor);
    LiesApart(file, o, b, Le(28 + |l.extra|, 2));
    LiesApart(file, o, d, Le(l.ch, 2));
    LiesApart(file, o, e, Le(l.block, 4));
    LiesApart(file, o, f, Le(total, 4));
    LiesApart(file, o, g, Le(chunks, 4));
    LiesApart(file, o, i, l.checksum);
    LiesApart(file, o, i + l.checksum, l.extra);
  }

  lemma HeadingRead(file: seq<byte>, o: nat, l: Layout, total: nat, chunks: nat)
    requires LayoutOk(l) && total < U32 && chunks < U32 && o + 28 <= |file|
    requires HeadingFields(file, o, l, total, chunks)
    ensures HeaderAt(file, o) == Header(28 + |l.extra|, l.ch, l.block, total, chunks)
    ensures file[o..o + 4] == [0x3a, 0xff, 0x26, 0xed] && U16At(file, o + 4) == 1
  {
    assert Pow256(2) == 0x10000 && Pow256(4) == U32;
    NumberLies(file, o + 8, 28 + |l.extra|, 2);
    NumberLies(file, o + 10, l.ch, 2);
    NumberLies(file, o + 12, l.block, 4);
    NumberLies(file, o + 16, total, 4);
    NumberLies(file, o + 20, chunks, 4);
    VersionOne(file, o);
  }

  lemma VersionOne(file: seq<byte>, o: nat)
    requires o + 6 <= |file|
    ensures Lies(file, o + 4, [1, 0]) <==> U16At(file, o + 4) == 1
  {
    assert file[o + 4..o + 6] == [file[o + 4], file[o + 5]];
    assert LeAt(file, o + 4, 2) == (file[o + 4] as int) + 0x100 * LeAt(file, o + 5, 1);
    assert LeAt(file, o + 5, 1) == (file[o + 5] as int) + 0x100 * LeAt(file, o + 6, 0);
  }

  // The format and the parser.

  lemma HeaderRead(file: seq<byte>, o: nat, l: Layout, cs: seq<Chunk>, capacity: nat) returns (h: Header, start: nat)
    requires Valid(l, cs, capacity) && Lies(file, o, Encoding(l, cs))
    ensures HeaderOk(file, o, capacity) && h == HeaderAt(file, o) && h.chunks == |cs| && h.block == l.block
    ensures start == o + 28 + |l.extra| == o + h.fh
    ensures ChunksLie(file, h, o + |Encoding(l, cs)|, start, 0, cs)
  {
    LiesApart(file, o, Heading(l, AllBlocks(cs), |cs|), EncodedAll(cs));
    HeadingLies(file, o, l, AllBlocks(cs), |cs|);
    HeadingRead(file, o, l, AllBlocks(cs), |cs|);
    SizeInBlocks(cs, l.block, l.ch);
    h, start := HeaderAt(file, o), o + 28 + |l.extra|;
  }

  lemma ImageIs(file: seq<byte>, o: nat, bytes: nat, capacity: nat, h: Header, start: nat, chunks: nat, ps: seq<Piece>)
    requires HeaderOk(file, o, capacity) && h == HeaderAt(file, o) && start == o + h.fh && chunks == h.chunks
    requires Pieces(file, h, o + bytes, start, chunks, 0) == Some(ps)
    ensures Image(file, o, bytes, capacity) == Some(ps)
  {
  }

  lemma PiecesRead(file: seq<byte>, h: Header, end: nat, start: nat, cs: seq<Chunk>) returns (ps: seq<Piece>)
    requires ChunksLie(file, h, end, start, 0, cs)
    ensures ps == PiecesFor(cs, start, h.block) && Pieces(file, h, end, start, |cs|, 0) == Some(ps)
  {
    LyingRead(file, h, end, start, 0, cs);
    ChunksRead(file, h, end, start, 0, cs);
    ps := PiecesFor(cs, start, h.block);
  }

  lemma ImageRead(file: seq<byte>, o: nat, bytes: nat, capacity: nat, h: Header, start: nat, cs: seq<Chunk>)
    returns (ps: seq<Piece>)
    requires HeaderOk(file, o, capacity) && h == HeaderAt(file, o) && h.chunks == |cs| && start == o + h.fh
    requires ChunksLie(file, h, o + bytes, start, 0, cs)
    ensures ps == PiecesFor(cs, start, h.block) && Image(file, o, bytes, capacity) == Some(ps)
  {
    ps := PiecesRead(file, h, o + bytes, start, cs);
    ImageIs(file, o, bytes, capacity, h, start, |cs|, ps);
  }

  /** Every file that a writer can write is read as exactly the chunks it was written from. */
  lemma WrittenRead(file: seq<byte>, o: nat, bytes: nat, l: Layout, cs: seq<Chunk>, capacity: nat)
    returns (ps: seq<Piece>)
    requires Valid(l, cs, capacity) && Lies(file, o, Encoding(l, cs)) && bytes == |Encoding(l, cs)|
    ensures ps == PiecesFor(cs, o + 28 + |l.extra|, l.block) && Image(file, o, bytes, capacity) == Some(ps)
  {
    var h, start := HeaderRead(file, o, l, cs, capacity);
    ps := ImageRead(file, o, bytes, capacity, h, start, cs);
  }

  lemma {:induction false} ExpandedFirst(file: seq<byte>, p: Piece, ps: seq<Piece>, i: nat)
    ensures Expanded(file, [p] + ps, i) == if i < p.n then Byte(file, p, i) else Expanded(file, ps, i - p.n)
    decreases |ps|
  {
    var all := [p] + ps;
    TotalPrepend(p, if ps == [] then [] else ps[..|ps| - 1]);
    if ps == [] {
      assert all == [p] && [p][..0] == [];
    } else {
      assert all[..|ps|] == [p] + ps[..|ps| - 1];
      ExpandedFirst(file, p, ps[..|ps| - 1], i);
    }
  }

  lemma ChunkMeant(file: seq<byte>, c: Chunk, block: nat, ch: nat, at: nat, i: nat)
    requires block > 0 && ChunkOk(c, block, ch) && Lies(file, at, Encoded(c))
    requires i < |ChunkContents(c.body, block)|
    ensures Byte(file, PieceFor(c, at, block), i) == ChunkContents(c.body, block)[i]
  {
    EncodedFields(file, at, c);
    if c.body.Data? {
      var d := at + 12 + |c.extra|;
      assert file[d + i] == file[d..d + |c.body.bytes|][i];
    }
  }

  /** And what the parser's list stands for is what its chunks stand for, byte by byte. */
  lemma {:induction false} WrittenMeant(file: seq<byte>, cs: seq<Chunk>, block: nat, ch: nat, at: nat, i: nat)
    requires block > 0 && ChunksOk(cs, block, ch) && Lies(file, at, EncodedAll(cs))
    ensures Expanded(file, PiecesFor(cs, at, block), i) ==
            if i < |Contents(cs, block)| then Contents(cs, block)[i] else None
    ensures |Contents(cs, block)| == Size(cs, block) == Total(PiecesFor(cs, at, block))
    decreases |cs|
  {
    if cs != [] {
      var p, next, size := FirstMeant(file, cs, block, ch, at, i);
      WrittenMeant(file, cs[1..], block, ch, next, if i < p.n then 0 else i - p.n);
      ExpandedFirst(file, p, PiecesFor(cs[1..], next, block), i);
      TotalPrepend(p, PiecesFor(cs[1..], next, block));
    }
  }

  lemma FirstMeant(file: seq<byte>, cs: seq<Chunk>, block: nat, ch: nat, at: nat, i: nat)
    returns (p: Piece, next: nat, first: seq<Option<byte>>)
    requires cs != [] && block > 0 && ChunksOk(cs, block, ch) && Lies(file, at, EncodedAll(cs))
    ensures first == ChunkContents(cs[0].body, block) && |first| == p.n
    ensures PiecesFor(cs, at, block) == [p] + PiecesFor(cs[1..], next, block)
    ensures Size(cs, block) == p.n + Size(cs[1..], block) && Lies(file, next, EncodedAll(cs[1..]))
    ensures i < p.n ==> Byte(file, p, i) == first[i]
  {
    next := FirstApart(file, at, cs);
    p, first := FirstContents(file, cs[0], block, ch, at, i);
  }

  lemma FirstContents(file: seq<byte>, c: Chunk, block: nat, ch: nat, at: nat, i: nat)
    returns (p: Piece, first: seq<Option<byte>>)
    requires block > 0 && ChunkOk(c, block, ch) && Lies(file, at, Encoded(c))
    ensures p == PieceFor(c, at, block) && p.n == PieceFor(c, 0, block).n
    ensures first == ChunkContents(c.body, block) && |first| == p.n
    ensures i < p.n ==> Byte(file, p, i) == first[i]
  {
    p, first := PieceFor(c, at, block), ChunkContents(c.body, block);
    WholeBlocks(c, block, ch, at);
    if i < p.n {
      ChunkMeant(file, c, block, ch, at, i);
    }
  }

  /** The two together: a written image is accepted, is as long as its chunks stand for, and defines at every place
      what they stand for and nothing else. */
  lemma WrittenImage(file: seq<byte>, o: nat, bytes: nat, l: Layout, cs: seq<Chunk>, capacity: nat, i: nat)
    returns (ps: seq<Piece>, content: seq<Option<byte>>)
    requires Valid(l, cs, capacity) && Lies(file, o, Encoding(l, cs)) && bytes == |Encoding(l, cs)|
    ensures content == Contents(cs, l.block) && Image(file, o, bytes, capacity) == Some(ps)
    ensures Total(ps) == |content|
    ensures Expanded(file, ps, i) == if i < |content| then content[i] else None
  {
    ps := WrittenRead(file, o, bytes, l, cs, capacity);
    content := PiecesMeant(file, o, l, cs, ps, i);
  }

  lemma PiecesMeant(file: seq<byte>, o: nat, l: Layout, cs: seq<Chunk>, ps: seq<Piece>, i: nat)
    returns (content: seq<Option<byte>>)
    requires LayoutOk(l) && ChunksOk(cs, l.block, l.ch) && Lies(file, o, Encoding(l, cs))
    requires ps == PiecesFor(cs, o + 28 + |l.extra|, l.block)
    ensures content == Contents(cs, l.block) && Total(ps) == |content|
    ensures Expanded(file, ps, i) == if i < |content| then content[i] else None
  {
    content := Contents(cs, l.block);
    var start := BodyLies(file, o, l, cs);
    WrittenMeant(file, cs, l.block, l.ch, start, i);
  }

  lemma BodyLies(file: seq<byte>, o: nat, l: Layout, cs: seq<Chunk>) returns (start: nat)
    requires |l.minor| == 2 && |l.checksum| == 4 && Lies(file, o, Encoding(l, cs))
    ensures start == o + 28 + |l.extra| && Lies(file, start, EncodedAll(cs))
  {
    HeadingLies(file, o, l, AllBlocks(cs), |cs|);
    LiesApart(file, o, Heading(l, AllBlocks(cs), |cs|), EncodedAll(cs));
    start := o + 28 + |l.extra|;
  }

  /** What is accepted in a partition fits it. */
  lemma AcceptedFits(file: seq<byte>, o: nat, bytes: nat, l: Layout, cs: seq<Chunk>, capacity: nat)
    requires Writable(l, cs) && Lies(file, o, Encoding(l, cs)) && Image(file, o, bytes, capacity).Some?
    ensures Valid(l, cs, capacity)
  {
    HeadingLies(file, o, l, AllBlocks(cs), |cs|);
    LiesApart(file, o, Heading(l, AllBlocks(cs), |cs|), EncodedAll(cs));
    HeadingRead(file, o, l, AllBlocks(cs), |cs|);
  }

  // Every accepted file is one that a writer can write.

  /** The chunk at `pos`, taken apart. */
  function ChunkAt(file: seq<byte>, h: Header, pos: nat): Chunk
    requires pos + 12 <= |file| && 12 <= h.ch <= U32At(file, pos + 8) && pos + U32At(file, pos + 8) <= |file|
  {
    var kind, blocks, data := U16At(file, pos), U32At(file, pos + 4), pos + h.ch;
    var payload := file[data..pos + U32At(file, pos + 8)];
    Chunk(if kind == 0xcac1 then Data(payload, blocks) else if kind == 0xcac2 then Repeat(payload, blocks)
          else if kind == 0xcac3 then Hole(blocks) else Digest(payload), file[pos + 2..pos + 4], file[pos + 12..data])
  }

  lemma Fitting(file: seq<byte>, h: Header, end: nat, pos: nat, expanded: nat)
    requires 0 < h.block && 12 <= h.ch && PieceAt(file, h, end, pos, expanded).Some?
    ensures pos + 12 <= |file| && 12 <= h.ch <= U32At(file, pos + 8) && pos + U32At(file, pos + 8) <= end <= |file|
    ensures ChunkOk(ChunkAt(file, h, pos), h.block, h.ch)
    ensures Kind(ChunkAt(file, h, pos).body) == U16At(file, pos)
    ensures PieceAt(file, h, end, pos, expanded) == Some(PieceFor(ChunkAt(file, h, pos), pos, h.block))
    ensures var c, size := ChunkAt(file, h, pos), U32At(file, pos + 8);
      && Blocks(c.body) == U32At(file, pos + 4) && |c.extra| == h.ch - 12
      && Payload(c.body) == file[pos + 12 + |c.extra|..pos + size]
  {
    if U32At(file, pos + 4) > 0 {
      Grows(U32At(file, pos + 4), h.block);
    }
  }

  lemma ChunkWritten(file: seq<byte>, h: Header, end: nat, pos: nat, expanded: nat) returns (c: Chunk)
    requires 0 < h.block && 12 <= h.ch && PieceAt(file, h, end, pos, expanded).Some?
    ensures ChunkOk(c, h.block, h.ch) && Lies(file, pos, Encoded(c))
    ensures pos + |Encoded(c)| == pos + Extent(c) <= end && Reads(file, h, end, pos, expanded, c)
  {
    Fitting(file, h, end, pos, expanded);
    c := ChunkAt(file, h, pos);
    var size := U32At(file, pos + 8);
    FieldsLie(file, pos, c, size);
  }

  lemma FieldsLie(file: seq<byte>, pos: nat, c: Chunk, size: nat)
    requires pos + 12 <= |file| && pos + size <= |file| && 12 + |c.extra| <= size == U32At(file, pos + 8)
    requires Kind(c.body) == U16At(file, pos) && Blocks(c.body) == U32At(file, pos + 4)
    requires c.reserved == file[pos + 2..pos + 4] && c.extra == file[pos + 12..pos + 12 + |c.extra|]
    requires Payload(c.body) == file[pos + 12 + |c.extra|..pos + size]
    ensures Lies(file, pos, Encoded(c)) && |Encoded(c)| == size
  {
    assert Pow256(4) == U32;
    NumberLies(file, pos + 4, Blocks(c.body), 4);
    NumberLies(file, pos + 8, size, 4);
    CodeLies(file, pos, c.body);
    EncodedFields(file, pos, c);
  }

  lemma {:induction false} PiecesWritten(file: seq<byte>, h: Header, end: nat, pos: nat, left: nat, expanded: nat)
    returns (cs: seq<Chunk>)
    requires 0 < h.block && 12 <= h.ch && end <= |file| && Pieces(file, h, end, pos, left, expanded).Some?
    ensures |cs| == left && ChunksLie(file, h, end, pos, expanded, cs)
    decreases left
  {
    if left == 0 {
      cs := NoneWritten(file, h, end, pos, expanded);
    } else {
      var c, next, done := FirstWritten(file, h, end, pos, left, expanded);
      var rest := PiecesWritten(file, h, end, next, left - 1, done);
      cs := Prepended(file, h, end, pos, expanded, c, next, done, rest);
    }
  }

  lemma NoneWritten(file: seq<byte>, h: Header, end: nat, pos: nat, expanded: nat) returns (cs: seq<Chunk>)
    requires 0 < h.block && end <= |file| && Pieces(file, h, end, pos, 0, expanded).Some?
    ensures |cs| == 0 && ChunksLie(file, h, end, pos, expanded, cs)
  {
    cs := [];
  }

  lemma FirstWritten(file: seq<byte>, h: Header, end: nat, pos: nat, left: nat, expanded: nat)
    returns (c: Chunk, next: nat, done: nat)
    requires 0 < h.block && 12 <= h.ch && Pieces(file, h, end, pos, left, expanded).Some? && left > 0
    ensures ChunkOk(c, h.block, h.ch) && Lies(file, pos, Encoded(c)) && |Encoded(c)| == Extent(c)
    ensures next == pos + Extent(c) && done == expanded + PieceFor(c, pos, h.block).n
    ensures Pieces(file, h, end, next, left - 1, done).Some?
  {
    PiecesStep(file, h, end, pos, left, expanded);
    c := ChunkWritten(file, h, end, pos, expanded);
    next, done := pos + Extent(c), expanded + PieceFor(c, pos, h.block).n;
  }

  lemma Prepended(file: seq<byte>, h: Header, end: nat, pos: nat, expanded: nat, c: Chunk, next: nat, done: nat,
                  rest: seq<Chunk>)
    returns (cs: seq<Chunk>)
    requires ChunkOk(c, h.block, h.ch) && Lies(file, pos, Encoded(c)) && |Encoded(c)| == Extent(c)
    requires next == pos + Extent(c) && done == expanded + PieceFor(c, pos, h.block).n
    requires ChunksLie(file, h, end, next, done, rest)
    ensures |cs| == |rest| + 1 && ChunksLie(file, h, end, pos, expanded, cs)
  {
    cs := [c] + rest;
    assert cs[1..] == rest;
    LiesApart(file, pos, Encoded(c), EncodedAll(rest));
  }

  lemma Cancel(a: nat, b: nat, m: nat)
    requires m > 0 && a * m == b * m
    ensures a == b
  {
    assert (a - b) * m == 0;
  }

  function LayoutAt(file: seq<byte>, o: nat): Layout
    requires o + 28 <= |file| && 28 <= HeaderAt(file, o).fh && o + HeaderAt(file, o).fh <= |file|
  {
    var h := HeaderAt(file, o);
    Layout(file[o + 6..o + 8], h.ch, h.block, file[o + 24..o + 28], file[o + 28..o + h.fh])
  }

  lemma HeaderWritten(file: seq<byte>, o: nat, capacity: nat) returns (l: Layout, h: Header)
    requires HeaderOk(file, o, capacity) && o + HeaderAt(file, o).fh <= |file|
    ensures h == HeaderAt(file, o) && LayoutOk(l) && HeadingFields(file, o, l, h.total, h.chunks)
    ensures l.block == h.block && l.ch == h.ch && 28 + |l.extra| == h.fh
    ensures h.total < U32 && h.chunks <= 1000000 && h.total * h.block <= capacity
  {
    l, h := LayoutAt(file, o), HeaderAt(file, o);
    assert Pow256(2) == 0x10000 && Pow256(4) == U32;
    NumberLies(file, o + 8, h.fh, 2);
    NumberLies(file, o + 10, h.ch, 2);
    NumberLies(file, o + 12, h.block, 4);
    NumberLies(file, o + 16, h.total, 4);
    NumberLies(file, o + 20, h.chunks, 4);
    VersionOne(file, o);
  }

  /** Every file that the parser accepts is one that a writer can write, so what is said of written files is said of all
      that are accepted. */
  lemma AcceptedWritten(file: seq<byte>, o: nat, bytes: nat, capacity: nat) returns (l: Layout, cs: seq<Chunk>)
    requires o + bytes <= |file| && Image(file, o, bytes, capacity).Some?
    ensures Valid(l, cs, capacity) && file[o..o + bytes] == Encoding(l, cs)
  {
    var h := HeaderAt(file, o);
    cs := PiecesWritten(file, h, o + bytes, o + h.fh, h.chunks, 0);
    l, h := HeaderWritten(file, o, capacity);
    TotalIs(file, h, o + bytes, o + h.fh, cs);
    Assembled(file, o, bytes, l, h.total, cs);
  }

  lemma Assembled(file: seq<byte>, o: nat, bytes: nat, l: Layout, total: nat, cs: seq<Chunk>)
    requires |l.minor| == 2 && |l.checksum| == 4 && HeadingFields(file, o, l, total, |cs|) && total == AllBlocks(cs)
    requires Lies(file, o + 28 + |l.extra|, EncodedAll(cs)) && bytes == 28 + |l.extra| + |EncodedAll(cs)|
    ensures o + bytes <= |file| && file[o..o + bytes] == Encoding(l, cs)
  {
    var heading := WholeHeading(file, o, l, total, |cs|);
    Joined(file, o, bytes, heading, EncodedAll(cs));
  }

  lemma WholeHeading(file: seq<byte>, o: nat, l: Layout, total: nat, chunks: nat) returns (heading: seq<byte>)
    requires |l.minor| == 2 && |l.checksum| == 4 && HeadingFields(file, o, l, total, chunks)
    ensures heading == Heading(l, total, chunks) && |heading| == 28 + |l.extra| && Lies(file, o, heading)
  {
    HeadingLies(file, o, l, total, chunks);
    heading := Heading(l, total, chunks);
  }

  lemma TotalIs(file: seq<byte>, h: Header, end: nat, pos: nat, cs: seq<Chunk>)
    requires ChunksLie(file, h, end, pos, 0, cs)
    ensures AllBlocks(cs) == h.total
  {
    SizeInBlocks(cs, h.block, h.ch);
    Cancel(AllBlocks(cs), h.total, h.block);
  }

  lemma Joined(file: seq<byte>, o: nat, bytes: nat, s: seq<byte>, t: seq<byte>)
    requires Lies(file, o, s) && Lies(file, o + |s|, t) && bytes == |s| + |t|
    ensures o + bytes <= |file| && file[o..o + bytes] == s + t
  {
    LiesApart(file, o, s, t);
  }
}
