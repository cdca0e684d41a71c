/** The read-ahead pipeline: a worker thread that reads and digests, three recycled buffers, two bounded channels. */
module Pipeline {
  import opened Common
  import opened Bytes

  const BUFFERS := 3

  datatype Block = Block(offset: nat, data: seq<byte>)

  datatype Message = Data(block: Block) | Failure

  /** The worker: waiting for a buffer, reading into it, about to send it, done, or stopped by an error. */
  datatype Worker = Idle | Filling | Loaded(block: Block) | Finished | Broken

  /** `stream` and `pos` are the source and how far it was read, from `start` on; `sent` the worker's offset; `got` the
      consumer's, with `held` blocks in its hands; `open` while the consumer has its two channel ends. `hashed` and
      `delivered` are the bytes fed to the digest and handed to the consumer, `lost` the buffers that were dropped. */
  datatype State = State(stream: seq<byte>, start: nat, total: nat, worker: Worker, pos: nat, sent: nat, hashed: seq<byte>,
                         free: nat, ready: seq<Message>, open: bool, got: nat, held: nat, delivered: seq<byte>, lost: nat)

  function Fresh(stream: seq<byte>, start: nat, total: nat): State {
    State(stream, start, total, Idle, start, 0, [], BUFFERS, [], true, 0, 0, [], 0)
  }

  /** `check_block`. */
  predicate Expected(b: Block, offset: nat, total: nat) {
    offset <= total && b.offset == offset && |b.data| == Least(total - offset, CHUNK) && 0 < |b.data|
  }

  datatype Event = Acquire | Starve | Load(fault: bool) | Send | End | Receive | Recycle | Close

  /** The bytes a source still has to give for the next block. */
  predicate Readable(s: State) {
    s.sent <= s.total && s.pos + Least(s.total - s.sent, CHUNK) <= |s.stream|
  }

  /** Sending waits for room in the channel unless the other end is gone. */
  predicate Enabled(s: State, e: Event) {
    match e
    case Acquire => s.worker == Idle && s.sent < s.total && s.free > 0
    case Starve => s.worker == Idle && s.sent < s.total && s.free == 0 && !s.open
    case Load(fault) => s.worker == Filling && ((Readable(s) && !fault) || !s.open || |s.ready| < BUFFERS)
    case Send => s.worker.Loaded? && (!s.open || |s.ready| < BUFFERS)
    case End => s.worker == Idle && s.sent >= s.total
    case Receive => s.open && s.ready != [] && s.ready[0].Data?
    case Recycle => s.open && s.held > 0 && s.free < BUFFERS
    case Close => s.open
  }

  function After(s: State, e: Event): State
    requires Enabled(s, e)
  {
    match e
    case Acquire => s.(free := s.free - 1, worker := Filling)
    case Starve => s.(worker := Broken)
    case Load(fault) =>
      if Readable(s) && !fault then
        var data := s.stream[s.pos..s.pos + Least(s.total - s.sent, CHUNK)];
        s.(worker := Loaded(Block(s.sent, data)), pos := s.pos + |data|, hashed := s.hashed + data)
      else
        s.(worker := Broken, lost := s.lost + 1, ready := if s.open then s.ready + [Failure] else s.ready)
    case Send =>
      var b := s.worker.block;
      if s.open then s.(worker := Idle, ready := s.ready + [Data(b)], sent := s.sent + |b.data|)
      else s.(worker := Broken, lost := s.lost + 1)
    case End => s.(worker := Finished)
    case Receive =>
      var b := s.ready[0].block;
      s.(ready := s.ready[1..], got := s.got + |b.data|, held := s.held + 1, delivered := s.delivered + b.data)
    case Recycle => s.(held := s.held - 1, free := s.free + 1)
    case Close => s.(open := false, ready := [], lost := s.lost + Blocks(s.ready))
  }

  function Blocks(q: seq<Message>): nat {
    if q == [] then 0 else Blocks(q[1..]) + if q[0].Data? then 1 else 0
  }

  lemma {:induction false} BlocksPush(q: seq<Message>, m: Message)
    ensures Blocks(q + [m]) == Blocks(q) + if m.Data? then 1 else 0
  {
    if q != [] {
      assert (q + [m])[1..] == q[1..] + [m];
      BlocksPush(q[1..], m);
    }
  }

  lemma {:induction false} BlocksAll(q: seq<Message>)
    ensures Blocks(q) <= |q|
    ensures (forall i :: 0 <= i < |q| ==> q[i].Data?) ==> Blocks(q) == |q|
    ensures (forall i :: 0 <= i < |q| - 1 ==> q[i].Data?) ==> Blocks(q) + 1 >= |q|
  {
    if q != [] {
      BlocksAll(q[1..]);
    }
  }

  /** The queued blocks carry the stream on from `from` to `to` without a gap, a failure at most as the last message. */
  predicate Carries(f: Source, q: seq<Message>, from: nat, to: nat) {
    if q == [] then from == to
    else if q[0].Data? then
      && NextBlock(f, q[0].block, from)
      && Carries(f, q[1..], from + |q[0].block.data|, to)
    else |q| == 1 && from == to
  }

  /** What one pipeline reads: `total` bytes of the stream, from `start` on. */
  datatype Source = Source(stream: seq<byte>, start: nat, total: nat)

  function From(s: State): Source {
    Source(s.stream, s.start, s.total)
  }

  /** The block that continues the range at `from`, with the bytes of the stream. */
  predicate NextBlock(f: Source, b: Block, from: nat) {
    && Expected(b, from, f.total) && f.start + from + |b.data| <= |f.stream|
    && b.data == f.stream[f.start + from..f.start + from + |b.data|]
  }

  predicate Accounted(s: State) {
    s.free + s.held + Blocks(s.ready) + s.lost + (if s.worker == Filling || s.worker.Loaded? then 1 else 0) == BUFFERS
  }

  predicate Streamed(s: State) {
    && s.start <= s.pos <= |s.stream| && s.got <= s.sent <= s.total
    && s.hashed == s.stream[s.start..s.pos]
    && s.start + s.got <= s.pos && s.delivered == s.stream[s.start..s.start + s.got]
  }

  /** How far the reader is ahead of what was sent. */
  predicate Ahead(s: State) {
    match s.worker
    case Idle => s.pos == s.start + s.sent
    case Filling => s.pos == s.start + s.sent && s.sent < s.total
    case Loaded(b) =>
      NextBlock(From(s), b, s.sent) && s.pos == s.start + s.sent + |b.data|
    case Finished => s.pos == s.start + s.sent && s.sent == s.total
    case Broken => s.start + s.sent <= s.pos && s.sent < s.total
  }

  predicate Inv(s: State) {
    && s.start <= |s.stream| && Accounted(s) && Streamed(s) && Ahead(s)
    && (s.open ==> Carries(From(s), s.ready, s.got, s.sent))
    && (!s.open ==> s.ready == [])
    && (s.worker != Broken ==> forall i :: 0 <= i < |s.ready| ==> s.ready[i].Data?)
    && (s.open && s.worker != Broken ==> s.lost == 0)
    && (s.open && s.worker == Broken ==> s.ready != [] && s.ready[|s.ready| - 1] == Failure)
  }

  /** No channel ever makes its sender wait: neither the worker, even when it reports an error, nor the consumer. */
  lemma NeverBlocks(s: State)
    requires Inv(s) && s.open
    ensures s.worker == Filling || s.worker.Loaded? ==> |s.ready| < BUFFERS
    ensures s.held > 0 ==> s.free < BUFFERS
  {
    BlocksAll(s.ready);
  }

  /** What the consumer receives always passes `check_block`: it is the next block, in order. */
  lemma ReceivedExpected(s: State)
    requires Inv(s) && Enabled(s, Receive)
    ensures Expected(s.ready[0].block, s.got, s.total)
    ensures s.start + s.got + |s.ready[0].block.data| <= |s.stream|
    ensures s.ready[0].block.data == s.stream[s.start + s.got..s.start + s.got + |s.ready[0].block.data|]
  {
  }

  /** A consumer that hands back every block before it asks for the next one is never left waiting for ever: as long as
      blocks are missing and no error is on its way, the worker can go on. */
  lemma NeverStuck(s: State, fault: bool)
    requires Inv(s) && s.open && s.held == 0 && s.ready == [] && s.got < s.total
    ensures Enabled(s, Acquire) || Enabled(s, Load(fault)) || Enabled(s, Send)
  {
  }

  /** Once the consumer has let go, the join comes to an end: a worker that has not stopped can always go on. */
  lemma ClosedGoesOn(s: State, fault: bool)
    requires Inv(s) && !s.open && !Joined(s)
    ensures Enabled(s, Acquire) || Enabled(s, Starve) || Enabled(s, Load(fault)) || Enabled(s, Send) || Enabled(s, End)
  {
  }

  function Rank(s: State): int {
    5 * (s.total - s.sent) + 2 * |s.ready| + s.held + (if s.open then 1 else 0)
    + match s.worker case Idle => 5 case Filling => 4 case Loaded(_) => 3 case Finished => 0 case Broken => 0
  }

  /** And neither side can go on for ever. */
  lemma EveryStepCounts(s: State, e: Event)
    requires Inv(s) && Enabled(s, e)
    ensures 0 <= Rank(After(s, e)) < Rank(s)
  {
  }

  /** What `finish` returns once the worker has ended. */
  predicate Joined(s: State) {
    !s.open && (s.worker == Finished || s.worker == Broken)
  }

  predicate FinishOk(s: State) {
    s.worker == Finished && s.got == s.total && |s.hashed| == s.total
  }

  /** Success means that exactly the whole range was delivered, that it is what was digested, and that the reader stands
      right behind it, where the next segment of the same archive begins. It is success exactly when the consumer took
      everything. */
  lemma FinishExact(s: State)
    requires Inv(s) && Joined(s)
    ensures FinishOk(s) ==>
      && s.pos == s.start + s.total <= |s.stream|
      && s.delivered == s.hashed == s.stream[s.start..s.start + s.total]
    ensures FinishOk(s) <==> s.got == s.total
  {
  }

  // The invariant is kept.

  lemma {:induction false} CarriesPush(f: Source, q: seq<Message>, from: nat, to: nat, b: Block)
    requires Carries(f, q, from, to) && (forall i :: 0 <= i < |q| ==> q[i].Data?) && NextBlock(f, b, to)
    ensures Carries(f, q + [Data(b)], from, to + |b.data|)
    decreases |q|
  {
    if q != [] {
      assert (q + [Data(b)])[1..] == q[1..] + [Data(b)];
      CarriesPush(f, q[1..], from + |q[0].block.data|, to, b);
    } else {
      assert (q + [Data(b)])[1..] == [];
    }
  }

  lemma {:induction false} CarriesFail(f: Source, q: seq<Message>, from: nat, to: nat)
    requires Carries(f, q, from, to) && (forall i :: 0 <= i < |q| ==> q[i].Data?)
    ensures Carries(f, q + [Failure], from, to)
    decreases |q|
  {
    if q != [] {
      assert (q + [Failure])[1..] == q[1..] + [Failure];
      CarriesFail(f, q[1..], from + |q[0].block.data|, to);
    }
  }

  lemma LoadedStreamed(s: State) returns (s': State)
    requires Inv(s) && s.worker == Filling && Readable(s)
    ensures s' == After(s, Load(false)) && Streamed(s') && Ahead(s')
  {
    s' := After(s, Load(false));
    Joins(s.stream, s.start, s.pos, Least(s.total - s.sent, CHUNK));
  }

  lemma LoadedKeeps(s: State)
    requires Inv(s) && s.worker == Filling && Readable(s)
    ensures Inv(After(s, Load(false)))
  {
    var s' := LoadedStreamed(s);
  }

  lemma Joins(b: seq<byte>, from: nat, mid: nat, n: nat)
    requires from <= mid && mid + n <= |b|
    ensures b[from..mid] + b[mid..mid + n] == b[from..mid + n]
  {
  }

  lemma FaultKeeps(s: State, fault: bool)
    requires Inv(s) && Enabled(s, Load(fault)) && !(Readable(s) && !fault)
    ensures Inv(After(s, Load(fault)))
  {
    if s.open {
      CarriesFail(From(s), s.ready, s.got, s.sent);
      BlocksPush(s.ready, Failure);
    }
  }

  lemma LoadKeeps(s: State, fault: bool)
    requires Inv(s) && Enabled(s, Load(fault))
    ensures Inv(After(s, Load(fault)))
  {
    if Readable(s) && !fault {
      LoadedKeeps(s);
    } else {
      FaultKeeps(s, fault);
    }
  }

  lemma SendKeeps(s: State)
    requires Inv(s) && Enabled(s, Send)
    ensures Inv(After(s, Send))
  {
    if s.open {
      CarriesPush(From(s), s.ready, s.got, s.sent, s.worker.block);
      BlocksPush(s.ready, Data(s.worker.block));
    }
  }

  lemma ReceivedStreamed(s: State) returns (s': State)
    requires Inv(s) && Enabled(s, Receive)
    ensures s' == After(s, Receive) && Streamed(s') && Ahead(s') && Accounted(s')
  {
    s' := After(s, Receive);
    CarriesBound(From(s), s'.ready, s'.got, s.sent);
    Joins(s.stream, s.start, s.start + s.got, |s.ready[0].block.data|);
  }

  lemma ReceiveKeeps(s: State)
    requires Inv(s) && Enabled(s, Receive)
    ensures Inv(After(s, Receive))
  {
    var s' := ReceivedStreamed(s);
  }

  lemma {:induction false} CarriesBound(f: Source, q: seq<Message>, from: nat, to: nat)
    requires Carries(f, q, from, to)
    ensures from <= to
    decreases |q|
  {
    if q != [] && q[0].Data? {
      CarriesBound(f, q[1..], from + |q[0].block.data|, to);
    }
  }

  /** Every interleaving: each step of either thread keeps buffers, order and contents. */
  lemma StepKeeps(s: State, e: Event)
    requires Inv(s) && Enabled(s, e)
    ensures Inv(After(s, e))
  {
    match e
    case Load(fault) => LoadKeeps(s, fault);
    case Send => SendKeeps(s);
    case Receive => ReceiveKeeps(s);
    case _ =>
  }

  lemma FreshOk(stream: seq<byte>, start: nat, total: nat)
    requires start <= |stream|
    ensures Inv(Fresh(stream, start, total))
  {
  }

  predicate Run(states: seq<State>, events: seq<Event>) {
    && |states| == |events| + 1
    && states[0] == Fresh(states[0].stream, states[0].start, states[0].total) && states[0].start <= |states[0].stream|
    && forall k :: 0 <= k < |events| ==> Enabled(states[k], events[k]) && states[k + 1] == After(states[k], events[k])
  }

  lemma {:induction false} RunKeeps(states: seq<State>, events: seq<Event>, k: nat)
    requires Run(states, events) && k < |states|
    ensures Inv(states[k])
  {
    if k > 0 {
      RunKeeps(states, events, k - 1);
      StepKeeps(states[k - 1], events[k - 1]);
    }
  }
}
