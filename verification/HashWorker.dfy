/** The digest thread of the pipeline: the caller takes a buffer, fills it and submits it; the thread digests the blocks in
    order and hands the buffers back. */
module HashWorker {
  import opened Bytes
  import Pipeline

  datatype Thread = Waiting | Hashing(block: Pipeline.Block) | Ended(ok: bool)

  /** `submitted` are the bytes handed over so far and `hashed` those fed to the digest; `free` buffers lie in the return
      channel, `held` are with the caller, `lost` were dropped. `input` and `receiver` are the caller's channel ends. */
  datatype State = State(total: nat, free: nat, held: nat, pending: seq<Pipeline.Block>, thread: Thread,
                         submitted: seq<byte>, hashed: seq<byte>, input: bool, receiver: bool, lost: nat)

  function Fresh(total: nat): State {
    State(total, Pipeline.BUFFERS, 0, [], Waiting, [], [], true, true, 0)
  }

  /** Finish closes the input and then drains the returned buffers; Abandon is the drop after an error. */
  datatype Event = Take | Submit(data: seq<byte>) | Grab | Give | Stop | Finish | Drain | Abandon

  /** Submitting waits for room in the channel, giving back for room in the other one while it is still there. */
  predicate Enabled(s: State, e: Event) {
    match e
    case Take => s.input && s.free > 0
    case Submit(data) =>
      && s.input && s.held > 0 && |s.pending| < Pipeline.BUFFERS
      && Pipeline.Expected(Pipeline.Block(|s.submitted|, data), |s.submitted|, s.total)
    case Grab => s.thread == Waiting && s.pending != []
    case Give => s.thread.Hashing? && (!s.receiver || s.free < Pipeline.BUFFERS)
    case Stop => s.thread == Waiting && s.pending == [] && !s.input
    case Finish => s.input
    case Drain => !s.input && s.receiver && s.free > 0
    case Abandon => s.receiver
  }

  function After(s: State, e: Event): State
    requires Enabled(s, e)
  {
    match e
    case Take => s.(free := s.free - 1, held := s.held + 1)
    case Submit(data) =>
      s.(held := s.held - 1, pending := s.pending + [Pipeline.Block(|s.submitted|, data)], submitted := s.submitted + data)
    case Grab => s.(thread := Hashing(s.pending[0]), pending := s.pending[1..])
    case Give =>
      var hashed := s.hashed + s.thread.block.data;
      if s.receiver then s.(thread := Waiting, hashed := hashed, free := s.free + 1)
      else s.(thread := Ended(|hashed| == s.total), hashed := hashed, lost := s.lost + 1)
    case Stop => s.(thread := Ended(|s.hashed| == s.total))
    case Finish => s.(input := false)
    case Drain => s.(free := s.free - 1, lost := s.lost + 1)
    case Abandon => s.(input := false, receiver := false, free := 0, held := 0, lost := s.lost + s.free + s.held)
  }

  /** The queued blocks are the submitted bytes from `from` on, in order and without a gap. */
  predicate Carries(total: nat, q: seq<Pipeline.Block>, submitted: seq<byte>, from: nat) {
    if q == [] then from == |submitted|
    else NextBlock(total, q[0], submitted, from) && Carries(total, q[1..], submitted, from + |q[0].data|)
  }

  predicate NextBlock(total: nat, b: Pipeline.Block, submitted: seq<byte>, from: nat) {
    && Pipeline.Expected(b, from, total) && from + |b.data| <= |submitted|
    && b.data == submitted[from..from + |b.data|]
  }

  predicate Inv(s: State) {
    && s.free + s.held + |s.pending| + s.lost + (if s.thread.Hashing? then 1 else 0) == Pipeline.BUFFERS
    && |s.hashed| <= |s.submitted| <= s.total && s.hashed == s.submitted[..|s.hashed|]
    && (s.input ==> s.receiver && !s.thread.Ended? && s.lost == 0)
    && (match s.thread
        case Waiting => Carries(s.total, s.pending, s.submitted, |s.hashed|)
        case Hashing(b) =>
          NextBlock(s.total, b, s.submitted, |s.hashed|) && Carries(s.total, s.pending, s.submitted, |s.hashed| + |b.data|)
        case Ended(ok) => (ok <==> |s.hashed| == s.total) && (s.receiver ==> s.pending == [] && s.hashed == s.submitted))
  }

  /** Neither channel makes its sender wait. */
  lemma NeverBlocks(s: State)
    requires Inv(s)
    ensures s.held > 0 ==> |s.pending| < Pipeline.BUFFERS
    ensures s.thread.Hashing? ==> s.free < Pipeline.BUFFERS
  {
  }

  /** A caller that keeps no buffer back never waits for one in vain. */
  lemma NeverStuck(s: State)
    requires Inv(s) && s.input && s.held == 0 && s.free == 0
    ensures Enabled(s, Grab) || Enabled(s, Give)
  {
  }

  /** Once the input is closed, the thread can always go on until it ends: draining and joining terminate. */
  lemma ClosedGoesOn(s: State)
    requires Inv(s) && !s.input && !s.thread.Ended?
    ensures Enabled(s, Grab) || Enabled(s, Give) || Enabled(s, Stop)
  {
  }

  function Rank(s: State): int {
    5 * (s.total - |s.submitted|) + 2 * s.free + s.held + 5 * |s.pending|
    + (if s.input then 1 else 0) + (if s.receiver then 1 else 0)
    + match s.thread case Waiting => 1 case Hashing(_) => 5 case Ended(_) => 0
  }

  lemma EveryStepCounts(s: State, e: Event)
    requires Inv(s) && Enabled(s, e)
    ensures 0 <= Rank(After(s, e)) < Rank(s)
  {
    StepKeeps(s, e);
  }

  predicate FinishOk(s: State) {
    s.thread == Ended(true) && |s.submitted| == s.total
  }

  /** `finish` succeeds exactly when the whole range was submitted, and then the digest is that of the submitted bytes. */
  lemma FinishExact(s: State)
    requires Inv(s) && !s.input && s.receiver && s.thread.Ended?
    ensures FinishOk(s) <==> |s.submitted| == s.total
    ensures FinishOk(s) ==> s.hashed == s.submitted
  {
  }

  lemma {:induction false} CarriesPush(total: nat, q: seq<Pipeline.Block>, submitted: seq<byte>, from: nat,
                                       data: seq<byte>)
    requires Carries(total, q, submitted, from)
    requires Pipeline.Expected(Pipeline.Block(|submitted|, data), |submitted|, total)
    ensures Carries(total, q + [Pipeline.Block(|submitted|, data)], submitted + data, from)
    decreases |q|
  {
    var b := Pipeline.Block(|submitted|, data);
    if q == [] {
      assert (q + [b])[1..] == [] && (submitted + data)[from..] == data;
    } else {
      assert (q + [b])[1..] == q[1..] + [b];
      StillNext(total, q[0], submitted, from, data);
      CarriesPush(total, q[1..], submitted, from + |q[0].data|, data);
    }
  }

  lemma StillNext(total: nat, b: Pipeline.Block, submitted: seq<byte>, from: nat, data: seq<byte>)
    requires NextBlock(total, b, submitted, from)
    ensures NextBlock(total, b, submitted + data, from)
  {
    assert (submitted + data)[from..from + |b.data|] == submitted[from..from + |b.data|];
  }

  lemma SubmitKeeps(s: State, data: seq<byte>)
    requires Inv(s) && Enabled(s, Submit(data))
    ensures Inv(After(s, Submit(data)))
  {
    assert (s.submitted + data)[..|s.hashed|] == s.submitted[..|s.hashed|];
    match s.thread
    case Waiting => CarriesPush(s.total, s.pending, s.submitted, |s.hashed|, data);
    case Hashing(b) =>
      StillNext(s.total, b, s.submitted, |s.hashed|, data);
      CarriesPush(s.total, s.pending, s.submitted, |s.hashed| + |b.data|, data);
  }

  /** Every interleaving of the caller and the thread. */
  lemma StepKeeps(s: State, e: Event)
    requires Inv(s) && Enabled(s, e)
    ensures Inv(After(s, e))
  {
    match e
    case Submit(data) => SubmitKeeps(s, data);
    case Give => Pipeline.Joins(s.submitted, 0, |s.hashed|, |s.thread.block.data|);
    case _ =>
  }

  predicate Run(states: seq<State>, events: seq<Event>) {
    && |states| == |events| + 1 && states[0] == Fresh(states[0].total)
    && forall k :: 0 <= k < |events| ==> Enabled(states[k], events[k]) && states[k + 1] == After(states[k], events[k])
  }

  lemma {:induction false} RunKeeps(states: seq<State>, events: seq<Event>, k: nat)
    requires Run(states, events) && k < |states|
    ensures Inv(states[k])
  {
    if k > 0 {
      RunKeeps(states, events, k - 1);
      StepKeeps(states[k - 1], events[k - 1]);
    }
  }

  // What the caller submits when it reads a range of a source block by block, as `read_digest` does with the eMMC.

  predicate Reads(states: seq<State>, events: seq<Event>, source: seq<byte>, from: nat)
    requires |states| == |events| + 1
  {
    forall k :: 0 <= k < |events| && events[k].Submit? ==> ReadBlock(states[k], events[k].data, source, from)
  }

  /** The block is the next part of the range. */
  predicate ReadBlock(s: State, data: seq<byte>, source: seq<byte>, from: nat) {
    var o := from + |s.submitted|;
    o + |data| <= |source| && data == source[o..o + |data|]
  }

  lemma {:induction false} SubmittedIsRead(states: seq<State>, events: seq<Event>, k: nat, source: seq<byte>, from: nat)
    requires Run(states, events) && Reads(states, events, source, from) && k < |states| && from <= |source|
    ensures from + |states[k].submitted| <= |source|
    ensures states[k].submitted == source[from..from + |states[k].submitted|]
  {
    if k > 0 {
      SubmittedIsRead(states, events, k - 1, source, from);
      var s, e := states[k - 1], events[k - 1];
      if e.Submit? {
        assert ReadBlock(s, e.data, source, from);
        SubmitGoesOn(s.submitted, e.data, source, from);
      }
    }
  }

  lemma SubmitGoesOn(before: seq<byte>, data: seq<byte>, source: seq<byte>, from: nat)
    requires from + |before| + |data| <= |source| && before == source[from..from + |before|]
    requires data == source[from + |before|..from + |before| + |data|]
    ensures before + data == source[from..from + |before + data|]
  {
  }

  /** Whatever way the threads interleave: a digest that is given out is that of exactly the range on the source. */
  lemma DigestsRange(states: seq<State>, events: seq<Event>, source: seq<byte>, from: nat)
    requires Run(states, events) && Reads(states, events, source, from) && from <= |source|
    requires var s := states[|events|]; !s.input && s.receiver && s.thread.Ended? && FinishOk(s)
    ensures var s := states[|events|];
      from + s.total <= |source| && s.hashed == source[from..from + s.total]
  {
    RunKeeps(states, events, |events|);
    SubmittedIsRead(states, events, |events|, source, from);
    FinishExact(states[|events|]);
  }
}
