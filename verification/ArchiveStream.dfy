/** The one reader of an archive, handed from segment to segment of a transaction through successive pipelines. */
module ArchiveStream {
  import opened Bytes
  import opened Disk
  import opened Archive
  import opened Pipeline

  /** One pipeline from its start to a `finish` that succeeded. */
  datatype Stage = Stage(states: seq<State>, events: seq<Event>)

  function Final(g: Stage): State
    requires Complete(g)
  {
    g.states[|g.events|]
  }

  predicate Complete(g: Stage) {
    Run(g.states, g.events) && Joined(g.states[|g.events|]) && FinishOk(g.states[|g.events|])
  }

  /** Stage `i` is the pipeline for range `i`: it gets the reader that `finish` of the stage before gave back, the first
      one a reader at the start of the payload. */
  predicate Chained(gs: seq<Stage>, m: Meta, payload: seq<byte>) {
    && |gs| <= |m.ranges|
    && (forall i :: 0 <= i < |gs| ==> Complete(gs[i]))
    && forall i :: 0 <= i < |gs| ==>
         && Final(gs[i]).stream == payload
         && Final(gs[i]).total == m.ranges[i].bytes
         && Final(gs[i]).start == if i == 0 then 0 else Final(gs[i - 1]).pos
  }

  /** Whatever way the threads of each pipeline interleave: the segments of an archive receive exactly the slices of its
      payload, and what is digested for a range is that slice too. */
  lemma {:induction false} SegmentsReceive(gs: seq<Stage>, m: Meta, payload: seq<byte>, i: nat)
    requires Chained(gs, m, payload) && i < |gs|
    ensures Final(gs[i]).pos == Before(m.ranges, i + 1) <= |payload|
    ensures Final(gs[i]).delivered == Slice(m, payload, i) == Final(gs[i]).hashed
  {
    if i > 0 {
      SegmentsReceive(gs, m, payload, i - 1);
    }
    StageDelivers(gs[i]);
  }

  lemma StageDelivers(g: Stage)
    requires Complete(g)
    ensures var s := Final(g);
      s.pos == s.start + s.total <= |s.stream| && s.delivered == s.hashed == s.stream[s.start..s.start + s.total]
  {
    RunKeeps(g.states, g.events, |g.events|);
    FinishExact(g.states[|g.events|]);
  }

  /** So all the pipelines together deliver what restoring the archive is to write. */
  lemma AllReceived(gs: seq<Stage>, m: Meta, payload: seq<byte>)
    requires Chained(gs, m, payload) && |gs| == |m.ranges|
    ensures |Segments(m, payload)| == |gs|
    ensures forall i :: 0 <= i < |gs| ==> Segments(m, payload)[i] == Segment(m.ranges[i].lba, Final(gs[i]).delivered)
  {
    forall i | 0 <= i < |gs| ensures Segments(m, payload)[i] == Segment(m.ranges[i].lba, Final(gs[i]).delivered) {
      SegmentsReceive(gs, m, payload, i);
    }
  }
}
