/** Every step of the scheduler keeps its invariant, commits at the right moment, and keeps the IOMMU domain of the
    jobs in flight. */
module SchedulerSteps {
  import opened Common
  import opened Scheduler

  datatype Event =
    | Admit(args: Arguments, domain: nat)   // rknpu_iommu_domain_get_and_switch for a job
    | Enqueue(i: nat)                       // the locked enqueue of rknpu_job_schedule
    | Call(c: nat)                          // the locked part of rknpu_job_next
    | Decrement(t: nat, c: nat)             // atomic_dec_and_test(&job->run_count), deciding the commit
    | Start(t: nat, c: nat)                 // rknpu_job_subcore_commit for the first slice
    | Interrupt(c: nat, status: nat)        // the handler up to the freed slot, or the next slice
    | Mismatch(c: nat, status: nat)         // the handler on a status that does not match
    | Complete(t: nat, c: nat)              // atomic_dec_and_test(&job->interrupt_count) and the call that follows
    | Spurious(c: nat)                      // an interrupt on a free core
    | Abort(t: nat)                         // rknpu_job_abort by a submitter that has read a failed commit
    | Refuse(domain: nat)                   // a request whose domain is refused, and its rknpu_job_abort
    | Hold(domain: nat)                     // a domain holder that is not a job
    | Release(i: nat)

  predicate Enabled(s: State, e: Event) {
    match e
    case Admit(args, domain) => Wellformed(args, s.n) && (domain == s.domain || s.refs == 0)
    case Enqueue(i) => i < |s.admitted|
    case Call(c) => c < s.n && c in s.calls
    case Decrement(t, c) => At(s, t, c, Taken)
    case Start(t, c) => At(s, t, c, Starting)
    case Interrupt(c, status) => c < s.n && c < |s.slot| && s.slot[c].Some? && Matching(s, s.slot[c].value, c, status)
    case Mismatch(c, status) =>
      && c < s.n && c < |s.slot| && s.slot[c].Some? && At(s, s.slot[c].value, c, Running)
      && !Matching(s, s.slot[c].value, c, status)
    case Complete(t, c) => At(s, t, c, Ending)
    case Spurious(c) => c < s.n && c < |s.slot| && s.slot[c] == None
    case Hold(domain) => domain == s.domain || s.refs == 0
    case Release(i) => i < |s.others|
    case Abort(t) => t < |s.jobs| && s.jobs[t].run == 0 && s.jobs[t].interrupts > 0 && Failing(s.jobs[t].args)
    case Refuse(domain) => domain != s.domain
  }

  /** The commit of such a job reaches `rknpu_job_subcore_commit`, and leaves its error in `job->ret`. */
  predicate Failing(a: Arguments) {
    !(a.pc && a.tasks.Some?) && a.mask != 5 && a.mask != 6
  }

  predicate At(s: State, t: nat, c: nat, p: Phase) {
    t < |s.jobs| && c < s.n && c < |s.jobs[t].row| && s.jobs[t].row[c] == p
  }

  /** The status answers the slice that core `c` is running. */
  predicate Matching(s: State, t: nat, c: nat, status: nat) {
    && At(s, t, c, Running) && c < |s.jobs[t].sent|
    && var mask := SliceMask(s.jobs[t].args, s.n, s.max, c, s.jobs[t].sent[c]);
    && mask != 0 && Fuzz(status) == mask
  }

  function Without<T>(q: seq<T>, i: nat): (r: seq<T>)
    requires i < |q|
    ensures |r| == |q| - 1
  {
    q[..i] + q[i + 1..]
  }

  // What each step does, on any state: what may be assumed of a state is for the invariant to say.

  function Appended(q: seq<seq<nat>>, args: Arguments, t: nat): (r: seq<seq<nat>>)
    ensures |r| == |q|
  {
    seq(|q|, c requires 0 <= c < |q| => if CoreIn(args.mask, c) then q[c] + [t] else q[c])
  }

  function Calls(args: Arguments, n: nat): multiset<nat> {
    if n == 0 then multiset{}
    else Calls(args, n - 1) + if CoreIn(args.mask, n - 1) then multiset{n - 1} else multiset{}
  }

  function Queueing(s: State, i: nat): State {
    if i >= |s.admitted| then s
    else
      var j := s.admitted[i];
      s.(jobs := s.jobs + [j], todo := Appended(s.todo, j.args, |s.jobs|), calls := s.calls + Calls(j.args, s.n),
         admitted := Without(s.admitted, i))
  }

  function Moved(j: Job, c: nat, p: Phase): Job {
    if c < |j.row| then j.(row := j.row[c := p]) else j
  }

  /** A free core takes the first job of its queue. */
  function Calling(s: State, c: nat): State {
    var r := s.(calls := s.calls - multiset{c});
    if c >= |s.slot| || c >= |s.todo| || s.slot[c].Some? || s.todo[c] == [] || s.todo[c][0] >= |s.jobs| then r
    else
      var t := s.todo[c][0];
      r.(todo := s.todo[c := s.todo[c][1..]], slot := s.slot[c := Some(t)],
         jobs := s.jobs[t := Moved(s.jobs[t], c, Taken)])
  }

  /** The commit: every counted core that it can start is going to be started. That it may fail for a core is left in
      `job->ret`, which only the submitter reads. */
  function Committed(a: Arguments, row: seq<Phase>): (r: seq<Phase>)
    ensures |r| == |row|
  {
    seq(|row|, c requires 0 <= c < |row| => if row[c] == Ready && Starts(a, c) then Starting else row[c])
  }

  function Counted(j: Job, c: nat): Job {
    var next := Moved(j, c, Ready);
    if j.run == 1 then next.(run := 0, commits := j.commits + 1, row := Committed(j.args, next.row))
    else next.(run := if j.run > 0 then j.run - 1 else 0)
  }

  /** The slices of a part are counted as they complete. */
  function InterruptedBy(j: Job, n: nat, max: nat, c: nat): Job {
    if c >= |j.sent| || !Located(j.args, max, c) then j
    else
      var next := j.(sent := j.sent[c := j.sent[c] + 1]);
      if j.sent[c] + 1 < Slices(Part(j.args, n, c).1, max) then next else Moved(next, c, Ending)
  }

  /** The next slice goes to the hardware, or after the last one the slot is freed. */
  function Interrupted(s: State, c: nat): State {
    if c >= |s.slot| || s.slot[c] == None || s.slot[c].value >= |s.jobs| then s
    else
      var t := s.slot[c].value;
      var j := InterruptedBy(s.jobs[t], s.n, s.max, c);
      s.(jobs := s.jobs[t := j], slot := if c < |j.row| && j.row[c] == Ending then s.slot[c := None] else s.slot)
  }

  function Completed(s: State, t: nat, c: nat): State {
    if t >= |s.jobs| then s
    else
      var j := s.jobs[t];
      var left := if j.interrupts > 0 then j.interrupts - 1 else 0;
      s.(jobs := s.jobs[t := Moved(j, c, Done).(interrupts := left)], calls := s.calls + multiset{c},
         refs := if j.interrupts == 1 then s.refs - 1 else s.refs)
  }

  function Released(s: State, i: nat): State {
    if i >= |s.others| then s else s.(others := Without(s.others, i), refs := s.refs - 1)
  }

  /** A job given up: its cores are over, its completion is never counted. */
  function GivenUp(j: Job): Job {
    j.(interrupts := 0, row := seq(|j.row|, c requires 0 <= c < |j.row| => if j.row[c] == Out then Out else Gone))
  }

  /** Its slots are freed, without a look at the queues behind them, and its domain is put. */
  function Aborted(s: State, t: nat): State {
    if t >= |s.jobs| then s
    else
      s.(jobs := s.jobs[t := GivenUp(s.jobs[t])], refs := s.refs - 1,
         slot := seq(|s.slot|, c requires 0 <= c < |s.slot| => if s.slot[c] == Some(t) then None else s.slot[c]))
  }

  function After(s: State, e: Event): State {
    match e
    case Admit(args, domain) =>
      s.(admitted := s.admitted + [Fresh(args, domain, s.n)], domain := domain, refs := s.refs + 1)
    case Enqueue(i) => Queueing(s, i)
    case Call(c) => Calling(s, c)
    case Decrement(t, c) => if t < |s.jobs| then s.(jobs := s.jobs[t := Counted(s.jobs[t], c)]) else s
    case Start(t, c) => if t < |s.jobs| then s.(jobs := s.jobs[t := Moved(s.jobs[t], c, Running)]) else s
    case Interrupt(c, _) => Interrupted(s, c)
    case Mismatch(_, _) => s
    case Complete(t, c) => Completed(s, t, c)
    case Spurious(c) => s.(calls := s.calls + multiset{c})
    case Hold(domain) => s.(others := s.others + [domain], domain := domain, refs := s.refs + 1)
    case Release(i) => Released(s, i)
    case Abort(t) => Aborted(s, t)
    case Refuse(_) => s.(refs := s.refs - 1)
  }

  /** One atomic step. */
  predicate Step(s: State, e: Event, s': State) {
    Enabled(s, e) && s' == After(s, e)
  }

  lemma DecrementPositive(s: State, t: nat, c: nat)
    requires Inv(s) && At(s, t, c, Taken)
    ensures s.jobs[t].run > 0
  {
    assert JobOk(s.jobs[t], s.n, s.max);
    CountZero(Unready, s.jobs[t].row);
    assert Unready(s.jobs[t].row[c]);
  }

  // Jobs keep their counters.

  lemma FreshOk(args: Arguments, domain: nat, n: nat, max: nat)
    requires Wellformed(args, n) && max > 0 && n <= 3
    ensures JobOk(Fresh(args, domain, n), n, max)
  {
    var j := Fresh(args, domain, n);
    CountZero(Unready, j.row);
    var c :| 0 <= c < n && CoreIn(args.mask, c);
    assert Unready(j.row[c]);
  }

  lemma MovedOk(j: Job, n: nat, max: nat, c: nat, p: Phase)
    requires JobOk(j, n, max) && c < n
    requires Unready(p) == Unready(j.row[c]) && Unfinished(p) == Unfinished(j.row[c]) && p != Out
    requires CoreStateOk(Moved(j, c, p), n, max, c)
    ensures JobOk(Moved(j, c, p), n, max)
  {
    CountUpdate(Unready, j.row, c, p);
    CountUpdate(Unfinished, j.row, c, p);
    forall d | 0 <= d < n ensures CoreStateOk(Moved(j, c, p), n, max, d) {
      assert CoreStateOk(j, n, max, d);
    }
  }

  lemma SentOk(j: Job, n: nat, max: nat, c: nat, k: nat, p: Phase)
    requires JobOk(j, n, max) && c < n && j.row[c] == Running && (p == Running || p == Ending)
    requires AnsweredUpTo(j.args, n, max, c, k)
    requires Settled(p, k, Slices(Part(j.args, n, c).1, max))
    ensures JobOk(j.(sent := j.sent[c := k], row := j.row[c := p]), n, max)
  {
    var next := j.(sent := j.sent[c := k], row := j.row[c := p]);
    CountUpdate(Unready, j.row, c, p);
    CountUpdate(Unfinished, j.row, c, p);
    forall d | 0 <= d < n ensures CoreStateOk(next, n, max, d) {
      assert CoreStateOk(j, n, max, d);
    }
  }

  lemma CountedOk(j: Job, n: nat, max: nat, c: nat)
    requires JobOk(j, n, max) && c < n && j.row[c] == Taken && j.run > 0
    ensures JobOk(Counted(j, c), n, max)
    ensures forall d :: 0 <= d < n ==> Alike(j.row[d], Counted(j, c).row[d])
  {
    var row := j.row[c := Ready];
    CountUpdate(Unready, j.row, c, Ready);
    CountUpdate(Unfinished, j.row, c, Ready);
    if j.run == 1 {
      CountZero(Unready, row);
      var done := Committed(j.args, row);
      CountSame(Unready, row, done);
      CountSame(Unfinished, row, done);
    }
    CountedCores(j, n, max, c);
  }

  lemma CountedCores(j: Job, n: nat, max: nat, c: nat)
    requires JobOk(j, n, max) && c < n && j.row[c] == Taken && j.run > 0
    ensures forall d :: 0 <= d < n ==> CoreStateOk(Counted(j, c), n, max, d)
  {
    forall d | 0 <= d < n ensures CoreStateOk(Counted(j, c), n, max, d) {
      assert CoreStateOk(j, n, max, d);
    }
  }

  lemma DoneOk(j: Job, n: nat, max: nat, c: nat)
    requires JobOk(j, n, max) && c < n && j.row[c] == Ending
    ensures j.interrupts > 0
    ensures JobOk(Moved(j, c, Done).(interrupts := j.interrupts - 1), n, max)
  {
    CountZero(Unfinished, j.row);
    assert Unfinished(j.row[c]);
    var next := Moved(j, c, Done).(interrupts := j.interrupts - 1);
    CountUpdate(Unready, j.row, c, Done);
    CountUpdate(Unfinished, j.row, c, Done);
    forall d | 0 <= d < n ensures CoreStateOk(next, n, max, d) {
      assert CoreStateOk(j, n, max, d);
    }
  }

  // Cores keep their queues.

  /** The same to the queue and the slot. */
  predicate Alike(p: Phase, q: Phase) {
    && (p == Out <==> q == Out) && (p == Waiting <==> q == Waiting)
    && (Holding(p) <==> Holding(q)) && (p == Ending ==> q == Ending) && (p == Gone ==> q == Gone)
  }

  lemma AlikeServed(col: seq<Phase>, col': seq<Phase>, todo: seq<nat>, slot: Option<nat>)
    requires Served(col, todo, slot) && |col| == |col'| && forall t :: 0 <= t < |col| ==> Alike(col[t], col'[t])
    ensures Served(col', todo, slot) && (Ending in col ==> Ending in col') && (Gone in col ==> Gone in col')
  {
    if Ending in col {
      var t :| 0 <= t < |col| && col[t] == Ending;
      assert Alike(col[t], col'[t]);
    }
    if Gone in col {
      var t :| 0 <= t < |col| && col[t] == Gone;
      assert Alike(col[t], col'[t]);
    }
  }

  lemma QueuedServed(col: seq<Phase>, todo: seq<nat>, slot: Option<nat>)
    requires Served(col, todo, slot)
    ensures Served(col + [Waiting], todo + [|col|], slot)
  {
  }

  lemma SkippedServed(col: seq<Phase>, todo: seq<nat>, slot: Option<nat>)
    requires Served(col, todo, slot)
    ensures Served(col + [Out], todo, slot)
  {
  }

  lemma TakenServed(col: seq<Phase>, todo: seq<nat>)
    requires Served(col, todo, None) && todo != []
    ensures Served(col[todo[0] := Taken], todo[1..], Some(todo[0]))
  {
    assert todo == [todo[0]] + todo[1..];
  }

  lemma FreedServed(col: seq<Phase>, todo: seq<nat>, t: nat)
    requires Served(col, todo, Some(t))
    ensures Served(col[t := Ending], todo, None)
  {
  }

  lemma GoneServed(col: seq<Phase>, todo: seq<nat>, t: nat)
    requires Served(col, todo, Some(t))
    ensures Served(col[t := Gone], todo, None)
  {
  }

  lemma CompletedServed(col: seq<Phase>, todo: seq<nat>, slot: Option<nat>, t: nat)
    requires Served(col, todo, slot) && t < |col| && col[t] == Ending
    ensures Served(col[t := Done], todo, slot)
  {
  }

  lemma CoreKept(s: State, s': State, c: nat)
    requires Rows(s) && Rows(s') && s.n == s'.n && c < s.n && CoreOk(s, c)
    requires |s.jobs| == |s'.jobs| && s'.todo[c] == s.todo[c] && s'.slot[c] == s.slot[c]
    requires c in s.calls ==> c in s'.calls
    requires forall t :: 0 <= t < |s.jobs| ==> Alike(Column(s, c)[t], Column(s', c)[t])
    ensures CoreOk(s', c)
  {
    AlikeServed(Column(s, c), Column(s', c), s.todo[c], s.slot[c]);
  }

  /** One job replaced, every other as it was: its column changes in one place. */
  lemma RowsKept(s: State, s': State, t: nat)
    requires Rows(s) && t < |s.jobs| && |s'.jobs| == |s.jobs| && s'.n == s.n && s'.max == s.max
    requires |s'.todo| == |s'.slot| == s.n
    requires s'.jobs == s.jobs[t := s'.jobs[t]] && JobOk(s'.jobs[t], s.n, s.max)
    ensures Rows(s')
    ensures forall c :: 0 <= c < s.n ==> Column(s', c) == Column(s, c)[t := s'.jobs[t].row[c]]
  {
  }

  /** A step of one job that only moves phases within their class. */
  lemma QuietMove(s: State, s': State, t: nat)
    requires Inv(s) && t < |s.jobs| && |s'.jobs| == |s.jobs| && s' == s.(jobs := s.jobs[t := s'.jobs[t]])
    requires JobOk(s.jobs[t], s.n, s.max) && JobOk(s'.jobs[t], s.n, s.max)
    requires forall c :: 0 <= c < s.n ==> Alike(s.jobs[t].row[c], s'.jobs[t].row[c])
    ensures Inv(s')
  {
    RowsKept(s, s', t);
    forall c | 0 <= c < s.n ensures CoreOk(s', c) {
      assert CoreOk(s, c) && Alike(s.jobs[t].row[c], s'.jobs[t].row[c]);
      CoreKept(s, s', c);
    }
  }

  lemma EnqueueKeeps(s: State, i: nat)
    requires Inv(s) && i < |s.admitted| && JobOk(s.admitted[i], s.n, s.max)
    requires s.admitted[i].row == Queued(s.admitted[i].args, s.n)
    ensures Inv(Queueing(s, i))
  {
    forall c | 0 <= c < s.n ensures CoreOk(Queueing(s, i), c) {
      EnqueueCore(s, i, c);
    }
  }

  lemma EnqueueCore(s: State, i: nat, c: nat)
    requires Inv(s) && i < |s.admitted| && JobOk(s.admitted[i], s.n, s.max) && c < s.n
    requires s.admitted[i].row == Queued(s.admitted[i].args, s.n)
    ensures Rows(Queueing(s, i)) && CoreOk(Queueing(s, i), c)
  {
    var s', args := Queueing(s, i), s.admitted[i].args;
    assert CoreOk(s, c);
    CallsIn(args, s.n, c);
    if CoreIn(args.mask, c) {
      assert Column(s', c) == Column(s, c) + [Waiting];
      QueuedServed(Column(s, c), s.todo[c], s.slot[c]);
    } else {
      assert Column(s', c) == Column(s, c) + [Out];
      SkippedServed(Column(s, c), s.todo[c], s.slot[c]);
    }
  }

  lemma {:induction false} CallsIn(args: Arguments, n: nat, c: nat)
    ensures c in Calls(args, n) <==> c < n && CoreIn(args.mask, c)
  {
    if n > 0 {
      CallsIn(args, n - 1, c);
    }
  }

  lemma CallKeeps(s: State, c: nat)
    requires Inv(s) && c < s.n && c in s.calls
    ensures Inv(Calling(s, c))
  {
    var s' := Calling(s, c);
    assert CoreOk(s, c);
    if s.slot[c].Some? || s.todo[c] == [] {
      forall d | 0 <= d < s.n ensures CoreOk(s', d) {
        assert CoreOk(s, d) && Column(s', d) == Column(s, d);
      }
    } else {
      TakeKeeps(s, c);
    }
  }

  lemma TakeKeeps(s: State, c: nat)
    requires Inv(s) && c < s.n && c in s.calls && s.slot[c] == None && s.todo[c] != []
    ensures Inv(Calling(s, c))
  {
    var s', t := Calling(s, c), s.todo[c][0];
    assert CoreOk(s, c);
    var j := s.jobs[t];
    assert JobOk(j, s.n, s.max) && j.row[c] == Column(s, c)[t] == Waiting;
    TakenOk(j, s.n, s.max, c);
    RowsKept(s, s', t);
    forall d | 0 <= d < s.n ensures CoreOk(s', d) {
      if d != c {
        CoreKept(s, s', d);
      } else {
        TakenServed(Column(s, c), s.todo[c]);
      }
    }
  }

  lemma TakenOk(j: Job, n: nat, max: nat, c: nat)
    requires JobOk(j, n, max) && c < n && j.row[c] == Waiting
    ensures JobOk(Moved(j, c, Taken), n, max)
  {
    assert CoreStateOk(j, n, max, c) && Unready(j.row[c]);
    CountZero(Unready, j.row);
    MovedOk(j, n, max, c, Taken);
  }

  lemma InterruptKeeps(s: State, c: nat, status: nat)
    requires Inv(s) && Enabled(s, Interrupt(c, status))
    ensures Inv(Interrupted(s, c))
  {
    var t := s.slot[c].value;
    var j, s' := s.jobs[t], Interrupted(s, c);
    FuzzTwice(status);
    InterruptedJob(j, s.n, s.max, c);
    if s'.slot == s.slot {
      NextSliceKeeps(s, s', t);
    } else {
      LastSliceKeeps(s, s', c, t);
    }
  }

  lemma InterruptedJob(j: Job, n: nat, max: nat, c: nat)
    requires JobOk(j, n, max) && c < n && j.row[c] == Running && Answered(SliceMask(j.args, n, max, c, j.sent[c]))
    ensures JobOk(InterruptedBy(j, n, max, c), n, max)
    ensures InterruptedBy(j, n, max, c).row == j.row || InterruptedBy(j, n, max, c).row == j.row[c := Ending]
  {
    assert CoreStateOk(j, n, max, c) && j.row[c := Running] == j.row;
    AnsweredNext(j.args, n, max, c, j.sent[c]);
    SentOk(j, n, max, c, j.sent[c] + 1, if j.sent[c] + 1 < Slices(Part(j.args, n, c).1, max) then Running else Ending);
  }

  lemma NextSliceKeeps(s: State, s': State, t: nat)
    requires Inv(s) && t < |s.jobs| == |s'.jobs| && s' == s.(jobs := s.jobs[t := s'.jobs[t]])
    requires JobOk(s.jobs[t], s.n, s.max) && JobOk(s'.jobs[t], s.n, s.max) && s'.jobs[t].row == s.jobs[t].row
    ensures Inv(s')
  {
    QuietMove(s, s', t);
  }

  lemma LastSliceKeeps(s: State, s': State, c: nat, t: nat)
    requires Inv(s) && c < s.n && s.slot[c] == Some(t) && t < |s.jobs| == |s'.jobs|
    requires s' == s.(slot := s.slot[c := None], jobs := s.jobs[t := s'.jobs[t]])
    requires JobOk(s.jobs[t], s.n, s.max) && JobOk(s'.jobs[t], s.n, s.max)
    requires s'.jobs[t].row == s.jobs[t].row[c := Ending]
    ensures Inv(s')
  {
    RowsKept(s, s', t);
    forall d | 0 <= d < s.n ensures CoreOk(s', d) {
      assert CoreOk(s, d);
      if d != c {
        CoreKept(s, s', d);
      } else {
        FreedServed(Column(s, c), s.todo[c], t);
        assert Column(s', c)[t] == Ending;
      }
    }
  }

  lemma CompleteKeeps(s: State, t: nat, c: nat)
    requires Inv(s) && Enabled(s, Complete(t, c))
    ensures Inv(Completed(s, t, c))
  {
    var s' := Completed(s, t, c);
    assert JobOk(s.jobs[t], s.n, s.max);
    DoneOk(s.jobs[t], s.n, s.max, c);
    RowsKept(s, s', t);
    forall d | 0 <= d < s.n ensures CoreOk(s', d) {
      assert CoreOk(s, d);
      if d != c {
        CoreKept(s, s', d);
      } else {
        CompletedServed(Column(s, c), s.todo[c], s.slot[c], t);
      }
    }
  }

  lemma GivenUpOk(j: Job, n: nat, max: nat)
    requires JobOk(j, n, max) && j.run == 0 && Failing(j.args)
    ensures JobOk(GivenUp(j), n, max)
    ensures forall c :: 0 <= c < n ==> j.row[c] == Out || j.row[c] == Gone || j.row[c] == Ready
  {
    CountZero(Unready, j.row);
    CountZero(Unready, GivenUp(j).row);
    CountZero(Unfinished, GivenUp(j).row);
    forall c | 0 <= c < n
      ensures CoreStateOk(GivenUp(j), n, max, c)
      ensures j.row[c] == Out || j.row[c] == Gone || j.row[c] == Ready
    {
      assert CoreStateOk(j, n, max, c);
    }
  }

  lemma AbortKeeps(s: State, t: nat)
    requires Inv(s) && Enabled(s, Abort(t))
    ensures Inv(Aborted(s, t))
  {
    var s' := Aborted(s, t);
    assert JobOk(s.jobs[t], s.n, s.max);
    GivenUpOk(s.jobs[t], s.n, s.max);
    RowsKept(s, s', t);
    forall c | 0 <= c < s.n ensures CoreOk(s', c) {
      AbortCore(s, s', t, c);
    }
  }

  lemma AbortCore(s: State, s': State, t: nat, c: nat)
    requires Inv(s) && Enabled(s, Abort(t)) && s' == Aborted(s, t) && Rows(s') && c < s.n
    requires Column(s', c) == Column(s, c)[t := s'.jobs[t].row[c]]
    requires s'.jobs[t].row[c] == (if s.jobs[t].row[c] == Out then Out else Gone)
    requires s.jobs[t].row[c] == Out || s.jobs[t].row[c] == Gone || s.jobs[t].row[c] == Ready
    ensures CoreOk(s', c)
  {
    assert CoreOk(s, c) && Column(s, c)[t] == s.jobs[t].row[c];
    if s.jobs[t].row[c] == Ready {
      GoneServed(Column(s, c), s.todo[c], t);
      assert Column(s', c)[t] == Gone;
    } else {
      CoreKept(s, s', c);
    }
  }

  /** A job waiting for the enqueue is exactly as it was allocated. */
  predicate Admitted(s: State) {
    forall i :: 0 <= i < |s.admitted| ==>
      && Wellformed(s.admitted[i].args, s.n)
      && s.admitted[i] == Fresh(s.admitted[i].args, s.admitted[i].domain, s.n)
  }

  /** Every step keeps the invariant. */
  lemma StepKeeps(s: State, e: Event)
    requires Inv(s) && Admitted(s) && Enabled(s, e)
    ensures Inv(After(s, e)) && Admitted(After(s, e))
  {
    AdmittedKept(s, e);
    match e
    case Enqueue(i) =>
      FreshOk(s.admitted[i].args, s.admitted[i].domain, s.n, s.max);
      EnqueueKeeps(s, i);
    case Call(c) => CallKeeps(s, c);
    case Decrement(t, c) => DecrementKeeps(s, t, c);
    case Start(t, c) => StartKeeps(s, t, c);
    case Interrupt(c, status) => InterruptKeeps(s, c, status);
    case Complete(t, c) => CompleteKeeps(s, t, c);
    case Abort(t) => AbortKeeps(s, t);
    case _ => Unmoved(s, After(s, e));
  }

  lemma AdmittedKept(s: State, e: Event)
    requires Admitted(s) && Enabled(s, e)
    ensures Admitted(After(s, e))
  {
  }

  lemma DecrementKeeps(s: State, t: nat, c: nat)
    requires Inv(s) && Enabled(s, Decrement(t, c))
    ensures Inv(After(s, Decrement(t, c)))
  {
    DecrementPositive(s, t, c);
    assert JobOk(s.jobs[t], s.n, s.max);
    CountedOk(s.jobs[t], s.n, s.max, c);
    QuietMove(s, After(s, Decrement(t, c)), t);
  }

  lemma StartKeeps(s: State, t: nat, c: nat)
    requires Inv(s) && Enabled(s, Start(t, c))
    ensures Inv(After(s, Start(t, c)))
  {
    assert JobOk(s.jobs[t], s.n, s.max);
    StartOk(s.jobs[t], s.n, s.max, c);
    QuietMove(s, After(s, Start(t, c)), t);
  }

  lemma Unmoved(s: State, s': State)
    requires Inv(s) && s'.n == s.n && s'.max == s.max && s'.jobs == s.jobs && s'.todo == s.todo && s'.slot == s.slot
    requires s.calls <= s'.calls
    ensures Inv(s')
  {
    forall c | 0 <= c < s.n ensures CoreOk(s', c) {
      assert CoreOk(s, c) && Column(s', c) == Column(s, c);
    }
  }

  lemma StartOk(j: Job, n: nat, max: nat, c: nat)
    requires JobOk(j, n, max) && c < n && j.row[c] == Starting
    ensures JobOk(Moved(j, c, Running), n, max)
  {
    assert CoreStateOk(j, n, max, c);
    SlicesBound(Part(j.args, n, c).1, max, 0);
    MovedOk(j, n, max, c, Running);
  }
}
