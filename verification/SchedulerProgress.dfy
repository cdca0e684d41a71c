/** The scheduler always comes to rest: its own steps are bounded, and it is only at rest when none of them is left. */
module SchedulerProgress {
  import opened Common
  import opened Scheduler
  import opened SchedulerSteps
  import opened SchedulerSafety

  /** The steps the driver and the hardware take by themselves; the others are what submitters do, and interrupts that
      the driver did not ask for. */
  predicate Own(e: Event) {
    e.Enqueue? || e.Call? || e.Decrement? || e.Start? || e.Interrupt? || e.Complete?
  }

  /** At rest means exactly that none of these steps is left. */
  lemma QuietExactly(s: State)
    requires Inv(s)
    ensures Quiet(s) && s.admitted == [] <==> forall e :: Own(e) ==> !Enabled(s, e)
  {
    if !(Quiet(s) && s.admitted == []) {
      var e := NextStep(s);
    } else {
      forall e | Own(e) ensures !Enabled(s, e) {
        NoStep(s, e);
      }
    }
  }

  lemma NoStep(s: State, e: Event)
    requires Inv(s) && Quiet(s) && s.admitted == [] && Own(e)
    ensures !Enabled(s, e)
  {
    match e
    case Decrement(t, c) => NotMoving(s, t, c);
    case Start(t, c) => NotMoving(s, t, c);
    case Interrupt(c, status) =>
      FuzzTwice(status);
      if c < |s.slot| && s.slot[c].Some? { NotMoving(s, s.slot[c].value, c); }
    case Complete(t, c) => NotMoving(s, t, c);
    case _ =>
  }

  lemma NotMoving(s: State, t: nat, c: nat)
    requires Quiet(s)
    ensures t < |s.jobs| && c < |s.jobs[t].row| ==> !Moving(s.jobs[t], s.n, s.max, c)
  {
    assert t < |s.jobs| ==> Still(s.jobs[t], s.n, s.max);
  }

  lemma NextStep(s: State) returns (e: Event)
    requires Inv(s) && !(Quiet(s) && s.admitted == [])
    ensures Own(e) && Enabled(s, e)
  {
    if s.admitted != [] {
      return Enqueue(0);
    }
    if !forall c :: 0 <= c < s.n ==> c !in s.calls {
      var c: nat :| c < s.n && c in s.calls;
      return Call(c);
    }
    var t: nat :| t < |s.jobs| && !Still(s.jobs[t], s.n, s.max);
    var c: nat :| c < |s.jobs[t].row| && Moving(s.jobs[t], s.n, s.max, c);
    e := MoveOf(s, t, c);
  }

  lemma MoveOf(s: State, t: nat, c: nat) returns (e: Event)
    requires Inv(s) && t < |s.jobs| && c < |s.jobs[t].row| && Moving(s.jobs[t], s.n, s.max, c)
    ensures Own(e) && Enabled(s, e)
  {
    assert JobOk(s.jobs[t], s.n, s.max);
    assert CoreOk(s, c) && Column(s, c)[t] == s.jobs[t].row[c];
    match s.jobs[t].row[c]
    case Taken => return Decrement(t, c);
    case Starting => return Start(t, c);
    case Running => return Interrupt(c, SliceMask(s.jobs[t].args, s.n, s.max, c, s.jobs[t].sent[c]));
    case _ => return Complete(t, c);
  }

  // A measure that each of them lowers.

  /** How many steps core `c` of a job may still need, the call at its end included. */
  function Left(p: Phase, sent: nat, slices: nat): nat {
    match p
    case Out => 0
    case Waiting => slices + 6
    case Taken => slices + 5
    case Ready => slices + 4
    case Starting => slices + 3
    case Running => if sent < slices then slices - sent + 2 else 2
    case Ending => 2
    case Done => 0
    case Gone => 0
  }

  function SlicesOf(j: Job, n: nat, max: nat, c: nat): nat {
    if Located(j.args, max, c) then Slices(Part(j.args, n, c).1, max) else 0
  }

  function CoreLeft(j: Job, n: nat, max: nat, c: nat): nat {
    if c < |j.row| && c < |j.sent| then Left(j.row[c], j.sent[c], SlicesOf(j, n, max, c)) else 0
  }

  function JobLeft(j: Job, n: nat, max: nat): nat {
    CoreLeft(j, n, max, 0) + CoreLeft(j, n, max, 1) + CoreLeft(j, n, max, 2)
  }

  function JobsLeft(jobs: seq<Job>, n: nat, max: nat): nat {
    if jobs == [] then 0 else JobsLeft(jobs[..|jobs| - 1], n, max) + JobLeft(jobs[|jobs| - 1], n, max)
  }

  /** An admitted job still has to be queued, and asks for a call on each of its cores then. */
  function Measure(s: State): nat {
    |s.calls| + JobsLeft(s.jobs, s.n, s.max) + JobsLeft(s.admitted, s.n, s.max) + 4 * |s.admitted|
  }

  lemma {:induction false} LeftUpdate(jobs: seq<Job>, n: nat, max: nat, t: nat, j: Job)
    requires t < |jobs|
    ensures JobsLeft(jobs[t := j], n, max) == JobsLeft(jobs, n, max) + JobLeft(j, n, max) - JobLeft(jobs[t], n, max)
  {
    if t < |jobs| - 1 {
      assert jobs[t := j][..|jobs| - 1] == jobs[..|jobs| - 1][t := j];
      LeftUpdate(jobs[..|jobs| - 1], n, max, t, j);
    } else {
      assert jobs[t := j][..|jobs| - 1] == jobs[..|jobs| - 1];
    }
  }

  lemma {:induction false} LeftWithout(jobs: seq<Job>, n: nat, max: nat, i: nat)
    requires i < |jobs|
    ensures JobsLeft(Without(jobs, i), n, max) == JobsLeft(jobs, n, max) - JobLeft(jobs[i], n, max)
  {
    var rest := Without(jobs, i);
    if i < |jobs| - 1 {
      assert rest[..|rest| - 1] == Without(jobs[..|jobs| - 1], i);
      LeftWithout(jobs[..|jobs| - 1], n, max, i);
    } else {
      assert rest == jobs[..|jobs| - 1];
    }
  }

  lemma MovedLeft(j: Job, n: nat, max: nat, c: nat, p: Phase)
    requires JobOk(j, n, max) && c < n
    requires Left(p, j.sent[c], SlicesOf(j, n, max, c)) < CoreLeft(j, n, max, c)
    ensures JobLeft(Moved(j, c, p), n, max) ==
      JobLeft(j, n, max) - CoreLeft(j, n, max, c) + Left(p, j.sent[c], SlicesOf(j, n, max, c))
  {
  }

  lemma CommittedLeft(j: Job, n: nat, max: nat)
    ensures JobLeft(j.(row := Committed(j.args, j.row)), n, max) <= JobLeft(j, n, max)
  {
    forall c | 0 <= c < 3
      ensures CoreLeft(j.(row := Committed(j.args, j.row)), n, max, c) <= CoreLeft(j, n, max, c)
    {
    }
  }

  lemma CountedLeft(j: Job, n: nat, max: nat, c: nat)
    requires JobOk(j, n, max) && c < n && j.row[c] == Taken
    ensures JobLeft(Counted(j, c), n, max) < JobLeft(j, n, max)
  {
    MovedLeft(j, n, max, c, Ready);
    var next := Moved(j, c, Ready);
    CommittedLeft(next, n, max);
    SameLeft(next.(row := Counted(j, c).row), Counted(j, c), n, max);
    SameLeft(next, next.(row := next.row), n, max);
  }

  /** The counters do not matter. */
  lemma SameLeft(j: Job, j': Job, n: nat, max: nat)
    requires j.args == j'.args && j.row == j'.row && j.sent == j'.sent
    ensures JobLeft(j, n, max) == JobLeft(j', n, max)
  {
  }

  lemma InterruptedLeft(j: Job, n: nat, max: nat, c: nat)
    requires JobOk(j, n, max) && c < n && j.row[c] == Running
    ensures JobLeft(InterruptedBy(j, n, max, c), n, max) < JobLeft(j, n, max)
  {
    assert CoreStateOk(j, n, max, c);
  }

  lemma CallsSize(args: Arguments, n: nat)
    ensures |Calls(args, n)| <= n
  {
  }

  lemma EnqueueLowers(s: State, i: nat)
    requires i < |s.admitted| && s.n <= 3
    ensures Measure(Queueing(s, i)) < Measure(s)
  {
    var s' := Queueing(s, i);
    CallsSize(s.admitted[i].args, s.n);
    LeftWithout(s.admitted, s.n, s.max, i);
    assert s'.jobs[..|s'.jobs| - 1] == s.jobs;
  }

  lemma CallLowers(s: State, c: nat)
    requires Inv(s) && c < s.n && c in s.calls
    ensures Measure(Calling(s, c)) < Measure(s)
  {
    assert CoreOk(s, c);
    if s.slot[c] == None && s.todo[c] != [] {
      var t := s.todo[c][0];
      var j := s.jobs[t];
      assert JobOk(j, s.n, s.max) && Column(s, c)[t] == Waiting;
      MovedLeft(j, s.n, s.max, c, Taken);
      LeftUpdate(s.jobs, s.n, s.max, t, Moved(j, c, Taken));
    }
  }

  lemma CompleteLowers(s: State, t: nat, c: nat)
    requires Inv(s) && At(s, t, c, Ending)
    ensures Measure(Completed(s, t, c)) < Measure(s)
  {
    var j, j' := s.jobs[t], Completed(s, t, c).jobs[t];
    assert JobOk(j, s.n, s.max);
    MovedLeft(j, s.n, s.max, c, Done);
    SameLeft(Moved(j, c, Done), j', s.n, s.max);
    LeftUpdate(s.jobs, s.n, s.max, t, j');
  }

  lemma InterruptLowers(s: State, c: nat, status: nat)
    requires Inv(s) && Enabled(s, Interrupt(c, status))
    ensures Measure(Interrupted(s, c)) < Measure(s)
  {
    var t := s.slot[c].value;
    assert JobOk(s.jobs[t], s.n, s.max);
    InterruptedLeft(s.jobs[t], s.n, s.max, c);
    LeftUpdate(s.jobs, s.n, s.max, t, InterruptedBy(s.jobs[t], s.n, s.max, c));
  }

  /** Every step of the driver or the hardware lowers the measure. */
  lemma OwnStepLowers(s: State, e: Event)
    requires Inv(s) && Enabled(s, e) && Own(e)
    ensures Measure(After(s, e)) < Measure(s)
  {
    match e {
      case Enqueue(i) => EnqueueLowers(s, i);
      case Call(c) => CallLowers(s, c);
      case Decrement(t, c) =>
        assert JobOk(s.jobs[t], s.n, s.max);
        CountedLeft(s.jobs[t], s.n, s.max, c);
        LeftUpdate(s.jobs, s.n, s.max, t, Counted(s.jobs[t], c));
      case Start(t, c) =>
        assert JobOk(s.jobs[t], s.n, s.max) && CoreStateOk(s.jobs[t], s.n, s.max, c);
        MovedLeft(s.jobs[t], s.n, s.max, c, Running);
        LeftUpdate(s.jobs, s.n, s.max, t, Moved(s.jobs[t], c, Running));
      case Interrupt(c, status) => InterruptLowers(s, c, status);
      case Complete(t, c) => CompleteLowers(s, t, c);
    }
  }

  lemma Lowered(s: State, e: Event, s': State)
    requires Inv(s) && Step(s, e, s') && Own(e)
    ensures Measure(s') < Measure(s)
  {
    OwnStepLowers(s, e);
  }

  /** After the last request of a run the driver and the hardware take only finitely many more steps. */
  lemma {:induction false} OwnStepsBounded(states: seq<State>, events: seq<Event>, j: nat, k: nat)
    requires Run(states, events) && j <= k < |states|
    requires forall i :: j <= i < k ==> Own(events[i])
    ensures k - j + Measure(states[k]) <= Measure(states[j])
    decreases k
  {
    if j < k {
      OwnStepsBounded(states, events, j, k - 1);
      RunKeeps(states, events, k - 1);
      Lowered(states[k - 1], events[k - 1], states[k]);
    }
  }

  /** Every job finishes: a run that can go no further by itself, which it reaches within the bound of OwnStepsBounded, has
      finished all its jobs if and only if all of them could be served. */
  lemma AllFinishExactly(states: seq<State>, events: seq<Event>)
    requires Run(states, events)
    requires forall e :: Own(e) ==> !Enabled(states[|events|], e)
    ensures states[|events|].admitted == []
    ensures AllServable(states[|events|]) <==>
      forall t :: 0 <= t < |states[|events|].jobs| ==> Finished(states[|events|].jobs[t])
  {
    RunKeeps(states, events, |events|);
    QuietExactly(states[|events|]);
    DeadlockFreeExactly(states, events, |events|);
  }

  // What blocks a core blocks it for ever.

  predicate Blocked(s: State, t: nat, u: nat, c: nat) {
    && c < |s.slot| && s.slot[c] == Some(t) && t < |s.jobs| && StuckCore(s.jobs[t], s.n, s.max, c)
    && At(s, u, c, Waiting)
  }

  lemma BlockedStays(s: State, e: Event, s': State, t: nat, u: nat, c: nat)
    requires Inv(s) && Admitted(s) && Step(s, e, s') && Blocked(s, t, u, c) && e != Abort(t)
    ensures Blocked(s', t, u, c)
  {
    StuckKeepsSlot(s, e, t, c);
    WaitingStays(s, e, u, c);
  }

  lemma CallStaysWaiting(s: State, d: nat, u: nat, c: nat)
    requires Inv(s) && d < s.n && At(s, u, c, Waiting) && s.slot[c].Some?
    ensures At(Calling(s, d), u, c, Waiting)
  {
    assert CoreOk(s, d);
    if s.slot[d] == None && s.todo[d] != [] {
      assert JobOk(s.jobs[s.todo[d][0]], s.n, s.max);
    }
  }

  lemma InterruptStaysWaiting(s: State, d: nat, status: nat, u: nat, c: nat)
    requires Inv(s) && Enabled(s, Interrupt(d, status)) && At(s, u, c, Waiting)
    ensures At(Interrupted(s, d), u, c, Waiting)
  {
    assert JobOk(s.jobs[s.slot[d].value], s.n, s.max);
  }

  lemma WaitingRuns(j: Job, n: nat, max: nat, c: nat)
    requires JobOk(j, n, max) && c < n && j.row[c] == Waiting
    ensures j.run > 0
  {
    CountZero(Unready, j.row);
    assert Unready(j.row[c]);
  }

  lemma WaitingStays(s: State, e: Event, u: nat, c: nat)
    requires Inv(s) && Enabled(s, e) && At(s, u, c, Waiting) && s.slot[c].Some?
    ensures At(After(s, e), u, c, Waiting)
  {
    assert JobOk(s.jobs[u], s.n, s.max);
    match e {
      case Call(d) => CallStaysWaiting(s, d, u, c);
      case Abort(t) => WaitingRuns(s.jobs[u], s.n, s.max, c);
      case Interrupt(d, status) => InterruptStaysWaiting(s, d, status, u, c);
      case _ =>
    }
  }

  lemma BlockedNext(states: seq<State>, events: seq<Event>, k: nat, t: nat, u: nat, c: nat)
    requires Run(states, events) && k < |events| && Blocked(states[k], t, u, c) && events[k] != Abort(t)
    ensures Blocked(states[k + 1], t, u, c)
  {
    RunKeeps(states, events, k);
    BlockedStays(states[k], events[k], states[k + 1], t, u, c);
  }

  /** A job that waits behind a job stuck on its core waits in every later state, whatever it asks for itself, unless the
      stuck job is given up by its submitter. */
  lemma {:induction false} BlockedForEver(states: seq<State>, events: seq<Event>, j: nat, k: nat, t: nat, u: nat, c: nat)
    requires Run(states, events) && j <= k < |states| && Blocked(states[j], t, u, c)
    requires forall i :: j <= i < k ==> events[i] != Abort(t)
    ensures Blocked(states[k], t, u, c)
    decreases k
  {
    if j < k {
      BlockedForEver(states, events, j, k - 1, t, u, c);
      BlockedNext(states, events, k - 1, t, u, c);
    }
  }
}
