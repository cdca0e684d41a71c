/** What the scheduler promises over whole runs: commit moments, exactly-once slices, no deadlock. */
module SchedulerSafety {
  import opened Common
  import opened Scheduler
  import opened SchedulerSteps

  // Runs.

  function Idle(n: nat, max: nat, domain: nat): State {
    State(n, max, [], seq(n, _ => []), seq(n, _ => None), multiset{}, [], [], domain, 0)
  }

  predicate Run(states: seq<State>, events: seq<Event>) {
    && |states| == |events| + 1
    && states[0].max > 0 && states[0].n <= 3 && states[0] == Idle(states[0].n, states[0].max, states[0].domain)
    && forall k :: 0 <= k < |events| ==> Step(states[k], events[k], states[k + 1])
  }

  /** Whatever the order of threads and interrupts: every reachable state is in order. */
  lemma {:induction false} RunKeeps(states: seq<State>, events: seq<Event>, k: nat)
    requires Run(states, events) && k < |states|
    ensures Inv(states[k]) && Admitted(states[k])
  {
    if k == 0 {
    } else {
      RunKeeps(states, events, k - 1);
      assert Step(states[k - 1], events[k - 1], states[k]);
      StepKeeps(states[k - 1], events[k - 1]);
    }
  }

  // The moment of the commit.

  /** A job not committed yet is committed by this decrement exactly when every other core of its mask has been taken and
      counted; then it holds the slot of every core in its mask. */
  lemma CommitMoment(s: State, t: nat, c: nat)
    requires Inv(s) && Enabled(s, Decrement(t, c))
    ensures t < |s.jobs| && s.jobs[t].run > 0 && s.jobs[t].commits == 0
    ensures var j, j' := s.jobs[t], Counted(s.jobs[t], c);
      && (j'.commits == 1 <==> forall d :: 0 <= d < s.n && d != c ==> j.row[d] == Out || j.row[d] == Ready)
      && (j'.commits == 1 ==> forall d :: 0 <= d < s.n && CoreIn(j.args.mask, d) ==> s.slot[d] == Some(t))
      && (j'.commits == 0 ==> j'.row == j.row[c := Ready])
  {
    DecrementPositive(s, t, c);
    var j := s.jobs[t];
    assert JobOk(j, s.n, s.max);
    CountUpdate(Unready, j.row, c, Ready);
    CountZero(Unready, j.row[c := Ready]);
    forall d | 0 <= d < s.n
      ensures CoreStateOk(j, s.n, s.max, d)
      ensures Holding(j.row[d]) ==> s.slot[d] == Some(t)
      ensures !Unready(j.row[c := Ready][d]) ==> j.row[c := Ready][d] == Out || j.row[c := Ready][d] == Ready
    {
      assert CoreOk(s, d) && Column(s, d)[t] == j.row[d];
    }
  }

  /** No other step commits anything. */
  lemma OnlyDecrementCommits(s: State, e: Event, t: nat)
    requires Inv(s) && Enabled(s, e) && t < |s.jobs| && !(e.Decrement? && e.t == t)
    ensures t < |After(s, e).jobs| && After(s, e).jobs[t].commits == s.jobs[t].commits
  {
    if e.Call? {
      assert CoreOk(s, e.c);
    }
  }

  /** A job that has finished was committed exactly once. */
  lemma FinishedCommittedOnce(s: State, t: nat)
    requires Inv(s) && t < |s.jobs| && Finished(s.jobs[t])
    ensures s.jobs[t].commits == 1
  {
    var j := s.jobs[t];
    assert JobOk(j, s.n, s.max);
    CountZero(Unready, j.row);
  }

  /** Never a deadlock, over every run of jobs that can be served: once nothing moves any more, all queues are
      empty and every job has been committed exactly once and has finished. */
  lemma NeverDeadlocked(states: seq<State>, events: seq<Event>, k: nat)
    requires Run(states, events) && k < |states| && Quiet(states[k]) && AllServable(states[k])
    ensures Inv(states[k])
    ensures forall c :: 0 <= c < states[k].n ==> states[k].todo[c] == [] && states[k].slot[c] == None
    ensures forall t :: 0 <= t < |states[k].jobs| ==> Finished(states[k].jobs[t]) && states[k].jobs[t].commits == 1
  {
    var s := states[k];
    RunKeeps(states, events, k);
    forall c | 0 <= c < s.n ensures s.todo[c] == [] && s.slot[c] == None {
      QuietEmpty(s, c);
    }
    forall t | 0 <= t < |s.jobs| ensures Finished(s.jobs[t]) && s.jobs[t].commits == 1 {
      QuietFinished(s, t);
      FinishedCommittedOnce(s, t);
    }
  }

  // Jobs that pass the checks of `rknpu_submit` and never finish.

  /** Core `c` of a committed job is where nothing moves it any more: not started by the commit, or running a slice that
      no interrupt answers. */
  predicate StuckCore(j: Job, n: nat, max: nat, c: nat) {
    && c < n && c < |j.row| && c < |j.sent| && j.run == 0
    && (j.row[c] == Ready || (j.row[c] == Running && !Answered(SliceMask(j.args, n, max, c, j.sent[c]))))
  }

  /** The same on core `c`. */
  predicate StaysPut(j: Job, j': Job, c: nat) {
    && c < |j.row| == |j'.row| && c < |j.sent| == |j'.sent|
    && j'.row[c] == j.row[c] && j'.sent[c] == j.sent[c] && j'.run == 0 && j'.args == j.args
  }

  lemma StuckStays(s: State, e: Event, t: nat, c: nat)
    requires Inv(s) && Enabled(s, e) && t < |s.jobs| && StuckCore(s.jobs[t], s.n, s.max, c) && e != Abort(t)
    ensures t < |After(s, e).jobs| && StaysPut(s.jobs[t], After(s, e).jobs[t], c)
  {
    assert JobOk(s.jobs[t], s.n, s.max);
    match e {
      case Call(d) => CallStays(s, d, t, c);
      case Decrement(u, d) => DecrementPositive(s, u, d);
      case Interrupt(d, status) => InterruptStays(s, d, status, t, c);
      case _ =>
    }
  }

  lemma InterruptStays(s: State, d: nat, status: nat, t: nat, c: nat)
    requires Inv(s) && Enabled(s, Interrupt(d, status)) && t < |s.jobs| && StuckCore(s.jobs[t], s.n, s.max, c)
    ensures t < |Interrupted(s, d).jobs| && StaysPut(s.jobs[t], Interrupted(s, d).jobs[t], c)
  {
    FuzzTwice(status);
    assert JobOk(s.jobs[s.slot[d].value], s.n, s.max) && JobOk(s.jobs[t], s.n, s.max);
  }

  lemma CallStays(s: State, d: nat, t: nat, c: nat)
    requires Inv(s) && d < s.n && t < |s.jobs| && StuckCore(s.jobs[t], s.n, s.max, c)
    ensures t < |Calling(s, d).jobs| && StaysPut(s.jobs[t], Calling(s, d).jobs[t], c)
  {
    assert CoreOk(s, d) && (s.todo[d] != [] ==> Column(s, d)[s.todo[d][0]] == Waiting);
  }

  /** It keeps the slot of that core until its submitter gives it up. */
  lemma StuckKeepsSlot(s: State, e: Event, t: nat, c: nat)
    requires Inv(s) && Admitted(s) && Enabled(s, e) && t < |s.jobs| && StuckCore(s.jobs[t], s.n, s.max, c)
    requires e != Abort(t)
    ensures s.slot[c] == Some(t)
    ensures After(s, e).n == s.n && After(s, e).max == s.max && t < |After(s, e).jobs|
    ensures StuckCore(After(s, e).jobs[t], s.n, s.max, c)
    ensures c < |After(s, e).slot| && After(s, e).slot[c] == Some(t)
  {
    HeldSlot(s, t, c);
    StuckStays(s, e, t, c);
    StepKeeps(s, e);
    HeldSlot(After(s, e), t, c);
  }

  lemma HeldSlot(s: State, t: nat, c: nat)
    requires Inv(s) && c < s.n && t < |s.jobs| && c < |s.jobs[t].row| && Holding(s.jobs[t].row[c])
    ensures s.slot[c] == Some(t)
  {
    assert CoreOk(s, c) && Column(s, c)[t] == s.jobs[t].row[c];
  }

  /** Such are all the cores that the commit could not start: the two masks it has no case for, no PC mode, no task
      object. */
  lemma UnstartedStuck(j: Job, n: nat, max: nat, c: nat)
    requires JobOk(j, n, max) && c < n && j.run == 0 && CoreIn(j.args.mask, c) && !Starts(j.args, c)
    requires j.row[c] != Gone
    ensures StuckCore(j, n, max, c)
  {
    CountZero(Unready, j.row);
    assert CoreStateOk(j, n, max, c);
  }

  /** Which is the exact condition: once nothing moves any more, all jobs have finished if and only if all of them could
      be started on every core and answered for every slice (Scheduler.ServableExactly). */
  lemma DeadlockFreeExactly(states: seq<State>, events: seq<Event>, k: nat)
    requires Run(states, events) && k < |states| && Quiet(states[k])
    ensures AllServable(states[k]) <==> forall t :: 0 <= t < |states[k].jobs| ==> Finished(states[k].jobs[t])
  {
    var s := states[k];
    RunKeeps(states, events, k);
    if AllServable(s) {
      NeverDeadlocked(states, events, k);
    } else {
      var t :| 0 <= t < |s.jobs| && !Servable(s.jobs[t].args, s.n, s.max);
      assert JobOk(s.jobs[t], s.n, s.max);
      if Finished(s.jobs[t]) {
        FinishedServable(s.jobs[t], s.n, s.max);
      }
    }
  }

  // Every task exactly once.

  /** What a step writes to core `c` for job `t`: the first slice on its start, the next one after each interrupt. */
  function Issue(s: State, e: Event, t: nat, c: nat): seq<(int, int)> {
    if !Present(s, t, c) then []
    else
      var part, next := Part(s.jobs[t].args, s.n, c), s.jobs[t].sent[c] + 1;
      if e == Start(t, c) then [Slice(part, s.max, 0)]
      else if Interrupts(s, e, t, c) && next < Slices(part.1, s.max) then [Slice(part, s.max, next)]
      else []
  }

  predicate Interrupts(s: State, e: Event, t: nat, c: nat) {
    e.Interrupt? && e.c == c && c < |s.slot| && s.slot[c] == Some(t)
  }

  predicate Present(s: State, t: nat, c: nat) {
    && t < |s.jobs| && c < s.n && c < |s.jobs[t].row| == |s.jobs[t].sent|
    && Located(s.jobs[t].args, s.max, c)
  }

  function History(states: seq<State>, events: seq<Event>, k: nat, t: nat, c: nat): seq<(int, int)>
    requires k <= |events| && k <= |states|
  {
    if k == 0 then [] else History(states, events, k - 1, t, c) + Issue(states[k - 1], events[k - 1], t, c)
  }

  function FirstSlices(part: (nat, nat), max: nat, k: nat): seq<(int, int)> {
    seq(k, i requires 0 <= i < k => Slice(part, max, i))
  }

  function Begun(j: Job, c: nat): nat
    requires c < |j.row| == |j.sent|
  {
    j.sent[c] + if j.row[c] == Running then 1 else 0
  }

  function Expected(s: State, t: nat, c: nat): seq<(int, int)> {
    if Present(s, t, c) then FirstSlices(Part(s.jobs[t].args, s.n, c), s.max, Begun(s.jobs[t], c)) else []
  }

  /** The same request, as far along on core `c`. */
  predicate Unchanged(j: Job, j': Job, n: nat, c: nat) {
    && j'.args == j.args && c < n == |j.row| == |j.sent| == |j'.row| == |j'.sent|
    && Begun(j', c) == Begun(j, c)
  }

  lemma CountedUnchanged(j: Job, n: nat, max: nat, d: nat, c: nat)
    requires JobOk(j, n, max) && d < n && c < n && j.row[d] == Taken && j.run > 0
    ensures Unchanged(j, Counted(j, d), n, c)
  {
  }

  lemma InterruptedUnchanged(j: Job, n: nat, max: nat, d: nat, c: nat)
    requires JobOk(j, n, max) && d < n && c < n && j.row[d] == Running && c != d
    ensures Unchanged(j, InterruptedBy(j, n, max, d), n, c)
  {
  }

  lemma MovedUnchanged(j: Job, n: nat, max: nat, d: nat, p: Phase, c: nat)
    requires JobOk(j, n, max) && d < n && c < n && j.row[d] != Running && (p == Running ==> c != d)
    ensures Unchanged(j, Moved(j, d, p), n, c)
  {
  }

  lemma GivenUpUnchanged(j: Job, n: nat, max: nat, c: nat)
    requires JobOk(j, n, max) && j.run == 0 && Failing(j.args) && c < n
    ensures Unchanged(j, GivenUp(j), n, c)
  {
    GivenUpOk(j, n, max);
  }

  lemma OtherCall(s: State, d: nat, t: nat, c: nat)
    requires Inv(s) && d < s.n && t < |s.jobs| && c < s.n
    ensures t < |Calling(s, d).jobs| && Unchanged(s.jobs[t], Calling(s, d).jobs[t], s.n, c)
  {
    assert JobOk(s.jobs[t], s.n, s.max) && CoreOk(s, d);
    if s.slot[d] == None && s.todo[d] != [] && s.todo[d][0] == t {
      assert Column(s, d)[t] == Waiting;
      MovedUnchanged(s.jobs[t], s.n, s.max, d, Taken, c);
    }
  }

  lemma OtherInterrupt(s: State, e: Event, d: nat, t: nat, c: nat)
    requires Inv(s) && Enabled(s, e) && e.Interrupt? && e.c == d && t < |s.jobs| && c < s.n
    requires !Interrupts(s, e, t, c)
    ensures t < |Interrupted(s, d).jobs| && Unchanged(s.jobs[t], Interrupted(s, d).jobs[t], s.n, c)
  {
    assert JobOk(s.jobs[t], s.n, s.max);
    if s.slot[d] == Some(t) {
      InterruptedUnchanged(s.jobs[t], s.n, s.max, d, c);
    }
  }

  lemma OtherJobs(s: State, e: Event, t: nat, c: nat)
    requires Inv(s) && Admitted(s) && Enabled(s, e) && t < |s.jobs| && c < s.n
    requires e != Start(t, c) && !Interrupts(s, e, t, c)
    ensures t < |After(s, e).jobs| && After(s, e).n == s.n && After(s, e).max == s.max
    ensures Unchanged(s.jobs[t], After(s, e).jobs[t], s.n, c)
  {
    var j := s.jobs[t];
    assert JobOk(j, s.n, s.max);
    if After(s, e).jobs[..] == s.jobs[..] {
      return;
    }
    match e {
      case Call(d) => OtherCall(s, d, t, c);
      case Decrement(u, d) =>
        DecrementPositive(s, u, d);
        if u == t { CountedUnchanged(j, s.n, s.max, d, c); }
      case Start(u, d) => if u == t { MovedUnchanged(j, s.n, s.max, d, Running, c); }
      case Interrupt(d, _) => OtherInterrupt(s, e, d, t, c);
      case Complete(u, d) => if u == t { MovedUnchanged(j, s.n, s.max, d, Done, c); }
      case Abort(u) => if u == t { GivenUpUnchanged(j, s.n, s.max, c); }
      case _ =>
    }
  }

  lemma IssueStep(s: State, e: Event, t: nat, c: nat)
    requires Inv(s) && Admitted(s) && Enabled(s, e) && Inv(After(s, e))
    ensures Expected(After(s, e), t, c) == Expected(s, t, c) + Issue(s, e, t, c)
  {
    if t < |s.jobs| && c < s.n {
      if e == Start(t, c) || Interrupts(s, e, t, c) {
        OwnStep(s, e, t, c);
      } else {
        OtherJobs(s, e, t, c);
      }
    } else if e.Enqueue? {
      NewJob(s, e.i, t, c);
    } else {
      SameTickets(s, e);
    }
  }

  lemma SameTickets(s: State, e: Event)
    requires Inv(s) && Enabled(s, e) && !e.Enqueue?
    ensures |After(s, e).jobs| == |s.jobs| && After(s, e).n == s.n
  {
    if e.Call? {
      assert CoreOk(s, e.c);
    }
  }

  lemma NewJob(s: State, i: nat, t: nat, c: nat)
    requires Inv(s) && Admitted(s) && i < |s.admitted| && Inv(Queueing(s, i)) && (t >= |s.jobs| || c >= s.n)
    ensures Expected(Queueing(s, i), t, c) == []
  {
    assert s.admitted[i] == Fresh(s.admitted[i].args, s.admitted[i].domain, s.n);
    if t == |s.jobs| && c < s.n {
      assert JobOk(Queueing(s, i).jobs[t], s.n, s.max);
      assert Begun(s.admitted[i], c) == 0;
    }
  }

  lemma OwnStep(s: State, e: Event, t: nat, c: nat)
    requires Inv(s) && Enabled(s, e) && Inv(After(s, e)) && t < |s.jobs| && c < s.n
    requires e == Start(t, c) || Interrupts(s, e, t, c)
    ensures Expected(After(s, e), t, c) == Expected(s, t, c) + Issue(s, e, t, c)
  {
    if e == Start(t, c) {
      OwnStart(s, t, c);
    } else {
      OwnInterrupt(s, e.status, t, c);
    }
  }

  lemma OwnStart(s: State, t: nat, c: nat)
    requires Inv(s) && Enabled(s, Start(t, c)) && t < |s.jobs| && c < s.n
    ensures Expected(After(s, Start(t, c)), t, c) == Expected(s, t, c) + Issue(s, Start(t, c), t, c)
  {
    assert JobOk(s.jobs[t], s.n, s.max);
    StartBegins(s.jobs[t], s.n, s.max, c);
  }

  lemma OwnInterrupt(s: State, status: nat, t: nat, c: nat)
    requires Inv(s) && Enabled(s, Interrupt(c, status)) && t < |s.jobs| && c < s.n && s.slot[c] == Some(t)
    ensures Expected(Interrupted(s, c), t, c) == Expected(s, t, c) + Issue(s, Interrupt(c, status), t, c)
  {
    var s' := AfterInterrupt(s, t, c);
    InterruptGoesOn(s.jobs[t], s.n, s.max, c);
  }

  lemma AfterInterrupt(s: State, t: nat, c: nat) returns (s': State)
    requires Inv(s) && t < |s.jobs| && c < s.n && s.slot[c] == Some(t)
    ensures s' == Interrupted(s, c) && s'.n == s.n && s'.max == s.max && |s'.jobs| == |s.jobs|
    ensures s'.jobs[t] == InterruptedBy(s.jobs[t], s.n, s.max, c) && s'.jobs[t].args == s.jobs[t].args
    ensures |s'.jobs[t].row| == |s.jobs[t].row| == |s'.jobs[t].sent| == |s.jobs[t].sent| == s.n
    ensures JobOk(s.jobs[t], s.n, s.max)
  {
    s' := Interrupted(s, c);
    assert JobOk(s.jobs[t], s.n, s.max);
  }

  lemma StartBegins(j: Job, n: nat, max: nat, c: nat)
    requires JobOk(j, n, max) && c < n && j.row[c] == Starting
    ensures var part := Part(j.args, n, c);
      FirstSlices(part, max, Begun(Moved(j, c, Running), c)) == FirstSlices(part, max, Begun(j, c)) + [Slice(part, max, 0)]
  {
    assert CoreStateOk(j, n, max, c);
    OneMore(Part(j.args, n, c), max, 0);
  }

  /** After the interrupt the next slice has begun, or none. */
  lemma BegunNext(j: Job, n: nat, max: nat, c: nat) returns (k: nat, slices: nat)
    requires JobOk(j, n, max) && c < n && j.row[c] == Running
    ensures k == j.sent[c] + 1 == Begun(j, c) && slices == Slices(Part(j.args, n, c).1, max)
    ensures Begun(InterruptedBy(j, n, max, c), c) == if k < slices then k + 1 else k
  {
    k, slices := j.sent[c] + 1, Slices(Part(j.args, n, c).1, max);
  }

  lemma InterruptGoesOn(j: Job, n: nat, max: nat, c: nat)
    requires JobOk(j, n, max) && c < n && j.row[c] == Running
    ensures var part, k := Part(j.args, n, c), j.sent[c] + 1;
      FirstSlices(part, max, Begun(InterruptedBy(j, n, max, c), c)) == FirstSlices(part, max, Begun(j, c)) +
        if k < Slices(part.1, max) then [Slice(part, max, k)] else []
  {
    var k, slices := BegunNext(j, n, max, c);
    OneMore(Part(j.args, n, c), max, k);
  }

  lemma OneMore(part: (nat, nat), max: nat, k: nat)
    ensures FirstSlices(part, max, k + 1) == FirstSlices(part, max, k) + [Slice(part, max, k)]
  {
  }

  /** Over any run, what core `c` has been given for job `t` is exactly the first slices of its part, in order and each
      once. For a finished job these are all of them (AllTasksOnce), and they tile its tasks (SlicesTile). */
  lemma {:induction false} EachTaskOnce(states: seq<State>, events: seq<Event>, k: nat, t: nat, c: nat)
    requires Run(states, events) && k < |states|
    ensures Inv(states[k]) && Admitted(states[k])
    ensures History(states, events, k, t, c) == Expected(states[k], t, c)
  {
    RunKeeps(states, events, k);
    if k == 0 {
      NothingExpected(states[0], t, c);
    } else {
      var s, e, s' := states[k - 1], events[k - 1], states[k];
      assert Step(s, e, s');
      EachTaskOnce(states, events, k - 1, t, c);
      EachStep(s, e, s', t, c);
      Chained(History(states, events, k - 1, t, c), Expected(s, t, c), Issue(s, e, t, c), Expected(s', t, c));
    }
  }

  lemma Chained(h: seq<(int, int)>, x: seq<(int, int)>, i: seq<(int, int)>, x': seq<(int, int)>)
    requires h == x && x' == x + i
    ensures h + i == x'
  {
  }

  lemma NothingExpected(s: State, t: nat, c: nat)
    requires s.jobs == []
    ensures Expected(s, t, c) == []
  {
  }

  lemma EachStep(s: State, e: Event, s': State, t: nat, c: nat)
    requires Inv(s) && Admitted(s) && Step(s, e, s') && Inv(s')
    ensures Expected(s', t, c) == Expected(s, t, c) + Issue(s, e, t, c)
  {
    IssueStep(s, e, t, c);
  }

  lemma AllTasksOnce(s: State, t: nat, c: nat)
    requires Inv(s) && t < |s.jobs| && c < s.n && CoreIn(s.jobs[t].args.mask, c) && Finished(s.jobs[t])
    ensures |s.jobs[t].args.subcore| == 5
    ensures var part := Part(s.jobs[t].args, s.n, c);
      Expected(s, t, c) == FirstSlices(part, s.max, Slices(part.1, s.max))
  {
    assert JobOk(s.jobs[t], s.n, s.max) && CoreStateOk(s.jobs[t], s.n, s.max, c);
  }
}
