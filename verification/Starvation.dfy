/** Runs in which a request that passes the checks blocks a later one that could be served. */
module Starvation {
  import opened Common
  import opened Scheduler
  import opened SchedulerSteps
  import opened SchedulerSafety
  import opened SchedulerProgress

  const TASKS := [(0, 1), (0, 1), (0, 1), (0, 1), (0, 1)]
  const PAIR := Arguments(5, 0, 1, TASKS, true, Some([0x300]))
  const SINGLE := Arguments(1, 0, 1, TASKS, true, Some([0x300]))

  /** A job for cores 0 and 2 of three. */
  function PairJob(p: Phase, q: Phase, run: nat): Job {
    Job(PAIR, 0, run, 2, if run == 0 then 1 else 0, [p, Out, q], [0, 0, 0])
  }

  /** A job for core 0. */
  function SingleJob(): Job {
    Job(SINGLE, 0, 1, 1, 0, [Waiting, Out, Out], [0, 0, 0])
  }

  function Three(jobs: seq<Job>, todo: seq<seq<nat>>, slot: seq<Option<nat>>, calls: multiset<nat>, admitted: seq<Job>,
                 refs: nat): State {
    State(3, 1, jobs, todo, slot, calls, admitted, [], 0, refs)
  }

  /** Both cores are taken, the commit finds no case for the mask, and the later job waits behind a slot that is never
      freed. */
  function Moment(k: nat): State
    requires k < 10
  {
    var none, both := [None, None, None], [Some(0), None, Some(0)];
    match k
    case 0 => Three([], [[], [], []], none, multiset{}, [], 0)
    case 1 => Three([], [[], [], []], none, multiset{}, [PairJob(Waiting, Waiting, 2)], 1)
    case 2 => Three([PairJob(Waiting, Waiting, 2)], [[0], [], [0]], none, multiset{0, 2}, [], 1)
    case 3 => Three([PairJob(Taken, Waiting, 2)], [[], [], [0]], [Some(0), None, None], multiset{2}, [], 1)
    case 4 => Three([PairJob(Taken, Taken, 2)], [[], [], []], both, multiset{}, [], 1)
    case 5 => Three([PairJob(Ready, Taken, 1)], [[], [], []], both, multiset{}, [], 1)
    case 6 => Three([PairJob(Ready, Ready, 0)], [[], [], []], both, multiset{}, [], 1)
    case 7 => Three([PairJob(Ready, Ready, 0)], [[], [], []], both, multiset{}, [SingleJob()], 2)
    case 8 => Three([PairJob(Ready, Ready, 0), SingleJob()], [[1], [], []], both, multiset{0}, [], 2)
    case _ => Three([PairJob(Ready, Ready, 0), SingleJob()], [[1], [], []], both, multiset{}, [], 2)
  }

  const HISTORY := [Admit(PAIR, 0), Enqueue(0), Call(0), Call(2), Decrement(0, 0), Decrement(0, 2), Admit(SINGLE, 0),
    Enqueue(0), Call(0)]

  lemma CountThree(f: Phase -> bool, p: Phase, q: Phase, r: Phase)
    ensures Count(f, [p, q, r]) == (if f(p) then 1 else 0) + (if f(q) then 1 else 0) + (if f(r) then 1 else 0)
  {
    assert [p, q, r][..2] == [p, q] && [p, q][..1] == [p] && [p][..0] == [];
    assert Count(f, [p]) == if f(p) then 1 else 0;
    assert Count(f, [p, q]) == Count(f, [p]) + if f(q) then 1 else 0;
  }

  lemma PairFresh()
    ensures Wellformed(PAIR, 3) && Fresh(PAIR, 0, 3) == PairJob(Waiting, Waiting, 2)
  {
    assert CoreIn(5, 0) && Queued(PAIR, 3) == [Waiting, Out, Waiting];
    CountThree(Unready, Waiting, Out, Waiting);
    CountThree(Unfinished, Waiting, Out, Waiting);
  }

  lemma SingleFresh()
    ensures Wellformed(SINGLE, 3) && Fresh(SINGLE, 0, 3) == SingleJob()
  {
    assert CoreIn(1, 0) && Queued(SINGLE, 3) == [Waiting, Out, Out];
    CountThree(Unready, Waiting, Out, Out);
    CountThree(Unfinished, Waiting, Out, Out);
  }

  lemma CallsOf(args: Arguments)
    ensures args.mask == 1 ==> Calls(args, 3) == multiset{0}
    ensures args.mask == 5 ==> Calls(args, 3) == multiset{0, 2}
  {
    if args.mask == 1 || args.mask == 5 {
      assert CoreIn(args.mask, 0) && !CoreIn(args.mask, 1);
      assert Calls(args, 1) == Calls(args, 0) + multiset{0};
      assert Calls(args, 2) == Calls(args, 1);
    }
  }

  lemma Admissions()
    ensures Step(Moment(0), Admit(PAIR, 0), Moment(1)) && Step(Moment(6), Admit(SINGLE, 0), Moment(7))
  {
    PairFresh();
    SingleFresh();
  }

  lemma EnqueuePair()
    ensures Step(Moment(1), Enqueue(0), Moment(2))
  {
    CallsOf(PAIR);
    var q := Appended(Moment(1).todo, PAIR, 0);
    assert q[0] == [0] && q[1] == [] && q[2] == [0];
    assert Moment(1).calls + multiset{0, 2} == multiset{0, 2};
  }

  lemma EnqueueSingle()
    ensures Step(Moment(7), Enqueue(0), Moment(8))
  {
    CallsOf(SINGLE);
    var q := Appended(Moment(7).todo, SINGLE, 1);
    assert q[0] == [1] && q[1] == [] && q[2] == [];
    assert Moment(7).calls + multiset{0} == multiset{0};
  }

  lemma CallFirst()
    ensures Step(Moment(2), Call(0), Moment(3))
  {
    var s := Moment(2);
    assert s.todo[0][1..] == [];
    assert Calling(s, 0).todo == Moment(3).todo && Calling(s, 0).slot == Moment(3).slot;
    assert Moved(s.jobs[0], 0, Taken) == PairJob(Taken, Waiting, 2);
  }

  lemma CallThird()
    ensures Step(Moment(3), Call(2), Moment(4))
  {
    var s := Moment(3);
    assert s.todo[2][1..] == [];
    assert Calling(s, 2).todo == Moment(4).todo && Calling(s, 2).slot == Moment(4).slot;
    assert Moved(s.jobs[0], 2, Taken) == PairJob(Taken, Taken, 2);
  }

  lemma Decrements()
    ensures Step(Moment(4), Decrement(0, 0), Moment(5)) && Step(Moment(5), Decrement(0, 2), Moment(6))
  {
    assert Counted(PairJob(Taken, Taken, 2), 0).row == [Ready, Out, Taken];
    assert Counted(PairJob(Ready, Taken, 1), 2).row == [Ready, Out, Ready];
    assert Counted(PairJob(Taken, Taken, 2), 0) == PairJob(Ready, Taken, 1);
    assert Counted(PairJob(Ready, Taken, 1), 2) == PairJob(Ready, Ready, 0);
  }

  lemma LastCall()
    ensures Step(Moment(8), Call(0), Moment(9))
  {
  }

  lemma MomentStep(k: nat)
    requires k < 9
    ensures Step(Moment(k), HISTORY[k], Moment(k + 1))
  {
    if k == 0 || k == 6 {
      Admissions();
    } else if k == 1 {
      EnqueuePair();
    } else if k == 2 {
      CallFirst();
    } else if k == 3 {
      CallThird();
    } else if k <= 5 {
      Decrements();
    } else if k == 7 {
      EnqueueSingle();
    } else {
      LastCall();
    }
  }

  lemma StartIdle()
    ensures Moment(0) == Idle(3, 1, 0)
  {
  }

  /** The job for core 0 has a mask that the commit knows, yet it is never taken: nothing moves any more, and the slot
      it waits for is held by a committed job none of whose cores was started (SchedulerProgress.BlockedForEver). */
  lemma StarvedBehindFive() returns (states: seq<State>)
    ensures Run(states, HISTORY) && |states| == 10 && states[9] == Moment(9)
    ensures Quiet(Moment(9)) && Moment(9).admitted == []
    ensures Moment(9).jobs[0].args.mask == 5 && Moment(9).jobs[0].commits == 1
    ensures Moment(9).jobs[1].args.mask == 1 && Blocked(Moment(9), 0, 1, 0)
  {
    states := seq(10, k requires 0 <= k < 10 => Moment(k));
    StartIdle();
    forall k | 0 <= k < 9 ensures Step(states[k], HISTORY[k], states[k + 1]) {
      MomentStep(k);
    }
  }

  // On a single core, slices of one task.

  const GOOD := SINGLE
  const PLAIN := GOOD.(pc := false)
  const BARE := GOOD.(tasks := None)
  const ODD := GOOD.(tasks := Some([0x100]))

  /** A request for the core, whose first task is its only one. */
  predicate Solo(a: Arguments) {
    a.(pc := true, tasks := Some([0x300])) == GOOD && (a.tasks.Some? ==> |a.tasks.value| == 1)
  }

  /** Its job: how far it is, and whether it was committed. */
  function On(a: Arguments, p: Phase): Job {
    var run := if p == Waiting || p == Taken then 1 else 0;
    Job(a, 0, run, if p == Done || p == Gone then 0 else 1, 1 - run, [p], [if p == Ending || p == Done then 1 else 0])
  }

  function One(jobs: seq<Job>, todo: seq<nat>, slot: Option<nat>, calls: multiset<nat>, admitted: seq<Job>,
               refs: int): State {
    State(1, 1, jobs, [todo], [slot], calls, admitted, [], 0, refs)
  }

  lemma SoloFresh(a: Arguments)
    requires Solo(a)
    ensures Wellformed(a, 1) && Fresh(a, 0, 1) == On(a, Waiting)
  {
    assert CoreIn(1, 0) && Queued(a, 1) == [Waiting];
    assert [Waiting][..0] == [];
  }

  lemma SoloFields(a: Arguments)
    requires Solo(a)
    ensures a.mask == 1 && a.start == 0 && a.number == 1 && |a.subcore| == 5 && Located(a, 1, 0)
  {
  }

  lemma FirstMask(a: Arguments)
    requires |a.subcore| == 5 && a.start == 0 && a.number == 1 && (a.tasks.Some? ==> |a.tasks.value| == 1)
    ensures SliceMask(a, 1, 1, 0, 0) == if a.tasks.Some? then a.tasks.value[0] else 0
  {
  }

  lemma SoloMask(a: Arguments)
    requires Solo(a)
    ensures Located(a, 1, 0) && Part(a, 1, 0) == (0, 1)
    ensures SliceMask(a, 1, 1, 0, 0) == if a.tasks.Some? then a.tasks.value[0] else 0
  {
    SoloFields(a);
    FirstMask(a);
  }

  lemma OneSlice(a: Arguments)
    requires Located(a, 1, 0) && Part(a, 1, 0) == (0, 1)
    ensures Slices(Part(a, 1, 0).1, 1) == 1
  {
  }

  lemma OnlySlice(a: Arguments, n: nat, max: nat, c: nat, slices: nat)
    requires Located(a, max, c) && Slices(Part(a, n, c).1, max) == slices == 1
    ensures CoreServable(a, n, max, c) <==> Starts(a, c) && Answered(SliceMask(a, n, max, c, 0))
  {
    if CoreServable(a, n, max, c) {
      assert Answered(SliceMask(a, n, max, c, 0));
    }
  }

  lemma OnlyCore(a: Arguments, n: nat, max: nat)
    requires n == 1 && CoreIn(a.mask, 0)
    ensures Servable(a, n, max) <==> CoreServable(a, n, max, 0)
  {
  }

  lemma SoloServable(a: Arguments)
    requires Solo(a)
    ensures Servable(a, 1, 1) <==> a.pc && a.tasks.Some? && Answered(a.tasks.value[0])
  {
    SoloMask(a);
    OneSlice(a);
    OnlySlice(a, 1, 1, 0, 1);
    SoloFields(a);
    assert CoreIn(1, 0);
    OnlyCore(a, 1, 1);
  }

  /** Three steps of a submitter: the domain, the queue, and a look at the core that finds it busy. */
  function Behind(jobs: seq<Job>, todo: seq<nat>, holder: nat, a: Arguments, refs: int): (r: seq<State>)
    ensures |r| == 3
  {
    [One(jobs, todo, Some(holder), multiset{}, [On(a, Waiting)], refs + 1),
     One(jobs + [On(a, Waiting)], todo + [|jobs|], Some(holder), multiset{0}, [], refs + 1),
     One(jobs + [On(a, Waiting)], todo + [|jobs|], Some(holder), multiset{}, [], refs + 1)]
  }

  lemma Arrives(s: State, a: Arguments, jobs: seq<Job>, todo: seq<nat>, slot: Option<nat>, refs: int)
    requires Solo(a) && s == One(jobs, todo, slot, multiset{}, [], refs)
    ensures Step(s, Admit(a, 0), One(jobs, todo, slot, multiset{}, [On(a, Waiting)], refs + 1))
    ensures Step(One(jobs, todo, slot, multiset{}, [On(a, Waiting)], refs + 1), Enqueue(0),
                 One(jobs + [On(a, Waiting)], todo + [|jobs|], slot, multiset{0}, [], refs + 1))
  {
    SoloFresh(a);
    assert CoreIn(1, 0) && Calls(a, 0) == multiset{} && Calls(a, 1) == multiset{0};
    assert [] + [On(a, Waiting)] == [On(a, Waiting)];
    assert Appended([todo], a, |jobs|) == [todo + [|jobs|]];
    assert Without([On(a, Waiting)], 0) == [];
  }

  lemma Queues(a: Arguments, jobs: seq<Job>, todo: seq<nat>, holder: nat, refs: int)
    requires Solo(a)
    ensures var r := Behind(jobs, todo, holder, a, refs);
      && Step(One(jobs, todo, Some(holder), multiset{}, [], refs), Admit(a, 0), r[0])
      && Step(r[0], Enqueue(0), r[1]) && Step(r[1], Call(0), r[2])
  {
    Arrives(One(jobs, todo, Some(holder), multiset{}, [], refs), a, jobs, todo, Some(holder), refs);
  }

  /** The look that takes the job, and the commit. */
  lemma Takes(jobs: seq<Job>, a: Arguments, refs: int)
    requires Solo(a)
    ensures var t := |jobs|;
      && Step(One(jobs + [On(a, Waiting)], [t], None, multiset{0}, [], refs), Call(0),
              One(jobs + [On(a, Taken)], [], Some(t), multiset{}, [], refs))
      && Step(One(jobs + [On(a, Taken)], [], Some(t), multiset{}, [], refs), Decrement(t, 0),
              One(jobs + [On(a, if a.pc && a.tasks.Some? then Starting else Ready)], [], Some(t), multiset{}, [], refs))
  {
    var t, j := |jobs|, jobs + [On(a, Waiting)];
    assert j[t] == On(a, Waiting) && j[t := On(a, Taken)] == jobs + [On(a, Taken)];
    assert Moved(On(a, Waiting), 0, Taken) == On(a, Taken) && [t][1..] == [];
    var next := On(a, if a.pc && a.tasks.Some? then Starting else Ready);
    var k := jobs + [On(a, Taken)];
    assert Committed(a, [Ready]) == next.row && Counted(On(a, Taken), 0) == next;
    assert k[t] == On(a, Taken) && k[t := next] == jobs + [next];
  }

  // Runs, extended step by step.

  /** No submitter gave up a job, and none was refused its domain. */
  predicate Undisturbed(events: seq<Event>) {
    forall i :: 0 <= i < |events| ==> Calm(events[i])
  }

  predicate Calm(e: Event) {
    !e.Abort? && !e.Refuse?
  }

  lemma Play(states: seq<State>, events: seq<Event>, e: Event, s: State) returns (ss: seq<State>, es: seq<Event>)
    requires Run(states, events) && Step(states[|events|], e, s)
    ensures Run(ss, es) && es == events + [e] && ss[|es|] == s
    ensures Undisturbed(events) && Calm(e) ==> Undisturbed(es)
  {
    ss, es := states + [s], events + [e];
  }

  lemma PlaySubmit(states: seq<State>, events: seq<Event>, jobs: seq<Job>, todo: seq<nat>, holder: nat, a: Arguments,
                   refs: int)
    returns (ss: seq<State>, es: seq<Event>)
    requires Run(states, events) && states[|events|] == One(jobs, todo, Some(holder), multiset{}, [], refs) && Solo(a)
    ensures Run(ss, es) && (Undisturbed(events) ==> Undisturbed(es))
    ensures ss[|es|] == One(jobs + [On(a, Waiting)], todo + [|jobs|], Some(holder), multiset{}, [], refs + 1)
  {
    Queues(a, jobs, todo, holder, refs);
    var r := Behind(jobs, todo, holder, a, refs);
    ss, es := Play(states, events, Admit(a, 0), r[0]);
    ss, es := Play(ss, es, Enqueue(0), r[1]);
    ss, es := Play(ss, es, Call(0), r[2]);
  }

  lemma PlayTake(states: seq<State>, events: seq<Event>, jobs: seq<Job>, a: Arguments, refs: int)
    returns (ss: seq<State>, es: seq<Event>)
    requires Run(states, events) && Solo(a)
    requires states[|events|] == One(jobs + [On(a, Waiting)], [|jobs|], None, multiset{0}, [], refs)
    ensures Run(ss, es) && (Undisturbed(events) ==> Undisturbed(es))
    ensures ss[|es|] == One(jobs + [On(a, if a.pc && a.tasks.Some? then Starting else Ready)], [], Some(|jobs|),
                            multiset{}, [], refs)
  {
    Takes(jobs, a, refs);
    ss, es := Play(states, events, Call(0), One(jobs + [On(a, Taken)], [], Some(|jobs|), multiset{}, [], refs));
    ss, es := Play(ss, es, Decrement(|jobs|, 0),
      One(jobs + [On(a, if a.pc && a.tasks.Some? then Starting else Ready)], [], Some(|jobs|), multiset{}, [], refs));
  }

  /** The first job on an idle core, up to its commit. */
  lemma PlayFirst(a: Arguments) returns (ss: seq<State>, es: seq<Event>)
    requires Solo(a)
    ensures Run(ss, es) && Undisturbed(es)
    ensures ss[|es|] == One([On(a, if a.pc && a.tasks.Some? then Starting else Ready)], [], Some(0), multiset{}, [], 1)
  {
    var s := One([], [], None, multiset{}, [], 0);
    Arrives(s, a, [], [], None, 0);
    ss, es := [s], [];
    assert s == Idle(1, 1, 0);
    ss, es := Play(ss, es, Admit(a, 0), One([], [], None, multiset{}, [On(a, Waiting)], 1));
    ss, es := Play(ss, es, Enqueue(0), One([] + [On(a, Waiting)], [] + [0], None, multiset{0}, [], 1));
    assert [] + [0] == [0];
    ss, es := PlayTake(ss, es, [], a, 1);
    assert [] + [On(a, if a.pc && a.tasks.Some? then Starting else Ready)]
        == [On(a, if a.pc && a.tasks.Some? then Starting else Ready)];
  }

  /** The same, up to its first start. */
  lemma PlayRunning(a: Arguments) returns (ss: seq<State>, es: seq<Event>)
    requires Solo(a) && a.pc && a.tasks.Some?
    ensures Run(ss, es) && Undisturbed(es)
    ensures ss[|es|] == One([On(a, Running)], [], Some(0), multiset{}, [], 1)
  {
    ss, es := PlayFirst(a);
    assert Moved(On(a, Starting), 0, Running) == On(a, Running);
    ss, es := Play(ss, es, Start(0, 0), One([On(a, Running)], [], Some(0), multiset{}, [], 1));
  }

  /** A slice whose last task asks for anything but whole pairs is never answered: for every such mask a run that ends at
      rest with a job running on the core, and one that could be served blocked behind it. */
  lemma StarvedBehindMask(mask: nat) returns (ss: seq<State>, es: seq<Event>)
    requires !Answered(mask)
    ensures Run(ss, es) && Undisturbed(es)
    ensures var s := ss[|es|];
      && Quiet(s) && s.admitted == [] && |s.jobs| == 2 && Blocked(s, 0, 1, 0)
      && s.jobs[0].args == GOOD.(tasks := Some([mask])) && s.jobs[0].row == [Running] && Servable(s.jobs[1].args, 1, 1)
  {
    var a := GOOD.(tasks := Some([mask]));
    ss, es := PlayRunning(a);
    ss, es := PlaySubmit(ss, es, [On(a, Running)], [], 0, GOOD, 1);
    SoloMask(a);
    GoodServable();
    RestsRunning(a, ss[|es|]);
  }

  lemma GoodServable()
    ensures Servable(GOOD, 1, 1) && Answered(0x300)
  {
    assert Pairs(0x300, 6) == 4 * Pairs(0xC0, 5) == 16 * Pairs(0x30, 4) == 64 * Pairs(0xC, 3) == 256 * Pairs(3, 2);
    assert Pairs(3, 2) == 3 + 4 * Pairs(0, 1) && Pairs(0, 1) == 0 + 4 * Pairs(0, 0);
    SoloServable(GOOD);
  }

  lemma RestsRunning(a: Arguments, s: State)
    requires Solo(a) && !Answered(SliceMask(a, 1, 1, 0, 0))
    requires s == One([On(a, Running)] + [On(GOOD, Waiting)], [] + [1], Some(0), multiset{}, [], 2)
    ensures Quiet(s) && Blocked(s, 0, 1, 0)
  {
  }

  /** Without PC mode, or without a task object, the commit fails where nobody looks if it comes from the interrupt of the
      job before: at rest the failed job holds the core, and one that could be served is blocked behind it. */
  lemma StarvedBehindFailed(a: Arguments) returns (ss: seq<State>, es: seq<Event>)
    requires Solo(a) && !(a.pc && a.tasks.Some?)
    ensures Run(ss, es) && Undisturbed(es)
    ensures var s := ss[|es|];
      && Quiet(s) && s.admitted == [] && |s.jobs| == 3 && Blocked(s, 1, 2, 0)
      && s.jobs[1].args == a && s.jobs[1].row == [Ready] && s.jobs[1].commits == 1 && Servable(s.jobs[2].args, 1, 1)
  {
    ss, es := PlayRunning(GOOD);
    ss, es := PlaySubmit(ss, es, [On(GOOD, Running)], [], 0, a, 1);
    ss, es := PlayFinish(ss, es, a);
    ss, es := PlayTake(ss, es, [On(GOOD, Done)], a, 1);
    ss, es := PlaySubmit(ss, es, [On(GOOD, Done)] + [On(a, Ready)], [], 1, GOOD, 1);
    GoodServable();
    RestsReady([On(GOOD, Done)] + [On(a, Ready)] + [On(GOOD, Waiting)], a, ss[|es|]);
  }

  /** The interrupt of the first job, with one waiting behind it. */
  lemma PlayFinish(states: seq<State>, events: seq<Event>, a: Arguments) returns (ss: seq<State>, es: seq<Event>)
    requires Run(states, events) && Undisturbed(events)
    requires states[|events|] == One([On(GOOD, Running)] + [On(a, Waiting)], [] + [1], Some(0), multiset{}, [], 2)
    ensures Run(ss, es) && Undisturbed(es)
    ensures ss[|es|] == One([On(GOOD, Done)] + [On(a, Waiting)], [1], None, multiset{0}, [], 1)
  {
    var interrupt, next := GoodFinishes(a, states[|events|]);
    var last := GoodComplete(a, next);
    ss, es := Play(states, events, interrupt, next);
    ss, es := Play(ss, es, Complete(0, 0), last);
  }

  lemma GoodFinishes(a: Arguments, s: State) returns (e: Event, s': State)
    requires s == One([On(GOOD, Running)] + [On(a, Waiting)], [] + [1], Some(0), multiset{}, [], 2)
    ensures Step(s, e, s') && Calm(e)
    ensures s' == One([On(GOOD, Ending), On(a, Waiting)], [1], None, multiset{}, [], 2)
  {
    var status := GoodMask();
    e, s' := GoodInterrupt(a, s, status);
  }

  /** The interrupt of a last slice. */
  lemma LastInterrupt(s: State, c: nat, t: nat, status: nat, j: Job)
    returns (e: Event, s': State)
    requires c < s.n && c < |s.slot| && s.slot[c] == Some(t) && Matching(s, t, c, status) && t < |s.jobs|
    requires j == InterruptedBy(s.jobs[t], s.n, s.max, c) && c < |j.row| && j.row[c] == Ending
    ensures Step(s, e, s') && Calm(e) && s' == s.(jobs := s.jobs[t := j], slot := s.slot[c := None])
  {
    e, s' := Interrupt(c, status), s.(jobs := s.jobs[t := j], slot := s.slot[c := None]);
  }

  lemma GoodInterrupt(a: Arguments, s: State, status: nat) returns (e: Event, s': State)
    requires s == One([On(GOOD, Running)] + [On(a, Waiting)], [] + [1], Some(0), multiset{}, [], 2)
    requires status == SliceMask(GOOD, 1, 1, 0, 0) && status != 0 && Fuzz(status) == status
    ensures Step(s, e, s') && Calm(e)
    ensures s' == One([On(GOOD, Ending), On(a, Waiting)], [1], None, multiset{}, [], 2)
  {
    var j := FinishesJob();
    e, s' := LastInterrupt(s, 0, 0, status, j);
    assert s.slot[0 := None] == [None];
    assert s.jobs[0 := j] == [On(GOOD, Ending), On(a, Waiting)] && [] + [1] == [1];
  }

  lemma GoodComplete(a: Arguments, s: State) returns (s': State)
    requires s == One([On(GOOD, Ending), On(a, Waiting)], [1], None, multiset{}, [], 2)
    ensures Step(s, Complete(0, 0), s')
    ensures s' == One([On(GOOD, Done)] + [On(a, Waiting)], [1], None, multiset{0}, [], 1)
  {
    var j := FinishesJob();
    assert s.jobs[0 := On(GOOD, Done)] == [On(GOOD, Done)] + [On(a, Waiting)];
    s' := Completed(s, 0, 0);
  }

  lemma GoodMask() returns (status: nat)
    ensures status == SliceMask(GOOD, 1, 1, 0, 0) && status != 0 && Fuzz(status) == status
  {
    GoodServable();
    SoloMask(GOOD);
    status := SliceMask(GOOD, 1, 1, 0, 0);
  }

  lemma FinishesJob() returns (j: Job)
    ensures j == InterruptedBy(On(GOOD, Running), 1, 1, 0) == On(GOOD, Ending)
    ensures Moved(j, 0, Done).(interrupts := 0) == On(GOOD, Done)
  {
    j := On(GOOD, Ending);
    assert [0][0 := 1] == [1] && [Running][0 := Ending] == [Ending] && [Ending][0 := Done] == [Done];
  }

  lemma RestsReady(jobs: seq<Job>, a: Arguments, s: State)
    requires jobs == [On(GOOD, Done)] + [On(a, Ready)] + [On(GOOD, Waiting)]
    requires s == One(jobs, [] + [2], Some(1), multiset{}, [], 2)
    ensures Quiet(s) && Blocked(s, 1, 2, 0)
  {
    assert jobs == [On(GOOD, Done), On(a, Ready), On(GOOD, Waiting)];
  }

  /** A submitter that reads the failure gives its job up, and frees the core without a look at the queue: a job that
      could be served, submitted in between, is left waiting on a free core. */
  lemma FreeButWaiting(a: Arguments) returns (ss: seq<State>, es: seq<Event>)
    requires Solo(a) && !(a.pc && a.tasks.Some?)
    ensures Run(ss, es) && es != [] && es[|es| - 1] == Abort(0)
    ensures var s := ss[|es|];
      && Quiet(s) && s.admitted == [] && |s.jobs| == 2 && s.slot == [None] && s.todo == [[1]]
      && s.jobs[0].args == a && s.jobs[0].row == [Gone] && At(s, 1, 0, Waiting) && Servable(s.jobs[1].args, 1, 1)
  {
    ss, es := PlayFirst(a);
    ss, es := PlaySubmit(ss, es, [On(a, Ready)], [], 0, GOOD, 1);
    GivesUp(a, ss[|es|]);
    ss, es := Play(ss, es, Abort(0), One([On(a, Gone), On(GOOD, Waiting)], [1], None, multiset{}, [], 1));
    GoodServable();
    RestsFree(a, ss[|es|]);
  }

  lemma GivesUp(a: Arguments, s: State)
    requires Solo(a) && !(a.pc && a.tasks.Some?)
    requires s == One([On(a, Ready)] + [On(GOOD, Waiting)], [] + [1], Some(0), multiset{}, [], 2)
    ensures Step(s, Abort(0), One([On(a, Gone), On(GOOD, Waiting)], [1], None, multiset{}, [], 1))
  {
    assert s.jobs == [On(a, Ready), On(GOOD, Waiting)] && [] + [1] == [1];
    assert GivenUp(On(a, Ready)).row == [Gone];
    assert s.jobs[0 := On(a, Gone)] == [On(a, Gone), On(GOOD, Waiting)];
  }

  lemma RestsFree(a: Arguments, s: State)
    requires s == One([On(a, Gone), On(GOOD, Waiting)], [1], None, multiset{}, [], 1)
    ensures Quiet(s) && At(s, 1, 0, Waiting)
  {
  }
}
