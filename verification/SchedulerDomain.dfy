/** The IOMMU domain of the jobs in flight, and the count that protects it. */
module SchedulerDomain {
  import opened Common
  import opened Scheduler
  import opened SchedulerSteps
  import opened SchedulerSafety

  /** Jobs whose completion is still to be counted. */
  function Open(jobs: seq<Job>): nat {
    if jobs == [] then 0 else Open(jobs[..|jobs| - 1]) + if jobs[|jobs| - 1].interrupts > 0 then 1 else 0
  }

  lemma {:induction false} OpenUpdate(jobs: seq<Job>, t: nat, j: Job)
    requires t < |jobs|
    ensures Open(jobs[t := j]) ==
      Open(jobs) + (if j.interrupts > 0 then 1 else 0) - (if jobs[t].interrupts > 0 then 1 else 0)
  {
    if t < |jobs| - 1 {
      assert jobs[t := j][..|jobs| - 1] == jobs[..|jobs| - 1][t := j];
      OpenUpdate(jobs[..|jobs| - 1], t, j);
    } else {
      assert jobs[t := j][..|jobs| - 1] == jobs[..|jobs| - 1];
    }
  }

  lemma {:induction false} OpenPositive(jobs: seq<Job>, t: nat)
    requires t < |jobs| && jobs[t].interrupts > 0
    ensures Open(jobs) > 0
  {
    if t < |jobs| - 1 {
      OpenPositive(jobs[..|jobs| - 1], t);
    }
  }

  function Holders(s: State): nat {
    |s.others| + |s.admitted| + Open(s.jobs)
  }

  /** How far the count is below the number of holders. */
  function Owed(s: State): int {
    Holders(s) - s.refs
  }

  /** Every holder wants the active domain. */
  predicate Agreed(s: State) {
    && (forall i :: 0 <= i < |s.others| ==> s.others[i] == s.domain)
    && (forall i :: 0 <= i < |s.admitted| ==> s.admitted[i].domain == s.domain)
    && forall t :: 0 <= t < |s.jobs| && s.jobs[t].interrupts > 0 ==> s.jobs[t].domain == s.domain
  }

  // The count.

  lemma FreshOpen(args: Arguments, domain: nat, n: nat)
    requires Wellformed(args, n)
    ensures Fresh(args, domain, n).interrupts > 0
  {
    var row := Queued(args, n);
    CountZero(Unfinished, row);
    var c :| 0 <= c < n && CoreIn(args.mask, c);
    assert Unfinished(row[c]);
  }

  /** One job replaced without finishing it. */
  lemma SameOwed(s: State, s': State, t: nat)
    requires t < |s.jobs| == |s'.jobs| && s'.jobs == s.jobs[t := s'.jobs[t]]
    requires s'.jobs[t].interrupts == s.jobs[t].interrupts && s'.jobs[t].domain == s.jobs[t].domain
    requires s'.refs == s.refs && s'.others == s.others && s'.admitted == s.admitted && s'.domain == s.domain
    ensures Owed(s') == Owed(s) && (Agreed(s) ==> Agreed(s'))
  {
    OpenUpdate(s.jobs, t, s'.jobs[t]);
  }

  lemma EnqueueOwed(s: State, i: nat)
    requires i < |s.admitted| && Admitted(s)
    ensures Owed(Queueing(s, i)) == Owed(s) && (Agreed(s) ==> Agreed(Queueing(s, i)))
  {
    var s', j := Queueing(s, i), s.admitted[i];
    FreshOpen(j.args, j.domain, s.n);
    assert s'.jobs[..|s'.jobs| - 1] == s.jobs;
    forall k | 0 <= k < |s'.admitted| ensures s'.admitted[k] in s.admitted {
      assert s'.admitted[k] == s.admitted[if k < i then k else k + 1];
    }
  }

  lemma CompleteOwed(s: State, t: nat, c: nat)
    requires Inv(s) && Enabled(s, Complete(t, c))
    ensures Owed(Completed(s, t, c)) == Owed(s) && (Agreed(s) ==> Agreed(Completed(s, t, c)))
  {
    assert JobOk(s.jobs[t], s.n, s.max);
    DoneOk(s.jobs[t], s.n, s.max, c);
    OpenUpdate(s.jobs, t, Completed(s, t, c).jobs[t]);
  }

  lemma AbortOwed(s: State, t: nat)
    requires Enabled(s, Abort(t))
    ensures Owed(Aborted(s, t)) == Owed(s) && (Agreed(s) ==> Agreed(Aborted(s, t)))
  {
    OpenUpdate(s.jobs, t, GivenUp(s.jobs[t]));
  }

  lemma ReleaseOwed(s: State, i: nat)
    requires i < |s.others|
    ensures Owed(Released(s, i)) == Owed(s) && (Agreed(s) ==> Agreed(Released(s, i)))
  {
    var rest := Without(s.others, i);
    forall k | 0 <= k < |rest| ensures rest[k] in s.others {
      assert rest[k] == s.others[if k < i then k else k + 1];
    }
  }

  lemma CallOwed(s: State, c: nat)
    requires Inv(s) && c < s.n
    ensures Owed(Calling(s, c)) == Owed(s) && (Agreed(s) ==> Agreed(Calling(s, c)))
  {
    assert CoreOk(s, c);
    if Calling(s, c).jobs != s.jobs {
      SameOwed(s, Calling(s, c), s.todo[c][0]);
    }
  }

  lemma InterruptOwed(s: State, c: nat, status: nat)
    requires Inv(s) && Enabled(s, Interrupt(c, status))
    ensures Owed(Interrupted(s, c)) == Owed(s) && (Agreed(s) ==> Agreed(Interrupted(s, c)))
  {
    SameOwed(s, Interrupted(s, c), s.slot[c].value);
  }

  /** A domain is only granted when the count is zero. */
  lemma GrantOwed(s: State, e: Event)
    requires Enabled(s, e) && (e.Admit? || e.Hold?)
    ensures Owed(After(s, e)) == Owed(s) && (Agreed(s) && Owed(s) == 0 ==> Agreed(After(s, e)))
  {
    if s.refs == 0 && Owed(s) == 0 {
      forall t | 0 <= t < |s.jobs| ensures s.jobs[t].interrupts == 0 {
        if s.jobs[t].interrupts > 0 {
          OpenPositive(s.jobs, t);
        }
      }
    }
  }

  /** Every step keeps the count in step with the holders, but a refused request takes one off that it never put on; and
      as long as the count is right, every holder finds the domain it asked for. */
  lemma StepDomain(s: State, e: Event)
    requires Inv(s) && Admitted(s) && Enabled(s, e)
    ensures Owed(After(s, e)) == Owed(s) + if e.Refuse? then 1 else 0
    ensures Agreed(s) && Owed(s) == 0 ==> Agreed(After(s, e))
  {
    match e
    case Enqueue(i) => EnqueueOwed(s, i);
    case Call(c) => CallOwed(s, c);
    case Decrement(t, c) => SameOwed(s, After(s, e), t);
    case Start(t, c) => SameOwed(s, After(s, e), t);
    case Interrupt(c, status) => InterruptOwed(s, c, status);
    case Complete(t, c) => CompleteOwed(s, t, c);
    case Abort(t) => AbortOwed(s, t);
    case Release(i) => ReleaseOwed(s, i);
    case Admit(_, _) => GrantOwed(s, e);
    case Hold(_) => GrantOwed(s, e);
    case _ =>
  }

  // Over whole runs.

  function Refusals(events: seq<Event>, k: nat): nat
    requires k <= |events|
  {
    if k == 0 then 0 else Refusals(events, k - 1) + if events[k - 1].Refuse? then 1 else 0
  }

  lemma {:induction false} NoRefusals(events: seq<Event>, k: nat)
    requires k <= |events|
    ensures Refusals(events, k) == 0 <==> forall i :: 0 <= i < k ==> !events[i].Refuse?
  {
    if k > 0 {
      NoRefusals(events, k - 1);
    }
  }

  lemma {:induction false} RunOwes(states: seq<State>, events: seq<Event>, k: nat)
    requires Run(states, events) && k < |states|
    ensures Owed(states[k]) == Refusals(events, k)
    ensures Refusals(events, k) == 0 ==> Agreed(states[k])
  {
    if k > 0 {
      RunOwes(states, events, k - 1);
      RunKeeps(states, events, k - 1);
      Owing(states[k - 1], events[k - 1], states[k]);
    }
  }

  lemma Owing(s: State, e: Event, s': State)
    requires Inv(s) && Admitted(s) && Step(s, e, s')
    ensures Owed(s') == Owed(s) + if e.Refuse? then 1 else 0
    ensures Agreed(s) && Owed(s) == 0 ==> Agreed(s')
  {
    StepDomain(s, e);
  }

  /** Over every run the count is the number of holders if and only if no request was refused, and then every holder wants
      the active domain. */
  lemma CountExactly(states: seq<State>, events: seq<Event>, k: nat)
    requires Run(states, events) && k < |states|
    ensures states[k].refs == Holders(states[k]) <==> forall i :: 0 <= i < k ==> !events[i].Refuse?
    ensures (forall i :: 0 <= i < k ==> !events[i].Refuse?) ==> Agreed(states[k])
  {
    RunOwes(states, events, k);
    NoRefusals(events, k);
  }

  /** So without a refused request the active domain never changes while anyone holds it: whatever the hardware runs, and
      every job from its admission to the completion on its last core, finds the domain it asked for. */
  lemma DomainStable(states: seq<State>, events: seq<Event>, k: nat, t: nat)
    requires Run(states, events) && k < |events| && forall i :: 0 <= i < k ==> !events[i].Refuse?
    requires t < |states[k].jobs| && states[k].jobs[t].interrupts > 0
    ensures states[k].jobs[t].domain == states[k].domain && states[k].refs > 0
    ensures states[k + 1].domain == states[k].domain
  {
    CountExactly(states, events, k);
    OpenPositive(states[k].jobs, t);
    assert Step(states[k], events[k], states[k + 1]);
  }

  // With one.

  const WANTED := Arguments(1, 0, 1, [(0, 1), (0, 1), (0, 1), (0, 1), (0, 1)], true, Some([0x300]))

  lemma WantedFits()
    ensures Wellformed(WANTED, 1)
  {
    assert CoreIn(1, 0);
  }

  /** While a job holds domain 0 a request for domain 1 is refused, and the next such request is granted it: the domain
      has changed under the first job. */
  lemma ChangedUnderJob() returns (states: seq<State>, events: seq<Event>)
    ensures Run(states, events) && events == [Admit(WANTED, 0), Refuse(1), Admit(WANTED, 1)]
    ensures states[3].admitted == [Fresh(WANTED, 0, 1), Fresh(WANTED, 1, 1)] && states[3].domain == 1
  {
    WantedFits();
    events := [Admit(WANTED, 0), Refuse(1), Admit(WANTED, 1)];
    var s0 := Idle(1, 1, 0);
    var s1 := After(s0, events[0]);
    var s2 := After(s1, events[1]);
    var s3 := After(s2, events[2]);
    states := [s0, s1, s2, s3];
  }
}
