/** The driver's IOMMU domains: `rknpu_iommu_switch_domain` and the counted get and put around it. */
module Iommu {
  import opened Common
  import Scheduler
  import SchedulerSteps

  const DOMAINS := 16

  /** What domain_lock protects: the domains made so far, the active one by the driver's account, the one the device is
      really attached to, the count, and the default domain of the device's group, which every switch resets. */
  datatype Fields = Fields(made: set<int>, active: int, attached: Option<int>, refs: nat, standard: int)

  /** How one pass through the lock ends. Lost is a failed switch that left the device off the active domain. */
  datatype Outcome = Held | Busy | Failed | Lost

  /** What a detached device is attached to. `falls` is whether the kernel's IOMMU core then falls back to the default
      domain of the group, or leaves it without any. */
  function Detached(falls: bool, f: Fields): Option<int> {
    if falls then Some(f.standard) else None
  }

  /** What one pass for domain `id` may do to the fields. */
  predicate Passed(falls: bool, f: Fields, id: int, o: Outcome, f': Fields) {
    match o
    case Held =>
      if id == f.active then f' == f.(refs := f.refs + 1)
      else
        && f.refs == 0 && Switchable(f, id)
        && f' == Fields(f.made + {id}, id, Some(id), 1, id)
    case Busy => id != f.active && f.refs > 0 && f' == f
    case Failed => id != f.active && f.refs == 0 && f' == f
    case Lost =>
      && id != f.active && f.refs == 0 && Switchable(f, id)
      && Detached(falls, f) != f.attached && f' == f.(attached := Detached(falls, f))
  }

  predicate Switchable(f: Fields, id: int) {
    0 <= id < DOMAINS && f.attached == Some(f.active)
  }

  /** Attaching and allocating can fail, unless the device is faultless. */
  class Device {
    const falls: bool
    const faultless: bool
    var made: set<int>
    var active: int
    var attached: Option<int>
    var refs: nat
    var standard: int

    function State(): Fields
      reads this
    {
      Fields(made, active, attached, refs, standard)
    }

    constructor (falls: bool, faultless: bool)
      ensures this.falls == falls && this.faultless == faultless && State() == Fields({0}, 0, Some(0), 0, 0)
    {
      this.falls, this.faultless := falls, faultless;
      made, active, attached, refs, standard := {0}, 0, Some(0), 0, 0;
    }

    /** `iommu_detach_device`. */
    method Detach()
      modifies `attached
      ensures attached == Detached(falls, State())
    {
      attached := if falls then Some(standard) else None;
    }

    /** `iommu_attach_device`, after a detach. */
    method Attach(id: int) returns (ok: bool)
      modifies `attached
      ensures attached == if ok then Some(id) else old(attached)
      ensures faultless ==> ok
    {
      ok := *;
      if faultless { ok := true; }
      if ok { attached := Some(id); }
    }

    method SwitchDomain(id: int) returns (ok: bool)
      requires id != active
      modifies `made, `active, `attached, `standard
      ensures ok ==>
        && old(Switchable(State(), id))
        && State() == Fields(old(made) + {id}, id, Some(id), refs, id)
      ensures !ok ==>
        || State() == old(State())
        || (old(Switchable(State(), id)) && State() == old(State().(attached := Detached(falls, State()))))
      ensures faultless ==> (ok <==> 0 <= id < 16 && old(attached) == Some(old(active)))
    {
      if id < 0 || id >= DOMAINS { return false; }
      var source := active;
      if attached != Some(source) { return false; }
      if id in made {
        Detach();
        ok := Attach(id);
        if !ok {
          var back := Attach(source);
          return false;
        }
        active := id;
        assert old(made) + {id} == old(made);
      } else {
        var memory: bool := *;
        if faultless { memory := true; }
        if !memory { return false; }
        Detach();
        ok := Attach(id);
        if !ok { return; }
        active := id;
        made := made + {id};
      }
      standard := id;
    }

    /** The critical section of `rknpu_iommu_domain_get_and_switch`. */
    method Pass(id: int) returns (o: Outcome)
      modifies this
      ensures Passed(falls, old(State()), id, o, State())
      // Without faults: the active domain always, another one exactly when nobody holds one and the device is attached.
      ensures faultless ==>
        (o == Held <==> id == old(active) || (old(refs) == 0 && 0 <= id < 16 && old(attached) == Some(old(active))))
      ensures o == Held ==> active == id && refs == old(refs) + 1
      ensures o == Busy <==> id != old(active) && old(refs) > 0
    {
      if id == active {
        refs := refs + 1;
        return Held;
      }
      if refs > 0 { return Busy; }
      var whole := attached;
      var ok := SwitchDomain(id);
      if !ok { return if attached == whole then Failed else Lost; }
      refs := refs + 1;
      return Held;
    }

    method Put()
      requires refs > 0
      modifies `refs
      ensures State() == old(State()).(refs := old(refs) - 1)
    {
      refs := refs - 1;
    }
  }

  // All holders, interleaved; a retry is simply another pass.

  /** `holders` are the domains asked for by those that hold one. */
  datatype System = System(fields: Fields, holders: seq<int>)

  datatype Event = Get(id: int, o: Outcome) | Put(i: nat)

  predicate Step(falls: bool, s: System, e: Event, s': System) {
    match e
    case Get(id, o) =>
      && Passed(falls, s.fields, id, o, s'.fields)
      && s'.holders == if o == Held then s.holders + [id] else s.holders
    case Put(i) =>
      && i < |s.holders| && s.fields.refs > 0
      && s' == System(s.fields.(refs := s.fields.refs - 1), s.holders[..i] + s.holders[i + 1..])
  }

  predicate Inv(falls: bool, s: System) {
    && s.fields.refs == |s.holders|
    && (forall i :: 0 <= i < |s.holders| ==> s.holders[i] == s.fields.active)
    && s.fields.standard == s.fields.active
    && (s.fields.attached == Some(s.fields.active) || (!falls && s.fields.attached == None))
  }

  lemma StepKeeps(falls: bool, s: System, e: Event, s': System)
    requires Inv(falls, s) && Step(falls, s, e, s')
    ensures Inv(falls, s')
    ensures s.holders != [] ==> s'.fields.active == s.fields.active && s'.fields.attached == s.fields.attached
    ensures s'.fields.attached == Some(s'.fields.active) <==>
      s.fields.attached == Some(s.fields.active) && !(e.Get? && e.o == Lost)
  {
    match e
    case Get(id, o) =>
    case Put(i) =>
      forall k | 0 <= k < |s'.holders| ensures s'.holders[k] == s.fields.active {
        assert s'.holders[k] == s.holders[if k < i then k else k + 1];
      }
  }

  predicate Run(falls: bool, states: seq<System>, events: seq<Event>) {
    && |states| == |events| + 1
    && states[0] == System(Fields({0}, 0, Some(0), 0, 0), [])
    && forall k :: 0 <= k < |events| ==> Step(falls, states[k], events[k], states[k + 1])
  }

  predicate LostAt(events: seq<Event>, k: nat) {
    k < |events| && events[k].Get? && events[k].o == Lost
  }

  /** Over every run the active domain is the one every holder asked for, and the device is attached to it exactly if no
      switch has lost it. */
  lemma {:induction false} RunKeeps(falls: bool, states: seq<System>, events: seq<Event>, k: nat)
    requires Run(falls, states, events) && k < |states|
    ensures Inv(falls, states[k])
    ensures states[k].fields.attached == Some(states[k].fields.active) <==> forall j :: 0 <= j < k ==> !LostAt(events, j)
  {
    if k > 0 {
      RunKeeps(falls, states, events, k - 1);
      StepKeeps(falls, states[k - 1], events[k - 1], states[k]);
      assert LostAt(events, k - 1) <==> events[k - 1].Get? && events[k - 1].o == Lost;
    }
  }

  /** While anyone holds a domain, no step changes the active one or detaches the device. */
  lemma StableWhileHeld(falls: bool, states: seq<System>, events: seq<Event>, k: nat)
    requires Run(falls, states, events) && k < |events| && states[k].holders != []
    ensures states[k + 1].fields.active == states[k].fields.active
    ensures states[k + 1].fields.attached == states[k].fields.attached
  {
    RunKeeps(falls, states, events, k);
    StepKeeps(falls, states[k], events[k], states[k + 1]);
  }

  /** Under a core that falls back to the group's default domain the device is never lost: every switch has made the
      active domain that default. */
  lemma FallbackKeepsDomain(states: seq<System>, events: seq<Event>, k: nat)
    requires Run(true, states, events) && k < |states|
    ensures states[k].fields.attached == Some(states[k].fields.active)
    ensures forall j :: 0 <= j < k ==> !LostAt(events, j)
  {
    RunKeeps(true, states, events, k);
  }

  /** Without that, a lost device stays lost: the mismatch test refuses every switch, while the active domain is still
      granted. */
  lemma {:induction false} LostForever(falls: bool, states: seq<System>, events: seq<Event>, j: nat, k: nat)
    requires Run(falls, states, events) && j < k < |states| && LostAt(events, j)
    ensures !falls && states[k].fields.attached == None
  {
    RunKeeps(falls, states, events, k);
  }

  /** So then it does happen: the first switch to a new domain fails to attach it, and the next caller is granted domain
      0 on a device that is attached to none. */
  lemma GrantedDetached() returns (states: seq<System>, events: seq<Event>)
    ensures Run(false, states, events) && |events| == 2 && events[1] == Get(0, Held)
    ensures states[2].holders == [0] && states[2].fields.attached == None
  {
    var f := Fields({0}, 0, Some(0), 0, 0);
    events := [Get(1, Lost), Get(0, Held)];
    states := [System(f, []), System(f.(attached := None), []), System(f.(attached := None, refs := 1), [0])];
  }

  /** The scheduler's view of it: a domain is granted exactly when its state machine lets the holder in. */
  lemma GrantsAgree(falls: bool, s: Scheduler.State, f: Fields, id: nat)
    requires f.active == s.domain && f.refs == s.refs
    requires f.attached == Some(f.active) && id < DOMAINS
    ensures SchedulerSteps.Enabled(s, SchedulerSteps.Hold(id)) <==> exists f' :: Passed(falls, f, id, Held, f')
  {
    var g := if id == f.active then f.(refs := f.refs + 1) else Fields(f.made + {id}, id, Some(id), 1, id);
    assert id == f.active || f.refs == 0 ==> Passed(falls, f, id, Held, g);
  }
}
