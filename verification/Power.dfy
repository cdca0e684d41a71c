/** The driver's power reference count with delayed puts, as interleaved critical sections. */
module Power {

  /** What power_lock protects: the count, the supply, and whether the delayed work is on its queue. */
  datatype Fields = Fields(refs: nat, powered: bool, queued: bool)

  /** The locked part of rknpu_power_get; switching on can fail. */
  function Got(f: Fields, works: bool): (Fields, bool) {
    if f.refs > 0 then (f.(refs := f.refs + 1), true)
    else if works then (Fields(1, true, f.queued), true)
    else (f, false)
  }

  /** The locked part that rknpu_power_put and the delayed work share; switching off can fail, which asks for a retry. */
  function Dropped(f: Fields, works: bool): (Fields, bool) {
    if f.refs == 0 then (f, false)
    else if f.refs > 1 then (f.(refs := f.refs - 1), false)
    else if works then (Fields(0, false, f.queued), false)
    else (f, true)
  }

  /** The locked part of rknpu_power_put_delay. Queueing work that is queued already changes nothing. */
  function Delayed(f: Fields): Fields {
    if f.refs == 1 then f.(queued := true)
    else if f.refs == 0 then f
    else f.(refs := f.refs - 1)
  }

  class Device {
    var refs: nat
    var powered: bool
    var queued: bool

    function State(): Fields
      reads this
    {
      Fields(refs, powered, queued)
    }

    constructor ()
      ensures State() == Fields(0, false, false)
    {
      refs, powered, queued := 0, false, false;
    }

    /** Power sequencing either takes effect or leaves the supply as it was. */
    method Switch(on: bool) returns (works: bool)
      modifies `powered
      ensures powered == if works then on else old(powered)
    {
      works := *;
      if works { powered := on; }
    }

    method Get() returns (ok: bool, ghost works: bool)
      modifies this
      ensures (State(), ok) == Got(old(State()), works)
      ensures ok <==> old(refs) > 0 || works
      ensures refs == old(refs) + (if ok then 1 else 0) && queued == old(queued)
      ensures powered == if old(refs) == 0 && ok then true else old(powered)
    {
      refs, ok, works := refs + 1, true, true;
      if refs == 1 {
        var switched := Switch(true);
        works := switched;
        if !switched {
          refs, ok := refs - 1, false;
        }
      }
    }

    method Drop() returns (retry: bool, ghost works: bool)
      modifies this
      ensures (State(), retry) == Dropped(old(State()), works)
      ensures retry <==> old(refs) == 1 && !works
      ensures refs == (if old(refs) > 0 && !retry then old(refs) - 1 else old(refs)) && queued == old(queued)
      ensures powered == if old(refs) == 1 && !retry then false else old(powered)
    {
      retry, works := false, true;
      if refs > 0 {
        refs := refs - 1;
        if refs == 0 {
          var switched := Switch(false);
          works := switched;
          if !switched {
            refs, retry := refs + 1, true;
          }
        }
      }
    }

    method PutDelay()
      modifies this
      ensures State() == Delayed(old(State()))
      ensures refs == (if old(refs) > 1 then old(refs) - 1 else old(refs)) && powered == old(powered)
      ensures queued <==> old(queued) || old(refs) == 1
    {
      if refs == 1 {
        queued := true;
      } else if refs > 0 {
        refs := refs - 1;
      }
    }
  }

  // All callers, the work queue and the retries, interleaved.

  /** `live` holders, `retries` that have to call rknpu_power_put_delay after a failed switch-off, and whether the work
      has left the queue but not yet taken the lock. */
  datatype System = System(fields: Fields, live: nat, retries: nat, working: bool)

  datatype Event = Get(works: bool) | Put(works: bool) | PutDelay | Retry | Fire | Work(works: bool)

  predicate Enabled(s: System, e: Event) {
    match e
    case Get(_) => true
    case Put(_) => s.live > 0
    case PutDelay => s.live > 0
    case Retry => s.retries > 0
    case Fire => s.fields.queued && !s.working
    case Work(_) => s.working
  }

  function Bit(b: bool): nat { if b then 1 else 0 }

  function After(s: System, e: Event): System
    requires Enabled(s, e)
  {
    match e
    case Get(works) =>
      var (f, ok) := Got(s.fields, works);
      s.(fields := f, live := s.live + Bit(ok))
    case Put(works) =>
      var (f, retry) := Dropped(s.fields, works);
      s.(fields := f, live := s.live - 1, retries := s.retries + Bit(retry))
    case PutDelay => s.(fields := Delayed(s.fields), live := s.live - 1)
    case Retry => s.(fields := Delayed(s.fields), retries := s.retries - 1)
    case Fire => s.(fields := s.fields.(queued := false), working := true)
    case Work(works) =>
      var (f, retry) := Dropped(s.fields, works);
      s.(fields := f, working := false, retries := s.retries + Bit(retry))
  }

  /** The count is the holders plus the delayed puts still to come, and the supply is on exactly while it is positive. */
  predicate Inv(s: System) {
    && s.fields.refs == s.live + s.retries + Bit(s.fields.queued) + Bit(s.working)
    && (s.fields.powered <==> s.fields.refs > 0)
  }

  lemma StepKeeps(s: System, e: Event)
    requires Inv(s) && Enabled(s, e)
    ensures Inv(After(s, e))
  {
  }

  /** Whoever asks for the delayed work finds it neither queued nor on its way, so that no request is swallowed. */
  lemma RequestNeverLost(s: System, e: Event)
    requires Inv(s) && Enabled(s, e) && (e == PutDelay || e == Retry) && s.fields.refs == 1
    ensures !s.fields.queued && !s.working && After(s, e).fields.queued
  {
  }

  predicate Run(states: seq<System>, events: seq<Event>) {
    && |states| == |events| + 1
    && states[0] == System(Fields(0, false, false), 0, 0, false)
    && forall k :: 0 <= k < |events| ==> Enabled(states[k], events[k]) && states[k + 1] == After(states[k], events[k])
  }

  /** Over every run, with any number of failed switch-offs and retries. */
  lemma {:induction false} RunKeeps(states: seq<System>, events: seq<Event>, k: nat)
    requires Run(states, events) && k < |states|
    ensures Inv(states[k])
  {
    if k > 0 {
      RunKeeps(states, events, k - 1);
      StepKeeps(states[k - 1], events[k - 1]);
    }
  }

  /** As long as anyone holds a reference the device stays on; and a device nobody holds any more is off, or its
      switch-off is queued, running or about to be retried. */
  lemma PoweredWhileHeld(states: seq<System>, events: seq<Event>, k: nat)
    requires Run(states, events) && k < |states|
    ensures states[k].live > 0 ==> states[k].fields.powered
    ensures states[k].live == 0 && states[k].fields.powered ==>
      states[k].fields.queued || states[k].working || states[k].retries > 0
  {
    RunKeeps(states, events, k);
  }

  /** A request for power is only ever refused when the device was off and could not be switched on. */
  lemma GetGranted(s: System, works: bool)
    requires Inv(s)
    ensures s.fields.powered || works ==> After(s, Get(works)).live == s.live + 1 && After(s, Get(works)).fields.powered
    ensures !s.fields.powered && !works ==> After(s, Get(works)) == s
  {
  }

  /** The steps that follow from a put: a retry, the work leaving its queue, and the work itself. */
  predicate Own(e: Event) {
    e == Retry || e == Fire || e.Work?
  }

  /** How far a device nobody holds is from being off. */
  function Due(s: System): nat {
    3 * s.retries + 2 * Bit(s.fields.queued) + Bit(s.working)
  }

  lemma DueStep(s: System, e: Event)
    requires Inv(s) && s.live == 0 && Enabled(s, e) && (e == Retry || e == Fire || e == Work(true))
    ensures After(s, e).live == 0 && Due(After(s, e)) < Due(s)
  {
    match e
    case Retry =>
    case Fire =>
    case Work(_) =>
  }

  /** Once nobody holds the device and switching off works, it is off after at most `Due` more of these steps, of which
      there is always one until then. */
  lemma SettlesOff(s: System, e: Event)
    requires Inv(s) && s.live == 0
    ensures s.fields.powered <==> Enabled(s, Retry) || Enabled(s, Fire) || Enabled(s, Work(true))
    ensures Own(e) && e != Work(false) && Enabled(s, e) ==> After(s, e).live == 0 && Due(After(s, e)) < Due(s)
  {
    if Own(e) && e != Work(false) && Enabled(s, e) {
      DueStep(s, e);
    }
  }
}
