/** Cancelling, closing the window and releasing the write gate: WriteControl, and its use around the helper process. */
module Control {

  datatype Stage = Idle | Preparing | Cancelled | Writing | Closing

  datatype Result = Ok | Err(code: string)

  /** The two fields that the lock protects. */
  datatype Fields = Fields(stage: Stage, writing: bool)

  function Begun(f: Fields): (Fields, Result) {
    if f.stage == Closing then (f, Err("STORAGE_CANCELLED")) else (f.(stage := Preparing), Ok)
  }

  function CancelledBy(f: Fields): (Fields, Result) {
    match f.stage
    case Writing => (f, Err("WRITE_IN_PROGRESS"))
    case Idle => (f, Err("NO_OPERATION"))
    case Closing => (f, Err("STORAGE_CANCELLED"))
    case _ => (f.(stage := Cancelled), Ok)
  }

  function ClosedBy(f: Fields): (Fields, bool) {
    if f.writing then (f, true) else (f.(stage := Closing), false)
  }

  function Permitted(f: Fields): (Fields, bool) {
    if f.stage != Preparing then (f, false) else (Fields(Writing, true), true)
  }

  function Ended(f: Fields): Fields {
    Fields(if f.stage == Closing then Closing else Idle, false)
  }

  class WriteControl {
    var stage: Stage
    var writing: bool

    function State(): Fields
      reads this
    {
      Fields(stage, writing)
    }

    constructor ()
      ensures State() == Fields(Idle, false)
    {
      stage := Idle;
      writing := false;
    }

    method Begin() returns (r: Result)
      modifies this
      ensures (State(), r) == Begun(old(State()))
      ensures r == if old(stage) == Closing then Err("STORAGE_CANCELLED") else Ok
      ensures stage == if r.Ok? then Preparing else Closing
      ensures writing == old(writing)
    {
      if stage == Closing { return Err("STORAGE_CANCELLED"); }
      stage := Preparing;
      return Ok;
    }

    method Cancel() returns (r: Result)
      modifies this
      ensures (State(), r) == CancelledBy(old(State()))
      ensures r.Ok? <==> old(stage) == Preparing || old(stage) == Cancelled
      ensures stage == if r.Ok? then Cancelled else old(stage)
      ensures r.Err? ==> r.code == if old(stage) == Writing then "WRITE_IN_PROGRESS"
                                   else if old(stage) == Idle then "NO_OPERATION" else "STORAGE_CANCELLED"
      ensures writing == old(writing)
    {
      if stage == Writing { return Err("WRITE_IN_PROGRESS"); }
      if stage == Idle { return Err("NO_OPERATION"); }
      if stage == Closing { return Err("STORAGE_CANCELLED"); }
      stage := Cancelled;
      return Ok;
    }

    method CloseBlocked() returns (blocked: bool)
      modifies this
      ensures (State(), blocked) == ClosedBy(old(State()))
      ensures blocked == old(writing) == writing
      ensures stage == if blocked then old(stage) else Closing
    {
      if writing { return true; }
      stage := Closing;
      return false;
    }

    /** Both fields are set before the byte goes out, so that nothing can slip in between; the pipe itself may fail. */
    method Permit() returns (r: Result, sent: bool)
      modifies this
      ensures State() == Permitted(old(State())).0
      ensures old(stage) == Preparing ==> stage == Writing && writing && (r.Err? ==> r.code == "HELPER_WRITE_GATE")
      ensures old(stage) != Preparing ==> r == Err("STORAGE_CANCELLED") && !sent && State() == old(State())
      ensures r.Ok? ==> sent
    {
      if stage != Preparing { return Err("STORAGE_CANCELLED"), false; }
      writing := true;
      stage := Writing;
      sent := *;
      var flushed: bool := *;
      r := if sent && flushed then Ok else Err("HELPER_WRITE_GATE");
    }

    method Finish()
      modifies this
      ensures State() == Ended(old(State()))
      ensures !writing && stage == if old(stage) == Closing then Closing else Idle
    {
      if stage != Closing { stage := Idle; }
      writing := false;
    }
  }

  // The host thread of storage_execute, the helper process it runs, and the window's own events, interleaved.

  datatype Host = Waiting | Running | Killing | Returning
  datatype Helper = Absent | Preflight | AtGate | Flashing

  /** `asked` says whether the helper has reported ready and was not answered yet, which outlives the helper; `pipe`
      whether the permit byte is on its way; `writes` counts the eMMC writes; the last two remember that
      cancel answered Ok in the operation that is running, and that close_blocked ever answered false. */
  datatype System = System(control: Fields, host: Host, helper: Helper, asked: bool, pipe: bool, writes: nat,
                           cancelled: bool, closed: bool)

  datatype Event =
    | Begin | Cancel | Close                     // window
    | Permit(sent: bool, flushed: bool)          // host, when it reads that the helper is ready to write
    | Kill | NoticeCancel | Timeout | NoticeExit | Finish  // host
    | Ready | Proceed | Write | Exit             // helper

  predicate Enabled(s: System, e: Event) {
    match e
    case Begin => s.host == Waiting
    case Cancel => true
    case Close => true
    case Permit(_, _) => s.host == Running && s.asked
    case Kill => s.host == Killing
    case NoticeCancel => s.host == Running && (s.control.stage == Cancelled || s.control.stage == Closing)
    case Timeout => s.host == Running
    case NoticeExit => s.host == Running && s.helper == Absent
    case Finish => s.host == Returning
    case Ready => s.helper == Preflight
    case Proceed => s.helper == AtGate && s.pipe
    case Write => s.helper == Flashing
    case Exit => s.helper != Absent
  }

  function After(s: System, e: Event): System {
    match e
    case Begin =>
      var (c, r) := Begun(s.control);
      if r.Err? then s
      else s.(control := c, host := Running, helper := Preflight, asked := false, pipe := false, cancelled := false)
    case Cancel =>
      var (c, r) := CancelledBy(s.control);
      s.(control := c, cancelled := s.cancelled || r.Ok?)
    case Close =>
      var (c, blocked) := ClosedBy(s.control);
      s.(control := c, closed := s.closed || !blocked)
    case Permit(sent, flushed) =>
      var (c, granted) := Permitted(s.control);
      s.(control := c, asked := false, pipe := granted && sent,
         host := if granted && sent && flushed then Running else Killing)
    case Kill => s.(helper := Absent, asked := false, pipe := false, host := Returning)
    case NoticeCancel => s.(helper := Absent, asked := false, pipe := false, host := Returning)
    case Timeout => s.(helper := Absent, asked := false, pipe := false, host := Returning)
    case NoticeExit => s.(asked := false, pipe := false, host := Returning)
    case Finish => s.(control := Ended(s.control), host := Waiting, cancelled := false)
    case Ready => s.(helper := AtGate, asked := true)
    case Proceed => s.(helper := Flashing, pipe := false)
    case Write => s.(writes := s.writes + 1)
    case Exit => s.(helper := Absent)
  }

  predicate Inv(s: System) {
    && (s.control.writing <==> s.control.stage == Writing)
    && (s.closed <==> s.control.stage == Closing)
    && (s.host == Waiting ==> s.helper == Absent && !s.asked && !s.pipe && !s.cancelled
                              && (s.control.stage == Idle || s.control.stage == Closing))
    && (s.host == Returning ==> s.helper == Absent && !s.asked && !s.pipe)
    && (s.host != Waiting ==> s.control.stage != Idle)
    && (s.pipe || s.helper == Flashing ==> s.control.stage == Writing)
    && (s.cancelled ==> s.control.stage == Cancelled || s.control.stage == Closing)
  }

  predicate Run(states: seq<System>, events: seq<Event>) {
    && |states| == |events| + 1
    && states[0] == System(Fields(Idle, false), Waiting, Absent, false, false, 0, false, false)
    && forall k :: 0 <= k < |events| ==> Enabled(states[k], events[k]) && states[k + 1] == After(states[k], events[k])
  }

  lemma StepKeeps(s: System, e: Event)
    requires Inv(s) && Enabled(s, e)
    ensures Inv(After(s, e))
    ensures s.closed ==> After(s, e).closed
  {
  }

  lemma {:induction false} RunKeeps(states: seq<System>, events: seq<Event>, k: nat)
    requires Run(states, events) && k < |states|
    ensures Inv(states[k])
  {
    if k > 0 {
      RunKeeps(states, events, k - 1);
      StepKeeps(states[k - 1], events[k - 1]);
    }
  }

  lemma {:induction false} ClosedStays(states: seq<System>, events: seq<Event>, i: nat, k: nat)
    requires Run(states, events) && i <= k < |states| && states[i].closed
    ensures states[k].closed
    decreases k
  {
    if i < k {
      ClosedStays(states, events, i, k - 1);
      RunKeeps(states, events, k - 1);
      StepKeeps(states[k - 1], events[k - 1]);
    }
  }

  /** A permit byte goes out, or a sector is written, only in an operation that was not cancelled and before the window
      was ever allowed to close; from then on until the host has finished, cancelling fails and closing is refused. */
  lemma WriteNeedsPermission(states: seq<System>, events: seq<Event>, k: nat)
    requires Run(states, events) && k < |events|
    requires states[k + 1].pipe || events[k] == Proceed || events[k] == Write
    ensures !states[k].cancelled && !states[k].closed
    ensures After(states[k + 1], Cancel) == states[k + 1] == After(states[k + 1], Close)
    ensures states[k + 1].control.writing
  {
    RunKeeps(states, events, k);
    RunKeeps(states, events, k + 1);
  }

  /** If closing was ever allowed, no later permission and no later write, in this operation or any other. */
  lemma NothingAfterClose(states: seq<System>, events: seq<Event>, i: nat, k: nat)
    requires Run(states, events) && i < |events| && i < k < |events|
    requires events[i] == Close && !states[i].control.writing
    ensures !states[k + 1].pipe && events[k] != Proceed && events[k] != Write
    ensures After(states[k], Begin) == states[k]
  {
    ClosedStays(states, events, i + 1, k);
    ClosedStays(states, events, i + 1, k + 1);
    RunKeeps(states, events, k);
    RunKeeps(states, events, k + 1);
  }

  lemma {:induction false} CancelledStays(states: seq<System>, events: seq<Event>, i: nat, k: nat)
    requires Run(states, events) && i <= k < |states| && states[i].cancelled
    requires forall j :: i <= j < k ==> events[j] != Finish
    ensures states[k].cancelled
    decreases k
  {
    if i < k {
      CancelledStays(states, events, i, k - 1);
      RunKeeps(states, events, k - 1);
    }
  }

  predicate Unwritten(s: System) {
    && s.host != Waiting && !s.closed
    && (s.control.stage == Preparing || s.control.stage == Cancelled)
  }

  lemma StepUnwritten(s: System, e: Event)
    requires Inv(s) && Enabled(s, e) && Open(s, e) && !s.closed
    requires if s.host == Waiting then e == Begin else Unwritten(s) && e != Finish && Unpermitted(s, e)
    ensures Unwritten(After(s, e))
  {
  }

  /** What an operation can have become by its `k`th event if no permit found it preparing and no close found it not
      writing: it is preparing, or already cancelled. */
  lemma {:induction false} StillPreparing(states: seq<System>, events: seq<Event>, i: nat, k: nat)
    requires Run(states, events) && i < k < |states|
    requires events[i] == Begin && states[i].host == Waiting
    requires forall j :: 0 <= j < k ==> Open(states[j], events[j])
    requires forall j :: i < j < k ==> events[j] != Finish && Unpermitted(states[j], events[j])
    ensures Unwritten(states[k])
    decreases k
  {
    if i < k - 1 {
      StillPreparing(states, events, i, k - 1);
      assert events[k - 1] != Finish && Unpermitted(states[k - 1], events[k - 1]);
    }
    StaysOpen(states, events, k - 1);
    RunKeeps(states, events, k - 1);
    assert Open(states[k - 1], events[k - 1]);
    StepUnwritten(states[k - 1], events[k - 1]);
  }

  /** Not the moment in which the window is allowed to close. */
  predicate Open(s: System, e: Event) {
    e == Close ==> s.control.writing
  }

  /** Not the moment in which the permission is given. */
  predicate Unpermitted(s: System, e: Event) {
    e.Permit? ==> s.control.stage != Preparing
  }

  lemma {:induction false} StaysOpen(states: seq<System>, events: seq<Event>, k: nat)
    requires Run(states, events) && k < |states|
    requires forall j :: 0 <= j < k ==> Open(states[j], events[j])
    ensures !states[k].closed
  {
    if k > 0 {
      StaysOpen(states, events, k - 1);
      assert Open(states[k - 1], events[k - 1]);
    }
  }

  /** Cancelling an operation that was not permitted to write, in a window that is not closing, always works: the
      operation is cancelled, and no permission and no write follows before the host has finished it. */
  lemma CancelTakesEffect(states: seq<System>, events: seq<Event>, i: nat, k: nat, m: nat)
    requires Run(states, events) && i < k < m < |events|
    requires events[i] == Begin && states[i].host == Waiting && events[k] == Cancel
    requires forall j :: 0 <= j < k ==> Open(states[j], events[j])
    requires forall j :: i < j < k ==> events[j] != Finish && Unpermitted(states[j], events[j])
    requires forall j :: k < j <= m ==> events[j] != Finish
    ensures states[k + 1].cancelled && states[k + 1].control.stage == Cancelled && states[k + 1].host != Waiting
    ensures !states[m + 1].pipe && events[m] != Proceed && events[m] != Write
  {
    StillPreparing(states, events, i, k);
    assert states[k + 1] == After(states[k], Cancel);
    NothingAfterCancel(states, events, k, m);
  }

  /** Once a cancel has found the operation preparing, no permission and no write before the host has finished it. */
  lemma NothingAfterCancel(states: seq<System>, events: seq<Event>, i: nat, k: nat)
    requires Run(states, events) && i < k < |events|
    requires events[i] == Cancel && (states[i].control.stage == Preparing || states[i].control.stage == Cancelled)
    requires forall j :: i < j <= k ==> events[j] != Finish
    ensures !states[k + 1].pipe && events[k] != Proceed && events[k] != Write
  {
    CancelledStays(states, events, i + 1, k);
    CancelledStays(states, events, i + 1, k + 1);
    RunKeeps(states, events, k);
    RunKeeps(states, events, k + 1);
  }

  // What can always happen.

  predicate OfHost(e: Event) {
    e.Permit? || e == Kill || e == NoticeCancel || e == Timeout || e == NoticeExit || e == Finish
  }

  /** How many steps the host of a cancelled operation has left at most. */
  function Left(h: Host): nat {
    match h
    case Waiting => 0
    case Returning => 1
    case Killing => 2
    case Running => 3
  }

  /** The host of a cancelled operation is never stuck before it has finished: it has a step, and whichever it takes,
      and whatever the window and the helper do meanwhile, fewer than three more are left. */
  lemma CancelledEnds(s: System, e: Event)
    requires Inv(s) && s.cancelled
    ensures Enabled(s, Kill) || Enabled(s, NoticeCancel) || Enabled(s, Finish)
    ensures Enabled(s, e) ==> Left(After(s, e).host) <= Left(s.host) - if OfHost(e) then 1 else 0
    ensures Enabled(s, e) && e != Finish ==> After(s, e).cancelled && After(s, e).writes == s.writes
  {
  }

  function AfterAll(s: System, path: seq<Event>): System
    decreases |path|
  {
    if path == [] then s else AfterAll(After(s, path[0]), path[1..])
  }

  ghost predicate CanGo(s: System, path: seq<Event>)
    decreases |path|
  {
    path == [] || (Enabled(s, path[0]) && CanGo(After(s, path[0]), path[1..]))
  }

  /** After any run whose window was never allowed to close, the host can finish what it is doing in at most three steps
      of its own, and the next operation can get its permission and write. */
  lemma WritesAgain(states: seq<System>, events: seq<Event>) returns (rest: seq<Event>, next: seq<Event>)
    requires Run(states, events)
    requires forall j :: 0 <= j < |events| ==> Open(states[j], events[j])
    ensures |rest| <= 3 && (forall e :: e in rest ==> OfHost(e)) && CanGo(states[|events|], rest)
    ensures AfterAll(states[|events|], rest).host == Waiting
    ensures AfterAll(states[|events|], rest).writes == states[|events|].writes
    ensures next == [Begin, Ready, Permit(true, true), Proceed, Write]
    ensures CanGo(AfterAll(states[|events|], rest), next)
    ensures AfterAll(AfterAll(states[|events|], rest), next).writes == states[|events|].writes + 1
  {
    StaysOpen(states, events, |events|);
    RunKeeps(states, events, |events|);
    var s := states[|events|];
    next := [Begin, Ready, Permit(true, true), Proceed, Write];
    var idle: System;
    rest, idle := Finishing(s);
    NextWrites(idle);
  }

  lemma Finishing(s: System) returns (rest: seq<Event>, idle: System)
    requires Inv(s) && !s.closed
    ensures |rest| <= 3 && (forall e :: e in rest ==> OfHost(e)) && CanGo(s, rest) && AfterAll(s, rest) == idle
    ensures Inv(idle) && !idle.closed && idle.host == Waiting && idle.writes == s.writes
  {
    if s.host == Waiting {
      rest, idle := [], s;
    } else {
      var t := if s.host == Running then After(s, Timeout) else if s.host == Killing then After(s, Kill) else s;
      idle := After(t, Finish);
      OneStep(t, Finish);
      if s.host == Returning {
        rest := [Finish];
      } else {
        rest := [if s.host == Running then Timeout else Kill, Finish];
        TwoSteps(s, rest[0], Finish);
      }
    }
  }

  lemma OneStep(s: System, e: Event)
    ensures AfterAll(s, [e]) == After(s, e)
    ensures CanGo(s, [e]) <==> Enabled(s, e)
  {
    assert [e][1..] == [];
  }

  lemma TwoSteps(s: System, e: Event, f: Event)
    ensures AfterAll(s, [e, f]) == After(After(s, e), f)
    ensures CanGo(s, [e, f]) <==> Enabled(s, e) && Enabled(After(s, e), f)
  {
    assert [e, f][1..] == [f];
    OneStep(After(s, e), f);
  }

  lemma FirstOf(s: System, e: Event, path: seq<Event>)
    ensures AfterAll(s, [e] + path) == AfterAll(After(s, e), path)
    ensures CanGo(s, [e] + path) <==> Enabled(s, e) && CanGo(After(s, e), path)
  {
    assert ([e] + path)[1..] == path;
  }

  lemma NextWrites(s: System)
    requires Inv(s) && !s.closed && s.host == Waiting
    ensures CanGo(s, [Begin, Ready, Permit(true, true), Proceed, Write])
    ensures AfterAll(s, [Begin, Ready, Permit(true, true), Proceed, Write]).writes == s.writes + 1
  {
    var t := After(After(s, Begin), Ready);
    PermittedWrites(t);
    FirstOf(After(s, Begin), Ready, [Permit(true, true), Proceed, Write]);
    FirstOf(s, Begin, [Ready, Permit(true, true), Proceed, Write]);
    assert [Ready] + [Permit(true, true), Proceed, Write] == [Ready, Permit(true, true), Proceed, Write];
    assert [Begin] + [Ready, Permit(true, true), Proceed, Write] == [Begin, Ready, Permit(true, true), Proceed, Write];
  }

  lemma PermittedWrites(s: System)
    requires s.host == Running && s.helper == AtGate && s.asked && s.control.stage == Preparing
    ensures CanGo(s, [Permit(true, true), Proceed, Write])
    ensures AfterAll(s, [Permit(true, true), Proceed, Write]).writes == s.writes + 1
  {
    var t := After(s, Permit(true, true));
    TwoSteps(t, Proceed, Write);
    FirstOf(s, Permit(true, true), [Proceed, Write]);
    assert [Permit(true, true)] + [Proceed, Write] == [Permit(true, true), Proceed, Write];
  }
}
