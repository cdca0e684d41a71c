/** The multi-core job scheduler of the NPU driver as interleaved atomic steps of its threads and interrupts. */
module Scheduler {
  import opened Common

  // Core masks.

  predicate CoreIn(mask: nat, c: nat) {
    if c == 0 then mask % 2 == 1
    else if c == 1 then mask / 2 % 2 == 1
    else c == 2 && mask / 4 % 2 == 1
  }

  /** The cores `rknpu_job_commit` names for a mask: its switch knows five of them. */
  predicate Started(mask: nat, c: nat) {
    match mask
    case 1 => c == 0
    case 2 => c == 1
    case 4 => c == 2
    case 3 => c == 0 || c == 1
    case 7 => c <= 2
    case _ => false
  }

  /** Of the masks that name a core, these are the ones all of whose cores are named. */
  lemma StartedMasks(mask: nat)
    requires 1 <= mask <= 7
    ensures (forall c :: 0 <= c < 3 ==> (Started(mask, c) <==> CoreIn(mask, c))) <==> mask != 5 && mask != 6
  {
    assert CoreIn(5, 0) && !Started(5, 0);
    assert CoreIn(6, 1) && !Started(6, 1);
    match mask {
      case 1 =>
      case 2 =>
      case 3 =>
      case 4 =>
      case 7 =>
      case _ =>
    }
  }

  // Tasks and slices.

  /** A request: `pc` is its RKNPU_JOB_PC flag, `tasks` the interrupts that each task of its task object asks for, if it
      has such an object. */
  datatype Arguments = Arguments(mask: nat, start: nat, number: nat, subcore: seq<(nat, nat)>,
                                 pc: bool, tasks: Option<seq<nat>>)

  /** The commit gets as far as starting the core: `rknpu_job_subcore_commit` gives up without PC mode, and behind it
      `rknpu_job_subcore_commit_pc` without a task object. */
  predicate Starts(a: Arguments, c: nat) {
    a.pc && a.tasks.Some? && Started(a.mask, c)
  }

  function CoresUsed(mask: nat): nat {
    mask % 2 + mask / 2 % 2 + mask / 4 % 2
  }

  /** First task and number of tasks of core `c`: the table has its own rows for three-core jobs. */
  function Part(a: Arguments, n: nat, c: nat): (nat, nat)
    requires |a.subcore| == 5 && c < 3
  {
    if n == 1 then (a.start, a.number)
    else if CoresUsed(a.mask) == 3 then a.subcore[c + 2]
    else if CoresUsed(a.mask) == 0 then (a.start, a.number)
    else a.subcore[c]
  }

  /** Where `Part` and `Slices` are defined: the fixed size of the table, and a limit that is not zero. */
  predicate Located(a: Arguments, max: nat, c: nat) {
    |a.subcore| == 5 && max > 0 && c < 3
  }

  /** How many times the hardware is started for a part. */
  function Slices(number: nat, max: nat): nat
    requires max > 0
  {
    (number + max - 1) / max
  }

  /** First task and number of tasks of the `k`-th start. */
  function Slice(part: (nat, nat), max: nat, k: nat): (int, int) {
    (part.0 + k * max, if part.1 - k * max > max then max else part.1 - k * max)
  }

  lemma SlicesBound(number: nat, max: nat, k: nat)
    requires max > 0
    ensures k < Slices(number, max) <==> k * max < number
    ensures k == Slices(number, max) ==> k * max >= number
  {
    var q := Slices(number, max);
    assert q * max <= number + max - 1 < q * max + max;
    if k < q {
      Multiples(k + 1, q, max);
      assert (k + 1) * max == k * max + max;
    } else {
      Multiples(q, k, max);
    }
  }

  lemma Multiples(a: nat, b: nat, m: nat)
    requires a <= b
    ensures a * m <= b * m
  {
  }

  /** The slices tile the part: each starts where the one before ended, none is empty or over the limit, and together
      they end exactly at the last task. */
  lemma SlicesTile(part: (nat, nat), max: nat, k: nat)
    requires max > 0 && k < Slices(part.1, max)
    ensures Slice(part, max, 0).0 == part.0
    ensures 0 < Slice(part, max, k).1 <= max
    ensures k + 1 < Slices(part.1, max) ==> Slice(part, max, k + 1).0 == Slice(part, max, k).0 + Slice(part, max, k).1
    ensures k + 1 == Slices(part.1, max) ==> Slice(part, max, k).0 + Slice(part, max, k).1 == part.0 + part.1
  {
    SlicesBound(part.1, max, k);
    SlicesBound(part.1, max, k + 1);
    assert (k + 1) * max == k * max + max;
  }

  /** `rknpu_schedule_core_index`: the least loaded core, the first of them if several are. */
  method ScheduleCoreIndex(load: seq<int>) returns (c: nat)
    requires |load| > 0
    ensures c < |load|
    ensures forall i :: 0 <= i < |load| ==> load[c] <= load[i]
    ensures forall i :: 0 <= i < c ==> load[c] < load[i]
  {
    c := 0;
    var least, i := load[0], 1;
    while i < |load|
      invariant 1 <= i <= |load| && c < i && least == load[c]
      invariant forall k :: 0 <= k < i ==> load[c] <= load[k]
      invariant forall k :: 0 <= k < c ==> load[c] < load[k]
    {
      if least > load[i] {
        c, least := i, load[i];
      }
      i := i + 1;
    }
  }

  // Interrupts.

  /** Both bits of each of the lowest `k` pairs, if one of them is set. */
  function Pairs(status: nat, k: nat): nat {
    if k == 0 then 0 else (if status % 4 != 0 then 3 else 0) + 4 * Pairs(status / 4, k - 1)
  }

  /** `rknpu_fuzz_status`: six pairs. */
  function Fuzz(status: nat): nat {
    Pairs(status, 6)
  }

  function Pow4(i: nat): (n: nat)
    ensures n > 0
  {
    if i == 0 then 1 else 4 * Pow4(i - 1)
  }

  lemma {:induction false} PairAt(status: nat, k: nat, i: nat)
    requires i < k
    ensures Pairs(status, k) / Pow4(i) % 4 == if status / Pow4(i) % 4 == 0 then 0 else 3
    decreases k
  {
    var digit, rest := if status % 4 != 0 then 3 else 0, Pairs(status / 4, k - 1);
    assert (digit + 4 * rest) % 4 == digit && (digit + 4 * rest) / 4 == rest;
    if i > 0 {
      PairAt(status / 4, k - 1, i - 1);
      Quarter(status, Pow4(i - 1));
      Quarter(digit + 4 * rest, Pow4(i - 1));
    }
  }

  lemma Quarter(n: nat, d: nat)
    requires d > 0
    ensures n / (4 * d) == n / 4 / d
  {
    var q, r := n / 4 / d, n / 4 % d;
    assert n == 4 * (q * d + r) + n % 4;
    assert n == (4 * d) * q + (4 * r + n % 4);
    assert 4 * r + n % 4 < 4 * d;
    Quotient(n, 4 * d, q, 4 * r + n % 4);
  }

  lemma Quotient(n: nat, d: nat, q: nat, r: nat)
    requires r < d && n == d * q + r
    ensures n / d == q
  {
    if n / d < q {
      Multiples(n / d + 1, q, d);
    } else if n / d > q {
      Multiples(q + 1, n / d, d);
    }
  }

  /** Of each of the lowest six pairs of bits, both are set if one of them was, and neither otherwise; no others are. */
  lemma FuzzPairs(status: nat, i: nat)
    ensures i < 6 ==> Fuzz(status) / Pow4(i) % 4 == if status / Pow4(i) % 4 == 0 then 0 else 3
    ensures Fuzz(status) < Pow4(6)
  {
    PairsBound(status, 6);
    if i < 6 {
      PairAt(status, 6, i);
    }
  }

  lemma {:induction false} PairsBound(status: nat, k: nat)
    ensures Pairs(status, k) < Pow4(k)
  {
    if k > 0 {
      PairsBound(status / 4, k - 1);
    }
  }

  /** Some status is taken for the completion of a slice whose last task asks for `mask`. A slice that asks for no
      interrupt gets none. */
  predicate Answered(mask: nat) {
    mask != 0 && Fuzz(mask) == mask
  }

  lemma {:induction false} PairsTwice(status: nat, k: nat)
    ensures Pairs(Pairs(status, k), k) == Pairs(status, k)
    decreases k
  {
    if k > 0 {
      var digit, rest := if status % 4 != 0 then 3 else 0, Pairs(status / 4, k - 1);
      assert (digit + 4 * rest) % 4 == digit && (digit + 4 * rest) / 4 == rest;
      PairsTwice(status / 4, k - 1);
    }
  }

  lemma FuzzTwice(status: nat)
    ensures Fuzz(Fuzz(status)) == Fuzz(status)
  {
    PairsTwice(status, 6);
  }

  /** The masks that some status matches are those made of whole pairs. */
  lemma AnsweredExactly(mask: nat)
    ensures Answered(mask) <==> mask != 0 && exists status :: Fuzz(status) == mask
  {
    if mask != 0 && exists status :: Fuzz(status) == mask {
      var status :| Fuzz(status) == mask;
      FuzzTwice(status);
    }
  }

  /** What the last task of the `k`-th slice on core `c` asks for. */
  function SliceMask(a: Arguments, n: nat, max: nat, c: nat, k: nat): nat {
    if !Located(a, max, c) || a.tasks.None? then 0
    else
      var slice := Slice(Part(a, n, c), max, k);
      var last := slice.0 + slice.1 - 1;
      if 0 <= last < |a.tasks.value| then a.tasks.value[last] else 0
  }

  /** The first `k` slices on core `c` can all be answered. */
  predicate AnsweredUpTo(a: Arguments, n: nat, max: nat, c: nat, k: nat) {
    forall i {:trigger SliceMask(a, n, max, c, i)} :: 0 <= i < k ==> Answered(SliceMask(a, n, max, c, i))
  }

  lemma AnsweredNext(a: Arguments, n: nat, max: nat, c: nat, k: nat)
    requires AnsweredUpTo(a, n, max, c, k) && Answered(SliceMask(a, n, max, c, k))
    ensures AnsweredUpTo(a, n, max, c, k + 1)
  {
  }

  predicate CoreServable(a: Arguments, n: nat, max: nat, c: nat) {
    Starts(a, c) && Located(a, max, c) && AnsweredUpTo(a, n, max, c, Slices(Part(a, n, c).1, max))
  }

  /** Every core of its mask is started, and every slice on it answered. */
  predicate Servable(a: Arguments, n: nat, max: nat) {
    forall c :: 0 <= c < n && CoreIn(a.mask, c) ==> CoreServable(a, n, max, c)
  }

  predicate Masked(a: Arguments, n: nat, max: nat) {
    forall c :: 0 <= c < n && CoreIn(a.mask, c) ==>
      Located(a, max, c) && AnsweredUpTo(a, n, max, c, Slices(Part(a, n, c).1, max))
  }

  /** What a caller can check: PC mode, a task object, neither mask 5 nor 6, and whole pairs of interrupts. */
  lemma ServableExactly(a: Arguments, n: nat, max: nat)
    requires n <= 3 && Wellformed(a, n)
    ensures Servable(a, n, max) <==> a.pc && a.tasks.Some? && a.mask != 5 && a.mask != 6 && Masked(a, n, max)
  {
    var c :| 0 <= c < n && CoreIn(a.mask, c);
    StartedMasks(a.mask);
    if Servable(a, n, max) {
      assert CoreServable(a, n, max, c);
      forall d | 0 <= d < n && CoreIn(a.mask, d)
        ensures Located(a, max, d) && AnsweredUpTo(a, n, max, d, Slices(Part(a, n, d).1, max))
      {
        assert CoreServable(a, n, max, d);
      }
      if n == 3 && CoreIn(a.mask, 2) {
        assert CoreServable(a, n, max, 2);
      }
    }
  }

  // Jobs.

  /** Where one core of a job stands: not in the mask, queued, slot taken but not yet counted, counted, to be started by
      the commit in progress, on the hardware, slot freed but completion not yet counted, finished; or given up by the
      submitter. */
  datatype Phase = Out | Waiting | Taken | Ready | Starting | Running | Ending | Done | Gone

  predicate Holding(p: Phase) {
    p == Taken || p == Ready || p == Starting || p == Running
  }

  predicate Unready(p: Phase) {
    p == Waiting || p == Taken
  }

  predicate Unfinished(p: Phase) {
    p != Out && p != Done && p != Gone
  }

  function Count(f: Phase -> bool, row: seq<Phase>): nat {
    if row == [] then 0 else Count(f, row[..|row| - 1]) + if f(row[|row| - 1]) then 1 else 0
  }

  lemma {:induction false} CountUpdate(f: Phase -> bool, row: seq<Phase>, c: nat, p: Phase)
    requires c < |row|
    ensures Count(f, row[c := p]) == Count(f, row) + (if f(p) then 1 else 0) - (if f(row[c]) then 1 else 0)
  {
    if c < |row| - 1 {
      assert row[c := p][..|row| - 1] == row[..|row| - 1][c := p];
      CountUpdate(f, row[..|row| - 1], c, p);
    } else {
      assert row[c := p][..|row| - 1] == row[..|row| - 1];
    }
  }

  lemma {:induction false} CountZero(f: Phase -> bool, row: seq<Phase>)
    ensures Count(f, row) == 0 <==> forall c :: 0 <= c < |row| ==> !f(row[c])
  {
    if row != [] {
      CountZero(f, row[..|row| - 1]);
      assert forall c :: 0 <= c < |row| - 1 ==> row[..|row| - 1][c] == row[c];
    }
  }

  lemma {:induction false} CountSame(f: Phase -> bool, row: seq<Phase>, other: seq<Phase>)
    requires |row| == |other| && forall c :: 0 <= c < |row| ==> f(row[c]) == f(other[c])
    ensures Count(f, row) == Count(f, other)
  {
    if row != [] {
      CountSame(f, row[..|row| - 1], other[..|row| - 1]);
    }
  }

  /** A submitted job: its request, the two atomic counters, how often it was committed, and per core the phase and the
      number of slices completed. */
  datatype Job = Job(args: Arguments, domain: nat, run: nat, interrupts: nat, commits: nat,
                     row: seq<Phase>, sent: seq<nat>)

  function Queued(args: Arguments, n: nat): (row: seq<Phase>)
    ensures |row| == n
  {
    seq(n, c requires 0 <= c < n => if CoreIn(args.mask, c) then Waiting else Out)
  }

  function Fresh(args: Arguments, domain: nat, n: nat): Job {
    Job(args, domain, Count(Unready, Queued(args, n)), Count(Unfinished, Queued(args, n)), 0,
        Queued(args, n), seq(n, _ => 0))
  }

  function FullMask(n: nat): nat {
    if n == 1 then 1 else if n == 2 then 3 else 7
  }

  /** What `rknpu_submit` lets through, once a core is chosen, with at least one task for every core of the mask and all
      of its tasks in the task object, if there is one. */
  predicate Wellformed(a: Arguments, n: nat) {
    && |a.subcore| == 5 && a.mask <= FullMask(n)
    && (exists c :: 0 <= c < n && CoreIn(a.mask, c))
    && forall c :: 0 <= c < n && c < 3 && CoreIn(a.mask, c) ==>
         && Part(a, n, c).1 > 0
         && (a.tasks.Some? ==> Part(a, n, c).0 + Part(a, n, c).1 <= |a.tasks.value|)
  }

  predicate Settled(p: Phase, k: nat, slices: nat) {
    && (p == Running ==> k < slices)
    && (p == Out || p == Waiting || p == Taken || p == Ready || p == Starting || p == Gone ==> k == 0)
    && (p == Ending || p == Done ==> k == slices)
  }

  predicate JobOk(j: Job, n: nat, max: nat) {
    && max > 0 && n <= 3
    && |j.row| == |j.sent| == n && Wellformed(j.args, n)
    && j.run == Count(Unready, j.row)
    && j.interrupts == Count(Unfinished, j.row)
    && j.commits == (if j.run == 0 then 1 else 0)
    && forall c :: 0 <= c < n ==> CoreStateOk(j, n, max, c)
  }

  predicate CoreStateOk(j: Job, n: nat, max: nat, c: nat)
    requires max > 0 && c < n <= 3 && |j.row| == |j.sent| == n && |j.args.subcore| == 5
  {
    && (j.row[c] == Out <==> !CoreIn(j.args.mask, c))
    && (j.row[c] == Starting || j.row[c] == Running || j.row[c] == Ending || j.row[c] == Done ==>
          j.run == 0 && Starts(j.args, c))
    && (j.row[c] == Ready && j.run == 0 ==> !Starts(j.args, c))
    && (j.row[c] == Gone ==> j.run == 0 && !Starts(j.args, c))
    && AnsweredUpTo(j.args, n, max, c, j.sent[c])
    && Settled(j.row[c], j.sent[c], Slices(Part(j.args, n, c).1, max))
  }

  // The driver.

  /** `calls` are the invocations of rknpu_job_next still to run; `admitted` the jobs that hold the domain but are not
      queued yet; `others` the domains wanted by holders that are not jobs; `refs` the domain count, which C may
      take below zero. */
  datatype State = State(n: nat, max: nat, jobs: seq<Job>, todo: seq<seq<nat>>, slot: seq<Option<nat>>,
                         calls: multiset<nat>, admitted: seq<Job>, others: seq<nat>, domain: nat, refs: int)

  predicate Rows(s: State) {
    && s.n <= 3 && |s.todo| == |s.slot| == s.n && s.max > 0
    && forall t :: 0 <= t < |s.jobs| ==> JobOk(s.jobs[t], s.n, s.max)
  }

  /** The phases of all jobs on one core, by ticket. */
  function Column(s: State, c: nat): (col: seq<Phase>)
    requires Rows(s) && c < s.n
    ensures |col| == |s.jobs|
    ensures forall t :: 0 <= t < |col| ==> col[t] == s.jobs[t].row[c]
  {
    seq(|s.jobs|, t requires 0 <= t < |s.jobs| => assert JobOk(s.jobs[t], s.n, s.max); s.jobs[t].row[c])
  }

  /** The queue of a core holds exactly its waiting jobs, its slot exactly the job that holds it, and jobs leave the
      queue in the order they came. */
  predicate Served(col: seq<Phase>, todo: seq<nat>, slot: Option<nat>) {
    && (forall i, k :: 0 <= i < k < |todo| ==> todo[i] < todo[k])
    && (forall i :: 0 <= i < |todo| ==> todo[i] < |col| && col[todo[i]] == Waiting)
    && (forall t :: 0 <= t < |col| && col[t] == Waiting ==> t in todo)
    && (slot.Some? ==> slot.value < |col| && Holding(col[slot.value]))
    && (forall t :: 0 <= t < |col| && Holding(col[t]) ==> slot == Some(t))
    && (forall t, u :: 0 <= t < u < |col| && col[t] == Waiting ==> col[u] == Waiting || col[u] == Out)
  }

  /** A free core with work queued is going to be looked at: a call is pending, or a completion that ends in one. Only
      the abort of a job frees a core without a look. */
  predicate Watched(col: seq<Phase>, todo: seq<nat>, slot: Option<nat>, called: bool) {
    slot == None && todo != [] ==> called || Ending in col || Gone in col
  }

  predicate CoreOk(s: State, c: nat)
    requires Rows(s) && c < s.n
  {
    && Served(Column(s, c), s.todo[c], s.slot[c])
    && Watched(Column(s, c), s.todo[c], s.slot[c], c in s.calls)
  }

  predicate Inv(s: State) {
    && Rows(s)
    && forall c :: 0 <= c < s.n ==> CoreOk(s, c)
  }

  /** Something is going to happen on core `c`: a started slice that no interrupt can answer stays as it is. */
  predicate Moving(j: Job, n: nat, max: nat, c: nat)
    requires c < |j.row|
  {
    || j.row[c] == Taken || j.row[c] == Starting || j.row[c] == Ending
    || (j.row[c] == Running && c < |j.sent| && Answered(SliceMask(j.args, n, max, c, j.sent[c])))
  }

  /** Nothing is running, about to run, or about to be looked at. */
  predicate Quiet(s: State) {
    && (forall c :: 0 <= c < s.n ==> c !in s.calls)
    && forall t :: 0 <= t < |s.jobs| ==> Still(s.jobs[t], s.n, s.max)
  }

  predicate Still(j: Job, n: nat, max: nat) {
    forall c :: 0 <= c < |j.row| ==> !Moving(j, n, max, c)
  }

  predicate AllServable(s: State) {
    forall t :: 0 <= t < |s.jobs| ==> Servable(s.jobs[t].args, s.n, s.max)
  }

  predicate Finished(j: Job) {
    forall c :: 0 <= c < |j.row| ==> j.row[c] == Out || j.row[c] == Done
  }

  /** No deadlock: when the driver is quiet, every job ever queued has finished on all of its cores. */
  lemma {:induction false} QuietFinished(s: State, t: nat)
    requires Inv(s) && Quiet(s) && AllServable(s) && t < |s.jobs|
    ensures Finished(s.jobs[t])
    decreases t
  {
    forall u | 0 <= u < t ensures Finished(s.jobs[u]) {
      QuietFinished(s, u);
    }
    var j := s.jobs[t];
    assert JobOk(j, s.n, s.max);
    forall c | 0 <= c < s.n ensures !Unready(j.row[c]) {
      NotWaiting(s, t, c);
      assert j.row[c] == Column(s, c)[t] && Still(j, s.n, s.max) && !Moving(j, s.n, s.max, c);
    }
    CountZero(Unready, j.row);
    forall c | 0 <= c < s.n ensures j.row[c] == Out || j.row[c] == Done {
      CoreQuiet(j, s.n, s.max, c);
    }
  }

  /** A core of a servable job that is committed and does not move is not in the mask, or has finished. */
  lemma CoreQuiet(j: Job, n: nat, max: nat, c: nat)
    requires JobOk(j, n, max) && j.run == 0 && c < n && Servable(j.args, n, max)
    requires !Unready(j.row[c]) && !Moving(j, n, max, c)
    ensures j.row[c] == Out || j.row[c] == Done
  {
    assert CoreStateOk(j, n, max, c);
    if CoreIn(j.args.mask, c) {
      assert CoreServable(j.args, n, max, c);
    }
  }

  /** A core that has finished its part was started and answered all along. */
  lemma FinishedServable(j: Job, n: nat, max: nat)
    requires JobOk(j, n, max) && Finished(j)
    ensures Servable(j.args, n, max)
  {
    forall c | 0 <= c < n && CoreIn(j.args.mask, c) ensures CoreServable(j.args, n, max, c) {
      assert CoreStateOk(j, n, max, c);
    }
  }

  /** A job can only be queued on a free core behind a call, or behind an older job; there is neither. */
  lemma NotWaiting(s: State, t: nat, c: nat)
    requires Inv(s) && Quiet(s) && AllServable(s) && t < |s.jobs| && c < s.n
    requires forall u :: 0 <= u < t ==> Finished(s.jobs[u])
    ensures Column(s, c)[t] != Waiting
  {
    assert CoreOk(s, c);
    forall u | 0 <= u < t ensures !Holding(Column(s, c)[u]) {
      assert Finished(s.jobs[u]) && JobOk(s.jobs[u], s.n, s.max);
    }
    forall u | 0 <= u < |s.jobs| ensures Column(s, c)[u] != Gone && Column(s, c)[u] != Ending {
      NeitherGone(s.jobs[u], s.n, s.max, c);
      assert Still(s.jobs[u], s.n, s.max) && JobOk(s.jobs[u], s.n, s.max) && !Moving(s.jobs[u], s.n, s.max, c);
    }
  }

  lemma NeitherGone(j: Job, n: nat, max: nat, c: nat)
    requires JobOk(j, n, max) && c < n && Servable(j.args, n, max)
    ensures j.row[c] != Gone
  {
    assert CoreStateOk(j, n, max, c) && (CoreIn(j.args.mask, c) ==> CoreServable(j.args, n, max, c));
  }

  /** And its queues and slots are empty. */
  lemma QuietEmpty(s: State, c: nat)
    requires Inv(s) && Quiet(s) && AllServable(s) && c < s.n
    ensures s.todo[c] == [] && s.slot[c] == None
    ensures forall t :: 0 <= t < |s.jobs| ==> Finished(s.jobs[t])
  {
    forall t | 0 <= t < |s.jobs| ensures Finished(s.jobs[t]) && JobOk(s.jobs[t], s.n, s.max) {
      QuietFinished(s, t);
    }
    assert CoreOk(s, c);
    assert forall t :: 0 <= t < |s.jobs| ==> Column(s, c)[t] == Out || Column(s, c)[t] == Done;
  }
}
