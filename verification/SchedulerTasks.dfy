/** Which tasks the hardware is given over a whole run, in terms of the request's own task table. */
module SchedulerTasks {
  import opened Common
  import opened Scheduler
  import opened SchedulerSteps
  import opened SchedulerSafety

  /** The task with number `x` is one of `row.1` tasks from number `row.0` on. */
  predicate In(row: (int, int), x: int) {
    row.0 <= x < row.0 + row.1
  }

  predicate Row(rows: seq<(nat, nat)>, r: nat, x: int) {
    r < |rows| && In(rows[r], x)
  }

  ghost predicate Covered(rows: seq<(nat, nat)>, x: int) {
    exists r: nat :: Row(rows, r, x)
  }

  /** Each of `number` tasks from `start` on is in exactly one of the rows, and no other task is in any. */
  ghost predicate Tiling(rows: seq<(nat, nat)>, start: nat, number: nat) {
    && (forall x :: Covered(rows, x) <==> start <= x < start + number)
    && (forall x, r: nat, q: nat :: Row(rows, r, x) && Row(rows, q, x) ==> r == q)
  }

  /** The task table divides the request among its cores: one row for each core of a mask of one or two cores, the last
      three rows for three cores. Hardware with one core does not look at the table, and masks 5 and 6 are never
      started on all their cores. */
  ghost predicate Divided(a: Arguments, n: nat) {
    && |a.subcore| == 5
    && (n > 1 && a.mask == 1 ==> Tiling([a.subcore[0]], a.start, a.number))
    && (n > 1 && a.mask == 2 ==> Tiling([a.subcore[1]], a.start, a.number))
    && (n > 1 && a.mask == 4 ==> Tiling([a.subcore[2]], a.start, a.number))
    && (n > 1 && a.mask == 3 ==> Tiling([a.subcore[0], a.subcore[1]], a.start, a.number))
    && (n > 1 && a.mask == 7 ==> Tiling([a.subcore[2], a.subcore[3], a.subcore[4]], a.start, a.number))
  }

  /** Rows one behind the other are a tiling. */
  lemma {:induction false} ConsecutiveTile(rows: seq<(nat, nat)>, start: nat, number: nat)
    requires number == Total(rows) && Consecutive(rows, start)
    ensures Tiling(rows, start, number)
    decreases |rows|
  {
    if rows != [] {
      var rest := rows[1..];
      ConsecutiveTile(rest, start + rows[0].1, Total(rest));
      forall x ensures Covered(rows, x) <==> In(rows[0], x) || Covered(rest, x) {
        if In(rows[0], x) {
          assert Row(rows, 0, x);
        }
        if Covered(rest, x) {
          var r: nat :| Row(rest, r, x);
          assert Row(rows, r + 1, x);
        }
        if Covered(rows, x) {
          var r: nat :| Row(rows, r, x);
          assert r > 0 ==> Row(rest, r - 1, x);
        }
      }
      forall x, r: nat, q: nat | Row(rows, r, x) && Row(rows, q, x) ensures r == q {
        assert r > 0 ==> Row(rest, r - 1, x) && Covered(rest, x);
        assert q > 0 ==> Row(rest, q - 1, x) && Covered(rest, x);
      }
    }
  }

  function Total(rows: seq<(nat, nat)>): nat {
    if rows == [] then 0 else rows[0].1 + Total(rows[1..])
  }

  predicate Consecutive(rows: seq<(nat, nat)>, start: nat)
    decreases |rows|
  {
    rows == [] || (rows[0].0 == start && Consecutive(rows[1..], start + rows[0].1))
  }

  // The slices of one part.

  lemma SliceOf(part: (nat, nat), max: nat, x: int) returns (i: nat)
    requires max > 0 && In(part, x)
    ensures i < Slices(part.1, max) && In(Slice(part, max, i), x)
  {
    i := (x - part.0) / max;
    SlicesBound(part.1, max, i);
  }

  lemma SlicesApart(part: (nat, nat), max: nat, i: nat, j: nat, x: int)
    requires max > 0 && In(Slice(part, max, i), x) && In(Slice(part, max, j), x)
    ensures i == j && In(part, x)
  {
    if i < j {
      Later(max, i, j);
    } else if j < i {
      Later(max, j, i);
    }
  }

  lemma Later(max: nat, i: nat, j: nat)
    requires i < j
    ensures i * max + max <= j * max
  {
    Multiples(i + 1, j, max);
    assert (i + 1) * max == i * max + max;
  }

  // Over a run.

  /** In the first `k` steps core `c` was given task `x` of job `t` with its `i`-th start. */
  predicate Given(states: seq<State>, events: seq<Event>, k: nat, t: nat, x: int, c: nat, i: nat) {
    && k <= |events| && k <= |states|
    && i < |History(states, events, k, t, c)| && In(History(states, events, k, t, c)[i], x)
  }

  /** What a finished job has given to core `c`. */
  lemma FinishedHistory(states: seq<State>, events: seq<Event>, k: nat, t: nat, c: nat) returns (h: seq<(int, int)>)
    requires Run(states, events) && k < |states| && t < |states[k].jobs| && Finished(states[k].jobs[t])
    ensures h == History(states, events, k, t, c) && states[k].max > 0 && |states[k].jobs[t].args.subcore| == 5
    ensures states[k].n <= 3
    ensures c < states[k].n && CoreIn(states[k].jobs[t].args.mask, c) ==>
      var part := Part(states[k].jobs[t].args, states[k].n, c);
      h == FirstSlices(part, states[k].max, Slices(part.1, states[k].max))
    ensures c < states[k].n && !CoreIn(states[k].jobs[t].args.mask, c) ==> h == []
    ensures c >= states[k].n ==> h == []
  {
    h := History(states, events, k, t, c);
    EachTaskOnce(states, events, k, t, c);
    var s := states[k];
    assert JobOk(s.jobs[t], s.n, s.max);
    if c < s.n {
      assert CoreStateOk(s.jobs[t], s.n, s.max, c);
      if CoreIn(s.jobs[t].args.mask, c) {
        AllTasksOnce(s, t, c);
      }
    }
  }

  /** Row `r` of the list is for core `first + r`, and there are no other cores in the mask. */
  ghost predicate Assigned(a: Arguments, n: nat, first: nat, rows: seq<(nat, nat)>) {
    && (forall c :: 0 <= c < n && CoreIn(a.mask, c) <==> first <= c < first + |rows|)
    && (forall r :: 0 <= r < |rows| ==> CoreRow(a, n, first + r, rows[r]))
  }

  predicate CoreRow(a: Arguments, n: nat, c: nat, row: (nat, nat)) {
    c < n && CoreIn(a.mask, c) && Located(a, 1, c) && Part(a, n, c) == row
  }

  lemma MaskCores(mask: nat)
    requires 1 <= mask <= 7 && mask != 5 && mask != 6
    ensures CoreIn(mask, 0) <==> mask == 1 || mask == 3 || mask == 7
    ensures CoreIn(mask, 1) <==> mask == 2 || mask == 3 || mask == 7
    ensures CoreIn(mask, 2) <==> mask == 4 || mask == 7
    ensures CoresUsed(mask) == if mask == 7 then 3 else if mask == 3 then 2 else 1
  {
  }

  /** The rows of a request that looks at its table. */
  function TableRows(a: Arguments): (rows: seq<(nat, nat)>)
    requires |a.subcore| == 5
  {
    match a.mask
    case 1 => [a.subcore[0]]
    case 2 => [a.subcore[1]]
    case 4 => [a.subcore[2]]
    case 3 => [a.subcore[0], a.subcore[1]]
    case _ => [a.subcore[2], a.subcore[3], a.subcore[4]]
  }

  lemma TableAssigned(a: Arguments, n: nat, first: nat)
    requires 1 < n <= 3 && 1 <= a.mask <= FullMask(n) && a.mask != 5 && a.mask != 6 && |a.subcore| == 5
    requires first == if a.mask == 2 then 1 else if a.mask == 4 then 2 else 0
    ensures Assigned(a, n, first, TableRows(a))
  {
    MaskCores(a.mask);
    var rows := TableRows(a);
    forall r | 0 <= r < |rows| ensures CoreRow(a, n, first + r, rows[r]) {
    }
    forall c | 0 <= c < n ensures CoreIn(a.mask, c) <==> first <= c < first + |rows| {
    }
  }

  /** Which rows of the table a request of one of the five masks uses. */
  lemma RowsOf(a: Arguments, n: nat) returns (first: nat, rows: seq<(nat, nat)>)
    requires 1 <= n <= 3 && 1 <= a.mask <= FullMask(n) && a.mask != 5 && a.mask != 6 && Divided(a, n)
    ensures Tiling(rows, a.start, a.number) && Assigned(a, n, first, rows)
  {
    if n == 1 {
      first, rows := 0, [(a.start, a.number)];
      ConsecutiveTile(rows, a.start, a.number);
    } else {
      first, rows := if a.mask == 2 then 1 else if a.mask == 4 then 2 else 0, TableRows(a);
      TableAssigned(a, n, first);
    }
  }

  /** The same for a finished job, whose mask is one of them. */
  lemma Rows(j: Job, n: nat, max: nat) returns (first: nat, rows: seq<(nat, nat)>)
    requires JobOk(j, n, max) && Finished(j) && Divided(j.args, n)
    ensures Tiling(rows, j.args.start, j.args.number) && Assigned(j.args, n, first, rows)
  {
    FinishedServable(j, n, max);
    ServableExactly(j.args, n, max);
    first, rows := RowsOf(j.args, n);
  }

  /** Every task of a finished request was given to the hardware. */
  lemma TaskGiven(states: seq<State>, events: seq<Event>, k: nat, t: nat, x: int) returns (c: nat, i: nat)
    requires Run(states, events) && k < |states| && t < |states[k].jobs| && Finished(states[k].jobs[t])
    requires Divided(states[k].jobs[t].args, states[k].n)
    requires states[k].jobs[t].args.start <= x < states[k].jobs[t].args.start + states[k].jobs[t].args.number
    ensures c < states[k].n && Given(states, events, k, t, x, c, i)
  {
    var s := states[k];
    RunKeeps(states, events, k);
    assert JobOk(s.jobs[t], s.n, s.max);
    var first, rows := Rows(s.jobs[t], s.n, s.max);
    assert Covered(rows, x);
    var r: nat :| Row(rows, r, x);
    c := first + r;
    assert CoreRow(s.jobs[t].args, s.n, c, rows[r]);
    var h := FinishedHistory(states, events, k, t, c);
    i := SliceOf(rows[r], s.max, x);
    assert h[i] == Slice(rows[r], s.max, i);
  }

  /** And it was given once, on one core; nothing else was given. */
  lemma TaskGivenOnce(states: seq<State>, events: seq<Event>, k: nat, t: nat, x: int, c: nat, i: nat, d: nat, j: nat)
    requires Run(states, events) && k < |states| && t < |states[k].jobs| && Finished(states[k].jobs[t])
    requires Divided(states[k].jobs[t].args, states[k].n)
    requires Given(states, events, k, t, x, c, i) && Given(states, events, k, t, x, d, j)
    ensures c == d && i == j
    ensures states[k].jobs[t].args.start <= x < states[k].jobs[t].args.start + states[k].jobs[t].args.number
  {
    var s := states[k];
    RunKeeps(states, events, k);
    assert JobOk(s.jobs[t], s.n, s.max);
    var first, rows := Rows(s.jobs[t], s.n, s.max);
    var q := GivenRow(states, events, k, t, x, c, i, first, rows);
    var r := GivenRow(states, events, k, t, x, d, j, first, rows);
    assert Covered(rows, x);
    SlicesApart(rows[q], s.max, i, j, x);
  }

  /** A task that was given is in the row of its core, in the slice of that number. */
  lemma GivenRow(states: seq<State>, events: seq<Event>, k: nat, t: nat, x: int, c: nat, i: nat, first: nat,
                 rows: seq<(nat, nat)>)
    returns (r: nat)
    requires Run(states, events) && k < |states| && t < |states[k].jobs| && Finished(states[k].jobs[t])
    requires Assigned(states[k].jobs[t].args, states[k].n, first, rows) && Given(states, events, k, t, x, c, i)
    ensures c == first + r && Row(rows, r, x) && states[k].max > 0 && In(Slice(rows[r], states[k].max, i), x)
  {
    var h := FinishedHistory(states, events, k, t, c);
    r := c - first;
    assert CoreRow(states[k].jobs[t].args, states[k].n, first + r, rows[r]);
    SlicesApart(rows[r], states[k].max, i, i, x);
  }
}
