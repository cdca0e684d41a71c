/** The vendor voltage tables: OTP adjustment, compaction, the cold table, and the order of clock and regulator steps. */
module Voltage {
  import opened Common

  datatype Opp = Opp(hz: nat, uv: nat, min: nat, max: nat, cold: nat)
  datatype Otp = Otp(minMhz: nat, maxMhz: nat, addMv: nat, mbist: nat)

  // The only limit and the only cold delta that `k11c_vendor_configure` accepts.
  const MAX_UV := 1000000
  const COLD_DELTA := 50000

  // One table row.

  /** After the OTP delta, which the row's own ceiling limits. */
  function Raised(o: Opp, otp: Otp): nat {
    if otp.addMv != 0 && otp.minMhz * 1000000 <= o.hz <= otp.maxMhz * 1000000 then Least(o.uv + otp.addMv * 1000, o.max)
    else o.uv
  }

  /** The voltage the row asks for: never below the MBIST minimum. */
  function Required(o: Opp, otp: Otp): nat {
    if Raised(o, otp) < otp.mbist then otp.mbist else Raised(o, otp)
  }

  function Adjusted(o: Opp, otp: Otp, top: nat): (r: Opp)
    ensures r.hz == o.hz
  {
    var uv := Required(o, otp);
    var min := if Raised(o, otp) < otp.mbist then otp.mbist else o.min;
    if uv <= top then o.(uv := uv, min := min, max := Least(o.max, top))
    else o.(uv := top, min := top, max := top)
  }

  predicate Sane(o: Opp) {
    o.min <= o.uv <= o.max
  }

  /** Within its own ceiling, which is within the supply's. */
  predicate Kept(o: Opp, top: nat) {
    o.min <= o.uv <= o.max <= top
  }

  /** An adjusted row is in order exactly unless the MBIST minimum lifted it over its own ceiling, below the supply's. */
  lemma AdjustedKept(o: Opp, otp: Otp, top: nat)
    requires Sane(o)
    ensures Kept(Adjusted(o, otp, top), top) <==> !(Raised(o, otp) < otp.mbist <= top && o.max < otp.mbist)
  {
  }

  /** There is such a row at the limit of the board. */
  lemma MbistOverCeiling() returns (o: Opp, otp: Otp)
    ensures Sane(o) && !Kept(Adjusted(o, otp, MAX_UV), MAX_UV)
  {
    o, otp := Opp(200000000, 900000, 800000, 950000, 0), Otp(0, 0, 0, 975000);
    AdjustedKept(o, otp, MAX_UV);
  }

  // Tables.

  predicate Rising(t: seq<Opp>) {
    forall i, j :: 0 <= i < j < |t| ==> t[i].hz < t[j].hz
  }

  /** The voltages asked for do not fall with frequency. */
  predicate Monotone(t: seq<Opp>, otp: Otp) {
    forall i, j :: 0 <= i < j < |t| ==> Required(t[i], otp) <= Required(t[j], otp)
  }

  function AdjustedTable(t: seq<Opp>, otp: Otp, top: nat): (r: seq<Opp>)
    ensures |r| == |t|
  {
    seq(|t|, i requires 0 <= i < |t| => Adjusted(t[i], otp, top))
  }

  /** The walk that finds the highest safe frequency: the first row to reach the limit is still safe, the next is not.
      The walk over the cold table does not record a frequency of zero. */
  datatype Walk = Walk(last: nat, safe: nat, reached: bool)

  function Walked(need: seq<(nat, nat)>, top: nat, cold: bool, n: nat): Walk
    requires n <= |need|
  {
    if n == 0 then Walk(0, 0, false)
    else
      var w, (hz, uv) := Walked(need, top, cold, n - 1), need[n - 1];
      var last := if uv <= top && !w.reached then hz else w.last;
      Walk(last, if last != hz && (!cold || last != 0) then last else w.safe, w.reached || uv == top)
  }

  function Needs(t: seq<Opp>, otp: Otp): (r: seq<(nat, nat)>)
    ensures |r| == |t|
  {
    seq(|t|, i requires 0 <= i < |t| => (t[i].hz, Required(t[i], otp)))
  }

  predicate Ordered(need: seq<(nat, nat)>) {
    && (forall i :: 0 <= i < |need| ==> need[i].0 > 0)
    && (forall i, j :: 0 <= i < j < |need| ==> need[i].0 < need[j].0)
    && forall i, j :: 0 <= i < j < |need| ==> need[i].1 <= need[j].1
  }

  /** What the walk knows after `n` rows of an ordered table. */
  lemma {:induction false} WalkedMeans(need: seq<(nat, nat)>, top: nat, cold: bool, n: nat)
    requires Ordered(need) && n <= |need|
    ensures var w := Walked(need, top, cold, n);
      && (forall i :: 0 <= i < n && need[i].0 <= w.last ==> need[i].1 <= top)
      && (w.reached ==> forall i :: n <= i < |need| ==> need[i].1 >= top)
      && (w.safe == w.last || (w.safe == 0 && n > 0 && w.last == need[n - 1].0))
      && (w.last == 0 <==> n == 0 || need[0].1 > top)
      && (w.last == 0 || exists i :: 0 <= i < n && need[i].0 == w.last)
      && (n > 0 && w.last == need[n - 1].0 ==> w.safe == 0 && forall i :: 0 <= i < n ==> need[i].1 <= top)
  {
    if n > 0 {
      WalkedMeans(need, top, cold, n - 1);
      assert n > 1 ==> need[n - 2].0 < need[n - 1].0 && need[n - 2].1 <= need[n - 1].1;
    }
  }

  /** `c` rows are the rows up to and including the first that reaches the limit, as far as they are within it. */
  predicate UpToLimit(need: seq<(nat, nat)>, n: nat, top: nat, c: nat)
    requires n <= |need|
  {
    && c <= n && (forall i :: 0 <= i < c ==> need[i].1 <= top) && (forall i :: 0 <= i < c - 1 ==> need[i].1 < top)
    && (c < n ==> need[c].1 > top || (c > 0 && need[c - 1].1 == top))
  }

  /** What the walk finds, exactly: the last of these rows, unless it is the last of all, or there is none. */
  lemma {:induction false} WalkedExactly(need: seq<(nat, nat)>, top: nat, cold: bool, n: nat) returns (c: nat)
    requires Ordered(need) && n <= |need|
    ensures UpToLimit(need, n, top, c)
    ensures var w := Walked(need, top, cold, n);
      && w.safe == (if 0 < c < n then need[c - 1].0 else 0)
      && w.last == (if c > 0 then need[c - 1].0 else 0) && (c > 0 && need[c - 1].1 == top ==> w.reached)
      && (c == 0 || need[c - 1].1 < top ==> !w.reached)
    decreases n
  {
    if n == 0 {
      c := 0;
    } else {
      c := WalkedExactly(need, top, cold, n - 1);
      if c == n - 1 && need[n - 1].1 <= top && (c == 0 || need[c - 1].1 < top) {
        c := n;
      }
    }
  }

  /** One pass of the loop body over a row. */
  method AdjustRow(row: Opp, otp: Otp, top: nat) returns (o: Opp, need: nat)
    ensures o == Adjusted(row, otp, top) && need == Required(row, otp)
  {
    o := row;
    if otp.addMv != 0 && o.hz >= otp.minMhz * 1000000 && o.hz <= otp.maxMhz * 1000000 {
      o := o.(uv := o.uv + otp.addMv * 1000);
      if o.uv > o.max { o := o.(uv := o.max); }
    }
    if o.uv < otp.mbist { o := o.(uv := otp.mbist, min := otp.mbist); }
    need := o.uv;
    if o.uv <= top {
      if o.max > top { o := o.(max := top); }
    } else {
      o := o.(uv := top, min := top, max := top);
    }
  }

  /** `k11c_vendor_adjust`, in place. */
  method Adjust(opps: array<Opp>, count: nat, otp: Otp, top: nat) returns (safe: nat)
    requires count <= opps.Length
    modifies opps
    ensures opps[..count] == AdjustedTable(old(opps[..count]), otp, top)
    ensures safe == Walked(Needs(old(opps[..count]), otp), top, false, count).safe
  {
    ghost var t := opps[..count];
    var last, reached, i := 0, false, 0;
    safe := 0;
    while i < count
      invariant 0 <= i <= count
      invariant forall k :: 0 <= k < i ==> opps[k] == Adjusted(t[k], otp, top)
      invariant forall k :: i <= k < count ==> opps[k] == t[k]
      invariant Walk(last, safe, reached) == Walked(Needs(t, otp), top, false, i)
    {
      var o, need := AdjustRow(opps[i], otp, top);
      if need <= top {
        if !reached { last := o.hz; }
        if need == top { reached := true; }
      }
      if last != o.hz { safe := last; }
      opps[i] := o;
      i := i + 1;
    }
  }

  // Compaction.

  function KeptRows(t: seq<Opp>, safe: nat): seq<Opp> {
    if t == [] then []
    else if safe != 0 && t[|t| - 1].hz > safe then KeptRows(t[..|t| - 1], safe)
    else KeptRows(t[..|t| - 1], safe) + [t[|t| - 1]]
  }

  /** The loop of `k11c_vendor_prepare` that drops the rows over the safe frequency, moving the others down in place. */
  method Compact(opps: array<Opp>, count: nat, safe: nat) returns (kept: nat)
    requires count <= opps.Length
    modifies opps
    ensures kept <= count && opps[..kept] == KeptRows(old(opps[..count]), safe)
  {
    ghost var t := opps[..count];
    var i := 0;
    kept := 0;
    while i < count
      invariant 0 <= kept <= i <= count
      invariant opps[..kept] == KeptRows(t[..i], safe)
      invariant forall k :: i <= k < count ==> opps[k] == t[k]
    {
      assert t[..i + 1][..i] == t[..i] && t[..i + 1][i] == opps[i];
      if !(safe != 0 && opps[i].hz > safe) {
        opps[kept] := opps[i];
        kept := kept + 1;
      }
      i := i + 1;
    }
    assert t[..count] == t;
  }

  /** In a rising table the kept rows are the front part up to the safe frequency. */
  lemma {:induction false} KeptIsFront(t: seq<Opp>, safe: nat)
    requires Rising(t)
    ensures |KeptRows(t, safe)| <= |t| && KeptRows(t, safe) == t[..|KeptRows(t, safe)|]
    ensures safe == 0 ==> KeptRows(t, safe) == t
    ensures forall i :: 0 <= i < |t| && safe != 0 ==> (i < |KeptRows(t, safe)| <==> t[i].hz <= safe)
  {
    if t != [] {
      var front, last := t[..|t| - 1], t[|t| - 1];
      assert Rising(front);
      KeptIsFront(front, safe);
      if safe != 0 && last.hz > safe {
        LastDropped(t, front, |KeptRows(front, safe)|);
      } else {
        LastKept(t, front, safe, |KeptRows(front, safe)|);
      }
    }
  }

  lemma LastDropped(t: seq<Opp>, front: seq<Opp>, k: nat)
    requires t != [] && front == t[..|t| - 1] && k <= |front|
    ensures front[..k] == t[..k]
  {
  }

  lemma LastKept(t: seq<Opp>, front: seq<Opp>, safe: nat, k: nat)
    requires t != [] && front == t[..|t| - 1] && k <= |front| && Rising(t)
    requires safe == 0 ==> k == |front|
    requires safe != 0 ==> t[|t| - 1].hz <= safe && forall i :: 0 <= i < |front| ==> (i < k <==> front[i].hz <= safe)
    ensures k == |front| && front[..k] + [t[|t| - 1]] == t
  {
    assert front != [] ==> front[|front| - 1].hz < t[|t| - 1].hz;
  }

  // The cold table.

  function Chilled(o: Opp, top: nat, delta: nat): Opp {
    o.(cold := Least(o.uv + delta, top))
  }

  function ColdRows(t: seq<Opp>, top: nat, delta: nat): (r: seq<Opp>)
    ensures |r| == |t|
  {
    seq(|t|, i requires 0 <= i < |t| => Chilled(t[i], top, delta))
  }

  function ColdNeeds(t: seq<Opp>, delta: nat): (r: seq<(nat, nat)>)
    ensures |r| == |t|
  {
    seq(|t|, i requires 0 <= i < |t| => (t[i].hz, t[i].uv + delta))
  }

  /** `k11c_vendor_cold_table`, in place. */
  method ColdTable(opps: array<Opp>, count: nat, top: nat, delta: nat) returns (limit: nat)
    requires count <= opps.Length
    modifies opps
    ensures opps[..count] == ColdRows(old(opps[..count]), top, delta)
    ensures limit == Walked(ColdNeeds(old(opps[..count]), delta), top, true, count).safe
  {
    ghost var t := opps[..count];
    var last, reached, i := 0, false, 0;
    limit := 0;
    while i < count
      invariant 0 <= i <= count
      invariant forall k :: 0 <= k < i ==> opps[k] == Chilled(t[k], top, delta)
      invariant forall k :: i <= k < count ==> opps[k] == t[k]
      invariant Walk(last, limit, reached) == Walked(ColdNeeds(t, delta), top, true, i)
    {
      var o := opps[i];
      if o.uv + delta <= top {
        o := o.(cold := o.uv + delta);
        if !reached { last := o.hz; }
        if o.cold == top { reached := true; }
      } else {
        o := o.(cold := top);
      }
      if last != 0 && last != o.hz { limit := last; }
      opps[i] := o;
      i := i + 1;
    }
  }

  // What the whole preparation guarantees.

  /** A table as the device tree gives it, with ceilings that leave room for the MBIST minimum. */
  predicate Usable(t: seq<Opp>, otp: Otp) {
    && Rising(t) && Monotone(t, otp)
    && forall i :: 0 <= i < |t| ==> t[i].hz > 0 && Sane(t[i]) && t[i].max >= otp.mbist
  }

  function Prepared(t: seq<Opp>, otp: Otp, top: nat, delta: nat): seq<Opp> {
    ColdRows(KeptRows(AdjustedTable(t, otp, top), Walked(Needs(t, otp), top, false, |t|).safe), top, delta)
  }

  function ColdLimit(t: seq<Opp>, otp: Otp, top: nat, delta: nat): nat {
    var kept := KeptRows(AdjustedTable(t, otp, top), Walked(Needs(t, otp), top, false, |t|).safe);
    Walked(ColdNeeds(kept, delta), top, true, |kept|).safe
  }

  method Prepare(opps: array<Opp>, count: nat, otp: Otp, top: nat, delta: nat) returns (kept: nat, limit: nat)
    requires count <= opps.Length
    modifies opps
    ensures kept <= count && opps[..kept] == Prepared(old(opps[..count]), otp, top, delta)
    ensures limit == ColdLimit(old(opps[..count]), otp, top, delta)
  {
    var safe := Adjust(opps, count, otp, top);
    kept := Compact(opps, count, safe);
    limit := ColdTable(opps, kept, top, delta);
  }

  /** The lowest row can be met at all; otherwise the vendor keeps every row, clamped to the supply's ceiling. */
  predicate FirstFits(t: seq<Opp>, otp: Otp, top: nat) {
    t != [] ==> Required(t[0], otp) <= top
  }

  /** Every kept row is in order and asks for exactly the voltage that its adjustment required. */
  lemma KeptRowsSafe(t: seq<Opp>, otp: Otp, top: nat, i: nat)
    requires Usable(t, otp)
    requires var safe := Walked(Needs(t, otp), top, false, |t|).safe; i < |KeptRows(AdjustedTable(t, otp, top), safe)|
    ensures i < |t|
    ensures var k := KeptRows(AdjustedTable(t, otp, top), Walked(Needs(t, otp), top, false, |t|).safe);
      k[i] == Adjusted(t[i], otp, top) && Kept(k[i], top) && (FirstFits(t, otp, top) ==> k[i].uv == Required(t[i], otp))
  {
    var a, need := AdjustedTable(t, otp, top), Needs(t, otp);
    var w := Walked(need, top, false, |t|);
    KeptIsFront(a, w.safe);
    WalkedMeans(need, top, false, |t|);
    AdjustedKept(t[i], otp, top);
    assert need[i] == (t[i].hz, Required(t[i], otp)) && need[0] == (t[0].hz, Required(t[0], otp));
    assert a[i].hz == t[i].hz;
  }

  /** When not even the lowest row fits, nothing is dropped and the lowest row runs below what it requires. */
  lemma FirstUnfit(t: seq<Opp>, otp: Otp, top: nat)
    requires Usable(t, otp) && !FirstFits(t, otp, top)
    ensures var k := KeptRows(AdjustedTable(t, otp, top), Walked(Needs(t, otp), top, false, |t|).safe);
      |k| == |t| && k[0].uv < Required(t[0], otp)
  {
    var need := Needs(t, otp);
    WalkedMeans(need, top, false, |t|);
    assert need[0] == (t[0].hz, Required(t[0], otp));
    KeptIsFront(AdjustedTable(t, otp, top), Walked(need, top, false, |t|).safe);
  }

  /** There is such a table, of one row, at the limit of the board. */
  lemma UnfitLowest() returns (t: seq<Opp>, otp: Otp)
    ensures Usable(t, otp) && !FirstFits(t, otp, MAX_UV)
  {
    t, otp := [Opp(200000000, 1050000, 800000, 1100000, 0)], Otp(0, 0, 0, 0);
  }

  /** The voltage a row needs, in figures: its own, plus the OTP delta in millivolts if its frequency is in the OTP range,
      though not over its ceiling; and at least the MBIST minimum. */
  lemma RequiredIs(o: Opp, otp: Otp)
    ensures otp.addMv > 0 && otp.minMhz * 1000000 <= o.hz <= otp.maxMhz * 1000000 && o.uv + 1000 * otp.addMv <= o.max ==>
      Required(o, otp) == if o.uv + 1000 * otp.addMv >= otp.mbist then o.uv + 1000 * otp.addMv else otp.mbist
    ensures otp.addMv > 0 && otp.minMhz * 1000000 <= o.hz <= otp.maxMhz * 1000000 && o.uv + 1000 * otp.addMv > o.max ==>
      Required(o, otp) == if o.max >= otp.mbist then o.max else otp.mbist
    ensures otp.addMv == 0 || o.hz < otp.minMhz * 1000000 || o.hz > otp.maxMhz * 1000000 ==>
      Required(o, otp) == if o.uv >= otp.mbist then o.uv else otp.mbist
  {
  }

  /** Exactly the rows up to and including the first that needs the whole limit are kept, as far as they are within it, and
      each at the voltage it needs; if not even the first is within it, all are, each at the limit. */
  lemma KeptExactly(t: seq<Opp>, otp: Otp, top: nat) returns (c: nat)
    requires Usable(t, otp)
    ensures UpToLimit(Needs(t, otp), |t|, top, c) && (c == 0 <==> t == [] || !FirstFits(t, otp, top))
    ensures var k := KeptRows(AdjustedTable(t, otp, top), Walked(Needs(t, otp), top, false, |t|).safe);
      && |k| == (if c > 0 then c else |t|)
      && forall i :: 0 <= i < |k| ==> k[i].hz == t[i].hz && k[i].uv == if c > 0 then Required(t[i], otp) else top
  {
    var a, need := AdjustedTable(t, otp, top), Needs(t, otp);
    NeedsOrdered(t, otp);
    c := WalkedExactly(need, top, false, |t|);
    var safe := Walked(need, top, false, |t|).safe;
    KeptIsFront(a, safe);
    var k := KeptTable(t, otp, top);
    if 0 < c < |t| {
      assert a[c - 1].hz == safe && a[c].hz > safe;
      assert |k| == c;
    }
    assert t != [] ==> need[0] == (t[0].hz, Required(t[0], otp));
    if c == 0 {
      forall i | 0 <= i < |k| ensures k[i].uv == top {
        assert need[i] == (t[i].hz, Required(t[i], otp)) && need[0].1 <= need[i].1;
      }
    }
  }

  lemma NeedsOrdered(t: seq<Opp>, otp: Otp)
    requires Usable(t, otp)
    ensures Ordered(Needs(t, otp))
  {
  }

  /** The cold limit, exactly: zero if all rows of the prepared table leave room for the delta or none does, else the
      frequency of the last row up to the first that needs the whole limit in the cold. */
  lemma ColdLimitExactly(t: seq<Opp>, otp: Otp, top: nat, delta: nat) returns (c: nat)
    requires Usable(t, otp)
    ensures var p, limit := Prepared(t, otp, top, delta), ColdLimit(t, otp, top, delta);
      && c <= |p| && limit == (if 0 < c < |p| then p[c - 1].hz else 0)
      && (forall i :: 0 <= i < c ==> p[i].uv + delta <= top) && (forall i :: 0 <= i < c - 1 ==> p[i].uv + delta < top)
      && (c < |p| ==> p[c].uv + delta > top || (c > 0 && p[c - 1].uv + delta == top))
  {
    var k := KeptTable(t, otp, top);
    KeptClimbs(t, k, otp, top);
    c := ColdWalk(k, top, delta);
  }

  lemma ColdWalk(k: seq<Opp>, top: nat, delta: nat) returns (c: nat)
    requires Climbing(k) && forall i :: 0 <= i < |k| ==> k[i].hz > 0
    ensures var p, limit := ColdRows(k, top, delta), Walked(ColdNeeds(k, delta), top, true, |k|).safe;
      && c <= |p| && limit == (if 0 < c < |p| then p[c - 1].hz else 0)
      && (forall i :: 0 <= i < c ==> p[i].uv + delta <= top) && (forall i :: 0 <= i < c - 1 ==> p[i].uv + delta < top)
      && (c < |p| ==> p[c].uv + delta > top || (c > 0 && p[c - 1].uv + delta == top))
  {
    var need, p := ColdNeeds(k, delta), ColdRows(k, top, delta);
    forall i | 0 <= i < |k| ensures need[i] == (p[i].hz, p[i].uv + delta) == (k[i].hz, k[i].uv + delta) {
    }
    assert Ordered(need);
    c := WalkedExactly(need, top, true, |k|);
  }

  lemma KeptTable(t: seq<Opp>, otp: Otp, top: nat) returns (k: seq<Opp>)
    requires Usable(t, otp)
    ensures k == KeptRows(AdjustedTable(t, otp, top), Walked(Needs(t, otp), top, false, |t|).safe) && |k| <= |t|
    ensures forall i :: 0 <= i < |k| ==> k[i].hz == t[i].hz && k[i].uv == Least(Required(t[i], otp), top) && Kept(k[i], top)
    ensures FirstFits(t, otp, top) ==> forall i :: 0 <= i < |k| ==> k[i].uv == Required(t[i], otp)
  {
    k := KeptRows(AdjustedTable(t, otp, top), Walked(Needs(t, otp), top, false, |t|).safe);
    KeptIsFront(AdjustedTable(t, otp, top), Walked(Needs(t, otp), top, false, |t|).safe);
    forall i | 0 <= i < |k|
      ensures k[i].hz == t[i].hz && k[i].uv == Least(Required(t[i], otp), top) && Kept(k[i], top)
      ensures FirstFits(t, otp, top) ==> k[i].uv == Required(t[i], otp)
    {
      KeptRowsSafe(t, otp, top, i);
    }
  }

  /** Rising in frequency, never falling in voltage. */
  predicate Climbing(p: seq<Opp>) {
    forall i, j :: 0 <= i < j < |p| ==> p[i].hz < p[j].hz && p[i].uv <= p[j].uv
  }

  /** The prepared table: rising in frequency, never falling in voltage, every row between its minimum and its ceiling
      within the supply's and asking for what its adjustment required, the cold voltage higher
      by the delta as far as the supply allows, and by exactly the delta at or below a non-zero cold limit. */
  lemma PreparedSafe(t: seq<Opp>, otp: Otp, top: nat, delta: nat)
    requires Usable(t, otp)
    ensures var p := Prepared(t, otp, top, delta);
      && Climbing(p) && |p| <= |t|
      && (forall i :: 0 <= i < |p| ==> Kept(p[i], top) && p[i].cold == Least(p[i].uv + delta, top))
      && (FirstFits(t, otp, top) ==> forall i :: 0 <= i < |p| ==> p[i].uv == Required(t[i], otp))
      && var limit := ColdLimit(t, otp, top, delta);
         (limit != 0 ==> forall i :: 0 <= i < |p| && p[i].hz <= limit ==> p[i].cold == p[i].uv + delta)
  {
    var k := KeptRows(AdjustedTable(t, otp, top), Walked(Needs(t, otp), top, false, |t|).safe);
    var kept := KeptTable(t, otp, top);
    KeptClimbs(t, k, otp, top);
    ColdSafe(k, top, delta);
  }

  lemma ColdSafe(k: seq<Opp>, top: nat, delta: nat)
    requires Climbing(k) && (forall i :: 0 <= i < |k| ==> k[i].hz > 0 && Kept(k[i], top))
    ensures var p, limit := ColdRows(k, top, delta), Walked(ColdNeeds(k, delta), top, true, |k|).safe;
      && Climbing(p) && |p| == |k|
      && (forall i :: 0 <= i < |p| ==>
            Kept(p[i], top) && p[i].cold == Least(p[i].uv + delta, top) && p[i].uv == k[i].uv)
      && (limit != 0 ==> forall i :: 0 <= i < |p| && p[i].hz <= limit ==> p[i].cold == p[i].uv + delta)
  {
    ColdExact(k, top, delta);
  }

  lemma KeptClimbs(t: seq<Opp>, k: seq<Opp>, otp: Otp, top: nat)
    requires Rising(t) && Monotone(t, otp) && |k| <= |t|
    requires forall i :: 0 <= i < |k| ==> k[i].hz == t[i].hz && k[i].uv == Least(Required(t[i], otp), top)
    requires forall i :: 0 <= i < |t| ==> t[i].hz > 0
    ensures Climbing(k) && forall i :: 0 <= i < |k| ==> k[i].hz > 0
  {
  }

  lemma ColdExact(k: seq<Opp>, top: nat, delta: nat)
    requires Climbing(k) && (forall i :: 0 <= i < |k| ==> k[i].hz > 0)
    ensures var limit := Walked(ColdNeeds(k, delta), top, true, |k|).safe;
      limit != 0 ==> forall i :: 0 <= i < |k| && k[i].hz <= limit ==> Chilled(k[i], top, delta).cold == k[i].uv + delta
  {
    var need := ColdNeeds(k, delta);
    WalkedMeans(need, top, true, |k|);
    assert forall i :: 0 <= i < |k| ==> need[i] == (k[i].hz, k[i].uv + delta);
  }

  // The tables that the framework is given.

  function TableFor(p: seq<Opp>, cold: bool): (r: seq<(nat, nat)>)
    ensures |r| == |p|
  {
    seq(|p|, i requires 0 <= i < |p| => (p[i].hz, if cold then p[i].cold else p[i].uv))
  }

  function CeilingsOf(p: seq<Opp>): (r: seq<nat>)
    ensures |r| == |p|
  {
    seq(|p|, i requires 0 <= i < |p| => p[i].max)
  }

  /** `set_table_voltage`: the rows for one temperature, handed over one by one; the framework may refuse any of them. */
  method SetTableVoltage(opps: array<Opp>, count: nat, cold: bool)
    returns (ok: bool, table: seq<(nat, nat)>, ceilings: seq<nat>)
    requires count <= opps.Length
    ensures ok ==> table == TableFor(opps[..count], cold) && ceilings == CeilingsOf(opps[..count])
  {
    table, ceilings := [], [];
    var i := 0;
    while i < count
      invariant 0 <= i <= count
      invariant table == TableFor(opps[..count], cold)[..i] && ceilings == CeilingsOf(opps[..count])[..i]
    {
      var o := opps[i];
      ok := *;
      if !ok { return; }
      table := table + [(o.hz, if cold then o.cold else o.uv)];
      ceilings := ceilings + [o.max];
      i := i + 1;
    }
    ok := true;
  }

  /** What the preparation delivers to the rate changes: for either temperature frequencies rise and voltages do not fall.
      At normal temperature every voltage lies under its ceiling; in the cold exactly where the row leaves room for the
      delta, or its ceiling is the supply's. */
  lemma PreparedServes(t: seq<Opp>, otp: Otp, top: nat, delta: nat)
    requires Usable(t, otp)
    ensures var p := Prepared(t, otp, top, delta);
      && Steps(TableFor(p, false)) && Steps(TableFor(p, true))
      && (forall i :: 0 <= i < |p| ==> TableFor(p, false)[i].1 <= CeilingsOf(p)[i])
      && forall i :: 0 <= i < |p| ==>
           (TableFor(p, true)[i].1 <= CeilingsOf(p)[i] <==> p[i].uv + delta <= p[i].max || p[i].max == top)
  {
    PreparedSafe(t, otp, top, delta);
    var p := Prepared(t, otp, top, delta);
    forall i | 0 <= i < |p| ensures Kept(p[i], top) && p[i].cold == Least(p[i].uv + delta, top) {
    }
  }

  /** There is such a row with the limit and the delta of the board: it asks for more in the cold than its own ceiling,
      and no rate change can serve it. */
  lemma ColdOverCeiling() returns (t: seq<Opp>, otp: Otp)
    ensures Usable(t, otp) && FirstFits(t, otp, MAX_UV)
    ensures var p := Prepared(t, otp, MAX_UV, COLD_DELTA); |p| == 1 && TableFor(p, true)[0].1 > CeilingsOf(p)[0]
  {
    var o := Opp(200000000, 900000, 800000, 925000, 0);
    t, otp := [o], Otp(0, 0, 0, 0);
    assert Needs(t, otp) == [(200000000, 900000)];
    assert Walked(Needs(t, otp), MAX_UV, false, 1) == Walk(200000000, 0, false);
    assert AdjustedTable(t, otp, MAX_UV) == [o];
    KeptIsFront([o], 0);
    assert Prepared(t, otp, MAX_UV, COLD_DELTA) == [o.(cold := 950000)];
  }

  // Changing the rate.

  /** The clock, the regulator, and what the driver remembers. A faultless supply runs at exactly the rate asked for, and
      its regulator refuses only limits that contradict each other. */
  class Supply {
    var clock: nat
    var volts: nat
    var freq: nat
    const faultless: bool

    constructor (clock: nat, volts: nat, faultless: bool)
      ensures this.clock == clock && this.volts == volts && this.faultless == faultless
    {
      this.clock, this.volts, this.freq, this.faultless := clock, volts, 0, faultless;
    }

    /** The clock framework fails without effect, or picks a rate of its own near the one asked for. */
    method SetClock(hz: nat) returns (ok: bool)
      modifies `clock
      ensures !ok ==> clock == old(clock)
      ensures faultless ==> ok && clock == hz
    {
      ok := *;
      if ok || faultless {
        var rounded: nat := *;
        if faultless { rounded := hz; }
        ok, clock := true, rounded;
      }
    }

    /** The regulator fails without effect, as it must if the limits contradict each other, or lands between them. */
    method SetVolts(low: nat, high: nat) returns (ok: bool)
      modifies `volts
      ensures ok ==> low <= volts <= high
      ensures !ok ==> volts == old(volts)
      ensures faultless && low <= high ==> ok
    {
      ok := *;
      var landed: nat := *;
      if faultless && low <= high && !(ok && low <= landed <= high) { ok, landed := true, low; }
      if ok && low <= landed <= high {
        volts := landed;
      } else {
        ok := false;
      }
    }

    /** The voltage read back; reading can fail. */
    method GetVolts() returns (ok: bool, uv: nat)
      ensures ok ==> uv == volts
      ensures faultless ==> ok
    {
      ok := *;
      if faultless { ok := true; }
      uv := volts;
    }

    /** The vote between the limits, and what the regulator then says it delivers. */
    method Supplied(low: nat, high: nat) returns (ok: bool)
      modifies `volts
      ensures ok ==> low <= volts <= high
      ensures !ok ==> volts == old(volts) || low <= volts <= high
      ensures faultless ==> (ok <==> low <= high)
    {
      ok := SetVolts(low, high);
      if !ok { return; }
      var uv;
      ok, uv := GetVolts();
      ok := ok && low <= uv <= high;
    }

    /** `k11c_vendor_set_rate` on the table of the current temperature, whatever the clock and the voltage were before:
        after a change of temperature the voltage need not be enough. Down: clock before voltage; up: voltage before
        clock. Success means that the voltage is enough for the running clock and the row is under its ceiling. A voltage
        that was enough stays so on every way out, unless the clock framework accepted the rate and ran past it. */
    method SetRate(table: seq<(nat, nat)>, ceilings: seq<nat>, hz0: nat, cold: bool, limit: nat)
      returns (ok: bool, ghost accepted: bool)
      requires Steps(table) && |ceilings| == |table|
      modifies this
      ensures ok ==> Enough(table, clock, volts) && 0 < clock <= freq
      ensures ok ==> exists i :: 0 <= i < |table| && table[i].0 == freq && table[i].1 <= volts <= ceilings[i]
      ensures ok && cold && limit != 0 && Named(table, limit) ==> freq <= limit
      ensures ok ==> accepted
      ensures !accepted ==> clock == old(clock)
      // Without faults, exactly the requests are served that have a row, neither at rate zero nor over its own ceiling.
      ensures faultless ==> (ok <==> Served(table, ceilings, Capped(hz0, cold, limit)))
      ensures faultless && ok ==> clock == freq
      ensures old(Enough(table, clock, volts)) ==>
        Enough(table, clock, volts) || (accepted && clock > Target(table, Capped(hz0, cold, limit)))
    {
      accepted := false;
      var hz := if cold && limit != 0 && hz0 > limit then limit else hz0;
      var i := FindCeil(table, hz);
      ServedBy(table, ceilings, hz, i);
      if i == |table| { return false, accepted; }
      TargetIs(table, hz, i);
      hz := table[i].0;
      var before := clock;
      if hz < before {
        ok := SetClock(hz);
        if !ok { return; }
        accepted := true;
        if clock <= before && Enough(table, before, volts) { LowerEnough(table, before, clock, volts); }
      }
      ok := Supplied(table[i].1, ceilings[i]);
      if clock <= hz && table[i].1 <= volts { TargetEnough(table, i, clock, volts); }
      if !ok { return; }
      if hz >= before {
        ok := SetClock(hz);
        if !ok { return; }
        accepted := true;
        if clock <= hz { TargetEnough(table, i, clock, volts); }
      }
      if clock == 0 || clock > hz { return false, accepted; }
      freq := hz;
      return true, accepted;
    }

    /** The thermal switch of `monitor_work`: the other table, then the live clock again. */
    method SwitchTable(opps: array<Opp>, count: nat, cold: bool, limit: nat) returns (ok: bool)
      requires count <= opps.Length && Steps(TableFor(opps[..count], cold))
      modifies this
      ensures ok ==> Enough(TableFor(opps[..count], cold), clock, volts)
      ensures opps[..] == old(opps[..])
    {
      var table, ceilings;
      ok, table, ceilings := SetTableVoltage(opps, count, cold);
      if !ok { return; }
      var remembered := freq;
      ghost var accepted;
      ok, accepted := SetRate(table, ceilings, clock, cold, limit);
      freq := remembered;
    }
  }

  /** Frequencies rise, voltages do not fall. */
  predicate Steps(table: seq<(nat, nat)>) {
    forall i, j :: 0 <= i < j < |table| ==> table[i].0 < table[j].0 && table[i].1 <= table[j].1
  }

  /** The voltage covers every row up to the first one at or over the clock; over the table, all of it. */
  predicate Enough(table: seq<(nat, nat)>, clock: nat, volts: nat) {
    forall i :: 0 <= i < |table| && (i == 0 || table[i - 1].0 < clock) ==> table[i].1 <= volts
  }

  predicate Named(table: seq<(nat, nat)>, hz: nat) {
    exists i :: 0 <= i < |table| && table[i].0 == hz
  }

  function Capped(hz: nat, cold: bool, limit: nat): nat {
    if cold && limit != 0 && hz > limit then limit else hz
  }

  /** The lowest row at or over the rate, by a search from below. */
  method FindCeil(table: seq<(nat, nat)>, hz: nat) returns (i: nat)
    ensures i <= |table| && (forall k :: 0 <= k < i ==> table[k].0 < hz) && (i < |table| ==> table[i].0 >= hz)
  {
    i := 0;
    while i < |table| && table[i].0 < hz
      invariant 0 <= i <= |table|
      invariant forall k :: 0 <= k < i ==> table[k].0 < hz
    {
      i := i + 1;
    }
  }

  /** Row `i` is the lowest at or over the rate asked for. */
  predicate Serving(table: seq<(nat, nat)>, hz: nat, i: nat) {
    i < |table| && table[i].0 >= hz && forall k :: 0 <= k < i ==> table[k].0 < hz
  }

  ghost predicate Served(table: seq<(nat, nat)>, ceilings: seq<nat>, hz: nat) {
    exists i: nat :: Serving(table, hz, i) && table[i].0 > 0 && i < |ceilings| && table[i].1 <= ceilings[i]
  }

  lemma ServedBy(table: seq<(nat, nat)>, ceilings: seq<nat>, hz: nat, i: nat)
    requires i <= |table| == |ceilings| && forall k :: 0 <= k < i ==> table[k].0 < hz
    requires i < |table| ==> table[i].0 >= hz
    ensures Served(table, ceilings, hz) <==> i < |table| && table[i].0 > 0 && table[i].1 <= ceilings[i]
  {
    if i < |table| {
      assert Serving(table, hz, i);
    }
    if Served(table, ceilings, hz) {
      var k: nat :| Serving(table, hz, k) && table[k].0 > 0 && k < |ceilings| && table[k].1 <= ceilings[k];
      assert k == i;
    }
  }

  /** The table frequency a request is served with. */
  function Target(table: seq<(nat, nat)>, hz: nat): nat {
    if table == [] then 0 else if table[0].0 >= hz then table[0].0 else Target(table[1..], hz)
  }

  lemma {:induction false} TargetIs(table: seq<(nat, nat)>, hz: nat, i: nat)
    requires i < |table| && table[i].0 >= hz && forall k :: 0 <= k < i ==> table[k].0 < hz
    ensures Target(table, hz) == table[i].0
  {
    if i > 0 {
      TargetIs(table[1..], hz, i - 1);
    }
  }

  lemma LowerEnough(table: seq<(nat, nat)>, before: nat, clock: nat, volts: nat)
    requires Enough(table, before, volts) && clock <= before
    ensures Enough(table, clock, volts)
  {
  }

  lemma TargetEnough(table: seq<(nat, nat)>, i: nat, clock: nat, volts: nat)
    requires Steps(table) && i < |table| && clock <= table[i].0 && table[i].1 <= volts
    ensures Enough(table, clock, volts)
  {
  }
}
