/** One-use write plans: `save_plan`, `load_plan` and the rename that claims a plan. */
module Plans {
  import opened Common
  import opened Bytes
  import opened Gpt

  type Id = seq<byte>
  datatype Range = Range(lba: nat, bytes: nat, sha: seq<byte>)

  /** Attempt 0 stands for a plan without the attempt field. */
  datatype Record = Record(what: string, identity: nat, ranges: seq<Range>, fingerprint: Option<seq<byte>>, attempt: nat)

  function Again(p: Record, n: nat): Record {
    p.(attempt := n)
  }

  /** Different plans have different names: the name is the digest of the whole plan. */
  ghost predicate Distinct(name: Record -> Id) {
    forall p, q :: name(p) == name(q) ==> p == q
  }

  /** The plan directory: pending plans by name, and the names already consumed. */
  datatype Shelf = Shelf(pending: map<Id, Record>, used: set<Id>)

  predicate Orderly(s: Shelf) {
    forall id :: id in s.pending ==> id !in s.used
  }

  datatype Event = Issued(id: Id, p: Record) | Started(id: Id) | Idle

  predicate Step(s: Shelf, e: Event, s': Shelf) {
    match e
    case Issued(id, p) => id !in s.used && s' == Shelf(s.pending[id := p], s.used)
    case Started(id) => id in s.pending && s' == Shelf(s.pending - {id}, s.used + {id})
    case Idle => s' == s
  }

  predicate Run(states: seq<Shelf>, events: seq<Event>) {
    && |states| == |events| + 1
    && Orderly(states[0])
    && forall k :: 0 <= k < |events| ==> Step(states[k], events[k], states[k + 1])
  }

  lemma {:induction false} RunOrderly(states: seq<Shelf>, events: seq<Event>, k: nat)
    requires Run(states, events) && k < |states|
    ensures Orderly(states[k])
  {
    if k > 0 {
      RunOrderly(states, events, k - 1);
      assert Step(states[k - 1], events[k - 1], states[k]);
    }
  }

  lemma {:induction false} UsedStays(states: seq<Shelf>, events: seq<Event>, j: nat, k: nat)
    requires Run(states, events) && j <= k < |states|
    ensures states[j].used <= states[k].used
    decreases k
  {
    if j < k {
      UsedStays(states, events, j, k - 1);
      assert Step(states[k - 1], events[k - 1], states[k]);
    }
  }

  /** Over any run, whatever crashes and is planned again: a plan that was started is never started a second time, and
      its name is never issued again. */
  lemma AtMostOnce(states: seq<Shelf>, events: seq<Event>, i: nat, j: nat, id: Id)
    requires Run(states, events) && i < j < |events| && events[i] == Started(id)
    ensures events[j] != Started(id)
    ensures forall p :: events[j] != Issued(id, p)
  {
    assert Step(states[i], events[i], states[i + 1]) && Step(states[j], events[j], states[j + 1]);
    UsedStays(states, events, i + 1, j);
    RunOrderly(states, events, j);
  }

  /** The engine's directory. Renames, journal and sources can fail, unless it is reliable. */
  class Store {
    var shelf: Shelf
    const reliable: bool

    constructor (reliable: bool)
      ensures shelf == Shelf(map[], {}) && this.reliable == reliable
    {
      shelf := Shelf(map[], {});
      this.reliable := reliable;
    }

    /** `save_plan`: the first attempt number not consumed yet, found after at most one try per consumed plan. */
    method Save(p0: Record, name: Record -> Id) returns (r: Result<Id>, ghost attempt: nat)
      requires Distinct(name) && p0.attempt == 0
      modifies this
      ensures attempt <= |shelf.used| && attempt < U64
      ensures forall n :: 0 <= n < attempt ==> name(Again(p0, n)) in shelf.used
      ensures r.Ok? ==>
        && r.value == name(Again(p0, attempt))
        && Step(old(shelf), Issued(r.value, Again(p0, attempt)), shelf)
      ensures r.Err? ==>
        && shelf == old(shelf)
        && (attempt == U64 - 1 || Altered(shelf, name(Again(p0, attempt)), Again(p0, attempt)))
    {
      var p, n := p0, 0;
      while true
        invariant p == Again(p0, n) && n < U64 && shelf == old(shelf)
        invariant forall m :: 0 <= m < n ==> name(Again(p0, m)) in shelf.used
        decreases U64 - n
      {
        var id := name(p);
        ConsumedCount(p0, name, shelf.used, n);
        if id in shelf.used {
          if n + 1 == U64 { return Err("PLAN_CHANGED"), n; }
          n := n + 1;
          p := Again(p, n);
        } else if id in shelf.pending {
          if shelf.pending[id] != p { return Err("PLAN_CHANGED"), n; }
          assert shelf.pending == shelf.pending[id := p];
          return Ok(id), n;
        } else {
          shelf := Shelf(shelf.pending[id := p], shelf.used);
          return Ok(id), n;
        }
      }
    }

    /** `load_plan`: a plan that still has the name of its contents. */
    method Load(id: Id, name: Record -> Id) returns (r: Result<Record>)
      ensures r.Ok? <==> id in shelf.pending && name(shelf.pending[id]) == id
      ensures r.Ok? ==> r.value == shelf.pending[id]
    {
      if id !in shelf.pending { return Err("TRANSACTION_IO"); }
      if name(shelf.pending[id]) != id { return Err("PLAN_CHANGED"); }
      return Ok(shelf.pending[id]);
    }

    /** The rename to `.used.json`; it can fail. */
    method Claim(id: Id) returns (ok: bool)
      modifies this
      ensures Step(old(shelf), if ok then Started(id) else Idle, shelf)
      ensures reliable && id in old(shelf).pending ==> ok
    {
      var fault: bool := *;
      if (fault && !reliable) || id !in shelf.pending { return false; }
      shelf := Shelf(shelf.pending - {id}, shelf.used + {id});
      return true;
    }
  }

  /** The journal's first line. */
  method Journal(store: Store) returns (ok: bool)
    ensures store.reliable ==> ok
  {
    ok := *;
    if store.reliable { ok := true; }
  }

  /** A pending file that no longer holds the plan it is named after. */
  predicate Altered(s: Shelf, id: Id, p: Record) {
    id in s.pending && s.pending[id] != p
  }

  function Names(p0: Record, name: Record -> Id, n: nat): set<Id> {
    if n == 0 then {} else Names(p0, name, n - 1) + {name(Again(p0, n - 1))}
  }

  lemma {:induction false} NamesDiffer(p0: Record, name: Record -> Id, n: nat, k: nat)
    requires Distinct(name) && n <= k
    ensures name(Again(p0, k)) !in Names(p0, name, n)
    ensures |Names(p0, name, n)| == n
  {
    if n > 0 {
      NamesDiffer(p0, name, n - 1, n - 1);
      NamesDiffer(p0, name, n - 1, k);
      assert Again(p0, k).attempt != Again(p0, n - 1).attempt;
    }
  }

  lemma {:induction false} NamesConsumed(p0: Record, name: Record -> Id, used: set<Id>, n: nat)
    requires forall m :: 0 <= m < n ==> name(Again(p0, m)) in used
    ensures Names(p0, name, n) <= used
  {
    if n > 0 {
      NamesConsumed(p0, name, used, n - 1);
    }
  }

  /** `n` attempts can only have been consumed by `n` different plans. */
  lemma ConsumedCount(p0: Record, name: Record -> Id, used: set<Id>, n: nat)
    requires Distinct(name) && forall m :: 0 <= m < n ==> name(Again(p0, m)) in used
    ensures n <= |used|
  {
    NamesDiffer(p0, name, n, n);
    NamesConsumed(p0, name, used, n);
    SubsetSize(Names(p0, name, n), used);
  }

  lemma {:induction false} SubsetSize<T>(a: set<T>, b: set<T>)
    requires a <= b
    ensures |a| <= |b|
    decreases a
  {
    if a != {} {
      var x :| x in a;
      SubsetSize(a - {x}, b - {x});
    }
  }
}
