/**
 * The example counter object (request ids and results share a transaction with the counter) and
 * the load driver that checks it: cooperative workers that draw indexes from a shared variable,
 * and the closed form of what each counter must show afterwards.
 */
module DurableCounter {
  import opened Wrappers

  // ---------------------------------------------------------------- the object

  /** `requests` holds the stored result of every request id. */
  datatype Counter<!Id> = Counter(n: nat, requests: map<Id, nat>)

  /** The transaction: a known id returns its stored result, anything else increments. */
  function Increment<Id>(c: Counter<Id>, id: Option<Id>): (Counter<Id>, nat) {
    if id.Some? && id.value in c.requests then (c, c.requests[id.value])
    else (Counter(c.n + 1, if id.Some? then c.requests[id.value := c.n + 1] else c.requests), c.n + 1)
  }

  datatype Response = Value(n: nat) | NotFound

  class CounterObject {
    var n: Option<nat>
    var requests: map<string, nat>

    function View(): Counter<string>
      reads this
    {
      Counter(if n.Some? then n.value else 0, requests)
    }

    constructor ()
      ensures View() == Counter(0, map[])
    {
      n, requests := None, map[];
    }

    /** An absent or empty x-oden-request-id header counts as no id. */
    method Fetch(verb: string, path: string, header: Option<string>) returns (response: Response)
      modifies this
      ensures verb == "GET" && path == "/" ==> View() == old(View()) && response == Value(View().n)
      ensures !(verb == "GET" && path == "/") && !(verb == "POST" && path == "/increment") ==>
        View() == old(View()) && response == NotFound
      ensures verb == "POST" && path == "/increment" ==>
        var id := if header.Some? && header.value != "" then header else None;
        (View(), response) == (Increment(old(View()), id).0, Value(Increment(old(View()), id).1))
    {
      if verb == "GET" && path == "/" {
        return Value(if n.Some? then n.value else 0);
      }
      if verb != "POST" || path != "/increment" {
        return NotFound;
      }
      if header.Some? && header.value != "" && header.value in requests {
        return Value(requests[header.value]);
      }
      var result := (if n.Some? then n.value else 0) + 1;
      n := Some(result);
      if header.Some? && header.value != "" {
        requests := requests[header.value := result];
      }
      response := Value(result);
    }
  }

  function IncrementAll<Id>(c: Counter<Id>, ids: seq<Option<Id>>): Counter<Id> {
    if ids == [] then c else Increment(IncrementAll(c, ids[..|ids| - 1]), ids[|ids| - 1]).0
  }

  function Anonymous<Id>(ids: seq<Option<Id>>): nat {
    if ids == [] then 0 else Anonymous(ids[..|ids| - 1]) + if ids[|ids| - 1].None? then 1 else 0
  }

  function Named<Id>(ids: seq<Option<Id>>): set<Id> {
    set x | x in ids && x.Some? :: x.value
  }

  /** From a fresh object, the counter is the number of anonymous requests plus that of distinct ids. */
  lemma {:induction false} CounterIsDistinctRequests<Id>(ids: seq<Option<Id>>)
    ensures var c := IncrementAll(Counter(0, map[]), ids);
      c.requests.Keys == Named(ids) && c.n == Anonymous(ids) + |Named(ids)|
  {
    if ids == [] {
      assert Named(ids) == {};
    } else {
      var init, last := ids[..|ids| - 1], ids[|ids| - 1];
      CounterIsDistinctRequests(init);
      assert ids == init + [last];
      assert Named(ids) == Named(init) + if last.Some? then {last.value} else {};
    }
  }

  /**
   * Results number the requests: after any requests to a fresh object, a new one returns one more than
   * the anonymous and distinct ones before it, which is what the counter shows then and what is stored
   * for its id; any other one changes nothing.
   */
  lemma ResultsNumberRequests<Id>(ids: seq<Option<Id>>, id: Option<Id>)
    ensures var c := IncrementAll(Counter(0, map[]), ids); var (d, result) := Increment(c, id);
      if id.Some? && id.value in Named(ids) then d == c
      else
        && result == d.n == Anonymous(ids) + |Named(ids)| + 1
        && d.requests == if id.Some? then c.requests[id.value := result] else c.requests
  {
    CounterIsDistinctRequests(ids);
  }

  /** Once an id has a result, every later request with it returns that result and changes nothing. */
  lemma {:induction false} RepeatsReturnFirstResult<Id>(c: Counter<Id>, id: Id, between: seq<Option<Id>>)
    ensures var first := Increment(c, Some(id));
            var later := IncrementAll(first.0, between);
      Increment(later, Some(id)) == (later, first.1)
  {
    if between != [] {
      RepeatsReturnFirstResult(c, id, between[..|between| - 1]);
    }
  }

  // ---------------------------------------------------------------- arithmetic of the split

  /** What each of `objects` counters receives of `count` requests dealt round robin. */
  function Assigned(count: nat, objects: nat, i: nat): nat
    requires objects > 0
  {
    count / objects + if i < count % objects then 1 else 0
  }

  ghost function IndexesOf(count: nat, objects: nat, i: nat): set<nat>
    requires objects > 0
  {
    set k: nat | k < count && k % objects == i
  }

  lemma DivModStep(count: nat, objects: nat)
    requires objects > 0
    ensures if count % objects + 1 < objects
            then (count + 1) / objects == count / objects && (count + 1) % objects == count % objects + 1
            else (count + 1) / objects == count / objects + 1 && (count + 1) % objects == 0
  {
    var q, r := count / objects, count % objects;
    assert count == q * objects + r;
    if r + 1 < objects {
      DivModUnique(count + 1, objects, q, r + 1);
    } else {
      assert count + 1 == (q + 1) * objects;
      DivModUnique(count + 1, objects, q + 1, 0);
    }
  }

  lemma DivModUnique(n: nat, m: nat, q: nat, r: nat)
    requires m > 0 && n == q * m + r && r < m
    ensures n / m == q && n % m == r
  {
    var d := n / m - q;
    assert d * m == r - n % m;
    MultipleIsLarge(d, m);
  }

  lemma MultipleIsLarge(d: int, m: int)
    requires m >= 0
    ensures d >= 1 ==> d * m >= m
    ensures d <= -1 ==> d * m <= -m
  {
    if d >= 1 {
      assert d * m == (d - 1) * m + m;
    } else {
      assert d * m == (d + 1) * m - m;
    }
  }

  /** The closed form counts the indexes that map to object i. */
  lemma {:induction false} AssignedCountsIndexes(count: nat, objects: nat, i: nat)
    requires i < objects
    ensures |IndexesOf(count, objects, i)| == Assigned(count, objects, i)
  {
    if count == 0 {
      assert IndexesOf(0, objects, i) == {};
    } else {
      AssignedCountsIndexes(count - 1, objects, i);
      DivModStep(count - 1, objects);
      var added := if (count - 1) % objects == i then {count - 1} else {};
      assert IndexesOf(count, objects, i) == IndexesOf(count - 1, objects, i) + added;
    }
  }

  function Total(objects: Objects, upTo: nat): nat {
    if upTo == 0 then 0 else Total(objects, upTo - 1) + ObjectAt(objects, upTo - 1).n
  }

  function SumAssigned(count: nat, objects: nat, upTo: nat): nat
    requires objects > 0
  {
    if upTo == 0 then 0 else SumAssigned(count, objects, upTo - 1) + Assigned(count, objects, upTo - 1)
  }

  /** The closed forms of all counters add up to the number of requests. */
  lemma ClosedFormsAddUp(count: nat, objects: nat)
    requires objects > 0
    ensures SumAssigned(count, objects, objects) == count
  {
    PartialSum(count, objects, objects);
  }

  lemma {:induction false} PartialSum(count: nat, objects: nat, upTo: nat)
    requires objects > 0
    ensures SumAssigned(count, objects, upTo)
         == upTo * (count / objects) + if upTo <= count % objects then upTo else count % objects
  {
    if upTo > 0 {
      PartialSum(count, objects, upTo - 1);
      assert upTo * (count / objects) == (upTo - 1) * (count / objects) + count / objects;
    }
  }

  // ---------------------------------------------------------------- the worker pool

  /** Request ids are `prefix:phase:index`; the prefix is fixed for a run. */
  datatype Id = Id(phase: nat, index: nat)

  datatype Worker =
    | Ready
    | Requesting(index: nat)   // awaiting the response to its request
    | Throwing                 // an earlier error made the operation throw before drawing an index
    | Returned

  type Objects = map<nat, Counter<Id>>

  function ObjectAt(objects: Objects, o: nat): Counter<Id> {
    if o in objects then objects[o] else Counter(0, map[])
  }

  datatype Pool = Pool(
    outer: nat,                // `next` of runLoadBenchmark
    inner: nat,                // `next` of the batch
    firstError: bool,
    errors: nat,
    workers: seq<Worker>,
    succeeded: set<nat>,       // history: indexes whose operation returned
    claimed: seq<nat>,         // history: indexes drawn, in order
    objects: Objects)

  datatype Batch = Batch(phase: nat, count: nat, objects: nat)

  datatype Event =
    | Claim(w: nat)
    | Deliver(id: Id)          // a request reaches its object and commits: possibly late, possibly again
    | Finish(w: nat, ok: bool)

  function StartPool(b: Batch, concurrency: nat, objects: Objects): Pool {
    Pool(0, 0, false, 0, seq(Min(concurrency, b.count), _ => Ready), {}, [], objects)
  }

  predicate Committed(p: Pool, b: Batch, index: nat)
    requires b.objects > 0
  {
    Id(b.phase, index) in ObjectAt(p.objects, index % b.objects).requests
  }

  predicate Enabled(b: Batch, p: Pool, e: Event)
    requires b.objects > 0
  {
    match e
    case Claim(w) => w < |p.workers| && p.workers[w].Ready?
    case Deliver(id) =>
      (id.phase == b.phase && id.index < p.inner) || id in ObjectAt(p.objects, id.index % b.objects).requests
    case Finish(w, ok) =>
      w < |p.workers|
      && ((p.workers[w].Requesting? && (ok ==> Committed(p, b, p.workers[w].index))) || (p.workers[w].Throwing? && !ok))
  }

  function Next(b: Batch, p: Pool, e: Event): Pool
    requires b.objects > 0 && Enabled(b, p, e)
  {
    match e
    case Claim(w) =>
      var drawn := p.(outer := p.outer + 1);
      if p.outer >= b.count then drawn.(workers := p.workers[w := Returned])
      else if p.firstError then drawn.(workers := p.workers[w := Throwing])
      else drawn.(inner := p.inner + 1, workers := p.workers[w := Requesting(p.inner)], claimed := p.claimed + [p.inner])
    case Deliver(id) =>
      var o := id.index % b.objects;
      p.(objects := p.objects[o := Increment(ObjectAt(p.objects, o), Some(id)).0])
    case Finish(w, ok) =>
      var ready := p.(workers := p.workers[w := Ready]);
      if ok then ready.(succeeded := p.succeeded + {p.workers[w].index})
      else ready.(firstError := true, errors := p.errors + 1)
  }

  function Step(b: Batch, p: Pool, e: Event): Pool
    requires b.objects > 0
  {
    if Enabled(b, p, e) then Next(b, p, e) else p
  }

  function Run(b: Batch, p: Pool, es: seq<Event>): Pool
    requires b.objects > 0
    decreases |es|
  {
    if es == [] then p else Run(b, Step(b, p, es[0]), es[1..])
  }

  predicate Complete(p: Pool) {
    forall w :: 0 <= w < |p.workers| ==> p.workers[w].Returned?
  }

  // ---------------------------------------------------------------- indexes are drawn once

  predicate Drawing(p: Pool, index: nat) {
    exists w :: 0 <= w < |p.workers| && p.workers[w] == Requesting(index)
  }

  ghost predicate IndexInv(b: Batch, p: Pool) {
    && p.claimed == seq(p.inner, i => i)
    && p.inner <= b.count
    && (!p.firstError ==> p.inner == Min(p.outer, b.count))
    && (forall i :: i in p.succeeded ==> i < p.inner)
    && (forall w :: 0 <= w < |p.workers| && p.workers[w].Requesting? ==>
          p.workers[w].index < p.inner && p.workers[w].index !in p.succeeded)
    && (forall v, w :: 0 <= v < w < |p.workers| && p.workers[v].Requesting? && p.workers[w].Requesting? ==>
          p.workers[v].index != p.workers[w].index)
    && (!p.firstError ==> forall i :: 0 <= i < p.inner && i !in p.succeeded ==> Drawing(p, i))
    && (forall w :: 0 <= w < |p.workers| ==> (p.workers[w].Returned? ==> p.outer > b.count) && (p.workers[w].Throwing? ==> p.firstError))
  }

  lemma DrawingKept(p: Pool, w: nat, x: Worker)
    requires w < |p.workers|
    ensures forall i :: Drawing(p, i) && p.workers[w] != Requesting(i) ==> Drawing(p.(workers := p.workers[w := x]), i)
  {
    forall i | Drawing(p, i) && p.workers[w] != Requesting(i)
      ensures Drawing(p.(workers := p.workers[w := x]), i)
    {
      var v :| 0 <= v < |p.workers| && p.workers[v] == Requesting(i);
      assert p.workers[w := x][v] == Requesting(i);
    }
  }

  lemma IndexStep(b: Batch, p: Pool, e: Event)
    requires b.objects > 0 && IndexInv(b, p)
    ensures IndexInv(b, Step(b, p, e))
  {
    if Enabled(b, p, e) {
      match e
      case Claim(w) => ClaimStep(b, p, w);
      case Deliver(_) => assert forall i :: Drawing(p, i) <==> Drawing(Next(b, p, e), i);
      case Finish(w, ok) => FinishStep(b, p, w, ok);
    }
  }

  lemma ClaimStep(b: Batch, p: Pool, w: nat)
    requires b.objects > 0 && IndexInv(b, p) && Enabled(b, p, Claim(w))
    ensures IndexInv(b, Next(b, p, Claim(w)))
  {
    var t := Next(b, p, Claim(w));
    DrawingKept(p, w, t.workers[w]);
    assert forall i :: Drawing(p.(workers := t.workers), i) <==> Drawing(t, i);
    if t.inner > p.inner {
      assert t.workers[w] == Requesting(p.inner);
      assert Drawing(t, p.inner);
    }
  }

  lemma FinishStep(b: Batch, p: Pool, w: nat, ok: bool)
    requires b.objects > 0 && IndexInv(b, p) && Enabled(b, p, Finish(w, ok))
    ensures IndexInv(b, Next(b, p, Finish(w, ok)))
  {
    var t := Next(b, p, Finish(w, ok));
    DrawingKept(p, w, Ready);
    assert forall i :: Drawing(p.(workers := t.workers), i) <==> Drawing(t, i);
  }

  function Sum(ws: seq<Worker>, f: Worker -> nat): nat {
    if ws == [] then 0 else Sum(ws[..|ws| - 1], f) + f(ws[|ws| - 1])
  }

  lemma {:induction false} SumUpdate(ws: seq<Worker>, f: Worker -> nat, w: nat, x: Worker)
    requires w < |ws|
    ensures Sum(ws[w := x], f) == Sum(ws, f) - f(ws[w]) + f(x)
  {
    var last := |ws| - 1;
    if w == last {
      assert ws[w := x][..last] == ws[..last];
    } else {
      SumUpdate(ws[..last], f, w, x);
      assert ws[w := x][..last] == ws[..last][w := x];
    }
  }

  // ---------------------------------------------------------------- every index succeeds or is an error

  function Busy(w: Worker): nat { if w.Requesting? || w.Throwing? then 1 else 0 }

  /** Every index drawn so far succeeded, was counted as an error, or is still worked on. */
  predicate Accounted(b: Batch, p: Pool) {
    && |p.succeeded| + p.errors + Sum(p.workers, Busy) == Min(p.outer, b.count)
    && (p.firstError <==> p.errors > 0)
  }

  lemma AccountStep(b: Batch, p: Pool, e: Event)
    requires b.objects > 0 && IndexInv(b, p) && Accounted(b, p)
    ensures Accounted(b, Step(b, p, e))
  {
    if Enabled(b, p, e) {
      match e
      case Claim(w) => SumUpdate(p.workers, Busy, w, Next(b, p, e).workers[w]);
      case Deliver(_) =>
      case Finish(w, ok) =>
        SumUpdate(p.workers, Busy, w, Ready);
        assert ok ==> p.workers[w].index !in p.succeeded;
    }
  }

  lemma {:induction false} NobodyIsBusy(ws: seq<Worker>)
    requires forall w :: 0 <= w < |ws| ==> Busy(ws[w]) == 0
    ensures Sum(ws, Busy) == 0
  {
    if ws != [] {
      NobodyIsBusy(ws[..|ws| - 1]);
    }
  }

  lemma {:induction false} RunAccounted(b: Batch, p: Pool, es: seq<Event>)
    requires b.objects > 0 && IndexInv(b, p) && Accounted(b, p)
    ensures IndexInv(b, Run(b, p, es)) && Accounted(b, Run(b, p, es)) && |Run(b, p, es).workers| == |p.workers|
    decreases |es|
  {
    if es != [] {
      IndexStep(b, p, es[0]);
      AccountStep(b, p, es[0]);
      RunAccounted(b, Step(b, p, es[0]), es[1..]);
    }
  }

  /** Once a batch is complete, its errors are exactly the operations that did not succeed. */
  lemma ErrorsAreTheRest(b: Batch, concurrency: nat, objects: Objects, es: seq<Event>)
    requires b.objects > 0 && concurrency > 0
    ensures var p := Run(b, StartPool(b, concurrency, objects), es);
      && (p.firstError <==> p.errors > 0)
      && |p.succeeded| + p.errors <= b.count
      && (Complete(p) ==> |p.succeeded| + p.errors == b.count)
  {
    var start := StartPool(b, concurrency, objects);
    assert start.claimed == seq(start.inner, i => i);
    NobodyIsBusy(start.workers);
    RunAccounted(b, start, es);
    var p := Run(b, start, es);
    if Complete(p) {
      NobodyIsBusy(p.workers);
      if b.count > 0 {
        assert p.workers[0].Returned?;
      }
    }
  }

  // ---------------------------------------------------------------- what the objects hold

  /** Object o holds what it held before and ids of this batch that map to it, each counted once. */
  ghost predicate Holds(b: Batch, before: Objects, inner: nat, o: nat, c: Counter<Id>)
    requires b.objects > 0
  {
    var was := ObjectAt(before, o).requests.Keys;
    && was <= c.requests.Keys
    && (forall id :: id in c.requests.Keys - was ==> id.phase == b.phase && id.index < inner && id.index % b.objects == o)
    && c.n == |c.requests.Keys|
  }

  ghost predicate ObjectInv(b: Batch, before: Objects, p: Pool)
    requires b.objects > 0
  {
    && (forall o :: 0 <= o < b.objects ==> Holds(b, before, p.inner, o, ObjectAt(p.objects, o)))
    && (forall i :: i in p.succeeded ==> Committed(p, b, i))
  }

  lemma IncrementHolds(b: Batch, before: Objects, inner: nat, o: nat, c: Counter<Id>, id: Id)
    requires b.objects > 0 && Holds(b, before, inner, o, c) && id.index % b.objects == o
    requires (id.phase == b.phase && id.index < inner) || id in c.requests
    ensures Holds(b, before, inner, o, Increment(c, Some(id)).0)
    ensures Increment(c, Some(id)).0.requests.Keys == c.requests.Keys + {id}
  {}

  lemma ObjectStep(b: Batch, before: Objects, p: Pool, e: Event)
    requires b.objects > 0 && ObjectInv(b, before, p)
    ensures ObjectInv(b, before, Step(b, p, e))
  {
    if Enabled(b, p, e) {
      match e
      case Claim(_) =>
        assert forall o :: 0 <= o < b.objects ==> Holds(b, before, p.inner + 1, o, ObjectAt(p.objects, o));
      case Deliver(id) => DeliverStep(b, before, p, id);
      case Finish(_, _) =>
    }
  }

  lemma DeliverStep(b: Batch, before: Objects, p: Pool, id: Id)
    requires b.objects > 0 && ObjectInv(b, before, p) && Enabled(b, p, Deliver(id))
    ensures ObjectInv(b, before, Next(b, p, Deliver(id)))
  {
    var t := Next(b, p, Deliver(id));
    var o := id.index % b.objects;
    var c := ObjectAt(p.objects, o);
    assert Holds(b, before, p.inner, o, c);
    IncrementHolds(b, before, p.inner, o, c, id);
    forall k: nat | k < b.objects ensures Holds(b, before, t.inner, k, ObjectAt(t.objects, k)) {
      assert Holds(b, before, p.inner, k, ObjectAt(p.objects, k));
      OthersUnchanged(p.objects, o, Increment(c, Some(id)).0, k);
    }
    forall i | i in t.succeeded ensures Committed(t, b, i) {
      assert Committed(p, b, i);
      OthersUnchanged(p.objects, o, Increment(c, Some(id)).0, i % b.objects);
    }
  }

  lemma OthersUnchanged(objects: Objects, o: nat, c: Counter<Id>, k: nat)
    ensures ObjectAt(objects[o := c], k) == if k == o then c else ObjectAt(objects, k)
  {}

  ghost predicate Exact(objects: Objects, o: nat) {
    ObjectAt(objects, o).n == |ObjectAt(objects, o).requests.Keys|
  }

  lemma StartInv(b: Batch, concurrency: nat, objects: Objects)
    requires b.objects > 0
    requires forall o :: 0 <= o < b.objects ==> Exact(objects, o)
    ensures IndexInv(b, StartPool(b, concurrency, objects))
    ensures ObjectInv(b, objects, StartPool(b, concurrency, objects))
  {
    var start := StartPool(b, concurrency, objects);
    assert start.claimed == seq(start.inner, i => i);
    forall o: nat | o < b.objects ensures Holds(b, objects, start.inner, o, ObjectAt(start.objects, o)) {
      assert Exact(objects, o);
    }
  }

  lemma {:induction false} RunInv(b: Batch, before: Objects, p: Pool, es: seq<Event>)
    requires b.objects > 0 && IndexInv(b, p) && ObjectInv(b, before, p)
    ensures IndexInv(b, Run(b, p, es)) && ObjectInv(b, before, Run(b, p, es))
    ensures |Run(b, p, es).workers| == |p.workers|
    decreases |es|
  {
    if es != [] {
      IndexStep(b, p, es[0]);
      ObjectStep(b, before, p, es[0]);
      RunInv(b, before, Step(b, p, es[0]), es[1..]);
    }
  }

  /**
   * Whatever the interleaving of the workers, every index is drawn once and in order; and when the
   * batch completes without an error, every index below the count was drawn and succeeded.
   */
  lemma EachIndexOnce(b: Batch, concurrency: nat, objects: Objects, es: seq<Event>)
    requires b.objects > 0 && concurrency > 0
    requires forall o :: 0 <= o < b.objects ==> Exact(objects, o)
    ensures var p := Run(b, StartPool(b, concurrency, objects), es);
      && p.claimed == seq(p.inner, i => i) && p.inner <= b.count
      && (Complete(p) && !p.firstError ==>
            p.inner == b.count && forall i: nat :: i < b.count ==> i in p.succeeded)
  {
    var start := StartPool(b, concurrency, objects);
    StartInv(b, concurrency, objects);
    RunInv(b, objects, start, es);
    var p := Run(b, start, es);
    if Complete(p) && !p.firstError {
      if b.count > 0 {
        assert p.workers[0].Returned?;
      }
      assert forall i :: 0 <= i < p.inner ==> !Drawing(p, i);
    }
  }

  /** A completed batch without errors adds exactly its share to every counter. */
  lemma BatchAddsItsShare(b: Batch, concurrency: nat, objects: Objects, es: seq<Event>, o: nat)
    requires o < b.objects && concurrency > 0
    requires forall k :: 0 <= k < b.objects ==> Exact(objects, k)
    requires forall id :: id in ObjectAt(objects, o).requests ==> id.phase != b.phase
    ensures var p := Run(b, StartPool(b, concurrency, objects), es);
      Complete(p) && !p.firstError ==>
        && ObjectAt(p.objects, o).n == ObjectAt(objects, o).n + Assigned(b.count, b.objects, o)
        && (forall k :: 0 <= k < b.objects ==> Exact(p.objects, k))
        && (forall id :: id in ObjectAt(p.objects, o).requests ==> id in ObjectAt(objects, o).requests || id.phase == b.phase)
  {
    var start := StartPool(b, concurrency, objects);
    StartInv(b, concurrency, objects);
    RunInv(b, objects, start, es);
    EachIndexOnce(b, concurrency, objects, es);
    var p := Run(b, start, es);
    if Complete(p) && !p.firstError {
      ShareIsExact(b, objects, p, o);
      forall k: nat | k < b.objects ensures Exact(p.objects, k) {
        assert Holds(b, objects, p.inner, k, ObjectAt(p.objects, k));
      }
      assert Holds(b, objects, p.inner, o, ObjectAt(p.objects, o));
    }
  }

  lemma ShareIsExact(b: Batch, before: Objects, p: Pool, o: nat)
    requires o < b.objects && ObjectInv(b, before, p)
    requires p.inner == b.count && forall i: nat :: i < b.count ==> i in p.succeeded
    requires Exact(before, o)
    requires forall id :: id in ObjectAt(before, o).requests ==> id.phase != b.phase
    ensures ObjectAt(p.objects, o).n == ObjectAt(before, o).n + Assigned(b.count, b.objects, o)
  {
    var keys, was := ObjectAt(p.objects, o).requests.Keys, ObjectAt(before, o).requests.Keys;
    var mine := IndexesOf(b.count, b.objects, o);
    var added := Image(mine, i => Id(b.phase, i));
    AssignedCountsIndexes(b.count, b.objects, o);
    InjectiveImage(mine, i => Id(b.phase, i));
    assert keys == was + added by {
      forall id | id in added ensures id in keys {
        assert id.index in p.succeeded;
      }
      forall id | id in keys ensures id in was + added {
        if id !in was {
          assert id.index in mine;
        }
      }
    }
    assert was !! added;
  }

  lemma {:induction false} TotalIsSum(counters: Objects, warmup: nat, iterations: nat, objects: nat, upTo: nat)
    requires 0 < objects && upTo <= objects
    requires forall o :: 0 <= o < objects ==>
      ObjectAt(counters, o).n == Assigned(warmup, objects, o) + Assigned(iterations, objects, o)
    ensures Total(counters, upTo) == SumAssigned(warmup, objects, upTo) + SumAssigned(iterations, objects, upTo)
  {
    if upTo > 0 {
      TotalIsSum(counters, warmup, iterations, objects, upTo - 1);
      assert ObjectAt(counters, upTo - 1).n == Assigned(warmup, objects, upTo - 1) + Assigned(iterations, objects, upTo - 1);
    }
  }

  /**
   * A whole gateway case on fresh objects: if both batches complete without an error, every counter
   * shows its two shares, and all of them together show warmup + iterations.
   */
  lemma CountersMatchClosedForm(warmup: nat, iterations: nat, objects: nat, concurrency: nat, first: seq<Event>, second: seq<Event>)
    requires objects > 0 && concurrency > 0
    ensures var warm := Batch(0, warmup, objects);
            var p := Run(warm, StartPool(warm, concurrency, map[]), first);
            var measured := Batch(1, iterations, objects);
            var q := Run(measured, StartPool(measured, concurrency, p.objects), second);
      Complete(p) && !p.firstError && Complete(q) && !q.firstError ==>
        && (forall o :: 0 <= o < objects ==>
              ObjectAt(q.objects, o).n == Assigned(warmup, objects, o) + Assigned(iterations, objects, o))
        && Total(q.objects, objects) == warmup + iterations
  {
    var warm, measured := Batch(0, warmup, objects), Batch(1, iterations, objects);
    var p := Run(warm, StartPool(warm, concurrency, map[]), first);
    var q := Run(measured, StartPool(measured, concurrency, p.objects), second);
    ClosedFormsAddUp(warmup, objects);
    ClosedFormsAddUp(iterations, objects);
    if Complete(p) && !p.firstError && Complete(q) && !q.firstError {
      forall o | 0 <= o < objects
        ensures ObjectAt(q.objects, o).n == Assigned(warmup, objects, o) + Assigned(iterations, objects, o)
      {
        BatchAddsItsShare(warm, concurrency, map[], first, o);
        BatchAddsItsShare(measured, concurrency, p.objects, second, o);
      }
      TotalIsSum(q.objects, warmup, iterations, objects, objects);
    }
  }

  // ---------------------------------------------------------------- a batch can always complete

  /** What a worker still has to do, apart from drawing. */
  function Load(w: Worker): nat {
    match w
    case Returned => 0
    case Ready => 1
    case _ => 2
  }

  /** A worker that has not returned can take its next steps alone, without an error of its own. */
  function Move(b: Batch, p: Pool, w: nat): (es: seq<Event>)
    requires w < |p.workers|
    ensures es != [] && |es| <= 2
  {
    match p.workers[w]
    case Requesting(i) => [Deliver(Id(b.phase, i)), Finish(w, true)]
    case Throwing => [Finish(w, false)]
    case _ => [Claim(w)]
  }

  lemma MoveAdvances(b: Batch, p: Pool, w: nat)
    requires b.objects > 0 && IndexInv(b, p) && w < |p.workers| && !p.workers[w].Returned?
    ensures var t := Run(b, p, Move(b, p, w));
      && |t.workers| == |p.workers| && t.firstError == p.firstError
      && t.outer == p.outer + (if p.workers[w].Ready? then 1 else 0)
      && Sum(t.workers, Load) == Sum(p.workers, Load) + (if p.workers[w].Ready? && p.outer < b.count then 1 else -1)
  {
    var es := Move(b, p, w);
    var first := Step(b, p, es[0]);
    if p.workers[w].Requesting? {
      var i := p.workers[w].index;
      assert Enabled(b, p, Deliver(Id(b.phase, i)));
      assert Committed(first, b, i);
      assert Run(b, p, es) == Run(b, Step(b, first, es[1]), es[1..][1..]);
    } else {
      assert Run(b, p, es) == first;
    }
    SumUpdate(p.workers, Load, w, Run(b, p, es).workers[w]);
  }

  lemma {:induction false} RunConcat(b: Batch, p: Pool, a: seq<Event>, rest: seq<Event>)
    requires b.objects > 0
    ensures Run(b, p, a + rest) == Run(b, Run(b, p, a), rest)
    decreases |a|
  {
    if a == [] {
      assert a + rest == rest;
    } else {
      assert (a + rest)[1..] == a[1..] + rest;
      RunConcat(b, Step(b, p, a[0]), a[1..], rest);
    }
  }

  lemma {:induction false} CanComplete(b: Batch, before: Objects, p: Pool) returns (es: seq<Event>)
    requires b.objects > 0 && IndexInv(b, p) && ObjectInv(b, before, p)
    ensures Complete(Run(b, p, es)) && Run(b, p, es).firstError == p.firstError
    decreases if p.outer < b.count then b.count - p.outer else 0, Sum(p.workers, Load)
  {
    if Complete(p) {
      es := [];
    } else {
      var w :| 0 <= w < |p.workers| && !p.workers[w].Returned?;
      var move := Move(b, p, w);
      MoveAdvances(b, p, w);
      RunInv(b, before, p, move);
      var rest := CanComplete(b, before, Run(b, p, move));
      RunConcat(b, p, move, rest);
      es := move + rest;
    }
  }

  /**
   * Whatever has happened in a batch, it can go on to complete; and if no operation had failed, it can
   * do so without one, and then every counter has its share.
   */
  lemma BatchCanComplete(b: Batch, concurrency: nat, objects: Objects, so: seq<Event>) returns (es: seq<Event>)
    requires b.objects > 0 && concurrency > 0
    requires forall k :: 0 <= k < b.objects ==> Exact(objects, k)
    requires forall o :: 0 <= o < b.objects ==> forall id :: id in ObjectAt(objects, o).requests ==> id.phase != b.phase
    ensures var p := Run(b, StartPool(b, concurrency, objects), so);
            var q := Run(b, StartPool(b, concurrency, objects), so + es);
      && Complete(q)
      && (!p.firstError ==>
            !q.firstError
            && forall o :: 0 <= o < b.objects ==>
                 ObjectAt(q.objects, o).n == ObjectAt(objects, o).n + Assigned(b.count, b.objects, o))
  {
    var start := StartPool(b, concurrency, objects);
    StartInv(b, concurrency, objects);
    RunInv(b, objects, start, so);
    es := CanComplete(b, objects, Run(b, start, so));
    RunConcat(b, start, so, es);
    if !Run(b, start, so).firstError {
      forall o | 0 <= o < b.objects
        ensures ObjectAt(Run(b, start, so + es).objects, o).n == ObjectAt(objects, o).n + Assigned(b.count, b.objects, o)
      {
        BatchAddsItsShare(b, concurrency, objects, so + es, o);
      }
    }
  }
}
