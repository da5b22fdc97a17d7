/**
 * Delivering billing webhooks: one attempt turns a pending delivery into a delivered, failed or
 * pending one; a pass attempts every pending delivery that is due. Passes run one after another.
 */
module BillingWebhook {
  import opened Wrappers

  datatype Status = Pending | Delivered | Failed

  datatype Delivery = Delivery(
    status: Status,
    attempts: nat,
    nextAttemptAt: Option<int>,
    lastAttemptAt: Option<int>,
    lastStatus: Option<nat>,
    deliveredAt: Option<int>)

  /** What the target does: it answers, or the request (or reading its error text) throws. */
  datatype Reply = Answered(ok: bool, status: nat) | Threw

  datatype Options = Options(maxAttempts: Option<int>, retryDelayMs: Option<int>)

  const FRESH: Delivery := Delivery(Pending, 0, None, None, None, None)

  function Max(o: Options): int { if o.maxAttempts.Some? then o.maxAttempts.value else 3 }

  function Delay(o: Options): int { if o.retryDelayMs.Some? then o.retryDelayMs.value else 1000 }

  predicate Valid(o: Options) { Max(o) > 0 && Delay(o) >= 0 }

  predicate Retryable(r: Reply) {
    r.Threw? || r.status in {408, 409, 425, 429, 500, 502, 503, 504} || r.status >= 500
  }

  function FailedOrPending(d: Delivery, attempts: nat, at: int, r: Reply, o: Options): Delivery {
    var canRetry := Retryable(r) && attempts < Max(o);
    d.(status := if canRetry then Pending else Failed,
       attempts := attempts,
       lastAttemptAt := Some(at),
       lastStatus := if r.Answered? then Some(r.status) else d.lastStatus,
       nextAttemptAt := if canRetry then Some(at + Delay(o)) else None,
       deliveredAt := None)
  }

  /** Invalid options make every attempt of a pending delivery throw. */
  function Attempt(d: Delivery, at: int, r: Reply, o: Options): Result<Delivery, string> {
    if !d.status.Pending? then Ok(d)
    else if !Valid(o) then Err("validation")
    else if r.Answered? && r.ok then
      Ok(d.(status := Delivered, attempts := d.attempts + 1, lastAttemptAt := Some(at), lastStatus := Some(r.status),
            nextAttemptAt := None, deliveredAt := Some(at)))
    else Ok(FailedOrPending(d, d.attempts + 1, at, r, o))
  }

  // ---------------------------------------------------------------- one delivery over many attempts

  predicate Accepts(r: Reply) {
    r.Answered? && r.ok
  }

  /** A failed reply after which another attempt may help: no answer, a conflict or overload, or a server error. */
  predicate AsksForRetry(r: Reply) {
    r.Threw? || (!r.ok && (r.status == 408 || r.status == 409 || r.status == 425 || r.status == 429 || r.status >= 500))
  }

  /** Without options there are three attempts, a second apart. */
  predicate Means(o: Options, max: nat, delay: nat) {
    && max > 0
    && (o.maxAttempts == Some(max) || (o.maxAttempts.None? && max == 3))
    && (o.retryDelayMs == Some(delay) || (o.retryDelayMs.None? && delay == 1000))
  }

  /** An attempt throws exactly for a pending delivery under a maximum below one or a negative delay. */
  lemma OptionsMatter(d: Delivery, at: int, r: Reply, o: Options)
    ensures Attempt(d, at, r, o).Err? <==>
      d.status.Pending? && ((o.maxAttempts.Some? && o.maxAttempts.value < 1) || (o.retryDelayMs.Some? && o.retryDelayMs.value < 0))
  {}

  function AttemptAll(d: Delivery, replies: seq<(int, Reply)>, o: Options): Delivery
    requires Valid(o)
  {
    if replies == [] then d
    else
      var n := |replies| - 1;
      Attempt(AttemptAll(d, replies[..n], o), replies[n].0, replies[n].1, o).value
  }

  /** How many attempts are made: up to the first reply that does not ask for another one, and never more than the maximum. */
  function Used(replies: seq<(int, Reply)>, max: nat): (n: nat)
    ensures n <= |replies| && n <= max
  {
    if replies == [] || max == 0 then 0
    else if !AsksForRetry(replies[0].1) then 1
    else 1 + Used(replies[1..], max - 1)
  }

  lemma {:induction false} UsedOfLonger(replies: seq<(int, Reply)>, r: (int, Reply), max: nat)
    ensures Used(replies + [r], max) ==
      if Used(replies, max) == max || (Used(replies, max) > 0 && !AsksForRetry(replies[Used(replies, max) - 1].1))
      then Used(replies, max) else |replies| + 1
    ensures Used(replies, max) == max || Used(replies, max) == |replies|
         || (Used(replies, max) > 0 && !AsksForRetry(replies[Used(replies, max) - 1].1))
  {
    if replies == [] {
      assert Used([r][1..], max - if max > 0 then 1 else 0) == 0;
    } else if max > 0 && AsksForRetry(replies[0].1) {
      UsedOfLonger(replies[1..], r, max - 1);
      assert (replies + [r])[1..] == replies[1..] + [r];
    }
  }

  /** The status of the last answer. */
  function LastAnswer(replies: seq<(int, Reply)>): Option<nat> {
    if replies == [] then None
    else
      var r := replies[|replies| - 1].1;
      if r.Answered? then Some(r.status) else LastAnswer(replies[..|replies| - 1])
  }

  /** What the n-th reply, the last one used, leaves behind. */
  predicate LeftBy(d: Delivery, replies: seq<(int, Reply)>, n: nat, max: nat, delay: nat)
    requires n <= |replies|
  {
    && d.attempts == n
    && d.lastStatus == LastAnswer(replies[..n])
    && (if n == 0 then d == FRESH
        else
          var (at, r) := replies[n - 1];
          && d.status == (if Accepts(r) then Delivered else if AsksForRetry(r) && n < max then Pending else Failed)
          && d.nextAttemptAt == (if d.status.Pending? then Some(at + delay) else None)
          && d.deliveredAt == (if d.status.Delivered? then Some(at) else None)
          && d.lastAttemptAt == Some(at))
  }

  lemma LeftByStep(d: Delivery, init: seq<(int, Reply)>, last: (int, Reply), o: Options, max: nat, delay: nat)
    requires Means(o, max, delay) && LeftBy(d, init, Used(init, max), max, delay)
    ensures LeftBy(Attempt(d, last.0, last.1, o).value, init + [last], Used(init + [last], max), max, delay)
  {
    UsedOfLonger(init, last, max);
    var n, all := Used(init, max), init + [last];
    assert n > 0 ==> all[n - 1] == init[n - 1];
    assert all[|init|] == last;
    assert d.status.Pending? <==> Used(all, max) == |all|;
    if d.status.Pending? {
      assert all[..|all|] == all && all[..|init|] == init && init[..n] == init;
    } else {
      assert all[..n] == init[..n];
    }
  }

  /**
   * The outcome of any number of attempts on a fresh delivery in closed form: attempts stop at the
   * first accepting or final answer, or when the maximum is used up; the last one made decides.
   */
  lemma {:induction false} DeliveryOutcome(replies: seq<(int, Reply)>, o: Options, max: nat, delay: nat)
    requires Means(o, max, delay)
    ensures LeftBy(AttemptAll(FRESH, replies, o), replies, Used(replies, max), max, delay)
  {
    if replies == [] {
      assert replies[..0] == [];
    } else {
      var init, last := replies[..|replies| - 1], replies[|replies| - 1];
      DeliveryOutcome(init, o, max, delay);
      LeftByStep(AttemptAll(FRESH, init, o), init, last, o, max, delay);
      assert replies == init + [last];
    }
  }

  // ---------------------------------------------------------------- passes

  predicate Due(d: Delivery, now: int) {
    d.status.Pending? && (d.nextAttemptAt.None? || d.nextAttemptAt.value <= now)
  }

  /** What a pass does to one delivery: `now` is the clock when it lists, `at` when it attempts. */
  datatype Visit = Visit(now: int, at: int, reply: Reply)

  function Visited(d: Delivery, v: Visit, o: Options): Delivery
    requires Valid(o)
  {
    if Due(d, v.now) then Attempt(d, v.at, v.reply, o).value else d
  }

  function VisitAll(d: Delivery, vs: seq<Visit>, o: Options): Delivery
    requires Valid(o)
  {
    if vs == [] then d else Visited(VisitAll(d, vs[..|vs| - 1], o), vs[|vs| - 1], o)
  }

  /** When requests were sent to the target. */
  function SentAt(d: Delivery, vs: seq<Visit>, o: Options): seq<int>
    requires Valid(o)
  {
    if vs == [] then []
    else
      var n := |vs| - 1;
      SentAt(d, vs[..n], o) + if Due(VisitAll(d, vs[..n], o), vs[n].now) then [vs[n].at] else []
  }

  /** At most the maximum number of requests, as many as recorded, the retry delay apart. */
  predicate Spaced(sent: seq<int>, d: Delivery, max: nat, delay: nat) {
    && |sent| == d.attempts <= max
    && (d.status.Pending? ==> d.attempts < max)
    && (sent == [] ==> d == FRESH)
    && (sent != [] && d.status.Pending? ==> d.nextAttemptAt == Some(sent[|sent| - 1] + delay))
    && (forall i :: 0 < i < |sent| ==> sent[i] >= sent[i - 1] + delay)
  }

  lemma VisitKeepsSpaced(sent: seq<int>, d: Delivery, v: Visit, o: Options, max: nat, delay: nat)
    requires Means(o, max, delay) && v.now <= v.at && Spaced(sent, d, max, delay)
    ensures Spaced(if Due(d, v.now) then sent + [v.at] else sent, Visited(d, v, o), max, delay)
  {}

  /**
   * However often passes run: the target sees at most the maximum number of requests for a delivery,
   * as many as it records, and consecutive ones at least the retry delay apart.
   */
  lemma {:induction false} RequestsAreBoundedAndSpaced(vs: seq<Visit>, o: Options, max: nat, delay: nat)
    requires Means(o, max, delay) && forall i :: 0 <= i < |vs| ==> vs[i].now <= vs[i].at
    ensures Spaced(SentAt(FRESH, vs, o), VisitAll(FRESH, vs, o), max, delay)
  {
    if vs != [] {
      var init, last := vs[..|vs| - 1], vs[|vs| - 1];
      RequestsAreBoundedAndSpaced(init, o, max, delay);
      VisitKeepsSpaced(SentAt(FRESH, init, o), VisitAll(FRESH, init, o), last, o, max, delay);
      assert SentAt(FRESH, init, o) + [] == SentAt(FRESH, init, o);
    }
  }

  /**
   * A visit sends a request exactly if the delivery is still pending and the retry delay has passed
   * since the last request, or there was none.
   */
  lemma SendsWhenDue(vs: seq<Visit>, v: Visit, o: Options, max: nat, delay: nat)
    requires Means(o, max, delay) && forall i :: 0 <= i < |vs| ==> vs[i].now <= vs[i].at
    ensures var sent := SentAt(FRESH, vs, o);
      SentAt(FRESH, vs + [v], o) ==
        if VisitAll(FRESH, vs, o).status.Pending? && (sent == [] || sent[|sent| - 1] + delay <= v.now)
        then sent + [v.at] else sent
  {
    RequestsAreBoundedAndSpaced(vs, o, max, delay);
    assert (vs + [v])[..|vs|] == vs;
  }

  /** A delivery whose target only ever asks for retries stays pending until all its requests were sent, and then fails. */
  lemma {:induction false} GivesUpLast(vs: seq<Visit>, o: Options, max: nat, delay: nat)
    requires Means(o, max, delay) && forall i :: 0 <= i < |vs| ==> AsksForRetry(vs[i].reply)
    ensures var d := VisitAll(FRESH, vs, o);
      |SentAt(FRESH, vs, o)| == d.attempts && d.status == if d.attempts < max then Pending else Failed
  {
    if vs != [] {
      GivesUpLast(vs[..|vs| - 1], o, max, delay);
    }
  }

  /** A delivered or failed delivery is final: no further pass sends anything or changes it. */
  lemma {:induction false} FinalIsFinal(d: Delivery, vs: seq<Visit>, o: Options)
    requires Valid(o) && !d.status.Pending?
    ensures VisitAll(d, vs, o) == d && SentAt(d, vs, o) == []
  {
    if vs != [] {
      FinalIsFinal(d, vs[..|vs| - 1], o);
    }
  }

  function DueCount(deliveries: map<string, Delivery>, ids: seq<string>, now: int): nat {
    if ids == [] then 0
    else
      var last := ids[|ids| - 1];
      DueCount(deliveries, ids[..|ids| - 1], now) + if last in deliveries && Due(deliveries[last], now) then 1 else 0
  }

  predicate IsDue(deliveries: map<string, Delivery>, id: string, now: int) {
    id in deliveries && deliveries[id].status == Pending
    && (deliveries[id].nextAttemptAt.Some? ==> deliveries[id].nextAttemptAt.value <= now)
  }

  ghost function DueIds(deliveries: map<string, Delivery>, ids: seq<string>, now: int): set<string> {
    set id | id in ids && IsDue(deliveries, id, now)
  }

  lemma DueIdsAppend(deliveries: map<string, Delivery>, init: seq<string>, last: string, now: int)
    requires last !in init
    ensures |DueIds(deliveries, init + [last], now)|
         == |DueIds(deliveries, init, now)| + if IsDue(deliveries, last, now) then 1 else 0
  {
    var added := if IsDue(deliveries, last, now) then {last} else {};
    assert DueIds(deliveries, init + [last], now) == DueIds(deliveries, init, now) + added;
  }

  /** What a pass reports is the number of due deliveries among those listed. */
  lemma {:induction false} CountsDue(deliveries: map<string, Delivery>, ids: seq<string>, now: int)
    requires Distinct(ids)
    ensures DueCount(deliveries, ids, now) == |DueIds(deliveries, ids, now)|
  {
    if ids == [] {
      assert DueIds(deliveries, ids, now) == {};
    } else {
      var init, last := ids[..|ids| - 1], ids[|ids| - 1];
      CountsDue(deliveries, init, now);
      assert ids == init + [last];
      DueIdsAppend(deliveries, init, last, now);
    }
  }

  class Repository {
    var deliveries: map<string, Delivery>

    /**
     * One pass. `pending` is what listing the pending deliveries returns; `visit` gives the clock
     * at each attempt and the target's reply.
     */
    method DeliverPending(pending: seq<string>, now: int, visit: string -> (int, Reply), o: Options)
      returns (attempted: Result<nat, string>)
      requires Distinct(pending)
      requires forall id :: id in pending <==> id in deliveries && deliveries[id].status.Pending?
      modifies this
      ensures deliveries.Keys == old(deliveries.Keys)
      ensures attempted.Err? <==> !Valid(o) && exists id :: id in old(deliveries) && Due(old(deliveries)[id], now)
      ensures attempted.Ok? ==> attempted.value == DueCount(old(deliveries), pending, now)
      ensures attempted.Err? || !Valid(o) ==> deliveries == old(deliveries)
      ensures Valid(o) ==> forall id :: id in deliveries ==>
        deliveries[id] == Visited(old(deliveries)[id], Visit(now, visit(id).0, visit(id).1), o)
    {
      var i, count := 0, 0;
      while i < |pending|
        invariant 0 <= i <= |pending|
        invariant count == DueCount(old(deliveries), pending[..i], now)
        invariant deliveries.Keys == old(deliveries.Keys)
        invariant !Valid(o) ==> deliveries == old(deliveries)
        invariant !Valid(o) ==> forall k :: 0 <= k < i ==> !Due(old(deliveries)[pending[k]], now)
        invariant Valid(o) ==> forall id :: id in deliveries ==>
          deliveries[id] == if id in pending[..i]
                            then Visited(old(deliveries)[id], Visit(now, visit(id).0, visit(id).1), o)
                            else old(deliveries)[id]
      {
        var id := pending[i];
        assert forall k :: 0 <= k < i ==> pending[..i][k] != id;
        if Due(deliveries[id], now) {
          var (at, reply) := visit(id);
          var updated := Attempt(deliveries[id], at, reply, o);
          if updated.Err? {
            return Err(updated.error);
          }
          deliveries := deliveries[id := updated.value];
          count := count + 1;
        }
        assert pending[..i + 1] == pending[..i] + [id];
        i := i + 1;
      }
      assert pending[..i] == pending;
      attempted := Ok(count);
    }
  }
}
