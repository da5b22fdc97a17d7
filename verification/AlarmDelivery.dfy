/**
 * Alarms of durable objects: a dispatcher that delivers every due alarm at least once, and an
 * object whose transaction records each delivered time, so that every time takes effect once.
 *
 * An object's storage is its keys and one alarm slot.  A transaction followed by setAlarm is one
 * step, and the deliveries of one object are serial.
 */
module AlarmDelivery {
  import opened Wrappers

  /** The largest time a Date can hold; toISOString throws beyond it. */
  const MAX_DATE: int := 8_640_000_000_000_000

  predicate ValidDate(ms: int) {
    -MAX_DATE <= ms <= MAX_DATE
  }

  /** `undefined` and `null` are both None where the source treats them alike. */
  datatype Storage = Storage(
    alarm: Option<int>,             // the alarm slot
    alarmCount: Option<nat>,
    remainingRepeats: Option<nat>,
    repeatMs: Option<nat>,
    scheduledAt: Option<int>,
    lastScheduledTime: Option<int>,
    updatedAt: Option<int>,
    deliveries: set<int>)           // times t with alarmDelivery:t set

  const FRESH := Storage(None, None, None, None, None, None, None, {})

  function Count(s: Storage): nat { if s.alarmCount.Some? then s.alarmCount.value else 0 }
  function Remaining(s: Storage): nat { if s.remainingRepeats.Some? then s.remainingRepeats.value else 0 }

  // ---------------------------------------------------------------- schedule, deliver, clear

  predicate ScheduleFails(now: nat, delayMs: nat) {
    !ValidDate(now) || !ValidDate(now + delayMs)
  }

  function Scheduled(s: Storage, now: nat, delayMs: nat, repeatMs: Option<nat>, repeatLimit: nat): Storage {
    if ScheduleFails(now, delayMs) then s
    else s.(alarm := Some(now + delayMs), scheduledAt := Some(now + delayMs), repeatMs := repeatMs,
            remainingRepeats := Some(repeatLimit), updatedAt := Some(now), alarmCount := Some(Count(s)))
  }

  predicate Repeats(s: Storage) {
    s.repeatMs.Some? && s.repeatMs.value > 0 && Remaining(s) > 0
  }

  predicate DeliverFails(s: Storage, time: int, now: nat) {
    || !ValidDate(time) || !ValidDate(now)
    || (time !in s.deliveries && Repeats(s) && !ValidDate(time + s.repeatMs.value))
  }

  /** A time that was delivered before changes nothing; a failed transaction rolls back. */
  function Delivered(s: Storage, time: int, now: nat): Storage {
    if DeliverFails(s, time, now) || time in s.deliveries then s
    else
      var counted := s.(alarmCount := Some(Count(s) + 1), lastScheduledTime := Some(time), updatedAt := Some(now),
                        deliveries := s.deliveries + {time}, remainingRepeats := Some(Remaining(s)));
      if Repeats(s) then
        var next := time + s.repeatMs.value;
        counted.(remainingRepeats := Some(Remaining(s) - 1), scheduledAt := Some(next), alarm := Some(next))
      else counted
  }

  function Cleared(s: Storage, time: int): Storage {
    if s.alarm == Some(time) then s.(alarm := None) else s
  }

  class DurableObject {
    var storage: Storage

    constructor ()
      ensures storage == FRESH
    {
      storage := FRESH;
    }

    method Schedule(now: nat, delayMs: nat, repeatMs: Option<nat>, repeatLimit: nat) returns (ok: bool)
      modifies this
      ensures ok <==> !ScheduleFails(now, delayMs)
      ensures storage == Scheduled(old(storage), now, delayMs, repeatMs, repeatLimit)
    {
      var scheduledAt := now + delayMs;
      if !ValidDate(now) || !ValidDate(scheduledAt) {
        return false;
      }
      storage := storage.(scheduledAt := Some(scheduledAt), repeatMs := repeatMs,
                          remainingRepeats := Some(repeatLimit), updatedAt := Some(now));
      if storage.alarmCount == None {
        storage := storage.(alarmCount := Some(0));
      }
      storage := storage.(alarm := Some(scheduledAt));
      ok := true;
    }

    method HandleWebhook(time: int, now: nat) returns (ok: bool)
      modifies this
      ensures ok <==> !DeliverFails(old(storage), time, now)
      ensures storage == Delivered(old(storage), time, now)
    {
      if !ValidDate(time) || !ValidDate(now) {
        return false;
      }
      var nextAlarmAt: Option<int> := None;
      if time !in storage.deliveries {
        var remaining := Remaining(storage);
        if storage.repeatMs.Some? && storage.repeatMs.value > 0 && remaining > 0 {
          if !ValidDate(time + storage.repeatMs.value) {
            return false;
          }
          nextAlarmAt := Some(time + storage.repeatMs.value);
          remaining := remaining - 1;
        }
        storage := storage.(alarmCount := Some(Count(storage) + 1), lastScheduledTime := Some(time),
                            remainingRepeats := Some(remaining), updatedAt := Some(now),
                            deliveries := storage.deliveries + {time},
                            scheduledAt := if nextAlarmAt.Some? then nextAlarmAt else storage.scheduledAt);
      }
      if nextAlarmAt.Some? {
        storage := storage.(alarm := nextAlarmAt);
      }
      ok := true;
    }

    method ClearHandledAlarm(time: int)
      modifies this
      ensures storage == Cleared(old(storage), time)
    {
      if storage.alarm == Some(time) {
        storage := storage.(alarm := None);
      }
    }
  }

  const LATEST: int := 8_640_000_000_000_000

  /** Scheduling arms the alarm `delayMs` from now, and is refused only for times no Date can hold. */
  lemma SchedulingMeans(s: Storage, now: nat, delayMs: nat, repeatMs: Option<nat>, repeatLimit: nat)
    ensures var t := Scheduled(s, now, delayMs, repeatMs, repeatLimit);
      if now + delayMs > LATEST then t == s
      else
        && t.alarm == t.scheduledAt == Some(now + delayMs) && t.updatedAt == Some(now)
        && t.repeatMs == repeatMs && t.remainingRepeats == Some(repeatLimit)
        && t.alarmCount == Some(Count(s)) && t.deliveries == s.deliveries
        && t.lastScheduledTime == s.lastScheduledTime
  {
    if now + delayMs <= LATEST {
      assert Scheduled(s, now, delayMs, repeatMs, repeatLimit).updatedAt == Some(now);
    }
  }

  /**
   * A delivery that is not refused records its time; a new one counts, uses up a repeat and re-arms
   * `repeatMs` later exactly if a repeat was left, and otherwise leaves the alarm slot alone.
   */
  lemma DeliveryMeans(s: Storage, time: int, now: nat)
    requires -LATEST <= time <= LATEST && now <= LATEST
    ensures var t := Delivered(s, time, now);
      var again := s.repeatMs.Some? && s.repeatMs.value > 0 && Remaining(s) > 0;
      if time in s.deliveries then t == s
      else if again && time + s.repeatMs.value > LATEST then t == s
      else
        && Count(t) == Count(s) + 1 && t.deliveries == s.deliveries + {time}
        && t.lastScheduledTime == Some(time) && t.updatedAt == Some(now) && t.repeatMs == s.repeatMs
        && (again ==> t.alarm == t.scheduledAt == Some(time + s.repeatMs.value) && Remaining(t) == Remaining(s) - 1)
        && (!again ==> t.alarm == s.alarm && t.scheduledAt == s.scheduledAt && Remaining(t) == Remaining(s))
  {
    if time !in s.deliveries && !DeliverFails(s, time, now) {
      assert Delivered(s, time, now).updatedAt == Some(now);
    }
  }

  // ---------------------------------------------------------------- every time counts once

  datatype Op =
    | Schedule(now: nat, delayMs: nat, repeatMs: Option<nat>, repeatLimit: nat)
    | Deliver(time: int, at: nat)
    | Clear(time: int)

  function Apply(s: Storage, op: Op): Storage {
    match op
    case Schedule(now, delayMs, repeatMs, repeatLimit) => Scheduled(s, now, delayMs, repeatMs, repeatLimit)
    case Deliver(time, at) => Delivered(s, time, at)
    case Clear(time) => Cleared(s, time)
  }

  function Run(s: Storage, ops: seq<Op>): Storage {
    if ops == [] then s else Apply(Run(s, ops[..|ops| - 1]), ops[|ops| - 1])
  }

  /** The distinct times for which some delivery was accepted. */
  function AcceptedTimes(s: Storage, ops: seq<Op>): set<int> {
    if ops == [] then {}
    else
      var before, op := ops[..|ops| - 1], ops[|ops| - 1];
      AcceptedTimes(s, before)
      + if op.Deliver? && !DeliverFails(Run(s, before), op.time, op.at) then {op.time} else {}
  }

  /**
   * Under any mix of schedules, deliveries, redeliveries and cleanups the counter of a fresh object
   * is the number of distinct times delivered.
   */
  lemma {:induction false} CountIsDistinctTimes(ops: seq<Op>)
    ensures Run(FRESH, ops).deliveries == AcceptedTimes(FRESH, ops)
    ensures Count(Run(FRESH, ops)) == |AcceptedTimes(FRESH, ops)|
  {
    if ops != [] {
      CountIsDistinctTimes(ops[..|ops| - 1]);
      var s, op := Run(FRESH, ops[..|ops| - 1]), ops[|ops| - 1];
      CountsNewTimes(s, op);
      if op.Deliver? && op.time !in s.deliveries && !DeliverFails(s, op.time, op.at) {
        assert |s.deliveries + {op.time}| == |s.deliveries| + 1;
      }
    }
  }

  lemma CountsNewTimes(s: Storage, op: Op)
    ensures var accepted := if op.Deliver? && !DeliverFails(s, op.time, op.at) then {op.time} else {};
      Apply(s, op).deliveries == s.deliveries + accepted
      && Count(Apply(s, op)) == Count(s) + if op.Deliver? && op.time in accepted - s.deliveries then 1 else 0
  {}

  /** Delivering a time again, however often, changes nothing. */
  lemma RedeliveryIsHarmless(s: Storage, time: int, first: nat, again: nat)
    ensures Delivered(Delivered(s, time, first), time, again) == Delivered(s, time, first)
         || (DeliverFails(s, time, first) && Delivered(Delivered(s, time, first), time, again) == Delivered(s, time, again))
  {}

  // ---------------------------------------------------------------- a repeating alarm

  function Nth(t0: int, period: nat, i: nat): int { t0 + i * period }

  /** The i-th armed times, i below k. */
  ghost function FirstTimes(t0: int, period: nat, k: nat): set<int> {
    set i | 0 <= i < k :: Nth(t0, period, i)
  }

  function Limit(k: nat, limit: nat): nat { if k <= limit then k else limit }

  /** The chain after k effective deliveries of an object scheduled once at t0 with a repeat period. */
  ghost predicate Chain(s: Storage, t0: int, period: nat, limit: nat) {
    var k := Count(s);
    && s.repeatMs == Some(period) && period > 0
    && k <= limit + 1
    && s.deliveries == FirstTimes(t0, period, k)
    && Remaining(s) == limit - Limit(k, limit)
    && (if k <= limit then s.alarm == Some(Nth(t0, period, k))
        else s.alarm == None || s.alarm == Some(Nth(t0, period, limit)))
  }

  /** Times the dispatcher may have seen armed so far. */
  ghost predicate WasArmed(s: Storage, t0: int, period: nat, limit: nat, time: int) {
    exists i: nat :: i <= Limit(Count(s), limit) && time == Nth(t0, period, i)
  }

  /** Deliveries repeat armed times, cleanups follow a delivery; anything else about them is free. */
  ghost predicate FromDispatcher(s: Storage, t0: int, period: nat, limit: nat, op: Op) {
    match op
    case Schedule(_, _, _, _) => false
    case Deliver(time, _) => WasArmed(s, t0, period, limit, time)
    case Clear(time) => time in s.deliveries
  }

  ghost predicate AllFromDispatcher(s: Storage, t0: int, period: nat, limit: nat, ops: seq<Op>)
    decreases |ops|
  {
    ops == [] ||
    (var before := ops[..|ops| - 1];
     AllFromDispatcher(s, t0, period, limit, before)
     && FromDispatcher(Run(s, before), t0, period, limit, ops[|ops| - 1]))
  }

  lemma NthDistinct(t0: int, period: nat, i: nat, j: nat)
    requires period > 0 && Nth(t0, period, i) == Nth(t0, period, j)
    ensures i == j
  {
    assert (i - j) * period == 0;
  }

  lemma InFirstTimes(t0: int, period: nat, k: nat, i: nat)
    requires period > 0
    ensures Nth(t0, period, i) in FirstTimes(t0, period, k) <==> i < k
  {
    if Nth(t0, period, i) in FirstTimes(t0, period, k) {
      var j :| 0 <= j < k && Nth(t0, period, j) == Nth(t0, period, i);
      NthDistinct(t0, period, i, j);
    }
  }

  lemma DeliverKeepsChain(s: Storage, t0: int, period: nat, limit: nat, time: int, at: nat)
    requires Chain(s, t0, period, limit) && WasArmed(s, t0, period, limit, time)
    ensures Chain(Delivered(s, time, at), t0, period, limit)
  {
    var k := Count(s);
    var i: nat :| i <= Limit(k, limit) && time == Nth(t0, period, i);
    InFirstTimes(t0, period, k, i);
    if i == k && !DeliverFails(s, time, at) {
      assert FirstTimes(t0, period, k + 1) == FirstTimes(t0, period, k) + {time};
      assert Nth(t0, period, k) + period == Nth(t0, period, k + 1);
    }
  }

  lemma ClearKeepsChain(s: Storage, t0: int, period: nat, limit: nat, time: int)
    requires Chain(s, t0, period, limit) && time in s.deliveries
    ensures Chain(Cleared(s, time), t0, period, limit)
    ensures Count(s) <= limit ==> Cleared(s, time) == s
  {
    InFirstTimes(t0, period, Count(s), Count(s));
  }

  lemma {:induction false} ChainHolds(s: Storage, t0: int, period: nat, limit: nat, ops: seq<Op>)
    requires Chain(s, t0, period, limit) && AllFromDispatcher(s, t0, period, limit, ops)
    ensures Chain(Run(s, ops), t0, period, limit)
    decreases |ops|
  {
    if ops != [] {
      var before, op := ops[..|ops| - 1], ops[|ops| - 1];
      ChainHolds(s, t0, period, limit, before);
      var m := Run(s, before);
      match op
      case Deliver(time, at) => DeliverKeepsChain(m, t0, period, limit, time, at);
      case Clear(time) => ClearKeepsChain(m, t0, period, limit, time);
    }
  }

  function Undelivered(s: Storage): nat {
    if s.alarm.Some? && s.alarm.value !in s.deliveries then 1 else 0
  }

  /**
   * Exactly-once effect under at-least-once delivery: for a fresh object scheduled once with a repeat
   * period, effects so far, repeats left and the pending alarm always add up to limit + 1, and when
   * no alarm is armed all limit + 1 effects have happened.
   */
  lemma RepeatsAreConserved(now: nat, delayMs: nat, period: nat, limit: nat, ops: seq<Op>)
    requires period > 0 && !ScheduleFails(now, delayMs)
    requires AllFromDispatcher(Scheduled(FRESH, now, delayMs, Some(period), limit), now + delayMs, period, limit, ops)
    ensures var s := Run(Scheduled(FRESH, now, delayMs, Some(period), limit), ops);
      && Count(s) + Remaining(s) + Undelivered(s) == limit + 1
      && Count(s) == |s.deliveries|
      && (s.alarm == None ==> Count(s) == limit + 1)
  {
    var start := Scheduled(FRESH, now, delayMs, Some(period), limit);
    var t0 := now + delayMs;
    assert Chain(start, t0, period, limit);
    ChainHolds(start, t0, period, limit, ops);
    var s := Run(start, ops);
    InFirstTimes(t0, period, Count(s), Limit(Count(s), limit));
    FirstTimesSize(t0, period, Count(s));
  }

  lemma {:induction false} FirstTimesSize(t0: int, period: nat, k: nat)
    requires period > 0
    ensures |FirstTimes(t0, period, k)| == k
  {
    if k == 0 {
      assert FirstTimes(t0, period, 0) == {};
    } else {
      FirstTimesSize(t0, period, k - 1);
      InFirstTimes(t0, period, k - 1, k - 1);
      assert FirstTimes(t0, period, k) == FirstTimes(t0, period, k - 1) + {Nth(t0, period, k - 1)};
    }
  }

  /** A handled alarm's cleanup never removes the alarm that its delivery armed, in any storage. */
  lemma CleanupSparesRearmedAlarm(s: Storage, time: int, at: nat)
    requires time !in s.deliveries && Repeats(s) && !DeliverFails(s, time, at)
    ensures Cleared(Delivered(s, time, at), time).alarm == Some(time + s.repeatMs.value)
  {}

  /** One successful dispatch of whatever alarm is armed: its handler, then its cleanup. */
  function Round(s: Storage, at: nat): Storage {
    if s.alarm.None? then s else Cleared(Delivered(s, s.alarm.value, at), s.alarm.value)
  }

  function Rounds(s: Storage, ats: seq<nat>): Storage
    decreases |ats|
  {
    if ats == [] then s else Rounds(Round(s, ats[0]), ats[1..])
  }

  lemma NthGrows(t0: int, period: nat, i: nat, j: nat)
    requires i <= j
    ensures t0 <= Nth(t0, period, i) <= Nth(t0, period, j)
  {
    assert Nth(t0, period, j) == Nth(t0, period, i) + (j - i) * period;
  }

  lemma RoundAdvances(s: Storage, t0: int, period: nat, limit: nat, at: nat)
    requires Chain(s, t0, period, limit) && Count(s) <= limit
    requires -LATEST <= t0 && Nth(t0, period, limit) <= LATEST && at <= LATEST
    ensures Chain(Round(s, at), t0, period, limit) && Count(Round(s, at)) == Count(s) + 1
    ensures Count(s) == limit ==> Round(s, at).alarm == None
  {
    var k := Count(s);
    var time := s.alarm.value;
    NthGrows(t0, period, k, limit);
    InFirstTimes(t0, period, k, k);
    if k < limit {
      NthGrows(t0, period, k + 1, limit);
      assert Nth(t0, period, k + 1) == time + period;
    }
    DeliverKeepsChain(s, t0, period, limit, time, at);
    DeliveryMeans(s, time, at);
    ClearKeepsChain(Delivered(s, time, at), t0, period, limit, time);
  }

  lemma {:induction false} RoundsAdvance(s: Storage, t0: int, period: nat, limit: nat, ats: seq<nat>)
    requires Chain(s, t0, period, limit) && Count(s) + |ats| == limit + 1 && ats != []
    requires -LATEST <= t0 && Nth(t0, period, limit) <= LATEST && forall at :: at in ats ==> at <= LATEST
    ensures var t := Rounds(s, ats); Chain(t, t0, period, limit) && Count(t) == limit + 1 && t.alarm == None
    decreases |ats|
  {
    assert ats[0] in ats;
    RoundAdvances(s, t0, period, limit, ats[0]);
    if |ats| > 1 {
      assert forall at :: at in ats[1..] ==> at in ats;
      RoundsAdvance(Round(s, ats[0]), t0, period, limit, ats[1..]);
    } else {
      assert Rounds(Round(s, ats[0]), ats[1..]) == Round(s, ats[0]);
    }
  }

  /**
   * An alarm scheduled with a repeat period fires limit + 1 times when every dispatch succeeds: the
   * times are the first one and then one period later each, and in the end no alarm is left.
   */
  lemma ChainCompletes(now: nat, delayMs: nat, period: nat, limit: nat, ats: seq<nat>)
    requires period > 0 && |ats| == limit + 1
    requires now + delayMs + limit * period <= LATEST && forall at :: at in ats ==> at <= LATEST
    ensures var t := Rounds(Scheduled(FRESH, now, delayMs, Some(period), limit), ats);
      && t.alarm == None && Count(t) == limit + 1
      && t.deliveries == FirstTimes(now + delayMs, period, limit + 1)
  {
    var start := Scheduled(FRESH, now, delayMs, Some(period), limit);
    NthGrows(now + delayMs, period, 0, limit);
    assert Chain(start, now + delayMs, period, limit);
    RoundsAdvance(start, now + delayMs, period, limit, ats);
  }

  // ---------------------------------------------------------------- one dispatch pass

  datatype DueAlarm = DueAlarm(objectId: string, scheduledTime: int)

  /** Reading or deleting the alarm may throw, the deletion before or after it took effect. */
  datatype Cleanup = Done | Threw(cleared: bool)

  /** What became of one handler call: it may fail before or after the object acted, and so may its cleanup. */
  datatype HandlerCall = NotReached | Acted(at: nat, responseLost: bool, cleanup: Cleanup)

  type Namespace = map<string, Storage>

  function ObjectOf(ns: Namespace, id: string): Storage {
    if id in ns then ns[id] else FRESH
  }

  predicate HandlerOk(ns: Namespace, alarm: DueAlarm, call: HandlerCall) {
    call.Acted? && !call.responseLost && !DeliverFails(ObjectOf(ns, alarm.objectId), alarm.scheduledTime, call.at)
  }

  /** An alarm is dispatched when its handler reported success and the cleanup after it did not throw. */
  predicate DispatchOk(ns: Namespace, alarm: DueAlarm, call: HandlerCall) {
    HandlerOk(ns, alarm, call) && call.cleanup.Done?
  }

  /** Deliver one due alarm and clear it if the handler reported success. */
  function DispatchOne(ns: Namespace, alarm: DueAlarm, call: HandlerCall): Namespace {
    if call.NotReached? then ns
    else
      var acted := Delivered(ObjectOf(ns, alarm.objectId), alarm.scheduledTime, call.at);
      var clears := HandlerOk(ns, alarm, call) && (call.cleanup.Threw? ==> call.cleanup.cleared);
      ns[alarm.objectId := if clears then Cleared(acted, alarm.scheduledTime) else acted]
  }

  function DispatchAll(ns: Namespace, due: seq<DueAlarm>, calls: seq<HandlerCall>): Namespace
    requires |due| == |calls|
  {
    if due == [] then ns
    else DispatchOne(DispatchAll(ns, due[..|due| - 1], calls[..|due| - 1]), due[|due| - 1], calls[|due| - 1])
  }

  /** Whether the i-th alarm of a pass is dispatched, after the ones before it. */
  predicate Succeeds(ns: Namespace, due: seq<DueAlarm>, calls: seq<HandlerCall>, i: nat)
    requires |due| == |calls| && i < |due|
  {
    DispatchOk(DispatchAll(ns, due[..i], calls[..i]), due[i], calls[i])
  }

  /** The alarms whose handler call or cleanup did not succeed, in order. */
  function Failures(ns: Namespace, due: seq<DueAlarm>, calls: seq<HandlerCall>): seq<DueAlarm>
    requires |due| == |calls|
  {
    if due == [] then []
    else
      var last := |due| - 1;
      Failures(ns, due[..last], calls[..last]) + if Succeeds(ns, due, calls, last) then [] else [due[last]]
  }

  /** A pass reports no failure exactly when every handler call and every cleanup succeeded. */
  lemma {:induction false} FailuresAreExact(ns: Namespace, due: seq<DueAlarm>, calls: seq<HandlerCall>)
    requires |due| == |calls|
    ensures |Failures(ns, due, calls)| <= |due|
    ensures Failures(ns, due, calls) == [] <==> forall i :: 0 <= i < |due| ==> Succeeds(ns, due, calls, i)
    ensures forall a :: a in Failures(ns, due, calls) <==>
      exists i :: 0 <= i < |due| && due[i] == a && !Succeeds(ns, due, calls, i)
  {
    if due != [] {
      var last := |due| - 1;
      FailuresAreExact(ns, due[..last], calls[..last]);
      forall i: nat | i < last ensures Succeeds(ns, due[..last], calls[..last], i) == Succeeds(ns, due, calls, i) {
        SucceedsInPrefix(ns, due, calls, last, i);
      }
    }
  }

  lemma SucceedsInPrefix(ns: Namespace, due: seq<DueAlarm>, calls: seq<HandlerCall>, n: nat, i: nat)
    requires |due| == |calls| && i < n <= |due|
    ensures Succeeds(ns, due[..n], calls[..n], i) == Succeeds(ns, due, calls, i)
  {
    assert due[..n][..i] == due[..i] && calls[..n][..i] == calls[..i];
  }

  datatype Report = Report(ok: bool, due: nat, dispatched: nat, failed: nat, errors: seq<DueAlarm>)

  method DispatchDurableObjectAlarms(objects: Namespace, due: seq<DueAlarm>, calls: seq<HandlerCall>)
    returns (after: Namespace, report: Report)
    requires |due| == |calls|
    ensures after == DispatchAll(objects, due, calls)
    ensures report.errors == Failures(objects, due, calls)
    ensures report.due == |due| == report.dispatched + report.failed && report.failed == |report.errors|
    ensures report.ok <==> report.errors == []
  {
    after := objects;
    var errors: seq<DueAlarm> := [];
    var dispatched := 0;
    var i := 0;
    while i < |due|
      invariant 0 <= i <= |due|
      invariant after == DispatchAll(objects, due[..i], calls[..i])
      invariant errors == Failures(objects, due[..i], calls[..i])
      invariant dispatched + |errors| == i
    {
      var ok := DispatchOk(after, due[i], calls[i]);
      SucceedsInPrefix(objects, due, calls, i + 1, i);
      assert due[..i + 1][..i] == due[..i] && calls[..i + 1][..i] == calls[..i];
      after := DispatchOne(after, due[i], calls[i]);
      if ok {
        dispatched := dispatched + 1;
      } else {
        errors := errors + [due[i]];
      }
      i := i + 1;
    }
    assert due[..i] == due && calls[..i] == calls;
    report := Report(errors == [], |due|, dispatched, |errors|, errors);
  }

  /** The parameters each object's chain was scheduled with. */
  datatype Plan = Plan(t0: int, period: nat, limit: nat)

  ghost predicate AllChains(ns: Namespace, plans: map<string, Plan>) {
    forall id :: id in plans ==> id in ns && Chain(ns[id], plans[id].t0, plans[id].period, plans[id].limit)
  }

  ghost predicate Listed(ns: Namespace, plans: map<string, Plan>, alarm: DueAlarm) {
    alarm.objectId in plans && alarm.objectId in ns
    && WasArmed(ns[alarm.objectId], plans[alarm.objectId].t0, plans[alarm.objectId].period, plans[alarm.objectId].limit, alarm.scheduledTime)
  }

  /** Whatever listDueAlarms finds armed may be dispatched, now or later. */
  lemma ArmedIsListed(ns: Namespace, plans: map<string, Plan>, id: string)
    requires AllChains(ns, plans) && id in plans && ns[id].alarm.Some?
    ensures Listed(ns, plans, DueAlarm(id, ns[id].alarm.value))
  {
    var p := plans[id];
    assert ns[id].alarm.value == Nth(p.t0, p.period, Limit(Count(ns[id]), p.limit));
  }

  lemma DispatchOneKeepsChains(ns: Namespace, plans: map<string, Plan>, alarm: DueAlarm, call: HandlerCall)
    requires AllChains(ns, plans) && Listed(ns, plans, alarm)
    ensures AllChains(DispatchOne(ns, alarm, call), plans)
    ensures forall other :: Listed(ns, plans, other) ==> Listed(DispatchOne(ns, alarm, call), plans, other)
  {
    if call.Acted? {
      var id, p := alarm.objectId, plans[alarm.objectId];
      var acted := Delivered(ns[id], alarm.scheduledTime, call.at);
      DeliverKeepsChain(ns[id], p.t0, p.period, p.limit, alarm.scheduledTime, call.at);
      if HandlerOk(ns, alarm, call) {
        ClearKeepsChain(acted, p.t0, p.period, p.limit, alarm.scheduledTime);
      }
    }
  }

  /** A whole pass, with any handler failures and lost responses, keeps every object's chain. */
  lemma {:induction false} PassKeepsChains(ns: Namespace, plans: map<string, Plan>, due: seq<DueAlarm>, calls: seq<HandlerCall>)
    requires |due| == |calls| && AllChains(ns, plans) && forall a :: a in due ==> Listed(ns, plans, a)
    ensures AllChains(DispatchAll(ns, due, calls), plans)
    ensures forall other :: Listed(ns, plans, other) ==> Listed(DispatchAll(ns, due, calls), plans, other)
  {
    if due != [] {
      PassKeepsChains(ns, plans, due[..|due| - 1], calls[..|due| - 1]);
      assert due[|due| - 1] in due;
      DispatchOneKeepsChains(DispatchAll(ns, due[..|due| - 1], calls[..|due| - 1]), plans, due[|due| - 1], calls[|due| - 1]);
    }
  }

  // ---------------------------------------------------------------- what a pass does to each alarm

  /** An alarm succeeds exactly if its object accepted it and both the response and the cleanup came through. */
  lemma SuccessMeans(ns: Namespace, due: seq<DueAlarm>, calls: seq<HandlerCall>, i: nat)
    requires |due| == |calls| && i < |due|
    ensures Succeeds(ns, due, calls, i) <==>
      && calls[i].Acted? && !calls[i].responseLost && calls[i].cleanup == Done
      && !DeliverFails(ObjectOf(DispatchAll(ns, due[..i], calls[..i]), due[i].objectId), due[i].scheduledTime, calls[i].at)
  {}

  /** What a call leaves of an object: nothing cleaned up unless the handler succeeded, and always if it all did. */
  lemma CallLeaves(ns: Namespace, alarm: DueAlarm, call: HandlerCall)
    ensures var was, t := ObjectOf(ns, alarm.objectId), ObjectOf(DispatchOne(ns, alarm, call), alarm.objectId);
      match call
      case NotReached => t == was
      case Acted(at, responseLost, cleanup) =>
        var acted := Delivered(was, alarm.scheduledTime, at);
        if responseLost || DeliverFails(was, alarm.scheduledTime, at) || cleanup == Threw(false) then t == acted
        else t == acted.(alarm := if acted.alarm == Some(alarm.scheduledTime) then None else acted.alarm)
  {}

  /** A time that took effect and is not armed any more. */
  predicate Gone(s: Storage, time: int) {
    time in s.deliveries && s.alarm != Some(time)
  }

  lemma SuccessClears(ns: Namespace, alarm: DueAlarm, call: HandlerCall)
    requires DispatchOk(ns, alarm, call)
    ensures Gone(ObjectOf(DispatchOne(ns, alarm, call), alarm.objectId), alarm.scheduledTime)
  {}

  /** In a chain a time that is gone is never armed again. */
  lemma GoneStays(ns: Namespace, plans: map<string, Plan>, alarm: DueAlarm, call: HandlerCall, id: string, time: int)
    requires AllChains(ns, plans) && Listed(ns, plans, alarm) && id in plans && Gone(ns[id], time)
    ensures Gone(ObjectOf(DispatchOne(ns, alarm, call), id), time)
  {
    if call.Acted? && alarm.objectId == id {
      var s, p := ns[id], plans[id];
      var t := Delivered(s, alarm.scheduledTime, call.at);
      DeliverKeepsChain(s, p.t0, p.period, p.limit, alarm.scheduledTime, call.at);
      InFirstTimes(p.t0, p.period, Count(t), Count(t));
      assert t.alarm == s.alarm || (Count(t) <= p.limit && t.alarm == Some(Nth(p.t0, p.period, Count(t))));
    }
  }

  lemma LastIsGone(s: Storage, p: Plan, time: int)
    requires Chain(s, p.t0, p.period, p.limit) && Gone(s, time) && time == Nth(p.t0, p.period, p.limit)
    ensures Count(s) == p.limit + 1 && s.alarm == None
  {
    InFirstTimes(p.t0, p.period, Count(s), p.limit);
  }

  lemma {:induction false} SucceededIsGone(ns: Namespace, plans: map<string, Plan>, due: seq<DueAlarm>, calls: seq<HandlerCall>, i: nat)
    requires |due| == |calls| && AllChains(ns, plans) && forall a :: a in due ==> Listed(ns, plans, a)
    requires i < |due| && Succeeds(ns, due, calls, i)
    ensures Gone(ObjectOf(DispatchAll(ns, due, calls), due[i].objectId), due[i].scheduledTime)
    decreases |due|
  {
    var last := |due| - 1;
    var before := DispatchAll(ns, due[..last], calls[..last]);
    if i == last {
      SuccessClears(before, due[last], calls[last]);
    } else {
      SucceedsInPrefix(ns, due, calls, last, i);
      SucceededIsGone(ns, plans, due[..last], calls[..last], i);
      PassKeepsChains(ns, plans, due[..last], calls[..last]);
      assert due[last] in due && due[i] in due;
      GoneStays(before, plans, due[last], calls[last], due[i].objectId, due[i].scheduledTime);
    }
  }

  /**
   * After a pass, whatever else it dispatched, an alarm that succeeded has taken effect and is not
   * armed, and an object whose last alarm succeeded has no alarm left, so it is never listed again.
   */
  lemma SucceededIsCleared(ns: Namespace, plans: map<string, Plan>, due: seq<DueAlarm>, calls: seq<HandlerCall>, i: nat)
    requires |due| == |calls| && AllChains(ns, plans) && forall a :: a in due ==> Listed(ns, plans, a)
    requires i < |due| && Succeeds(ns, due, calls, i)
    ensures var t := ObjectOf(DispatchAll(ns, due, calls), due[i].objectId);
      && due[i].scheduledTime in t.deliveries && t.alarm != Some(due[i].scheduledTime)
    ensures due[i].objectId in plans &&
      var t := ObjectOf(DispatchAll(ns, due, calls), due[i].objectId);
      var p := plans[due[i].objectId];
      due[i].scheduledTime == Nth(p.t0, p.period, p.limit) ==> Count(t) == p.limit + 1 && t.alarm == None
  {
    assert due[i] in due;
    SucceededIsGone(ns, plans, due, calls, i);
    PassKeepsChains(ns, plans, due, calls);
    var p := plans[due[i].objectId];
    if due[i].scheduledTime == Nth(p.t0, p.period, p.limit) {
      LastIsGone(ObjectOf(DispatchAll(ns, due, calls), due[i].objectId), p, due[i].scheduledTime);
    }
  }

  /** Every date of every chain can be represented. */
  ghost predicate Dated(plans: map<string, Plan>) {
    forall id :: id in plans ==> -LATEST <= plans[id].t0 && Nth(plans[id].t0, plans[id].period, plans[id].limit) <= LATEST
  }

  predicate Healthy(call: HandlerCall) {
    call.Acted? && call.at <= LATEST && !call.responseLost && call.cleanup.Done?
  }

  /** An alarm fails only if its handler or its cleanup did: a pass over healthy objects reports ok. */
  lemma HealthyPassSucceeds(ns: Namespace, plans: map<string, Plan>, due: seq<DueAlarm>, calls: seq<HandlerCall>)
    requires |due| == |calls| && AllChains(ns, plans) && Dated(plans) && forall a :: a in due ==> Listed(ns, plans, a)
    requires forall call :: call in calls ==> Healthy(call)
    ensures Failures(ns, due, calls) == []
  {
    forall i | 0 <= i < |due| ensures Succeeds(ns, due, calls, i) {
      var before := DispatchAll(ns, due[..i], calls[..i]);
      assert due[i] in due && calls[i] in calls;
      PassKeepsChains(ns, plans, due[..i], calls[..i]);
      DatedDelivers(before, plans, due[i], calls[i].at);
    }
    FailuresAreExact(ns, due, calls);
  }

  lemma DatedDelivers(ns: Namespace, plans: map<string, Plan>, alarm: DueAlarm, at: nat)
    requires AllChains(ns, plans) && Dated(plans) && Listed(ns, plans, alarm) && at <= LATEST
    ensures !DeliverFails(ObjectOf(ns, alarm.objectId), alarm.scheduledTime, at)
  {
    var s, p := ns[alarm.objectId], plans[alarm.objectId];
    var i: nat :| i <= Limit(Count(s), p.limit) && alarm.scheduledTime == Nth(p.t0, p.period, i);
    NthGrows(p.t0, p.period, i, p.limit);
    InFirstTimes(p.t0, p.period, Count(s), i);
    if i < p.limit {
      NthGrows(p.t0, p.period, i + 1, p.limit);
      assert Nth(p.t0, p.period, i + 1) == alarm.scheduledTime + p.period;
    }
  }

  /** A pass touches only the objects that were due. */
  lemma {:induction false} PassTouchesOnlyDue(ns: Namespace, due: seq<DueAlarm>, calls: seq<HandlerCall>, id: string)
    requires |due| == |calls| && forall a :: a in due ==> a.objectId != id
    ensures ObjectOf(DispatchAll(ns, due, calls), id) == ObjectOf(ns, id)
  {
    if due != [] {
      assert due[|due| - 1] in due;
      PassTouchesOnlyDue(ns, due[..|due| - 1], calls[..|due| - 1], id);
    }
  }

  // ---------------------------------------------------------------- the job

  /** Ticks of the interval timer: each either runs one pass or returns at once. */
  datatype Job = Job(inFlight: bool, passes: set<nat>, results: map<nat, bool>)

  datatype TickEvent =
    | Tick(id: nat)                          // a new call of tick
    | PassEnded(id: nat, ok: Option<bool>)   // its report; None: the pass or a callback threw

  function JobStep(j: Job, e: TickEvent): Job {
    match e
    case Tick(id) =>
      if id in j.passes || id in j.results then j
      else if j.inFlight then j.(results := j.results[id := false])
      else j.(inFlight := true, passes := j.passes + {id})
    case PassEnded(id, ok) =>
      if id !in j.passes then j
      else Job(false, j.passes - {id}, j.results[id := ok == Some(true)])
  }

  function RunJob(j: Job, es: seq<TickEvent>): Job {
    if es == [] then j else JobStep(RunJob(j, es[..|es| - 1]), es[|es| - 1])
  }

  const NO_TICKS := Job(false, {}, map[])

  /** However long a pass takes, no two passes of a job overlap, and a tick reports what its own pass did. */
  lemma {:induction false} PassesNeverOverlap(es: seq<TickEvent>)
    ensures var j := RunJob(NO_TICKS, es);
      && (j.inFlight <==> j.passes != {})
      && |j.passes| <= 1
      && (forall id :: id in j.passes ==> id !in j.results)
      && (forall id :: id in j.results && j.results[id] ==> PassEnded(id, Some(true)) in es)
  {
    if es != [] {
      var init, last := es[..|es| - 1], es[|es| - 1];
      PassesNeverOverlap(init);
      assert es == init + [last];
      var j := RunJob(NO_TICKS, init);
      if last.PassEnded? && last.id in j.passes {
        assert |j.passes - {last.id}| == |j.passes| - 1;
        assert j.passes - {last.id} == {};
      }
    }
  }

  /**
   * In every run a new tick starts a pass exactly if none is in flight and else returns false at once;
   * the end of a pass is reported by its own tick and lets the next tick start one.
   */
  lemma TicksAnswer(es: seq<TickEvent>, id: nat, ok: Option<bool>)
    ensures var j := RunJob(NO_TICKS, es);
            var ticked := RunJob(NO_TICKS, es + [Tick(id)]);
            var ended := RunJob(NO_TICKS, es + [PassEnded(id, ok)]);
      && (id !in j.passes && id !in j.results ==>
            if j.passes == {} then ticked.passes == {id} && ticked.results == j.results
            else ticked.passes == j.passes && ticked.results == j.results[id := false])
      && (id in j.passes ==> ended.passes == {} && ended.results == j.results[id := ok == Some(true)])
  {
    PassesNeverOverlap(es);
    var j := RunJob(NO_TICKS, es);
    assert (es + [Tick(id)])[..|es|] == es && (es + [PassEnded(id, ok)])[..|es|] == es;
    if id in j.passes {
      SubsetSize({id}, j.passes);
      assert |j.passes - {id}| == 0;
    }
  }
}
