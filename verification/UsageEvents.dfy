/**
 * Recording usage events: concurrent submissions, each a sequence of awaited repository reads and
 * at most one insert into a table with a unique id; and what quota and budget enforcement achieve
 * when submissions do not overlap.
 */
module UsageEvents {
  import opened Wrappers
  import opened Billing

  /** `dimensions` is the serialized object, whose keys are sorted on the way in. */
  datatype UsageEvent = UsageEvent(
    id: string, org: Option<string>, project: string, metric: Metric, quantity: real, dimensions: Option<string>, recordedAt: int)

  /** `period` maps a time to its calendar month; the limits are per project. */
  datatype Config = Config(
    rates: Rates, budgets: string -> Option<real>, quotas: string -> Metric -> Option<real>, period: int -> int)

  type Store = seq<UsageEvent>

  function DimensionText(d: Option<string>): string { if d.None? then "{}" else d.value }

  /** Absent dimensions count as none. */
  function Payload(e: UsageEvent): UsageEvent {
    e.(dimensions := Some(DimensionText(e.dimensions)))
  }

  predicate Same(a: UsageEvent, b: UsageEvent) {
    && a.id == b.id && a.org == b.org && a.project == b.project && a.metric == b.metric
    && a.quantity == b.quantity && a.recordedAt == b.recordedAt
    && DimensionText(a.dimensions) == DimensionText(b.dimensions)
  }

  function Find(store: Store, id: string): (r: Option<UsageEvent>)
    ensures r.Some? ==> r.value in store && r.value.id == id
    ensures r.None? ==> forall e :: e in store ==> e.id != id
  {
    if store == [] then None
    else if store[|store| - 1].id == id then Some(store[|store| - 1])
    else Find(store[..|store| - 1], id)
  }

  /** The usage summary of a project over one period. */
  function Summary(cfg: Config, store: Store, project: string, period: int): Totals {
    if store == [] then NO_USAGE
    else
      var e := store[|store| - 1];
      var before := Summary(cfg, store[..|store| - 1], project, period);
      if e.project == project && cfg.period(e.recordedAt) == period then AddUsage(before, e.metric, e.quantity) else before
  }

  function UsageBefore(cfg: Config, store: Store, e: UsageEvent): Totals {
    Summary(cfg, store, e.project, cfg.period(e.recordedAt))
  }

  /** The events of one project, period and metric. */
  function Matching(cfg: Config, store: Store, project: string, period: int, m: Metric): Store {
    if store == [] then []
    else
      var e := store[|store| - 1];
      Matching(cfg, store[..|store| - 1], project, period, m)
      + if Matches(cfg, e, project, period, m) then [e] else []
  }

  function Quantities(store: Store): real {
    if store == [] then 0.0 else Quantities(store[..|store| - 1]) + store[|store| - 1].quantity
  }

  predicate Matches(cfg: Config, e: UsageEvent, project: string, period: int, m: Metric) {
    e.project == project && cfg.period(e.recordedAt) == period && e.metric == m
  }

  lemma {:induction false} MatchingMeans(cfg: Config, store: Store, project: string, period: int, m: Metric)
    ensures forall e :: e in Matching(cfg, store, project, period, m) <==> e in store && Matches(cfg, e, project, period, m)
  {
    if store != [] {
      MatchingMeans(cfg, store[..|store| - 1], project, period, m);
      assert store == store[..|store| - 1] + [store[|store| - 1]];
    }
  }

  lemma QuantitiesAppend(store: Store, e: UsageEvent)
    ensures Quantities(store + [e]) == Quantities(store) + e.quantity && Quantities(store + []) == Quantities(store)
  {
    assert (store + [e])[..|store|] == store;
    assert store + [] == store;
  }

  lemma SummaryAdds(cfg: Config, store: Store, project: string, period: int, m: Metric)
    requires store != []
    ensures var e := store[|store| - 1];
      Of(Summary(cfg, store, project, period), m) ==
        Of(Summary(cfg, store[..|store| - 1], project, period), m)
        + if Matches(cfg, e, project, period, m) then e.quantity else 0.0
  {}

  /** A project's total of a metric is the sum of the quantities of its events of that metric in the period. */
  lemma {:induction false} SummaryIsSum(cfg: Config, store: Store, project: string, period: int, m: Metric)
    ensures Of(Summary(cfg, store, project, period), m) == Quantities(Matching(cfg, store, project, period, m))
  {
    if store == [] {
      assert Of(NO_USAGE, m) == 0.0;
    } else {
      var init, e := store[..|store| - 1], store[|store| - 1];
      var matching := Matching(cfg, init, project, period, m);
      SummaryIsSum(cfg, init, project, period, m);
      SummaryAdds(cfg, store, project, period, m);
      QuantitiesAppend(matching, e);
      assert Matching(cfg, store, project, period, m) == matching + if Matches(cfg, e, project, period, m) then [e] else [];
    }
  }

  // ---------------------------------------------------------------- submissions

  datatype Rejection = DifferentPayload | OverQuota | OverBudget | OtherError

  datatype Phase = Lookup | Quota | Budget | Insert | Reread | Recorded(event: UsageEvent) | Rejected(why: Rejection)

  datatype Call = Call(event: UsageEvent, phase: Phase)

  function Replay(event: UsageEvent, existing: UsageEvent): Phase {
    if Same(event, existing) then Recorded(existing) else Rejected(DifferentPayload)
  }

  /** One awaited operation of a call and the code up to the next one. */
  function Progress(cfg: Config, store: Store, c: Call): (Store, Phase) {
    var e, existing := c.event, Find(store, c.event.id);
    match c.phase
    case Lookup => (store, if existing.Some? then Replay(e, existing.value) else Quota)
    case Quota =>
      (store, if QuotaAllows(UsageBefore(cfg, store, e), cfg.quotas(e.project)(e.metric), e.metric, e.quantity)
              then Budget else Rejected(OverQuota))
    case Budget =>
      (store, if BudgetAllows(UsageBefore(cfg, store, e), cfg.rates, cfg.budgets(e.project), e.metric, e.quantity)
              then Insert else Rejected(OverBudget))
    case Insert => if existing.Some? then (store, Reread) else (store + [e], Recorded(e))
    case Reread => (store, if existing.Some? then Replay(e, existing.value) else Rejected(OtherError))
    case Recorded(_) => (store, c.phase)
    case Rejected(_) => (store, c.phase)
  }

  datatype State = State(store: Store, calls: seq<Call>)

  datatype Event =
    | Begin(event: UsageEvent)
    | Advance(c: nat)
    | Fail(c: nat)             // a crash or any other error

  predicate Finished(p: Phase) { p.Recorded? || p.Rejected? }

  predicate Enabled(s: State, e: Event) {
    match e
    case Begin(event) => event.quantity > 0.0
    case Advance(c) => c < |s.calls|
    case Fail(c) => c < |s.calls| && !Finished(s.calls[c].phase)
  }

  function Next(cfg: Config, s: State, e: Event): State
    requires Enabled(s, e)
  {
    match e
    case Begin(event) => s.(calls := s.calls + [Call(event, Lookup)])
    case Advance(c) =>
      var (store, phase) := Progress(cfg, s.store, s.calls[c]);
      State(store, s.calls[c := s.calls[c].(phase := phase)])
    case Fail(c) => s.(calls := s.calls[c := s.calls[c].(phase := Rejected(OtherError))])
  }

  function Step(cfg: Config, s: State, e: Event): State {
    if Enabled(s, e) then Next(cfg, s, e) else s
  }

  function Run(cfg: Config, s: State, es: seq<Event>): State
    decreases |es|
  {
    if es == [] then s else Run(cfg, Step(cfg, s, es[0]), es[1..])
  }

  const EMPTY: State := State([], [])

  // ---------------------------------------------------------------- every interleaving

  predicate UniqueIds(store: Store) {
    forall i, j :: 0 <= i < j < |store| ==> store[i].id != store[j].id
  }

  predicate CallInv(store: Store, c: Call) {
    match c.phase
    case Recorded(e) => e in store && Same(c.event, e)
    case Rejected(why) => why.DifferentPayload? ==> exists e :: e in store && e.id == c.event.id && !Same(c.event, e)
    case Reread => exists e :: e in store && e.id == c.event.id
    case _ => true
  }

  predicate Inv(s: State) {
    && UniqueIds(s.store)
    && (forall i :: 0 <= i < |s.store| ==> s.store[i].quantity > 0.0)
    && (forall c :: 0 <= c < |s.calls| ==> CallInv(s.store, s.calls[c]) && s.calls[c].event.quantity > 0.0)
  }

  /** What one step does to the table: nothing, or it appends the event of the call it completes. */
  lemma StepAppendsAtMostOne(cfg: Config, s: State, e: Event)
    ensures var n := Step(cfg, s, e);
      n.store == s.store
      || (e.Advance? && e.c < |s.calls| && n.store == s.store + [s.calls[e.c].event]
          && Find(s.store, s.calls[e.c].event.id).None?
          && s.calls[e.c].phase == Insert && n.calls[e.c].phase == Recorded(s.calls[e.c].event))
  {}

  lemma GrowthKeepsCall(store: Store, more: Store, c: Call)
    requires CallInv(store, c)
    ensures CallInv(store + more, c)
  {
    forall e | e in store ensures e in store + more {}
  }

  lemma ProgressKeepsCall(cfg: Config, store: Store, c: Call)
    requires CallInv(store, c)
    ensures var (after, phase) := Progress(cfg, store, c); CallInv(after, c.(phase := phase))
  {
    var (after, phase) := Progress(cfg, store, c);
    var existing := Find(store, c.event.id);
    if c.phase.Insert? && existing.None? {
      assert after[|store|] == c.event;
    }
    assert existing.Some? ==> existing.value in store;
  }

  lemma InvStep(cfg: Config, s: State, e: Event)
    requires Inv(s)
    ensures Inv(Step(cfg, s, e)) && s.store <= Step(cfg, s, e).store
  {
    if Enabled(s, e) {
      var n := Next(cfg, s, e);
      StepAppendsAtMostOne(cfg, s, e);
      var more := n.store[|s.store|..];
      assert n.store == s.store + more;
      forall k | 0 <= k < |n.calls| ensures CallInv(n.store, n.calls[k]) && n.calls[k].event.quantity > 0.0 {
        if e.Advance? && k == e.c {
          ProgressKeepsCall(cfg, s.store, s.calls[k]);
        } else if k < |s.calls| {
          GrowthKeepsCall(s.store, more, s.calls[k]);
        }
      }
    }
  }

  lemma {:induction false} RunInv(cfg: Config, s: State, es: seq<Event>)
    requires Inv(s)
    ensures Inv(Run(cfg, s, es)) && s.store <= Run(cfg, s, es).store
    decreases |es|
  {
    if es != [] {
      InvStep(cfg, s, es[0]);
      RunInv(cfg, Step(cfg, s, es[0]), es[1..]);
    }
  }

  lemma UniqueFind(store: Store, e: UsageEvent)
    requires UniqueIds(store) && e in store
    ensures Find(store, e.id) == Some(e)
  {
    var i :| 0 <= i < |store| && store[i] == e;
    var found := Find(store, e.id).value;
    var j :| 0 <= j < |store| && store[j] == found;
  }

  /**
   * Whatever the interleaving, crashes and retries: ids are unique in the table; a call that
   * succeeds returns the one stored event with its id, which has the caller's payload; so two
   * successful calls with one id had the same payload and return the same event; and a call is
   * rejected for its payload only when the stored event differs.
   */
  lemma StoredOnce(cfg: Config, es: seq<Event>, c: nat)
    requires c < |Run(cfg, EMPTY, es).calls|
    ensures var s := Run(cfg, EMPTY, es); var call := s.calls[c];
      && UniqueIds(s.store)
      && (call.phase.Recorded? ==>
            && Find(s.store, call.event.id) == Some(call.phase.event)
            && Payload(call.event) == Payload(call.phase.event)
            && forall k :: 0 <= k < |s.calls| && s.calls[k].phase.Recorded? && s.calls[k].event.id == call.event.id ==>
                 s.calls[k].phase.event == call.phase.event && Payload(s.calls[k].event) == Payload(call.event))
      && (call.phase == Rejected(DifferentPayload) ==>
            Find(s.store, call.event.id).Some? && Payload(call.event) != Payload(Find(s.store, call.event.id).value))
  {
    RunInv(cfg, EMPTY, es);
    var s := Run(cfg, EMPTY, es);
    var call := s.calls[c];
    assert CallInv(s.store, call);
    if call.phase.Recorded? {
      UniqueFind(s.store, call.phase.event);
      forall k | 0 <= k < |s.calls| && s.calls[k].phase.Recorded? && s.calls[k].event.id == call.event.id
        ensures s.calls[k].phase.event == call.phase.event && Payload(s.calls[k].event) == Payload(call.event)
      {
        assert CallInv(s.store, s.calls[k]);
        UniqueFind(s.store, s.calls[k].phase.event);
      }
    } else if call.phase == Rejected(DifferentPayload) {
      var e :| e in s.store && e.id == call.event.id && !Same(call.event, e);
      UniqueFind(s.store, e);
    }
  }

  function Advances(es: seq<Event>, c: nat): nat {
    if es == [] then 0 else (if es[0] == Advance(c) then 1 else 0) + Advances(es[1..], c)
  }

  /** What a submission is told of an event that was stored before it. */
  function Verdict(submitted: UsageEvent, stored: UsageEvent): Phase {
    if Payload(submitted) == Payload(stored) then Recorded(stored) else Rejected(DifferentPayload)
  }

  /** Awaited operations a call has left when its id is stored; none when it has its verdict. */
  predicate LeftWith(c: Call, e: UsageEvent, left: nat) {
    match c.phase
    case Lookup => left == 1
    case Reread => left == 1
    case Insert => left == 2
    case Quota => false
    case Budget => false
    case Recorded(_) => left == 0 && c.phase == Verdict(c.event, e)
    case Rejected(_) => left == 0 && c.phase == Verdict(c.event, e)
  }

  lemma {:induction false} StoredIdDecides(cfg: Config, s: State, c: nat, e: UsageEvent, left: nat, es: seq<Event>)
    requires Inv(s) && c < |s.calls| && e in s.store && e.id == s.calls[c].event.id
    requires LeftWith(s.calls[c], e, left) && left <= Advances(es, c) && Fail(c) !in es
    ensures var t := Run(cfg, s, es);
      c < |t.calls| && t.calls[c].event == s.calls[c].event && t.calls[c].phase == Verdict(s.calls[c].event, e)
    decreases |es|
  {
    if es != [] {
      var n := Step(cfg, s, es[0]);
      InvStep(cfg, s, es[0]);
      UniqueFind(s.store, e);
      assert n.store == s.store + n.store[|s.store|..];
      assert es[0] in es && forall x :: x in es[1..] ==> x in es;
      var after := if es[0] == Advance(c) && left > 0 then left - 1 else left;
      StoredIdDecides(cfg, n, c, e, after, es[1..]);
    }
  }

  /**
   * The loser of a race: a submission whose insert meets an event with its id, stored since its lookup,
   * succeeds with that event if the payload is the same, and is rejected for the payload otherwise,
   * after two operations of its own and whatever the others do meanwhile.
   */
  lemma RaceLoserIsAnswered(cfg: Config, before: seq<Event>, c: nat, after: seq<Event>)
    requires c < |Run(cfg, EMPTY, before).calls| && Run(cfg, EMPTY, before).calls[c].phase.Insert?
    requires Find(Run(cfg, EMPTY, before).store, Run(cfg, EMPTY, before).calls[c].event.id).Some?
    requires Advances(after, c) >= 2 && Fail(c) !in after
    ensures var s := Run(cfg, EMPTY, before);
            var t := Run(cfg, s, after);
            var stored := Find(s.store, s.calls[c].event.id).value;
      && c < |t.calls|
      && t.calls[c].phase ==
           if Payload(s.calls[c].event) == Payload(stored) then Recorded(stored) else Rejected(DifferentPayload)
  {
    var s := Run(cfg, EMPTY, before);
    RunInv(cfg, EMPTY, before);
    StoredIdDecides(cfg, s, c, Find(s.store, s.calls[c].event.id).value, 2, after);
  }

  /** Every id that a submission uses from here on is stored already. */
  predicate OnlyReplays(s: State, es: seq<Event>) {
    && (forall c :: 0 <= c < |s.calls| ==> Finished(s.calls[c].phase) || Find(s.store, s.calls[c].event.id).Some?)
    && (forall i :: 0 <= i < |es| && es[i].Begin? ==> Find(s.store, es[i].event.id).Some?)
  }

  /** Replays, with whatever payload and interleaving, change no row and hence no total. */
  lemma {:induction false} ReplaysChangeNothing(cfg: Config, s: State, es: seq<Event>)
    requires OnlyReplays(s, es)
    ensures Run(cfg, s, es).store == s.store
    decreases |es|
  {
    if es != [] {
      var n := Step(cfg, s, es[0]);
      StepAppendsAtMostOne(cfg, s, es[0]);
      assert forall i :: 0 <= i < |es[1..]| ==> es[1..][i] == es[i + 1];
      ReplaysChangeNothing(cfg, n, es[1..]);
    }
  }

  // ---------------------------------------------------------------- submissions one at a time

  /** A call alone takes at most five steps. */
  function Alone(cfg: Config, store: Store, c: Call, steps: nat): (Store, Phase)
    decreases steps
  {
    if steps == 0 then (store, c.phase)
    else
      var (after, phase) := Progress(cfg, store, c);
      Alone(cfg, after, c.(phase := phase), steps - 1)
  }

  /** The whole outcome of an undisturbed submission. */
  lemma AloneOutcome(cfg: Config, store: Store, e: UsageEvent)
    ensures var (after, phase) := Alone(cfg, store, Call(e, Lookup), 5);
            var existing, usage := Find(store, e.id), UsageBefore(cfg, store, e);
      if existing.Some? then
        after == store && phase == if Payload(e) == Payload(existing.value) then Recorded(existing.value) else Rejected(DifferentPayload)
      else if !QuotaAllows(usage, cfg.quotas(e.project)(e.metric), e.metric, e.quantity) then after == store && phase == Rejected(OverQuota)
      else if !BudgetAllows(usage, cfg.rates, cfg.budgets(e.project), e.metric, e.quantity) then after == store && phase == Rejected(OverBudget)
      else after == store + [e] && phase == Recorded(e)
  {
    var call := Call(e, Lookup);
    AloneStep(cfg, store, call, 5);
    if Find(store, e.id).None? {
      AloneStep(cfg, store, call.(phase := Quota), 4);
      AloneStep(cfg, store, call.(phase := Budget), 3);
      AloneStep(cfg, store, call.(phase := Insert), 2);
    }
  }

  lemma {:induction false} AloneStep(cfg: Config, store: Store, c: Call, steps: nat)
    requires steps > 0
    ensures var (after, phase) := Progress(cfg, store, c);
      Alone(cfg, store, c, steps) == if Finished(phase) then (after, phase) else Alone(cfg, after, c.(phase := phase), steps - 1)
    decreases steps
  {
    var (after, phase) := Progress(cfg, store, c);
    if steps > 1 && Finished(phase) {
      AloneStep(cfg, after, c.(phase := phase), steps - 1);
    }
  }

  /**
   * A new event of a project within its limits is stored exactly if the project is within its limits
   * with it; otherwise the table stays as it is, and the quota is the reason if it would be broken.
   */
  lemma StoredExactlyWhenItFits(cfg: Config, store: Store, e: UsageEvent)
    requires Find(store, e.id).None? && WithinLimits(cfg, store, e.project, cfg.period(e.recordedAt))
    ensures var (after, phase) := Alone(cfg, store, Call(e, Lookup), 5);
            var fits := WithinLimits(cfg, store + [e], e.project, cfg.period(e.recordedAt));
            var within := QuotaKept(UsageBefore(cfg, store + [e], e), cfg.quotas(e.project));
      && after == (if fits then store + [e] else store)
      && phase == (if fits then Recorded(e) else Rejected(if within then OverBudget else OverQuota))
  {
    AloneOutcome(cfg, store, e);
    OthersUsage(cfg, store, e, e.project, cfg.period(e.recordedAt));
    AllowedExactly(UsageBefore(cfg, store, e), cfg.rates, cfg.budgets(e.project), cfg.quotas(e.project), e.metric, e.quantity);
  }

  function RunSerially(cfg: Config, store: Store, events: seq<UsageEvent>): Store
    decreases |events|
  {
    if events == [] then store
    else RunSerially(cfg, Alone(cfg, store, Call(events[0], Lookup), 5).0, events[1..])
  }

  predicate WithinLimits(cfg: Config, store: Store, project: string, period: int) {
    var usage := Summary(cfg, store, project, period);
    BudgetKept(usage, cfg.rates, cfg.budgets(project)) && QuotaKept(usage, cfg.quotas(project))
  }

  lemma OthersUsage(cfg: Config, store: Store, e: UsageEvent, project: string, period: int)
    ensures Summary(cfg, store + [e], project, period) ==
      if e.project == project && cfg.period(e.recordedAt) == period
      then AddUsage(Summary(cfg, store, project, period), e.metric, e.quantity) else Summary(cfg, store, project, period)
  {
    assert (store + [e])[..|store|] == store;
  }

  lemma AddedWithin(before: Totals, e: UsageEvent, limits: Metric -> Option<real>)
    requires QuotaKept(before, limits)
    ensures QuotaAllows(before, limits(e.metric), e.metric, e.quantity) ==> QuotaKept(AddUsage(before, e.metric, e.quantity), limits)
  {
    var after := AddUsage(before, e.metric, e.quantity);
    if QuotaAllows(before, limits(e.metric), e.metric, e.quantity) {
      forall m | NonNegative(limits(m)).Some? ensures Of(after, m) <= limits(m).value {
        assert Of(before, m) <= limits(m).value;
      }
    }
  }

  lemma LimitsStep(cfg: Config, store: Store, e: UsageEvent, project: string, period: int)
    requires WithinLimits(cfg, store, project, period)
    ensures WithinLimits(cfg, Alone(cfg, store, Call(e, Lookup), 5).0, project, period)
  {
    AloneOutcome(cfg, store, e);
    OthersUsage(cfg, store, e, project, period);
    AddedWithin(Summary(cfg, store, project, period), e, cfg.quotas(project));
  }

  lemma {:induction false} SerialRunKeepsLimits(cfg: Config, store: Store, events: seq<UsageEvent>, project: string, period: int)
    requires WithinLimits(cfg, store, project, period)
    ensures WithinLimits(cfg, RunSerially(cfg, store, events), project, period)
    decreases |events|
  {
    if events != [] {
      LimitsStep(cfg, store, events[0], project, period);
      SerialRunKeepsLimits(cfg, Alone(cfg, store, Call(events[0], Lookup), 5).0, events[1..], project, period);
    }
  }

  /**
   * In every serial run from no usage, with fixed rates and limits: each project stays within its
   * quotas and its budget in every period, and its budget report never says exceeded.
   */
  lemma LimitsHold(cfg: Config, events: seq<UsageEvent>, project: string, period: int)
    ensures var usage := Summary(cfg, RunSerially(cfg, [], events), project, period);
            var report := Report(usage, cfg.rates, cfg.budgets(project));
      && QuotaKept(usage, cfg.quotas(project))
      && !report.status.Exceeded?
      && (report.limit.Some? ==> report.used <= report.limit.value && report.used + report.remaining.value == report.limit.value)
  {
    StartsWithinLimits(cfg.rates, cfg.budgets(project), cfg.quotas(project));
    SerialRunKeepsLimits(cfg, [], events, project, period);
    ReportTellsKept(Summary(cfg, RunSerially(cfg, [], events), project, period), cfg.rates, cfg.budgets(project));
  }

  // ---------------------------------------------------------------- limits in interleaved runs

  /** A submission that may still insert on the strength of what it read. */
  predicate Checking(p: Phase) {
    p.Quota? || p.Budget? || p.Insert?
  }

  /** No two submissions of one project are between their lookup and their insert. */
  predicate Exclusive(s: State) {
    forall i, j :: 0 <= i < j < |s.calls| && Checking(s.calls[i].phase) && Checking(s.calls[j].phase) ==>
      s.calls[i].event.project != s.calls[j].event.project
  }

  predicate NoOverlap(cfg: Config, s: State, es: seq<Event>)
    decreases |es|
  {
    Exclusive(s) && (es != [] ==> NoOverlap(cfg, Step(cfg, s, es[0]), es[1..]))
  }

  ghost predicate AllWithinLimits(cfg: Config, store: Store) {
    forall project: string, period: int :: WithinLimits(cfg, store, project, period)
  }

  /** What a submission has checked still holds of the table. */
  predicate StillAllowed(cfg: Config, store: Store, c: Call) {
    var e, usage := c.event, UsageBefore(cfg, store, c.event);
    && (c.phase.Budget? || c.phase.Insert? ==> QuotaAllows(usage, cfg.quotas(e.project)(e.metric), e.metric, e.quantity))
    && (c.phase.Insert? ==> BudgetAllows(usage, cfg.rates, cfg.budgets(e.project), e.metric, e.quantity))
  }

  ghost predicate LimitInv(cfg: Config, s: State) {
    && AllWithinLimits(cfg, s.store)
    && forall c :: 0 <= c < |s.calls| ==> StillAllowed(cfg, s.store, s.calls[c])
  }

  lemma AllowedStaysWithin(cfg: Config, store: Store, e: UsageEvent)
    requires AllWithinLimits(cfg, store) && StillAllowed(cfg, store, Call(e, Insert))
    ensures AllWithinLimits(cfg, store + [e])
  {
    forall project: string, period: int ensures WithinLimits(cfg, store + [e], project, period) {
      assert WithinLimits(cfg, store, project, period);
      OthersUsage(cfg, store, e, project, period);
      AddedWithin(Summary(cfg, store, project, period), e, cfg.quotas(project));
    }
  }

  lemma LimitInvStep(cfg: Config, s: State, e: Event)
    requires LimitInv(cfg, s) && Exclusive(s)
    ensures LimitInv(cfg, Step(cfg, s, e))
  {
    if Enabled(s, e) {
      var n := Next(cfg, s, e);
      StepAppendsAtMostOne(cfg, s, e);
      if n.store != s.store {
        assert StillAllowed(cfg, s.store, s.calls[e.c]);
        AllowedStaysWithin(cfg, s.store, s.calls[e.c].event);
      }
      forall k | 0 <= k < |n.calls| ensures StillAllowed(cfg, n.store, n.calls[k]) {
        if k < |s.calls| {
          assert StillAllowed(cfg, s.store, s.calls[k]);
          if n.store != s.store && k != e.c {
            OthersUsage(cfg, s.store, s.calls[e.c].event, s.calls[k].event.project, cfg.period(s.calls[k].event.recordedAt));
          }
        }
      }
    }
  }

  lemma {:induction false} LimitRun(cfg: Config, s: State, es: seq<Event>)
    requires LimitInv(cfg, s) && NoOverlap(cfg, s, es)
    ensures LimitInv(cfg, Run(cfg, s, es))
    decreases |es|
  {
    if es != [] {
      LimitInvStep(cfg, s, es[0]);
      LimitRun(cfg, Step(cfg, s, es[0]), es[1..]);
    }
  }

  /**
   * In every interleaving in which no two submissions of one project overlap between lookup and insert,
   * crashes, replays and any overlap of different projects included: every project stays within its
   * quotas and its budget in every period, and no budget report says exceeded.
   */
  lemma LimitsHoldWithoutOverlap(cfg: Config, es: seq<Event>, project: string, period: int)
    requires NoOverlap(cfg, EMPTY, es)
    ensures var usage := Summary(cfg, Run(cfg, EMPTY, es).store, project, period);
            var report := Report(usage, cfg.rates, cfg.budgets(project));
      && QuotaKept(usage, cfg.quotas(project))
      && !report.status.Exceeded?
      && (report.limit.Some? ==> report.used <= report.limit.value && report.used + report.remaining.value == report.limit.value)
  {
    forall p: string, q: int ensures WithinLimits(cfg, EMPTY.store, p, q) {
      StartsWithinLimits(cfg.rates, cfg.budgets(p), cfg.quotas(p));
    }
    LimitRun(cfg, EMPTY, es);
    var store := Run(cfg, EMPTY, es).store;
    assert WithinLimits(cfg, store, project, period);
    ReportTellsKept(Summary(cfg, store, project, period), cfg.rates, cfg.budgets(project));
  }

  /** Serial submissions are a run of the machine without overlap: each is begun and advanced to its end. */
  lemma {:induction false} SerialIsRun(cfg: Config, s: State, events: seq<UsageEvent>) returns (es: seq<Event>)
    requires forall i :: 0 <= i < |events| ==> events[i].quantity > 0.0
    requires forall c :: 0 <= c < |s.calls| ==> Finished(s.calls[c].phase)
    ensures NoOverlap(cfg, s, es) && Run(cfg, s, es).store == RunSerially(cfg, s.store, events)
    decreases |events|
  {
    if events == [] {
      es := [];
    } else {
      var (after, phase) := Alone(cfg, s.store, Call(events[0], Lookup), 5);
      AloneOutcome(cfg, s.store, events[0]);
      var t := State(after, s.calls + [Call(events[0], phase)]);
      var rest := SerialIsRun(cfg, t, events[1..]);
      var began := State(s.store, s.calls + [Call(events[0], Lookup)]);
      var tail := AdvanceAlone(cfg, s.calls, s.store, Call(events[0], Lookup), 5, rest);
      assert Step(cfg, s, Begin(events[0])) == began;
      es := [Begin(events[0])] + tail;
      assert es[1..] == tail;
    }
  }

  lemma {:induction false} AdvanceAlone(cfg: Config, calls: seq<Call>, store: Store, c: Call, steps: nat, rest: seq<Event>)
    returns (es: seq<Event>)
    requires forall k :: 0 <= k < |calls| ==> Finished(calls[k].phase)
    requires var (after, phase) := Alone(cfg, store, c, steps); NoOverlap(cfg, State(after, calls + [c.(phase := phase)]), rest)
    ensures var (after, phase) := Alone(cfg, store, c, steps);
      && NoOverlap(cfg, State(store, calls + [c]), es)
      && Run(cfg, State(store, calls + [c]), es) == Run(cfg, State(after, calls + [c.(phase := phase)]), rest)
    decreases steps
  {
    if steps == 0 {
      es := rest;
      assert c.(phase := c.phase) == c;
    } else {
      var (after, phase) := Progress(cfg, store, c);
      var tail := AdvanceAlone(cfg, calls, after, c.(phase := phase), steps - 1, rest);
      es := [Advance(|calls|)] + tail;
      assert es[1..] == tail;
      assert (calls + [c])[|calls| := c.(phase := phase)] == calls + [c.(phase := phase)];
      assert c.(phase := phase).(phase := Alone(cfg, store, c, steps).1) == c.(phase := Alone(cfg, store, c, steps).1);
      AloneOn(calls, c, store);
    }
  }

  lemma AloneOn(calls: seq<Call>, c: Call, store: Store)
    requires forall k :: 0 <= k < |calls| ==> Finished(calls[k].phase)
    ensures Exclusive(State(store, calls + [c]))
  {}

  // ---------------------------------------------------------------- overlapping submissions

  lemma RunStep(cfg: Config, s: State, e: Event, es: seq<Event>)
    ensures Run(cfg, s, [e] + es) == Run(cfg, Step(cfg, s, e), es)
  {
    assert ([e] + es)[1..] == es;
  }

  /** The checks read before the insert, so overlapping submissions can exceed a quota together. */
  lemma OverlapCanExceedQuota()
    ensures exists cfg: Config, es: seq<Event>, project: string, period: int ::
      !QuotaKept(Summary(cfg, Run(cfg, EMPTY, es).store, project, period), cfg.quotas(project))
  {
    var cfg := Config(_ => None, _ => None, _ => _ => Some(1.0), _ => 0);
    var a := UsageEvent("a", None, "p", Invocation, 1.0, None, 0);
    var b := a.(id := "b");
    var both := [Call(a, Insert), Call(b, Insert)];
    var s := State([], both);
    RunStep(cfg, s, Advance(0), [Advance(1)] + []);
    RunStep(cfg, Step(cfg, s, Advance(0)), Advance(1), []);
    assert Find([a], "b").None? && Step(cfg, s, Advance(0)).store == [a];
    var es := BothReachInsert(cfg, a, b, both, [Advance(0)] + ([Advance(1)] + []));
    TwoUses(cfg, a, b);
    assert !QuotaKept(Summary(cfg, Run(cfg, EMPTY, es).store, "p", 0), cfg.quotas("p"));
  }

  lemma TwoUses(cfg: Config, a: UsageEvent, b: UsageEvent)
    requires a.project == b.project && cfg.period(a.recordedAt) == cfg.period(b.recordedAt) && a.metric == b.metric
    ensures Of(Summary(cfg, [a] + [b], a.project, cfg.period(a.recordedAt)), a.metric) == a.quantity + b.quantity
  {
    var period := cfg.period(a.recordedAt);
    assert Summary(cfg, [a][..0], a.project, period) == NO_USAGE;
    assert Summary(cfg, [a], a.project, period) == AddUsage(NO_USAGE, a.metric, a.quantity);
    assert ([a] + [b])[..1] == [a];
    assert Of(NO_USAGE, a.metric) == 0.0;
  }

  lemma BothReachInsert(cfg: Config, a: UsageEvent, b: UsageEvent, both: seq<Call>, rest: seq<Event>) returns (es: seq<Event>)
    requires both == [Call(a, Insert), Call(b, Insert)]
    requires a.quantity > 0.0 && b.quantity > 0.0
    requires forall e :: e in {a, b} ==>
      && QuotaAllows(NO_USAGE, cfg.quotas(e.project)(e.metric), e.metric, e.quantity)
      && BudgetAllows(NO_USAGE, cfg.rates, cfg.budgets(e.project), e.metric, e.quantity)
    ensures Run(cfg, EMPTY, es) == Run(cfg, State([], both), rest)
  {
    assert a in {a, b} && b in {a, b};
    var none: seq<Call>, one := [], [Call(a, Insert)];
    var later := ReachInsert(cfg, one, b, both, rest);
    es := ReachInsert(cfg, none, a, one, later);
  }

  lemma ReachInsert(cfg: Config, calls: seq<Call>, e: UsageEvent, after: seq<Call>, rest: seq<Event>) returns (es: seq<Event>)
    requires e.quantity > 0.0 && after == calls + [Call(e, Insert)]
    requires QuotaAllows(NO_USAGE, cfg.quotas(e.project)(e.metric), e.metric, e.quantity)
    requires BudgetAllows(NO_USAGE, cfg.rates, cfg.budgets(e.project), e.metric, e.quantity)
    ensures Run(cfg, State([], calls), es) == Run(cfg, State([], after), rest)
  {
    var n, s := |calls|, State([], calls);
    var s1 := Step(cfg, s, Begin(e));
    var s2 := Step(cfg, s1, Advance(n));
    var s3 := Step(cfg, s2, Advance(n));
    var s4 := Step(cfg, s3, Advance(n));
    assert s4.calls == after;
    RunStep(cfg, s3, Advance(n), rest);
    RunStep(cfg, s2, Advance(n), [Advance(n)] + rest);
    RunStep(cfg, s1, Advance(n), [Advance(n)] + ([Advance(n)] + rest));
    es := [Begin(e)] + ([Advance(n)] + ([Advance(n)] + ([Advance(n)] + rest)));
    RunStep(cfg, s, Begin(e), [Advance(n)] + ([Advance(n)] + ([Advance(n)] + rest)));
  }
}
