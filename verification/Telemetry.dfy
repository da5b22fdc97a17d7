/**
 * Host telemetry: spans with bounded data, the runtime's counters and histograms, and the
 * life cycle that connects them.
 *
 * `finish` takes the span's data under its lock and then updates one shared counter after
 * another; each such update is one event of the machine below, so the totals are compared
 * with the spans in every interleaving, and exactly at quiescence.
 */
module Telemetry {
  import opened Wrappers

  // ---------------------------------------------------------------- span data

  const ATTRIBUTE_LIMIT: nat := 32
  const EVENT_LIMIT: nat := 32
  const LINK_LIMIT: nat := 8
  const KEY_LIMIT: nat := 128
  const VALUE_LIMIT: nat := 1024

  datatype Value = Text(text: string) | Flag(flag: bool) | Whole(number: int) | Float | Unsupported

  datatype SpanData = SpanData(attributes: map<string, Value>, events: seq<string>, links: seq<nat>)

  function Truncate(s: string, max: nat): (t: string)
    ensures |t| <= max && t <= s && (|s| <= max ==> t == s)
  {
    if |s| <= max then s else s[..max]
  }

  function Bounded(v: Value): Value {
    match v
    case Text(s) => Text(Truncate(s, VALUE_LIMIT))
    case Unsupported => Text("[unsupported]")
    case _ => v
  }

  /** The limit is tested with the given key, the truncated key is stored. */
  function WithAttribute(d: SpanData, key: string, v: Value): SpanData {
    if |d.attributes| < ATTRIBUTE_LIMIT || key in d.attributes
    then d.(attributes := d.attributes[Truncate(key, KEY_LIMIT) := Bounded(v)])
    else d
  }

  function WithEvent(d: SpanData, name: string): SpanData {
    if |d.events| < EVENT_LIMIT then d.(events := d.events + [Truncate(name, KEY_LIMIT)]) else d
  }

  function WithLink(d: SpanData, link: nat): SpanData {
    if |d.links| < LINK_LIMIT then d.(links := d.links + [link]) else d
  }

  const EMPTY_DATA := SpanData(map[], [], [])

  /** However a guest uses it, a span stays small; its exported form adds at most two attributes. */
  ghost predicate Small(d: SpanData) {
    && |d.attributes| <= ATTRIBUTE_LIMIT && |d.events| <= EVENT_LIMIT && |d.links| <= LINK_LIMIT
    && (forall k :: k in d.attributes ==> |k| <= KEY_LIMIT)
    && (forall k :: k in d.attributes && d.attributes[k].Text? ==> |d.attributes[k].text| <= VALUE_LIMIT)
  }

  lemma DataStaysSmall(d: SpanData, key: string, v: Value, name: string, link: nat)
    requires Small(d)
    ensures Small(WithAttribute(d, key, v)) && Small(WithEvent(d, name)) && Small(WithLink(d, link))
  {
    var stored := Truncate(key, KEY_LIMIT);
    if key in d.attributes {
      assert stored == key;
      assert d.attributes[key := Bounded(v)].Keys == d.attributes.Keys;
    } else {
      assert d.attributes[stored := Bounded(v)].Keys == d.attributes.Keys + {stored};
    }
  }

  /** What is stored of a value: its first 1024 characters if it is a text, a mark if it cannot be exported. */
  predicate StoredAs(v: Value, stored: Value) {
    match v
    case Text(s) => stored.Text? && stored.text <= s && |stored.text| == Min(|s|, 1024)
    case Unsupported => stored == Text("[unsupported]")
    case _ => stored == v
  }

  /**
   * An attribute is stored while there are fewer than 32 or its key is there already, under the first 128
   * characters of its key; the other attributes stay as they are.
   */
  lemma AttributeMeans(d: SpanData, key: string, v: Value)
    ensures var after, stored := WithAttribute(d, key, v), key[..Min(|key|, 128)];
      if |d.attributes| >= 32 && key !in d.attributes then after == d
      else
        && stored in after.attributes && StoredAs(v, after.attributes[stored])
        && after == d.(attributes := d.attributes[stored := after.attributes[stored]])
  {
    assert key[..|key|] == key;
  }

  function AllEvents(d: SpanData, names: seq<string>): SpanData {
    if names == [] then d else WithEvent(AllEvents(d, names[..|names| - 1]), names[|names| - 1])
  }

  function AllLinks(d: SpanData, links: seq<nat>): SpanData {
    if links == [] then d else WithLink(AllLinks(d, links[..|links| - 1]), links[|links| - 1])
  }

  /** Of the events and links added to a span, exactly the first 32 and the first 8 are kept, in order. */
  lemma {:induction false} FirstEventsAreKept(names: seq<string>)
    ensures var kept := AllEvents(EMPTY_DATA, names).events;
      && |kept| == Min(|names|, 32)
      && forall i :: 0 <= i < |kept| ==> kept[i] <= names[i] && |kept[i]| == Min(|names[i]|, 128)
  {
    if names != [] {
      FirstEventsAreKept(names[..|names| - 1]);
    }
  }

  lemma {:induction false} FirstLinksAreKept(links: seq<nat>)
    ensures AllLinks(EMPTY_DATA, links).links == links[..Min(|links|, 8)]
  {
    if links != [] {
      FirstLinksAreKept(links[..|links| - 1]);
    }
  }

  // ---------------------------------------------------------------- histogram keys

  datatype Group = HttpServer | HttpClient | Queue | Compile | Instantiate | StartHook | StopHook | RunCall | Durable | Guest
  datatype Verb = Get | Post | Put | Patch | Delete | Head | Options | Trace | Connect | Other | NoMethod

  datatype Key = Key(group: Group, verb: Verb, status: nat)

  function GroupOf(name: string): Group {
    if name == "http.server" then HttpServer
    else if name == "http.client" then HttpClient
    else if name == "queue" then Queue
    else if name == "compile" then Compile
    else if name == "instantiate" then Instantiate
    else if name == "start" then StartHook
    else if name == "stop" then StopHook
    else if name == "run" then RunCall
    else if name == "durable" then Durable
    else Guest
  }

  function VerbOf(v: Option<Value>): Verb {
    if !(v.Some? && v.value.Text?) then Other
    else
      var m := v.value.text;
      if m == "GET" then Get else if m == "POST" then Post else if m == "PUT" then Put
      else if m == "PATCH" then Patch else if m == "DELETE" then Delete else if m == "HEAD" then Head
      else if m == "OPTIONS" then Options else if m == "TRACE" then Trace else if m == "CONNECT" then Connect
      else Other
  }

  function StatusOf(v: Option<Value>): nat {
    if v.Some? && v.value.Whole? && 100 <= v.value.number <= 599 then v.value.number else 0
  }

  function Lookup(d: SpanData, key: string): Option<Value> {
    if key in d.attributes then Some(d.attributes[key]) else None
  }

  function KeyOf(group: string, d: SpanData): Key {
    var g := GroupOf(group);
    Key(g,
        if g.HttpServer? || g.HttpClient? then VerbOf(Lookup(d, "http.request.method")) else NoMethod,
        StatusOf(Lookup(d, "http.response.status_code")))
  }

  function GroupName(g: Group): string {
    match g
    case HttpServer => "http.server"
    case HttpClient => "http.client"
    case Queue => "queue"
    case Compile => "compile"
    case Instantiate => "instantiate"
    case StartHook => "start"
    case StopHook => "stop"
    case RunCall => "run"
    case Durable => "durable"
    case Guest => "guest"
  }

  function VerbName(v: Verb): string {
    match v
    case Get => "GET"
    case Post => "POST"
    case Put => "PUT"
    case Patch => "PATCH"
    case Delete => "DELETE"
    case Head => "HEAD"
    case Options => "OPTIONS"
    case Trace => "TRACE"
    case Connect => "CONNECT"
    case Other => "_OTHER"
    case NoMethod => ""
  }

  /** Every fixed group is that of its name, and any other name belongs to the guest. */
  lemma GroupsByName(name: string)
    ensures forall g: Group :: GroupOf(GroupName(g)) == g
    ensures GroupOf(name).Guest? || name == GroupName(GroupOf(name))
  {}

  /** Every method has a series of its own; anything else counts as another method. */
  lemma VerbsByName(v: Verb, m: string)
    ensures !v.NoMethod? ==> VerbOf(Some(Text(VerbName(v)))) == v
    ensures VerbOf(Some(Text(m))) == Other || m == VerbName(VerbOf(Some(Text(m))))
  {}

  /** The key of an HTTP operation has its method and status attributes; of any other only the status. */
  lemma KeyMeans(group: string, d: SpanData)
    ensures var k := KeyOf(group, d); var m, status := "http.request.method", "http.response.status_code";
      && k.group == GroupOf(group)
      && (!k.group.HttpServer? && !k.group.HttpClient? ==> k.verb == NoMethod)
      && (k.group.HttpServer? || k.group.HttpClient? ==>
            k.verb == (if m in d.attributes && d.attributes[m].Text? then VerbOf(Some(d.attributes[m])) else Other))
      && (if status in d.attributes && d.attributes[status].Whole? && 100 <= d.attributes[status].number <= 599
          then k.status == d.attributes[status].number else k.status == 0)
  {}

  predicate Possible(k: Key) {
    && (k.status == 0 || 100 <= k.status <= 599)
    && (k.verb.NoMethod? <==> !(k.group.HttpServer? || k.group.HttpClient?))
  }

  const MAX_SERIES: nat := 14028

  function GroupNumber(g: Group): nat {
    match g
    case HttpServer => 0
    case HttpClient => 1
    case Queue => 2
    case Compile => 3
    case Instantiate => 4
    case StartHook => 5
    case StopHook => 6
    case RunCall => 7
    case Durable => 8
    case Guest => 9
  }

  function VerbNumber(m: Verb): nat {
    match m
    case Get => 0
    case Post => 1
    case Put => 2
    case Patch => 3
    case Delete => 4
    case Head => 5
    case Options => 6
    case Trace => 7
    case Connect => 8
    case Other => 9
    case NoMethod => 0
  }

  /** A number below MAX_SERIES for every key that can occur: 20 method rows, 8 plain rows, 501 statuses each. */
  function SeriesNumber(k: Key): (n: nat)
    requires Possible(k)
    ensures n < MAX_SERIES
  {
    var row := if k.group.HttpServer? || k.group.HttpClient? then GroupNumber(k.group) * 10 + VerbNumber(k.verb)
               else 18 + GroupNumber(k.group);
    row * 501 + (if k.status == 0 then 0 else k.status - 99)
  }

  lemma SeriesNumberInjective(a: Key, b: Key)
    requires Possible(a) && Possible(b) && SeriesNumber(a) == SeriesNumber(b)
    ensures a == b
  {}

  /** Whatever names and attributes guests use, there are at most 14028 histogram series. */
  lemma SeriesAreBounded(keys: set<Key>)
    requires forall k :: k in keys ==> Possible(k)
    ensures |keys| <= MAX_SERIES
  {
    forall a, b | a in keys && b in keys && SeriesNumber(a) == SeriesNumber(b) ensures a == b {
      SeriesNumberInjective(a, b);
    }
    var number := (k: Key) => if Possible(k) then SeriesNumber(k) as int else 0;
    NumberedSetIsSmall(keys, number, MAX_SERIES);
  }

  // ---------------------------------------------------------------- histograms

  const BUCKETS: nat := 15

  datatype Histogram = Histogram(count: nat, buckets: seq<nat>)

  const EMPTY_HISTOGRAM := Histogram(0, [0, 0, 0, 0, 0, 0, 0, 0, 0, 0, 0, 0, 0, 0, 0])

  function SumSeq(s: seq<nat>): nat {
    if s == [] then 0 else SumSeq(s[..|s| - 1]) + s[|s| - 1]
  }

  lemma {:induction false} SumSeqUpdate(s: seq<nat>, i: nat, x: nat)
    requires i < |s|
    ensures SumSeq(s[i := x]) == SumSeq(s) - s[i] + x
  {
    var t := s[i := x];
    if i == |s| - 1 {
      assert t[..|t| - 1] == s[..|s| - 1];
    } else {
      assert t[..|t| - 1] == s[..|s| - 1][i := x];
      SumSeqUpdate(s[..|s| - 1], i, x);
    }
  }

  predicate WellFormed(h: Histogram) {
    |h.buckets| == BUCKETS && SumSeq(h.buckets) == h.count
  }

  lemma {:induction false} ZerosSum(s: seq<nat>)
    requires forall i :: 0 <= i < |s| ==> s[i] == 0
    ensures SumSeq(s) == 0
  {
    if s != [] {
      ZerosSum(s[..|s| - 1]);
    }
  }

  function Record(h: Histogram, bucket: nat): Histogram {
    Histogram(h.count + 1, if bucket < |h.buckets| then h.buckets[bucket := h.buckets[bucket] + 1] else h.buckets)
  }

  type Histograms = map<Key, Histogram>

  /** BTreeMap::entry(key).or_default(), then one observation. */
  function Observe(m: Histograms, k: Key, bucket: nat): Histograms {
    m[k := Record(if k in m then m[k] else EMPTY_HISTOGRAM, bucket)]
  }

  ghost function SumCounts(keys: set<Key>, m: Histograms): nat
    requires keys <= m.Keys
  {
    if keys == {} then 0 else var k :| k in keys; m[k].count + SumCounts(keys - {k}, m)
  }

  lemma {:induction false} SumCountsSplit(keys: set<Key>, m: Histograms, k: Key)
    requires keys <= m.Keys && k in keys
    ensures SumCounts(keys, m) == m[k].count + SumCounts(keys - {k}, m)
  {
    var first :| first in keys && SumCounts(keys, m) == m[first].count + SumCounts(keys - {first}, m);
    if first != k {
      SumCountsSplit(keys - {first}, m, k);
      SumCountsSplit(keys - {k}, m, first);
      assert keys - {first} - {k} == keys - {k} - {first};
    }
  }

  lemma {:induction false} SumCountsAgree(keys: set<Key>, m: Histograms, n: Histograms)
    requires keys <= m.Keys && keys <= n.Keys && forall k :: k in keys ==> m[k] == n[k]
    ensures SumCounts(keys, m) == SumCounts(keys, n)
  {
    if keys != {} {
      var k :| k in keys;
      SumCountsSplit(keys, m, k);
      SumCountsSplit(keys, n, k);
      SumCountsAgree(keys - {k}, m, n);
    }
  }

  ghost predicate HistogramsFine(m: Histograms) {
    forall k :: k in m ==> Possible(k) && WellFormed(m[k])
  }

  lemma RecordIsFine(h: Histogram, bucket: nat)
    requires WellFormed(h) && bucket < BUCKETS
    ensures WellFormed(Record(h, bucket)) && Record(h, bucket).count == h.count + 1
  {
    SumSeqUpdate(h.buckets, bucket, h.buckets[bucket] + 1);
  }

  lemma CountsAdd(m: Histograms, k: Key, h: Histogram)
    ensures var n := m[k := h];
      SumCounts(n.Keys, n) == SumCounts(m.Keys, m) - (if k in m then m[k].count else 0) + h.count
  {
    var n := m[k := h];
    SumCountsSplit(n.Keys, n, k);
    assert n.Keys - {k} == m.Keys - {k};
    SumCountsAgree(n.Keys - {k}, m, n);
    if k in m {
      SumCountsSplit(m.Keys, m, k);
    } else {
      assert m.Keys - {k} == m.Keys;
    }
  }

  lemma ObserveAddsOne(m: Histograms, k: Key, bucket: nat)
    requires HistogramsFine(m) && Possible(k) && bucket < BUCKETS
    ensures var n := Observe(m, k, bucket);
      HistogramsFine(n) && SumCounts(n.Keys, n) == SumCounts(m.Keys, m) + 1
  {
    var h := if k in m then m[k] else EMPTY_HISTOGRAM;
    ZerosSum(EMPTY_HISTOGRAM.buckets);
    RecordIsFine(h, bucket);
    CountsAdd(m, k, Record(h, bucket));
  }

  /** An observation counts in its own bucket of its own series and nowhere else. */
  lemma ObservationIsLocal(m: Histograms, k: Key, bucket: nat)
    requires HistogramsFine(m) && bucket < BUCKETS
    ensures var n := Observe(m, k, bucket); var was := if k in m then m[k].buckets else seq(15, _ => 0);
      && n.Keys == m.Keys + {k} && (forall j :: j in m && j != k ==> n[j] == m[j])
      && |was| == 15 && n[k].buckets == was[bucket := was[bucket] + 1]
  {
    assert EMPTY_HISTOGRAM.buckets == seq(15, _ => 0);
    if k in m {
      assert WellFormed(m[k]);
    }
  }

  // ---------------------------------------------------------------- spans and counters

  datatype Context = Context(trace: nat, span: nat, sampled: bool)

  datatype Outcome = OkOutcome | CancelledOutcome | TimeoutOutcome | UnknownOutcome | ErrorOutcome

  predicate IsError(o: Outcome) { !o.OkOutcome? && !o.CancelledOutcome? }

  /** How far finish has come: each value after Unfinished is one shared update further. */
  datatype Stage = Unfinished | Taken | Decremented | Counted | Classified | Logged | Measured | Finished

  function Rank(s: Stage): nat {
    match s
    case Unfinished => 0
    case Taken => 1
    case Decremented => 2
    case Counted => 3
    case Classified => 4
    case Logged => 5
    case Measured => 6
    case Finished => 7
  }

  datatype Span = Span(context: Context, parent: Option<nat>, group: string, data: SpanData, stage: Stage, outcome: Outcome)

  datatype Emitted = SpanRecord(id: nat) | ErrorLog(id: nat)

  datatype State = State(
    spans: map<nat, Span>,
    active: int, completed: nat, errors: nat, cancelled: nat,
    histograms: Histograms,
    emitted: seq<Emitted>)       // records handed to the exporter queue

  const EMPTY := State(map[], 0, 0, 0, 0, map[], [])

  /** Where a span's context comes from: a new trace, a parsed header, or another span. */
  datatype Origin = Root(trace: nat, sampled: bool) | Header(context: Context) | ChildOf(id: nat)

  datatype Event =
    | Start(id: nat, group: string, origin: Origin)
    | Attribute(id: nat, key: string, value: Value)
    | AddEvent(id: nat, name: string)
    | AddLink(id: nat, link: nat)
    | CallFinish(id: nat, outcome: Outcome)     // finish, drop, end of body: any number of times
    | Advance(id: nat, bucket: nat)             // the running finish performs its next update

  function ContextOf(s: State, id: nat, o: Origin): Context
    requires o.ChildOf? ==> o.id in s.spans
  {
    match o
    case Root(trace, sampled) => Context(trace, id, sampled)
    case Header(c) => Context(c.trace, id, c.sampled)
    case ChildOf(p) => Context(s.spans[p].context.trace, id, s.spans[p].context.sampled)
  }

  function WithData(s: State, id: nat, d: SpanData): State
    requires id in s.spans
  {
    s.(spans := s.spans[id := s.spans[id].(data := d)])
  }

  predicate Enabled(s: State, e: Event) {
    match e
    case Start(id, _, o) => id !in s.spans && (o.ChildOf? ==> o.id in s.spans)
    case Attribute(id, _, _) => id in s.spans && s.spans[id].stage.Unfinished?
    case AddEvent(id, _) => id in s.spans && s.spans[id].stage.Unfinished?
    case AddLink(id, _) => id in s.spans && s.spans[id].stage.Unfinished?
    case CallFinish(id, _) => id in s.spans && s.spans[id].stage.Unfinished?
    case Advance(id, bucket) =>
      id in s.spans && !s.spans[id].stage.Unfinished? && !s.spans[id].stage.Finished? && bucket < BUCKETS
  }

  function Successor(stage: Stage): Stage {
    match stage
    case Unfinished => Taken
    case Taken => Decremented
    case Decremented => Counted
    case Counted => Classified
    case Classified => Logged
    case Logged => Measured
    case Measured => Finished
    case Finished => Finished
  }

  /** The update that a running finish performs when it leaves a stage. */
  function AdvanceSpan(s: State, id: nat, bucket: nat): State
    requires Enabled(s, Advance(id, bucket))
  {
    var span := s.spans[id];
    var here, outcome := span.stage, span.outcome;
    s.(spans := s.spans[id := span.(stage := Successor(here))],
       active := if here.Taken? then s.active - 1 else s.active,
       completed := if here.Decremented? then s.completed + 1 else s.completed,
       cancelled := if here.Counted? && outcome.CancelledOutcome? then s.cancelled + 1 else s.cancelled,
       errors := if here.Counted? && IsError(outcome) then s.errors + 1 else s.errors,
       histograms := if here.Logged? then Observe(s.histograms, KeyOf(span.group, span.data), bucket) else s.histograms,
       emitted := if here.Classified? && IsError(outcome) then s.emitted + [ErrorLog(id)]
                  else if here.Measured? && span.context.sampled then s.emitted + [SpanRecord(id)]
                  else s.emitted)
  }

  function Next(s: State, e: Event): State
    requires Enabled(s, e)
  {
    match e
    case Start(id, group, o) =>
      s.(spans := s.spans[id := Span(ContextOf(s, id, o), if o.ChildOf? then Some(o.id) else None, group, EMPTY_DATA, Unfinished, OkOutcome)],
         active := s.active + 1)
    case Attribute(id, key, v) => WithData(s, id, WithAttribute(s.spans[id].data, key, v))
    case AddEvent(id, name) => WithData(s, id, WithEvent(s.spans[id].data, name))
    case AddLink(id, link) => WithData(s, id, WithLink(s.spans[id].data, link))
    case CallFinish(id, o) => s.(spans := s.spans[id := s.spans[id].(stage := Taken, outcome := o)])
    case Advance(id, bucket) => AdvanceSpan(s, id, bucket)
  }

  function Step(s: State, e: Event): State {
    if Enabled(s, e) then Next(s, e) else s
  }

  function Run(s: State, es: seq<Event>): State
    decreases |es|
  {
    if es == [] then s else Run(Step(s, es[0]), es[1..])
  }

  // ---------------------------------------------------------------- counting spans

  /** Spans whose finish has performed at least the update numbered `rank`. */
  ghost function Past(m: map<nat, Span>, rank: nat): set<nat> {
    set id | id in m && Rank(m[id].stage) >= rank
  }

  ghost function Ended(m: map<nat, Span>, cancelled: bool): set<nat> {
    set id | id in m && Rank(m[id].stage) >= 4
             && if cancelled then m[id].outcome.CancelledOutcome? else IsError(m[id].outcome)
  }

  ghost predicate CountsMatch(s: State) {
    && s.active == |s.spans| - |Past(s.spans, 2)|
    && s.completed == |Past(s.spans, 3)|
    && s.cancelled == |Ended(s.spans, true)|
    && s.errors == |Ended(s.spans, false)|
    && SumCounts(s.histograms.Keys, s.histograms) == |Past(s.spans, 6)|
  }

  function One(b: bool): int { if b then 1 else 0 }

  lemma PastChange(m: map<nat, Span>, id: nat, span: Span, rank: nat)
    ensures |Past(m[id := span], rank)|
         == |Past(m, rank)| + One(Rank(span.stage) >= rank) - One(id in m && Rank(m[id].stage) >= rank)
  {
    assert Past(m[id := span], rank)
        == if Rank(span.stage) >= rank then Past(m, rank) + {id} else Past(m, rank) - {id};
    assert id in Past(m, rank) <==> id in m && Rank(m[id].stage) >= rank;
  }

  predicate EndsAs(span: Span, cancelled: bool) {
    Rank(span.stage) >= 4 && if cancelled then span.outcome.CancelledOutcome? else IsError(span.outcome)
  }

  lemma EndedChange(m: map<nat, Span>, id: nat, span: Span, cancelled: bool)
    ensures |Ended(m[id := span], cancelled)|
         == |Ended(m, cancelled)| + One(EndsAs(span, cancelled)) - One(id in m && EndsAs(m[id], cancelled))
  {
    assert Ended(m[id := span], cancelled)
        == if EndsAs(span, cancelled) then Ended(m, cancelled) + {id} else Ended(m, cancelled) - {id};
    assert id in Ended(m, cancelled) <==> id in m && EndsAs(m[id], cancelled);
  }

  predicate At(m: map<nat, Span>, id: nat, rank: nat) {
    id in m && Rank(m[id].stage) >= rank
  }

  predicate EndedAt(m: map<nat, Span>, id: nat, cancelled: bool) {
    id in m && EndsAs(m[id], cancelled)
  }

  /** Each counter moves together with the one span the event is about. */
  lemma CountersMoveWithSpan(s: State, e: Event)
    requires Enabled(s, e)
    ensures var t, id := Next(s, e), e.id;
      && id in t.spans && t.spans == s.spans[id := t.spans[id]]
      && t.active - s.active == One(id !in s.spans) - One(At(t.spans, id, 2)) + One(At(s.spans, id, 2))
      && t.completed - s.completed == One(At(t.spans, id, 3)) - One(At(s.spans, id, 3))
      && t.cancelled - s.cancelled == One(EndedAt(t.spans, id, true)) - One(EndedAt(s.spans, id, true))
      && t.errors - s.errors == One(EndedAt(t.spans, id, false)) - One(EndedAt(s.spans, id, false))
  {}

  lemma CountersStep(s: State, e: Event)
    requires CountsMatch(s) && Enabled(s, e)
    ensures var t := Next(s, e);
      && t.active == |t.spans| - |Past(t.spans, 2)|
      && t.completed == |Past(t.spans, 3)|
      && t.cancelled == |Ended(t.spans, true)|
      && t.errors == |Ended(t.spans, false)|
  {
    CountersMoveWithSpan(s, e);
    CountersFollow(s, e.id, Next(s, e));
  }

  lemma CountersFollow(s: State, id: nat, t: State)
    requires CountsMatch(s) && id in t.spans && t.spans == s.spans[id := t.spans[id]]
    requires t.active - s.active == One(id !in s.spans) - One(At(t.spans, id, 2)) + One(At(s.spans, id, 2))
    requires t.completed - s.completed == One(At(t.spans, id, 3)) - One(At(s.spans, id, 3))
    requires t.cancelled - s.cancelled == One(EndedAt(t.spans, id, true)) - One(EndedAt(s.spans, id, true))
    requires t.errors - s.errors == One(EndedAt(t.spans, id, false)) - One(EndedAt(s.spans, id, false))
    ensures t.active == |t.spans| - |Past(t.spans, 2)|
    ensures t.completed == |Past(t.spans, 3)|
    ensures t.cancelled == |Ended(t.spans, true)|
    ensures t.errors == |Ended(t.spans, false)|
  {
    assert t.spans.Keys == s.spans.Keys + {id};
    PastChange(s.spans, id, t.spans[id], 2);
    PastChange(s.spans, id, t.spans[id], 3);
    EndedChange(s.spans, id, t.spans[id], true);
    EndedChange(s.spans, id, t.spans[id], false);
  }

  predicate Observes(s: State, e: Event) {
    e.Advance? && e.id in s.spans && s.spans[e.id].stage.Logged?
  }

  lemma HistogramsMoveWithSpan(s: State, e: Event)
    requires Enabled(s, e)
    ensures var t, id := Next(s, e), e.id;
      && id in t.spans && t.spans == s.spans[id := t.spans[id]]
      && One(At(t.spans, id, 6)) - One(At(s.spans, id, 6)) == One(Observes(s, e))
      && (!Observes(s, e) ==> t.histograms == s.histograms)
      && (Observes(s, e) ==> t.histograms == Observe(s.histograms, KeyOf(s.spans[id].group, s.spans[id].data), e.bucket))
  {}

  lemma HistogramsStep(s: State, e: Event)
    requires CountsMatch(s) && HistogramsFine(s.histograms) && Enabled(s, e)
    ensures var t := Next(s, e);
      HistogramsFine(t.histograms) && SumCounts(t.histograms.Keys, t.histograms) == |Past(t.spans, 6)|
  {
    HistogramsMoveWithSpan(s, e);
    PastChange(s.spans, e.id, Next(s, e).spans[e.id], 6);
    if Observes(s, e) {
      ObserveAddsOne(s.histograms, KeyOf(s.spans[e.id].group, s.spans[e.id].data), e.bucket);
    }
  }

  lemma CountsStep(s: State, e: Event)
    requires CountsMatch(s) && HistogramsFine(s.histograms)
    ensures CountsMatch(Step(s, e)) && HistogramsFine(Step(s, e).histograms)
  {
    if Enabled(s, e) {
      CountersStep(s, e);
      HistogramsStep(s, e);
    }
  }

  // ---------------------------------------------------------------- records, data and families

  /** A span's record and error log are emitted once each, exactly when its finish got that far. */
  ghost predicate EmittedMatch(s: State) {
    && Distinct(s.emitted)
    && (forall id :: SpanRecord(id) in s.emitted <==>
          id in s.spans && Recorded(s.spans[id]))
    && (forall id :: ErrorLog(id) in s.emitted <==>
          id in s.spans && ErrorLogged(s.spans[id]))
  }

  predicate Recorded(span: Span) { span.stage.Finished? && span.context.sampled }
  predicate ErrorLogged(span: Span) { Rank(span.stage) >= 5 && IsError(span.outcome) }

  lemma EmittedStep(s: State, e: Event)
    requires EmittedMatch(s)
    ensures EmittedMatch(Step(s, e))
  {
    if Enabled(s, e) {
      var t := Next(s, e);
      if t.emitted == s.emitted {
        assert Recorded(t.spans[e.id]) <==> e.id in s.spans && Recorded(s.spans[e.id]);
        assert ErrorLogged(t.spans[e.id]) <==> e.id in s.spans && ErrorLogged(s.spans[e.id]);
      } else {
        EmittedGrows(s, e.id, t.spans[e.id], t);
      }
    }
  }

  lemma EmittedGrows(s: State, id: nat, span: Span, t: State)
    requires EmittedMatch(s) && id in s.spans && t.spans == s.spans[id := span]
    requires var was := s.spans[id];
      || (t.emitted == s.emitted + [SpanRecord(id)] && Recorded(span) && !Recorded(was)
          && (ErrorLogged(span) <==> ErrorLogged(was)))
      || (t.emitted == s.emitted + [ErrorLog(id)] && ErrorLogged(span) && !ErrorLogged(was)
          && (Recorded(span) <==> Recorded(was)))
    ensures EmittedMatch(t)
  {
    var r := t.emitted[|s.emitted|];
    assert r !in s.emitted;
    assert forall q :: q in t.emitted <==> q in s.emitted || q == r;
  }

  /** Every span has an id of its own and agrees with its parent on the trace and on sampling. */
  ghost predicate FamiliesMatch(s: State) {
    forall id :: id in s.spans ==>
      && Small(s.spans[id].data) && s.spans[id].context.span == id
      && (s.spans[id].parent.Some? ==>
            var p := s.spans[id].parent.value;
            p in s.spans && s.spans[p].context.trace == s.spans[id].context.trace
            && s.spans[p].context.sampled == s.spans[id].context.sampled)
  }

  lemma FamiliesStep(s: State, e: Event)
    requires FamiliesMatch(s)
    ensures FamiliesMatch(Step(s, e))
  {
    if Enabled(s, e) {
      var t := Next(s, e);
      match e
      case Start(id, group, o) => SpanStarted(s, id, group, o);
      case Attribute(id, key, v) =>
        DataStaysSmall(s.spans[id].data, key, v, "", 0);
        SpanReplaced(s, id, t.spans[id], t);
      case AddEvent(id, name) =>
        DataStaysSmall(s.spans[id].data, "", Float, name, 0);
        SpanReplaced(s, id, t.spans[id], t);
      case AddLink(id, link) =>
        DataStaysSmall(s.spans[id].data, "", Float, "", link);
        SpanReplaced(s, id, t.spans[id], t);
      case CallFinish(id, _) => SpanReplaced(s, id, t.spans[id], t);
      case Advance(id, _) => SpanReplaced(s, id, t.spans[id], t);
    }
  }

  lemma SpanStarted(s: State, id: nat, group: string, o: Origin)
    requires FamiliesMatch(s) && Enabled(s, Start(id, group, o))
    ensures FamiliesMatch(Next(s, Start(id, group, o)))
  {
    assert forall k :: k in s.spans ==> Next(s, Start(id, group, o)).spans[k] == s.spans[k];
  }

  lemma SpanReplaced(s: State, id: nat, span: Span, t: State)
    requires FamiliesMatch(s) && id in s.spans && t.spans == s.spans[id := span]
    requires span.context == s.spans[id].context && span.parent == s.spans[id].parent && Small(span.data)
    ensures FamiliesMatch(t)
  {
    assert forall k :: k in t.spans ==> t.spans[k].context == s.spans[k].context && t.spans[k].parent == s.spans[k].parent;
  }

  ghost predicate Inv(s: State) {
    CountsMatch(s) && HistogramsFine(s.histograms) && EmittedMatch(s) && FamiliesMatch(s)
  }

  lemma {:induction false} RunInv(s: State, es: seq<Event>)
    requires Inv(s)
    ensures Inv(Run(s, es))
    decreases |es|
  {
    if es != [] {
      CountsStep(s, es[0]);
      EmittedStep(s, es[0]);
      FamiliesStep(s, es[0]);
      RunInv(Step(s, es[0]), es[1..]);
    }
  }

  lemma EmptyInv()
    ensures Inv(EMPTY)
  {
    assert Past(map[], 2) == {} && Past(map[], 3) == {} && Past(map[], 6) == {};
    assert Ended(map[], true) == {} && Ended(map[], false) == {};
  }

  // ---------------------------------------------------------------- over every run

  /** No finish is half way through its updates. */
  ghost predicate Quiescent(s: State) {
    forall id :: id in s.spans ==> s.spans[id].stage.Unfinished? || s.spans[id].stage.Finished?
  }

  ghost function FinishedWith(m: map<nat, Span>, o: Outcome): set<nat> {
    set id | id in m && m[id].stage.Finished? && m[id].outcome == o
  }

  ghost function AllFinished(m: map<nat, Span>): set<nat> {
    set id | id in m && m[id].stage.Finished?
  }

  /** At quiescence the counters and the histograms are exactly the spans. */
  lemma Accounting(es: seq<Event>)
    ensures var s := Run(EMPTY, es);
      Quiescent(s) ==>
        && s.active == |s.spans| - |AllFinished(s.spans)|
        && s.completed == |AllFinished(s.spans)| == SumCounts(s.histograms.Keys, s.histograms)
        && s.cancelled == |FinishedWith(s.spans, CancelledOutcome)|
        && s.errors == |AllFinished(s.spans)| - |FinishedWith(s.spans, OkOutcome)| - |FinishedWith(s.spans, CancelledOutcome)|
        && forall k :: k in s.histograms ==> s.histograms[k].count == SumSeq(s.histograms[k].buckets)
  {
    EmptyInv();
    RunInv(EMPTY, es);
    var s := Run(EMPTY, es);
    if Quiescent(s) {
      QuiescentSets(s.spans);
    }
  }

  lemma QuiescentSets(m: map<nat, Span>)
    requires forall id :: id in m ==> m[id].stage.Unfinished? || m[id].stage.Finished?
    ensures Past(m, 2) == AllFinished(m) && Past(m, 3) == AllFinished(m) && Past(m, 6) == AllFinished(m)
    ensures Ended(m, true) == FinishedWith(m, CancelledOutcome)
    ensures |Ended(m, false)| == |AllFinished(m)| - |FinishedWith(m, OkOutcome)| - |FinishedWith(m, CancelledOutcome)|
  {
    QuiescentErrors(m);
    Subtract(AllFinished(m), FinishedWith(m, OkOutcome), FinishedWith(m, CancelledOutcome));
  }

  lemma QuiescentErrors(m: map<nat, Span>)
    requires forall id :: id in m ==> m[id].stage.Unfinished? || m[id].stage.Finished?
    ensures Ended(m, false) == AllFinished(m) - FinishedWith(m, OkOutcome) - FinishedWith(m, CancelledOutcome)
  {}

  lemma Subtract(all: set<nat>, a: set<nat>, b: set<nat>)
    requires a <= all && b <= all && a !! b
    ensures |all - a - b| == |all| - |a| - |b|
  {
    assert |all - a| == |all| - |a|;
    assert b <= all - a;
  }

  /** In every state, however finish, drop and end of body are mixed: one record at most, and none is lost. */
  lemma AtMostOneRecord(es: seq<Event>, i: nat, j: nat)
    requires i < |Run(EMPTY, es).emitted| && j < |Run(EMPTY, es).emitted|
    ensures var s := Run(EMPTY, es);
      (s.emitted[i] == s.emitted[j] ==> i == j)
      && (s.emitted[i].SpanRecord? ==> s.emitted[i].id in s.spans && s.spans[s.emitted[i].id].stage.Finished?
                                       && s.spans[s.emitted[i].id].context.sampled)
  {
    EmptyInv();
    RunInv(EMPTY, es);
    var s := Run(EMPTY, es);
    assert s.emitted[i] in s.emitted;
  }

  /** Counters never go below zero, the exposed series stay bounded, every span stays small. */
  lemma AlwaysBounded(es: seq<Event>)
    ensures var s := Run(EMPTY, es);
      && s.active >= 0 && |s.histograms| <= MAX_SERIES
      && forall id :: id in s.spans ==> Small(s.spans[id].data)
  {
    EmptyInv();
    RunInv(EMPTY, es);
    var s := Run(EMPTY, es);
    SeriesAreBounded(s.histograms.Keys);
    SubsetSize(Past(s.spans, 2), s.spans.Keys);
  }

  ghost predicate Descends(m: map<nat, Span>, id: nat, root: nat, generations: nat)
    decreases generations
  {
    id in m && root in m
    && if generations == 0 then id == root
       else m[id].parent.Some? && Descends(m, m[id].parent.value, root, generations - 1)
  }

  /** All descendants of a span carry its trace id and its sampling decision. */
  lemma TraceIsInherited(es: seq<Event>, id: nat, root: nat, generations: nat)
    requires Descends(Run(EMPTY, es).spans, id, root, generations)
    ensures var m := Run(EMPTY, es).spans;
      m[id].context.trace == m[root].context.trace && m[id].context.sampled == m[root].context.sampled
  {
    EmptyInv();
    RunInv(EMPTY, es);
    Inherited(Run(EMPTY, es), id, root, generations);
  }

  lemma {:induction false} Inherited(s: State, id: nat, root: nat, generations: nat)
    requires FamiliesMatch(s) && Descends(s.spans, id, root, generations)
    ensures s.spans[id].context.trace == s.spans[root].context.trace
    ensures s.spans[id].context.sampled == s.spans[root].context.sampled
    decreases generations
  {
    if generations > 0 {
      Inherited(s, s.spans[id].parent.value, root, generations - 1);
    }
  }

  // ---------------------------------------------------------------- what never changes, and what completes

  /**
   * A started span has an id of its own and the trace and sampling decision it is given, by a header,
   * by its parent, or for a new trace; and no data.
   */
  lemma StartMeans(s: State, id: nat, group: string, o: Origin)
    requires id !in s.spans && (o.ChildOf? ==> o.id in s.spans)
    ensures var t := Step(s, Start(id, group, o));
      && id in t.spans && t.spans[id].group == group && t.spans[id].data == EMPTY_DATA && t.spans[id].stage.Unfinished?
      && match o
         case Root(trace, sampled) => t.spans[id].context == Context(trace, id, sampled) && t.spans[id].parent.None?
         case Header(c) => t.spans[id].context == Context(c.trace, id, c.sampled) && t.spans[id].parent.None?
         case ChildOf(p) =>
           t.spans[id].context == Context(s.spans[p].context.trace, id, s.spans[p].context.sampled)
           && t.spans[id].parent == Some(p)
  {}

  /** The first finish of a span takes its outcome, whatever the guest did to it before. */
  lemma FinishTakesOutcome(s: State, id: nat, outcome: Outcome)
    requires id in s.spans && s.spans[id].stage.Unfinished?
    ensures Step(s, CallFinish(id, outcome)).spans == s.spans[id := s.spans[id].(stage := Taken, outcome := outcome)]
  {}

  lemma StepKeepsSpan(s: State, e: Event, id: nat)
    requires id in s.spans
    ensures var t := Step(s, e);
      && id in t.spans
      && t.spans[id].context == s.spans[id].context && t.spans[id].parent == s.spans[id].parent
      && t.spans[id].group == s.spans[id].group
      && (!s.spans[id].stage.Unfinished? ==>
            t.spans[id].data == s.spans[id].data && t.spans[id].outcome == s.spans[id].outcome)
      && Rank(t.spans[id].stage) == Rank(s.spans[id].stage)
           + (if e.Advance? && e.id == id && Enabled(s, e) then 1
              else if e.CallFinish? && e.id == id && Enabled(s, e) then 1 else 0)
  {}

  /**
   * A span keeps its context, parent and group for ever, and its data and outcome from its first finish
   * on: later calls of finish, drops and guest calls change nothing.
   */
  lemma {:induction false} FirstFinishDecides(s: State, es: seq<Event>, id: nat)
    requires id in s.spans
    ensures var t := Run(s, es);
      && id in t.spans
      && t.spans[id].context == s.spans[id].context && t.spans[id].parent == s.spans[id].parent
      && t.spans[id].group == s.spans[id].group
      && (!s.spans[id].stage.Unfinished? ==>
            t.spans[id].data == s.spans[id].data && t.spans[id].outcome == s.spans[id].outcome)
    decreases |es|
  {
    if es != [] {
      StepKeepsSpan(s, es[0], id);
      FirstFinishDecides(Step(s, es[0]), es[1..], id);
    }
  }

  function Advances(es: seq<Event>, id: nat): nat {
    if es == [] then 0
    else (if es[0].Advance? && es[0].id == id && es[0].bucket < BUCKETS then 1 else 0) + Advances(es[1..], id)
  }

  /** A finish that has begun is complete after its six remaining updates, whatever happens in between. */
  lemma {:induction false} FinishCompletes(s: State, es: seq<Event>, id: nat)
    requires id in s.spans && !s.spans[id].stage.Unfinished?
    requires Rank(s.spans[id].stage) + Advances(es, id) >= 7
    ensures id in Run(s, es).spans && Run(s, es).spans[id].stage.Finished?
    decreases |es|
  {
    if es != [] {
      StepKeepsSpan(s, es[0], id);
      FinishCompletes(Step(s, es[0]), es[1..], id);
    }
  }
}
