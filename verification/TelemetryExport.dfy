/**
 * The OTLP exporter: one bounded channel, one worker thread that batches spans and logs,
 * a flush barrier, and a final export when the last sender is gone.
 *
 * `send` is a call to the outside; handing a batch to it is recorded in `sent`.
 */
module TelemetryExport {
  import opened Wrappers

  datatype Config = Config(queueCapacity: nat, batchSize: nat, interval: nat)

  predicate ValidConfig(c: Config) {
    1 <= c.batchSize <= c.queueCapacity
  }

  datatype Record = Span(payload: nat) | Log(payload: nat)

  datatype Message = Rec(record: Record) | Flush(ticket: nat)

  /** What recv_timeout returned. */
  datatype Received = Message(message: Message) | TimedOut | Disconnected

  datatype Batch = Traces(items: seq<nat>) | Logs(items: seq<nat>) | Metrics

  /** The exporter thread's variables, and what it handed to send and acknowledged. */
  datatype Exporter = Exporter(
    spans: seq<nat>, logs: seq<nat>, next: nat, sent: seq<Batch>, acked: set<nat>, done: bool)

  // ---------------------------------------------------------------- one turn of the loop

  function Buffered(x: Exporter, received: Received): Exporter {
    match received
    case Message(Rec(Span(p))) => x.(spans := x.spans + [p])
    case Message(Rec(Log(p))) => x.(logs := x.logs + [p])
    case _ => x
  }

  predicate IsFlush(received: Received) {
    received.Message? && received.message.Flush?
  }

  predicate Periodic(x: Exporter, received: Received, now: nat) {
    now >= x.next || IsFlush(received) || received.Disconnected?
  }

  function Export(x: Exporter, periodic: bool): Exporter {
    var traced := if x.spans != [] then x.sent + [Traces(x.spans)] else x.sent;
    var logged := if x.logs != [] then traced + [Logs(x.logs)] else traced;
    x.(sent := if periodic then logged + [Metrics] else logged, spans := [], logs := [])
  }

  /** `now` is the clock before exporting, `later` the clock after it. */
  function Turn(c: Config, x: Exporter, received: Received, now: nat, later: nat): Exporter {
    var b := Buffered(x, received);
    var periodic := Periodic(x, received, now);
    var exported := if periodic || |b.spans| + |b.logs| >= c.batchSize then Export(b, periodic) else b;
    exported.(
      next := if periodic then later + c.interval else x.next,
      acked := if IsFlush(received) then x.acked + {received.message.ticket} else x.acked,
      done := received.Disconnected?)
  }

  /** The thread itself, updating its variables in place. */
  class ExporterThread {
    const config: Config
    var spans: seq<nat>
    var logs: seq<nat>
    var next: nat
    var sent: seq<Batch>
    var acked: set<nat>
    var done: bool

    function View(): Exporter
      reads this
    {
      Exporter(spans, logs, next, sent, acked, done)
    }

    constructor (config: Config, now: nat)
      ensures this.config == config
      ensures View() == Exporter([], [], now + config.interval, [], {}, false)
    {
      this.config := config;
      spans, logs, next := [], [], now + config.interval;
      sent, acked, done := [], {}, false;
    }

    method Handle(received: Received, now: nat, later: nat)
      modifies this
      ensures View() == Turn(config, old(View()), received, now, later)
    {
      var flush: set<nat> := {};
      var disconnected := false;
      match received {
        case Message(Rec(Span(p))) => spans := spans + [p];
        case Message(Rec(Log(p))) => logs := logs + [p];
        case Message(Flush(ticket)) => flush := {ticket};
        case Disconnected => disconnected := true;
        case TimedOut =>
      }
      var periodic := now >= next || flush != {} || disconnected;
      if periodic || |spans| + |logs| >= config.batchSize {
        if spans != [] {
          sent := sent + [Traces(spans)];
          spans := [];
        }
        if logs != [] {
          sent := sent + [Logs(logs)];
          logs := [];
        }
        if periodic {
          sent := sent + [Metrics];
          next := later + config.interval;
        }
      }
      acked := acked + flush;
      done := disconnected;
    }
  }

  // ---------------------------------------------------------------- producers, channel, exporter

  datatype System = System(
    channel: seq<Message>,
    connected: bool,            // some sender is alive
    x: Exporter,
    dropped: nat,               // the counter
    emitted: nat,               // history: calls of emit
    accepted: seq<Record>,      // history: records that entered the channel
    taken: seq<Record>,         // history: records that left it
    marks: map<nat, nat>)       // history: |accepted| when each flush entered the channel

  function Start(c: Config): System {
    System([], true, Exporter([], [], c.interval, [], {}, false), 0, 0, [], [], map[])
  }

  datatype Event =
    | Emit(record: Record)
    | RequestFlush(ticket: nat)
    | Hangup
    | Receive(now: nat, later: nat)
    | TimeOut(now: nat, later: nat)

  /** try_send refuses when the channel is full; flush tickets are fresh oneshot channels. */
  predicate Enabled(c: Config, s: System, e: Event) {
    match e
    case Emit(_) => s.connected
    case RequestFlush(ticket) => s.connected && ticket !in s.marks && |s.channel| < c.queueCapacity
    case Hangup => s.connected
    case Receive(_, _) => !s.x.done && (s.channel != [] || !s.connected)
    case TimeOut(_, _) => !s.x.done && s.connected
  }

  function Next(c: Config, s: System, e: Event): System
    requires Enabled(c, s, e)
  {
    match e
    case Emit(r) =>
      if |s.channel| < c.queueCapacity then
        s.(channel := s.channel + [Rec(r)], accepted := s.accepted + [r], emitted := s.emitted + 1)
      else
        s.(dropped := s.dropped + 1, emitted := s.emitted + 1)
    case RequestFlush(ticket) =>
      s.(channel := s.channel + [Flush(ticket)], marks := s.marks[ticket := |s.accepted|])
    case Hangup => s.(connected := false)
    case Receive(now, later) =>
      if s.channel != [] then
        s.(channel := s.channel[1..], x := Turn(c, s.x, Message(s.channel[0]), now, later),
           taken := s.taken + RecordOf(Message(s.channel[0])))
      else
        s.(x := Turn(c, s.x, Disconnected, now, later))
    case TimeOut(now, later) => s.(x := Turn(c, s.x, TimedOut, now, later))
  }

  function Step(c: Config, s: System, e: Event): System {
    if Enabled(c, s, e) then Next(c, s, e) else s
  }

  function Run(c: Config, s: System, es: seq<Event>): System
    decreases |es|
  {
    if es == [] then s else Run(c, Step(c, s, es[0]), es[1..])
  }

  // ---------------------------------------------------------------- the two streams

  function SpansOf(rs: seq<Record>): seq<nat> {
    if rs == [] then []
    else SpansOf(rs[..|rs| - 1]) + if rs[|rs| - 1].Span? then [rs[|rs| - 1].payload] else []
  }

  function LogsOf(rs: seq<Record>): seq<nat> {
    if rs == [] then []
    else LogsOf(rs[..|rs| - 1]) + if rs[|rs| - 1].Log? then [rs[|rs| - 1].payload] else []
  }

  function Queued(ms: seq<Message>): seq<Record> {
    if ms == [] then [] else (if ms[0].Rec? then [ms[0].record] else []) + Queued(ms[1..])
  }

  function SentSpans(bs: seq<Batch>): seq<nat> {
    if bs == [] then []
    else SentSpans(bs[..|bs| - 1]) + if bs[|bs| - 1].Traces? then bs[|bs| - 1].items else []
  }

  function SentLogs(bs: seq<Batch>): seq<nat> {
    if bs == [] then []
    else SentLogs(bs[..|bs| - 1]) + if bs[|bs| - 1].Logs? then bs[|bs| - 1].items else []
  }

  lemma {:induction false} StreamsAppend(a: seq<Record>, b: seq<Record>)
    ensures SpansOf(a + b) == SpansOf(a) + SpansOf(b)
    ensures LogsOf(a + b) == LogsOf(a) + LogsOf(b)
    decreases |b|
  {
    if b == [] {
      assert a + b == a;
    } else {
      assert (a + b)[..|a + b| - 1] == a + b[..|b| - 1];
      StreamsAppend(a, b[..|b| - 1]);
    }
  }

  lemma {:induction false} QueuedAppend(a: seq<Message>, b: seq<Message>)
    ensures Queued(a + b) == Queued(a) + Queued(b)
  {
    if a == [] {
      assert a + b == b;
    } else {
      assert (a + b)[1..] == a[1..] + b;
      QueuedAppend(a[1..], b);
      var first := if a[0].Rec? then [a[0].record] else [];
      assert Queued(a + b) == first + (Queued(a[1..]) + Queued(b));
      assert Queued(a) == first + Queued(a[1..]);
    }
  }

  lemma SentAppend(bs: seq<Batch>, b: Batch)
    ensures SentSpans(bs + [b]) == SentSpans(bs) + if b.Traces? then b.items else []
    ensures SentLogs(bs + [b]) == SentLogs(bs) + if b.Logs? then b.items else []
  {
    assert (bs + [b])[..|bs|] == bs;
  }

  // ---------------------------------------------------------------- what a turn keeps

  /** Everything the exporter has taken in, in order, per signal. */
  function HandledSpans(x: Exporter): seq<nat> { SentSpans(x.sent) + x.spans }
  function HandledLogs(x: Exporter): seq<nat> { SentLogs(x.sent) + x.logs }

  function RecordOf(received: Received): seq<Record> {
    if received.Message? && received.message.Rec? then [received.message.record] else []
  }

  ghost predicate BatchesFit(c: Config, bs: seq<Batch>) {
    forall b :: b in bs && !b.Metrics? ==> 1 <= |b.items| <= c.batchSize
  }

  lemma ExportKeeps(x: Exporter, periodic: bool)
    ensures var t := Export(x, periodic);
      SentSpans(t.sent) == HandledSpans(x) && SentLogs(t.sent) == HandledLogs(x)
  {
    var traced := if x.spans != [] then x.sent + [Traces(x.spans)] else x.sent;
    var logged := if x.logs != [] then traced + [Logs(x.logs)] else traced;
    SentAppend(x.sent, Traces(x.spans));
    assert SentSpans(traced) == HandledSpans(x) && SentLogs(traced) == SentLogs(x.sent);
    SentAppend(traced, Logs(x.logs));
    SentAppend(logged, Metrics);
  }

  lemma ExportFits(c: Config, x: Exporter, periodic: bool)
    requires BatchesFit(c, x.sent) && |x.spans| <= c.batchSize && |x.logs| <= c.batchSize
    ensures BatchesFit(c, Export(x, periodic).sent)
  {}

  lemma BufferedKeeps(x: Exporter, received: Received)
    ensures var b := Buffered(x, received);
      && HandledSpans(b) == HandledSpans(x) + SpansOf(RecordOf(received))
      && HandledLogs(b) == HandledLogs(x) + LogsOf(RecordOf(received))
      && |b.spans| + |b.logs| == |x.spans| + |x.logs| + |RecordOf(received)|
  {
    var rs := RecordOf(received);
    if rs != [] {
      assert rs[..0] == [];
      assert SpansOf(rs) == if rs[0].Span? then [rs[0].payload] else [];
      assert LogsOf(rs) == if rs[0].Log? then [rs[0].payload] else [];
    }
  }

  /** A turn takes in exactly the record it received, and at a barrier nothing stays buffered. */
  lemma TurnKeeps(c: Config, x: Exporter, received: Received, now: nat, later: nat)
    requires ValidConfig(c) && |x.spans| + |x.logs| < c.batchSize && BatchesFit(c, x.sent)
    ensures var t := Turn(c, x, received, now, later);
      && HandledSpans(t) == HandledSpans(x) + SpansOf(RecordOf(received))
      && HandledLogs(t) == HandledLogs(x) + LogsOf(RecordOf(received))
      && |t.spans| + |t.logs| < c.batchSize
      && BatchesFit(c, t.sent)
      && SentSpans(x.sent) <= SentSpans(t.sent) && SentLogs(x.sent) <= SentLogs(t.sent)
      && (IsFlush(received) || received.Disconnected? ==> t.spans == [] && t.logs == [])
  {
    var b := Buffered(x, received);
    BufferedKeeps(x, received);
    ExportKeeps(b, Periodic(x, received, now));
    ExportFits(c, b, Periodic(x, received, now));
  }

  // ---------------------------------------------------------------- invariants

  /** What left the channel was handled, what entered it left it or waits, and the rest was dropped. */
  ghost predicate Conserved(s: System) {
    && HandledSpans(s.x) == SpansOf(s.taken)
    && HandledLogs(s.x) == LogsOf(s.taken)
    && s.accepted == s.taken + Queued(s.channel)
    && s.emitted == |s.accepted| + s.dropped
  }

  ghost predicate Bounded(c: Config, s: System) {
    && |s.channel| <= c.queueCapacity
    && |s.x.spans| + |s.x.logs| < c.batchSize
    && BatchesFit(c, s.x.sent)
  }

  /** The records accepted before a flush entered the channel have all been handed to send. */
  ghost predicate Barrier(s: System, mark: nat) {
    && mark <= |s.taken|
    && SpansOf(s.taken[..mark]) <= SentSpans(s.x.sent)
    && LogsOf(s.taken[..mark]) <= SentLogs(s.x.sent)
  }

  ghost predicate FlushInv(s: System) {
    && (forall i :: 0 <= i < |s.channel| && s.channel[i].Flush? ==>
          s.channel[i].ticket in s.marks
          && s.marks[s.channel[i].ticket] == |s.taken| + |Queued(s.channel[..i])|)
    && (forall ticket :: ticket in s.x.acked ==> ticket in s.marks && Barrier(s, s.marks[ticket]))
  }

  ghost predicate DoneInv(s: System) {
    s.x.done ==> !s.connected && s.channel == [] && s.x.spans == [] && s.x.logs == []
  }

  ghost predicate Inv(c: Config, s: System) {
    Conserved(s) && Bounded(c, s) && FlushInv(s) && DoneInv(s)
  }

  predicate Popped(channel: seq<Message>, received: Received, rest: seq<Message>) {
    if received.Message? then channel == [received.message] + rest else rest == channel
  }

  /** The state after the exporter took `received` with its record, if any, from the channel's front. */
  lemma ExporterStep(c: Config, s: System, received: Received, now: nat, later: nat, rest: seq<Message>, t: System)
    requires ValidConfig(c) && Inv(c, s)
    requires Popped(s.channel, received, rest)
    requires t == s.(channel := rest, x := Turn(c, s.x, received, now, later), taken := s.taken + RecordOf(received))
    ensures Conserved(t) && Bounded(c, t)
    ensures forall mark: nat :: Barrier(s, mark) ==> Barrier(t, mark)
  {
    TurnKeeps(c, s.x, received, now, later);
    StreamsAppend(s.taken, RecordOf(received));
    QueueShift(s, received, rest);
    BarriersStay(s, t);
  }

  lemma BarriersStay(s: System, t: System)
    requires s.taken <= t.taken
    requires SentSpans(s.x.sent) <= SentSpans(t.x.sent) && SentLogs(s.x.sent) <= SentLogs(t.x.sent)
    ensures forall mark: nat :: Barrier(s, mark) ==> Barrier(t, mark)
  {
    forall mark: nat | Barrier(s, mark) ensures Barrier(t, mark) {
      assert t.taken[..mark] == s.taken[..mark];
    }
  }

  /** The queue's front left it: the accepted history is still what was taken followed by the queue. */
  lemma QueueShift(s: System, received: Received, rest: seq<Message>)
    requires Popped(s.channel, received, rest)
    ensures s.taken + Queued(s.channel) == s.taken + RecordOf(received) + Queued(rest)
  {
    assert Queued(s.channel) == RecordOf(received) + Queued(rest) by {
      if received.Message? {
        assert s.channel[1..] == rest;
      }
    }
  }

  /** Popping a message moves every queued flush one place forward without changing what it waits for. */
  lemma FlushesShift(s: System, m: Message, rest: seq<Message>)
    requires FlushInv(s) && s.channel == [m] + rest
    ensures forall i :: 0 <= i < |rest| && rest[i].Flush? ==>
      rest[i].ticket in s.marks
      && s.marks[rest[i].ticket] == |s.taken + RecordOf(Message(m))| + |Queued(rest[..i])|
  {
    forall i | 0 <= i < |rest| && rest[i].Flush?
      ensures rest[i].ticket in s.marks
      ensures s.marks[rest[i].ticket] == |s.taken + RecordOf(Message(m))| + |Queued(rest[..i])|
    {
      assert s.channel[i + 1] == rest[i];
      assert s.channel[..i + 1] == [m] + rest[..i];
      assert Queued([m] + rest[..i]) == RecordOf(Message(m)) + Queued(rest[..i]) by {
        assert ([m] + rest[..i])[1..] == rest[..i];
      }
    }
  }

  lemma FlushStep(c: Config, s: System, received: Received, now: nat, later: nat, rest: seq<Message>, t: System)
    requires ValidConfig(c) && Inv(c, s)
    requires Popped(s.channel, received, rest)
    requires received.Disconnected? ==> !s.connected && s.channel == []
    requires t == s.(channel := rest, x := Turn(c, s.x, received, now, later), taken := s.taken + RecordOf(received))
    requires Conserved(t)
    requires forall mark: nat :: Barrier(s, mark) ==> Barrier(t, mark)
    ensures FlushInv(t)
  {
    if received.Message? {
      FlushesShift(s, received.message, rest);
    } else {
      assert t.taken == s.taken;
    }
    if IsFlush(received) {
      TurnKeeps(c, s.x, received, now, later);
      assert s.channel[0] == received.message;
      assert s.marks[received.message.ticket] == |s.taken|;
      assert t.taken[..|s.taken|] == t.taken;
      assert Barrier(t, |s.taken|);
    }
  }

  lemma InvStep(c: Config, s: System, e: Event)
    requires ValidConfig(c) && Inv(c, s)
    ensures Inv(c, Step(c, s, e))
  {
    if Enabled(c, s, e) {
      var t := Next(c, s, e);
      match e
      case Emit(r) => ProducerStep(c, s, Rec(r), t);
      case RequestFlush(ticket) => ProducerStep(c, s, Flush(ticket), t);
      case Hangup =>
        assert FlushInv(t) by { assert forall mark: nat :: Barrier(s, mark) <==> Barrier(t, mark); }
      case Receive(now, later) =>
        var received, rest := if s.channel != [] then Message(s.channel[0]) else Disconnected, if s.channel != [] then s.channel[1..] else [];
        assert s.taken + [] == s.taken;
        ExporterStep(c, s, received, now, later, rest, t);
        FlushStep(c, s, received, now, later, rest, t);
        TurnKeeps(c, s.x, received, now, later);
      case TimeOut(now, later) =>
        assert s.taken + [] == s.taken;
        ExporterStep(c, s, TimedOut, now, later, s.channel, t);
        FlushStep(c, s, TimedOut, now, later, s.channel, t);
    }
  }

  lemma ProducerStep(c: Config, s: System, m: Message, t: System)
    requires Inv(c, s) && s.connected
    requires t == if |s.channel| < c.queueCapacity then
                    (match m
                     case Rec(r) => s.(channel := s.channel + [m], accepted := s.accepted + [r], emitted := s.emitted + 1)
                     case Flush(ticket) => s.(channel := s.channel + [m], marks := s.marks[ticket := |s.accepted|]))
                  else s.(dropped := s.dropped + 1, emitted := s.emitted + 1)
    requires m.Flush? ==> m.ticket !in s.marks
    ensures Inv(c, t)
  {
    QueuedAppend(s.channel, [m]);
    assert Queued([m]) == if m.Rec? then [m.record] else [];
    assert forall mark: nat :: Barrier(s, mark) <==> Barrier(t, mark);
    if |s.channel| < c.queueCapacity {
      forall i | 0 <= i < |t.channel| && t.channel[i].Flush?
        ensures t.channel[i].ticket in t.marks && t.marks[t.channel[i].ticket] == |t.taken| + |Queued(t.channel[..i])|
      {
        assert t.channel[..i] == s.channel[..i];
        if i == |s.channel| {
          assert s.channel[..i] == s.channel;
        } else {
          assert t.channel[i] == s.channel[i];
        }
      }
    }
  }

  lemma {:induction false} RunInv(c: Config, s: System, es: seq<Event>)
    requires ValidConfig(c) && Inv(c, s)
    ensures Inv(c, Run(c, s, es))
    decreases |es|
  {
    if es != [] {
      InvStep(c, s, es[0]);
      RunInv(c, Step(c, s, es[0]), es[1..]);
    }
  }

  // ---------------------------------------------------------------- over every run

  /**
   * Conservation: each signal's accepted records, in emit order, are those handed to send (each in
   * one batch), then those buffered, then those queued; every other emit was counted as dropped.
   */
  lemma RecordsAreConserved(c: Config, es: seq<Event>)
    requires ValidConfig(c)
    ensures var s := Run(c, Start(c), es);
      && SpansOf(s.accepted) == SentSpans(s.x.sent) + s.x.spans + SpansOf(Queued(s.channel))
      && LogsOf(s.accepted) == SentLogs(s.x.sent) + s.x.logs + LogsOf(Queued(s.channel))
      && s.emitted == |s.accepted| + s.dropped
      && |s.channel| <= c.queueCapacity && |s.x.spans| + |s.x.logs| < c.batchSize && BatchesFit(c, s.x.sent)
  {
    RunInv(c, Start(c), es);
    var s := Run(c, Start(c), es);
    StreamsAppend(s.taken, Queued(s.channel));
  }

  lemma {:induction false} RunSplit(c: Config, s: System, es: seq<Event>, more: seq<Event>)
    ensures Run(c, s, es + more) == Run(c, Run(c, s, es), more)
    decreases |es|
  {
    if es == [] {
      assert es + more == more;
    } else {
      assert (es + more)[1..] == es[1..] + more;
      RunSplit(c, Step(c, s, es[0]), es[1..], more);
    }
  }

  /** Marks and the accepted history only grow. */
  lemma {:induction false} HistoryGrows(c: Config, s: System, es: seq<Event>)
    ensures var t := Run(c, s, es);
      s.accepted <= t.accepted && forall k :: k in s.marks ==> k in t.marks && t.marks[k] == s.marks[k]
    decreases |es|
  {
    if es != [] {
      HistoryGrows(c, Step(c, s, es[0]), es[1..]);
    }
  }

  /** A flush acknowledgement means that everything enqueued before the flush was handed to send. */
  lemma FlushIsABarrier(c: Config, before: seq<Event>, ticket: nat, after: seq<Event>)
    requires ValidConfig(c)
    requires Enabled(c, Run(c, Start(c), before), RequestFlush(ticket))
    ensures var s := Run(c, Start(c), before);
            var t := Run(c, Start(c), before + [RequestFlush(ticket)] + after);
      ticket in t.x.acked ==>
        SpansOf(s.accepted) <= SentSpans(t.x.sent) && LogsOf(s.accepted) <= SentLogs(t.x.sent)
  {
    var s := Run(c, Start(c), before);
    RunSplit(c, Start(c), before, [RequestFlush(ticket)]);
    var m := Run(c, s, [RequestFlush(ticket)]);
    assert m == Run(c, Step(c, s, RequestFlush(ticket)), []);
    RunSplit(c, Start(c), before + [RequestFlush(ticket)], after);
    var t := Run(c, m, after);
    RunInv(c, Start(c), before + [RequestFlush(ticket)] + after);
    HistoryGrows(c, m, after);
    if ticket in t.x.acked {
      assert Barrier(t, t.marks[ticket]) && t.marks[ticket] == |s.accepted|;
      assert t.taken[..|s.accepted|] == t.accepted[..|s.accepted|] == s.accepted;
    }
  }

  /** Once the thread has ended, every accepted record was handed to send. */
  lemma NothingLostAtTheEnd(c: Config, es: seq<Event>)
    requires ValidConfig(c)
    ensures var s := Run(c, Start(c), es);
      s.x.done ==> SpansOf(s.accepted) == SentSpans(s.x.sent) && LogsOf(s.accepted) == SentLogs(s.x.sent)
                   && s.emitted == |s.accepted| + s.dropped
  {
    RunInv(c, Start(c), es);
    var s := Run(c, Start(c), es);
    if s.x.done {
      assert s.accepted == s.taken;
    }
  }

  /** After the last sender is gone the thread ends within one turn per queued message and one more. */
  lemma {:induction false} HangupDrains(c: Config, s: System, now: nat)
    requires !s.connected && !s.x.done
    ensures Run(c, s, seq(|s.channel| + 1, i => Receive(now, now))).x.done
    decreases |s.channel|
  {
    var es := seq(|s.channel| + 1, i => Receive(now, now));
    var t := Step(c, s, es[0]);
    if s.channel != [] {
      assert es[1..] == seq(|t.channel| + 1, i => Receive(now, now));
      HangupDrains(c, t, now);
    } else {
      assert es[1..] == [];
      assert Run(c, t, []) == t;
    }
  }

  // ---------------------------------------------------------------- what one turn does

  predicate Due(x: Exporter, received: Received, now: nat) {
    now >= x.next || (received.Message? && received.message.Flush?) || received == Disconnected
  }

  /** Spans go out before logs, and logs before metrics. */
  ghost predicate Ordered(bs: seq<Batch>) {
    forall i, j :: 0 <= i < j < |bs| ==> bs[i].Traces? || (bs[i].Logs? && bs[j].Metrics?)
  }

  function Newer(x: Exporter, periodic: bool): seq<Batch> {
    (if x.spans != [] then [Traces(x.spans)] else [])
    + ((if x.logs != [] then [Logs(x.logs)] else []) + (if periodic then [Metrics] else []))
  }

  lemma NewerIsOrdered(x: Exporter, periodic: bool)
    ensures Ordered(Newer(x, periodic))
    ensures Metrics in Newer(x, periodic) <==> periodic
  {
    var later := (if x.logs != [] then [Logs(x.logs)] else []) + (if periodic then [Metrics] else []);
    assert Ordered(later);
    assert Metrics in later <==> periodic by {
      assert periodic ==> later[|later| - 1] == Metrics;
    }
  }

  lemma ExportMeans(x: Exporter, periodic: bool)
    ensures var t := Export(x, periodic);
      && x.sent <= t.sent && Ordered(t.sent[|x.sent|..])
      && (Metrics in t.sent[|x.sent|..] <==> periodic)
      && t.spans == [] && t.logs == []
  {
    NewerIsOrdered(x, periodic);
    assert Export(x, periodic).sent == x.sent + Newer(x, periodic);
  }

  /**
   * One turn, whatever it received: it acknowledges the flush it received and no other, ends on the
   * hangup only, exports metrics and restarts the interval when the interval is over, on a flush and
   * on the hangup only, and leaves records buffered only when they are fewer than a batch.
   */
  lemma TurnMeans(c: Config, x: Exporter, received: Received, now: nat, later: nat)
    ensures var t := Turn(c, x, received, now, later);
      && (forall ticket :: ticket in t.acked <==> ticket in x.acked || received == Message(Flush(ticket)))
      && (t.done <==> received == Disconnected)
      && t.next == (if Due(x, received, now) then later + c.interval else x.next)
      && x.sent <= t.sent
      && Ordered(t.sent[|x.sent|..])
      && (Metrics in t.sent[|x.sent|..] <==> Due(x, received, now))
      && var waiting := |x.spans| + |x.logs| + |RecordOf(received)|;
         if Due(x, received, now) || waiting >= c.batchSize then t.spans == [] && t.logs == []
         else t.sent == x.sent && |t.spans| + |t.logs| == waiting
  {
    var b := Buffered(x, received);
    ExportMeans(b, Due(x, received, now));
    if !Due(x, received, now) && |b.spans| + |b.logs| < c.batchSize {
      assert Turn(c, x, received, now, later).sent[|x.sent|..] == [];
    }
  }

  // ---------------------------------------------------------------- every flush is answered

  /** A requested flush waits in the channel or is acknowledged, and not both. */
  ghost predicate AckInv(s: System) {
    && (forall ticket :: ticket in s.x.acked ==> ticket in s.marks)
    && (forall ticket :: Flush(ticket) in s.channel ==> ticket in s.marks)
    && (forall ticket :: ticket in s.marks ==> (ticket in s.x.acked <==> Flush(ticket) !in s.channel))
    && (forall i, j :: 0 <= i < j < |s.channel| && s.channel[i].Flush? ==> s.channel[i] != s.channel[j])
  }

  lemma AckInvStep(c: Config, s: System, e: Event)
    requires AckInv(s)
    ensures AckInv(Step(c, s, e))
  {
    if Enabled(c, s, e) {
      match e
      case Emit(_) =>
      case RequestFlush(_) =>
      case Hangup =>
      case Receive(now, later) =>
        if s.channel != [] {
          TurnMeans(c, s.x, Message(s.channel[0]), now, later);
          assert forall m :: m in s.channel <==> m == s.channel[0] || m in s.channel[1..];
        } else {
          TurnMeans(c, s.x, Disconnected, now, later);
        }
      case TimeOut(now, later) => TurnMeans(c, s.x, TimedOut, now, later);
    }
  }

  lemma {:induction false} RunAckInv(c: Config, s: System, es: seq<Event>)
    requires AckInv(s)
    ensures AckInv(Run(c, s, es))
    decreases |es|
  {
    if es != [] {
      AckInvStep(c, s, es[0]);
      RunAckInv(c, Step(c, s, es[0]), es[1..]);
    }
  }

  /** In every run a flush is acknowledged exactly when it has left the channel. */
  lemma AckedWhenReceived(c: Config, es: seq<Event>, ticket: nat)
    ensures var s := Run(c, Start(c), es);
      && (ticket in s.marks ==> (ticket in s.x.acked <==> Flush(ticket) !in s.channel))
      && (ticket !in s.marks ==> ticket !in s.x.acked)
  {
    RunAckInv(c, Start(c), es);
  }

  function Receives(es: seq<Event>): nat {
    if es == [] then 0 else (if es[0].Receive? then 1 else 0) + Receives(es[1..])
  }

  lemma {:induction false} AcksStay(c: Config, s: System, es: seq<Event>)
    ensures s.x.acked <= Run(c, s, es).x.acked
    decreases |es|
  {
    if es != [] {
      AckStep(c, s, es[0]);
      AcksStay(c, Step(c, s, es[0]), es[1..]);
    }
  }

  /** A step takes the channel's front, and that exactly when it is an enabled Receive. */
  lemma AckStep(c: Config, s: System, e: Event)
    ensures var t := Step(c, s, e);
      && s.x.acked <= t.x.acked
      && (s.channel != [] && !s.x.done ==>
            !t.x.done
            && (if e.Receive? then t.channel == s.channel[1..] else s.channel <= t.channel)
            && (e.Receive? && s.channel[0].Flush? ==> s.channel[0].ticket in t.x.acked))
  {
    if Enabled(c, s, e) {
      match e
      case Emit(_) =>
      case RequestFlush(_) =>
      case Hangup =>
      case Receive(now, later) =>
        TurnMeans(c, s.x, if s.channel != [] then Message(s.channel[0]) else Disconnected, now, later);
      case TimeOut(now, later) => TurnMeans(c, s.x, TimedOut, now, later);
    }
  }

  lemma {:induction false} QueuedFlushIsAnswered(c: Config, s: System, i: nat, es: seq<Event>)
    requires i < |s.channel| && s.channel[i].Flush? && !s.x.done
    requires i < Receives(es)
    ensures s.channel[i].ticket in Run(c, s, es).x.acked
    decreases |es|
  {
    var t := Step(c, s, es[0]);
    AckStep(c, s, es[0]);
    if es[0].Receive? && i == 0 {
      AcksStay(c, t, es[1..]);
    } else if es[0].Receive? {
      assert t.channel[i - 1] == s.channel[i];
      QueuedFlushIsAnswered(c, t, i - 1, es[1..]);
    } else {
      assert t.channel[i] == s.channel[i];
      QueuedFlushIsAnswered(c, t, i, es[1..]);
    }
  }

  /**
   * Every flush that was accepted is acknowledged once the thread has received as many messages as
   * were queued up to and including it, whatever else happens meanwhile, and by then everything
   * accepted before it was handed to send.
   */
  lemma FlushIsAnswered(c: Config, before: seq<Event>, ticket: nat, after: seq<Event>)
    requires ValidConfig(c)
    requires Enabled(c, Run(c, Start(c), before), RequestFlush(ticket))
    requires |Run(c, Start(c), before).channel| < Receives(after)
    ensures var s := Run(c, Start(c), before);
            var t := Run(c, Start(c), before + [RequestFlush(ticket)] + after);
      && ticket in t.x.acked
      && SpansOf(s.accepted) <= SentSpans(t.x.sent) && LogsOf(s.accepted) <= SentLogs(t.x.sent)
  {
    var s := Run(c, Start(c), before);
    RunInv(c, Start(c), before);
    var m := Step(c, s, RequestFlush(ticket));
    RunSplit(c, Start(c), before, [RequestFlush(ticket)]);
    assert Run(c, s, [RequestFlush(ticket)]) == Run(c, m, []);
    RunSplit(c, Start(c), before + [RequestFlush(ticket)], after);
    QueuedFlushIsAnswered(c, m, |s.channel|, after);
    FlushIsABarrier(c, before, ticket, after);
  }

  // ---------------------------------------------------------------- what is accepted

  /** The records emitted while some sender was alive, in order. */
  function Emits(es: seq<Event>): seq<Record> {
    if es == [] || es[0].Hangup? then []
    else EmitOf(es[0]) + Emits(es[1..])
  }

  function EmitOf(e: Event): seq<Record> { if e.Emit? then [e.record] else [] }

  function Enqueues(es: seq<Event>): nat {
    if es == [] then 0 else Takes(es[0]) + Enqueues(es[1..])
  }

  /** Places in the channel that an event may take. */
  function Takes(e: Event): nat { if e.Emit? || e.RequestFlush? then 1 else 0 }

  lemma AcceptStep(c: Config, s: System, e: Event, rs: seq<Record>)
    requires s.connected && e != Hangup && Subsequence(s.accepted, rs)
    ensures var t := Step(c, s, e);
      && t.connected
      && Subsequence(t.accepted, rs + EmitOf(e))
      && t.emitted == s.emitted + |EmitOf(e)|
      && (|s.channel| + Takes(e) <= c.queueCapacity ==>
            |t.channel| <= |s.channel| + Takes(e) && t.dropped == s.dropped
            && t.accepted == s.accepted + EmitOf(e))
  {
    assert rs + [] == rs && s.accepted + [] == s.accepted;
    if e.Emit? {
      SubsequenceTake(s.accepted, rs, e.record);
      SubsequenceSkip(s.accepted, rs, e.record);
    }
  }

  lemma {:induction false} AcceptedFrom(c: Config, s: System, es: seq<Event>, rs: seq<Record>)
    requires s.connected && Subsequence(s.accepted, rs)
    ensures Subsequence(Run(c, s, es).accepted, rs + Emits(es))
    ensures Run(c, s, es).emitted == s.emitted + |Emits(es)|
    decreases |es|
  {
    if es == [] || es[0] == Hangup {
      assert rs + Emits(es) == rs;
      if es != [] {
        AcceptsNoMore(c, Step(c, s, Hangup), es[1..]);
      }
    } else {
      AcceptStep(c, s, es[0], rs);
      AcceptedFrom(c, Step(c, s, es[0]), es[1..], rs + EmitOf(es[0]));
      assert rs + Emits(es) == rs + EmitOf(es[0]) + Emits(es[1..]);
    }
  }

  lemma {:induction false} AllAcceptedFrom(c: Config, s: System, es: seq<Event>)
    requires s.connected && |s.channel| + Enqueues(es) <= c.queueCapacity
    ensures Run(c, s, es).accepted == s.accepted + Emits(es)
    ensures Run(c, s, es).dropped == s.dropped
    decreases |es|
  {
    if es == [] || es[0] == Hangup {
      assert s.accepted + Emits(es) == s.accepted;
      if es != [] {
        AcceptsNoMore(c, Step(c, s, Hangup), es[1..]);
      }
    } else {
      SubsequenceSelf(s.accepted);
      AcceptStep(c, s, es[0], s.accepted);
      AllAcceptedFrom(c, Step(c, s, es[0]), es[1..]);
      assert s.accepted + Emits(es) == s.accepted + EmitOf(es[0]) + Emits(es[1..]);
    }
  }

  lemma {:induction false} AcceptsNoMore(c: Config, s: System, es: seq<Event>)
    requires !s.connected
    ensures var t := Run(c, s, es); t.accepted == s.accepted && t.emitted == s.emitted && t.dropped == s.dropped
    decreases |es|
  {
    if es != [] {
      AcceptsNoMore(c, Step(c, s, es[0]), es[1..]);
    }
  }

  /**
   * The accepted records are emitted ones in emit order, and all of them when no more records and
   * flushes were enqueued than the channel holds, however slow the thread is.
   */
  lemma AcceptedWereEmitted(c: Config, es: seq<Event>)
    ensures var s := Run(c, Start(c), es);
      && Subsequence(s.accepted, Emits(es))
      && s.emitted == |Emits(es)|
      && (Enqueues(es) <= c.queueCapacity ==> s.accepted == Emits(es) && s.dropped == 0)
  {
    AcceptedFrom(c, Start(c), es, []);
    if Enqueues(es) <= c.queueCapacity {
      AllAcceptedFrom(c, Start(c), es);
    }
    assert [] + Emits(es) == Emits(es);
  }
}
