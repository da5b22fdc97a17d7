/**
 * The resident service: one guest instance behind a bounded FIFO mailbox, driven by one
 * worker task, with start and stop hooks, per-call deadlines, a watchdog and a drain.
 *
 * The tasks (acceptor, request handlers, worker, watchdog timer, clock) are one state
 * machine; every event is the code between two awaits of one task, so a run of the
 * machine is one interleaving.  An event that is not enabled leaves the state alone.
 */
module ResidentService {
  import opened Wrappers

  /** `capacity` is max_concurrent_requests: the semaphore size and the mailbox bound. */
  datatype Config = Config(capacity: nat, requestTimeout: nat, startupTimeout: nat, shutdownTimeout: nat)

  datatype Call = Call(id: nat, deadline: nat)

  /** What the guest observes, in order. */
  datatype GuestEvent =
    | StartBegan | StartReturned | StartFailed
    | CallEntered(call: Call, at: nat) | CallReturned(id: nat) | CallFailed(id: nat)
    | StopBegan(at: nat) | StopReturned | StopFailed
    | Killed

  /** Where the worker task stands between two awaits. */
  datatype Worker =
    | Spawned | Starting | Idle
    | Received(call: Call)    // popped from the mailbox, nothing checked
    | Open(call: Call)        // its response channel was seen open
    | Running(call: Call)     // inside the guest
    | Poisoned(call: Call)    // the call failed or overran; the loop returned
    | Stopping
    | Ended(ok: bool)         // the result of the worker task

  datatype Status = FromGuest | Code(code: nat)

  datatype Phase = Reading | Sending | Reserved | Awaiting | Answered(status: Status) | Cancelled
  {
    /** A handler holds its semaphore permit until it returns or is dropped. */
    predicate Live() {
      Reading? || Sending? || Reserved? || Awaiting?
    }
  }

  datatype Handler = Handler(conn: nat, deadline: nat, phase: Phase)

  datatype Serve = NotServing | Accepting | Draining | StopSent | Forced

  datatype State = State(
    now: nat,
    serve: Serve,
    conns: set<nat>,                    // connection tasks not yet joined
    handlers: map<nat, Handler>,        // every request that reached respond_inner
    permits: int,                       // free semaphore permits
    mailbox: seq<Call>,
    closed: bool,                       // receiver.close() was called; also `draining`
    worker: Worker,
    ready: bool,
    watch: Option<nat>,                 // the deadline the worker published
    seen: Option<nat>,                  // the deadline the armed timer was built from
    replies: map<nat, bool>,            // response channels written by the worker: success?
    enqueued: seq<nat>,                 // history: calls in mailbox order
    taken: seq<nat>,                    // history: calls popped by the worker
    responses: seq<(nat, Status)>,      // history: HTTP responses produced
    log: seq<GuestEvent>)               // history: guest activity

  function Init(c: Config): State {
    State(0, NotServing, {}, map[], c.capacity, [], false, Spawned, false,
          Some(c.startupTimeout), None, map[], [], [], [], [])
  }

  /** The serve loop, its connections and the clock. */
  datatype HostEvent =
    | Tick(elapsed: nat)
    | BeginServing | Connect(conn: nat) | Disconnect(conn: nat) | Drain | SendStop | GraceExpired

  /** One request handler (respond_inner); DropHandler is its connection being dropped. */
  datatype RequestEvent =
    | Arrive(conn: nat) | BodyRead | BodyTooLarge | BodyLate
    | Reserve | MailboxGone | Push
    | TakeReply | ReplyLost | ReplyLate | DropHandler

  /** The worker task: the guest loop and, from Rearm on, the watchdog around it. */
  datatype WorkEvent =
    | BeginStart | StartOk | StartFail
    | CloseMailbox | Receive | SkipClosed | SeeOpen | Expire | Enter | Return | Fail
    | ReportFailure | EndQuietly
    | BeginStop | StopOk | StopFail
    | Rearm | Fire

  datatype Event = Host(h: HostEvent) | Request(id: nat, r: RequestEvent) | Work(w: WorkEvent)

  // ---------------------------------------------------------------- views

  function LiveHandlers(m: map<nat, Handler>): set<nat> {
    set id | id in m && m[id].phase.Live()
  }

  function ReservedHandlers(m: map<nat, Handler>): set<nat> {
    set id | id in m && m[id].phase.Reserved?
  }

  predicate Is(s: State, id: nat, p: Phase) {
    id in s.handlers && s.handlers[id].phase == p
  }

  /** The receiving half of the response channel is gone once its handler returned. */
  predicate ResponseClosed(s: State, id: nat) {
    id in s.handlers && !s.handlers[id].phase.Live()
  }

  predicate Holds(w: Worker, id: nat) {
    (w.Received? || w.Open? || w.Running? || w.Poisoned?) && w.call.id == id
  }

  predicate StopRequested(s: State) {
    s.serve.StopSent?
  }

  predicate Teardown(w: Worker) {
    !w.Ended? && !w.Poisoned?
  }

  // ---------------------------------------------------------------- steps

  predicate HostEnabled(c: Config, s: State, h: HostEvent) {
    match h
    case Tick(_) => true
    case BeginServing => s.serve.NotServing? && s.ready
    case Connect(conn) =>
      s.serve.Accepting? && conn !in s.conns && |s.conns| < (if 2 * c.capacity > 32 then 2 * c.capacity else 32)
    case Disconnect(conn) =>
      conn in s.conns && forall id :: id in LiveHandlers(s.handlers) ==> s.handlers[id].conn != conn
    case Drain => s.serve.Accepting?
    case SendStop => s.serve.Draining? && s.conns == {}
    case GraceExpired => s.serve.Draining? || s.serve.StopSent?
  }

  predicate RequestEnabled(c: Config, s: State, id: nat, r: RequestEvent) {
    match r
    case Arrive(conn) => conn in s.conns && id !in s.handlers
    case BodyRead => Is(s, id, Reading)
    case BodyTooLarge => Is(s, id, Reading)
    case BodyLate => Is(s, id, Reading) && s.now >= s.handlers[id].deadline
    case Reserve =>
      Is(s, id, Sending) && !s.closed && !s.worker.Ended?
      && |s.mailbox| + |ReservedHandlers(s.handlers)| < c.capacity
    case MailboxGone => Is(s, id, Sending) && (s.closed || s.worker.Ended?)
    case Push => Is(s, id, Reserved)
    case TakeReply => Is(s, id, Awaiting) && id in s.replies
    case ReplyLost =>
      Is(s, id, Awaiting) && id !in s.replies
      && (s.worker.Ended? || (!Holds(s.worker, id) && forall call :: call in s.mailbox ==> call.id != id))
    case ReplyLate => Is(s, id, Awaiting) && s.now >= s.handlers[id].deadline
    case DropHandler => id in s.handlers && s.handlers[id].phase.Live()
  }

  predicate WorkEnabled(s: State, w: WorkEvent) {
    match w
    case BeginStart => s.worker.Spawned?
    case StartOk => s.worker.Starting?
    case StartFail => s.worker.Starting?
    case CloseMailbox => s.worker.Idle? && StopRequested(s) && !s.closed
    case Receive => s.worker.Idle? && (StopRequested(s) ==> s.closed) && s.mailbox != []
    case SkipClosed => s.worker.Received? && ResponseClosed(s, s.worker.call.id)
    case SeeOpen => s.worker.Received? && !ResponseClosed(s, s.worker.call.id)
    case Expire => s.worker.Open? && s.now >= s.worker.call.deadline
    case Enter => s.worker.Open? && s.now < s.worker.call.deadline
    case Return => s.worker.Running?
    case Fail => s.worker.Running?
    case ReportFailure => s.worker.Poisoned?
    case EndQuietly => s.worker.Poisoned?
    case BeginStop =>
      s.worker.Idle? && s.closed && s.mailbox == [] && ReservedHandlers(s.handlers) == {}
    case StopOk => s.worker.Stopping?
    case StopFail => s.worker.Stopping?
    case Rearm => !s.worker.Ended?
    case Fire => Teardown(s.worker) && s.seen.Some? && s.now >= s.seen.value
  }

  predicate Enabled(c: Config, s: State, e: Event) {
    match e
    case Host(h) => HostEnabled(c, s, h)
    case Request(id, r) => RequestEnabled(c, s, id, r)
    case Work(w) => WorkEnabled(s, w)
  }

  function HostNext(c: Config, s: State, h: HostEvent): State
    requires HostEnabled(c, s, h)
  {
    match h
    case Tick(elapsed) => s.(now := s.now + elapsed)
    case BeginServing => s.(serve := Accepting)
    case Connect(conn) => s.(conns := s.conns + {conn})
    case Disconnect(conn) => s.(conns := s.conns - {conn})
    case Drain => s.(serve := Draining)
    case SendStop => s.(serve := StopSent)
    case GraceExpired => s.(serve := Forced)
  }

  /** The drain check and the permit attempt run without an await in between. */
  predicate Admitted(s: State) {
    s.serve.Accepting? && s.permits > 0
  }

  function PhaseAfter(s: State, id: nat, r: RequestEvent): Phase
  {
    match r
    case Arrive(_) => if Admitted(s) then Reading else Answered(Code(503))
    case BodyRead => Sending
    case BodyTooLarge => Answered(Code(413))
    case BodyLate => Answered(Code(408))
    case Reserve => Reserved
    case MailboxGone => Answered(Code(503))
    case Push => Awaiting
    case TakeReply => Answered(if id in s.replies && s.replies[id] then FromGuest else Code(500))
    case ReplyLost => Answered(Code(500))
    case ReplyLate => Answered(Code(500))
    case DropHandler => Cancelled
  }

  /** Permits taken (negative) or given back by a step of a handler. */
  function PermitChange(s: State, r: RequestEvent): int {
    match r
    case Arrive(_) => if Admitted(s) then -1 else 0
    case BodyRead => 0
    case Reserve => 0
    case Push => 0
    case _ => 1
  }

  function HandlerAfter(c: Config, s: State, id: nat, r: RequestEvent): Handler
    requires RequestEnabled(c, s, id, r)
  {
    if r.Arrive? then Handler(r.conn, s.now + c.requestTimeout, PhaseAfter(s, id, r))
    else s.handlers[id].(phase := PhaseAfter(s, id, r))
  }

  function RequestNext(c: Config, s: State, id: nat, r: RequestEvent): State
    requires RequestEnabled(c, s, id, r)
  {
    var h := HandlerAfter(c, s, id, r);
    var queued := r.Push? && !s.worker.Ended?;
    s.(handlers := s.handlers[id := h],
       permits := s.permits + PermitChange(s, r),
       mailbox := if queued then s.mailbox + [Call(id, h.deadline)] else s.mailbox,
       enqueued := if queued then s.enqueued + [id] else s.enqueued,
       responses := if h.phase.Answered? then s.responses + [(id, h.phase.status)] else s.responses)
  }

  /** What a step of the worker changes besides its position and the log. */
  function WorkNext(c: Config, s: State, w: WorkEvent): State
    requires WorkEnabled(s, w)
  {
    match w
    case StartOk => s.(ready := true, watch := None)
    case CloseMailbox => s.(closed := true)
    case Receive => s.(mailbox := s.mailbox[1..], taken := s.taken + [s.mailbox[0].id])
    case Expire => s.(replies := s.replies[s.worker.call.id := false])
    case Enter => s.(watch := Some(s.worker.call.deadline))
    case Return => s.(watch := None, replies := s.replies[s.worker.call.id := true])
    case Fail => s.(replies := s.replies[s.worker.call.id := false])
    case BeginStop => s.(watch := Some(s.now + c.shutdownTimeout))
    case Rearm => s.(seen := s.watch)
    case _ => s
  }

  /** Where the worker stands after an event. */
  function WorkerAfter(s: State, e: Event): Worker
    requires e.Work? ==> WorkEnabled(s, e.w)
  {
    match e
    case Host(h) => if h.GraceExpired? && !s.worker.Ended? then Ended(false) else s.worker
    case Request(_, _) => s.worker
    case Work(w) =>
      match w
      case BeginStart => Starting
      case StartOk => Idle
      case StartFail => Ended(false)
      case Receive => Received(s.mailbox[0])
      case SkipClosed => Idle
      case SeeOpen => Open(s.worker.call)
      case Expire => Idle
      case Enter => Running(s.worker.call)
      case Return => Idle
      case Fail => Poisoned(s.worker.call)
      case ReportFailure => Ended(false)
      case EndQuietly => Ended(true)
      case BeginStop => Stopping
      case StopOk => Ended(true)
      case StopFail => Ended(false)
      case Fire => Ended(false)
      case CloseMailbox => s.worker
      case Rearm => s.worker
  }

  /** What the guest observes of an event. */
  function Observed(s: State, e: Event): Option<GuestEvent>
    requires e.Work? ==> WorkEnabled(s, e.w)
  {
    match e
    case Host(h) => if h.GraceExpired? && Teardown(s.worker) then Some(Killed) else None
    case Request(_, _) => None
    case Work(w) =>
      match w
      case BeginStart => Some(StartBegan)
      case StartOk => Some(StartReturned)
      case StartFail => Some(StartFailed)
      case Enter => Some(CallEntered(s.worker.call, s.now))
      case Return => Some(CallReturned(s.worker.call.id))
      case Fail => Some(CallFailed(s.worker.call.id))
      case BeginStop => Some(StopBegan(s.now))
      case StopOk => Some(StopReturned)
      case StopFail => Some(StopFailed)
      case Fire => Some(Killed)
      case _ => None
  }

  function Effects(c: Config, s: State, e: Event): State
    requires Enabled(c, s, e)
  {
    match e
    case Host(h) => HostNext(c, s, h)
    case Request(id, r) => RequestNext(c, s, id, r)
    case Work(w) => WorkNext(c, s, w)
  }

  function Next(c: Config, s: State, e: Event): State
    requires Enabled(c, s, e)
  {
    Effects(c, s, e).(
      worker := WorkerAfter(s, e),
      log := match Observed(s, e) case None => s.log case Some(g) => s.log + [g])
  }

  function Step(c: Config, s: State, e: Event): State {
    if Enabled(c, s, e) then Next(c, s, e) else s
  }

  function Run(c: Config, s: State, es: seq<Event>): State
    decreases |es|
  {
    if es == [] then s else Run(c, Step(c, s, es[0]), es[1..])
  }

  // ---------------------------------------------------------------- guest discipline

  /** The calls that entered the guest, in order. */
  function EnteredIds(log: seq<GuestEvent>): seq<nat> {
    if log == [] then []
    else
      var rest := EnteredIds(log[..|log| - 1]);
      var last := log[|log| - 1];
      if last.CallEntered? then rest + [last.call.id] else rest
  }

  predicate Fatal(g: GuestEvent) {
    g.StartFailed? || g.CallFailed? || g.StopReturned? || g.StopFailed? || g.Killed?
  }

  /**
   * What the guest may rely on: start runs first and at most once; one call at a time, never
   * at or after its deadline; nothing after a failure, an overrun or a kill; stop at most
   * once and nothing but its own outcome after it.
   */
  ghost predicate Discipline(log: seq<GuestEvent>) {
    && (forall i :: 0 <= i < |log| && log[i].StartBegan? ==> i == 0)
    && (forall i :: 0 <= i < |log| && (log[i].CallEntered? || log[i].StopBegan?) ==>
          i >= 2 && log[0].StartBegan? && log[1].StartReturned?)
    && (forall i :: 0 <= i < |log| - 1 && log[i].CallEntered? ==>
          log[i + 1].Killed? || log[i + 1] == CallReturned(log[i].call.id) || log[i + 1] == CallFailed(log[i].call.id))
    && (forall i :: 0 <= i < |log| && (log[i].CallReturned? || log[i].CallFailed?) ==>
          i >= 1 && log[i - 1].CallEntered? && log[i - 1].call.id == log[i].id)
    && (forall i :: 0 <= i < |log| && log[i].CallEntered? ==> log[i].at < log[i].call.deadline)
    && (forall i :: 0 <= i < |log| && Fatal(log[i]) ==> i == |log| - 1)
    && (forall i :: 0 <= i < |log| && log[i].StopBegan? ==>
          i >= |log| - 2 && (i == |log| - 2 ==> Fatal(log[i + 1])))
  }

  /** The end of the log that each position of the worker implies. */
  ghost predicate LogMatchesWorker(log: seq<GuestEvent>, w: Worker) {
    match w
    case Spawned => log == []
    case Starting => log == [StartBegan]
    case Idle => Quiet(log)
    case Received(_) => Quiet(log)
    case Open(_) => Quiet(log)
    case Running(call) => Started(log) && log[|log| - 1].CallEntered? && log[|log| - 1].call == call
    case Poisoned(call) => Started(log) && log[|log| - 1] == CallFailed(call.id)
    case Stopping => Started(log) && log[|log| - 1].StopBegan?
    case Ended(_) => log != [] && Fatal(log[|log| - 1])
  }

  ghost predicate Started(log: seq<GuestEvent>) {
    |log| >= 2 && log[0].StartBegan? && log[1].StartReturned?
  }

  ghost predicate Quiet(log: seq<GuestEvent>) {
    Started(log) && (log[|log| - 1].StartReturned? || log[|log| - 1].CallReturned?)
  }

  ghost predicate GuestInv(s: State) {
    Discipline(s.log) && LogMatchesWorker(s.log, s.worker)
  }

  /** What the worker may let the guest see next. */
  predicate MayLog(w: Worker, g: GuestEvent) {
    match g
    case StartBegan => w.Spawned?
    case StartReturned => w.Starting?
    case StartFailed => w.Starting?
    case CallEntered(call, at) => w.Open? && w.call == call && at < call.deadline
    case CallReturned(id) => w.Running? && w.call.id == id
    case CallFailed(id) => w.Running? && w.call.id == id
    case StopBegan(_) => w.Idle?
    case StopReturned => w.Stopping?
    case StopFailed => w.Stopping?
    case Killed => Teardown(w)
  }

  lemma DisciplineGrows(log: seq<GuestEvent>, w: Worker, g: GuestEvent)
    requires Discipline(log) && LogMatchesWorker(log, w) && MayLog(w, g)
    ensures Discipline(log + [g])
  {
    var t := log + [g];
    assert forall i :: 0 <= i < |log| ==> t[i] == log[i];
    assert log == [] || !Fatal(log[|log| - 1]);
  }

  lemma WorkerFollowsLog(s: State, e: Event)
    requires e.Work? ==> WorkEnabled(s, e.w)
    requires LogMatchesWorker(s.log, s.worker)
    ensures match Observed(s, e)
            case None => LogMatchesWorker(s.log, WorkerAfter(s, e))
            case Some(g) => MayLog(s.worker, g) && LogMatchesWorker(s.log + [g], WorkerAfter(s, e))
  {}

  lemma GuestInvStep(c: Config, s: State, e: Event)
    requires GuestInv(s)
    ensures GuestInv(Step(c, s, e))
  {
    if Enabled(c, s, e) {
      WorkerFollowsLog(s, e);
      if Observed(s, e).Some? {
        DisciplineGrows(s.log, s.worker, Observed(s, e).value);
      }
    }
  }

  // ---------------------------------------------------------------- mailbox order

  function Ids(calls: seq<Call>): seq<nat> {
    seq(|calls|, i requires 0 <= i < |calls| => calls[i].id)
  }

  /** First in, first out: what was popped, then what waits, is exactly what was enqueued. */
  ghost predicate FifoInv(s: State) {
    && s.enqueued == s.taken + Ids(s.mailbox)
    && Distinct(s.enqueued)
    && (forall id :: id in s.enqueued ==>
          id in s.handlers && !s.handlers[id].phase.Reading? && !s.handlers[id].phase.Sending? && !s.handlers[id].phase.Reserved?)
    && EntriesFollow(s)
  }

  /** Entries into the guest follow the order of popping; a popped call is entered at most once. */
  ghost predicate EntriesFollow(s: State) {
    if s.worker.Received? || s.worker.Open? then
      s.taken != [] && s.taken[|s.taken| - 1] == s.worker.call.id
      && Subsequence(EnteredIds(s.log), s.taken[..|s.taken| - 1])
    else Subsequence(EnteredIds(s.log), s.taken)
  }

  lemma FifoInvStep(c: Config, s: State, e: Event)
    requires FifoInv(s)
    ensures FifoInv(Step(c, s, e))
  {
    if Enabled(c, s, e) {
      match e
      case Host(_) => LogEntries(c, s, e);
      case Request(id, r) => FifoRequestStep(c, s, id, r);
      case Work(w) => FifoWorkStep(c, s, w);
    }
  }

  lemma LogEntries(c: Config, s: State, e: Event)
    requires Enabled(c, s, e)
    ensures EnteredIds(Next(c, s, e).log)
         == if e == Work(Enter) then EnteredIds(s.log) + [s.worker.call.id] else EnteredIds(s.log)
  {
    if Observed(s, e).Some? {
      assert (s.log + [Observed(s, e).value])[..|s.log|] == s.log;
    }
  }

  lemma FifoRequestStep(c: Config, s: State, id: nat, r: RequestEvent)
    requires FifoInv(s) && RequestEnabled(c, s, id, r)
    ensures FifoInv(Next(c, s, Request(id, r)))
  {
    var t := Next(c, s, Request(id, r));
    if r.Push? && !s.worker.Ended? {
      assert id !in s.enqueued;
      assert Ids(t.mailbox) == Ids(s.mailbox) + [id];
    }
  }

  lemma FifoWorkStep(c: Config, s: State, w: WorkEvent)
    requires FifoInv(s) && WorkEnabled(s, w)
    ensures FifoInv(Next(c, s, Work(w)))
  {
    var t := Next(c, s, Work(w));
    LogEntries(c, s, Work(w));
    if w.Receive? {
      assert s.taken + Ids(s.mailbox) == t.taken + Ids(t.mailbox);
      assert t.taken[..|t.taken| - 1] == s.taken;
    } else {
      WorkKeepsQueue(c, s, w);
      EntryStep(s, w, t);
    }
  }

  lemma WorkKeepsQueue(c: Config, s: State, w: WorkEvent)
    requires WorkEnabled(s, w) && !w.Receive?
    ensures var t := Next(c, s, Work(w));
      t.taken == s.taken && t.mailbox == s.mailbox && t.enqueued == s.enqueued && t.handlers == s.handlers
  {}

  lemma EntryStep(s: State, w: WorkEvent, t: State)
    requires EntriesFollow(s) && WorkEnabled(s, w) && !w.Receive?
    requires t.worker == WorkerAfter(s, Work(w)) && t.taken == s.taken
    requires EnteredIds(t.log) == if w.Enter? then EnteredIds(s.log) + [s.worker.call.id] else EnteredIds(s.log)
    ensures EntriesFollow(t)
  {
    if s.worker.Received? || s.worker.Open? {
      var before, last := s.taken[..|s.taken| - 1], s.taken[|s.taken| - 1];
      assert s.taken == before + [last];
      SubsequenceSkip(EnteredIds(s.log), before, last);
      SubsequenceTake(EnteredIds(s.log), before, last);
    }
  }

  // ---------------------------------------------------------------- permits and capacity

  lemma HandlerChange(m: map<nat, Handler>, id: nat, h: Handler)
    ensures LiveHandlers(m[id := h]) == (if h.phase.Live() then LiveHandlers(m) + {id} else LiveHandlers(m) - {id})
    ensures ReservedHandlers(m[id := h]) == (if h.phase.Reserved? then ReservedHandlers(m) + {id} else ReservedHandlers(m) - {id})
  {}

  /** Permits are conserved, and the mailbox with its reservations stays within its bound. */
  ghost predicate CapacityInv(c: Config, s: State) {
    && s.permits >= 0
    && s.permits + |LiveHandlers(s.handlers)| == c.capacity
    && |s.mailbox| + |ReservedHandlers(s.handlers)| <= c.capacity
  }

  predicate LiveAt(m: map<nat, Handler>, id: nat) {
    id in m && m[id].phase.Live()
  }

  predicate ReservedAt(m: map<nat, Handler>, id: nat) {
    id in m && m[id].phase.Reserved?
  }

  /** A handler's permit and its liveness move together. */
  lemma PermitFollowsHandler(c: Config, s: State, id: nat, r: RequestEvent)
    requires RequestEnabled(c, s, id, r)
    ensures var live := HandlerAfter(c, s, id, r).phase.Live();
      PermitChange(s, r) == (if LiveAt(s.handlers, id) then 1 else 0) - (if live then 1 else 0)
    ensures PermitChange(s, r) < 0 ==> s.permits > 0
  {}

  lemma CapacityInvStep(c: Config, s: State, e: Event)
    requires CapacityInv(c, s)
    ensures CapacityInv(c, Step(c, s, e))
  {
    if Enabled(c, s, e) && e.Request? {
      PermitFollowsHandler(c, s, e.id, e.r);
      CapacityRequestStep(c, s, e.id, HandlerAfter(c, s, e.id, e.r), e.r, Next(c, s, e));
    }
  }

  lemma CapacityRequestStep(c: Config, s: State, id: nat, h: Handler, r: RequestEvent, t: State)
    requires CapacityInv(c, s)
    requires t.handlers == s.handlers[id := h]
    requires t.permits - s.permits == (if LiveAt(s.handlers, id) then 1 else 0) - (if h.phase.Live() then 1 else 0)
    requires t.permits < s.permits ==> s.permits > 0
    requires h.phase.Reserved? <==> r.Reserve?
    requires r.Reserve? ==> |s.mailbox| + |ReservedHandlers(s.handlers)| < c.capacity
    requires |t.mailbox| == |s.mailbox| || (r.Push? && ReservedAt(s.handlers, id) && |t.mailbox| == |s.mailbox| + 1)
    ensures CapacityInv(c, t)
  {
    HandlerChange(s.handlers, id, h);
    assert id in LiveHandlers(s.handlers) <==> LiveAt(s.handlers, id);
    assert id in ReservedHandlers(s.handlers) <==> ReservedAt(s.handlers, id);
  }

  // ---------------------------------------------------------------- responses

  /** Every answered request has exactly one response, and no other request has one. */
  ghost predicate ResponseInv(s: State) {
    && (forall i, j :: 0 <= i < j < |s.responses| ==> s.responses[i].0 != s.responses[j].0)
    && (forall r :: r in s.responses ==> r.0 in s.handlers && s.handlers[r.0].phase == Answered(r.1))
    && (forall id :: id in s.handlers && s.handlers[id].phase.Answered? ==>
          (id, s.handlers[id].phase.status) in s.responses)
  }

  lemma ResponseInvStep(c: Config, s: State, e: Event)
    requires ResponseInv(s)
    ensures ResponseInv(Step(c, s, e))
  {
    if Enabled(c, s, e) {
      match e
      case Host(h) => HostAnswersNobody(c, s, h);
      case Work(w) => WorkerAnswersNobody(c, s, w);
      case Request(id, r) => ResponseRequestStep(c, s, id, r);
    }
  }

  lemma HostAnswersNobody(c: Config, s: State, h: HostEvent)
    requires Enabled(c, s, Host(h))
    ensures ResponseInv(s) ==> ResponseInv(Next(c, s, Host(h)))
  {
    var t := Next(c, s, Host(h));
    assert t.handlers == s.handlers && t.responses == s.responses;
  }

  lemma WorkerAnswersNobody(c: Config, s: State, w: WorkEvent)
    requires Enabled(c, s, Work(w))
    ensures ResponseInv(s) ==> ResponseInv(Next(c, s, Work(w)))
  {
    var t := Next(c, s, Work(w));
    assert t.handlers == s.handlers && t.responses == s.responses;
  }

  lemma ResponseRequestStep(c: Config, s: State, id: nat, r: RequestEvent)
    requires ResponseInv(s) && Enabled(c, s, Request(id, r))
    ensures ResponseInv(Next(c, s, Request(id, r)))
  {
    assert id in s.handlers ==> !s.handlers[id].phase.Answered?;
    ResponseGrows(s, id, HandlerAfter(c, s, id, r), Next(c, s, Request(id, r)));
  }

  lemma ResponseGrows(s: State, id: nat, h: Handler, t: State)
    requires ResponseInv(s)
    requires t.handlers == s.handlers[id := h]
    requires id in s.handlers ==> !s.handlers[id].phase.Answered?
    requires t.responses == if h.phase.Answered? then s.responses + [(id, h.phase.status)] else s.responses
    ensures ResponseInv(t)
  {
    assert forall r :: r in s.responses ==> r.0 != id;
    assert forall i :: 0 <= i < |s.responses| ==> s.responses[i] in s.responses;
    if h.phase.Answered? {
      var r := (id, h.phase.status);
      assert t.responses[|s.responses|] == r;
      assert forall q :: q in t.responses <==> q in s.responses || q == r;
    }
  }

  /** A guest response reaches a client only if the guest returned from exactly that call. */
  ghost predicate HonestInv(s: State) {
    && (forall id :: id in s.replies && s.replies[id] ==> CallReturned(id) in s.log)
    && (forall r :: r in s.responses && r.1.FromGuest? ==> CallReturned(r.0) in s.log)
  }

  lemma HonestInvStep(c: Config, s: State, e: Event)
    requires HonestInv(s)
    ensures HonestInv(Step(c, s, e))
  {
    if Enabled(c, s, e) {
      var t := Next(c, s, e);
      assert forall g :: g in s.log ==> g in t.log;
      if e == Work(Return) {
        assert t.log[|s.log|] == CallReturned(s.worker.call.id);
      }
    }
  }

  // ---------------------------------------------------------------- replies

  /** The worker has popped the call and has not written to its channel. */
  predicate Unreplied(w: Worker, id: nat) {
    (w.Received? || w.Open? || w.Running?) && w.call.id == id
  }

  /** No call that the worker popped is forgotten, and a returned call has reported success. */
  ghost predicate ReplyInv(s: State) {
    && (s.worker.Received? || s.worker.Open? || s.worker.Running? ==> s.worker.call.id in s.taken)
    && (forall id :: id in s.replies ==> id in s.taken && !Unreplied(s.worker, id))
    && (forall id :: CallReturned(id) in s.log ==> id in s.replies && s.replies[id])
    && (forall id :: id in s.taken ==> id in s.replies || Unreplied(s.worker, id) || ResponseClosed(s, id) || s.worker.Ended?)
    && (forall id :: Is(s, id, Awaiting) ==> id in s.enqueued || s.worker.Ended?)
  }

  lemma ReplyInvStep(c: Config, s: State, e: Event)
    requires ReplyInv(s) && FifoInv(s)
    ensures ReplyInv(Step(c, s, e))
  {
    if Enabled(c, s, e) {
      match e
      case Host(h) => ReplyHostStep(c, s, h);
      case Request(id, r) => ReplyRequestStep(c, s, id, r);
      case Work(w) => ReplyWorkStep(c, s, w);
    }
  }

  lemma ReplyHostStep(c: Config, s: State, h: HostEvent)
    requires ReplyInv(s) && Enabled(c, s, Host(h))
    ensures ReplyInv(Next(c, s, Host(h)))
  {
    var t := Next(c, s, Host(h));
    assert t.handlers == s.handlers && t.replies == s.replies && t.taken == s.taken && t.enqueued == s.enqueued;
    assert forall id :: CallReturned(id) in t.log ==> CallReturned(id) in s.log;
  }

  lemma ReplyRequestStep(c: Config, s: State, id: nat, r: RequestEvent)
    requires ReplyInv(s) && Enabled(c, s, Request(id, r))
    ensures ReplyInv(Next(c, s, Request(id, r)))
  {
    var t := Next(c, s, Request(id, r));
    assert t.replies == s.replies && t.taken == s.taken && t.log == s.log && t.worker == s.worker;
    assert t.enqueued == s.enqueued || t.enqueued[|s.enqueued|] == id;
    assert forall k :: k in s.enqueued ==> k in t.enqueued;
    forall k | ResponseClosed(s, k) ensures ResponseClosed(t, k) {
      assert k == id ==> r.Arrive?;
    }
  }

  lemma ReplyWorkStep(c: Config, s: State, w: WorkEvent)
    requires ReplyInv(s) && FifoInv(s) && Enabled(c, s, Work(w))
    ensures ReplyInv(Next(c, s, Work(w)))
  {
    if w.Receive? {
      ReplyReceiveStep(c, s);
    } else if w.Return? || w.Fail? || w.Expire? {
      ReplyWritten(c, s, w);
    } else {
      NothingReplied(c, s, w);
    }
  }

  lemma ReplyReceiveStep(c: Config, s: State)
    requires ReplyInv(s) && FifoInv(s) && Enabled(c, s, Work(Receive))
    ensures ReplyInv(Next(c, s, Work(Receive)))
  {
    var t := Next(c, s, Work(Receive));
    PoppedIsNew(s);
    assert t.taken == s.taken + [s.mailbox[0].id] && t.log == s.log && t.replies == s.replies;
  }

  lemma ReplyWritten(c: Config, s: State, w: WorkEvent)
    requires ReplyInv(s) && Enabled(c, s, Work(w)) && (w.Return? || w.Fail? || w.Expire?)
    ensures ReplyInv(Next(c, s, Work(w)))
  {
    var t := Next(c, s, Work(w));
    var id := s.worker.call.id;
    assert t.taken == s.taken && t.handlers == s.handlers && t.enqueued == s.enqueued;
    assert t.replies == s.replies[id := w.Return?] && !t.worker.Ended?;
    assert w.Return? ==> t.log[|s.log|] == CallReturned(id);
    assert forall k :: CallReturned(k) in t.log <==> CallReturned(k) in s.log || (w.Return? && k == id);
  }

  lemma NothingReplied(c: Config, s: State, w: WorkEvent)
    requires ReplyInv(s) && Enabled(c, s, Work(w)) && !w.Receive? && !w.Return? && !w.Fail? && !w.Expire?
    ensures ReplyInv(Next(c, s, Work(w)))
  {
    var t := Next(c, s, Work(w));
    assert t.taken == s.taken && t.handlers == s.handlers && t.enqueued == s.enqueued && t.replies == s.replies;
    assert forall k :: CallReturned(k) in t.log <==> CallReturned(k) in s.log;
  }

  lemma PoppedIsNew(s: State)
    requires FifoInv(s) && s.mailbox != []
    ensures s.mailbox[0].id !in s.taken
  {
    assert s.enqueued[|s.taken|] == Ids(s.mailbox)[0];
    assert forall i :: 0 <= i < |s.taken| ==> s.enqueued[i] == s.taken[i];
  }

  // ---------------------------------------------------------------- drain

  /** Stop is requested only when no connection task is left, so no handler is either. */
  ghost predicate DrainInv(s: State) {
    && (s.serve.StopSent? || s.closed ==> s.conns == {})
    && (s.closed ==> s.serve.StopSent? || s.serve.Forced?)
    && (s.serve.NotServing? ==> s.conns == {})
    && (!s.serve.NotServing? || s.closed ==> s.ready)
    && (s.ready ==> !s.worker.Spawned? && !s.worker.Starting?)
    && (forall id :: id in s.handlers && s.handlers[id].phase.Live() ==> s.handlers[id].conn in s.conns)
  }

  lemma DrainInvStep(c: Config, s: State, e: Event)
    requires DrainInv(s)
    ensures DrainInv(Step(c, s, e))
  {
    if Enabled(c, s, e) {
      match e
      case Host(h) => DrainHostStep(c, s, h);
      case Request(id, r) => assert id in s.handlers ==> HandlerAfter(c, s, id, r).conn == s.handlers[id].conn;
      case Work(w) => DrainWorkStep(c, s, w);
    }
  }

  lemma DrainHostStep(c: Config, s: State, h: HostEvent)
    requires DrainInv(s) && HostEnabled(c, s, h)
    ensures DrainInv(Next(c, s, Host(h)))
  {
    assert forall id :: LiveAt(s.handlers, id) <==> id in LiveHandlers(s.handlers);
  }

  lemma DrainWorkStep(c: Config, s: State, w: WorkEvent)
    requires DrainInv(s) && WorkEnabled(s, w)
    ensures DrainInv(Next(c, s, Work(w)))
  {
    var t := Next(c, s, Work(w));
    assert t.handlers == s.handlers && t.conns == s.conns && t.serve == s.serve;
  }

  // ---------------------------------------------------------------- watchdog

  /** The deadline the worker publishes at each position. */
  ghost predicate WatchInv(c: Config, s: State) {
    match s.worker
    case Spawned => s.watch == Some(c.startupTimeout)
    case Starting => s.watch == Some(c.startupTimeout)
    case Idle => s.watch == None
    case Received(_) => s.watch == None
    case Open(_) => s.watch == None
    case Running(call) => s.watch == Some(call.deadline)
    case Poisoned(call) => s.watch == Some(call.deadline)
    case Stopping => s.watch.Some?
    case Ended(_) => true
  }

  lemma WatchInvStep(c: Config, s: State, e: Event)
    requires WatchInv(c, s)
    ensures WatchInv(c, Step(c, s, e))
  {
    if Enabled(c, s, e) {
      match e
      case Host(_) =>
      case Request(_, _) =>
      case Work(w) => WatchWorkStep(c, s, w);
    }
  }

  lemma WatchWorkStep(c: Config, s: State, w: WorkEvent)
    requires WatchInv(c, s) && WorkEnabled(s, w)
    ensures WatchInv(c, Next(c, s, Work(w)))
  {}

  // ---------------------------------------------------------------- task result

  /** The worker's result: an error exactly when the guest was cut short, except after a failed call. */
  ghost predicate OutcomeInv(s: State) {
    s.worker.Ended? && s.log != [] ==>
      var last := s.log[|s.log| - 1];
      && (s.worker.ok ==> last.StopReturned? || last.CallFailed?)
      && (!s.worker.ok ==> !last.StopReturned?)
  }

  lemma OutcomeInvStep(c: Config, s: State, e: Event)
    requires OutcomeInv(s) && GuestInv(s)
    ensures OutcomeInv(Step(c, s, e))
  {}

  // ---------------------------------------------------------------- all runs

  // ---------------------------------------------------------------- the stop hook and the empty mailbox

  ghost predicate StopStarted(log: seq<GuestEvent>) {
    exists i :: 0 <= i < |log| && log[i].StopBegan?
  }

  /** Once stop has begun, everything that was ever enqueued has been popped, and nothing can follow. */
  ghost predicate StopInv(s: State) {
    StopStarted(s.log) ==>
      s.closed && s.mailbox == [] && ReservedHandlers(s.handlers) == {} && (s.worker.Stopping? || s.worker.Ended?)
  }

  lemma StopInvStep(c: Config, s: State, e: Event)
    requires StopInv(s)
    ensures StopInv(Step(c, s, e))
  {
    if Enabled(c, s, e) {
      match e
      case Host(h) => StopHostStep(c, s, h);
      case Request(id, r) => StopRequestStep(c, s, id, r);
      case Work(w) => StopWorkStep(c, s, w);
    }
  }

  lemma StopLogGrows(log: seq<GuestEvent>, g: GuestEvent)
    ensures StopStarted(log + [g]) <==> StopStarted(log) || g.StopBegan?
  {
    assert (log + [g])[|log|] == g;
    if i :| 0 <= i < |log| && log[i].StopBegan? {
      assert (log + [g])[i] == log[i];
    }
  }

  lemma StopHostStep(c: Config, s: State, h: HostEvent)
    requires StopInv(s) && Enabled(c, s, Host(h))
    ensures StopInv(Next(c, s, Host(h)))
  {
    StopLogGrows(s.log, Killed);
  }

  lemma StopRequestStep(c: Config, s: State, id: nat, r: RequestEvent)
    requires StopInv(s) && Enabled(c, s, Request(id, r))
    ensures StopInv(Next(c, s, Request(id, r)))
  {
    assert ReservedAt(s.handlers, id) <==> id in ReservedHandlers(s.handlers);
  }

  lemma StopWorkStep(c: Config, s: State, w: WorkEvent)
    requires StopInv(s) && Enabled(c, s, Work(w))
    ensures StopInv(Next(c, s, Work(w)))
  {
    if Observed(s, Work(w)).Some? {
      StopLogGrows(s.log, Observed(s, Work(w)).value);
    }
  }

  // ---------------------------------------------------------------- deadlines the timer may hold

  /** Deadlines that were published: for startup, for a call that entered, for the stop hook. */
  ghost predicate Published(c: Config, log: seq<GuestEvent>, deadline: nat) {
    || deadline == c.startupTimeout
    || (exists i :: 0 <= i < |log| && log[i].CallEntered? && log[i].call.deadline == deadline)
    || (exists i :: 0 <= i < |log| && log[i].StopBegan? && log[i].at + c.shutdownTimeout == deadline)
  }

  /** Neither the published deadline nor the armed timer ever holds anything else. */
  ghost predicate DeadlineInv(c: Config, s: State) {
    && (s.seen.Some? ==> Published(c, s.log, s.seen.value))
    && (s.watch.Some? ==> Published(c, s.log, s.watch.value))
    && (s.worker.Stopping? ==>
          s.log != [] && s.log[|s.log| - 1].StopBegan? && s.watch == Some(s.log[|s.log| - 1].at + c.shutdownTimeout))
  }

  lemma PublishedStays(c: Config, log: seq<GuestEvent>, g: GuestEvent)
    ensures forall d: nat :: Published(c, log, d) ==> Published(c, log + [g], d)
    ensures g.CallEntered? ==> Published(c, log + [g], g.call.deadline)
    ensures g.StopBegan? ==> Published(c, log + [g], g.at + c.shutdownTimeout)
  {
    assert (log + [g])[|log|] == g;
    forall d: nat | Published(c, log, d) ensures Published(c, log + [g], d) {
      if i :| 0 <= i < |log| && log[i].CallEntered? && log[i].call.deadline == d {
        assert (log + [g])[i] == log[i];
      } else if i :| 0 <= i < |log| && log[i].StopBegan? && log[i].at + c.shutdownTimeout == d {
        assert (log + [g])[i] == log[i];
      }
    }
  }

  lemma DeadlineInvStep(c: Config, s: State, e: Event)
    requires DeadlineInv(c, s)
    ensures DeadlineInv(c, Step(c, s, e))
  {
    if Enabled(c, s, e) {
      match e
      case Host(h) => DeadlineHostStep(c, s, h);
      case Request(id, r) => DeadlineRequestStep(c, s, id, r);
      case Work(w) => DeadlineWorkStep(c, s, w);
    }
  }

  lemma DeadlineHostStep(c: Config, s: State, h: HostEvent)
    requires DeadlineInv(c, s) && Enabled(c, s, Host(h))
    ensures DeadlineInv(c, Next(c, s, Host(h)))
  {
    PublishedStays(c, s.log, Killed);
  }

  lemma DeadlineRequestStep(c: Config, s: State, id: nat, r: RequestEvent)
    requires DeadlineInv(c, s) && Enabled(c, s, Request(id, r))
    ensures DeadlineInv(c, Next(c, s, Request(id, r)))
  {
    var t := Next(c, s, Request(id, r));
    assert t.seen == s.seen && t.watch == s.watch && t.log == s.log && t.worker == s.worker;
  }

  lemma DeadlineWorkStep(c: Config, s: State, w: WorkEvent)
    requires DeadlineInv(c, s) && Enabled(c, s, Work(w))
    ensures DeadlineInv(c, Next(c, s, Work(w)))
  {
    if Observed(s, Work(w)).Some? {
      PublishedStays(c, s.log, Observed(s, Work(w)).value);
    }
  }

  ghost predicate Inv(c: Config, s: State) {
    GuestInv(s) && FifoInv(s) && CapacityInv(c, s) && ResponseInv(s) && HonestInv(s) && DrainInv(s) && WatchInv(c, s)
    && OutcomeInv(s) && StopInv(s) && DeadlineInv(c, s) && ReplyInv(s)
  }

  lemma InitInv(c: Config)
    ensures Inv(c, Init(c))
  {
    assert LiveHandlers(Init(c).handlers) == {} && ReservedHandlers(Init(c).handlers) == {};
    InitQuiet(c);
  }

  lemma InitQuiet(c: Config)
    ensures var s := Init(c);
      ResponseInv(s) && HonestInv(s) && ReplyInv(s) && DrainInv(s) && StopInv(s) && DeadlineInv(c, s) && FifoInv(s)
  {}

  lemma InvStep(c: Config, s: State, e: Event)
    requires Inv(c, s)
    ensures Inv(c, Step(c, s, e))
  {
    GuestInvStep(c, s, e);
    FifoInvStep(c, s, e);
    CapacityInvStep(c, s, e);
    ResponseInvStep(c, s, e);
    HonestInvStep(c, s, e);
    DrainInvStep(c, s, e);
    WatchInvStep(c, s, e);
    OutcomeInvStep(c, s, e);
    StopInvStep(c, s, e);
    DeadlineInvStep(c, s, e);
    ReplyInvStep(c, s, e);
  }

  lemma {:induction false} RunInv(c: Config, s: State, es: seq<Event>)
    requires Inv(c, s)
    ensures Inv(c, Run(c, s, es))
    decreases |es|
  {
    if es != [] {
      InvStep(c, s, es[0]);
      RunInv(c, Step(c, s, es[0]), es[1..]);
    }
  }

  /**
   * In every interleaving the guest sees the discipline; calls enter in mailbox order, each at most
   * once; and stop begins only after the mailbox is closed and empty, with every call ever enqueued
   * popped and no slot reserved, which then stays so.
   */
  lemma GuestDiscipline(c: Config, es: seq<Event>)
    ensures var s := Run(c, Init(c), es);
      && Discipline(s.log)
      && Subsequence(EnteredIds(s.log), s.enqueued)
      && Distinct(EnteredIds(s.log))
      && (StopStarted(s.log) ==>
            s.closed && s.mailbox == [] && ReservedHandlers(s.handlers) == {} && s.taken == s.enqueued)
  {
    InitInv(c);
    RunInv(c, Init(c), es);
    var s := Run(c, Init(c), es);
    EntriesInOrder(s);
    assert s.mailbox == [] ==> Ids(s.mailbox) == [] && s.taken + [] == s.taken;
  }

  lemma EntriesInOrder(s: State)
    requires FifoInv(s)
    ensures Subsequence(EnteredIds(s.log), s.enqueued) && Distinct(EnteredIds(s.log))
  {
    if s.worker.Received? || s.worker.Open? {
      var before, last := s.taken[..|s.taken| - 1], s.taken[|s.taken| - 1];
      assert s.taken == before + [last];
      SubsequenceSkip(EnteredIds(s.log), before, last);
    }
    SubsequencePrefix(EnteredIds(s.log), s.taken, Ids(s.mailbox));
    SubsequenceDistinct(EnteredIds(s.log), s.enqueued);
  }

  /** Permits and the mailbox never exceed max_concurrent_requests, whatever the clients do. */
  lemma BoundedLoad(c: Config, es: seq<Event>)
    ensures var s := Run(c, Init(c), es);
      && 0 <= s.permits && |LiveHandlers(s.handlers)| == c.capacity - s.permits <= c.capacity
      && |s.mailbox| <= c.capacity
  {
    InitInv(c);
    RunInv(c, Init(c), es);
  }

  function CountResponses(rs: seq<(nat, Status)>, id: nat): nat {
    if rs == [] then 0 else CountResponses(rs[..|rs| - 1], id) + if rs[|rs| - 1].0 == id then 1 else 0
  }

  lemma {:induction false} CountOnce(rs: seq<(nat, Status)>, id: nat)
    requires forall i, j :: 0 <= i < j < |rs| ==> rs[i].0 != rs[j].0
    ensures CountResponses(rs, id) == if exists i :: 0 <= i < |rs| && rs[i].0 == id then 1 else 0
  {
    if rs != [] {
      var init := rs[..|rs| - 1];
      CountOnce(init, id);
      if i :| 0 <= i < |rs| && rs[i].0 == id {
        if i < |rs| - 1 {
          assert init[i].0 == id;
        }
      }
    }
  }

  /**
   * A request that ran to completion has exactly one HTTP response; a dropped or unfinished one has none;
   * and a guest response is the outcome of that request's own call.
   */
  lemma OneResponsePerRequest(c: Config, es: seq<Event>, id: nat)
    ensures var s := Run(c, Init(c), es);
      && (CountResponses(s.responses, id) == if id in s.handlers && s.handlers[id].phase.Answered? then 1 else 0)
      && (Is(s, id, Answered(FromGuest)) ==> CallReturned(id) in s.log && id in s.enqueued)
  {
    InitInv(c);
    RunInv(c, Init(c), es);
    var s := Run(c, Init(c), es);
    CountOnce(s.responses, id);
    if id in s.handlers && s.handlers[id].phase.Answered? {
      var r := (id, s.handlers[id].phase.status);
      assert r in s.responses;
      var i :| 0 <= i < |s.responses| && s.responses[i] == r;
      assert s.responses[i].0 == id;
      if r.1.FromGuest? {
        assert CallReturned(id) in s.log;
        var k :| 0 <= k < |s.log| && s.log[k] == CallReturned(id);
        GuestDiscipline(c, es);
        EnteredAppears(s.log, k - 1);
        SubsequenceDistinct(EnteredIds(s.log), s.enqueued);
      }
    }
  }

  /**
   * In every run: a handler that takes its reply answers with the guest's response exactly if its call
   * returned, and with 500 otherwise.
   */
  lemma ReplyReachesClient(c: Config, es: seq<Event>, id: nat)
    requires Enabled(c, Run(c, Init(c), es), Request(id, TakeReply))
    ensures var s := Run(c, Init(c), es);
      Step(c, s, Request(id, TakeReply)).responses
      == s.responses + [(id, if CallReturned(id) in s.log then FromGuest else Code(500))]
  {
    InitInv(c);
    RunInv(c, Init(c), es);
    ReplyIsHonest(c, Run(c, Init(c), es), id);
  }

  lemma ReplyIsHonest(c: Config, s: State, id: nat)
    requires HonestInv(s) && ReplyInv(s) && Enabled(c, s, Request(id, TakeReply))
    ensures Step(c, s, Request(id, TakeReply)).responses
         == s.responses + [(id, if CallReturned(id) in s.log then FromGuest else Code(500))]
  {
    assert s.replies[id] <==> CallReturned(id) in s.log;
    ReplyAnswers(c, s, id);
  }

  lemma ReplyAnswers(c: Config, s: State, id: nat)
    requires Enabled(c, s, Request(id, TakeReply))
    ensures Step(c, s, Request(id, TakeReply)).responses
         == s.responses + [(id, if s.replies[id] then FromGuest else Code(500))]
  {}

  /**
   * In every run a request that waits for its reply is in the mailbox, held by the worker, or has its
   * reply, unless the worker has ended; so only then can a reply be lost.
   */
  lemma NobodyIsForgotten(c: Config, es: seq<Event>, id: nat)
    requires Is(Run(c, Init(c), es), id, Awaiting)
    ensures var s := Run(c, Init(c), es);
      && (id in Ids(s.mailbox) || Unreplied(s.worker, id) || id in s.replies || s.worker.Ended?)
      && (Enabled(c, s, Request(id, ReplyLost)) ==> s.worker.Ended?)
  {
    InitInv(c);
    RunInv(c, Init(c), es);
    WaitingIsSomewhere(c, Run(c, Init(c), es), id);
  }

  lemma WaitingIsSomewhere(c: Config, s: State, id: nat)
    requires FifoInv(s) && ReplyInv(s) && Is(s, id, Awaiting)
    ensures id in Ids(s.mailbox) || Unreplied(s.worker, id) || id in s.replies || s.worker.Ended?
    ensures RequestEnabled(c, s, id, ReplyLost) ==> s.worker.Ended?
  {
    assert id in Ids(s.mailbox) ==> exists call :: call in s.mailbox && call.id == id by {
      if id in Ids(s.mailbox) {
        var k :| 0 <= k < |s.mailbox| && Ids(s.mailbox)[k] == id;
        assert s.mailbox[k] in s.mailbox;
      }
    }
  }

  /** The response, if any, with which a request handler ends, and when it is turned away on arrival. */
  lemma EveryEnding(c: Config, s: State, id: nat, r: RequestEvent)
    requires Enabled(c, s, Request(id, r))
    ensures var answers := Step(c, s, Request(id, r)).responses;
      && (r.Arrive? && (!s.serve.Accepting? || s.permits <= 0) ==> answers == s.responses + [(id, Code(503))])
      && (r.Arrive? && s.serve.Accepting? && s.permits > 0 ==> answers == s.responses)
      && (r.BodyTooLarge? ==> answers == s.responses + [(id, Code(413))])
      && (r.BodyLate? ==> answers == s.responses + [(id, Code(408))])
      && (r.MailboxGone? ==> answers == s.responses + [(id, Code(503))])
      && (r.ReplyLost? || r.ReplyLate? ==> answers == s.responses + [(id, Code(500))])
      && (r.BodyRead? || r.Reserve? || r.Push? || r.DropHandler? ==> answers == s.responses)
  {}

  // ---------------------------------------------------------------- the deadline of a request

  ghost predicate DueAt(m: map<nat, Handler>, call: Call) {
    call.id in m && m[call.id].deadline == call.deadline
  }

  /** A call carries the deadline of its request wherever it is. */
  ghost predicate DueInv(s: State) {
    && (forall call :: call in s.mailbox ==> DueAt(s.handlers, call))
    && (s.worker.Received? || s.worker.Open? || s.worker.Running? || s.worker.Poisoned? ==> DueAt(s.handlers, s.worker.call))
    && (forall call: Call, at: nat :: CallEntered(call, at) in s.log ==> DueAt(s.handlers, call))
  }

  lemma DueStep(c: Config, s: State, e: Event)
    requires DueInv(s)
    ensures DueInv(Step(c, s, e))
  {
    if Enabled(c, s, e) {
      match e
      case Host(h) => DueHostStep(c, s, h);
      case Request(id, r) => DueRequestStep(c, s, id, r);
      case Work(w) => DueWorkStep(c, s, w);
    }
  }

  lemma DueHostStep(c: Config, s: State, h: HostEvent)
    requires DueInv(s) && Enabled(c, s, Host(h))
    ensures DueInv(Next(c, s, Host(h)))
  {
    var t := Next(c, s, Host(h));
    assert t.handlers == s.handlers && t.mailbox == s.mailbox;
    assert forall call: Call, at: nat :: CallEntered(call, at) in t.log ==> CallEntered(call, at) in s.log;
  }

  lemma DueRequestStep(c: Config, s: State, id: nat, r: RequestEvent)
    requires DueInv(s) && Enabled(c, s, Request(id, r))
    ensures DueInv(Next(c, s, Request(id, r)))
  {
    var t := Next(c, s, Request(id, r));
    assert t.log == s.log && t.worker == s.worker;
    assert forall call :: DueAt(s.handlers, call) ==> DueAt(t.handlers, call);
    assert forall call :: call in t.mailbox ==> call in s.mailbox || call == Call(id, t.handlers[id].deadline);
  }

  lemma DueWorkStep(c: Config, s: State, w: WorkEvent)
    requires DueInv(s) && Enabled(c, s, Work(w))
    ensures DueInv(Next(c, s, Work(w)))
  {
    var t := Next(c, s, Work(w));
    assert t.handlers == s.handlers;
    assert forall call :: call in t.mailbox ==> call in s.mailbox;
    assert w.Receive? ==> s.mailbox[0] in s.mailbox;
    assert forall call: Call, at: nat :: CallEntered(call, at) in t.log ==>
      CallEntered(call, at) in s.log || (w.Enter? && call == s.worker.call);
  }

  lemma HostEffect(c: Config, s: State, h: HostEvent)
    requires Enabled(c, s, Host(h))
    ensures var t := Next(c, s, Host(h));
      && t.handlers == s.handlers
      && (h.Connect? ==> t.conns == s.conns + {h.conn} && (|s.conns| < 2 * c.capacity || |s.conns| < 32))
      && (h.Disconnect? ==> t.conns == s.conns - {h.conn})
      && (!h.Connect? && !h.Disconnect? ==> t.conns == s.conns)
  {}

  lemma RequestEffect(c: Config, s: State, id: nat, r: RequestEvent)
    requires Enabled(c, s, Request(id, r))
    ensures var t := Next(c, s, Request(id, r));
      && t.conns == s.conns && id in t.handlers && t.handlers == s.handlers[id := t.handlers[id]]
      && (id in s.handlers ==> t.handlers[id].deadline == s.handlers[id].deadline)
  {}

  lemma WorkEffect(c: Config, s: State, w: WorkEvent)
    requires Enabled(c, s, Work(w))
    ensures Next(c, s, Work(w)).handlers == s.handlers && Next(c, s, Work(w)).conns == s.conns
  {}

  lemma DeadlineStays(c: Config, s: State, e: Event, id: nat)
    requires id in s.handlers
    ensures var t := Step(c, s, e); id in t.handlers && t.handlers[id].deadline == s.handlers[id].deadline
  {
    if Enabled(c, s, e) {
      match e
      case Host(h) => HostEffect(c, s, h);
      case Request(k, r) => RequestEffect(c, s, k, r);
      case Work(w) => WorkEffect(c, s, w);
    }
  }

  lemma {:induction false} RunDue(c: Config, s: State, es: seq<Event>)
    requires DueInv(s)
    ensures DueInv(Run(c, s, es))
    ensures forall id :: id in s.handlers ==>
      id in Run(c, s, es).handlers && Run(c, s, es).handlers[id].deadline == s.handlers[id].deadline
    decreases |es|
  {
    if es != [] {
      DueStep(c, s, es[0]);
      forall id | id in s.handlers
        ensures id in Step(c, s, es[0]).handlers && Step(c, s, es[0]).handlers[id].deadline == s.handlers[id].deadline
      {
        DeadlineStays(c, s, es[0], id);
      }
      RunDue(c, Step(c, s, es[0]), es[1..]);
    }
  }

  /** Whatever happens later, this request's deadline is `due`, its call enters only before it, and it times out only from it on. */
  ghost predicate KeepsDeadline(c: Config, t: State, id: nat, due: nat) {
    && id in t.handlers && t.handlers[id].deadline == due
    && (forall call: Call, at: nat :: CallEntered(call, at) in t.log && call.id == id ==> call.deadline == due && at < due)
    && (Enabled(c, t, Request(id, BodyLate)) <==> t.handlers[id].phase.Reading? && t.now >= due)
    && (Enabled(c, t, Request(id, ReplyLate)) <==> t.handlers[id].phase.Awaiting? && t.now >= due)
  }

  lemma EntersInTime(t: State, id: nat, due: nat)
    requires Discipline(t.log) && DueInv(t) && id in t.handlers && t.handlers[id].deadline == due
    ensures forall call: Call, at: nat :: CallEntered(call, at) in t.log && call.id == id ==> call.deadline == due && at < due
  {
    forall call: Call, at: nat | CallEntered(call, at) in t.log && call.id == id ensures call.deadline == due && at < due {
      var i :| 0 <= i < |t.log| && t.log[i] == CallEntered(call, at);
      assert t.log[i].at < t.log[i].call.deadline;
    }
  }

  lemma DeadlineKept(c: Config, t: State, id: nat, due: nat)
    requires Discipline(t.log) && DueInv(t) && id in t.handlers && t.handlers[id].deadline == due
    ensures KeepsDeadline(c, t, id, due)
  {
    EntersInTime(t, id, due);
  }

  lemma ArrivalSetsDeadline(c: Config, s: State, id: nat, conn: nat)
    requires Enabled(c, s, Request(id, Arrive(conn)))
    ensures var t := Step(c, s, Request(id, Arrive(conn)));
      id in t.handlers && t.handlers[id].deadline == s.now + c.requestTimeout
  {}

  /** The state after any run from an arrival: its invariants, and the deadlines of the requests in it. */
  lemma AfterArrival(c: Config, before: seq<Event>, e: Event, after: seq<Event>)
    ensures var s := Step(c, Run(c, Init(c), before), e); var t := Run(c, s, after);
      && Discipline(t.log) && DueInv(t)
      && forall id :: id in s.handlers ==> id in t.handlers && t.handlers[id].deadline == s.handlers[id].deadline
  {
    var s := Run(c, Init(c), before);
    InitInv(c);
    RunInv(c, Init(c), before);
    InvStep(c, s, e);
    RunInv(c, Step(c, s, e), after);
    RunDue(c, Init(c), before);
    DueStep(c, s, e);
    RunDue(c, Step(c, s, e), after);
    assert Inv(c, Run(c, Step(c, s, e), after));
  }

  /** A request has the request timeout from its arrival on, in every run and at each stage it can be in. */
  lemma RequestDeadline(c: Config, before: seq<Event>, id: nat, conn: nat, after: seq<Event>)
    requires Enabled(c, Run(c, Init(c), before), Request(id, Arrive(conn)))
    ensures var s := Run(c, Init(c), before);
      KeepsDeadline(c, Run(c, Step(c, s, Request(id, Arrive(conn))), after), id, s.now + c.requestTimeout)
  {
    var s := Run(c, Init(c), before);
    ArrivalSetsDeadline(c, s, id, conn);
    AfterArrival(c, before, Request(id, Arrive(conn)), after);
    DeadlineKept(c, Run(c, Step(c, s, Request(id, Arrive(conn))), after), id, s.now + c.requestTimeout);
  }

  // ---------------------------------------------------------------- connections

  lemma ConnectionStep(c: Config, s: State, e: Event)
    requires |s.conns| <= 2 * c.capacity || |s.conns| <= 32
    ensures |Step(c, s, e).conns| <= 2 * c.capacity || |Step(c, s, e).conns| <= 32
  {
    if Enabled(c, s, e) {
      match e
      case Host(h) =>
        HostEffect(c, s, h);
        if h.Disconnect? {
          SubsetSize(s.conns - {h.conn}, s.conns);
        }
      case Request(id, r) => RequestEffect(c, s, id, r);
      case Work(w) => WorkEffect(c, s, w);
    }
  }

  lemma {:induction false} ConnectionsBounded(c: Config, s: State, es: seq<Event>)
    requires |s.conns| <= 2 * c.capacity || |s.conns| <= 32
    ensures |Run(c, s, es).conns| <= 2 * c.capacity || |Run(c, s, es).conns| <= 32
    decreases |es|
  {
    if es != [] {
      ConnectionStep(c, s, es[0]);
      ConnectionsBounded(c, Step(c, s, es[0]), es[1..]);
    }
  }

  /**
   * In every run there are at most as many connections as twice the capacity, or 32 if that is more, and
   * below that a new one is accepted until the drain begins. The drain can begin at any time while
   * serving, stop is requested when the last connection is gone, and the grace period may end either wait.
   */
  lemma ServeLoop(c: Config, es: seq<Event>, conn: nat)
    ensures var s := Run(c, Init(c), es);
      && (|s.conns| <= 2 * c.capacity || |s.conns| <= 32)
      && ServesNext(c, s, conn)
  {
    ConnectionsBounded(c, Init(c), es);
    ServeStep(c, Run(c, Init(c), es), conn);
  }

  /** What each step of the serve loop does, and when it does nothing. */
  predicate ServesNext(c: Config, s: State, conn: nat) {
    && (s.serve.Accepting? && conn !in s.conns && (|s.conns| < 2 * c.capacity || |s.conns| < 32) ==>
          Step(c, s, Host(Connect(conn))).conns == s.conns + {conn})
    && (!s.serve.Accepting? ==> Step(c, s, Host(Connect(conn))) == s)
    && (s.serve.Accepting? ==> Step(c, s, Host(Drain)) == s.(serve := Draining))
    && (s.serve.Draining? ==> Step(c, s, Host(SendStop)) == if s.conns == {} then s.(serve := StopSent) else s)
    && ((s.serve.Draining? || s.serve.StopSent?) && !s.worker.Ended? ==>
          Step(c, s, Host(GraceExpired)).worker == Ended(false))
  }

  lemma ServeStep(c: Config, s: State, conn: nat)
    ensures ServesNext(c, s, conn)
  {}

  lemma {:induction false} EnteredAppears(log: seq<GuestEvent>, k: nat)
    requires k < |log| && log[k].CallEntered?
    ensures log[k].call.id in EnteredIds(log)
  {
    if k < |log| - 1 {
      EnteredAppears(log[..|log| - 1], k);
    }
  }

  // ---------------------------------------------------------------- what a requested stop guarantees

  /** No handler is left and none can appear; the worker holds no call it may still enter. */
  ghost predicate Shut(s: State) {
    && (s.serve.StopSent? || s.serve.Forced?)
    && s.conns == {}
    && (forall id :: id in s.handlers ==> !s.handlers[id].phase.Live())
    && !s.worker.Open?
  }

  lemma NobodyLeft(s: State)
    requires DrainInv(s) && s.conns == {}
    ensures forall id :: id in s.handlers ==> !s.handlers[id].phase.Live()
    ensures ReservedHandlers(s.handlers) == {}
  {}

  lemma ShutStep(c: Config, s: State, e: Event)
    requires FifoInv(s) && Shut(s)
    ensures Shut(Step(c, s, e)) && EnteredIds(Step(c, s, e).log) == EnteredIds(s.log)
  {
    if Enabled(c, s, e) {
      match e
      case Host(_) => LogEntries(c, s, e);
      case Request(_, _) => LogEntries(c, s, e);
      case Work(w) => ShutWorkStep(c, s, w);
    }
  }

  lemma ShutWorkStep(c: Config, s: State, w: WorkEvent)
    requires FifoInv(s) && Shut(s) && Enabled(c, s, Work(w))
    ensures var t := Next(c, s, Work(w)); Shut(t) && EnteredIds(t.log) == EnteredIds(s.log)
  {
    LogEntries(c, s, Work(w));
    if s.worker.Received? {
      assert s.enqueued[|s.taken| - 1] == s.worker.call.id;
      assert ResponseClosed(s, s.worker.call.id);
    }
  }

  lemma {:induction false} ShutRun(c: Config, s: State, es: seq<Event>)
    requires Inv(c, s) && Shut(s)
    ensures EnteredIds(Run(c, s, es).log) == EnteredIds(s.log)
    decreases |es|
  {
    if es != [] {
      ShutStep(c, s, es[0]);
      InvStep(c, s, es[0]);
      assert Run(c, s, [es[0]]) == Run(c, Step(c, s, es[0]), []);
      ShutRun(c, Step(c, s, es[0]), es[1..]);
    }
  }

  /**
   * From the moment stop is requested no queued call enters the guest: only a call whose
   * channel the worker had already seen open may still do so.
   */
  lemma {:induction false} NoQueuedCallAfterStop(c: Config, s: State, es: seq<Event>)
    requires Inv(c, s) && StopRequested(s)
    ensures var entered := EnteredIds(Run(c, s, es).log);
      entered == EnteredIds(s.log) || (s.worker.Open? && entered == EnteredIds(s.log) + [s.worker.call.id])
    decreases |es|
  {
    NobodyLeft(s);
    if !s.worker.Open? {
      ShutRun(c, s, es);
    } else if es != [] {
      var e := es[0];
      var t := Step(c, s, e);
      InvStep(c, s, e);
      assert Run(c, s, [e]) == Run(c, t, []);
      OpenAtStop(c, s, e);
      if t.worker.Open? && StopRequested(t) {
        NoQueuedCallAfterStop(c, t, es[1..]);
      } else {
        ShutRun(c, t, es[1..]);
      }
    }
  }

  lemma OpenAtStop(c: Config, s: State, e: Event)
    requires FifoInv(s) && DrainInv(s) && StopRequested(s) && s.worker.Open?
    ensures var t := Step(c, s, e);
      && ((t.worker == s.worker && StopRequested(t) && EnteredIds(t.log) == EnteredIds(s.log)) || Shut(t))
      && (EnteredIds(t.log) == EnteredIds(s.log) || EnteredIds(t.log) == EnteredIds(s.log) + [s.worker.call.id])
  {
    NobodyLeft(s);
    if Enabled(c, s, e) {
      LogEntries(c, s, e);
    }
  }

  /** The work left to a draining worker. */
  function Remaining(s: State): nat {
    4 * |s.mailbox| +
    match s.worker
    case Received(_) => 5
    case Open(_) => 4
    case Running(_) => 3
    case Idle => 2
    case Poisoned(_) => 1
    case Stopping => 1
    case _ => 0
  }

  /** Draining cannot get stuck: until the worker has ended it has a step, and that step reduces the work left. */
  lemma DrainProgress(c: Config, s: State) returns (e: Event)
    requires Inv(c, s) && s.closed && !s.worker.Ended?
    ensures Enabled(c, s, e) && Remaining(Step(c, s, e)) < Remaining(s)
    ensures Step(c, s, e).closed
  {
    NobodyLeft(s);
    var w := match s.worker
      case Idle => if s.mailbox != [] then Receive else BeginStop
      case Received(call) => if ResponseClosed(s, call.id) then SkipClosed else SeeOpen
      case Open(call) => if s.now >= call.deadline then Expire else Enter
      case Running(_) => Fail
      case Poisoned(_) => EndQuietly
      case _ => StopOk;
    e := Work(w);
    DrainWork(c, s, w);
  }

  /** While draining no event adds work, and every step of the worker removes some. */
  lemma DrainMonotone(c: Config, s: State, e: Event)
    requires Inv(c, s) && s.closed
    ensures var t := Step(c, s, e);
      Remaining(t) <= Remaining(s) && (t.worker != s.worker ==> Remaining(t) < Remaining(s))
  {
    NobodyLeft(s);
    if Enabled(c, s, e) {
      match e
      case Host(h) => assert Next(c, s, e).mailbox == s.mailbox;
      case Request(id, r) =>
        assert id in ReservedHandlers(s.handlers) <==> ReservedAt(s.handlers, id);
        assert Next(c, s, e).mailbox == s.mailbox;
      case Work(w) => DrainWork(c, s, w);
    }
  }

  lemma DrainWork(c: Config, s: State, w: WorkEvent)
    requires WorkEnabled(s, w) && s.closed && !s.worker.Spawned? && !s.worker.Starting?
    ensures var t := Next(c, s, Work(w));
      Remaining(t) <= Remaining(s) && (t.worker != s.worker ==> Remaining(t) < Remaining(s))
  {}

  /** The work left once stop is requested, the closing of the mailbox included. */
  function ToStop(s: State): nat {
    Remaining(s) + if s.closed then 0 else 1
  }

  predicate OnlyWork(es: seq<Event>) {
    forall i :: 0 <= i < |es| ==> es[i].Work?
  }

  /** The next step of a worker that is asked to stop and whose calls return. */
  function TowardsStop(s: State): WorkEvent {
    match s.worker
    case Idle => if !s.closed then CloseMailbox else if s.mailbox != [] then Receive else BeginStop
    case Received(call) => if ResponseClosed(s, call.id) then SkipClosed else SeeOpen
    case Open(call) => if s.now >= call.deadline then Expire else Enter
    case Running(_) => Return
    case _ => StopOk
  }

  ghost predicate GoesToStop(c: Config, s: State) {
    var w := TowardsStop(s);
    var t := Step(c, s, Work(w));
    && Enabled(c, s, Work(w)) && ToStop(t) < ToStop(s)
    && StopRequested(t) && t.serve == s.serve
    && (Teardown(t.worker) || (t.worker == Ended(true) && t.log == s.log + [StopReturned]))
  }

  lemma StopStep(c: Config, s: State)
    requires Inv(c, s) && StopRequested(s) && Teardown(s.worker)
    ensures GoesToStop(c, s)
  {
    NobodyLeft(s);
    if s.worker.Idle? {
      IdleGoesToStop(c, s);
    } else {
      BusyGoesToStop(c, s);
    }
  }

  lemma IdleGoesToStop(c: Config, s: State)
    requires StopRequested(s) && s.worker.Idle? && ReservedHandlers(s.handlers) == {}
    ensures GoesToStop(c, s)
  {}

  lemma BusyGoesToStop(c: Config, s: State)
    requires StopRequested(s) && Teardown(s.worker) && !s.worker.Idle? && !s.worker.Spawned? && !s.worker.Starting?
    ensures GoesToStop(c, s)
  {}

  predicate Reaches(c: Config, es: seq<Event>, s: State) {
    s == Run(c, Init(c), es)
  }

  ghost predicate Reachable(c: Config, s: State) {
    exists es :: Reaches(c, es, s)
  }

  lemma ReachableInv(c: Config, s: State)
    requires Reachable(c, s)
    ensures Inv(c, s)
  {
    var es :| Reaches(c, es, s);
    InitInv(c);
    RunInv(c, Init(c), es);
  }

  lemma ReachableStep(c: Config, s: State, e: Event)
    requires Reachable(c, s)
    ensures Reachable(c, Step(c, s, e))
  {
    var es :| Reaches(c, es, s);
    var es', t := Play(c, es, s, e);
    assert Reaches(c, es', t);
  }

  lemma StopRound(c: Config, s: State) returns (e: Event, t: State)
    requires Reachable(c, s) && StopRequested(s) && Teardown(s.worker)
    ensures e.Work? && t == Step(c, s, e) && Reachable(c, t) && ToStop(t) < ToStop(s)
    ensures if Teardown(t.worker) then StopRequested(t) else StoppedWell(t)
  {
    e := Work(TowardsStop(s));
    t := Step(c, s, e);
    ReachableInv(c, s);
    StopStep(c, s);
    ReachableStep(c, s, e);
  }

  /** The worker ended without an error after the stop hook had returned. */
  predicate StoppedWell(s: State) {
    s.worker == Ended(true) && s.log != [] && s.log[|s.log| - 1] == StopReturned
  }

  /**
   * Whenever stop is requested of a worker that has not failed or ended, the worker alone, its calls and
   * its stop hook returning, ends without an error after the stop hook has returned, within as many steps
   * as there is work left.
   */
  lemma {:induction false} StopCompletes(c: Config, s: State) returns (es: seq<Event>)
    requires Reachable(c, s) && StopRequested(s) && Teardown(s.worker)
    ensures OnlyWork(es) && |es| <= ToStop(s)
    ensures StoppedWell(Run(c, s, es))
    decreases ToStop(s)
  {
    var e, t := StopRound(c, s);
    var rest: seq<Event> := [];
    if Teardown(t.worker) {
      rest := StopCompletes(c, t);
    }
    es := [e] + rest;
    RunCons(c, s, e, rest);
  }

  lemma RunCons(c: Config, s: State, e: Event, es: seq<Event>)
    ensures Run(c, s, [e] + es) == Run(c, Step(c, s, e), es)
    ensures Run(c, Step(c, s, e), []) == Step(c, s, e)
  {
    assert ([e] + es)[1..] == es;
  }

  /** When the grace period is over, the worker has ended with an error and nothing runs in the guest any more. */
  lemma GraceEndsTheWorker(c: Config, s: State)
    requires Enabled(c, s, Host(GraceExpired)) && !s.worker.Ended?
    ensures var t := Step(c, s, Host(GraceExpired));
      t.worker == Ended(false) && t.serve == Forced && (Teardown(s.worker) ==> t.log == s.log + [Killed])
  {}

  // ---------------------------------------------------------------- when the watchdog fires

  /** The deadline of what the worker is doing has passed. */
  ghost predicate Overdue(c: Config, s: State) {
    match s.worker
    case Spawned => s.now >= c.startupTimeout
    case Starting => s.now >= c.startupTimeout
    case Running(call) => s.now >= call.deadline
    case Stopping =>
      s.log != [] && s.log[|s.log| - 1].StopBegan? && s.now >= s.log[|s.log| - 1].at + c.shutdownTimeout
    case _ => false
  }

  /** A deadline that no longer applies: that of startup, or of a call that has returned. */
  ghost predicate Outlived(c: Config, log: seq<GuestEvent>, deadline: nat) {
    || deadline == c.startupTimeout
    || exists i :: 0 <= i < |log| - 1 && log[i].CallEntered? && log[i].call.deadline == deadline
                   && log[i + 1] == CallReturned(log[i].call.id)
  }

  /**
   * In every reachable state before the worker fails or ends: the watchdog can fire exactly when the timer
   * holds some published deadline that has passed. An overdue worker can be killed as soon as the timer
   * holds the current one; a worker that is in time can be killed exactly when the timer
   * still holds a deadline that has passed and no longer applies, so never when it holds the published one.
   */
  lemma WatchdogFires(c: Config, es: seq<Event>)
    requires Teardown(Run(c, Init(c), es).worker)
    ensures var s := Run(c, Init(c), es);
      && (Enabled(c, s, Work(Fire)) <==> exists d: nat :: s.seen == Some(d) && d <= s.now && Published(c, s.log, d))
      && (Overdue(c, s) && s.seen == s.watch ==> Enabled(c, s, Work(Fire)))
      && (!Overdue(c, s) ==>
            (Enabled(c, s, Work(Fire)) <==> exists d: nat :: s.seen == Some(d) && d <= s.now && Outlived(c, s.log, d)))
      && (!Overdue(c, s) && s.seen == s.watch ==> !Enabled(c, s, Work(Fire)))
  {
    InitInv(c);
    RunInv(c, Init(c), es);
    var s := Run(c, Init(c), es);
    FiresWhenExpired(c, s);
    CurrentDeadlineApplies(c, s);
    if !Overdue(c, s) && Enabled(c, s, Work(Fire)) {
      ExpiredIsOutlived(c, s, s.seen.value);
    }
  }

  lemma FiresWhenExpired(c: Config, s: State)
    requires Inv(c, s) && Teardown(s.worker)
    ensures Enabled(c, s, Work(Fire)) <==> s.seen.Some? && s.now >= s.seen.value
    ensures s.seen.Some? ==> Published(c, s.log, s.seen.value)
  {}

  lemma CurrentDeadlineApplies(c: Config, s: State)
    requires Inv(c, s) && Teardown(s.worker)
    ensures Overdue(c, s) <==> s.watch.Some? && s.now >= s.watch.value
  {}

  lemma ExpiredIsOutlived(c: Config, s: State, deadline: nat)
    requires Inv(c, s) && Teardown(s.worker) && !Overdue(c, s)
    requires Published(c, s.log, deadline) && deadline <= s.now
    ensures Outlived(c, s.log, deadline)
  {
    if deadline != c.startupTimeout {
      var i :| 0 <= i < |s.log| && ((s.log[i].CallEntered? && s.log[i].call.deadline == deadline)
                                    || (s.log[i].StopBegan? && s.log[i].at + c.shutdownTimeout == deadline));
      LastApplies(s, i);
    }
  }

  /** Before the worker fails or ends, only the last guest event can be an unanswered entry or stop. */
  lemma LastApplies(s: State, i: nat)
    requires GuestInv(s) && Teardown(s.worker) && i < |s.log|
    ensures s.log[i].CallEntered? ==>
      if i == |s.log| - 1 then s.worker == Running(s.log[i].call) else s.log[i + 1] == CallReturned(s.log[i].call.id)
    ensures s.log[i].StopBegan? ==> i == |s.log| - 1 && s.worker.Stopping?
  {
    var last := s.log[|s.log| - 1];
    assert !Fatal(last) by {
      if s.worker.Idle? || s.worker.Received? || s.worker.Open? {
        assert Quiet(s.log);
      }
    }
    assert i < |s.log| - 1 && Fatal(s.log[i + 1]) ==> i + 1 == |s.log| - 1;
  }

  /** Between calls the watchdog kills exactly when its timer still holds an expired deadline of the past. */
  lemma WatchdogBetweenCalls(c: Config, es: seq<Event>)
    requires var w := Run(c, Init(c), es).worker; w.Idle? || w.Received? || w.Open?
    ensures var s := Run(c, Init(c), es);
      && (Enabled(c, s, Work(Fire)) <==> exists d: nat :: s.seen == Some(d) && d <= s.now && Outlived(c, s.log, d))
      && (s.seen == s.watch ==> !Enabled(c, s, Work(Fire)))
  {
    WatchdogFires(c, es);
  }

  /** With its timer at the published deadline it stops a running call exactly from that call's deadline on. */
  lemma WatchdogStopsOverrun(c: Config, es: seq<Event>)
    requires var s := Run(c, Init(c), es); s.worker.Running? && s.seen == s.watch
    ensures var s := Run(c, Init(c), es);
      && (Enabled(c, s, Work(Fire)) <==> s.now >= s.worker.call.deadline)
      && (s.now >= s.worker.call.deadline ==> Step(c, s, Work(Fire)).worker == Ended(false))
  {
    WatchdogFires(c, es);
  }

  // ---------------------------------------------------------------- what does not hold

  lemma {:induction false} RunSplit(c: Config, s: State, es: seq<Event>, more: seq<Event>)
    ensures Run(c, s, es + more) == Run(c, Run(c, s, es), more)
    decreases |es|
  {
    if es == [] {
      assert es + more == more;
    } else {
      assert (es + more)[1..] == es[1..] + more;
      RunSplit(c, Step(c, s, es[0]), es[1..], more);
    }
  }

  lemma Play(c: Config, es: seq<Event>, s: State, e: Event) returns (es': seq<Event>, s': State)
    requires s == Run(c, Init(c), es)
    ensures es' == es + [e] && s' == Step(c, s, e) && s' == Run(c, Init(c), es')
  {
    es', s' := es + [e], Step(c, s, e);
    RunSplit(c, Init(c), es, [e]);
    assert Run(c, s, [e]) == Run(c, s', []);
  }

  /** The service is started and one connection is open. */
  lemma Listening(c: Config) returns (es: seq<Event>, s: State)
    ensures s == Run(c, Init(c), es)
    ensures s == Init(c).(serve := Accepting, conns := {0}, worker := Idle, ready := true, watch := None,
                          log := [StartBegan, StartReturned])
  {
    es, s := [], Init(c);
    es, s := Play(c, es, s, Work(BeginStart));
    es, s := Play(c, es, s, Work(StartOk));
    es, s := Play(c, es, s, Host(BeginServing));
    es, s := Play(c, es, s, Host(Connect(0)));
  }

  function OneHandler(c: Config, p: Phase): map<nat, Handler> {
    map[0 := Handler(0, c.requestTimeout, p)]
  }

  /** A first request is accepted and read. */
  lemma OneCallRead(c: Config) returns (es: seq<Event>, s: State)
    requires c.capacity >= 1
    ensures s == Run(c, Init(c), es)
    ensures s == Init(c).(serve := Accepting, conns := {0}, worker := Idle, ready := true, watch := None,
                          log := [StartBegan, StartReturned], permits := c.capacity - 1, handlers := OneHandler(c, Sending))
  {
    es, s := Listening(c);
    es, s := Play(c, es, s, Request(0, Arrive(0)));
    assert s.handlers == OneHandler(c, Reading);
    es, s := Play(c, es, s, Request(0, BodyRead));
    assert s.handlers == OneHandler(c, Sending);
  }

  /** The one call is popped from the mailbox, and the worker stands at `w`. */
  function OneCall(c: Config, w: Worker): State
    requires c.capacity >= 1
  {
    Init(c).(serve := Accepting, conns := {0}, worker := w, ready := true, watch := None,
             log := [StartBegan, StartReturned], permits := c.capacity - 1, handlers := OneHandler(c, Awaiting),
             enqueued := [0], taken := [0])
  }

  /** It is queued and popped. */
  lemma OneCallQueued(c: Config) returns (es: seq<Event>, s: State)
    requires c.capacity >= 1
    ensures s == Run(c, Init(c), es)
    ensures s == OneCall(c, Received(Call(0, c.requestTimeout)))
  {
    es, s := OneCallRead(c);
    assert ReservedHandlers(s.handlers) == {};
    es, s := Play(c, es, s, Request(0, Reserve));
    assert s.handlers == OneHandler(c, Reserved);
    es, s := Play(c, es, s, Request(0, Push));
    assert s.handlers == OneHandler(c, Awaiting) && s.mailbox == [Call(0, c.requestTimeout)];
    es, s := Play(c, es, s, Work(Receive));
  }

  /** It is inside the guest with the timer armed at its deadline. */
  lemma OneCallRuns(c: Config) returns (es: seq<Event>, s: State)
    requires c.capacity >= 1 && c.requestTimeout >= 1
    ensures s == Run(c, Init(c), es)
    ensures s == OneCall(c, Running(Call(0, c.requestTimeout))).(
      log := [StartBegan, StartReturned, CallEntered(Call(0, c.requestTimeout), 0)],
      watch := Some(c.requestTimeout), seen := Some(c.requestTimeout))
  {
    es, s := OneCallQueued(c);
    es, s := Play(c, es, s, Work(SeeOpen));
    assert s == OneCall(c, Open(Call(0, c.requestTimeout)));
    es, s := Play(c, es, s, Work(Enter));
    assert s.worker == Running(Call(0, c.requestTimeout)) && s.watch == Some(c.requestTimeout);
    es, s := Play(c, es, s, Work(Rearm));
  }

  /** A worker whose call failed can still end without an error, when its loop returns before the failure is polled. */
  lemma FailureCanEndQuietly(c: Config) returns (es: seq<Event>)
    requires c.capacity >= 1 && c.requestTimeout >= 1
    ensures var s := Run(c, Init(c), es);
      s.worker == Ended(true)
      && s.log == [StartBegan, StartReturned, CallEntered(Call(0, c.requestTimeout), 0), CallFailed(0)]
  {
    var s;
    es, s := OneCallRuns(c);
    es, s := Play(c, es, s, Work(Fail));
    es, s := Play(c, es, s, Work(EndQuietly));
  }

  /** The watchdog can kill a guest that has just returned in time: its timer still holds the old deadline. */
  lemma WatchdogCanKillIdleGuest(c: Config) returns (es: seq<Event>)
    requires c.capacity >= 1 && c.requestTimeout >= 1
    ensures var s := Run(c, Init(c), es);
      && s.worker == Ended(false)
      && s.log == [StartBegan, StartReturned, CallEntered(Call(0, c.requestTimeout), 0), CallReturned(0), Killed]
  {
    var s;
    es, s := OneCallRuns(c);
    es, s := Play(c, es, s, Work(Return));
    es, s := Play(c, es, s, Host(Tick(c.requestTimeout)));
    es, s := Play(c, es, s, Work(Fire));
  }

  function TwoHandlers(c: Config, p: Phase): map<nat, Handler> {
    map[0 := Handler(0, c.requestTimeout, Awaiting), 1 := Handler(0, 1 + c.requestTimeout, p)]
  }

  /** The first call runs at time 1 and the second request has come as far as `p`. */
  function TwoCalls(c: Config, p: Phase): State
    requires c.capacity >= 2
  {
    OneCall(c, Running(Call(0, c.requestTimeout))).(
      now := 1, permits := c.capacity - 2, handlers := TwoHandlers(c, p),
      log := [StartBegan, StartReturned, CallEntered(Call(0, c.requestTimeout), 0)],
      watch := Some(c.requestTimeout), seen := Some(c.requestTimeout))
  }

  /** A second request arrives and is read while the first call runs. */
  lemma SecondCallRead(c: Config) returns (es: seq<Event>, s: State)
    requires c.capacity >= 2 && c.requestTimeout >= 2
    ensures s == Run(c, Init(c), es) && s == TwoCalls(c, Sending)
  {
    es, s := OneCallRuns(c);
    es, s := Play(c, es, s, Host(Tick(1)));
    es, s := Play(c, es, s, Request(1, Arrive(0)));
    assert s.handlers == TwoHandlers(c, Reading);
    es, s := Play(c, es, s, Request(1, BodyRead));
    assert s.handlers == TwoHandlers(c, Sending);
  }

  /** It is queued. */
  lemma SecondCallQueued(c: Config) returns (es: seq<Event>, s: State)
    requires c.capacity >= 2 && c.requestTimeout >= 2
    ensures s == Run(c, Init(c), es)
    ensures s == TwoCalls(c, Awaiting).(mailbox := [Call(1, 1 + c.requestTimeout)], enqueued := [0, 1])
  {
    es, s := SecondCallRead(c);
    assert ReservedHandlers(s.handlers) == {};
    es, s := Play(c, es, s, Request(1, Reserve));
    assert s.handlers == TwoHandlers(c, Reserved);
    es, s := Play(c, es, s, Request(1, Push));
    assert s.handlers == TwoHandlers(c, Awaiting);
  }

  /** The first call returns in time and the worker pops the second and sees its channel open. */
  lemma SecondCallOpen(c: Config) returns (es: seq<Event>, s: State)
    requires c.capacity >= 2 && c.requestTimeout >= 2
    ensures s == Run(c, Init(c), es)
    ensures s.worker == Open(Call(1, 1 + c.requestTimeout))
    ensures s.now == 1 && s.seen == Some(c.requestTimeout)
    ensures s.log == [StartBegan, StartReturned, CallEntered(Call(0, c.requestTimeout), 0), CallReturned(0)]
  {
    es, s := SecondCallQueued(c);
    es, s := Play(c, es, s, Work(Return));
    assert s.worker == Idle && s.mailbox == [Call(1, 1 + c.requestTimeout)];
    es, s := Play(c, es, s, Work(Receive));
    assert !ResponseClosed(s, 1);
    es, s := Play(c, es, s, Work(SeeOpen));
  }

  /**
   * The watchdog can also kill a call that is in time: when the worker returns from one call and enters
   * the next before the timer is rearmed, the timer still holds the deadline of the first.
   */
  lemma WatchdogCanKillNextCall(c: Config) returns (es: seq<Event>)
    requires c.capacity >= 2 && c.requestTimeout >= 2
    ensures var next := Call(1, 1 + c.requestTimeout); var s := Run(c, Init(c), es);
      && s.worker == Running(next) && s.now < next.deadline && Enabled(c, s, Work(Fire))
      && s.log == [StartBegan, StartReturned, CallEntered(Call(0, c.requestTimeout), 0), CallReturned(0),
                   CallEntered(next, c.requestTimeout)]
      && Step(c, s, Work(Fire)).log == s.log + [Killed]
  {
    var s;
    es, s := SecondCallOpen(c);
    es, s := Play(c, es, s, Host(Tick(c.requestTimeout - 1)));
    es, s := Play(c, es, s, Work(Enter));
  }
}
