/**
 * Issuing organization invoices: any number of concurrent calls, each a sequence of awaited
 * repository operations, any of which may be the last one before a crash. The repository is two
 * tables with unique keys that reject conflicting inserts.
 */
module Invoicing {
  import opened Wrappers

  // ---------------------------------------------------------------- tables

  /** `digest` is the content digest, an opaque text of fixed length; `body` is everything else. */
  datatype Invoice = Invoice(id: string, org: string, period: string, digest: string, body: nat)

  /** `status` stands for everything a delivery attempt rewrites. */
  datatype Delivery = Delivery(key: string, payload: Invoice, status: nat)

  /** Rows by primary key. (organization, period) and the idempotency key are unique as well. */
  datatype Tables = Tables(invoices: map<string, Invoice>, deliveries: map<string, Delivery>)

  /** "sha256:" and 64 hexadecimal digits. */
  const DIGEST_LENGTH: nat := 71

  function Key(invoice: Invoice): string {
    "billing.invoice.issued:" + invoice.id + ":" + invoice.digest
  }

  predicate For(invoice: Invoice, org: string, period: string) {
    invoice.org == org && invoice.period == period
  }

  ghost function ByPeriod(t: Tables, org: string, period: string): (r: Option<Invoice>)
    ensures r.None? ==> forall i :: i in t.invoices ==> !For(t.invoices[i], org, period)
    ensures r.Some? ==> r.value in t.invoices.Values && For(r.value, org, period)
  {
    if i :| i in t.invoices && For(t.invoices[i], org, period) then Some(t.invoices[i]) else None
  }

  ghost predicate HasKey(t: Tables, key: string) {
    exists d :: d in t.deliveries && t.deliveries[d].key == key
  }

  ghost predicate InvoiceConflict(t: Tables, invoice: Invoice) {
    invoice.id in t.invoices || ByPeriod(t, invoice.org, invoice.period).Some?
  }

  ghost predicate DeliveryConflict(t: Tables, id: string, key: string) {
    id in t.deliveries || HasKey(t, key)
  }

  // ---------------------------------------------------------------- calls

  /** Where a call is inside the enqueue of its webhook. */
  datatype Stage = Lookup | Create | Recheck

  datatype Phase =
    | Start
    | Compose
    | Insert(invoice: Invoice)
    | Audit(invoice: Invoice)
    | Reread                                             // the catch block, after a conflict error
    | Enqueue(invoice: Invoice, inTry: bool, stage: Stage)
    | Done(invoice: Invoice)
    | Failed

  datatype Call = Call(org: string, period: string, phase: Phase)

  /** What a step cannot determine itself: ids, invoice contents and whether the audit insert conflicts. */
  datatype Choice = Choice(id: string, digest: string, body: nat, deliveryId: string, auditConflict: bool)

  datatype State = State(tables: Tables, calls: seq<Call>)

  datatype Event =
    | Begin(org: string, period: string)
    | Advance(c: nat, choice: Choice)
    | Fail(c: nat)                                       // a crash, or any error that is not a conflict
    | Attempt(delivery: string, status: nat)             // a delivery pass rewrites a row

  ghost function Progress(t: Tables, target: bool, c: Call, x: Choice): (Tables, Phase) {
    match c.phase
    case Start =>
      var existing := ByPeriod(t, c.org, c.period);
      (t, if existing.Some? then Enqueue(existing.value, false, Lookup) else Compose)
    case Compose => (t, Insert(Invoice(x.id, c.org, c.period, x.digest, x.body)))
    case Insert(invoice) =>
      if InvoiceConflict(t, invoice) then (t, Reread)
      else (t.(invoices := t.invoices[invoice.id := invoice]), Audit(invoice))
    case Audit(invoice) => (t, if x.auditConflict then Reread else Enqueue(invoice, true, Lookup))
    case Reread =>
      var raced := ByPeriod(t, c.org, c.period);
      (t, if raced.Some? then Enqueue(raced.value, false, Lookup) else Failed)
    case Enqueue(invoice, inTry, stage) => EnqueueProgress(t, target, invoice, inTry, stage, x.deliveryId)
    case Done(_) => (t, c.phase)
    case Failed => (t, c.phase)
  }

  ghost function EnqueueProgress(t: Tables, target: bool, invoice: Invoice, inTry: bool, stage: Stage, id: string): (Tables, Phase) {
    match stage
    case Lookup => (t, if !target || HasKey(t, Key(invoice)) then Done(invoice) else Enqueue(invoice, inTry, Create))
    case Create =>
      if DeliveryConflict(t, id, Key(invoice)) then (t, Enqueue(invoice, inTry, Recheck))
      else (t.(deliveries := t.deliveries[id := Delivery(Key(invoice), invoice, 0)]), Done(invoice))
    case Recheck => (t, if HasKey(t, Key(invoice)) then Done(invoice) else if inTry then Reread else Failed)
  }

  predicate Enabled(s: State, e: Event) {
    match e
    case Begin(_, _) => true
    case Advance(c, x) => c < |s.calls| && |x.digest| == DIGEST_LENGTH
    case Fail(c) => c < |s.calls| && !s.calls[c].phase.Done?
    case Attempt(d, _) => d in s.tables.deliveries
  }

  ghost function Next(s: State, target: bool, e: Event): State
    requires Enabled(s, e)
  {
    match e
    case Begin(org, period) => s.(calls := s.calls + [Call(org, period, Start)])
    case Advance(c, x) =>
      var (t, phase) := Progress(s.tables, target, s.calls[c], x);
      State(t, s.calls[c := s.calls[c].(phase := phase)])
    case Fail(c) => s.(calls := s.calls[c := s.calls[c].(phase := Failed)])
    case Attempt(d, status) =>
      var row := s.tables.deliveries[d].(status := status);
      s.(tables := s.tables.(deliveries := s.tables.deliveries[d := row]))
  }

  ghost function Step(s: State, target: bool, e: Event): State {
    if Enabled(s, e) then Next(s, target, e) else s
  }

  ghost function Run(s: State, target: bool, es: seq<Event>): State
    decreases |es|
  {
    if es == [] then s else Run(Step(s, target, es[0]), target, es[1..])
  }

  const EMPTY: State := State(Tables(map[], map[]), [])

  // ---------------------------------------------------------------- invariants

  ghost predicate Stored(t: Tables, invoice: Invoice) {
    invoice.id in t.invoices && t.invoices[invoice.id] == invoice
  }

  ghost predicate InvoicesInv(t: Tables) {
    && (forall i :: i in t.invoices ==> t.invoices[i].id == i && |t.invoices[i].digest| == DIGEST_LENGTH)
    && (forall i, j :: i in t.invoices && j in t.invoices && For(t.invoices[i], t.invoices[j].org, t.invoices[j].period) ==> i == j)
  }

  ghost predicate DeliveriesInv(t: Tables) {
    && (forall d :: d in t.deliveries ==> t.deliveries[d].key == Key(t.deliveries[d].payload) && Stored(t, t.deliveries[d].payload))
    && (forall d, e :: d in t.deliveries && e in t.deliveries && t.deliveries[d].key == t.deliveries[e].key ==> d == e)
  }

  ghost predicate CallInv(t: Tables, target: bool, c: Call) {
    match c.phase
    case Insert(invoice) => For(invoice, c.org, c.period) && |invoice.digest| == DIGEST_LENGTH
    case Audit(invoice) => For(invoice, c.org, c.period) && Stored(t, invoice)
    case Enqueue(invoice, _, _) => For(invoice, c.org, c.period) && Stored(t, invoice)
    case Done(invoice) => For(invoice, c.org, c.period) && Stored(t, invoice) && (target ==> HasKey(t, Key(invoice)))
    case _ => true
  }

  ghost predicate Inv(s: State, target: bool) {
    && InvoicesInv(s.tables)
    && DeliveriesInv(s.tables)
    && (forall c :: 0 <= c < |s.calls| ==> CallInv(s.tables, target, s.calls[c]))
  }

  /** Rows are never lost and keep all that identifies them. */
  ghost predicate Grows(t: Tables, u: Tables) {
    && (forall i :: i in t.invoices ==> i in u.invoices && u.invoices[i] == t.invoices[i])
    && (forall d :: d in t.deliveries ==>
          d in u.deliveries && u.deliveries[d].key == t.deliveries[d].key && u.deliveries[d].payload == t.deliveries[d].payload)
  }

  lemma InvoiceInserted(t: Tables, invoice: Invoice)
    requires InvoicesInv(t) && DeliveriesInv(t) && |invoice.digest| == DIGEST_LENGTH && !InvoiceConflict(t, invoice)
    ensures var u := t.(invoices := t.invoices[invoice.id := invoice]);
      InvoicesInv(u) && DeliveriesInv(u) && Grows(t, u)
  {
    var u := t.(invoices := t.invoices[invoice.id := invoice]);
    forall i | i in t.invoices ensures !For(t.invoices[i], invoice.org, invoice.period) {}
    forall d | d in t.deliveries ensures Stored(u, t.deliveries[d].payload) {}
  }

  lemma DeliveryInserted(t: Tables, id: string, invoice: Invoice)
    requires InvoicesInv(t) && DeliveriesInv(t) && Stored(t, invoice) && !DeliveryConflict(t, id, Key(invoice))
    ensures var u := t.(deliveries := t.deliveries[id := Delivery(Key(invoice), invoice, 0)]);
      InvoicesInv(u) && DeliveriesInv(u) && Grows(t, u)
  {
    forall d | d in t.deliveries ensures t.deliveries[d].key != Key(invoice) {}
  }

  lemma ProgressKeepsTables(t: Tables, target: bool, c: Call, x: Choice)
    requires InvoicesInv(t) && DeliveriesInv(t) && CallInv(t, target, c)
    ensures var u := Progress(t, target, c, x).0; InvoicesInv(u) && DeliveriesInv(u) && Grows(t, u)
  {
    match c.phase
    case Insert(invoice) =>
      if !InvoiceConflict(t, invoice) {
        InvoiceInserted(t, invoice);
      }
    case Enqueue(invoice, _, Create) =>
      if !DeliveryConflict(t, x.deliveryId, Key(invoice)) {
        DeliveryInserted(t, x.deliveryId, invoice);
      }
    case _ =>
  }

  lemma ProgressKeepsCall(t: Tables, target: bool, c: Call, x: Choice)
    requires InvoicesInv(t) && CallInv(t, target, c) && |x.digest| == DIGEST_LENGTH
    ensures var (u, phase) := Progress(t, target, c, x); CallInv(u, target, c.(phase := phase))
  {
    var (u, phase) := Progress(t, target, c, x);
    if c.phase.Enqueue? && c.phase.stage.Create? && phase.Done? {
      assert x.deliveryId in u.deliveries && u.deliveries[x.deliveryId].key == Key(c.phase.invoice);
    }
  }

  lemma GrowthKeepsCall(t: Tables, u: Tables, target: bool, c: Call)
    requires Grows(t, u) && CallInv(t, target, c)
    ensures CallInv(u, target, c)
  {
    if c.phase.Done? && target {
      var d :| d in t.deliveries && t.deliveries[d].key == Key(c.phase.invoice);
      assert d in u.deliveries && u.deliveries[d].key == Key(c.phase.invoice);
    }
  }

  lemma InvStep(s: State, target: bool, e: Event)
    requires Inv(s, target)
    ensures Inv(Step(s, target, e), target) && Grows(s.tables, Step(s, target, e).tables)
  {
    if Enabled(s, e) {
      var n := Next(s, target, e);
      if e.Advance? {
        ProgressKeepsTables(s.tables, target, s.calls[e.c], e.choice);
        ProgressKeepsCall(s.tables, target, s.calls[e.c], e.choice);
      }
      assert Grows(s.tables, n.tables);
      forall k | 0 <= k < |n.calls| ensures CallInv(n.tables, target, n.calls[k]) {
        if k < |s.calls| {
          GrowthKeepsCall(s.tables, n.tables, target, s.calls[k]);
        }
      }
    }
  }

  lemma {:induction false} RunInv(s: State, target: bool, es: seq<Event>)
    requires Inv(s, target)
    ensures Inv(Run(s, target, es), target) && Grows(s.tables, Run(s, target, es).tables)
    decreases |es|
  {
    if es != [] {
      InvStep(s, target, es[0]);
      RunInv(Step(s, target, es[0]), target, es[1..]);
    }
  }

  // ---------------------------------------------------------------- what holds of every run

  /** Keys of invoices with different ids differ, because the digest has a fixed length. */
  lemma KeysAreDistinct(a: Invoice, b: Invoice)
    requires |a.digest| == |b.digest| && Key(a) == Key(b)
    ensures a.id == b.id && a.digest == b.digest
  {
    var n := |"billing.invoice.issued:"|;
    assert |Key(a)| == n + |a.id| + 1 + |a.digest|;
    assert a.id == Key(a)[n..n + |a.id|];
    assert b.id == Key(b)[n..n + |b.id|];
    assert a.digest == Key(a)[n + |a.id| + 1..];
    assert b.digest == Key(b)[n + |b.id| + 1..];
  }

  /** At most one invoice per organization and period, and at most one delivery per invoice. */
  lemma InvoicedOnce(target: bool, es: seq<Event>)
    ensures var t := Run(EMPTY, target, es).tables;
      && (forall i, j :: i in t.invoices && j in t.invoices && For(t.invoices[i], t.invoices[j].org, t.invoices[j].period) ==> i == j)
      && (forall d, e :: d in t.deliveries && e in t.deliveries && t.deliveries[d].payload.id == t.deliveries[e].payload.id ==> d == e)
      && |t.deliveries| <= |t.invoices|
  {
    RunInv(EMPTY, target, es);
    var t := Run(EMPTY, target, es).tables;
    DeliveriesFit(t);
  }

  lemma DeliveriesFit(t: Tables)
    requires DeliveriesInv(t) && InvoicesInv(t)
    ensures |t.deliveries| <= |t.invoices|
  {
    var payloadId := (d: string) => if d in t.deliveries then t.deliveries[d].payload.id else "";
    forall d, e | d in t.deliveries && e in t.deliveries && payloadId(d) == payloadId(e) ensures d == e {
      PayloadTellsDelivery(t, d, e);
    }
    InjectiveImage(t.deliveries.Keys, payloadId);
    SubsetSize(Image(t.deliveries.Keys, payloadId), t.invoices.Keys);
  }

  lemma PayloadTellsDelivery(t: Tables, d: string, e: string)
    requires DeliveriesInv(t) && d in t.deliveries && e in t.deliveries
    ensures t.deliveries[d].payload.id == t.deliveries[e].payload.id ==> d == e
  {
    assert t.deliveries[d].payload == t.deliveries[e].payload ==> t.deliveries[d].key == t.deliveries[e].key;
  }

  /**
   * Whatever the interleaving, crashes and retries: a call that returns an invoice returns the
   * stored one of its organization and period, every other successful call for them returns the
   * same one, and with a target configured its delivery is there, carrying exactly that invoice.
   */
  lemma SuccessMeans(target: bool, es: seq<Event>, c: nat)
    requires var s := Run(EMPTY, target, es); c < |s.calls| && s.calls[c].phase.Done?
    ensures var s := Run(EMPTY, target, es); var call := s.calls[c]; var invoice := call.phase.invoice;
      && ByPeriod(s.tables, call.org, call.period) == Some(invoice)
      && (forall k :: 0 <= k < |s.calls| && s.calls[k].phase.Done? && s.calls[k].org == call.org && s.calls[k].period == call.period ==>
            s.calls[k].phase.invoice == invoice)
      && (target ==> exists d :: d in s.tables.deliveries && s.tables.deliveries[d].key == Key(invoice)
                                 && s.tables.deliveries[d].payload == invoice)
  {
    RunInv(EMPTY, target, es);
    var s := Run(EMPTY, target, es);
    var invoice := s.calls[c].phase.invoice;
    assert CallInv(s.tables, target, s.calls[c]);
    StoredIsFound(s.tables, invoice);
    forall k | 0 <= k < |s.calls| && s.calls[k].phase.Done? && s.calls[k].org == s.calls[c].org && s.calls[k].period == s.calls[c].period
      ensures s.calls[k].phase.invoice == invoice
    {
      assert CallInv(s.tables, target, s.calls[k]);
      StoredIsFound(s.tables, s.calls[k].phase.invoice);
    }
    if target {
      var d :| d in s.tables.deliveries && s.tables.deliveries[d].key == Key(invoice);
      KeysAreDistinct(s.tables.deliveries[d].payload, invoice);
    }
  }

  lemma StoredIsFound(t: Tables, invoice: Invoice)
    requires InvoicesInv(t) && Stored(t, invoice)
    ensures ByPeriod(t, invoice.org, invoice.period) == Some(invoice)
  {
    var r := ByPeriod(t, invoice.org, invoice.period);
    assert For(t.invoices[invoice.id], invoice.org, invoice.period);
    var i :| i in t.invoices && t.invoices[i] == r.value;
    assert i == invoice.id;
  }

  /** An issued invoice never changes afterwards, and later success returns it. */
  lemma IssuedIsFinal(target: bool, es: seq<Event>, more: seq<Event>, i: string, c: nat)
    requires i in Run(EMPTY, target, es).tables.invoices
    ensures var s, u := Run(EMPTY, target, es), Run(Run(EMPTY, target, es), target, more);
      && i in u.tables.invoices && u.tables.invoices[i] == s.tables.invoices[i]
      && (c < |u.calls| && u.calls[c].phase.Done? && For(s.tables.invoices[i], u.calls[c].org, u.calls[c].period) ==>
            u.calls[c].phase.invoice == s.tables.invoices[i])
  {
    RunInv(EMPTY, target, es);
    var s := Run(EMPTY, target, es);
    RunInv(s, target, more);
    var u := Run(s, target, more);
    if c < |u.calls| && u.calls[c].phase.Done? && For(s.tables.invoices[i], u.calls[c].org, u.calls[c].period) {
      assert CallInv(u.tables, target, u.calls[c]);
      StoredIsFound(u.tables, u.calls[c].phase.invoice);
      StoredIsFound(u.tables, u.tables.invoices[i]);
    }
  }

  /** A delivery is new until an attempt is made, and only attempts change it. */
  lemma OnlyAttemptsRewrite(s: State, target: bool, e: Event)
    ensures var before, after := s.tables.deliveries, Step(s, target, e).tables.deliveries;
      && (forall d :: d in before ==> d in after)
      && (forall d :: d in before && !(e.Attempt? && e.delivery == d) ==> after[d] == before[d])
      && (forall d :: d in after && d !in before ==> after[d].status == 0)
      && (e.Attempt? && e.delivery in before ==> after[e.delivery] == before[e.delivery].(status := e.status))
  {}

  /** Without a webhook target nothing is ever enqueued. */
  lemma {:induction false} NoTargetNoDelivery(s: State, es: seq<Event>)
    requires s.tables.deliveries == map[]
    requires forall c :: 0 <= c < |s.calls| && s.calls[c].phase.Enqueue? ==> s.calls[c].phase.stage.Lookup?
    ensures Run(s, false, es).tables.deliveries == map[]
    decreases |es|
  {
    if es != [] {
      NoTargetNoDelivery(Step(s, false, es[0]), es[1..]);
    }
  }

  // ---------------------------------------------------------------- undisturbed calls succeed

  /** Steps that call c takes by itself, with the same choices. */
  function Undisturbed(c: nat, x: Choice, steps: nat): seq<Event> {
    seq(steps, _ => Advance(c, x))
  }

  /**
   * What decides whether a call that runs by itself, with a delivery id nobody uses, will succeed: its
   * invoice id must be free as long as its invoice is to be inserted, its invoice must be there when
   * it goes back to look for it, and so must its delivery when it looks for the last time.
   */
  ghost predicate WillSucceed(t: Tables, c: Call, x: Choice) {
    match c.phase
    case Start => ByPeriod(t, c.org, c.period).Some? || x.id !in t.invoices
    case Compose => ByPeriod(t, c.org, c.period).Some? || x.id !in t.invoices
    case Insert(invoice) => ByPeriod(t, c.org, c.period).Some? || invoice.id !in t.invoices
    case Audit(_) => true
    case Reread => ByPeriod(t, c.org, c.period).Some?
    case Enqueue(invoice, inTry, stage) => stage.Recheck? && !inTry ==> HasKey(t, Key(invoice))
    case Done(_) => true
    case Failed => false
  }

  /** How many steps it still takes at most. */
  ghost function Rank(t: Tables, c: Call, x: Choice): nat {
    var audited := if x.auditConflict then 4 else 3;
    match c.phase
    case Start => audited + 3
    case Compose => audited + 2
    case Insert(_) => audited + 1
    case Audit(_) => audited
    case Reread => 3
    case Enqueue(invoice, inTry, stage) =>
      if stage.Lookup? then 2
      else if stage.Create? then (if HasKey(t, Key(invoice)) then 2 else 1)
      else if inTry && !HasKey(t, Key(invoice)) then 4
      else 1
    case Done(_) => 0
    case Failed => 0
  }

  predicate Ended(p: Phase) { p.Done? || p.Failed? }

  /** The invoice it will return: the stored one, or the one that it composed or will compose. */
  ghost function Expected(t: Tables, c: Call, x: Choice): Invoice {
    var stored := ByPeriod(t, c.org, c.period);
    if stored.Some? then stored.value
    else if c.phase.Insert? then c.phase.invoice
    else Invoice(x.id, c.org, c.period, x.digest, x.body)
  }

  lemma EnqueueDecides(t: Tables, target: bool, c: Call, x: Choice)
    requires InvoicesInv(t) && CallInv(t, target, c) && c.phase.Enqueue? && x.deliveryId !in t.deliveries
    ensures var (u, phase) := Progress(t, target, c, x); var d := c.(phase := phase);
      && u.invoices == t.invoices
      && (WillSucceed(u, d, x) <==> WillSucceed(t, c, x))
      && Rank(u, d, x) < Rank(t, c, x)
      && (!Ended(phase) ==> x.deliveryId !in u.deliveries)
  {
    StoredIsFound(t, c.phase.invoice);
  }

  lemma ProgressDecides(t: Tables, target: bool, c: Call, x: Choice)
    requires InvoicesInv(t) && CallInv(t, target, c) && !Ended(c.phase) && x.deliveryId !in t.deliveries
    ensures var (u, phase) := Progress(t, target, c, x); var d := c.(phase := phase);
      && (WillSucceed(u, d, x) <==> WillSucceed(t, c, x))
      && Rank(u, d, x) < Rank(t, c, x)
      && (!Ended(phase) ==> x.deliveryId !in u.deliveries)
  {
    if c.phase.Enqueue? {
      EnqueueDecides(t, target, c, x);
    } else if c.phase.Audit? {
      StoredIsFound(t, c.phase.invoice);
    }
  }

  lemma ExpectedStays(t: Tables, target: bool, c: Call, x: Choice)
    requires InvoicesInv(t) && CallInv(t, target, c) && WillSucceed(t, c, x)
    requires var u := Progress(t, target, c, x).0; InvoicesInv(u) && Grows(t, u)
    ensures var (u, phase) := Progress(t, target, c, x); Expected(u, c.(phase := phase), x) == Expected(t, c, x)
  {
    var (u, phase) := Progress(t, target, c, x);
    var stored := ByPeriod(t, c.org, c.period);
    if stored.Some? {
      StoredIsFound(u, stored.value);
    } else if c.phase.Insert? {
      assert Stored(u, c.phase.invoice);
      StoredIsFound(u, c.phase.invoice);
    } else if c.phase.Audit? || c.phase.Enqueue? || c.phase.Done? {
      StoredIsFound(t, c.phase.invoice);
    }
  }

  lemma AdvanceIsProgress(s: State, target: bool, c: nat, x: Choice)
    requires Inv(s, target) && c < |s.calls| && |x.digest| == DIGEST_LENGTH
    ensures var n := Step(s, target, Advance(c, x)); var (t, phase) := Progress(s.tables, target, s.calls[c], x);
      && n.tables == t && |n.calls| == |s.calls| && n.calls[c] == s.calls[c].(phase := phase)
      && (!Ended(s.calls[c].phase) && x.deliveryId !in s.tables.deliveries ==>
            && (WillSucceed(n.tables, n.calls[c], x) <==> WillSucceed(s.tables, s.calls[c], x))
            && Rank(n.tables, n.calls[c], x) < Rank(s.tables, s.calls[c], x)
            && (!Ended(phase) ==> x.deliveryId !in n.tables.deliveries))
      && (WillSucceed(s.tables, s.calls[c], x) ==> Expected(n.tables, n.calls[c], x) == Expected(s.tables, s.calls[c], x))
  {
    var call := s.calls[c];
    assert CallInv(s.tables, target, call);
    if !Ended(call.phase) && x.deliveryId !in s.tables.deliveries {
      ProgressDecides(s.tables, target, call, x);
    }
    if WillSucceed(s.tables, call, x) {
      ProgressKeepsTables(s.tables, target, call, x);
      ExpectedStays(s.tables, target, call, x);
    }
  }

  lemma {:induction false} UndisturbedEnds(s: State, target: bool, c: nat, x: Choice, steps: nat)
    requires Inv(s, target) && c < |s.calls| && |x.digest| == DIGEST_LENGTH
    requires Ended(s.calls[c].phase) || x.deliveryId !in s.tables.deliveries
    requires Rank(s.tables, s.calls[c], x) <= steps
    ensures var t := Run(s, target, Undisturbed(c, x, steps));
      && c < |t.calls| && t.calls[c].org == s.calls[c].org && t.calls[c].period == s.calls[c].period
      && (if WillSucceed(s.tables, s.calls[c], x) then t.calls[c].phase == Done(Expected(s.tables, s.calls[c], x))
          else t.calls[c].phase.Failed?)
    decreases steps
  {
    if steps == 0 {
      if s.calls[c].phase.Done? {
        assert CallInv(s.tables, target, s.calls[c]);
        StoredIsFound(s.tables, s.calls[c].phase.invoice);
      }
    } else {
      var es := Undisturbed(c, x, steps);
      assert es[0] == Advance(c, x) && es[1..] == Undisturbed(c, x, steps - 1);
      AdvanceIsProgress(s, target, c, x);
      InvStep(s, target, Advance(c, x));
      UndisturbedEnds(Step(s, target, Advance(c, x)), target, c, x, steps - 1);
    }
  }

  /**
   * Whatever happened before, and wherever its own steps were interrupted by others: a call that goes
   * on by itself ends within seven steps, and it succeeds exactly if `WillSucceed`. It then returns the
   * invoice stored for its organization and period, the one stored before it went on if there was one
   * and else the one it composes, and with a target configured the delivery is there.
   */
  lemma InFlightCallEnds(target: bool, es: seq<Event>, c: nat, x: Choice)
    requires |x.digest| == DIGEST_LENGTH && c < |Run(EMPTY, target, es).calls|
    requires x.deliveryId !in Run(EMPTY, target, es).tables.deliveries
    ensures var s := Run(EMPTY, target, es); var call := s.calls[c];
            var t := Run(s, target, Undisturbed(c, x, 7));
      && c < |t.calls|
      && (if WillSucceed(s.tables, call, x) then t.calls[c].phase == Done(Expected(s.tables, call, x))
          else t.calls[c].phase.Failed?)
      && (t.calls[c].phase.Done? ==>
            && ByPeriod(t.tables, call.org, call.period) == Some(t.calls[c].phase.invoice)
            && (target ==> HasKey(t.tables, Key(t.calls[c].phase.invoice))))
  {
    RunInv(EMPTY, target, es);
    var s := Run(EMPTY, target, es);
    UndisturbedEnds(s, target, c, x, 7);
    RunInv(s, target, Undisturbed(c, x, 7));
    var t := Run(s, target, Undisturbed(c, x, 7));
    if t.calls[c].phase.Done? {
      assert CallInv(t.tables, target, t.calls[c]);
      StoredIsFound(t.tables, t.calls[c].phase.invoice);
    }
  }

  /** The loser of a race: its insert meets an invoice of the same organization and period, and it returns that one. */
  lemma RaceLoserSucceeds(target: bool, es: seq<Event>, c: nat, x: Choice)
    requires |x.digest| == DIGEST_LENGTH && c < |Run(EMPTY, target, es).calls|
    requires x.deliveryId !in Run(EMPTY, target, es).tables.deliveries
    requires var s := Run(EMPTY, target, es);
      (s.calls[c].phase.Insert? || s.calls[c].phase.Reread?) && ByPeriod(s.tables, s.calls[c].org, s.calls[c].period).Some?
    ensures var s := Run(EMPTY, target, es);
            var t := Run(s, target, Undisturbed(c, x, 7));
      c < |t.calls| && t.calls[c].phase == Done(ByPeriod(s.tables, s.calls[c].org, s.calls[c].period).value)
  {
    InFlightCallEnds(target, es, c, x);
  }

  lemma {:induction false} RunThen(s: State, target: bool, es: seq<Event>, e: Event)
    ensures Run(s, target, es + [e]) == Step(Run(s, target, es), target, e)
    decreases |es|
  {
    if es == [] {
      assert [] + [e] == [e];
      assert Run(Step(s, target, e), target, [e][1..]) == Step(s, target, e);
    } else {
      assert (es + [e])[1..] == es[1..] + [e];
      RunThen(Step(s, target, es[0]), target, es[1..], e);
    }
  }

  /**
   * Recovery: after any run, whatever calls crashed in it and wherever, a new call that then runs
   * undisturbed with fresh ids succeeds, whether or not its audit record conflicts. It returns the
   * invoice that was there, or else issues the one it composed.
   */
  lemma RetrySucceeds(target: bool, es: seq<Event>, org: string, period: string, x: Choice)
    requires |x.digest| == DIGEST_LENGTH
    requires var t := Run(EMPTY, target, es).tables; x.id !in t.invoices && x.deliveryId !in t.deliveries
    ensures var s := Run(EMPTY, target, es);
            var c := |s.calls|;
            var t := Run(Run(EMPTY, target, es + [Begin(org, period)]), target, Undisturbed(c, x, 7));
            var invoice :=
              if ByPeriod(s.tables, org, period).Some? then ByPeriod(s.tables, org, period).value
              else Invoice(x.id, org, period, x.digest, x.body);
      && c < |t.calls| && t.calls[c].phase == Done(invoice)
      && ByPeriod(t.tables, org, period) == Some(invoice)
      && (target ==> HasKey(t.tables, Key(invoice)))
  {
    RunThen(EMPTY, target, es, Begin(org, period));
    InFlightCallEnds(target, es + [Begin(org, period)], |Run(EMPTY, target, es).calls|, x);
  }
}
