/** Checkout calls and webhook handlers over one payments table, interleaved wherever the code touches a store or
    waits. */
module PaymentProtocol {
  import opened Common

  datatype Status = Pending | Processing | Succeeded | Failed | Cancelled | Refunded

  datatype Plan = Plan(price: real, durationDays: int)

  const PLANS: map<string, Plan> :=
    map["basic" := Plan(299.0, 30), "premium" := Plan(599.0, 30), "family" := Plan(899.0, 30)]
  const CURRENCY := "RUB"

  datatype Payment = Payment(
    user: string, amount: real, currency: string, status: Status, plan: string, durationDays: int,
    key: Option<string>, providerId: Option<string>, url: Option<string>)

  type Rows = map<nat, Payment>

  /** What the provider answers: its own payment id and, unless the confirmation is missing, the page to send the user
      to. */
  datatype Charge = Charge(id: string, url: Option<string>)

  predicate Complete(charge: Option<Charge>) {
    charge.Some? && charge.value.url.Some?
  }

  /** The row once the answer is written. An answer without its confirmation fails the payment after its id
      was taken. */
  function Billed(p: Payment, charge: Option<Charge>): Payment {
    if charge.None? then p.(status := Failed)
    else if charge.value.url.None? then p.(providerId := Some(charge.value.id), status := Failed)
    else p.(providerId := Some(charge.value.id), url := charge.value.url, status := Pending)
  }

  /** A complete answer puts the payment up for paying under the provider's id; an answer without its confirmation, or a
      failure, fails it, and only the id is kept. Nothing else about it changes. */
  lemma BilledInWords(p: Payment, charge: Option<Charge>)
    ensures var q := Billed(p, charge);
            && q == p.(providerId := q.providerId, url := q.url, status := q.status)
            && q.providerId == (if charge.Some? then Some(charge.value.id) else p.providerId)
            && q.url == (if charge.Some? && charge.value.url.Some? then charge.value.url else p.url)
            && q.status == (if charge.Some? && charge.value.url.Some? then Pending else Failed)
  {}

  // ----- Checkout calls -----

  datatype Phase =
    | Begun                                        // about to ask Redis for the idempotency key
    | Missed                                       // about to insert the row
    | Inserted(id: nat)                            // row committed, provider not yet called
    | Answered(id: nat, charge: Option<Charge>)    // provider called, its answer not yet committed
    | Charged(id: nat)                             // answer committed, key not yet stored in Redis

  datatype Call = Call(user: string, plan: string, key: Option<string>, phase: Phase)

  datatype Receipt = Receipt(key: Option<string>, id: nat)

  datatype Checkout = Checkout(
    cache: map<string, nat>, calls: map<nat, Call>, providerCalls: seq<nat>, returned: seq<Receipt>)

  // ----- Webhook handlers -----

  /** A success handler waiting for the user service, with the payment as it read it. */
  datatype Handler = Handler(id: nat, payment: Payment)

  datatype Invoice = Invoice(id: nat, user: string, plan: string, amount: real, currency: string)

  datatype Hooks = Hooks(
    handlers: map<nat, Handler>, activations: seq<nat>, invoices: seq<Invoice>, failedInvoices: seq<nat>)

  datatype State = State(rows: Rows, checkout: Checkout, hooks: Hooks)

  const START := State(map[], Checkout(map[], map[], [], []), Hooks(map[], [], [], []))

  datatype Step =
    | Begin(call: nat, user: string, plan: string, key: Option<string>)
    | CheckCache(call: nat, redisUp: bool)
    | Insert(call: nat, id: nat)
    | CallProvider(call: nat, charge: Option<Charge>)
    | CommitAnswer(call: nat)
    | StoreKey(call: nat, redisUp: bool)
    | Crash(call: nat)
    | ExpireKey(expired: string)
    | Succeed(handler: nat, id: nat)
    | Resume(handler: nat, inserted: bool)
    | Fail(id: nat)
    | Cancel(id: nat)
    | Refund(id: nat, accepted: bool)

  predicate At(c: Checkout, call: nat, wanted: Phase -> bool) {
    call in c.calls && wanted(c.calls[call].phase)
  }

  /** A webhook finds the payment by its provider id. */
  predicate Found(rows: Rows, id: nat) {
    id in rows && rows[id].providerId.Some?
  }

  predicate Keyed(key: Option<string>) {
    key.Some? && key.value != ""
  }

  predicate Fresh(rows: Rows, charge: Option<Charge>) {
    charge.Some? ==> forall i :: i in rows ==> rows[i].providerId != Some(charge.value.id)
  }

  predicate Enabled(s: State, step: Step) {
    match step
    case Begin(call, _, _, _) => call !in s.checkout.calls
    case CheckCache(call, _) => At(s.checkout, call, (p: Phase) => p.Begun?)
    case Insert(call, id) => At(s.checkout, call, (p: Phase) => p.Missed?) && id !in s.rows
    case CallProvider(call, charge) => At(s.checkout, call, (p: Phase) => p.Inserted?)
    case CommitAnswer(call) =>
      At(s.checkout, call, (p: Phase) => p.Answered?) && s.checkout.calls[call].phase.id in s.rows &&
      Fresh(s.rows, s.checkout.calls[call].phase.charge)
    case StoreKey(call, _) => At(s.checkout, call, (p: Phase) => p.Charged?)
    case Crash(call) => call in s.checkout.calls
    case ExpireKey(_) => true
    case Succeed(h, id) => h !in s.hooks.handlers && Found(s.rows, id)
    case Resume(h, _) => h in s.hooks.handlers
    case Fail(id) => Found(s.rows, id)
    case Cancel(id) => Found(s.rows, id)
    case Refund(id, _) => Found(s.rows, id)
  }

  function NewPayment(c: Call): Payment
    requires c.plan in PLANS
  {
    Payment(c.user, PLANS[c.plan].price, CURRENCY, Pending, c.plan, PLANS[c.plan].durationDays, c.key, None, None)
  }

  /** The unique constraint: several rows without a key are allowed, two rows with one key are not. */
  predicate KeyTaken(rows: Rows, key: Option<string>) {
    key.Some? && exists i :: i in rows && rows[i].key == key
  }

  function Leave(s: State, call: nat): State {
    s.(checkout := s.checkout.(calls := s.checkout.calls - {call}))
  }

  function Move(s: State, call: nat, phase: Phase): State
    requires call in s.checkout.calls
  {
    s.(checkout := s.checkout.(calls := s.checkout.calls[call := s.checkout.calls[call].(phase := phase)]))
  }

  function Return(s: State, call: nat, id: nat): State
    requires call in s.checkout.calls
  {
    var t := Leave(s, call);
    t.(checkout := t.checkout.(returned := t.checkout.returned + [Receipt(s.checkout.calls[call].key, id)]))
  }

  function SetStatus(s: State, id: nat, status: Status): State
    requires id in s.rows
  {
    s.(rows := s.rows[id := s.rows[id].(status := status)])
  }

  function InvoiceOf(h: Handler): Invoice {
    Invoice(h.id, h.payment.user, h.payment.plan, h.payment.amount, h.payment.currency)
  }

  function Apply(s: State, step: Step): State
    requires Enabled(s, step)
  {
    match step
    case Begin(call, user, plan, key) =>
      s.(checkout := s.checkout.(calls := s.checkout.calls[call := Call(user, plan, key, Begun)]))
    case CheckCache(call, redisUp) =>
      var key := s.checkout.calls[call].key;
      if Keyed(key) && redisUp && key.value in s.checkout.cache && s.checkout.cache[key.value] in s.rows
      then Return(s, call, s.checkout.cache[key.value])
      else Move(s, call, Missed)
    case Insert(call, id) =>
      var c := s.checkout.calls[call];
      if c.plan !in PLANS || KeyTaken(s.rows, c.key) then Leave(s, call)
      else Move(s.(rows := s.rows[id := NewPayment(c)]), call, Inserted(id))
    case CallProvider(call, charge) =>
      var id := s.checkout.calls[call].phase.id;
      var t := Move(s, call, Answered(id, charge));
      t.(checkout := t.checkout.(providerCalls := t.checkout.providerCalls + [id]))
    case CommitAnswer(call) =>
      var Answered(id, charge) := s.checkout.calls[call].phase;
      var t := s.(rows := s.rows[id := Billed(s.rows[id], charge)]);
      if Complete(charge) then Move(t, call, Charged(id)) else Leave(t, call)
    case StoreKey(call, redisUp) =>
      var c := s.checkout.calls[call];
      var t := Return(s, call, c.phase.id);
      if Keyed(c.key) && redisUp
      then t.(checkout := t.checkout.(cache := t.checkout.cache[c.key.value := c.phase.id]))
      else t
    case Crash(call) => Leave(s, call)
    case ExpireKey(key) => s.(checkout := s.checkout.(cache := s.checkout.cache - {key}))
    case Succeed(h, id) =>
      if s.rows[id].status == Succeeded then s
      else
        var t := SetStatus(s, id, Succeeded);
        t.(hooks := t.hooks.(handlers := t.hooks.handlers[h := Handler(id, t.rows[id])],
                             activations := t.hooks.activations + [id]))
    case Resume(h, inserted) =>
      var handler := s.hooks.handlers[h];
      var hooks := s.hooks.(handlers := s.hooks.handlers - {h});
      s.(hooks := if inserted then hooks.(invoices := hooks.invoices + [InvoiceOf(handler)])
                  else hooks.(failedInvoices := hooks.failedInvoices + [handler.id]))
    case Fail(id) => SetStatus(s, id, Failed)
    case Cancel(id) => SetStatus(s, id, Cancelled)
    case Refund(id, accepted) => if accepted then SetStatus(s, id, Refunded) else s
  }

  predicate ValidRun(steps: seq<Step>)
    decreases |steps|, 0
  {
    steps == [] || (ValidRun(steps[..|steps| - 1]) && Enabled(Exec(steps[..|steps| - 1]), steps[|steps| - 1]))
  }

  function Exec(steps: seq<Step>): State
    requires ValidRun(steps)
    decreases |steps|, 1
  {
    if steps == [] then START else Apply(Exec(steps[..|steps| - 1]), steps[|steps| - 1])
  }

  // ----- Idempotency -----

  ghost predicate KeysUnique(rows: Rows) {
    forall a, b :: a in rows && b in rows && rows[a].key.Some? && rows[a].key == rows[b].key ==> a == b
  }

  ghost predicate ProviderIdsUnique(rows: Rows) {
    forall a, b ::
      a in rows && b in rows && rows[a].providerId.Some? && rows[a].providerId == rows[b].providerId ==> a == b
  }

  /** The payment can be shown to the user. */
  predicate Ready(rows: Rows, id: nat, key: Option<string>) {
    id in rows && rows[id].key == key && rows[id].providerId.Some? && rows[id].url.Some?
  }

  predicate Owns(c: Call, id: nat) {
    (c.phase.Inserted? || c.phase.Answered? || c.phase.Charged?) && c.phase.id == id
  }

  /** A row no webhook can find is as its insert left it, or failed. */
  predicate Untouched(p: Payment) {
    p.providerId.None? && p.url.None? && p.status == Pending
  }

  predicate CallSound(rows: Rows, providerCalls: seq<nat>, c: Call) {
    match c.phase
    case Inserted(id) => id in rows && rows[id].key == c.key && Untouched(rows[id]) && id !in providerCalls
    case Answered(id, _) => id in rows && rows[id].key == c.key && Untouched(rows[id])
    case Charged(id) => Ready(rows, id, c.key)
    case _ => true
  }

  ghost predicate CallsSound(s: State) {
    && (forall i :: i in s.checkout.calls ==> CallSound(s.rows, s.checkout.providerCalls, s.checkout.calls[i]))
    && (forall i, j, id ::
          i in s.checkout.calls && j in s.checkout.calls &&
          Owns(s.checkout.calls[i], id) && Owns(s.checkout.calls[j], id)
          ==> i == j)
  }

  ghost predicate ProviderCallsSound(s: State) {
    && (forall i :: 0 <= i < |s.checkout.providerCalls| ==> s.checkout.providerCalls[i] in s.rows)
    && (forall i, j :: 0 <= i < j < |s.checkout.providerCalls| ==>
          s.checkout.providerCalls[i] != s.checkout.providerCalls[j])
  }

  ghost predicate AnswersSound(s: State) {
    && (forall k :: k in s.checkout.cache ==> Ready(s.rows, s.checkout.cache[k], Some(k)))
    && (forall r :: r in s.checkout.returned ==> Ready(s.rows, r.id, r.key))
  }

  ghost predicate Sound(s: State) {
    KeysUnique(s.rows) && ProviderIdsUnique(s.rows) && CallsSound(s) && ProviderCallsSound(s) && AnswersSound(s)
  }

  /** What no step ever changes in a row, and what it only ever gains. */
  predicate Grows(before: Payment, after: Payment) {
    && before.(status := after.status, providerId := after.providerId, url := after.url) == after
    && (before.providerId.Some? ==> after.providerId == before.providerId)
    && (before.url.Some? ==> after.url == before.url)
  }

  ghost predicate RowsGrow(before: Rows, after: Rows) {
    forall id :: id in before ==> id in after && Grows(before[id], after[id])
  }

  lemma StepGrowsRows(s: State, step: Step)
    requires Enabled(s, step) && CallsSound(s)
    ensures RowsGrow(s.rows, Apply(s, step).rows)
  {
    if step.CommitAnswer? {
      assert CallSound(s.rows, s.checkout.providerCalls, s.checkout.calls[step.call]);
    }
  }

  /** Keys and provider ids of rows stay as they were, except for one row. */
  lemma OneRowKeepsUnique(rows: Rows, after: Rows, id: nat)
    requires KeysUnique(rows) && ProviderIdsUnique(rows) && id in after && after.Keys == rows.Keys + {id}
    requires forall i :: i in rows && i != id ==>
               after[i].key == rows[i].key && after[i].providerId == rows[i].providerId
    requires after[id].key.Some? ==> forall i :: i in rows && i != id ==> rows[i].key != after[id].key
    requires after[id].providerId.Some? ==>
               forall i :: i in rows && i != id ==> rows[i].providerId != after[id].providerId
    ensures KeysUnique(after) && ProviderIdsUnique(after)
  {}

  lemma InsertKeepsUnique(rows: Rows, id: nat, c: Call)
    requires KeysUnique(rows) && ProviderIdsUnique(rows) && id !in rows && c.plan in PLANS && !KeyTaken(rows, c.key)
    ensures KeysUnique(rows[id := NewPayment(c)]) && ProviderIdsUnique(rows[id := NewPayment(c)])
  {
    OneRowKeepsUnique(rows, rows[id := NewPayment(c)], id);
  }

  lemma AnswerKeepsUnique(rows: Rows, id: nat, charge: Option<Charge>)
    requires KeysUnique(rows) && ProviderIdsUnique(rows) && id in rows && Fresh(rows, charge)
    requires rows[id].providerId.None?
    ensures KeysUnique(rows[id := Billed(rows[id], charge)]) && ProviderIdsUnique(rows[id := Billed(rows[id], charge)])
  {
    OneRowKeepsUnique(rows, rows[id := Billed(rows[id], charge)], id);
  }

  lemma StatusKeepsUnique(rows: Rows, id: nat, status: Status)
    requires KeysUnique(rows) && ProviderIdsUnique(rows) && id in rows
    ensures KeysUnique(rows[id := rows[id].(status := status)])
    ensures ProviderIdsUnique(rows[id := rows[id].(status := status)])
  {
    OneRowKeepsUnique(rows, rows[id := rows[id].(status := status)], id);
  }

  lemma StepKeepsUnique(s: State, step: Step)
    requires Enabled(s, step) && Sound(s)
    ensures KeysUnique(Apply(s, step).rows) && ProviderIdsUnique(Apply(s, step).rows)
  {
    match step
    case Insert(call, id) =>
      var c := s.checkout.calls[call];
      if c.plan in PLANS && !KeyTaken(s.rows, c.key) {
        InsertKeepsUnique(s.rows, id, c);
      }
    case CommitAnswer(call) =>
      var Answered(id, charge) := s.checkout.calls[call].phase;
      assert CallSound(s.rows, s.checkout.providerCalls, s.checkout.calls[call]);
      AnswerKeepsUnique(s.rows, id, charge);
    case Succeed(_, id) => StatusKeepsUnique(s.rows, id, Succeeded);
    case Fail(id) => StatusKeepsUnique(s.rows, id, Failed);
    case Cancel(id) => StatusKeepsUnique(s.rows, id, Cancelled);
    case Refund(id, _) => StatusKeepsUnique(s.rows, id, Refunded);
    case _ =>
  }

  lemma GrowthKeepsAnswers(s: State, rows: Rows)
    requires AnswersSound(s) && RowsGrow(s.rows, rows)
    ensures AnswersSound(s.(rows := rows))
  {
    forall k | k in s.checkout.cache
      ensures Ready(rows, s.checkout.cache[k], Some(k))
    {
      assert Grows(s.rows[s.checkout.cache[k]], rows[s.checkout.cache[k]]);
    }
    forall r | r in s.checkout.returned
      ensures Ready(rows, r.id, r.key)
    {
      assert Grows(s.rows[r.id], rows[r.id]);
    }
  }

  lemma StepKeepsAnswers(s: State, step: Step)
    requires Enabled(s, step) && Sound(s)
    ensures AnswersSound(Apply(s, step))
  {
    StepGrowsRows(s, step);
    GrowthKeepsAnswers(s, Apply(s, step).rows);
    if step.StoreKey? {
      assert CallSound(s.rows, s.checkout.providerCalls, s.checkout.calls[step.call]);
    }
  }

  lemma StepKeepsProviderCalls(s: State, step: Step)
    requires Enabled(s, step) && Sound(s)
    ensures ProviderCallsSound(Apply(s, step))
  {
    StepGrowsRows(s, step);
    if step.CallProvider? {
      assert CallSound(s.rows, s.checkout.providerCalls, s.checkout.calls[step.call]);
    }
  }

  lemma OwnersDiffer(s: State, i: nat, j: nat, id: nat)
    requires CallsSound(s) && i in s.checkout.calls && j in s.checkout.calls && i != j
    requires Owns(s.checkout.calls[j], id)
    ensures !Owns(s.checkout.calls[i], id)
  {}

  /** A call that keeps its phase stays sound when no row it owns changes and no provider call is made for it. */
  lemma BystanderStaysSound(rows: Rows, after: Rows, providerCalls: seq<nat>, more: seq<nat>, c: Call)
    requires CallSound(rows, providerCalls, c) && RowsGrow(rows, after)
    requires forall id :: Owns(c, id) && !c.phase.Charged? && id in rows ==>
               after[id] == rows[id] && (id in more ==> id in providerCalls)
    ensures CallSound(after, more, c)
  {
    match c.phase
    case Inserted(id) => assert Owns(c, id);
    case Answered(id, _) => assert Owns(c, id);
    case Charged(id) => assert Owns(c, id) && Grows(rows[id], after[id]);
    case _ =>
  }

  /** The call a checkout step acts on. */
  function Actor(step: Step): Option<nat> {
    match step
    case Begin(call, _, _, _) => Some(call)
    case CheckCache(call, _) => Some(call)
    case Insert(call, _) => Some(call)
    case CallProvider(call, _) => Some(call)
    case CommitAnswer(call) => Some(call)
    case StoreKey(call, _) => Some(call)
    case Crash(call) => Some(call)
    case _ => None
  }

  /** No step touches the row of a call that is not yet charged, unless it is that call's own step. */
  lemma BystandersKeepTheirRows(s: State, step: Step, i: nat, id: nat)
    requires Enabled(s, step) && CallsSound(s) && i in s.checkout.calls && Actor(step) != Some(i)
    requires Owns(s.checkout.calls[i], id) && !s.checkout.calls[i].phase.Charged?
    ensures id in s.rows && id in Apply(s, step).rows && Apply(s, step).rows[id] == s.rows[id]
    ensures id in Apply(s, step).checkout.providerCalls ==> id in s.checkout.providerCalls
  {
    assert CallSound(s.rows, s.checkout.providerCalls, s.checkout.calls[i]);
    if step.CommitAnswer? || step.CallProvider? {
      OwnersDiffer(s, step.call, i, id);
    }
  }

  lemma ActorStaysSound(s: State, step: Step)
    requires Enabled(s, step) && Sound(s) && Actor(step).Some? && Actor(step).value in Apply(s, step).checkout.calls
    ensures var t := Apply(s, step); CallSound(t.rows, t.checkout.providerCalls, t.checkout.calls[Actor(step).value])
  {
    var call := Actor(step).value;
    if call in s.checkout.calls {
      assert CallSound(s.rows, s.checkout.providerCalls, s.checkout.calls[call]);
    }
  }

  /** A call comes to own a row only by inserting it. */
  lemma OwnershipBegins(s: State, step: Step, i: nat, id: nat)
    requires Enabled(s, step) && i in Apply(s, step).checkout.calls && Owns(Apply(s, step).checkout.calls[i], id)
    ensures (step.Insert? && step.call == i && step.id == id) ||
            (i in s.checkout.calls && Owns(s.checkout.calls[i], id))
  {}

  lemma OwnedRowsExist(s: State, i: nat, id: nat)
    requires Sound(s) && i in s.checkout.calls && Owns(s.checkout.calls[i], id)
    ensures id in s.rows
  {
    assert CallSound(s.rows, s.checkout.providerCalls, s.checkout.calls[i]);
  }

  lemma StepKeepsOwnership(s: State, step: Step, i: nat, j: nat, id: nat)
    requires Enabled(s, step) && Sound(s)
    requires i in Apply(s, step).checkout.calls && j in Apply(s, step).checkout.calls && i != j
    requires Owns(Apply(s, step).checkout.calls[i], id)
    ensures !Owns(Apply(s, step).checkout.calls[j], id)
  {
    if Owns(Apply(s, step).checkout.calls[j], id) {
      OwnershipBegins(s, step, i, id);
      OwnershipBegins(s, step, j, id);
      if i in s.checkout.calls && Owns(s.checkout.calls[i], id) {
        OwnedRowsExist(s, i, id);
      } else {
        OwnedRowsExist(s, j, id);
      }
    }
  }

  lemma StepKeepsCallsSound(s: State, step: Step)
    requires Enabled(s, step) && Sound(s)
    ensures CallsSound(Apply(s, step))
  {
    StepGrowsRows(s, step);
    var t := Apply(s, step);
    forall i | i in t.checkout.calls
      ensures CallSound(t.rows, t.checkout.providerCalls, t.checkout.calls[i])
    {
      if Actor(step) == Some(i) {
        ActorStaysSound(s, step);
      } else {
        forall id | Owns(s.checkout.calls[i], id) && !s.checkout.calls[i].phase.Charged? && id in s.rows
          ensures t.rows[id] == s.rows[id] && (id in t.checkout.providerCalls ==> id in s.checkout.providerCalls)
        {
          BystandersKeepTheirRows(s, step, i, id);
        }
        BystanderStaysSound(s.rows, t.rows, s.checkout.providerCalls, t.checkout.providerCalls, s.checkout.calls[i]);
      }
    }
    forall i, j, id | i in t.checkout.calls && j in t.checkout.calls &&
                    Owns(t.checkout.calls[i], id) && Owns(t.checkout.calls[j], id)
      ensures i == j
    {
      if i != j {
        StepKeepsOwnership(s, step, i, j, id);
      }
    }
  }

  lemma {:induction false} RunIsSound(steps: seq<Step>)
    requires ValidRun(steps)
    ensures Sound(Exec(steps))
  {
    if steps != [] {
      var s, step := Exec(steps[..|steps| - 1]), steps[|steps| - 1];
      RunIsSound(steps[..|steps| - 1]);
      StepKeepsUnique(s, step);
      StepKeepsAnswers(s, step);
      StepKeepsProviderCalls(s, step);
      StepKeepsCallsSound(s, step);
    }
  }

  /** Whatever calls overlap, whatever expires, fails or crashes: one non-empty key has at most one payment row and at
      most one provider call, and all calls that return for it return the same payment, complete with its provider id
      and checkout page. */
  lemma CheckoutIdempotency(steps: seq<Step>, key: string)
    requires ValidRun(steps) && key != ""
    ensures var s := Exec(steps);
            && (forall a, b ::
                  a in s.rows && b in s.rows && s.rows[a].key == Some(key) && s.rows[b].key == Some(key) ==> a == b)
            && (forall i, j :: 0 <= i < j < |s.checkout.providerCalls| ==>
                  var p, q := s.checkout.providerCalls[i], s.checkout.providerCalls[j];
                  p in s.rows && q in s.rows && !(s.rows[p].key == Some(key) && s.rows[q].key == Some(key)))
            && (forall r :: r in s.checkout.returned && r.key == Some(key) ==>
                  r.id in s.rows && s.rows[r.id].providerId.Some? && s.rows[r.id].url.Some?)
            && (forall r, q :: r in s.checkout.returned && q in s.checkout.returned && r.key == q.key == Some(key) ==>
                  r.id == q.id)
  {
    RunIsSound(steps);
  }

  // ----- Webhook accounting -----

  function Count(ids: seq<nat>, id: nat): nat {
    if ids == [] then 0 else
      var n := |ids| - 1;
      Count(ids[..n], id) + if ids[n] == id then 1 else 0
  }

  function InvoiceCount(invoices: seq<Invoice>, id: nat): nat {
    if invoices == [] then 0 else
      var n := |invoices| - 1;
      InvoiceCount(invoices[..n], id) + if invoices[n].id == id then 1 else 0
  }

  /** The success handlers of one payment that wait for the user service. */
  function Waiting(handlers: map<nat, Handler>, id: nat): set<nat> {
    set h | h in handlers && handlers[h].id == id
  }

  predicate HasSucceeded(rows: Rows, id: nat) {
    id in rows && rows[id].status == Succeeded
  }

  /** How often the payment went from some other status to succeeded. */
  function Transitions(steps: seq<Step>, id: nat): nat
    requires ValidRun(steps)
  {
    if steps == [] then 0 else
      var before := steps[..|steps| - 1];
      Transitions(before, id) +
      if !HasSucceeded(Exec(before).rows, id) && HasSucceeded(Exec(steps).rows, id) then 1 else 0
  }

  predicate SamePurchase(p: Payment, q: Payment) {
    p.user == q.user && p.plan == q.plan && p.amount == q.amount && p.currency == q.currency
  }

  predicate Describes(invoice: Invoice, rows: Rows) {
    invoice.id in rows && invoice.user == rows[invoice.id].user && invoice.plan == rows[invoice.id].plan &&
    invoice.amount == rows[invoice.id].amount && invoice.currency == rows[invoice.id].currency
  }

  ghost predicate PaperworkSound(s: State) {
    && (forall h :: h in s.hooks.handlers ==>
          s.hooks.handlers[h].id in s.rows && SamePurchase(s.hooks.handlers[h].payment, s.rows[s.hooks.handlers[h].id]))
    && (forall i :: 0 <= i < |s.hooks.invoices| ==> Describes(s.hooks.invoices[i], s.rows))
  }

  ghost predicate Balanced(s: State, id: nat, transitions: nat) {
    && Count(s.hooks.activations, id) == transitions
    && InvoiceCount(s.hooks.invoices, id) + |Waiting(s.hooks.handlers, id)| +
       Count(s.hooks.failedInvoices, id) == transitions
  }

  lemma CountAppend(ids: seq<nat>, more: nat, id: nat)
    ensures Count(ids + [more], id) == Count(ids, id) + if more == id then 1 else 0
  {
    assert (ids + [more])[..|ids|] == ids;
  }

  lemma InvoiceCountAppend(invoices: seq<Invoice>, more: Invoice, id: nat)
    ensures InvoiceCount(invoices + [more], id) == InvoiceCount(invoices, id) + if more.id == id then 1 else 0
  {
    assert (invoices + [more])[..|invoices|] == invoices;
  }

  lemma OneMoreWaits(handlers: map<nat, Handler>, h: nat, handler: Handler, id: nat)
    requires h !in handlers
    ensures |Waiting(handlers[h := handler], id)| == |Waiting(handlers, id)| + if handler.id == id then 1 else 0
  {
    if handler.id == id {
      assert Waiting(handlers[h := handler], id) == Waiting(handlers, id) + {h};
    } else {
      assert Waiting(handlers[h := handler], id) == Waiting(handlers, id);
    }
  }

  lemma OneLessWaits(handlers: map<nat, Handler>, h: nat, id: nat)
    requires h in handlers
    ensures |Waiting(handlers, id)| == |Waiting(handlers - {h}, id)| + if handlers[h].id == id then 1 else 0
  {
    var rest := handlers - {h};
    assert rest[h := handlers[h]] == handlers;
    OneMoreWaits(rest, h, handlers[h], id);
  }

  lemma SucceedBalances(s: State, h: nat, id: nat, other: nat, transitions: nat)
    requires Enabled(s, Succeed(h, id)) && s.rows[id].status != Succeeded && Balanced(s, other, transitions)
    ensures Balanced(Apply(s, Succeed(h, id)), other, transitions + if id == other then 1 else 0)
  {
    CountAppend(s.hooks.activations, id, other);
    OneMoreWaits(s.hooks.handlers, h, Handler(id, SetStatus(s, id, Succeeded).rows[id]), other);
  }

  lemma ResumeBalances(s: State, h: nat, inserted: bool, other: nat, transitions: nat)
    requires Enabled(s, Resume(h, inserted)) && Balanced(s, other, transitions)
    ensures Balanced(Apply(s, Resume(h, inserted)), other, transitions)
  {
    var handler := s.hooks.handlers[h];
    OneLessWaits(s.hooks.handlers, h, other);
    CountAppend(s.hooks.failedInvoices, handler.id, other);
    InvoiceCountAppend(s.hooks.invoices, InvoiceOf(handler), other);
  }

  /** A step makes a payment succeed exactly when it is a success webhook that finds it in another status. */
  lemma OnlySucceedSucceeds(s: State, step: Step, id: nat)
    requires Enabled(s, step)
    ensures !HasSucceeded(s.rows, id) && HasSucceeded(Apply(s, step).rows, id) <==>
              step.Succeed? && step.id == id && s.rows[id].status != Succeeded
  {}

  lemma StepBalances(s: State, step: Step, id: nat, transitions: nat)
    requires Enabled(s, step) && Balanced(s, id, transitions)
    ensures Balanced(Apply(s, step), id,
                     transitions + if !HasSucceeded(s.rows, id) && HasSucceeded(Apply(s, step).rows, id) then 1 else 0)
  {
    OnlySucceedSucceeds(s, step, id);
    if step.Succeed? && s.rows[step.id].status != Succeeded {
      SucceedBalances(s, step.handler, step.id, id, transitions);
    } else if step.Resume? {
      ResumeBalances(s, step.handler, step.inserted, id, transitions);
    } else {
      assert Apply(s, step).hooks == s.hooks;
    }
  }

  /** For every payment, in every run: the activations issued are its transitions into succeeded, and each of those has
      its invoice, a handler that is still waiting to write it, or a failed insert. */
  lemma {:induction false} WebhookAccounting(steps: seq<Step>, id: nat)
    requires ValidRun(steps)
    ensures Balanced(Exec(steps), id, Transitions(steps, id))
  {
    if steps == [] {
      assert Waiting(map[], id) == {};
    } else {
      var n := |steps| - 1;
      WebhookAccounting(steps[..n], id);
      StepBalances(Exec(steps[..n]), steps[n], id, Transitions(steps[..n], id));
    }
  }

  lemma GrowthKeepsPaperwork(s: State, rows: Rows)
    requires PaperworkSound(s) && RowsGrow(s.rows, rows)
    ensures PaperworkSound(s.(rows := rows))
  {
    forall h | h in s.hooks.handlers
      ensures s.hooks.handlers[h].id in rows && SamePurchase(s.hooks.handlers[h].payment, rows[s.hooks.handlers[h].id])
    {
      assert Grows(s.rows[s.hooks.handlers[h].id], rows[s.hooks.handlers[h].id]);
    }
    forall i | 0 <= i < |s.hooks.invoices|
      ensures Describes(s.hooks.invoices[i], rows)
    {
      assert Describes(s.hooks.invoices[i], s.rows);
      assert Grows(s.rows[s.hooks.invoices[i].id], rows[s.hooks.invoices[i].id]);
    }
  }

  lemma SuccessKeepsPaperwork(s: State, handler: nat, id: nat)
    requires Enabled(s, Succeed(handler, id)) && PaperworkSound(s.(rows := Apply(s, Succeed(handler, id)).rows))
    ensures PaperworkSound(Apply(s, Succeed(handler, id)))
  {}

  lemma ResumeKeepsPaperwork(s: State, handler: nat, inserted: bool)
    requires Enabled(s, Resume(handler, inserted)) && PaperworkSound(s)
    ensures PaperworkSound(Apply(s, Resume(handler, inserted)))
  {}

  lemma StepKeepsPaperwork(s: State, step: Step)
    requires Enabled(s, step) && Sound(s) && PaperworkSound(s)
    ensures PaperworkSound(Apply(s, step))
  {
    StepGrowsRows(s, step);
    GrowthKeepsPaperwork(s, Apply(s, step).rows);
    if step.Succeed? {
      SuccessKeepsPaperwork(s, step.handler, step.id);
    } else if step.Resume? {
      ResumeKeepsPaperwork(s, step.handler, step.inserted);
    } else {
      assert Apply(s, step).hooks == s.hooks;
    }
  }

  /** Every invoice agrees with its payment on user, plan, amount and currency. */
  lemma {:induction false} InvoicesAgreeWithPayments(steps: seq<Step>)
    requires ValidRun(steps)
    ensures PaperworkSound(Exec(steps))
  {
    if steps != [] {
      var n := |steps| - 1;
      InvoicesAgreeWithPayments(steps[..n]);
      RunIsSound(steps[..n]);
      StepKeepsPaperwork(Exec(steps[..n]), steps[n]);
    }
  }

  /** A payment that has left pending never returns to it, though a checkout call writes that status when the provider
      answers: by then no webhook can have found the row. */
  lemma PendingIsLeftForGood(steps: seq<Step>, step: Step, id: nat)
    requires ValidRun(steps) && Enabled(Exec(steps), step)
    requires id in Exec(steps).rows && Exec(steps).rows[id].status != Pending
    ensures id in Apply(Exec(steps), step).rows && Apply(Exec(steps), step).rows[id].status != Pending
  {
    RunIsSound(steps);
    var s := Exec(steps);
    if step.CommitAnswer? {
      assert CallSound(s.rows, s.checkout.providerCalls, s.checkout.calls[step.call]);
    }
  }

  // ----- Where a row comes from -----

  predicate BegunAs(steps: seq<Step>, b: nat, user: string, plan: string, key: Option<string>) {
    b < |steps| && steps[b].Begin? && steps[b].user == user && steps[b].plan == plan && steps[b].key == key
  }

  lemma CallKeepsItsRequest(s: State, step: Step, i: nat)
    requires Enabled(s, step) && i in Apply(s, step).checkout.calls && !(step.Begin? && step.call == i)
    ensures i in s.checkout.calls
    ensures var c, d := s.checkout.calls[i], Apply(s, step).checkout.calls[i];
            c.user == d.user && c.plan == d.plan && c.key == d.key
  {}

  lemma {:induction false} CallWasBegun(steps: seq<Step>, i: nat) returns (b: nat)
    requires ValidRun(steps) && i in Exec(steps).checkout.calls
    ensures var c := Exec(steps).checkout.calls[i]; BegunAs(steps, b, c.user, c.plan, c.key)
  {
    var n := |steps| - 1;
    if steps[n].Begin? && steps[n].call == i {
      b := n;
    } else {
      CallKeepsItsRequest(Exec(steps[..n]), steps[n], i);
      b := CallWasBegun(steps[..n], i);
    }
  }

  /** The price list: basic 299, premium 599, family 899 roubles, each for 30 days. */
  predicate OnThePriceList(p: Payment) {
    && p.currency == "RUB" && p.durationDays == 30
    && ((p.plan == "basic" && p.amount == 299.0) || (p.plan == "premium" && p.amount == 599.0) ||
        (p.plan == "family" && p.amount == 899.0))
  }

  /** Every payment belongs to the user, plan and key that some call began with, at the price of its plan. */
  lemma {:induction false} RowWasBegun(steps: seq<Step>, id: nat) returns (b: nat)
    requires ValidRun(steps) && id in Exec(steps).rows
    ensures var p := Exec(steps).rows[id]; BegunAs(steps, b, p.user, p.plan, p.key) && OnThePriceList(p)
  {
    var n := |steps| - 1;
    var s := Exec(steps[..n]);
    if id in s.rows {
      RunIsSound(steps[..n]);
      StepGrowsRows(s, steps[n]);
      assert Grows(s.rows[id], Exec(steps).rows[id]);
      b := RowWasBegun(steps[..n], id);
    } else {
      b := CallWasBegun(steps[..n], steps[n].call);
    }
  }

  // ----- What its status says -----

  /** A webhook that writes the status of this payment. */
  predicate Hook(step: Step, id: nat) {
    || ((step.Succeed? || step.Fail? || step.Cancel?) && step.id == id)
    || (step.Refund? && step.accepted && step.id == id)
  }

  ghost predicate LastHook(steps: seq<Step>, j: nat, id: nat) {
    j < |steps| && Hook(steps[j], id) && forall i :: j < i < |steps| ==> !Hook(steps[i], id)
  }

  ghost predicate Unhooked(steps: seq<Step>, id: nat) {
    forall i :: 0 <= i < |steps| ==> !Hook(steps[i], id)
  }

  /** What the provider answered for this payment, once a call has committed it; the answer is `None` for a failure. */
  function Committed(steps: seq<Step>, id: nat): Option<Option<Charge>>
    requires ValidRun(steps)
  {
    if steps == [] then None else
      var before, last := steps[..|steps| - 1], steps[|steps| - 1];
      if Answers(Exec(before), last, id) then Some(Exec(before).checkout.calls[last.call].phase.charge)
      else Committed(before, id)
  }

  /** A step that commits an answer for this payment. */
  predicate Answers(s: State, step: Step, id: nat)
    requires Enabled(s, step)
  {
    step.CommitAnswer? && s.checkout.calls[step.call].phase.id == id
  }

  predicate AnswerFailed(steps: seq<Step>, id: nat)
    requires ValidRun(steps)
  {
    var answer := Committed(steps, id);
    answer.Some? && (answer.value.None? || answer.value.value.url.None?)
  }

  /** A webhook only ever finds a payment with a provider id, and a payment keeps that. */
  lemma StepKeepsFound(s: State, step: Step, id: nat)
    requires Enabled(s, step) && CallsSound(s)
    ensures Hook(step, id) || Found(s.rows, id) ==> Found(Apply(s, step).rows, id)
  {
    StepGrowsRows(s, step);
    if Found(s.rows, id) {
      assert Grows(s.rows[id], Apply(s, step).rows[id]);
    }
  }

  lemma {:induction false} HookedIsFound(steps: seq<Step>, id: nat)
    requires ValidRun(steps)
    ensures !Unhooked(steps, id) ==> Found(Exec(steps).rows, id)
  {
    if steps != [] {
      var n := |steps| - 1;
      RunIsSound(steps[..n]);
      StepKeepsFound(Exec(steps[..n]), steps[n], id);
      HookedIsFound(steps[..n], id);
      if !Unhooked(steps, id) && !Hook(steps[n], id) {
        assert !Unhooked(steps[..n], id);
      }
    }
  }

  lemma {:induction false} AnsweredHasRow(steps: seq<Step>, id: nat)
    requires ValidRun(steps) && Committed(steps, id).Some?
    ensures id in Exec(steps).rows
  {
    var n := |steps| - 1;
    if !Answers(Exec(steps[..n]), steps[n], id) {
      AnsweredHasRow(steps[..n], id);
      RunIsSound(steps[..n]);
      StepGrowsRows(Exec(steps[..n]), steps[n]);
    }
  }

  /** The last webhook that wrote this payment's status left it so. */
  ghost predicate HookedTo(steps: seq<Step>, id: nat, status: Status) {
    exists j :: 0 <= j < |steps| && LastHook(steps, j, id) && Leaves(steps[j], status)
  }

  predicate Leaves(step: Step, status: Status) {
    || (step.Succeed? && status == Succeeded)
    || (step.Fail? && status == Failed)
    || (step.Cancel? && status == Cancelled)
    || (step.Refund? && status == Refunded)
  }

  lemma SameLastHook(before: seq<Step>, step: Step, j: nat, id: nat)
    requires j < |before| && !Hook(step, id)
    ensures LastHook(before + [step], j, id) <==> LastHook(before, j, id)
  {
    var steps := before + [step];
    assert forall i :: j <= i < |before| ==> steps[i] == before[i];
    if LastHook(steps, j, id) {
      forall i | j < i < |before|
        ensures !Hook(before[i], id)
      {
        assert !Hook(steps[i], id);
      }
    }
  }

  lemma OneMoreStep(before: seq<Step>, step: Step, id: nat, status: Status)
    ensures HookedTo(before + [step], id, status) <==>
              if Hook(step, id) then Leaves(step, status) else HookedTo(before, id, status)
  {
    var steps := before + [step];
    if Hook(step, id) {
      assert LastHook(steps, |before|, id) && steps[|before|] == step;
    } else {
      if j: nat :| j < |before| && LastHook(before, j, id) && Leaves(before[j], status) {
        SameLastHook(before, step, j, id);
        assert LastHook(steps, j, id) && steps[j] == before[j];
      }
      if j: nat :| j < |steps| && LastHook(steps, j, id) && Leaves(steps[j], status) {
        SameLastHook(before, step, j, id);
        assert steps[j] == before[j];
      }
    }
  }

  lemma UnhookedOneMore(before: seq<Step>, step: Step, id: nat)
    ensures Unhooked(before + [step], id) <==> Unhooked(before, id) && !Hook(step, id)
  {
    var steps := before + [step];
    assert steps[|before|] == step;
    if Unhooked(steps, id) {
      forall i | 0 <= i < |before|
        ensures !Hook(before[i], id)
      {
        assert before[i] == steps[i];
      }
    }
  }

  /** The status after one step: a webhook writes its own, and an answer leaves the payment pending if it is complete
      and failed otherwise. */
  lemma StatusAfterStep(s: State, step: Step, id: nat)
    requires Enabled(s, step) && CallsSound(s) && id in Apply(s, step).rows
    ensures var status := Apply(s, step).rows[id].status;
            && (Hook(step, id) ==> Leaves(step, status))
            && (Answers(s, step, id) ==>
                  && id in s.rows && s.rows[id].providerId.None? && s.rows[id].status == Pending
                  && var charge := s.checkout.calls[step.call].phase.charge;
                     status == if charge.None? || charge.value.url.None? then Failed else Pending)
            && (!Hook(step, id) && !Answers(s, step, id) ==>
                  if id in s.rows then status == s.rows[id].status else status == Pending)
  {
    if Answers(s, step, id) {
      assert CallSound(s.rows, s.checkout.providerCalls, s.checkout.calls[step.call]);
    }
  }

  /** Read off the run: the status of a payment is what the last webhook that wrote it left, and until one does it is
      pending, or failed if the provider's answer was. */
  lemma {:induction false} StatusByHistory(steps: seq<Step>, id: nat, status: Status)
    requires ValidRun(steps) && id in Exec(steps).rows
    ensures Exec(steps).rows[id].status == status <==>
              || HookedTo(steps, id, status)
              || (Unhooked(steps, id) && status == if AnswerFailed(steps, id) then Failed else Pending)
  {
    var n := |steps| - 1;
    var before, s, step := steps[..n], Exec(steps[..n]), steps[n];
    assert steps == before + [step];
    RunIsSound(before);
    StatusAfterStep(s, step, id);
    OneMoreStep(before, step, id, status);
    UnhookedOneMore(before, step, id);
    HookedIsFound(before, id);
    if id in s.rows {
      StatusByHistory(before, id, status);
      StatusByHistory(before, id, Pending);
    } else {
      assert Unhooked(before, id) && !HookedTo(before, id, status);
      if Committed(before, id).Some? {
        AnsweredHasRow(before, id);
      }
    }
  }

  lemma ProviderDataAfterStep(s: State, step: Step, id: nat)
    requires Enabled(s, step) && CallsSound(s) && id in Apply(s, step).rows
    ensures var p := Apply(s, step).rows[id];
            if Answers(s, step, id) then
              var charge := s.checkout.calls[step.call].phase.charge;
              && p.providerId == (if charge.Some? then Some(charge.value.id) else None)
              && p.url == (if charge.Some? then charge.value.url else None)
            else if id in s.rows then p.providerId == s.rows[id].providerId && p.url == s.rows[id].url
            else p.providerId == None && p.url == None
  {
    if Answers(s, step, id) {
      assert CallSound(s.rows, s.checkout.providerCalls, s.checkout.calls[step.call]);
    }
  }

  /** A payment has the provider id and the page of the answer committed for it, and neither before. */
  lemma {:induction false} ProviderDataByHistory(steps: seq<Step>, id: nat)
    requires ValidRun(steps) && id in Exec(steps).rows
    ensures var p, answer := Exec(steps).rows[id], Committed(steps, id);
            && p.providerId == (if answer.Some? && answer.value.Some? then Some(answer.value.value.id) else None)
            && p.url == (if answer.Some? && answer.value.Some? then answer.value.value.url else None)
  {
    var n := |steps| - 1;
    RunIsSound(steps[..n]);
    ProviderDataAfterStep(Exec(steps[..n]), steps[n], id);
    if id in Exec(steps[..n]).rows {
      ProviderDataByHistory(steps[..n], id);
    } else if Committed(steps[..n], id).Some? {
      AnsweredHasRow(steps[..n], id);
    }
  }
}
