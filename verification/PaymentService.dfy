/** The payment service's methods, segment by segment, as steps of the payment protocol. */
module PaymentService {
  import opened Common
  import opened PaymentProtocol

  /** A checkout call that runs with nothing in between: the protocol's steps in their order. */
  function RunCheckout(
    s: State, call: nat, user: string, plan: string, key: Option<string>, readUp: bool, id: nat, charge: Option<Charge>,
    writeUp: bool): State
    requires call !in s.checkout.calls && id !in s.rows && Fresh(s.rows, charge)
  {
    var checked := Apply(Apply(s, Begin(call, user, plan, key)), CheckCache(call, readUp));
    if call in checked.checkout.calls then RunMissed(checked, call, id, charge, writeUp) else checked
  }

  function RunMissed(s: State, call: nat, id: nat, charge: Option<Charge>, writeUp: bool): State
    requires Enabled(s, Insert(call, id)) && Fresh(s.rows, charge)
  {
    var tried := Apply(s, Insert(call, id));
    if call in tried.checkout.calls then RunInserted(tried, call, charge, writeUp) else tried
  }

  function RunInserted(s: State, call: nat, charge: Option<Charge>, writeUp: bool): State
    requires Enabled(s, CallProvider(call, charge)) && s.checkout.calls[call].phase.id in s.rows
    requires Fresh(s.rows, charge)
  {
    var answered := Apply(Apply(s, CallProvider(call, charge)), CommitAnswer(call));
    if call in answered.checkout.calls then Apply(answered, StoreKey(call, writeUp)) else answered
  }

  datatype RefundRequest = RefundRequest(providerId: string, amount: real, currency: string)

  datatype Amount = Absent | Malformed | Value(value: real)

  /** A webhook body: its event, and what the handlers read of its object. */
  datatype Body = Body(event: string, notice: Notice)

  datatype Notice = Notice(id: Option<string>, paymentId: Option<string>, amount: Amount)

  predicate HasProviderId(rows: Rows, providerId: string, i: nat) {
    i in rows && rows[i].providerId == Some(providerId)
  }

  /** A missing or empty provider id names no payment. */
  predicate Named(rows: Rows, providerId: Option<string>, i: nat) {
    providerId.Some? && providerId.value != "" && HasProviderId(rows, providerId.value, i)
  }

  lemma KnownIsNamed(rows: Rows, providerId: Option<string>)
    requires providerId.Some? && providerId.value != ""
    ensures (exists i :: i in rows && HasProviderId(rows, providerId.value, i)) <==>
              exists i :: Named(rows, providerId, i)
  {
    forall i | HasProviderId(rows, providerId.value, i)
      ensures Named(rows, providerId, i)
    {}
  }

  /** An event that changes nothing: its kind is unknown, its amount does not parse, or no payment has its id. */
  ghost predicate Ignored(rows: Rows, event: string, notice: Notice) {
    match event
    case "payment.succeeded" => !exists i :: Named(rows, notice.id, i)
    case "payment.canceled" => !exists i :: Named(rows, notice.id, i)
    case "refund.succeeded" => notice.amount.Malformed? || !exists i :: Named(rows, notice.paymentId, i)
    case _ => true
  }

  /** An amount of zero or none asks for all of it. */
  function RefundOf(p: Payment, providerId: string, amount: Option<real>): RefundRequest {
    RefundRequest(providerId, if amount.Some? && amount.value != 0.0 then amount.value else p.amount, p.currency)
  }

  /** What the segment after the insert leaves behind. */
  lemma InsertedOutcome(s: State, call: nat, charge: Option<Charge>, writeUp: bool)
    requires Enabled(s, CallProvider(call, charge)) && s.checkout.calls[call].phase.id in s.rows
    requires Fresh(s.rows, charge)
    ensures var c, id, t :=
                s.checkout.calls[call], s.checkout.calls[call].phase.id, RunInserted(s, call, charge, writeUp);
            && t.hooks == s.hooks && t.rows == s.rows[id := Billed(s.rows[id], charge)]
            && t.checkout == Checkout(
                 if Complete(charge) && Keyed(c.key) && writeUp then s.checkout.cache[c.key.value := id]
                 else s.checkout.cache,
                 s.checkout.calls - {call}, s.checkout.providerCalls + [id],
                 s.checkout.returned + if Complete(charge) then [Receipt(c.key, id)] else [])
  {
    var id := s.checkout.calls[call].phase.id;
    var called := Apply(s, CallProvider(call, charge));
    assert called.checkout.calls - {call} == s.checkout.calls - {call};
    if Complete(charge) {
      var answered := Apply(called, CommitAnswer(call));
      assert answered.checkout.calls - {call} == s.checkout.calls - {call};
    }
  }

  /** What the segment after a missed idempotency key leaves behind. */
  lemma MissedOutcome(s: State, call: nat, id: nat, charge: Option<Charge>, writeUp: bool)
    requires Enabled(s, Insert(call, id)) && Fresh(s.rows, charge)
    ensures var c, t := s.checkout.calls[call], RunMissed(s, call, id, charge, writeUp);
            if c.plan !in PLANS || KeyTaken(s.rows, c.key) then t == Leave(s, call)
            else
              && t.hooks == s.hooks && t.rows == s.rows[id := Billed(NewPayment(c), charge)]
              && t.checkout == Checkout(
                   if Complete(charge) && Keyed(c.key) && writeUp then s.checkout.cache[c.key.value := id]
                   else s.checkout.cache,
                   s.checkout.calls - {call}, s.checkout.providerCalls + [id],
                   s.checkout.returned + if Complete(charge) then [Receipt(c.key, id)] else [])
  {
    var c := s.checkout.calls[call];
    if c.plan in PLANS && !KeyTaken(s.rows, c.key) {
      var tried := Apply(s, Insert(call, id));
      assert tried.checkout.calls - {call} == s.checkout.calls - {call};
      InsertedOutcome(tried, call, charge, writeUp);
    }
  }

  /** Redis answers the idempotency key with a payment that exists. */
  predicate Hits(s: State, key: Option<string>, readUp: bool) {
    Keyed(key) && readUp && key.value in s.checkout.cache && s.checkout.cache[key.value] in s.rows
  }

  /** An unknown plan, or a key that some row has. */
  predicate Refuses(s: State, plan: string, key: Option<string>) {
    plan !in PLANS || KeyTaken(s.rows, key)
  }

  /** What a whole checkout call answers: a payment, or an exception. */
  function CheckoutAnswer(
    s: State, plan: string, key: Option<string>, readUp: bool, id: nat, charge: Option<Charge>): Option<nat>
  {
    if Hits(s, key, readUp) then Some(s.checkout.cache[key.value])
    else if Refuses(s, plan, key) || !Complete(charge) then None
    else Some(id)
  }

  /** What it leaves behind. */
  function CheckoutEffect(
    s: State, user: string, plan: string, key: Option<string>, readUp: bool, id: nat, charge: Option<Charge>,
    writeUp: bool): State
  {
    var answer := CheckoutAnswer(s, plan, key, readUp, id, charge);
    var returned := s.checkout.returned + if answer.Some? then [Receipt(key, answer.value)] else [];
    if Hits(s, key, readUp) || Refuses(s, plan, key) then s.(checkout := s.checkout.(returned := returned))
    else
      State.State(
        s.rows[id := Billed(NewPayment(Call(user, plan, key, Missed)), charge)],
        Checkout(
          if Complete(charge) && Keyed(key) && writeUp then s.checkout.cache[key.value := id] else s.checkout.cache,
          s.checkout.calls, s.checkout.providerCalls + [id], returned),
        s.hooks)
  }

  /** The payment is this user's, for this plan and key, at 299 roubles for basic, 599 for premium and 899 for family,
      for 30 days. */
  predicate Bought(p: Payment, user: string, plan: string, key: Option<string>) {
    && p.user == user && p.plan == plan && p.key == key && OnThePriceList(p)
  }

  /** In words: a key that Redis remembers for an existing payment is answered with it; an unknown plan, or a key that
      some payment has, is refused; any other call adds one payment and calls the provider once, and a complete answer
      is returned and its key remembered. */
  lemma CheckoutInWords(
    s: State, user: string, plan: string, key: Option<string>, readUp: bool, id: nat, charge: Option<Charge>,
    writeUp: bool)
    ensures var t, r := CheckoutEffect(s, user, plan, key, readUp, id, charge, writeUp),
                        CheckoutAnswer(s, plan, key, readUp, id, charge);
            var remembered := key.Some? && key.value != "" && readUp && key.value in s.checkout.cache &&
                              s.checkout.cache[key.value] in s.rows;
            var refused := plan !in {"basic", "premium", "family"} ||
                           (key.Some? && exists i :: i in s.rows && s.rows[i].key == key);
            var complete := charge.Some? && charge.value.url.Some?;
            && t.hooks == s.hooks && t.checkout.calls == s.checkout.calls
            && (remembered ==> r == Some(s.checkout.cache[key.value]))
            && (!remembered ==> r == if !refused && complete then Some(id) else None)
            && (r.Some? ==> t.checkout.returned == s.checkout.returned + [Receipt(key, r.value)])
            && (r.None? ==> t.checkout.returned == s.checkout.returned)
            && if remembered || refused then
                 t.rows == s.rows && t.checkout.providerCalls == s.checkout.providerCalls &&
                 t.checkout.cache == s.checkout.cache
               else
                 && id in t.rows && t.rows == s.rows[id := t.rows[id]] && Bought(t.rows[id], user, plan, key)
                 && t.rows[id].providerId == (if charge.Some? then Some(charge.value.id) else None)
                 && t.rows[id].url == (if charge.Some? then charge.value.url else None)
                 && t.rows[id].status == (if complete then Pending else Failed)
                 && t.checkout.providerCalls == s.checkout.providerCalls + [id]
                 && t.checkout.cache == if complete && key.Some? && key.value != "" && writeUp
                                        then s.checkout.cache[key.value := id] else s.checkout.cache
  {
    assert s.checkout.returned + [] == s.checkout.returned;
    assert plan !in PLANS <==> plan !in {"basic", "premium", "family"};
  }

  lemma RunCheckoutHasEffect(
    s: State, call: nat, user: string, plan: string, key: Option<string>, readUp: bool, id: nat, charge: Option<Charge>,
    writeUp: bool)
    requires call !in s.checkout.calls && id !in s.rows && Fresh(s.rows, charge)
    ensures RunCheckout(s, call, user, plan, key, readUp, id, charge, writeUp)
            == CheckoutEffect(s, user, plan, key, readUp, id, charge, writeUp)
  {
    var begun := Apply(s, Begin(call, user, plan, key));
    assert begun.checkout.calls - {call} == s.checkout.calls;
    var checked := Apply(begun, CheckCache(call, readUp));
    if call in checked.checkout.calls {
      assert checked.checkout.calls - {call} == s.checkout.calls;
      assert s.checkout.returned + [] == s.checkout.returned;
      MissedOutcome(checked, call, id, charge, writeUp);
    }
  }

  /** A webhook call's answer: 200, 400 or 500. */
  datatype Response = Acknowledged | BadSignature | ServerError

  class PaymentService {
    var rows: Rows
    var idempotency: map<string, nat>
    var providerCalls: seq<nat>
    var handlers: map<nat, Handler>
    var activations: seq<nat>
    var invoices: seq<Invoice>
    var failedInvoices: seq<nat>
    var refunds: seq<RefundRequest>
    ghost var returned: seq<Receipt>

    ghost function State(): State
      reads this
    {
      PaymentProtocol.State.State(
        rows, Checkout(idempotency, map[], providerCalls, returned),
        Hooks(handlers, activations, invoices, failedInvoices))
    }

    constructor ()
      ensures State() == START && refunds == []
    {
      rows, idempotency, providerCalls, handlers := map[], map[], [], map[];
      activations, invoices, failedInvoices, refunds := [], [], [], [];
      returned := [];
    }

    /** A Redis failure reads as a miss. */
    method CheckIdempotencyKey(key: string, redisUp: bool) returns (cached: Option<nat>)
      ensures cached.Some? <==> redisUp && key in idempotency
      ensures cached.Some? ==> cached.value == idempotency[key]
    {
      cached := if redisUp && key in idempotency then Some(idempotency[key]) else None;
    }

    /** A Redis failure is swallowed. */
    method StoreIdempotencyKey(key: string, id: nat, redisUp: bool)
      modifies this`idempotency
      ensures idempotency == if redisUp then old(idempotency)[key := id] else old(idempotency)
    {
      if redisUp {
        idempotency := idempotency[key := id];
      }
    }

    /** Asks the provider for a payment page; a failure is written to the row and raised again. */
    method CreateProviderPayment(id: nat, charge: Option<Charge>) returns (ok: bool)
      requires id in rows
      modifies this`rows, this`providerCalls
      ensures ok == Complete(charge)
      ensures providerCalls == old(providerCalls) + [id]
      ensures rows == old(rows)[id := Billed(old(rows)[id], charge)]
    {
      providerCalls := providerCalls + [id];
      var payment := rows[id];
      if charge.Some? {
        payment := payment.(providerId := Some(charge.value.id));
      }
      ok := charge.Some? && charge.value.url.Some?;
      if ok {
        payment := payment.(url := charge.value.url, status := Pending);
      } else {
        payment := payment.(status := Failed);
      }
      rows := rows[id := payment];
    }

    /** The plan is looked up and the row committed; an unknown plan and a key that is taken are refused. */
    method CreateRecord(user: string, plan: string, key: Option<string>, id: nat) returns (ok: bool)
      requires id !in rows
      modifies this`rows
      ensures ok <==> !Refuses(old(State()), plan, key)
      ensures !ok ==> rows == old(rows)
      ensures ok ==> rows == old(rows)[id := NewPayment(Call(user, plan, key, Missed))]
      ensures ok ==> Bought(rows[id], user, plan, key)
    {
      if plan !in PLANS || KeyTaken(rows, key) {
        return false;
      }
      rows := rows[
        id := Payment(user, PLANS[plan].price, CURRENCY, Pending, plan, PLANS[plan].durationDays, key, None, None)];
      ok := true;
    }

    /** `None` is an exception to the caller. `charge` is what the provider answers, should it be called. */
    method CreateCheckoutSession(
      user: string, plan: string, key: Option<string>, id: nat, readUp: bool, charge: Option<Charge>, writeUp: bool)
      returns (r: Option<nat>)
      requires id !in rows
      modifies this`rows, this`providerCalls, this`idempotency, this`returned
      ensures State() == CheckoutEffect(old(State()), user, plan, key, readUp, id, charge, writeUp)
      ensures r == CheckoutAnswer(old(State()), plan, key, readUp, id, charge)
      ensures refunds == old(refunds)
      ensures !Hits(old(State()), key, readUp) && !Refuses(old(State()), plan, key) ==>
                id in rows && Bought(rows[id], user, plan, key)
    {
      assert returned + [] == returned;
      if Keyed(key) {
        var cached := CheckIdempotencyKey(key.value, readUp);
        if cached.Some? && cached.value in rows {
          assert Hits(State(), key, readUp);
          returned := returned + [Receipt(key, cached.value)];
          return cached;
        }
      }
      assert !Hits(State(), key, readUp);
      var created := CreateRecord(user, plan, key, id);
      if !created {
        return None;
      }
      ghost var payment := rows[id];
      var ok := CreateProviderPayment(id, charge);
      assert rows == old(rows)[id := Billed(payment, charge)];
      if !ok {
        return None;
      }
      if Keyed(key) {
        StoreIdempotencyKey(key.value, id, writeUp);
      }
      returned := returned + [Receipt(key, id)];
      r := Some(id);
    }

    predicate Knows(providerId: string)
      reads this
    {
      exists i :: i in rows && HasProviderId(rows, providerId, i)
    }

    /** Up to the wait for the user service. `Some` is an answer given without waiting. */
    method ProcessSuccessfulPayment(providerId: string, handler: nat) returns (answer: Option<bool>)
      requires handler !in handlers
      modifies this
      ensures !old(Knows(providerId)) ==> answer == Some(false) && State() == old(State())
      ensures old(Knows(providerId)) ==>
                exists i :: HasProviderId(old(rows), providerId, i)
                  && State() == Apply(old(State()), Succeed(handler, i))
                  && rows == old(rows)[i := old(rows)[i].(status := Succeeded)]
                  && if old(rows)[i].status == Succeeded then
                       answer == Some(true) && activations == old(activations) && handlers == old(handlers)
                     else
                       && answer == None && activations == old(activations) + [i]
                       && handlers == old(handlers)[handler := Handler(i, old(rows)[i].(status := Succeeded))]
      ensures refunds == old(refunds)
    {
      if !Knows(providerId) {
        return Some(false);
      }
      var id :| id in rows && HasProviderId(rows, providerId, id);
      if rows[id].status == Succeeded {
        assert State() == Apply(State(), Succeed(handler, id));
        return Some(true);
      }
      rows := rows[id := rows[id].(status := Succeeded)];
      activations := activations + [id];
      handlers := handlers[handler := Handler(id, rows[id])];
      answer := None;
    }

    /** After the wait: the invoice, whose failure is swallowed. */
    method ResumeSuccess(handler: nat, inserted: bool)
      requires handler in handlers
      modifies this
      ensures State() == Apply(old(State()), Resume(handler, inserted))
      ensures refunds == old(refunds)
      ensures var h := old(handlers)[handler];
              if inserted then
                && failedInvoices == old(failedInvoices) && |invoices| == |old(invoices)| + 1
                && invoices[..|old(invoices)|] == old(invoices)
                && var invoice := invoices[|old(invoices)|];
                   && invoice.id == h.id && invoice.user == h.payment.user && invoice.plan == h.payment.plan
                   && invoice.amount == h.payment.amount && invoice.currency == h.payment.currency
              else invoices == old(invoices) && failedInvoices == old(failedInvoices) + [h.id]
    {
      var h := handlers[handler];
      handlers := handlers - {handler};
      if inserted {
        invoices := invoices + [Invoice(h.id, h.payment.user, h.payment.plan, h.payment.amount, h.payment.currency)];
      } else {
        failedInvoices := failedInvoices + [h.id];
      }
    }

    method ProcessFailedPayment(providerId: string) returns (ok: bool)
      modifies this
      ensures ok == old(Knows(providerId))
      ensures !ok ==> State() == old(State())
      ensures ok ==>
                exists i :: HasProviderId(old(rows), providerId, i)
                  && State() == Apply(old(State()), Fail(i))
                  && rows == old(rows)[i := old(rows)[i].(status := Failed)]
      ensures refunds == old(refunds)
    {
      if !Knows(providerId) {
        return false;
      }
      var id :| id in rows && HasProviderId(rows, providerId, id);
      rows := rows[id := rows[id].(status := Failed)];
      ok := true;
    }

    method ProcessCancelledPayment(providerId: string) returns (ok: bool)
      modifies this
      ensures ok == old(Knows(providerId))
      ensures !ok ==> State() == old(State())
      ensures ok ==>
                exists i :: HasProviderId(old(rows), providerId, i)
                  && State() == Apply(old(State()), Cancel(i))
                  && rows == old(rows)[i := old(rows)[i].(status := Cancelled)]
      ensures refunds == old(refunds)
    {
      if !Knows(providerId) {
        return false;
      }
      var id :| id in rows && HasProviderId(rows, providerId, id);
      rows := rows[id := rows[id].(status := Cancelled)];
      ok := true;
    }

    /** An amount that is absent or zero asks the provider for a full refund. */
    method ProcessRefund(providerId: string, amount: Option<real>, accepted: bool) returns (ok: bool)
      modifies this
      ensures ok == (old(Knows(providerId)) && accepted)
      ensures !old(Knows(providerId)) ==> State() == old(State()) && refunds == old(refunds)
      ensures old(Knows(providerId)) ==>
                exists i :: HasProviderId(old(rows), providerId, i)
                  && State() == Apply(old(State()), Refund(i, accepted))
                  && rows == (if accepted then old(rows)[i := old(rows)[i].(status := Refunded)] else old(rows))
                  && refunds == old(refunds) + [RefundOf(old(rows)[i], providerId, amount)]
                  && var asked := refunds[|old(refunds)|];
                     && asked.providerId == providerId && asked.currency == old(rows)[i].currency
                     && (amount.None? || amount == Some(0.0) ==> asked.amount == old(rows)[i].amount)
                     && (amount.Some? && amount != Some(0.0) ==> amount == Some(asked.amount))
    {
      if !Knows(providerId) {
        return false;
      }
      var id :| id in rows && HasProviderId(rows, providerId, id);
      var refundAmount := if amount.Some? && amount.value != 0.0 then amount.value else rows[id].amount;
      refunds := refunds + [RefundRequest(providerId, refundAmount, rows[id].currency)];
      if accepted {
        rows := rows[id := rows[id].(status := Refunded)];
      }
      assert accepted ==> State() == Apply(old(State()), Refund(id, true));
      ok := accepted;
    }

    /** The webhook endpoint up to the first wait. `None` is a body that is not JSON. What a handler finds or fails
        at, and an event it does not know, are all acknowledged. */
    method HandleWebhook(signatureValid: bool, body: Option<Body>, handler: nat, accepted: bool)
      returns (response: Response)
      requires handler !in handlers
      modifies this
      ensures response == if !signatureValid then BadSignature else if body.None? then ServerError else Acknowledged
      ensures response.Acknowledged? && body.value.event == "payment.succeeded" &&
              (exists i :: Named(old(rows), body.value.notice.id, i)) ==>
                refunds == old(refunds) &&
                exists i :: Named(old(rows), body.value.notice.id, i) &&
                  State() == Apply(old(State()), Succeed(handler, i))
      ensures response.Acknowledged? && body.value.event == "payment.canceled" &&
              (exists i :: Named(old(rows), body.value.notice.id, i)) ==>
                refunds == old(refunds) &&
                exists i :: Named(old(rows), body.value.notice.id, i) && State() == Apply(old(State()), Cancel(i))
      ensures response.Acknowledged? && body.value.event == "refund.succeeded" &&
              !body.value.notice.amount.Malformed? &&
              (exists i :: Named(old(rows), body.value.notice.paymentId, i)) ==>
                exists i :: Named(old(rows), body.value.notice.paymentId, i)
                  && State() == Apply(old(State()), Refund(i, accepted))
                  && refunds == old(refunds) + [RefundRequest(
                       body.value.notice.paymentId.value,
                       if body.value.notice.amount == Absent || body.value.notice.amount == Value(0.0)
                       then old(rows)[i].amount else body.value.notice.amount.value,
                       old(rows)[i].currency)]
      ensures !response.Acknowledged? || Ignored(old(rows), body.value.event, body.value.notice) ==>
                State() == old(State()) && refunds == old(refunds)
    {
      if !signatureValid {
        return BadSignature;
      }
      if body.None? {
        return ServerError;
      }
      response := Acknowledged;
      var event, notice := body.value.event, body.value.notice;
      if event == "payment.succeeded" {
        if notice.id.Some? && notice.id.value != "" {
          KnownIsNamed(rows, notice.id);
          var _ := ProcessSuccessfulPayment(notice.id.value, handler);
        }
      } else if event == "payment.canceled" {
        if notice.id.Some? && notice.id.value != "" {
          KnownIsNamed(rows, notice.id);
          var _ := ProcessCancelledPayment(notice.id.value);
        }
      } else if event == "refund.succeeded" {
        if notice.amount.Malformed? {
          return;
        }
        var amount := if notice.amount.Absent? then 0.0 else notice.amount.value;
        if notice.paymentId.Some? && notice.paymentId.value != "" {
          KnownIsNamed(rows, notice.paymentId);
          var _ := ProcessRefund(notice.paymentId.value, Some(amount), accepted);
        }
      }
    }
  }

  lemma Extend(steps: seq<Step>, step: Step) returns (more: seq<Step>)
    requires ValidRun(steps) && Enabled(Exec(steps), step)
    ensures more == steps + [step] && ValidRun(more) && Exec(more) == Apply(Exec(steps), step)
  {
    more := steps + [step];
    assert more[..|steps|] == steps;
  }

  lemma InsertedIsARun(steps: seq<Step>, call: nat, charge: Option<Charge>, writeUp: bool) returns (more: seq<Step>)
    requires ValidRun(steps) && Enabled(Exec(steps), CallProvider(call, charge))
    requires Exec(steps).checkout.calls[call].phase.id in Exec(steps).rows && Fresh(Exec(steps).rows, charge)
    ensures ValidRun(more) && steps <= more && Exec(more) == RunInserted(Exec(steps), call, charge, writeUp)
  {
    more := Extend(steps, CallProvider(call, charge));
    more := Extend(more, CommitAnswer(call));
    if call in Exec(more).checkout.calls {
      more := Extend(more, StoreKey(call, writeUp));
    }
  }

  lemma MissedIsARun(steps: seq<Step>, call: nat, id: nat, charge: Option<Charge>, writeUp: bool)
    returns (more: seq<Step>)
    requires ValidRun(steps) && Enabled(Exec(steps), Insert(call, id)) && Fresh(Exec(steps).rows, charge)
    ensures ValidRun(more) && steps <= more && Exec(more) == RunMissed(Exec(steps), call, id, charge, writeUp)
  {
    more := Extend(steps, Insert(call, id));
    if call in Exec(more).checkout.calls {
      more := InsertedIsARun(more, call, charge, writeUp);
    }
  }

  /** What the class does is a run of the protocol, so every property of runs holds of it. */
  lemma CheckoutIsARun(
    steps: seq<Step>, call: nat, user: string, plan: string, key: Option<string>, readUp: bool, id: nat,
    charge: Option<Charge>, writeUp: bool) returns (more: seq<Step>)
    requires ValidRun(steps)
    requires var s := Exec(steps); call !in s.checkout.calls && id !in s.rows && Fresh(s.rows, charge)
    ensures ValidRun(more) && steps <= more
    ensures Exec(more) == CheckoutEffect(Exec(steps), user, plan, key, readUp, id, charge, writeUp)
  {
    RunCheckoutHasEffect(Exec(steps), call, user, plan, key, readUp, id, charge, writeUp);
    more := Extend(steps, Begin(call, user, plan, key));
    more := Extend(more, CheckCache(call, readUp));
    if call in Exec(more).checkout.calls {
      more := MissedIsARun(more, call, id, charge, writeUp);
    }
  }

  /** A key that was stored is answered with its payment for as long as Redis keeps it. */
  lemma StoredKeyAnswers(
    s: State, user: string, plan: string, key: Option<string>, readUp: bool, id: nat, charge: Option<Charge>,
    retryPlan: string, retryId: nat, retryCharge: Option<Charge>)
    requires Keyed(key) && CheckoutAnswer(s, plan, key, readUp, id, charge).Some?
    ensures var t, answer := CheckoutEffect(s, user, plan, key, readUp, id, charge, true),
                             CheckoutAnswer(s, plan, key, readUp, id, charge);
            CheckoutAnswer(t, retryPlan, key, true, retryId, retryCharge) == answer
  {}

  /** In any run, a retry with a key that already has its payment answers that payment exactly when Redis is up and
      still holds the key; otherwise the unique constraint refuses it. Either way nothing is created, and the provider
      is not called. */
  lemma RetryOutcome(
    steps: seq<Step>, user: string, plan: string, key: string, readUp: bool, id: nat, charge: Option<Charge>,
    writeUp: bool, paid: nat)
    requires ValidRun(steps) && key != "" && paid in Exec(steps).rows && Exec(steps).rows[paid].key == Some(key)
    ensures var s := Exec(steps);
            var answer, t := CheckoutAnswer(s, plan, Some(key), readUp, id, charge),
                             CheckoutEffect(s, user, plan, Some(key), readUp, id, charge, writeUp);
            && (answer == Some(paid) <==> readUp && key in s.checkout.cache)
            && (answer == None <==> !(readUp && key in s.checkout.cache))
            && t.rows == s.rows && t.checkout.providerCalls == s.checkout.providerCalls
            && t.checkout.cache == s.checkout.cache && t.hooks == s.hooks
  {
    RunIsSound(steps);
    var s := Exec(steps);
    if readUp && key in s.checkout.cache {
      assert Ready(s.rows, s.checkout.cache[key], Some(key));
    } else {
      assert KeyTaken(s.rows, Some(key));
    }
  }

  /** The promise fails: a payment was returned for the key, Redis has dropped the key since, and the retry is
      refused. */
  lemma ExpiredKeyRefusesRetry(user: string, plan: string, key: string, id: nat, charge: Charge, retryId: nat)
    returns (steps: seq<Step>)
    requires plan in PLANS && key != "" && charge.url.Some?
    ensures ValidRun(steps) && Exec(steps).checkout.returned == [Receipt(Some(key), id)]
    ensures forall retryCharge :: CheckoutAnswer(Exec(steps), plan, Some(key), true, retryId, retryCharge) == None
  {
    steps := CheckoutIsARun([], 0, user, plan, Some(key), true, id, Some(charge), true);
    var s := Exec(steps);
    assert Exec([]) == START && !KeyTaken(START.rows, Some(key));
    assert s.rows[id].key == Some(key);
    steps := Extend(steps, ExpireKey(key));
    assert KeyTaken(Exec(steps).rows, Some(key));
  }
}
