/// What recording an event is needed for: exactly which deliveries of an event are absorbed, and exactly
/// which ones change something when they are processed a second time.
module BillingRepeats {
  import opened Common
  import opened Billing
  import opened BillingLedger
  import BillingRevival

  /// Everything but the recorded events.
  predicate SameBusiness(s: State, t: State) {
    s.rows == t.rows && s.plans == t.plans && s.invoices == t.invoices && s.log == t.log
  }

  /// Some subscription can be addressed by a delivery at all.
  predicate Addressable(rows: seq<Subscription>) {
    exists i | 0 <= i < |rows| :: rows[i].providerId != "" && rows[i].tenant != ""
  }

  /// Every delivery that carries this id is without effect.
  ghost predicate Absorbs(s: State, eventId: string) {
    forall d: Delivery | d.eventId == eventId :: SameBusiness(s, Deliver(s, d))
  }

  lemma {:induction false} FindsUnique(rows: seq<Subscription>, i: nat)
    requires i < |rows| && forall j, k | 0 <= j < k < |rows| :: rows[j].providerId != rows[k].providerId
    ensures FindByProvider(rows, rows[i].providerId) == Some(i)
  {
    var n := |rows| - 1;
    if i < n {
      FindsUnique(rows[..n], i);
    }
  }

  function HaltNotice(eventId: string, providerId: string): Delivery {
    Delivery(eventId, Halt, None, Some(providerId), None, None, None, None, 2026, None, true)
  }

  lemma HaltCounts(s: State, eventId: string, i: nat)
    requires i < |s.rows| && FindByProvider(s.rows, s.rows[i].providerId) == Some(i)
    requires s.rows[i].providerId != "" && s.rows[i].tenant != "" && eventId !in s.webhooks
    ensures Deliver(s, HaltNotice(eventId, s.rows[i].providerId)).rows[i].attempts == s.rows[i].attempts + 1
  {
  }

  lemma NothingIsRouted(s: State, d: Delivery)
    requires !Addressable(s.rows)
    ensures SameBusiness(s, Deliver(s, d))
  {
    hide ChargedRow;
    var t := TenantOf(s.rows, d);
    if Given(t) && Given(d.providerId) {
      var found := FindByProvider(s.rows, d.providerId.value);
      assert FindOwn(s.rows, t.value, d.providerId.value).None?;
    }
  }

  /// Exactly when an event id is absorbed, whatever its deliveries say: when it has been recorded, or when
  /// there is no subscription that a delivery could address.
  lemma AbsorbedIff(s: State, eventId: string)
    requires RowsConsistent(s.rows)
    ensures Absorbs(s, eventId) <==> eventId in s.webhooks || !Addressable(s.rows)
  {
    if eventId !in s.webhooks {
      if i :| 0 <= i < |s.rows| && s.rows[i].providerId != "" && s.rows[i].tenant != "" {
        FindsUnique(s.rows, i);
        HaltCounts(s, eventId, i);
        assert !SameBusiness(s, Deliver(s, HaltNotice(eventId, s.rows[i].providerId)));
      } else {
        forall d: Delivery | d.eventId == eventId
          ensures SameBusiness(s, Deliver(s, d))
        {
          NothingIsRouted(s, d);
        }
      }
    }
  }

  /// After any run: when one of the id's deliveries could be recorded, or nothing can be addressed.
  lemma AbsorbedAfterIff(actions: seq<Action>, eventId: string)
    ensures Absorbs(Run(actions), eventId) <==> eventId in RecordedBy(actions) || !Addressable(Run(actions).rows)
  {
    hide *;
    RecordedIds(actions);
    RowsStayConsistent(actions);
    AbsorbedIff(Run(actions), eventId);
  }

  // ----- A second processing ------------------------------------------------------------------------------

  predicate NumberFree(invoices: seq<Invoice>, number: InvoiceNumber) {
    forall i | 0 <= i < |invoices| :: invoices[i].number != number
  }

  /// The charge is paid without an invoice of the provider, and both the next number and the one after it
  /// are free: nothing then tells its second invoice from the first.
  predicate BooksTwice(s: State, i: nat, d: Delivery)
    requires i < |s.rows|
  {
    var number := NextInvoiceNumber(s.invoices, s.rows[i].tenant, d.year);
    && PaysInvoice(d) && d.invoiceId.None? && !FaultAt(d, 2) && AmountOf(d, s.rows[i]).Whole?
    && NumberFree(s.invoices, number) && NumberFree(s.invoices, number.(sequence := number.sequence + 1))
  }

  /// `again` repeats the content of a delivery; recording it and its writes may fare differently.
  predicate Repeats(d: Delivery, again: Delivery) {
    again.(recorded := d.recorded, faultAfter := d.faultAfter) == d
  }

  /// A second processing is without effect: the delivery addresses no row, or ends a subscription, or is a
  /// charge that does not book twice. Payment failures and halts always count again.
  predicate Settles(s: State, again: Delivery) {
    var i := BillingRevival.Addressed(s, again);
    i.Some? ==>
      match again.kind
      case Pending => false
      case Halt => false
      case Activation => !BooksTwice(s, i.value, again)
      case Charge => !BooksTwice(s, i.value, again)
      case Cancellation => true
      case Completion => true
      case Other => true
  }

  lemma {:induction false} SameRoute(rows: seq<Subscription>, i: nat, row: Subscription, providerId: string)
    requires i < |rows| && row.providerId == rows[i].providerId && row.tenant == rows[i].tenant
    ensures FindByProvider(rows[i := row], providerId) == FindByProvider(rows, providerId)
  {
    var n := |rows| - 1;
    FrontOfUpdate(rows, i, row);
    if i < n {
      SameRoute(rows[..n], i, row, providerId);
    }
  }

  lemma FrontOfUpdate<T>(s: seq<T>, i: nat, x: T)
    requires i < |s|
    ensures
      var n := |s| - 1;
      s[i := x][..n] == (if i < n then s[..n][i := x] else s[..n]) && s[i := x][n] == if i < n then s[n] else x
  {
  }

  lemma FaultStopsIt(s: State, t: string, providerId: string, d: Delivery)
    requires FaultAt(d, 0) || FindOwn(s.rows, t, providerId).None?
    ensures Handle(s, t, providerId, d).0 == s
  {
    hide FindByProvider;
  }

  /// Whom a delivery reaches, and what it does to the business.
  lemma DeliveryIs(s: State, d: Delivery)
    requires d.eventId !in s.webhooks
    ensures
      var i := BillingRevival.Addressed(s, d);
      if i.None? then SameBusiness(s, Deliver(s, d))
      else
        && Given(d.providerId) && FindOwn(s.rows, s.rows[i.value].tenant, d.providerId.value) == i
        && SameBusiness(Handle(s, s.rows[i.value].tenant, d.providerId.value, d).0, Deliver(s, d))
        && (!d.recorded ==> Handle(s, s.rows[i.value].tenant, d.providerId.value, d).0 == Deliver(s, d))
  {
    hide Handle, FindByProvider, FaultAt;
    var t := TenantOf(s.rows, d);
    if Given(t) && Given(d.providerId) {
      if BillingRevival.Addressed(s, d).None? {
        FaultStopsIt(s, t.value, d.providerId.value, d);
      }
    }
    if d.kind.Other? {
      OthersAreIgnored(s, d);
    }
  }

  lemma OthersAreIgnored(s: State, d: Delivery)
    requires d.kind.Other?
    ensures SameBusiness(s, Deliver(s, d))
    ensures forall t, providerId :: Handle(s, t, providerId, d).0 == s
  {
  }

  // ----- A second charge ----------------------------------------------------------------------------------

  lemma FirstCharge(s: State, t: string, i: nat, d: Delivery)
    requires i < |s.rows| && d.faultAfter.None?
    ensures
      var (s1, amount) := (ChargedRow(s, t, i, d).0, AmountOf(d, s.rows[i]));
      && s1.rows == s.rows[i := s.rows[i].(status := ACTIVE, dunning := NONE, attempts := 0)]
      && s1.plans == s.plans[t := s.rows[i].plan]
      && s1.invoices == if amount.NotWhole? then s.invoices else WithInvoice(s, t, i, amount.n, d).invoices
  {
  }

  lemma SecondCharge(s1: State, t: string, i: nat, again: Delivery)
    requires i < |s1.rows| && t in s1.plans && s1.plans[t] == s1.rows[i].plan && !FaultAt(again, 0)
    requires s1.rows[i].status == ACTIVE && s1.rows[i].dunning == NONE && s1.rows[i].attempts == 0
    ensures
      var amount := AmountOf(again, s1.rows[i]);
      ChargedRow(s1, t, i, again).0
      == if amount.NotWhole? || FaultAt(again, 1) || (PaysInvoice(again) && FaultAt(again, 2)) then s1
         else WithInvoice(s1, t, i, amount.n, again)
  {
    hide WithInvoice;
    assert s1.rows[i := s1.rows[i]] == s1.rows;
    assert s1.plans[t := s1.rows[i].plan] == s1.plans;
  }

  lemma InvoiceAgainIff(s: State, s1: State, t: string, i: nat, amount: int, d: Delivery)
    requires PaysInvoice(d) && s1.invoices == WithInvoice(s, t, i, amount, d).invoices
    ensures
      var number := NextInvoiceNumber(s.invoices, t, d.year);
      WithInvoice(s1, t, i, amount, d) == s1
      <==> !(d.invoiceId.None? && NumberFree(s.invoices, number)
             && NumberFree(s.invoices, number.(sequence := number.sequence + 1)))
  {
    hide Suffix;
    var number := NextInvoiceNumber(s.invoices, t, d.year);
    var invoice := Invoice(t, i, number, amount, d.invoiceId, d.paymentId);
    if Storable(s.invoices, invoice) {
      var grown := s.invoices + [invoice];
      assert grown[..|s.invoices|] == s.invoices;
      assert NextInvoiceNumber(grown, t, d.year) == number.(sequence := number.sequence + 1);
      assert grown[|s.invoices|] == invoice;
      var second := Invoice(t, i, NextInvoiceNumber(grown, t, d.year), amount, d.invoiceId, d.paymentId);
      assert grown + [second] != grown;
      assert Storable(grown, second) <==> d.invoiceId.None? && NumberFree(s.invoices, second.number);
    }
  }

  lemma ChargeAgainIff(s: State, t: string, i: nat, d: Delivery, again: Delivery)
    requires i < |s.rows| && t == s.rows[i].tenant && d.faultAfter.None? && Repeats(d, again) && !FaultAt(again, 0)
    ensures
      var s1 := ChargedRow(s, t, i, d).0;
      i < |s1.rows| && (SameBusiness(s1, ChargedRow(s1, t, i, again).0) <==> !BooksTwice(s, i, again))
  {
    hide ChargedRow, WithInvoice, NextInvoiceNumber, NumberFree;
    FirstCharge(s, t, i, d);
    var s1 := ChargedRow(s, t, i, d).0;
    SecondCharge(s1, t, i, again);
    var amount := AmountOf(again, s1.rows[i]);
    assert amount == AmountOf(d, s.rows[i]);
    if amount.Whole? {
      OnlyInvoices(s, t, i, amount.n, d, again);
      OnlyInvoices(s1, t, i, amount.n, again, again);
      if PaysInvoice(again) {
        InvoiceAgainIff(s, s1, t, i, amount.n, again);
      }
    }
  }

  lemma OnlyInvoices(s: State, t: string, i: nat, amount: int, d: Delivery, again: Delivery)
    requires Repeats(d, again)
    ensures WithInvoice(s, t, i, amount, d) == WithInvoice(s, t, i, amount, again)
    ensures
      var s' := WithInvoice(s, t, i, amount, d);
      s' == s.(invoices := s'.invoices) && (!PaysInvoice(d) ==> s' == s)
  {
    hide NextInvoiceNumber, Storable;
  }

  // ----- The other kinds ------------------------------------------------------------------------------------

  lemma DunnedAgain(s: State, t: string, providerId: string, d: Delivery, again: Delivery)
    requires d.kind.Pending? || d.kind.Halt?
    requires again.kind == d.kind && !FaultAt(again, 0)
    requires FindOwn(s.rows, t, providerId).Some?
    ensures Handle(s, t, providerId, again).0.rows != s.rows
  {
    hide FindOwn;
    var i := FindOwn(s.rows, t, providerId).value;
    assert Handle(s, t, providerId, again).0.rows[i].attempts == s.rows[i].attempts + 1;
  }

  lemma EndedAgain(s: State, t: string, providerId: string, d: Delivery, again: Delivery)
    requires d.kind.Cancellation? || d.kind.Completion?
    requires again.kind == d.kind && d.faultAfter.None?
    ensures
      var s1 := Handle(s, t, providerId, d).0;
      FindOwn(s1.rows, t, providerId) == FindOwn(s.rows, t, providerId) ==> Handle(s1, t, providerId, again).0 == s1
  {
    hide FindOwn;
  }

  lemma HandledKeepsRoute(s: State, t: string, providerId: string, d: Delivery, other: string)
    ensures
      var s1 := Handle(s, t, providerId, d).0;
      && FindByProvider(s1.rows, other) == FindByProvider(s.rows, other)
      && |s1.rows| == |s.rows| && forall i | 0 <= i < |s.rows| :: s1.rows[i].tenant == s.rows[i].tenant
  {
    hide Handle, FindByProvider;
    BillingRevival.HandleTouches(s, t, providerId, d);
    var i := FindOwn(s.rows, t, providerId);
    if i.Some? && !FaultAt(d, 0) {
      SameRoute(s.rows, i.value, BillingRevival.Handled(s.rows[i.value], d.kind), other);
    }
  }

  /// The repeated delivery reaches the same row.
  lemma SameAddress(s: State, d: Delivery, again: Delivery)
    requires d.eventId !in s.webhooks && !d.recorded && d.faultAfter.None? && Repeats(d, again)
    ensures
      var s1 := Deliver(s, d);
      && again.eventId !in s1.webhooks
      && BillingRevival.Addressed(s1, again)
         == (if FaultAt(again, 0) then None else BillingRevival.Addressed(s, d))
      && BillingRevival.Addressed(s, again)
         == (if FaultAt(again, 0) then None else BillingRevival.Addressed(s, d))
  {
    hide Handle, FindByProvider;
    var t, p := TenantOf(s.rows, d), d.providerId;
    if Given(t) && Given(p) {
      HandleLeavesWebhooks(s, t.value, p.value, d);
      HandledKeepsRoute(s, t.value, p.value, d, p.value);
    }
  }

  lemma HandledAgainIff(s: State, t: string, i: nat, d: Delivery, again: Delivery)
    requires i < |s.rows| && t == s.rows[i].tenant && d.providerId.Some?
    requires FindOwn(s.rows, t, d.providerId.value) == Some(i)
    requires d.faultAfter.None? && Repeats(d, again) && !FaultAt(again, 0)
    ensures
      var s1 := Handle(s, t, d.providerId.value, d).0;
      SameBusiness(s1, Handle(s1, t, d.providerId.value, again).0)
      <==> match again.kind
           case Pending => false
           case Halt => false
           case Activation => !BooksTwice(s, i, again)
           case Charge => !BooksTwice(s, i, again)
           case _ => true
  {
    hide Handle, ChargedRow, FindByProvider, BooksTwice;
    var p := d.providerId.value;
    HandledKeepsRoute(s, t, p, d, p);
    var s1 := Handle(s, t, p, d).0;
    match again.kind
    case Pending => DunnedAgain(s1, t, p, d, again);
    case Halt => DunnedAgain(s1, t, p, d, again);
    case Activation => ChargeHandled(s, t, p, d); ChargeHandled(s1, t, p, again); ChargeAgainIff(s, t, i, d, again);
    case Charge => ChargeHandled(s, t, p, d); ChargeHandled(s1, t, p, again); ChargeAgainIff(s, t, i, d, again);
    case Cancellation => EndedAgain(s, t, p, d, again);
    case Completion => EndedAgain(s, t, p, d, again);
    case Other => OthersAreIgnored(s, d); OthersAreIgnored(s, again);
  }

  lemma ChargeHandled(s: State, t: string, providerId: string, d: Delivery)
    requires d.kind.Activation? || d.kind.Charge?
    requires FindOwn(s.rows, t, providerId).Some?
    ensures Handle(s, t, providerId, d).0 == ChargedRow(s, t, FindOwn(s.rows, t, providerId).value, d).0
  {
    hide ChargedRow, FindOwn;
  }

  /// A delivery that was processed in full but could not be recorded changes nothing when it is repeated,
  /// exactly when it settles.
  lemma RedeliveryIff(s: State, d: Delivery, again: Delivery)
    requires d.eventId !in s.webhooks && !d.recorded && d.faultAfter.None? && Repeats(d, again)
    ensures SameBusiness(Deliver(s, d), Deliver(Deliver(s, d), again)) <==> Settles(s, again)
  {
    hide Handle, FindOwn, BooksTwice, Deliver, BillingRevival.Addressed;
    var s1, i := Deliver(s, d), BillingRevival.Addressed(s, d);
    SameAddress(s, d, again);
    DeliveryIs(s, d);
    DeliveryIs(s1, again);
    if i.Some? {
      var t := s.rows[i.value].tenant;
      HandledKeepsRoute(s, t, d.providerId.value, d, d.providerId.value);
      if !FaultAt(again, 0) {
        HandledAgainIff(s, t, i.value, d, again);
      }
    }
  }

  function Payment(recorded: bool): Delivery {
    Delivery("e1", Charge, None, Some("sub1"), None, Some("pay1"), None, None, 2026, None, recorded)
  }

  lemma PaymentIsBooked(s: State, recorded: bool)
    requires s.rows == [ROW] && "e1" !in s.webhooks
    requires InvoiceCount(s.invoices, "acme") == |s.invoices|
    requires forall i | 0 <= i < |s.invoices| :: s.invoices[i].number.sequence <= i + 1
    ensures
      var s' := Step(s, Hook(Payment(recorded)));
      && s'.rows == [ROW] && (!recorded ==> s'.webhooks == s.webhooks)
      && s'.invoices == s.invoices + [Invoice("acme", 0, NextInvoiceNumber(s.invoices, "acme", 2026), 499_900, None, Some("pay1"))]
  {
    assert FindByProvider([ROW], "sub1") == Some(0);
    assert ROW.(status := ACTIVE, dunning := NONE, attempts := 0) == ROW;
  }

  /// A payment without an invoice of the provider is booked a second time.
  lemma PaymentBooksTwice()
    ensures
      var invoices := Run(SUBSCRIBED + [Hook(Payment(false))] + [Hook(Payment(true))]).invoices;
      |invoices| == 2 && invoices[0].providerPaymentId == invoices[1].providerPaymentId == Some("pay1")
  {
    Subscribed();
    NothingBooked();
    hide Run, Step;
    var once := SUBSCRIBED + [Hook(Payment(false))];
    RunAppend(SUBSCRIBED, Hook(Payment(false)));
    PaymentIsBooked(Run(SUBSCRIBED), false);
    assert Run(once).invoices[..0] == [];
    RunAppend(once, Hook(Payment(true)));
    PaymentIsBooked(Run(once), true);
  }

  lemma NothingBooked()
    ensures Run(SUBSCRIBED).invoices == []
  {
    assert SUBSCRIBED[..0] == [];
  }
}
