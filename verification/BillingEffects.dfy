/// What one call or delivery that goes through does to rows, plans, invoices, recorded events and the
/// analytics log, column by column.
module BillingEffects {
  import opened Common
  import opened Billing

  // ----- Calls ------------------------------------------------------------------------------------------

  predicate Existing(rows: seq<Subscription>, tenant: string) {
    exists i | 0 <= i < |rows| ::
      rows[i].tenant == tenant && (rows[i].status == TRIAL || rows[i].status == ACTIVE || rows[i].status == PAST_DUE)
  }

  /// A start adds a row with the price of the plan, files the plan, and reports the trial or the
  /// activation and then the new revenue.
  lemma StartEffect(s: State, tenant: string, plan: Plan, cycle: Cycle, wantsTrial: bool, id: string)
    ensures
      var (after, mrr) := (StartCall(s, tenant, plan, cycle, wantsTrial, Some(id), None), MrrPaiseFor(plan, cycle));
      if Existing(s.rows, tenant) || exists i | 0 <= i < |s.rows| :: s.rows[i].providerId == id then after == s
      else
        && after.rows == s.rows + [Subscription(tenant, plan, if wantsTrial then TRIAL else ACTIVE, cycle,
                                                PricePaise(plan, cycle), mrr, id, false, NONE, 0)]
        && after.plans == s.plans[tenant := plan]
        && after.log == s.log + [if wantsTrial then TrialStarted(tenant, plan) else Activated(tenant, plan, mrr)]
                        + [MrrChanged(tenant, plan, 0, mrr)]
        && after.invoices == s.invoices && after.webhooks == s.webhooks
  {
    hide PricePaise, MrrPaiseFor;
    assert HasExisting(s.rows, tenant) <==> Existing(s.rows, tenant);
    assert s.log + [if wantsTrial then TrialStarted(tenant, plan) else Activated(tenant, plan, MrrPaiseFor(plan, cycle))]
           + [MrrChanged(tenant, plan, 0, MrrPaiseFor(plan, cycle))]
        == s.log + [if wantsTrial then TrialStarted(tenant, plan) else Activated(tenant, plan, MrrPaiseFor(plan, cycle)),
                    MrrChanged(tenant, plan, 0, MrrPaiseFor(plan, cycle))];
  }

  /// The tenant's latest row that is neither cancelled nor expired.
  predicate Latest(rows: seq<Subscription>, tenant: string, i: nat) {
    && i < |rows| && rows[i].tenant == tenant && rows[i].status != CANCELLED && rows[i].status != EXPIRED
    && forall j | i < j < |rows| && rows[j].tenant == tenant :: rows[j].status == CANCELLED || rows[j].status == EXPIRED
  }

  lemma LatestIsFound(rows: seq<Subscription>, tenant: string, i: nat)
    requires Latest(rows, tenant, i)
    ensures LatestLive(rows, tenant) == Some(i)
  {
    hide LatestLive;
    var found := LatestLive(rows, tenant).value;
    assert IsLive(rows[i].status) && IsLive(rows[found].status);
  }

  /// A plan change reprices the row, ends its dunning and keeps a trial a trial.
  lemma ChangePlanEffect(s: State, tenant: string, i: nat, plan: Plan, cycle: Option<Cycle>)
    requires Latest(s.rows, tenant, i)
    ensures
      var after := ChangePlanCall(s, tenant, plan, cycle, true, None);
      var (row, newCycle) := (s.rows[i], if cycle.Some? then cycle.value else s.rows[i].cycle);
      && after.rows == s.rows[i := Subscription(tenant, plan, if row.status == TRIAL then TRIAL else ACTIVE, newCycle,
                                                PricePaise(plan, newCycle), MrrPaiseFor(plan, newCycle), row.providerId,
                                                row.cancelAtPeriodEnd, NONE, 0)]
      && after.plans == s.plans[tenant := plan]
      && after.log == s.log + [MrrChanged(tenant, plan, row.mrrPaise, MrrPaiseFor(plan, newCycle))]
      && after.invoices == s.invoices && after.webhooks == s.webhooks
  {
    hide PricePaise, MrrPaiseFor, LatestLive;
    LatestIsFound(s.rows, tenant, i);
  }

  /// A cancellation at period end only marks the row; one at once ends it and reports what is lost.
  lemma CancelEffect(s: State, tenant: string, i: nat, atPeriodEnd: bool)
    requires Latest(s.rows, tenant, i)
    ensures
      var (after, row) := (CancelCall(s, tenant, atPeriodEnd, true), s.rows[i]);
      && after.rows == s.rows[i := if atPeriodEnd then row.(cancelAtPeriodEnd := true)
                                   else row.(status := CANCELLED, cancelAtPeriodEnd := false, mrrPaise := 0)]
      && after.log == (if atPeriodEnd then s.log
                       else s.log + [Churn(tenant, row.plan, row.mrrPaise)]
                            + [MrrChanged(tenant, row.plan, row.mrrPaise, 0)])
      && after.plans == s.plans && after.invoices == s.invoices && after.webhooks == s.webhooks
  {
    hide LatestLive;
    LatestIsFound(s.rows, tenant, i);
    var row := s.rows[i];
    assert s.log + [Churn(tenant, row.plan, row.mrrPaise)] + [MrrChanged(tenant, row.plan, row.mrrPaise, 0)]
        == s.log + [Churn(tenant, row.plan, row.mrrPaise), MrrChanged(tenant, row.plan, row.mrrPaise, 0)];
  }

  // ----- Deliveries ---------------------------------------------------------------------------------------

  /// The delivery is new, will be recorded, and is about row `i`: by its provider id, with the row's tenant
  /// in its notes or none.
  predicate About(s: State, d: Delivery, i: nat) {
    && d.eventId !in s.webhooks && d.recorded
    && i < |s.rows| && s.rows[i].tenant != "" && s.rows[i].providerId != ""
    && d.providerId == Some(s.rows[i].providerId)
    && (d.tenantNote == None || d.tenantNote == Some(s.rows[i].tenant))
    && forall j | 0 <= j < |s.rows| && j != i :: s.rows[j].providerId != s.rows[i].providerId
  }

  lemma FoundByProvider(s: State, d: Delivery, i: nat)
    requires About(s, d, i)
    ensures FindByProvider(s.rows, d.providerId.value) == Some(i)
  {
    hide FindByProvider;
    assert FindByProvider(s.rows, d.providerId.value).Some?;
  }

  lemma Routed(s: State, d: Delivery, i: nat)
    requires About(s, d, i) && !d.kind.Other?
    ensures
      var t := s.rows[i].tenant;
      && FindOwn(s.rows, t, d.providerId.value) == Some(i)
      && Deliver(s, d) == (var (next, ok) := Handle(s, t, d.providerId.value, d);
                           next.(webhooks := next.webhooks[d.eventId := if ok then PROCESSED else FAILED]))
  {
    hide FindByProvider, Handle;
    FoundByProvider(s, d, i);
  }

  function AfterCharge(row: Subscription): Subscription {
    row.(status := ACTIVE, dunning := NONE, attempts := 0)
  }

  /// A charge revives the row and files its plan; a trial is reported as activated. The amount of the
  /// provider's invoice goes before that of the payment, and that before the price on the row.
  lemma ChargeEffect(s: State, d: Delivery, i: nat)
    requires About(s, d, i) && (d.kind == Activation || d.kind == Charge) && d.faultAfter.None?
    ensures
      var (after, row) := (Deliver(s, d), s.rows[i]);
      var amount := match d.invoiceAmount
        case Some(a) => a
        case None => match d.paymentAmount case Some(a) => a case None => Whole(row.amountPaise);
      && after.rows == s.rows[i := AfterCharge(row)]
      && after.plans == s.plans[row.tenant := row.plan]
      && after.webhooks == s.webhooks[d.eventId := if amount.Whole? then PROCESSED else FAILED]
      && after.log == (if amount.Whole? && row.status == TRIAL
                       then s.log + [Activated(row.tenant, row.plan, row.mrrPaise)] else s.log)
      && (amount.NotWhole? ==> after.invoices == s.invoices)
      && (amount.Whole? ==> after.invoices == Booked(s.invoices, row.tenant, i, amount.n, d))
  {
    hide FindByProvider, NextInvoiceNumber, Handle, FindOwn;
    Routed(s, d, i);
    Handled(s, d, i);
  }

  lemma Handled(s: State, d: Delivery, i: nat)
    requires i < |s.rows| && d.providerId.Some? && FindOwn(s.rows, s.rows[i].tenant, d.providerId.value) == Some(i)
    ensures d.kind.Activation? || d.kind.Charge? ==>
      Handle(s, s.rows[i].tenant, d.providerId.value, d) == ChargedRow(s, s.rows[i].tenant, i, d)
  {
    hide FindOwn, ChargedRow;
  }

  /// An invoice is booked when the delivery names one or a payment, with the tenant's next number for that
  /// year, unless that number or the provider's invoice is on file.
  function Booked(invoices: seq<Invoice>, tenant: string, i: nat, amount: int, d: Delivery): seq<Invoice> {
    var number := NextInvoiceNumber(invoices, tenant, d.year);
    if d.invoiceId.None? && d.paymentId.None? then invoices
    else if (d.invoiceId.Some? ==> d.invoiceId.value == "") && (d.paymentId.Some? ==> d.paymentId.value == "") then invoices
    else if exists k | 0 <= k < |invoices| ::
              invoices[k].number == number || (d.invoiceId.Some? && invoices[k].providerInvoiceId == d.invoiceId)
      then invoices
    else invoices + [Invoice(tenant, i, number, amount, d.invoiceId, d.paymentId)]
  }

  lemma NumberIs(invoices: seq<Invoice>, tenant: string, year: int)
    ensures
      var (number, k) := (NextInvoiceNumber(invoices, tenant, year), if |tenant| < 6 then |tenant| else 6);
      && number.year == year && number.suffix == Upper(tenant[|tenant| - k..])
      && number.sequence == InvoiceCount(invoices, tenant) + 1
  {
    assert tenant[0..] == tenant;
  }

  /// A payment failure counts, and the third one, or a halt, exhausts the row.
  lemma DunningEffect(s: State, d: Delivery, i: nat)
    requires About(s, d, i) && (d.kind == Pending || d.kind == Halt) && d.faultAfter.None?
    ensures
      var (after, row) := (Deliver(s, d), s.rows[i]);
      var exhausted := d.kind == Halt || row.attempts + 1 >= 3;
      && after.rows == s.rows[i := row.(status := if exhausted then HALTED else PAST_DUE,
                                        dunning := if exhausted then EXHAUSTED else RETRYING,
                                        attempts := row.attempts + 1)]
      && after.webhooks == s.webhooks[d.eventId := PROCESSED]
      && after.plans == s.plans && after.invoices == s.invoices && after.log == s.log
  {
    hide FindByProvider, FindOwn;
    Routed(s, d, i);
  }

  /// A cancellation or completion ends a row once.
  lemma EndEffect(s: State, d: Delivery, i: nat)
    requires About(s, d, i) && (d.kind == Cancellation || d.kind == Completion) && d.faultAfter.None?
    ensures
      var (after, row) := (Deliver(s, d), s.rows[i]);
      && after.webhooks == s.webhooks[d.eventId := PROCESSED] && after.plans == s.plans && after.invoices == s.invoices
      && (if row.status == CANCELLED || row.status == EXPIRED then after.rows == s.rows && after.log == s.log
          else after.rows == s.rows[i := row.(status := CANCELLED, cancelAtPeriodEnd := false, mrrPaise := 0)]
               && after.log == s.log + [Churn(row.tenant, row.plan, row.mrrPaise)]
                               + [MrrChanged(row.tenant, row.plan, row.mrrPaise, 0)])
  {
    hide FindByProvider, FindOwn;
    Routed(s, d, i);
    var row := s.rows[i];
    assert s.log + [Churn(row.tenant, row.plan, row.mrrPaise)] + [MrrChanged(row.tenant, row.plan, row.mrrPaise, 0)]
        == s.log + [Churn(row.tenant, row.plan, row.mrrPaise), MrrChanged(row.tenant, row.plan, row.mrrPaise, 0)];
  }

  /// A delivery that names no subscription, or belongs to no tenant, or is of another kind is ignored; one
  /// about a subscription that the tenant does not have is processed without effect.
  lemma NothingElse(s: State, d: Delivery)
    requires d.eventId !in s.webhooks && d.recorded
    ensures d.kind == Other || d.providerId == None || d.providerId == Some("") || d.tenantNote == Some("") ==>
      Deliver(s, d) == s.(webhooks := s.webhooks[d.eventId := IGNORED])
    ensures d.kind != Other && d.providerId.Some? && d.providerId.value != ""
            && d.tenantNote.Some? && d.tenantNote.value != ""
            && (forall i | 0 <= i < |s.rows| ::
                  s.rows[i].providerId != d.providerId.value || s.rows[i].tenant != d.tenantNote.value) ==>
      Deliver(s, d) == s.(webhooks := s.webhooks[d.eventId := PROCESSED])
    ensures d.kind != Other && d.providerId.Some? && d.providerId.value != "" && d.tenantNote.None?
            && (forall i | 0 <= i < |s.rows| :: s.rows[i].providerId != d.providerId.value) ==>
      Deliver(s, d) == s.(webhooks := s.webhooks[d.eventId := IGNORED])
  {
    hide FindByProvider, ChargedRow;
  }
}
