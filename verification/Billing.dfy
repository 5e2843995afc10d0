/// SaaS subscriptions: plan changes, cancellation, dunning, the webhook that drives them, the paid
/// invoices it records, and the analytics events it emits.
module Billing {
  import opened Common

  datatype Plan = STARTER | GROWTH | ENTERPRISE

  datatype Cycle = MONTHLY | YEARLY

  datatype Status = TRIAL | ACTIVE | PAST_DUE | HALTED | CANCELLED | EXPIRED

  datatype Dunning = NONE | RETRYING | EXHAUSTED

  const MAX_DUNNING_ATTEMPTS := 3

  function PricePaise(plan: Plan, cycle: Cycle): nat {
    match (plan, cycle)
    case (STARTER, MONTHLY) => 499_900
    case (STARTER, YEARLY) => 4_999_000
    case (GROWTH, MONTHLY) => 1_499_900
    case (GROWTH, YEARLY) => 14_999_000
    case (ENTERPRISE, MONTHLY) => 4_999_900
    case (ENTERPRISE, YEARLY) => 49_999_000
  }

  /// A year costs ten months, and every plan more than the one before it.
  lemma PriceList()
    ensures forall plan :: PricePaise(plan, YEARLY) == 10 * PricePaise(plan, MONTHLY)
    ensures PricePaise(STARTER, MONTHLY) == 499_900
    ensures PricePaise(GROWTH, MONTHLY) == 1_499_900
    ensures PricePaise(ENTERPRISE, MONTHLY) == 4_999_900
  {
  }

  /// Monthly recurring revenue; a yearly price counts for a twelfth, rounded down.
  function MrrPaiseFor(plan: Plan, cycle: Cycle): nat {
    if cycle.YEARLY? then PricePaise(plan, YEARLY) / 12 else PricePaise(plan, MONTHLY)
  }

  /// What a price brings in a month: itself, or the whole paise of a twelfth.
  predicate IsMonthly(mrr: int, amount: int, cycle: Cycle) {
    match cycle
    case MONTHLY => mrr == amount
    case YEARLY => 12 * mrr <= amount < 12 * mrr + 12
  }

  lemma RevenueOfPrice(plan: Plan, cycle: Cycle)
    ensures IsMonthly(MrrPaiseFor(plan, cycle), PricePaise(plan, cycle), cycle)
  {
  }

  /// A subscription row; rows are kept in order of creation and never removed.
  datatype Subscription = Subscription(
    tenant: string, plan: Plan, status: Status, cycle: Cycle, amountPaise: int, mrrPaise: int,
    providerId: string, cancelAtPeriodEnd: bool, dunning: Dunning, attempts: nat)

  /// PROPOS-year-suffix-sequence, the suffix being the end of the tenant id.
  datatype InvoiceNumber = InvoiceNumber(year: int, suffix: string, sequence: nat)

  datatype Invoice = Invoice(
    tenant: string, subscription: nat, number: InvoiceNumber, amountPaise: int,
    providerInvoiceId: Option<string>, providerPaymentId: Option<string>)

  datatype Event =
    | TrialStarted(tenant: string, plan: Plan)
    | Activated(tenant: string, plan: Plan, mrrPaise: int)
    | MrrChanged(tenant: string, plan: Plan, previousMrrPaise: int, mrrPaise: int)
    | Churn(tenant: string, plan: Plan, mrrPaiseLost: int)

  datatype Processing = PROCESSED | IGNORED | FAILED

  datatype State = State(
    rows: seq<Subscription>, plans: map<string, Plan>, invoices: seq<Invoice>,
    webhooks: map<string, Processing>, log: seq<Event>)

  const EMPTY := State([], map[], [], map[], [])

  // ----- Queries --------------------------------------------------------------------------------

  predicate CountsAsExisting(status: Status) {
    status.TRIAL? || status.ACTIVE? || status.PAST_DUE?
  }

  predicate IsLive(status: Status) {
    CountsAsExisting(status) || status.HALTED?
  }

  predicate HasExisting(rows: seq<Subscription>, tenant: string) {
    exists i | 0 <= i < |rows| :: rows[i].tenant == tenant && CountsAsExisting(rows[i].status)
  }

  /// The tenant's most recently created live row.
  function LatestLive(rows: seq<Subscription>, tenant: string): (r: Option<nat>)
    ensures r.Some? ==> r.value < |rows| && rows[r.value].tenant == tenant && IsLive(rows[r.value].status)
    ensures forall i | 0 <= i < |rows| && rows[i].tenant == tenant && IsLive(rows[i].status) :: r.Some? && i <= r.value
  {
    if rows == [] then None else
    var n := |rows| - 1;
    if rows[n].tenant == tenant && IsLive(rows[n].status) then Some(n) else LatestLive(rows[..n], tenant)
  }

  function FindByProvider(rows: seq<Subscription>, providerId: string): (r: Option<nat>)
    ensures r.Some? ==> r.value < |rows| && rows[r.value].providerId == providerId
    ensures r.None? ==> forall i | 0 <= i < |rows| :: rows[i].providerId != providerId
  {
    if rows == [] then None
    else if rows[|rows| - 1].providerId == providerId then Some(|rows| - 1)
    else FindByProvider(rows[..|rows| - 1], providerId)
  }

  /// Provider ids are unique, so this is the row with that id if it belongs to the tenant.
  function FindOwn(rows: seq<Subscription>, tenant: string, providerId: string): (r: Option<nat>)
    ensures r.Some? ==> r.value < |rows| && rows[r.value].tenant == tenant
  {
    var r := FindByProvider(rows, providerId);
    if r.Some? && rows[r.value].tenant == tenant then r else None
  }

  function InvoiceCount(invoices: seq<Invoice>, tenant: string): nat {
    if invoices == [] then 0
    else InvoiceCount(invoices[..|invoices| - 1], tenant) + if invoices[|invoices| - 1].tenant == tenant then 1 else 0
  }

  function Suffix(tenant: string): string {
    Upper(if |tenant| <= 6 then tenant else tenant[|tenant| - 6..])
  }

  function NextInvoiceNumber(invoices: seq<Invoice>, tenant: string, year: int): InvoiceNumber {
    InvoiceNumber(year, Suffix(tenant), InvoiceCount(invoices, tenant) + 1)
  }

  /// Invoice numbers and provider invoice ids are unique columns.
  predicate Storable(invoices: seq<Invoice>, invoice: Invoice) {
    forall i | 0 <= i < |invoices| ::
      && invoices[i].number != invoice.number
      && (invoice.providerInvoiceId.Some? ==> invoices[i].providerInvoiceId != invoice.providerInvoiceId)
  }

  // ----- Operations -------------------------------------------------------------------------------

  /// Calls to the payment gateway may fail, always before anything is written; the database may fail
  /// after `faultAfter` of the call's writes. A cancellation has one write and its failure leaves what a
  /// failed gateway call leaves.
  datatype ApiCall =
    | Start(tenant: string, plan: Plan, cycle: Cycle, wantsTrial: bool, remoteId: Option<string>, faultAfter: Option<nat>)
    | ChangePlan(tenant: string, plan: Plan, newCycle: Option<Cycle>, gatewayOk: bool, faultAfter: Option<nat>)
    | Cancel(tenant: string, atPeriodEnd: bool, gatewayOk: bool)

  datatype Kind = Activation | Charge | Pending | Halt | Cancellation | Completion | Other

  /// A webhook delivery. The database may fail after `faultAfter` of the handler's writes, and the
  /// event itself may fail to be recorded.
  datatype Delivery = Delivery(
    eventId: string, kind: Kind, tenantNote: Option<string>, providerId: Option<string>,
    invoiceId: Option<string>, paymentId: Option<string>, invoiceAmount: Option<Number>, paymentAmount: Option<Number>,
    year: int, faultAfter: Option<nat>, recorded: bool)

  predicate Faulted(faultAfter: Option<nat>, write: nat) {
    faultAfter.Some? && faultAfter.value <= write
  }

  function NewRow(tenant: string, plan: Plan, cycle: Cycle, wantsTrial: bool, remoteId: string): Subscription {
    Subscription(tenant, plan, if wantsTrial then TRIAL else ACTIVE, cycle, PricePaise(plan, cycle),
                 MrrPaiseFor(plan, cycle), remoteId, false, NONE, 0)
  }

  /// The row is created, then the tenant's plan is updated, then the events are emitted.
  function StartCall(s: State, tenant: string, plan: Plan, cycle: Cycle, wantsTrial: bool, remoteId: Option<string>,
                     faultAfter: Option<nat>): State {
    if HasExisting(s.rows, tenant) || remoteId.None? || FindByProvider(s.rows, remoteId.value).Some? then s
    else if Faulted(faultAfter, 0) then s
    else
      var created := s.(rows := s.rows + [NewRow(tenant, plan, cycle, wantsTrial, remoteId.value)]);
      if Faulted(faultAfter, 1) then created else
      var mrr := MrrPaiseFor(plan, cycle);
      created.(plans := s.plans[tenant := plan],
               log := s.log + [if wantsTrial then TrialStarted(tenant, plan) else Activated(tenant, plan, mrr),
                               MrrChanged(tenant, plan, 0, mrr)])
  }

  function ChangedRow(sub: Subscription, plan: Plan, cycle: Option<Cycle>): Subscription {
    var newCycle := if cycle.Some? then cycle.value else sub.cycle;
    sub.(plan := plan, cycle := newCycle, amountPaise := PricePaise(plan, newCycle),
         mrrPaise := MrrPaiseFor(plan, newCycle), status := if sub.status.TRIAL? then TRIAL else ACTIVE,
         dunning := NONE, attempts := 0)
  }

  lemma ChangedRowIs(sub: Subscription, plan: Plan, cycle: Option<Cycle>)
    ensures
      var (row, newCycle) := (ChangedRow(sub, plan, cycle), if cycle.Some? then cycle.value else sub.cycle);
      && row == sub.(plan := plan, cycle := newCycle, amountPaise := PricePaise(plan, newCycle),
                     mrrPaise := MrrPaiseFor(plan, newCycle), status := if sub.status.TRIAL? then TRIAL else ACTIVE,
                     dunning := NONE, attempts := 0)
      && IsMonthly(row.mrrPaise, row.amountPaise, row.cycle)
  {
    hide PricePaise, MrrPaiseFor, IsMonthly;
    RevenueOfPrice(plan, if cycle.Some? then cycle.value else sub.cycle);
  }

  function ChangePlanCall(s: State, tenant: string, plan: Plan, cycle: Option<Cycle>, gatewayOk: bool,
                          faultAfter: Option<nat>): State {
    match LatestLive(s.rows, tenant)
    case None => s
    case Some(i) =>
      if !gatewayOk || Faulted(faultAfter, 0) then s else
      var row := ChangedRow(s.rows[i], plan, cycle);
      var changed := s.(rows := s.rows[i := row]);
      if Faulted(faultAfter, 1) then changed
      else changed.(plans := s.plans[tenant := plan],
                    log := s.log + [MrrChanged(tenant, plan, s.rows[i].mrrPaise, row.mrrPaise)])
  }

  function CancelCall(s: State, tenant: string, atPeriodEnd: bool, gatewayOk: bool): State {
    match LatestLive(s.rows, tenant)
    case None => s
    case Some(i) =>
      if !gatewayOk then s else
      var sub := s.rows[i];
      if atPeriodEnd then s.(rows := s.rows[i := sub.(cancelAtPeriodEnd := true)])
      else s.(rows := s.rows[i := sub.(status := CANCELLED, cancelAtPeriodEnd := false, mrrPaise := 0)],
              log := s.log + [Churn(tenant, sub.plan, sub.mrrPaise), MrrChanged(tenant, sub.plan, sub.mrrPaise, 0)])
  }

  function Call(s: State, c: ApiCall): State {
    match c
    case Start(tenant, plan, cycle, wantsTrial, remoteId, fault) =>
      StartCall(s, tenant, plan, cycle, wantsTrial, remoteId, fault)
    case ChangePlan(tenant, plan, cycle, gatewayOk, fault) => ChangePlanCall(s, tenant, plan, cycle, gatewayOk, fault)
    case Cancel(tenant, atPeriodEnd, gatewayOk) => CancelCall(s, tenant, atPeriodEnd, gatewayOk)
  }

  predicate FaultAt(d: Delivery, write: nat) {
    Faulted(d.faultAfter, write)
  }

  predicate Given(id: Option<string>) {
    id.Some? && id.value != ""
  }

  predicate PaysInvoice(d: Delivery) {
    Given(d.invoiceId) || Given(d.paymentId)
  }

  /// The amount of a charge, which `BigInt` refuses unless it is a whole number.
  function AmountOf(d: Delivery, sub: Subscription): Number {
    if d.invoiceAmount.Some? then d.invoiceAmount.value
    else if d.paymentAmount.Some? then d.paymentAmount.value
    else Whole(sub.amountPaise)
  }

  /// The paid invoice of a charge; a clash on a unique column is swallowed.
  function WithInvoice(s: State, tenant: string, i: nat, amount: int, d: Delivery): State {
    if !PaysInvoice(d) then s else
    var invoice := Invoice(tenant, i, NextInvoiceNumber(s.invoices, tenant, d.year), amount, d.invoiceId, d.paymentId);
    if Storable(s.invoices, invoice) then s.(invoices := s.invoices + [invoice]) else s
  }

  /// A charge on row `i`: two writes, then its amount is read and, if it pays an invoice, a third write
  /// follows, then the analytics event.
  function ChargedRow(s: State, tenant: string, i: nat, d: Delivery): (State, bool)
    requires i < |s.rows|
  {
    var sub := s.rows[i];
    if FaultAt(d, 0) then (s, false) else
    var s1 := s.(rows := s.rows[i := sub.(status := ACTIVE, dunning := NONE, attempts := 0)]);
    if FaultAt(d, 1) then (s1, false) else
    var s2 := s1.(plans := s1.plans[tenant := sub.plan]);
    var amount := AmountOf(d, sub);
    if amount.NotWhole? || (PaysInvoice(d) && FaultAt(d, 2)) then (s2, false) else
    var s3 := WithInvoice(s2, tenant, i, amount.n, d);
    (if sub.status.TRIAL? then s3.(log := s3.log + [Activated(tenant, sub.plan, sub.mrrPaise)]) else s3, true)
  }

  function Charged(s: State, tenant: string, providerId: string, d: Delivery): (State, bool) {
    var found := FindOwn(s.rows, tenant, providerId);
    if found.None? then (s, true) else ChargedRow(s, tenant, found.value, d)
  }

  function Dunned(s: State, tenant: string, providerId: string, halt: bool, d: Delivery): (State, bool) {
    match FindOwn(s.rows, tenant, providerId)
    case None => (s, true)
    case Some(i) =>
      if FaultAt(d, 0) then (s, false) else
      var attempts := s.rows[i].attempts + 1;
      var halted := halt || attempts >= MAX_DUNNING_ATTEMPTS;
      (s.(rows := s.rows[i := s.rows[i].(
          status := if halted then HALTED else PAST_DUE,
          dunning := if halted then EXHAUSTED else RETRYING,
          attempts := attempts)]), true)
  }

  function Cancelled(s: State, tenant: string, providerId: string, d: Delivery): (State, bool) {
    match FindOwn(s.rows, tenant, providerId)
    case None => (s, true)
    case Some(i) =>
      var sub := s.rows[i];
      if sub.status.CANCELLED? || sub.status.EXPIRED? then (s, true)
      else if FaultAt(d, 0) then (s, false)
      else (s.(rows := s.rows[i := sub.(status := CANCELLED, cancelAtPeriodEnd := false, mrrPaise := 0)],
               log := s.log + [Churn(tenant, sub.plan, sub.mrrPaise), MrrChanged(tenant, sub.plan, sub.mrrPaise, 0)]), true)
  }

  /// The tenant named in the notes, or else the owner of the subscription.
  function TenantOf(rows: seq<Subscription>, d: Delivery): Option<string> {
    if d.tenantNote.Some? then d.tenantNote
    else if !Given(d.providerId) then None
    else var i := FindByProvider(rows, d.providerId.value);
      if i.Some? then Some(rows[i.value].tenant) else None
  }

  function Handle(s: State, tenant: string, providerId: string, d: Delivery): (State, bool) {
    match d.kind
    case Activation => Charged(s, tenant, providerId, d)
    case Charge => Charged(s, tenant, providerId, d)
    case Pending => Dunned(s, tenant, providerId, false, d)
    case Halt => Dunned(s, tenant, providerId, true, d)
    case Cancellation => Cancelled(s, tenant, providerId, d)
    case Completion => Cancelled(s, tenant, providerId, d)
    case Other => (s, true)
  }

  function Process(s: State, d: Delivery): (State, Processing) {
    var tenant := TenantOf(s.rows, d);
    if d.kind.Other? || !Given(tenant) || !Given(d.providerId) then (s, IGNORED) else
    var (next, ok) := Handle(s, tenant.value, d.providerId.value, d);
    (next, if ok then PROCESSED else FAILED)
  }

  function Deliver(s: State, d: Delivery): State {
    if d.eventId in s.webhooks then s else
    var (next, status) := Process(s, d);
    if d.recorded then next.(webhooks := next.webhooks[d.eventId := status]) else next
  }

  // ----- The service ---------------------------------------------------------------------------------

  datatype Response = Accepted | Refused | GatewayError | Duplicate | Handled(status: Processing) | Unrecorded | DatabaseError

  class BillingService {
    var rows: seq<Subscription>
    var plans: map<string, Plan>
    var invoices: seq<Invoice>
    var webhooks: map<string, Processing>
    var log: seq<Event>

    constructor ()
      ensures Abs() == EMPTY
    {
      rows, plans, invoices, webhooks, log := [], map[], [], map[], [];
    }

    function Abs(): State
      reads this
    {
      State(rows, plans, invoices, webhooks, log)
    }

    method Emit(e: Event)
      modifies this`log
      ensures log == old(log) + [e]
    {
      log := log + [e];
    }

    method StartSubscription(tenant: string, plan: Plan, cycle: Cycle, wantsTrial: bool, remoteId: Option<string>,
                             faultAfter: Option<nat>) returns (r: Response)
      modifies this
      ensures Abs() == StartCall(old(Abs()), tenant, plan, cycle, wantsTrial, remoteId, faultAfter)
      ensures r.Refused? <==> HasExisting(old(rows), tenant)
      ensures r.Accepted? ==> plans == old(plans)[tenant := plan] && |rows| == |old(rows)| + 1
      ensures r.Accepted? ==>
        var row := rows[|old(rows)|];
        && row.plan == plan && row.cycle == cycle && row.amountPaise == PricePaise(plan, cycle)
        && IsMonthly(row.mrrPaise, row.amountPaise, cycle)
    {
      hide HasExisting, FindByProvider, PricePaise, MrrPaiseFor, IsMonthly;
      RevenueOfPrice(plan, cycle);
      if HasExisting(rows, tenant) {
        return Refused;
      }
      var mrr := MrrPaiseFor(plan, cycle);
      if remoteId.None? || FindByProvider(rows, remoteId.value).Some? {
        return GatewayError;
      }
      if Faulted(faultAfter, 0) {
        return DatabaseError;
      }
      rows := rows + [Subscription(tenant, plan, if wantsTrial then TRIAL else ACTIVE, cycle,
                                   PricePaise(plan, cycle), mrr, remoteId.value, false, NONE, 0)];
      if Faulted(faultAfter, 1) {
        return DatabaseError;
      }
      plans := plans[tenant := plan];
      if wantsTrial {
        Emit(TrialStarted(tenant, plan));
      } else {
        Emit(Activated(tenant, plan, mrr));
      }
      Emit(MrrChanged(tenant, plan, 0, mrr));
      return Accepted;
    }

    method ChangeSubscriptionPlan(tenant: string, plan: Plan, cycle: Option<Cycle>, gatewayOk: bool, faultAfter: Option<nat>)
      returns (r: Response)
      modifies this
      ensures Abs() == ChangePlanCall(old(Abs()), tenant, plan, cycle, gatewayOk, faultAfter)
      ensures r.Refused? <==> LatestLive(old(rows), tenant).None?
      ensures r.Accepted? ==> plans == old(plans)[tenant := plan] && |rows| == |old(rows)|
      ensures r.Accepted? ==>
        var row := rows[LatestLive(old(rows), tenant).value];
        && row.plan == plan && row.amountPaise == PricePaise(plan, row.cycle)
        && IsMonthly(row.mrrPaise, row.amountPaise, row.cycle)
    {
      hide LatestLive, MrrPaiseFor, PricePaise, IsMonthly, Faulted, ChangedRow;
      var live := LatestLive(rows, tenant);
      if live.None? {
        return Refused;
      }
      var i, sub := live.value, rows[live.value];
      var newCycle := if cycle.Some? then cycle.value else sub.cycle;
      var previousMrr, mrr := sub.mrrPaise, MrrPaiseFor(plan, newCycle);
      if !gatewayOk {
        return GatewayError;
      }
      if Faulted(faultAfter, 0) {
        return DatabaseError;
      }
      var row := sub.(plan := plan, cycle := newCycle, amountPaise := PricePaise(plan, newCycle), mrrPaise := mrr,
                      status := if sub.status.TRIAL? then TRIAL else ACTIVE, dunning := NONE, attempts := 0);
      ChangedRowIs(sub, plan, cycle);
      rows := rows[i := row];
      if Faulted(faultAfter, 1) {
        return DatabaseError;
      }
      plans := plans[tenant := plan];
      Emit(MrrChanged(tenant, plan, previousMrr, mrr));
      return Accepted;
    }

    method CancelSubscription(tenant: string, atPeriodEnd: bool, gatewayOk: bool) returns (r: Response)
      modifies this
      ensures Abs() == CancelCall(old(Abs()), tenant, atPeriodEnd, gatewayOk)
      ensures r.Refused? <==> LatestLive(old(rows), tenant).None?
    {
      var live := LatestLive(rows, tenant);
      if live.None? {
        return Refused;
      }
      var i, sub := live.value, rows[live.value];
      if !gatewayOk {
        return GatewayError;
      }
      if atPeriodEnd {
        rows := rows[i := sub.(cancelAtPeriodEnd := true)];
        return Accepted;
      }
      rows := rows[i := sub.(status := CANCELLED, cancelAtPeriodEnd := false, mrrPaise := 0)];
      Emit(Churn(tenant, sub.plan, sub.mrrPaise));
      Emit(MrrChanged(tenant, sub.plan, sub.mrrPaise, 0));
      return Accepted;
    }

    method OnSubscriptionCharged(tenant: string, providerId: string, d: Delivery) returns (ok: bool)
      modifies this
      ensures (Abs(), ok) == Charged(old(Abs()), tenant, providerId, d)
    {
      var found := FindOwn(rows, tenant, providerId);
      if found.None? {
        return true;
      }
      var i, sub := found.value, rows[found.value];
      if FaultAt(d, 0) {
        return false;
      }
      rows := rows[i := sub.(status := ACTIVE, dunning := NONE, attempts := 0)];
      if FaultAt(d, 1) {
        return false;
      }
      plans := plans[tenant := sub.plan];
      var amount := Whole(sub.amountPaise);
      if d.invoiceAmount.Some? {
        amount := d.invoiceAmount.value;
      } else if d.paymentAmount.Some? {
        amount := d.paymentAmount.value;
      }
      if amount.NotWhole? {
        return false;
      }
      if PaysInvoice(d) {
        if FaultAt(d, 2) {
          return false;
        }
        var number := NextInvoiceNumber(invoices, tenant, d.year);
        var invoice := Invoice(tenant, i, number, amount.n, d.invoiceId, d.paymentId);
        if Storable(invoices, invoice) {
          invoices := invoices + [invoice];
        }
      }
      if sub.status.TRIAL? {
        Emit(Activated(tenant, sub.plan, sub.mrrPaise));
      }
      return true;
    }

    method OnDunning(tenant: string, providerId: string, halt: bool, d: Delivery) returns (ok: bool)
      modifies this
      ensures (Abs(), ok) == Dunned(old(Abs()), tenant, providerId, halt, d)
    {
      var found := FindOwn(rows, tenant, providerId);
      if found.None? {
        return true;
      }
      if FaultAt(d, 0) {
        return false;
      }
      var i, sub := found.value, rows[found.value];
      var attempts := sub.attempts + 1;
      if halt || attempts >= MAX_DUNNING_ATTEMPTS {
        rows := rows[i := sub.(status := HALTED, dunning := EXHAUSTED, attempts := attempts)];
      } else {
        rows := rows[i := sub.(status := PAST_DUE, dunning := RETRYING, attempts := attempts)];
      }
      return true;
    }

    method OnCancelled(tenant: string, providerId: string, d: Delivery) returns (ok: bool)
      modifies this
      ensures (Abs(), ok) == Cancelled(old(Abs()), tenant, providerId, d)
    {
      var found := FindOwn(rows, tenant, providerId);
      if found.None? || rows[found.value].status.CANCELLED? || rows[found.value].status.EXPIRED? {
        return true;
      }
      if FaultAt(d, 0) {
        return false;
      }
      var i, sub := found.value, rows[found.value];
      rows := rows[i := sub.(status := CANCELLED, cancelAtPeriodEnd := false, mrrPaise := 0)];
      Emit(Churn(tenant, sub.plan, sub.mrrPaise));
      Emit(MrrChanged(tenant, sub.plan, sub.mrrPaise, 0));
      assert log == old(log) + [Churn(tenant, sub.plan, sub.mrrPaise), MrrChanged(tenant, sub.plan, sub.mrrPaise, 0)];
      return true;
    }

    method HandleWebhook(d: Delivery) returns (r: Response)
      modifies this
      ensures Abs() == Deliver(old(Abs()), d)
      ensures r.Duplicate? <==> d.eventId in old(webhooks)
      ensures r.Handled? ==> r.status == Process(old(Abs()), d).1
      ensures r.Handled? || r.Unrecorded? || r.Duplicate?
    {
      if d.eventId in webhooks {
        return Duplicate;
      }
      var status := PROCESSED;
      var tenant := TenantOf(rows, d);
      if d.kind.Other? || !Given(tenant) || !Given(d.providerId) {
        status := IGNORED;
      } else {
        var ok;
        match d.kind {
          case Activation => ok := OnSubscriptionCharged(tenant.value, d.providerId.value, d);
          case Charge => ok := OnSubscriptionCharged(tenant.value, d.providerId.value, d);
          case Pending => ok := OnDunning(tenant.value, d.providerId.value, false, d);
          case Halt => ok := OnDunning(tenant.value, d.providerId.value, true, d);
          case Cancellation => ok := OnCancelled(tenant.value, d.providerId.value, d);
          case Completion => ok := OnCancelled(tenant.value, d.providerId.value, d);
        }
        if !ok {
          status := FAILED;
        }
      }
      if !d.recorded {
        return Unrecorded;
      }
      webhooks := webhooks[d.eventId := status];
      return Handled(status);
    }
  }
}
