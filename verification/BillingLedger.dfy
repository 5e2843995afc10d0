/// What every run of API calls and webhook deliveries keeps: the MRR ledger, the dunning states,
/// invoice numbering, and indifference to repeated deliveries.
module BillingLedger {
  import opened Common
  import opened Billing

  datatype Action = Api(call: ApiCall) | Hook(delivery: Delivery)

  function Step(s: State, a: Action): State {
    match a
    case Api(c) => Call(s, c)
    case Hook(d) => Deliver(s, d)
  }

  function Run(actions: seq<Action>): State {
    if actions == [] then EMPTY else Step(Run(actions[..|actions| - 1]), actions[|actions| - 1])
  }

  lemma Prefixes<T>(s: seq<T>)
    requires s != []
    ensures
      var n := |s| - 1;
      && s[..n + 1] == s && s[..n][..n] == s[..n]
      && (forall k | 0 <= k <= n :: s[..n][..k] == s[..k])
      && (forall k | 0 <= k < n :: s[..n][k] == s[k])
  {
  }

  /// A run by its last action, and its prefixes.
  lemma LastAction(actions: seq<Action>)
    requires actions != []
    ensures
      var n := |actions| - 1;
      && Run(actions) == Step(Run(actions[..n]), actions[n])
      && actions[..n + 1] == actions && actions[..n][..n] == actions[..n]
      && (forall k | 0 <= k <= n :: actions[..n][..k] == actions[..k])
      && (forall k | 0 <= k < n :: actions[..n][k] == actions[k])
  {
    hide Step;
    Prefixes(actions);
  }

  // ----- The ledger -----------------------------------------------------------------------------------

  /// The recurring revenue on a tenant's rows.
  function RowMrr(rows: seq<Subscription>, tenant: string): int {
    if rows == [] then 0
    else RowMrr(rows[..|rows| - 1], tenant) + if rows[|rows| - 1].tenant == tenant then rows[|rows| - 1].mrrPaise else 0
  }

  /// The sum of the changes in the emitted mrr_changed events.
  function LedgerMrr(log: seq<Event>, tenant: string): int {
    if log == [] then 0
    else LedgerMrr(log[..|log| - 1], tenant) + EventMrr(log[|log| - 1], tenant)
  }

  function EventMrr(e: Event, tenant: string): int {
    if e.MrrChanged? && e.tenant == tenant then e.mrrPaise - e.previousMrrPaise else 0
  }

  lemma LedgerAppend(log: seq<Event>, e: Event, tenant: string)
    ensures LedgerMrr(log + [e], tenant) == LedgerMrr(log, tenant) + EventMrr(e, tenant)
  {
    assert (log + [e])[..|log|] == log;
  }

  lemma LedgerAppendTwo(log: seq<Event>, e: Event, f: Event, tenant: string)
    ensures LedgerMrr(log + [e, f], tenant) == LedgerMrr(log, tenant) + EventMrr(e, tenant) + EventMrr(f, tenant)
  {
    assert log + [e, f] == (log + [e]) + [f];
    LedgerAppend(log, e, tenant);
    LedgerAppend(log + [e], f, tenant);
  }

  function MrrOf(row: Subscription, tenant: string): int {
    if row.tenant == tenant then row.mrrPaise else 0
  }

  lemma {:induction false} RowMrrUpdate(rows: seq<Subscription>, i: nat, row: Subscription, tenant: string)
    requires i < |rows|
    ensures RowMrr(rows[i := row], tenant) == RowMrr(rows, tenant) - MrrOf(rows[i], tenant) + MrrOf(row, tenant)
  {
    var n := |rows| - 1;
    if i == n {
      assert rows[i := row][..n] == rows[..n];
    } else {
      assert rows[i := row][..n] == rows[..n][i := row];
      RowMrrUpdate(rows[..n], i, row, tenant);
    }
  }

  lemma RowMrrAppend(rows: seq<Subscription>, row: Subscription, tenant: string)
    ensures RowMrr(rows + [row], tenant) == RowMrr(rows, tenant) + MrrOf(row, tenant)
  {
    assert (rows + [row])[..|rows|] == rows;
  }

  /// How far the rows are ahead of what has been reported.
  function Gap(s: State, tenant: string): int {
    RowMrr(s.rows, tenant) - LedgerMrr(s.log, tenant)
  }

  /// The revenue change of a call that fails between its two writes: the row has it, no event reports it.
  function Unreported(s: State, c: ApiCall): int {
    match c
    case Start(_, plan, cycle, _, _, fault) =>
      if Call(s, c).rows != s.rows && Faulted(fault, 1) then MrrPaiseFor(plan, cycle) else 0
    case ChangePlan(t, plan, cycle, gatewayOk, fault) =>
      var live := LatestLive(s.rows, t);
      if live.Some? && gatewayOk && !Faulted(fault, 0) && Faulted(fault, 1)
      then ChangedRow(s.rows[live.value], plan, cycle).mrrPaise - s.rows[live.value].mrrPaise else 0
    case Cancel(_, _, _) => 0
  }

  /// The three outcomes of a start: nothing, only the row, or the row with the plan and both events.
  lemma StartOutcomes(s: State, c: ApiCall)
    requires c.Start?
    ensures
      var s' := Call(s, c);
      || s' == s
      || (c.remoteId.Some? && !HasExisting(s.rows, c.tenant) && FindByProvider(s.rows, c.remoteId.value).None?
          && s'.rows == s.rows + [NewRow(c.tenant, c.plan, c.cycle, c.wantsTrial, c.remoteId.value)]
          && s'.invoices == s.invoices
          && if Faulted(c.faultAfter, 1) then s'.log == s.log && s'.plans == s.plans
             else s'.plans == s.plans[c.tenant := c.plan]
                  && |s'.log| == |s.log| + 2 && s'.log[..|s.log|] == s.log
                  && !s'.log[|s.log|].MrrChanged? && !s'.log[|s.log|].Churn?
                  && s'.log[|s.log| + 1] == MrrChanged(c.tenant, c.plan, 0, MrrPaiseFor(c.plan, c.cycle)))
  {
    hide NewRow, MrrPaiseFor;
  }

  lemma StartMovesGap(s: State, c: ApiCall, tenant: string)
    requires c.Start?
    ensures Gap(Call(s, c), tenant) == Gap(s, tenant) + if c.tenant == tenant then Unreported(s, c) else 0
  {
    hide Call, MrrPaiseFor, PricePaise, RowMrr, LedgerMrr, HasExisting, FindByProvider;
    StartOutcomes(s, c);
    var s' := Call(s, c);
    if s'.rows != s.rows {
      RowMrrAppend(s.rows, NewRow(c.tenant, c.plan, c.cycle, c.wantsTrial, c.remoteId.value), tenant);
      if !Faulted(c.faultAfter, 1) {
        LedgerAppendTwo(s.log, s'.log[|s.log|], s'.log[|s.log| + 1], tenant);
        assert s'.log == s.log + [s'.log[|s.log|], s'.log[|s.log| + 1]];
      }
    }
  }

  lemma ChangePlanMovesGap(s: State, c: ApiCall, tenant: string)
    requires c.ChangePlan?
    ensures Gap(Call(s, c), tenant) == Gap(s, tenant) + if c.tenant == tenant then Unreported(s, c) else 0
  {
    hide PricePaise, MrrPaiseFor;
    var live := LatestLive(s.rows, c.tenant);
    if live.Some? {
      var sub := s.rows[live.value];
      var row := ChangedRow(sub, c.plan, c.newCycle);
      RowMrrUpdate(s.rows, live.value, row, tenant);
      LedgerAppend(s.log, MrrChanged(c.tenant, c.plan, sub.mrrPaise, row.mrrPaise), tenant);
    }
  }

  lemma CancelKeepsGap(s: State, c: ApiCall, tenant: string)
    requires c.Cancel?
    ensures Gap(Call(s, c), tenant) == Gap(s, tenant)
  {
    var live := LatestLive(s.rows, c.tenant);
    if live.Some? && c.gatewayOk {
      var sub, s' := s.rows[live.value], Call(s, c);
      RowMrrUpdate(s.rows, live.value, s'.rows[live.value], tenant);
      LedgerAppendTwo(s.log, Churn(c.tenant, sub.plan, sub.mrrPaise), MrrChanged(c.tenant, sub.plan, sub.mrrPaise, 0), tenant);
    }
  }

  function Reactivated(sub: Subscription): Subscription {
    sub.(status := ACTIVE, dunning := NONE, attempts := 0)
  }

  /// What a charge can do to rows and log, wherever a fault strikes.
  lemma ChargeEffects(s: State, t: string, i: nat, d: Delivery)
    requires i < |s.rows|
    ensures
      var s' := ChargedRow(s, t, i, d).0;
      && (s'.rows == s.rows || s'.rows == s.rows[i := Reactivated(s.rows[i])])
      && (s'.log == s.log || s'.log == s.log + [Activated(t, s.rows[i].plan, s.rows[i].mrrPaise)])
  {
  }

  lemma ChargeKeepsGap(s: State, t: string, i: nat, d: Delivery, tenant: string)
    requires i < |s.rows|
    ensures Gap(ChargedRow(s, t, i, d).0, tenant) == Gap(s, tenant)
  {
    hide ChargedRow;
    ChargeEffects(s, t, i, d);
    RowMrrUpdate(s.rows, i, Reactivated(s.rows[i]), tenant);
    LedgerAppend(s.log, Activated(t, s.rows[i].plan, s.rows[i].mrrPaise), tenant);
  }

  lemma DunningKeepsGap(s: State, t: string, providerId: string, halt: bool, d: Delivery, tenant: string)
    ensures Gap(Dunned(s, t, providerId, halt, d).0, tenant) == Gap(s, tenant)
  {
    var found := FindOwn(s.rows, t, providerId);
    if found.Some? && !FaultAt(d, 0) {
      RowMrrUpdate(s.rows, found.value, Dunned(s, t, providerId, halt, d).0.rows[found.value], tenant);
    }
  }

  lemma CancelledKeepsGap(s: State, t: string, providerId: string, d: Delivery, tenant: string)
    ensures Gap(Cancelled(s, t, providerId, d).0, tenant) == Gap(s, tenant)
  {
    var found := FindOwn(s.rows, t, providerId);
    if found.Some? {
      var sub := s.rows[found.value];
      RowMrrUpdate(s.rows, found.value, sub.(status := CANCELLED, cancelAtPeriodEnd := false, mrrPaise := 0), tenant);
      LedgerAppendTwo(s.log, Churn(t, sub.plan, sub.mrrPaise), MrrChanged(t, sub.plan, sub.mrrPaise, 0), tenant);
    }
  }

  lemma HandleKeepsGap(s: State, t: string, providerId: string, d: Delivery, tenant: string)
    ensures Gap(Handle(s, t, providerId, d).0, tenant) == Gap(s, tenant)
  {
    hide Gap, ChargedRow, Dunned, Cancelled;
    match d.kind
    case Pending => DunningKeepsGap(s, t, providerId, false, d, tenant);
    case Halt => DunningKeepsGap(s, t, providerId, true, d, tenant);
    case Cancellation => CancelledKeepsGap(s, t, providerId, d, tenant);
    case Completion => CancelledKeepsGap(s, t, providerId, d, tenant);
    case Other =>
    case _ =>
      var found := FindOwn(s.rows, t, providerId);
      if found.Some? {
        ChargeKeepsGap(s, t, found.value, d, tenant);
      }
  }

  lemma DeliveryKeepsGap(s: State, d: Delivery, tenant: string)
    ensures Gap(Deliver(s, d), tenant) == Gap(s, tenant)
  {
    hide Handle;
    var t := TenantOf(s.rows, d);
    if Given(t) && Given(d.providerId) {
      HandleKeepsGap(s, t.value, d.providerId.value, d, tenant);
    }
  }

  /// The revenue changes that the run's half-done API calls have not reported.
  function Drift(actions: seq<Action>, tenant: string): int {
    if actions == [] then 0 else
    var n := |actions| - 1;
    Drift(actions[..n], tenant)
    + if actions[n].Api? && actions[n].call.tenant == tenant then Unreported(Run(actions[..n]), actions[n].call) else 0
  }

  /// In every run, whatever fails half-way, the recurring revenue on a tenant's rows is the sum of its
  /// emitted MRR changes and of what its half-done API calls left unreported.
  lemma {:induction false} LedgerDrifts(actions: seq<Action>, tenant: string)
    ensures RowMrr(Run(actions).rows, tenant) == LedgerMrr(Run(actions).log, tenant) + Drift(actions, tenant)
  {
    hide Call, Deliver, Unreported;
    if actions != [] {
      var before, a := Run(actions[..|actions| - 1]), actions[|actions| - 1];
      LedgerDrifts(actions[..|actions| - 1], tenant);
      match a
      case Hook(d) => DeliveryKeepsGap(before, d, tenant);
      case Api(c) =>
        if c.Start? {
          StartMovesGap(before, c, tenant);
        } else if c.ChangePlan? {
          ChangePlanMovesGap(before, c, tenant);
        } else {
          CancelKeepsGap(before, c, tenant);
          assert Unreported(before, c) == 0 by { CancelReports(before, c); }
        }
    }
  }

  lemma CancelReports(s: State, c: ApiCall)
    requires c.Cancel?
    ensures Unreported(s, c) == 0
  {
  }

  /// The ledger matches the rows exactly when the half-done API calls change nothing on balance.
  lemma LedgerMatchesRows(actions: seq<Action>, tenant: string)
    ensures LedgerMrr(Run(actions).log, tenant) == RowMrr(Run(actions).rows, tenant) <==> Drift(actions, tenant) == 0
  {
    LedgerDrifts(actions, tenant);
  }

  /// No API call of the tenant fails between its two writes.
  predicate NoneHalfDone(actions: seq<Action>, tenant: string) {
    forall i | 0 <= i < |actions| && actions[i].Api? && actions[i].call.tenant == tenant && !actions[i].call.Cancel? ::
      actions[i].call.faultAfter != Some(1)
  }

  lemma {:induction false} NoDriftWhenNoneHalfDone(actions: seq<Action>, tenant: string)
    requires NoneHalfDone(actions, tenant)
    ensures Drift(actions, tenant) == 0
  {
    if actions != [] {
      NoDriftWhenNoneHalfDone(actions[..|actions| - 1], tenant);
    }
  }

  // ----- Rows ----------------------------------------------------------------------------------------------

  /// Prices follow the plan, revenue is either that or nothing, and the dunning columns fit the status.
  predicate Consistent(row: Subscription) {
    && row.amountPaise == PricePaise(row.plan, row.cycle)
    && (row.mrrPaise == 0 || row.mrrPaise == MrrPaiseFor(row.plan, row.cycle))
    && (row.status.TRIAL? || row.status.ACTIVE? ==> row.dunning.NONE? && row.attempts == 0)
    && (row.status.PAST_DUE? ==> row.dunning.RETRYING? && 1 <= row.attempts < MAX_DUNNING_ATTEMPTS)
    && (row.status.HALTED? ==> row.dunning.EXHAUSTED? && row.attempts >= 1)
    && (row.status.CANCELLED? ==> row.mrrPaise == 0 && !row.cancelAtPeriodEnd)
    && !row.status.EXPIRED?
  }

  predicate RowsConsistent(rows: seq<Subscription>) {
    && (forall i | 0 <= i < |rows| :: Consistent(rows[i]))
    && (forall i, j | 0 <= i < j < |rows| :: rows[i].providerId != rows[j].providerId)
  }

  lemma ReplaceKeepsRows(rows: seq<Subscription>, i: nat, row: Subscription)
    requires RowsConsistent(rows) && i < |rows| && Consistent(row) && row.providerId == rows[i].providerId
    ensures RowsConsistent(rows[i := row])
  {
  }

  lemma ChargeKeepsRows(s: State, t: string, i: nat, d: Delivery)
    requires i < |s.rows| && RowsConsistent(s.rows)
    ensures RowsConsistent(ChargedRow(s, t, i, d).0.rows)
  {
    ChargeEffects(s, t, i, d);
    assert Consistent(s.rows[i]);
    ReplaceKeepsRows(s.rows, i, Reactivated(s.rows[i]));
  }

  lemma DunningKeepsRows(s: State, t: string, providerId: string, halt: bool, d: Delivery)
    requires RowsConsistent(s.rows)
    ensures RowsConsistent(Dunned(s, t, providerId, halt, d).0.rows)
  {
    var s', found := Dunned(s, t, providerId, halt, d).0, FindOwn(s.rows, t, providerId);
    if s' != s {
      ReplaceKeepsRows(s.rows, found.value, s'.rows[found.value]);
    }
  }

  lemma CancelledKeepsRows(s: State, t: string, providerId: string, d: Delivery)
    requires RowsConsistent(s.rows)
    ensures RowsConsistent(Cancelled(s, t, providerId, d).0.rows)
  {
    var s', found := Cancelled(s, t, providerId, d).0, FindOwn(s.rows, t, providerId);
    if s' != s {
      ReplaceKeepsRows(s.rows, found.value, s'.rows[found.value]);
    }
  }

  lemma HandleKeepsRows(s: State, t: string, providerId: string, d: Delivery)
    requires RowsConsistent(s.rows)
    ensures RowsConsistent(Handle(s, t, providerId, d).0.rows)
  {
    match d.kind
    case Pending => DunningKeepsRows(s, t, providerId, false, d);
    case Halt => DunningKeepsRows(s, t, providerId, true, d);
    case Cancellation => CancelledKeepsRows(s, t, providerId, d);
    case Completion => CancelledKeepsRows(s, t, providerId, d);
    case Other =>
    case _ =>
      var found := FindOwn(s.rows, t, providerId);
      if found.Some? {
        ChargeKeepsRows(s, t, found.value, d);
      }
  }

  lemma StartKeepsRows(s: State, c: ApiCall)
    requires RowsConsistent(s.rows) && c.Start?
    ensures RowsConsistent(Call(s, c).rows)
  {
    hide Call, MrrPaiseFor, PricePaise, HasExisting;
    StartOutcomes(s, c);
  }

  lemma ChangePlanKeepsRows(s: State, c: ApiCall)
    requires RowsConsistent(s.rows) && c.ChangePlan?
    ensures RowsConsistent(Call(s, c).rows)
  {
    hide MrrPaiseFor, PricePaise, RowsConsistent;
    var live := LatestLive(s.rows, c.tenant);
    if live.Some? {
      RowIsConsistent(s.rows, live.value);
      ReplaceKeepsRows(s.rows, live.value, ChangedRow(s.rows[live.value], c.plan, c.newCycle));
    }
  }

  lemma CancelKeepsRows(s: State, c: ApiCall)
    requires RowsConsistent(s.rows) && c.Cancel?
    ensures RowsConsistent(Call(s, c).rows)
  {
    hide MrrPaiseFor, PricePaise, RowsConsistent;
    var live := LatestLive(s.rows, c.tenant);
    if live.Some? {
      RowIsConsistent(s.rows, live.value);
      ReplaceKeepsRows(s.rows, live.value, Call(s, c).rows[live.value]);
    }
  }

  lemma RowIsConsistent(rows: seq<Subscription>, i: nat)
    requires RowsConsistent(rows) && i < |rows|
    ensures Consistent(rows[i])
  {
  }

  lemma {:induction false} RowsStayConsistent(actions: seq<Action>)
    ensures RowsConsistent(Run(actions).rows)
  {
    if actions != [] {
      var before, a := Run(actions[..|actions| - 1]), actions[|actions| - 1];
      RowsStayConsistent(actions[..|actions| - 1]);
      match a
      case Api(c) =>
        if c.Start? {
          StartKeepsRows(before, c);
        } else if c.ChangePlan? {
          ChangePlanKeepsRows(before, c);
        } else {
          CancelKeepsRows(before, c);
        }
      case Hook(d) =>
        var t := TenantOf(before.rows, d);
        if Given(t) && Given(d.providerId) {
          HandleKeepsRows(before, t.value, d.providerId.value, d);
        }
    }
  }

  /// In every run: prices and revenue fit the plan, past-due rows have been retried once or twice,
  /// halted rows are exhausted, live paid rows carry no dunning, provider ids are unique.
  lemma SubscriptionStates(actions: seq<Action>, i: nat, j: nat)
    requires i < |Run(actions).rows| && j < |Run(actions).rows|
    ensures
      var row := Run(actions).rows[i];
      && row.amountPaise == PricePaise(row.plan, row.cycle)
      && (row.mrrPaise == 0 || IsMonthly(row.mrrPaise, row.amountPaise, row.cycle))
      && (row.status.TRIAL? || row.status.ACTIVE? ==> row.dunning.NONE? && row.attempts == 0)
      && (row.status.PAST_DUE? ==> row.dunning.RETRYING? && 1 <= row.attempts <= 2)
      && (row.status.HALTED? ==> row.dunning.EXHAUSTED? && row.attempts >= 1)
      && (row.status.CANCELLED? ==> row.mrrPaise == 0)
      && (row.providerId == Run(actions).rows[j].providerId ==> i == j)
  {
    RowsStayConsistent(actions);
    var rows := Run(actions).rows;
    if i < |rows| {
      RevenueOfPrice(rows[i].plan, rows[i].cycle);
    }
  }

  // ----- Invoices ---------------------------------------------------------------------------------------

  ghost predicate InvoicesInv(invoices: seq<Invoice>) {
    && (forall i | 0 <= i < |invoices| ::
          && invoices[i].number.suffix == Suffix(invoices[i].tenant)
          && invoices[i].number.sequence == InvoiceCount(invoices[..i], invoices[i].tenant) + 1)
    && (forall i, j | 0 <= i < j < |invoices| ::
          && invoices[i].number != invoices[j].number
          && (invoices[i].providerInvoiceId.Some? ==> invoices[i].providerInvoiceId != invoices[j].providerInvoiceId))
  }

  lemma AppendKeepsInvoices(invoices: seq<Invoice>, invoice: Invoice)
    requires InvoicesInv(invoices) && Storable(invoices, invoice)
    requires invoice.number == NextInvoiceNumber(invoices, invoice.tenant, invoice.number.year)
    ensures InvoicesInv(invoices + [invoice])
  {
    var all := invoices + [invoice];
    forall i | 0 <= i < |all| ensures all[..i] == if i < |invoices| then invoices[..i] else invoices {
    }
  }

  lemma ChargeKeepsInvoices(s: State, t: string, i: nat, d: Delivery)
    requires i < |s.rows| && InvoicesInv(s.invoices)
    ensures InvoicesInv(ChargedRow(s, t, i, d).0.invoices)
  {
    var invoices := ChargedRow(s, t, i, d).0.invoices;
    if invoices != s.invoices {
      var invoice := invoices[|s.invoices|];
      assert invoices == s.invoices + [invoice];
      AppendKeepsInvoices(s.invoices, invoice);
    }
  }

  lemma CallLeavesInvoices(s: State, c: ApiCall)
    ensures Call(s, c).invoices == s.invoices
  {
  }

  lemma HandleKeepsInvoices(s: State, t: string, providerId: string, d: Delivery)
    requires InvoicesInv(s.invoices)
    ensures InvoicesInv(Handle(s, t, providerId, d).0.invoices)
  {
    hide InvoicesInv, ChargedRow;
    var found := FindOwn(s.rows, t, providerId);
    if found.Some? {
      ChargeKeepsInvoices(s, t, found.value, d);
    }
  }

  lemma {:induction false} RunKeepsInvoices(actions: seq<Action>)
    ensures InvoicesInv(Run(actions).invoices)
  {
    hide Call, Handle;
    if actions != [] {
      var before, a := Run(actions[..|actions| - 1]), actions[|actions| - 1];
      RunKeepsInvoices(actions[..|actions| - 1]);
      match a
      case Api(c) => CallLeavesInvoices(before, c);
      case Hook(d) =>
        var t := TenantOf(before.rows, d);
        if Given(t) && Given(d.providerId) {
          HandleKeepsInvoices(before, t.value, d.providerId.value, d);
        }
    }
  }

  lemma {:induction false} CountGrows(invoices: seq<Invoice>, i: nat, j: nat, tenant: string)
    requires i <= j <= |invoices|
    ensures InvoiceCount(invoices[..i], tenant) <= InvoiceCount(invoices[..j], tenant)
    ensures i < j && invoices[i].tenant == tenant ==>
      InvoiceCount(invoices[..i], tenant) < InvoiceCount(invoices[..j], tenant)
    decreases j
  {
    if i < j {
      assert invoices[..j][..j - 1] == invoices[..j - 1];
      CountGrows(invoices, i, j - 1, tenant);
    }
  }

  /// In every run a tenant's invoices are numbered 1, 2, 3, ... in order of creation without gaps,
  /// no number is used twice, and no provider invoice is booked twice.
  lemma InvoicesAreNumberedWithoutGaps(actions: seq<Action>, i: nat, j: nat)
    ensures
      var invoices := Run(actions).invoices;
      && (i < |invoices| ==> invoices[i].number.sequence == InvoiceCount(invoices[..i], invoices[i].tenant) + 1)
      && (i < j < |invoices| ==>
            && invoices[i].number != invoices[j].number
            && (invoices[i].providerInvoiceId.Some? ==>
                  invoices[i].providerInvoiceId != invoices[j].providerInvoiceId)
            && (invoices[i].tenant == invoices[j].tenant ==>
                  invoices[i].number.sequence < invoices[j].number.sequence))
  {
    RunKeepsInvoices(actions);
    var invoices := Run(actions).invoices;
    if i < j < |invoices| {
      CountGrows(invoices, i, j, invoices[j].tenant);
    }
  }

  // ----- Repeated deliveries -------------------------------------------------------------------------------

  function DeliveredIds(actions: seq<Action>): set<string> {
    set i | 0 <= i < |actions| && actions[i].Hook? :: actions[i].delivery.eventId
  }

  predicate AllRecorded(actions: seq<Action>) {
    forall i | 0 <= i < |actions| && actions[i].Hook? :: actions[i].delivery.recorded
  }

  /// The ids whose delivery could be recorded at least once.
  function RecordedBy(actions: seq<Action>): set<string> {
    set i | 0 <= i < |actions| && actions[i].Hook? && actions[i].delivery.recorded :: actions[i].delivery.eventId
  }

  /// The run with every delivery removed whose event id an earlier delivery has recorded, whatever its
  /// content.
  function WithoutAbsorbed(actions: seq<Action>): seq<Action> {
    if actions == [] then [] else
    var before, last := actions[..|actions| - 1], actions[|actions| - 1];
    WithoutAbsorbed(before)
    + if last.Hook? && last.delivery.eventId in RecordedBy(before) then [] else [last]
  }

  /// The run with later deliveries of an event id removed, whatever their content.
  function WithoutRepeats(actions: seq<Action>): seq<Action> {
    if actions == [] then [] else
    var before, last := actions[..|actions| - 1], actions[|actions| - 1];
    WithoutRepeats(before)
    + if last.Hook? && last.delivery.eventId in DeliveredIds(before) then [] else [last]
  }

  lemma HandleLeavesWebhooks(s: State, t: string, providerId: string, d: Delivery)
    ensures Handle(s, t, providerId, d).0.webhooks == s.webhooks
  {
  }

  lemma StepRecords(s: State, a: Action)
    ensures Step(s, a).webhooks.Keys
            == s.webhooks.Keys + if a.Hook? && a.delivery.recorded then {a.delivery.eventId} else {}
  {
    hide Handle, TenantOf;
    if a.Hook? {
      var t, d := TenantOf(s.rows, a.delivery), a.delivery;
      if Given(t) && Given(d.providerId) {
        HandleLeavesWebhooks(s, t.value, d.providerId.value, d);
      }
    }
  }

  /// In every run the recorded events are the ids of which some delivery could be recorded.
  lemma {:induction false} RecordedIds(actions: seq<Action>)
    ensures Run(actions).webhooks.Keys == RecordedBy(actions)
  {
    hide Step, RecordedBy;
    if actions == [] {
      NothingRecorded();
    } else {
      var n := |actions| - 1;
      RecordedIds(actions[..n]);
      StepRecords(Run(actions[..n]), actions[n]);
      OneMoreRecord(actions);
    }
  }

  lemma NothingRecorded()
    ensures RecordedBy([]) == {}
  {
  }

  lemma OneMoreRecord(actions: seq<Action>)
    requires actions != []
    ensures
      var (before, last) := (actions[..|actions| - 1], actions[|actions| - 1]);
      RecordedBy(actions)
      == RecordedBy(before) + if last.Hook? && last.delivery.recorded then {last.delivery.eventId} else {}
  {
    var n := |actions| - 1;
    var before, last := actions[..n], actions[n];
    assert forall i | 0 <= i < n :: actions[i] == before[i];
    assert last.Hook? && last.delivery.recorded ==> last.delivery.eventId in RecordedBy(actions);
    assert forall id | id in RecordedBy(before) :: id in RecordedBy(actions);
  }

  /// In every run, whatever fails: a delivery whose id has been recorded changes nothing at all. The whole
  /// state ends up as if it had never come, whatever API calls happen in between.
  lemma {:induction false} AbsorbedChangeNothing(actions: seq<Action>)
    ensures Run(WithoutAbsorbed(actions)) == Run(actions)
  {
    hide RecordedBy;
    if actions != [] {
      var n := |actions| - 1;
      var before, last := actions[..n], actions[n];
      AbsorbedChangeNothing(before);
      RecordedIds(before);
      if last.Hook? && last.delivery.eventId in RecordedBy(before) {
        assert WithoutAbsorbed(actions) == WithoutAbsorbed(before);
      } else {
        RunAppend(WithoutAbsorbed(before), last);
      }
    }
  }

  lemma {:induction false} AllRecordedAreAbsorbed(actions: seq<Action>)
    requires AllRecorded(actions)
    ensures WithoutRepeats(actions) == WithoutAbsorbed(actions)
  {
    if actions != [] {
      AllRecordedAreAbsorbed(actions[..|actions| - 1]);
    }
  }

  /// So when every delivery gets recorded, repeated deliveries change nothing: subscriptions, invoices,
  /// plans, events and log end up as if each event id had been delivered once, whether its processing had
  /// succeeded, had been ignored or had failed half-way.
  lemma RepeatsChangeNothing(actions: seq<Action>)
    requires AllRecorded(actions)
    ensures Run(WithoutRepeats(actions)) == Run(actions)
  {
    AllRecordedAreAbsorbed(actions);
    AbsorbedChangeNothing(actions);
  }

  lemma RunAppend(actions: seq<Action>, a: Action)
    ensures Run(actions + [a]) == Step(Run(actions), a)
  {
    assert (actions + [a])[..|actions|] == actions;
  }

  // ----- What the code does not promise ------------------------------------------------------------------------

  function Notice(eventId: string, kind: Kind, providerId: string, recorded: bool): Action {
    Hook(Delivery(eventId, kind, None, Some(providerId), None, None, None, None, 2026, None, recorded))
  }

  const SUBSCRIBED := [Api(Start("acme", STARTER, MONTHLY, false, Some("sub1"), None))]
  const ROW := Subscription("acme", STARTER, ACTIVE, MONTHLY, 499_900, 499_900, "sub1", false, NONE, 0)

  lemma Subscribed()
    ensures Run(SUBSCRIBED).rows == [ROW] && Run(SUBSCRIBED).webhooks == map[]
  {
    assert SUBSCRIBED[..0] == [];
  }

  /// A start whose second write fails: the row earns revenue that no event has reported.
  lemma HalfDoneStartDrifts()
    ensures
      var s := Run([Api(Start("acme", STARTER, MONTHLY, false, Some("sub1"), Some(1)))]);
      RowMrr(s.rows, "acme") == 499_900 && LedgerMrr(s.log, "acme") == 0
  {
    var start := Api(Start("acme", STARTER, MONTHLY, false, Some("sub1"), Some(1)));
    RunAppend([], start);
    assert [] + [start] == [start];
    assert Run([start]).rows == [ROW] && [ROW][..0] == [];
  }

  /// One reported payment failure on a lone subscription that has had at most one.
  lemma PendingStep(s: State, row: Subscription, recorded: bool)
    requires s.rows == [row] && row.tenant == "acme" && row.providerId == "sub1" && row.attempts <= 1 && "e1" !in s.webhooks
    ensures
      var next := Step(s, Notice("e1", Pending, "sub1", recorded));
      && next.rows == [row.(status := PAST_DUE, dunning := RETRYING, attempts := row.attempts + 1)]
      && (!recorded ==> next.webhooks == s.webhooks)
  {
    assert FindByProvider(s.rows, "sub1") == Some(0);
    assert row.attempts + 1 < MAX_DUNNING_ATTEMPTS;
  }

  /// A charge on the first of two subscriptions makes it active and leaves the second alone.
  lemma ChargeStep(s: State)
    requires |s.rows| == 2 && s.rows[0].tenant == "acme" && "e2" !in s.webhooks
    requires s.rows[0].providerId == "sub1" && s.rows[1].providerId == "sub2"
    ensures Step(s, Notice("e2", Charge, "sub1", true)).rows
            == s.rows[0 := s.rows[0].(status := ACTIVE, dunning := NONE, attempts := 0)]
  {
    assert s.rows[..1] == [s.rows[0]];
    assert FindByProvider(s.rows, "sub1") == Some(0);
  }

  const HALTED_THEN_RESTARTED :=
    SUBSCRIBED + [Notice("e1", Halt, "sub1", true)] + [Api(Start("acme", GROWTH, MONTHLY, false, Some("sub2"), None))]

  lemma HaltedOnce()
    ensures
      var s := Run(SUBSCRIBED + [Notice("e1", Halt, "sub1", true)]);
      && s.rows == [ROW.(status := HALTED, dunning := EXHAUSTED, attempts := 1)]
      && s.webhooks == map["e1" := PROCESSED]
  {
    Subscribed();
    hide Run;
    RunAppend(SUBSCRIBED, Notice("e1", Halt, "sub1", true));
  }

  lemma StartedAfterHalt()
    ensures
      var s := Run(HALTED_THEN_RESTARTED);
      && |s.rows| == 2 && s.rows[0] == ROW.(status := HALTED, dunning := EXHAUSTED, attempts := 1)
      && s.rows[1].tenant == "acme" && s.rows[1].status == ACTIVE && s.rows[1].providerId == "sub2"
      && s.webhooks == map["e1" := PROCESSED]
  {
    HaltedOnce();
    hide Run;
    var a1 := SUBSCRIBED + [Notice("e1", Halt, "sub1", true)];
    RunAppend(a1, Api(Start("acme", GROWTH, MONTHLY, false, Some("sub2"), None)));
  }

  /// A halted subscription does not count as existing, and a later charge revives it: a tenant can
  /// end up with two active subscriptions.
  lemma TwoActiveSubscriptions()
    ensures
      var rows := Run(HALTED_THEN_RESTARTED + [Notice("e2", Charge, "sub1", true)]).rows;
      |rows| == 2 && rows[0].tenant == rows[1].tenant && rows[0].status == ACTIVE && rows[1].status == ACTIVE
  {
    StartedAfterHalt();
    ChargeStep(Run(HALTED_THEN_RESTARTED));
    RunAppend(HALTED_THEN_RESTARTED, Notice("e2", Charge, "sub1", true));
  }

  lemma CancelledOnce()
    ensures
      var s := Run(SUBSCRIBED + [Api(Cancel("acme", false, true))]);
      s.rows == [ROW.(status := CANCELLED, mrrPaise := 0)] && s.webhooks == map[]
  {
    Subscribed();
    hide Run;
    RunAppend(SUBSCRIBED, Api(Cancel("acme", false, true)));
    assert LatestLive([ROW], "acme") == Some(0);
  }

  /// A payment failure reported after an immediate cancellation brings the row back without revenue.
  lemma CancelledCanComeBack()
    ensures
      var rows := Run(SUBSCRIBED + [Api(Cancel("acme", false, true))] + [Notice("e1", Pending, "sub1", true)]).rows;
      rows == [ROW.(status := PAST_DUE, dunning := RETRYING, attempts := 1, mrrPaise := 0)]
  {
    CancelledOnce();
    hide Run, Step;
    var a1 := SUBSCRIBED + [Api(Cancel("acme", false, true))];
    RunAppend(a1, Notice("e1", Pending, "sub1", true));
    PendingStep(Run(a1), ROW.(status := CANCELLED, mrrPaise := 0), true);
  }

  /// A delivery that could not be recorded is processed again when it is repeated.
  lemma UnrecordedRepeatCounts()
    ensures
      var first := SUBSCRIBED + [Notice("e1", Pending, "sub1", false)];
      && Run(first).rows == [ROW.(status := PAST_DUE, dunning := RETRYING, attempts := 1)]
      && Run(first + [Notice("e1", Pending, "sub1", true)]).rows
         == [ROW.(status := PAST_DUE, dunning := RETRYING, attempts := 2)]
  {
    Subscribed();
    hide Run, Step;
    var first := SUBSCRIBED + [Notice("e1", Pending, "sub1", false)];
    RunAppend(SUBSCRIBED, Notice("e1", Pending, "sub1", false));
    PendingStep(Run(SUBSCRIBED), ROW, false);
    RunAppend(first, Notice("e1", Pending, "sub1", true));
    PendingStep(Run(first), ROW.(status := PAST_DUE, dunning := RETRYING, attempts := 1), true);
  }
}
