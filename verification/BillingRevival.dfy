/// Rows that come back: exactly which steps give a tenant a second active, trial or past-due
/// subscription, and exactly which deliveries bring a cancelled one back.
module BillingRevival {
  import opened Common
  import opened Billing
  import opened BillingLedger

  // ----- At most one subscription that counts as existing ---------------------------------------------

  predicate AtMostOneExisting(rows: seq<Subscription>) {
    forall i, j | 0 <= i < j < |rows| && rows[i].tenant == rows[j].tenant ::
      !CountsAsExisting(rows[i].status) || !CountsAsExisting(rows[j].status)
  }

  predicate OtherExists(rows: seq<Subscription>, i: nat)
    requires i < |rows|
  {
    exists j | 0 <= j < |rows| && j != i :: rows[j].tenant == rows[i].tenant && CountsAsExisting(rows[j].status)
  }

  /// The row that a delivery is processed for, if its first write succeeds.
  function Addressed(s: State, d: Delivery): (r: Option<nat>)
    ensures r.Some? ==> r.value < |s.rows|
  {
    var t := TenantOf(s.rows, d);
    if d.eventId in s.webhooks || !Given(t) || !Given(d.providerId) || FaultAt(d, 0) then None
    else FindOwn(s.rows, t.value, d.providerId.value)
  }

  /// The halted or cancelled row that a step turns into an existing one: a charge, or a failed payment
  /// before the third, or a plan change of a halted subscription.
  function Revived(s: State, a: Action): (r: Option<nat>)
    ensures r.Some? ==> r.value < |s.rows|
  {
    match a
    case Hook(d) =>
      var i := Addressed(s, d);
      if i.Some? && !CountsAsExisting(s.rows[i.value].status)
         && (d.kind.Activation? || d.kind.Charge?
             || (d.kind.Pending? && s.rows[i.value].attempts + 1 < MAX_DUNNING_ATTEMPTS))
      then i else None
    case Api(Start(_, _, _, _, _, _)) => None
    case Api(Cancel(_, _, _)) => None
    case Api(ChangePlan(t, _, _, gatewayOk, fault)) =>
      var i := LatestLive(s.rows, t);
      if i.Some? && gatewayOk && !Faulted(fault, 0) && s.rows[i.value].status.HALTED? then i else None
  }

  /// It does so while another row of the tenant counts as existing.
  predicate Collides(s: State, a: Action) {
    Revived(s, a).Some? && OtherExists(s.rows, Revived(s, a).value)
  }

  lemma TouchIff(rows: seq<Subscription>, i: nat, row: Subscription)
    requires AtMostOneExisting(rows) && i < |rows| && row.tenant == rows[i].tenant
    ensures AtMostOneExisting(rows[i := row])
            <==> (CountsAsExisting(row.status) && !CountsAsExisting(rows[i].status) ==> !OtherExists(rows, i))
  {
    var after := rows[i := row];
    if CountsAsExisting(row.status) && OtherExists(rows, i) {
      var j :| 0 <= j < |rows| && j != i && rows[j].tenant == rows[i].tenant && CountsAsExisting(rows[j].status);
      assert after[j] == rows[j] && after[i] == row;
    } else {
      forall j, k | 0 <= j < k < |after| && after[j].tenant == after[k].tenant
        ensures !CountsAsExisting(after[j].status) || !CountsAsExisting(after[k].status)
      {
        if j != i && k != i {
          assert after[j] == rows[j] && after[k] == rows[k];
        }
      }
    }
  }

  lemma StartKeepsOne(s: State, c: ApiCall)
    requires AtMostOneExisting(s.rows) && c.Start?
    ensures AtMostOneExisting(Call(s, c).rows)
  {
    hide PricePaise, MrrPaiseFor, FindByProvider;
  }

  lemma ChangePlanKeepsOneIff(s: State, c: ApiCall)
    requires AtMostOneExisting(s.rows) && c.ChangePlan?
    ensures AtMostOneExisting(Call(s, c).rows) <==> !Collides(s, Api(c))
  {
    hide AtMostOneExisting, OtherExists, PricePaise, MrrPaiseFor;
    var live := LatestLive(s.rows, c.tenant);
    if live.Some? {
      TouchIff(s.rows, live.value, ChangedRow(s.rows[live.value], c.plan, c.newCycle));
    }
  }

  lemma CancelKeepsOne(s: State, c: ApiCall)
    requires AtMostOneExisting(s.rows) && c.Cancel?
    ensures AtMostOneExisting(Call(s, c).rows)
  {
    hide AtMostOneExisting, OtherExists;
    var live := LatestLive(s.rows, c.tenant);
    if live.Some? {
      TouchIff(s.rows, live.value, Call(s, c).rows[live.value]);
    }
  }

  /// What a delivery does to the addressed row; no other row changes.
  function Handled(sub: Subscription, kind: Kind): Subscription {
    var attempts := sub.attempts + 1;
    match kind
    case Activation => Reactivated(sub)
    case Charge => Reactivated(sub)
    case Pending =>
      var halted := attempts >= MAX_DUNNING_ATTEMPTS;
      sub.(status := if halted then HALTED else PAST_DUE, dunning := if halted then EXHAUSTED else RETRYING,
           attempts := attempts)
    case Halt => sub.(status := HALTED, dunning := EXHAUSTED, attempts := attempts)
    case Cancellation => Ended(sub)
    case Completion => Ended(sub)
    case Other => sub
  }

  function Ended(sub: Subscription): Subscription {
    if sub.status.CANCELLED? || sub.status.EXPIRED? then sub
    else sub.(status := CANCELLED, cancelAtPeriodEnd := false, mrrPaise := 0)
  }

  lemma ChargeTouches(s: State, t: string, i: nat, d: Delivery)
    requires i < |s.rows|
    ensures ChargedRow(s, t, i, d).0.rows == if FaultAt(d, 0) then s.rows else s.rows[i := Reactivated(s.rows[i])]
  {
  }

  lemma HandleTouches(s: State, t: string, providerId: string, d: Delivery)
    ensures
      var i := FindOwn(s.rows, t, providerId);
      Handle(s, t, providerId, d).0.rows
      == if i.None? || FaultAt(d, 0) then s.rows else s.rows[i.value := Handled(s.rows[i.value], d.kind)]
  {
    hide ChargedRow;
    var i := FindOwn(s.rows, t, providerId);
    if i.Some? {
      ChargeTouches(s, t, i.value, d);
      assert s.rows[i.value := s.rows[i.value]] == s.rows;
    }
  }

  lemma DeliveryTouches(s: State, d: Delivery)
    ensures
      var i := Addressed(s, d);
      Deliver(s, d).rows == if i.None? then s.rows else s.rows[i.value := Handled(s.rows[i.value], d.kind)]
  {
    hide Handle, FindOwn;
    var t, i := TenantOf(s.rows, d), Addressed(s, d);
    if Given(t) && Given(d.providerId) {
      HandleTouches(s, t.value, d.providerId.value, d);
    }
    if i.Some? {
      assert s.rows[i.value := s.rows[i.value]] == s.rows;
    }
  }

  lemma DeliveryKeepsOneIff(s: State, d: Delivery)
    requires AtMostOneExisting(s.rows)
    ensures AtMostOneExisting(Deliver(s, d).rows) <==> !Collides(s, Hook(d))
  {
    hide AtMostOneExisting, OtherExists, Deliver, Addressed;
    DeliveryTouches(s, d);
    var i := Addressed(s, d);
    if i.Some? {
      TouchIff(s.rows, i.value, Handled(s.rows[i.value], d.kind));
    }
  }

  /// One step keeps at most one existing subscription per tenant, unless it revives one beside another.
  lemma StepKeepsOneIff(s: State, a: Action)
    requires AtMostOneExisting(s.rows)
    ensures AtMostOneExisting(Step(s, a).rows) <==> !Collides(s, a)
  {
    hide AtMostOneExisting, OtherExists, Deliver, Call, Addressed, LatestLive;
    match a
    case Hook(d) => DeliveryKeepsOneIff(s, d);
    case Api(c) =>
      if c.Start? {
        StartKeepsOne(s, c);
      } else if c.ChangePlan? {
        ChangePlanKeepsOneIff(s, c);
      } else {
        CancelKeepsOne(s, c);
      }
  }

  ghost predicate AlwaysAtMostOne(actions: seq<Action>) {
    forall k | 0 <= k <= |actions| :: AtMostOneExisting(Run(actions[..k]).rows)
  }

  /// Throughout a run a tenant has at most one active, trial or past-due subscription, exactly when no
  /// step of the run revives one beside another.
  lemma {:induction false} OneSubscriptionIff(actions: seq<Action>)
    ensures AlwaysAtMostOne(actions) <==> forall k | 0 <= k < |actions| :: !Collides(Run(actions[..k]), actions[k])
  {
    hide AtMostOneExisting, Collides, Step, Run;
    if actions == [] {
      NoRowsAtFirst();
      assert actions[..0] == [];
    } else {
      var n := |actions| - 1;
      var before := actions[..n];
      OneSubscriptionIff(before);
      LastAction(actions);
      assert AlwaysAtMostOne(actions) <==> AlwaysAtMostOne(before) && AtMostOneExisting(Run(actions).rows);
      if AlwaysAtMostOne(before) {
        assert AtMostOneExisting(Run(before[..n]).rows);
        StepKeepsOneIff(Run(before), actions[n]);
      }
    }
  }

  lemma NoRowsAtFirst()
    ensures AtMostOneExisting(Run([]).rows)
  {
  }

  // ----- Cancelled rows -------------------------------------------------------------------------------

  predicate IsCancelled(s: State, i: nat) {
    i < |s.rows| && s.rows[i].status.CANCELLED?
  }

  /// A new delivery of a charge or of a failed payment that is processed for this row.
  predicate BringsBack(s: State, a: Action, i: nat) {
    && a.Hook? && Addressed(s, a.delivery) == Some(i)
    && (a.delivery.kind.Activation? || a.delivery.kind.Charge? || a.delivery.kind.Pending? || a.delivery.kind.Halt?)
  }

  lemma CallKeepsCancelled(s: State, c: ApiCall, i: nat)
    requires IsCancelled(s, i)
    ensures IsCancelled(Call(s, c), i)
  {
    hide PricePaise, MrrPaiseFor, HasExisting, FindByProvider;
  }

  lemma StepKeepsCancelledIff(s: State, a: Action, i: nat)
    requires IsCancelled(s, i)
    ensures IsCancelled(Step(s, a), i) <==> !BringsBack(s, a, i)
  {
    hide Deliver, Call, Addressed;
    match a
    case Api(c) => CallKeepsCancelled(s, c, i);
    case Hook(d) => DeliveryTouches(s, d);
  }

  ghost predicate StaysCancelled(actions: seq<Action>, from: nat, i: nat) {
    forall k | from <= k <= |actions| :: IsCancelled(Run(actions[..k]), i)
  }

  /// A row that is cancelled at some point of a run stays cancelled from there on, exactly when no
  /// charge or failed payment is processed for it afterwards.
  lemma {:induction false} CancelledStaysIff(actions: seq<Action>, from: nat, i: nat)
    requires from <= |actions| && IsCancelled(Run(actions[..from]), i)
    ensures StaysCancelled(actions, from, i)
            <==> forall k | from <= k < |actions| :: !BringsBack(Run(actions[..k]), actions[k], i)
    decreases |actions|
  {
    hide IsCancelled, BringsBack, Step, Run;
    if from < |actions| {
      var n := |actions| - 1;
      var before := actions[..n];
      LastAction(actions);
      CancelledStaysIff(before, from, i);
      assert StaysCancelled(actions, from, i) <==> StaysCancelled(before, from, i) && IsCancelled(Run(actions), i);
      if StaysCancelled(before, from, i) {
        assert IsCancelled(Run(before[..n]), i);
        StepKeepsCancelledIff(Run(before), actions[n], i);
      }
    }
  }
}
