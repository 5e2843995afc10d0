/// Two more things every billing run keeps: the plan on file for a tenant is the plan of one of its
/// rows, and lost revenue is always reported twice over, as churn and as a change to zero.
module BillingAudit {
  import opened Common
  import opened Billing
  import opened BillingLedger

  // ----- The plan on file ---------------------------------------------------------------------------

  predicate HasPlan(rows: seq<Subscription>, tenant: string, plan: Plan) {
    exists i | 0 <= i < |rows| :: rows[i].tenant == tenant && rows[i].plan == plan
  }

  /// Every plan that billing has put on a tenant is the plan of one of its rows.
  ghost predicate OnFile(rows: seq<Subscription>, plans: map<string, Plan>) {
    forall t | t in plans :: HasPlan(rows, t, plans[t])
  }

  predicate SamePlans(before: seq<Subscription>, after: seq<Subscription>) {
    |before| == |after|
    && forall i | 0 <= i < |before| :: after[i].tenant == before[i].tenant && after[i].plan == before[i].plan
  }

  lemma SamePlansKeep(rows: seq<Subscription>, after: seq<Subscription>, plans: map<string, Plan>)
    requires OnFile(rows, plans) && SamePlans(rows, after)
    ensures OnFile(after, plans)
  {
    forall t | t in plans
      ensures HasPlan(after, t, plans[t])
    {
      var i :| 0 <= i < |rows| && rows[i].tenant == t && rows[i].plan == plans[t];
      assert after[i].tenant == t && after[i].plan == plans[t];
    }
  }

  /// Filing the plan of one of the rows.
  lemma FilingKeeps(rows: seq<Subscription>, plans: map<string, Plan>, i: nat)
    requires OnFile(rows, plans) && i < |rows|
    ensures OnFile(rows, plans[rows[i].tenant := rows[i].plan])
  {
  }

  lemma AppendKeeps(rows: seq<Subscription>, plans: map<string, Plan>, row: Subscription)
    requires OnFile(rows, plans)
    ensures OnFile(rows + [row], plans)
  {
    forall t | t in plans
      ensures HasPlan(rows + [row], t, plans[t])
    {
      var i :| 0 <= i < |rows| && rows[i].tenant == t && rows[i].plan == plans[t];
      assert (rows + [row])[i] == rows[i];
    }
  }

  /// Changing a row keeps the others' plans on file; its own tenant's as long as some row has it.
  lemma ReplaceKeepsIff(rows: seq<Subscription>, plans: map<string, Plan>, i: nat, row: Subscription)
    requires OnFile(rows, plans) && i < |rows| && row.tenant == rows[i].tenant
    ensures OnFile(rows[i := row], plans)
            <==> (row.tenant in plans ==> HasPlan(rows[i := row], row.tenant, plans[row.tenant]))
  {
    var after := rows[i := row];
    forall t | t in plans && t != row.tenant
      ensures HasPlan(after, t, plans[t])
    {
      var k :| 0 <= k < |rows| && rows[k].tenant == t && rows[k].plan == plans[t];
      assert after[k] == rows[k];
    }
  }

  /// A plan change that fails between its writes leaves the old plan on the tenant. It is an orphan when
  /// no other row has it.
  predicate Orphans(s: State, a: Action) {
    && a.Api? && a.call.ChangePlan?
    && a.call.gatewayOk && !Faulted(a.call.faultAfter, 0) && Faulted(a.call.faultAfter, 1)
    && var t, live := a.call.tenant, LatestLive(s.rows, a.call.tenant);
       && live.Some? && t in s.plans && a.call.plan != s.plans[t]
       && (forall k | 0 <= k < |s.rows| && k != live.value :: !(s.rows[k].tenant == t && s.rows[k].plan == s.plans[t]))
  }

  lemma StartKeepsPlans(s: State, c: ApiCall)
    requires OnFile(s.rows, s.plans) && c.Start?
    ensures OnFile(Call(s, c).rows, Call(s, c).plans)
  {
    hide OnFile, PricePaise, MrrPaiseFor, HasExisting, FindByProvider;
    var s' := Call(s, c);
    if s'.rows != s.rows {
      AppendKeeps(s.rows, s.plans, s'.rows[|s.rows|]);
      FilingKeeps(s'.rows, s.plans, |s.rows|);
    }
  }

  lemma ChangePlanKeepsPlansIff(s: State, c: ApiCall)
    requires OnFile(s.rows, s.plans) && c.ChangePlan?
    ensures OnFile(Call(s, c).rows, Call(s, c).plans) <==> !Orphans(s, Api(c))
  {
    hide OnFile, PricePaise, MrrPaiseFor;
    var live := LatestLive(s.rows, c.tenant);
    if live.Some? && c.gatewayOk && !Faulted(c.faultAfter, 0) {
      var i, t := live.value, c.tenant;
      var row := ChangedRow(s.rows[i], c.plan, c.newCycle);
      var after := s.rows[i := row];
      ReplaceKeepsIff(s.rows, s.plans, i, row);
      assert after[i] == row;
      if Faulted(c.faultAfter, 1) {
        if t in s.plans && c.plan != s.plans[t] {
          assert forall k | 0 <= k < |s.rows| && k != i :: after[k] == s.rows[k];
        }
      } else {
        FiledAfterChange(s.rows, s.plans, i, row);
      }
    }
  }

  lemma FiledAfterChange(rows: seq<Subscription>, plans: map<string, Plan>, i: nat, row: Subscription)
    requires OnFile(rows, plans) && i < |rows| && row.tenant == rows[i].tenant
    ensures OnFile(rows[i := row], plans[row.tenant := row.plan])
  {
    var after := rows[i := row];
    assert after[i] == row;
    forall t | t in plans && t != row.tenant
      ensures HasPlan(after, t, plans[t])
    {
      var k :| 0 <= k < |rows| && rows[k].tenant == t && rows[k].plan == plans[t];
      assert after[k] == rows[k];
    }
  }

  lemma CancelKeepsPlans(s: State, c: ApiCall)
    requires OnFile(s.rows, s.plans) && c.Cancel?
    ensures OnFile(Call(s, c).rows, Call(s, c).plans)
  {
    hide OnFile;
    SamePlansKeep(s.rows, Call(s, c).rows, s.plans);
  }

  lemma ChargeKeepsPlans(s: State, t: string, i: nat, d: Delivery)
    requires OnFile(s.rows, s.plans) && i < |s.rows| && s.rows[i].tenant == t
    ensures OnFile(ChargedRow(s, t, i, d).0.rows, ChargedRow(s, t, i, d).0.plans)
  {
    hide OnFile;
    var rows := s.rows[i := Reactivated(s.rows[i])];
    SamePlansKeep(s.rows, rows, s.plans);
    FilingKeeps(rows, s.plans, i);
  }

  lemma HandleKeepsPlans(s: State, t: string, providerId: string, d: Delivery)
    requires OnFile(s.rows, s.plans)
    ensures OnFile(Handle(s, t, providerId, d).0.rows, Handle(s, t, providerId, d).0.plans)
  {
    hide OnFile, ChargedRow;
    var found := FindOwn(s.rows, t, providerId);
    if found.Some? {
      if d.kind.Activation? || d.kind.Charge? {
        ChargeKeepsPlans(s, t, found.value, d);
      } else {
        SamePlansKeep(s.rows, Handle(s, t, providerId, d).0.rows, s.plans);
      }
    }
  }

  /// One step keeps every filed plan on some row, unless it orphans one.
  lemma StepKeepsPlansIff(s: State, a: Action)
    requires OnFile(s.rows, s.plans)
    ensures OnFile(Step(s, a).rows, Step(s, a).plans) <==> !Orphans(s, a)
  {
    hide OnFile, Handle, Call;
    match a
    case Api(c) =>
      if c.Start? {
        StartKeepsPlans(s, c);
      } else if c.ChangePlan? {
        ChangePlanKeepsPlansIff(s, c);
      } else {
        CancelKeepsPlans(s, c);
      }
    case Hook(d) =>
      var t := TenantOf(s.rows, d);
      if Given(t) && Given(d.providerId) {
        HandleKeepsPlans(s, t.value, d.providerId.value, d);
      }
  }

  ghost predicate AlwaysOnFile(actions: seq<Action>) {
    forall k | 0 <= k <= |actions| :: OnFile(Run(actions[..k]).rows, Run(actions[..k]).plans)
  }

  /// Throughout a run every plan that billing has put on a tenant is the plan of one of its rows,
  /// exactly when no call of the run orphans one.
  lemma {:induction false} PlansStayOnFile(actions: seq<Action>)
    ensures AlwaysOnFile(actions) <==> forall k | 0 <= k < |actions| :: !Orphans(Run(actions[..k]), actions[k])
  {
    hide OnFile, Orphans, Step, Run;
    if actions == [] {
      NothingOnFile();
      assert actions[..0] == [];
    } else {
      var n := |actions| - 1;
      var before := actions[..n];
      PlansStayOnFile(before);
      LastAction(actions);
      assert AlwaysOnFile(actions) <==> AlwaysOnFile(before) && OnFile(Run(actions).rows, Run(actions).plans);
      if AlwaysOnFile(before) {
        assert OnFile(Run(before[..n]).rows, Run(before[..n]).plans);
        StepKeepsPlansIff(Run(before), actions[n]);
      }
    }
  }

  lemma NothingOnFile()
    ensures OnFile(Run([]).rows, Run([]).plans)
  {
  }

  const FAILED_CHANGE := Api(ChangePlan("acme", GROWTH, None, true, Some(1)))

  /// A plan change whose second write fails leaves a plan on the tenant that no row has.
  lemma FailedChangeOrphansPlan()
    ensures !AlwaysOnFile(SUBSCRIBED + [FAILED_CHANGE])
  {
    var actions := SUBSCRIBED + [FAILED_CHANGE];
    Subscribed();
    assert SUBSCRIBED[..0] == [];
    assert Run(SUBSCRIBED).plans == map["acme" := STARTER];
    assert LatestLive([ROW], "acme") == Some(0);
    assert Orphans(Run(SUBSCRIBED), FAILED_CHANGE);
    assert actions[..1] == SUBSCRIBED;
    PlansStayOnFile(actions);
  }

  // ----- Churn ------------------------------------------------------------------------------------------

  predicate DropsToZero(e: Event) {
    e.MrrChanged? && e.mrrPaise == 0
  }

  /// Churn is followed by the matching change to zero, and nothing else changes to zero.
  predicate Paired(log: seq<Event>) {
    && (forall i | 0 <= i < |log| && log[i].Churn? ::
          i + 1 < |log| && log[i + 1] == MrrChanged(log[i].tenant, log[i].plan, log[i].mrrPaiseLost, 0))
    && (forall i | 0 <= i < |log| && DropsToZero(log[i]) :: i > 0 && log[i - 1].Churn?)
  }

  lemma PairedJoin(first: seq<Event>, rest: seq<Event>)
    requires Paired(first) && Paired(rest)
    ensures Paired(first + rest)
  {
    var log := first + rest;
    forall i | 0 <= i < |log| && log[i].Churn?
      ensures i + 1 < |log| && log[i + 1] == MrrChanged(log[i].tenant, log[i].plan, log[i].mrrPaiseLost, 0)
    {
      if i < |first| {
        assert log[i] == first[i] && log[i + 1] == first[i + 1];
      } else {
        assert log[i] == rest[i - |first|] && log[i + 1] == rest[i - |first| + 1];
      }
    }
    forall i | 0 <= i < |log| && DropsToZero(log[i])
      ensures i > 0 && log[i - 1].Churn?
    {
      if i < |first| {
        assert log[i] == first[i] && log[i - 1] == first[i - 1];
      } else {
        assert log[i] == rest[i - |first|] && log[i - 1] == rest[i - |first| - 1];
      }
    }
  }

  lemma CallPairs(s: State, c: ApiCall)
    ensures |s.log| <= |Call(s, c).log| && Call(s, c).log[..|s.log|] == s.log
    ensures Paired(Call(s, c).log[|s.log|..])
  {
    hide MrrPaiseFor, HasExisting, FindByProvider, Paired;
    var log := Call(s, c).log;
    match c
    case Start(t, plan, cycle, _, _, _) =>
      MrrIsPositive(plan, cycle);
      if log != s.log {
        assert log[|s.log|..] == [log[|s.log|], MrrChanged(t, plan, 0, MrrPaiseFor(plan, cycle))];
      }
      ShortLogs(log[|s.log|..]);
    case ChangePlan(t, plan, newCycle, _, _) =>
      MrrIsPositive(plan, MONTHLY);
      MrrIsPositive(plan, YEARLY);
      ShortLogs(log[|s.log|..]);
    case Cancel(_, _, _) =>
      ShortLogs(log[|s.log|..]);
  }

  lemma MrrIsPositive(plan: Plan, cycle: Cycle)
    ensures MrrPaiseFor(plan, cycle) > 0
  {
  }

  /// What one step appends: nothing, one harmless event, or two that fit together.
  lemma ShortLogs(log: seq<Event>)
    requires |log| <= 2
    requires |log| >= 1 ==> !DropsToZero(log[0])
    requires |log| == 1 ==> !log[0].Churn?
    requires |log| == 2 ==> !log[1].Churn?
    requires |log| == 2 && log[0].Churn? ==> log[1] == MrrChanged(log[0].tenant, log[0].plan, log[0].mrrPaiseLost, 0)
    requires |log| == 2 && !log[0].Churn? ==> !DropsToZero(log[1])
    ensures Paired(log)
  {
  }

  lemma HandlePairs(s: State, t: string, providerId: string, d: Delivery)
    ensures
      var log := Handle(s, t, providerId, d).0.log;
      |s.log| <= |log| && log[..|s.log|] == s.log && Paired(log[|s.log|..])
  {
    hide ChargedRow, Paired, FindOwn;
    var found := FindOwn(s.rows, t, providerId);
    if found.Some? {
      ChargeEffects(s, t, found.value, d);
    }
    ShortLogs(Handle(s, t, providerId, d).0.log[|s.log|..]);
  }

  lemma StepPairs(s: State, a: Action)
    requires Paired(s.log)
    ensures Paired(Step(s, a).log)
  {
    hide Handle, Call, Paired;
    var log := Step(s, a).log;
    match a
    case Api(c) =>
      CallPairs(s, c);
      PairedJoin(s.log, log[|s.log|..]);
      assert log == log[..|s.log|] + log[|s.log|..];
    case Hook(d) =>
      var t := TenantOf(s.rows, d);
      if Given(t) && Given(d.providerId) {
        HandlePairs(s, t.value, d.providerId.value, d);
        var handled := Handle(s, t.value, d.providerId.value, d).0.log;
        PairedJoin(s.log, handled[|s.log|..]);
        assert handled == handled[..|s.log|] + handled[|s.log|..];
      }
  }

  /// In every run lost revenue is reported as churn and, right after it, as the change to zero of the
  /// same amount; and no other event takes a tenant's revenue to zero.
  lemma {:induction false} ChurnIsPaired(actions: seq<Action>)
    ensures Paired(Run(actions).log)
  {
    if actions != [] {
      ChurnIsPaired(actions[..|actions| - 1]);
      StepPairs(Run(actions[..|actions| - 1]), actions[|actions| - 1]);
    }
  }
}
