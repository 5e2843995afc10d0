/// Sales under the RERA rule over whole runs: payments are recorded when the rule admits them, while stages
/// are completed, reopened and revised.
module ReraRuns {
  import opened Common
  import opened ReraRules

  datatype Sale = Sale(total: nat, paid: int, stages: seq<Stage>)

  /// A revision replaces the list of stages, or edits caps and orders in it.
  datatype Action = Pay(amount: int) | Complete(stage: nat) | Reopen(stage: nat) | Revise(stages: seq<Stage>)

  function Mark(stages: seq<Stage>, i: nat, isCompleted: bool): seq<Stage> {
    if i < |stages| then stages[i := stages[i].(isCompleted := isCompleted)] else stages
  }

  function Step(s: Sale, a: Action): Sale {
    match a
    case Pay(amount) =>
      var eval := EvaluatePaymentStageRule(s.total, s.paid, amount, s.stages);
      if eval.Ok? && eval.value.allowed then s.(paid := s.paid + amount) else s
    case Complete(i) => s.(stages := Mark(s.stages, i, true))
    case Reopen(i) => s.(stages := Mark(s.stages, i, false))
    case Revise(stages) => s.(stages := stages)
  }

  function Run(s: Sale, actions: seq<Action>): Sale {
    if actions == [] then s else Step(Run(s, actions[..|actions| - 1]), actions[|actions| - 1])
  }

  lemma RunAppend(s: Sale, actions: seq<Action>, a: Action)
    ensures Run(s, actions + [a]) == Step(Run(s, actions), a)
  {
    assert (actions + [a])[..|actions|] == actions;
  }

  // ----- Never more than the consideration ------------------------------------------------------------------

  /// Some stage is configured, and none allows more than the whole.
  predicate Bounded(stages: seq<Stage>) {
    stages != [] && forall i | 0 <= i < |stages| :: stages[i].maxCumulativePctBps <= 10000
  }

  lemma AdmittedWithinTotal(s: Sale, amount: int)
    requires Bounded(s.stages) && s.paid <= s.total
    ensures Step(s, Pay(amount)).paid <= s.total
  {
    hide ApplicableIndex, MaxAllowedPaiseFromPct;
    var stage := Applicable(s.stages).value;
    var i :| 0 <= i < |s.stages| && s.stages[i] == stage;
    if stage.maxCumulativePctBps >= 0 {
      CapGrowsWithPercentage(s.total, 0, stage.maxCumulativePctBps);
    } else {
      NegativePercentageFails(s.total, stage.maxCumulativePctBps);
    }
  }

  lemma NegativePercentageFails(total: nat, pct: int)
    requires pct < 0
    ensures MaxAllowedPaiseFromPct(total, Whole(pct)).Err?
  {
  }

  /// While some stage is configured and none allows more than the whole, no run collects more than the
  /// consideration, however stages are completed, reopened and revised.
  lemma {:induction false} NeverMoreThanTheConsideration(s: Sale, actions: seq<Action>)
    requires Bounded(s.stages) && s.paid <= s.total
    requires forall k | 0 <= k < |actions| && actions[k].Revise? :: Bounded(actions[k].stages)
    ensures Run(s, actions).paid <= Run(s, actions).total == s.total && Bounded(Run(s, actions).stages)
  {
    hide EvaluatePaymentStageRule, Bounded;
    if actions != [] {
      var n := |actions| - 1;
      var before := Run(s, actions[..n]);
      NeverMoreThanTheConsideration(s, actions[..n]);
      match actions[n]
      case Pay(amount) => AdmittedWithinTotal(before, amount);
      case Complete(i) => MarkKeepsBounded(before.stages, i, true);
      case Reopen(i) => MarkKeepsBounded(before.stages, i, false);
      case Revise(_) =>
    }
  }

  lemma MarkKeepsBounded(stages: seq<Stage>, i: nat, isCompleted: bool)
    requires Bounded(stages)
    ensures Bounded(Mark(stages, i, isCompleted))
  {
  }

  // ----- What completing and reopening can reach --------------------------------------------------------------

  predicate OnlyMarks(actions: seq<Action>) {
    forall k | 0 <= k < |actions| :: !actions[k].Revise?
  }

  function ReopenFirst(n: nat): seq<Action> {
    if n == 0 then [] else ReopenFirst(n - 1) + [Reopen(n - 1)]
  }

  function Reopened(stages: seq<Stage>, n: nat): seq<Stage>
    requires n <= |stages|
  {
    seq(|stages|, i requires 0 <= i < |stages| => if i < n then stages[i].(isCompleted := false) else stages[i])
  }

  lemma {:induction false} ReopensFirst(s: Sale, n: nat)
    requires n <= |s.stages|
    ensures OnlyMarks(ReopenFirst(n)) && Run(s, ReopenFirst(n)) == s.(stages := Reopened(s.stages, n))
  {
    hide Reopened, Run;
    if n == 0 {
      ReopenedNone(s.stages);
      RunOfNone(s);
    } else {
      ReopensFirst(s, n - 1);
      RunAppend(s, ReopenFirst(n - 1), Reopen(n - 1));
      ReopenedOneMore(s.stages, n);
    }
  }

  lemma RunOfNone(s: Sale)
    ensures Run(s, []) == s
  {
  }

  lemma ReopenedNone(stages: seq<Stage>)
    ensures Reopened(stages, 0) == stages
  {
  }

  lemma ReopenedOneMore(stages: seq<Stage>, n: nat)
    requires 0 < n <= |stages|
    ensures Mark(Reopened(stages, n - 1), n - 1, false) == Reopened(stages, n)
  {
  }

  lemma OnlyCompleted(stages: seq<Stage>, k: nat)
    requires k < |stages| && stages[k].isCompleted
    requires forall i | 0 <= i < |stages| && i != k :: !stages[i].isCompleted
    ensures Applicable(stages) == Some(stages[k])
  {
  }

  lemma PayTheWholeCap(s: Sale, stage: Stage)
    requires s.total == 10000 && s.paid == 0 && stage.maxCumulativePctBps >= 0
    requires Applicable(s.stages) == Some(stage.(isCompleted := true))
    ensures Step(s, Pay(stage.maxCumulativePctBps)) == s.(paid := stage.maxCumulativePctBps)
  {
    hide Applicable;
    assert MaxAllowedPaiseFromPct(10000, Whole(stage.maxCumulativePctBps)) == Ok(stage.maxCumulativePctBps);
  }

  function PayCapOf(stages: seq<Stage>, i: nat): seq<Action>
    requires i < |stages|
  {
    ReopenFirst(|stages|) + [Complete(i)] + [Pay(stages[i].maxCumulativePctBps)]
  }

  /// From any stages: reopen all, complete one, pay its whole cap.
  lemma PaysCapOf(stages: seq<Stage>, i: nat)
    requires i < |stages| && stages[i].maxCumulativePctBps >= 0
    ensures OnlyMarks(PayCapOf(stages, i))
    ensures Run(Sale(10000, 0, stages), PayCapOf(stages, i))
            == Sale(10000, stages[i].maxCumulativePctBps, Mark(Reopened(stages, |stages|), i, true))
  {
    hide Run, Applicable, EvaluatePaymentStageRule;
    var s, n, cap := Sale(10000, 0, stages), |stages|, stages[i].maxCumulativePctBps;
    ReopensFirst(s, n);
    RunAppend(s, ReopenFirst(n), Complete(i));
    RunAppend(s, ReopenFirst(n) + [Complete(i)], Pay(cap));
    var s1 := s.(stages := Mark(Reopened(stages, n), i, true));
    OnlyCompleted(s1.stages, i);
    PayTheWholeCap(s1, stages[i]);
  }

  ghost predicate CollectsAtMostTheTotal(stages: seq<Stage>) {
    forall total: nat, actions: seq<Action> | OnlyMarks(actions) ::
      Run(Sale(total, 0, stages), actions).paid <= total
  }

  /// Exactly which lists keep every run within the consideration: without stages anything is admitted, and
  /// a cap above the whole can be paid in full.
  lemma ConsiderationIff(stages: seq<Stage>)
    ensures CollectsAtMostTheTotal(stages) <==> Bounded(stages)
  {
    if Bounded(stages) {
      forall total: nat, actions: seq<Action> | OnlyMarks(actions)
        ensures Run(Sale(total, 0, stages), actions).paid <= total
      {
        NeverMoreThanTheConsideration(Sale(total, 0, stages), actions);
      }
    } else if stages == [] {
      RunAppend(Sale(0, 0, []), [], Pay(1));
      assert [] + [Pay(1)] == [Pay(1)];
      assert Run(Sale(0, 0, stages), [Pay(1)]).paid == 1 && OnlyMarks([Pay(1)]);
    } else {
      var i: nat :| i < |stages| && stages[i].maxCumulativePctBps > 10000;
      PaysCapOf(stages, i);
      assert Run(Sale(10000, 0, stages), PayCapOf(stages, i)).paid > 10000;
    }
  }

  // ----- Within the cap in force, while stages are only completed ---------------------------------------------

  predicate OnlyForward(actions: seq<Action>) {
    forall k | 0 <= k < |actions| :: actions[k].Pay? || actions[k].Complete?
  }

  /// Listed stages of equal order follow each other as listed, as after the stable sort.
  predicate Precedes(stages: seq<Stage>, i: nat, j: nat)
    requires i < |stages| && j < |stages|
  {
    stages[i].sortOrder < stages[j].sortOrder || (stages[i].sortOrder == stages[j].sortOrder && i < j)
  }

  /// The stage in force and those after it.
  predicate Ahead(stages: seq<Stage>, i: nat)
    requires i < |stages|
  {
    i == ApplicableIndex(stages) || Precedes(stages, ApplicableIndex(stages), i)
  }

  /// From the stage in force on, caps never fall from a stage to a later one.
  predicate CapsGrow(stages: seq<Stage>) {
    forall i: nat, j: nat | i < |stages| && j < |stages| && Ahead(stages, i) && Precedes(stages, i, j) ::
      stages[i].maxCumulativePctBps <= stages[j].maxCumulativePctBps
  }

  predicate WellFormed(stages: seq<Stage>) {
    stages != [] && forall i | 0 <= i < |stages| :: stages[i].maxCumulativePctBps >= 0
  }

  function CurrentCap(s: Sale): int
    requires WellFormed(s.stages)
  {
    MaxAllowedPaiseFromPct(s.total, Whole(Applicable(s.stages).value.maxCumulativePctBps)).value
  }

  /// Marking stages completed changes nothing else.
  predicate SamePlan(s: seq<Stage>, t: seq<Stage>) {
    && |s| == |t|
    && forall i | 0 <= i < |s| :: t[i] == s[i].(isCompleted := t[i].isCompleted) && (s[i].isCompleted ==> t[i].isCompleted)
  }

  lemma CompletionMovesForward(s: seq<Stage>, t: seq<Stage>)
    requires s != [] && SamePlan(s, t)
    ensures ApplicableIndex(s) == ApplicableIndex(t) || Precedes(s, ApplicableIndex(s), ApplicableIndex(t))
  {
    var best := BestCompleted(t);
    if best.Some? {
      if BestCompleted(s).Some? {
        assert t[BestCompleted(s).value].isCompleted;
      } else {
        assert s[Earliest(s)].sortOrder <= s[best.value].sortOrder;
      }
    } else {
      assert forall i | 0 <= i < |s| :: !t[i].isCompleted;
      assert s[Earliest(t)].sortOrder == t[Earliest(t)].sortOrder;
      assert s[Earliest(s)].sortOrder == t[Earliest(s)].sortOrder;
    }
  }

  lemma CompletionKeepsPlan(s: seq<Stage>, t: seq<Stage>)
    requires SamePlan(s, t)
    ensures WellFormed(s) ==> WellFormed(t)
    ensures CapsGrow(s) ==> CapsGrow(t)
  {
    hide ApplicableIndex;
    if s != [] {
      CompletionMovesForward(s, t);
      forall k: nat | k < |t| && Ahead(t, k)
        ensures Ahead(s, k)
      {
      }
    }
  }

  lemma CompletionRaisesTheCap(total: nat, s: seq<Stage>, t: seq<Stage>)
    requires WellFormed(s) && CapsGrow(s) && SamePlan(s, t) && WellFormed(t)
    ensures CurrentCap(Sale(total, 0, s)) <= CurrentCap(Sale(total, 0, t))
  {
    hide ApplicableIndex, MaxAllowedPaiseFromPct;
    CompletionMovesForward(s, t);
    var i, j := ApplicableIndex(s), ApplicableIndex(t);
    assert s[j].maxCumulativePctBps == t[j].maxCumulativePctBps;
    CapGrowsWithPercentage(total, s[i].maxCumulativePctBps, t[j].maxCumulativePctBps);
  }

  lemma StepStaysUnderCap(s: Sale, a: Action)
    requires WellFormed(s.stages) && CapsGrow(s.stages) && 0 <= s.paid <= CurrentCap(s) && OnlyForward([a])
    ensures
      var s' := Step(s, a);
      WellFormed(s'.stages) && CapsGrow(s'.stages) && 0 <= s'.paid <= CurrentCap(s')
  {
    assert [a][0] == a;
    if a.Complete? {
      hide CapsGrow, WellFormed, ApplicableIndex;
      var t := Step(s, a).stages;
      CompletionKeepsPlan(s.stages, t);
      CompletionRaisesTheCap(s.total, s.stages, t);
    }
  }

  /// When caps grow from the stage in force on, every run of admitted payments and completions keeps what
  /// is paid under the cap then in force.
  lemma {:induction false} RunStaysUnderCap(s: Sale, actions: seq<Action>)
    requires WellFormed(s.stages) && CapsGrow(s.stages) && 0 <= s.paid <= CurrentCap(s) && OnlyForward(actions)
    ensures
      var last := Run(s, actions);
      WellFormed(last.stages) && CapsGrow(last.stages) && 0 <= last.paid <= CurrentCap(last)
  {
    hide CapsGrow, CurrentCap, WellFormed, Step;
    if actions != [] {
      var n := |actions| - 1;
      RunStaysUnderCap(s, actions[..n]);
      assert [actions[n]][0] == actions[n];
      StepStaysUnderCap(Run(s, actions[..n]), actions[n]);
    }
  }

  ghost predicate UnderCap(s: Sale) {
    WellFormed(s.stages) && s.paid <= CurrentCap(s)
  }

  ghost predicate SafeInEveryRun(stages: seq<Stage>) {
    forall total: nat, actions: seq<Action> | OnlyForward(actions) :: UnderCap(Run(Sale(total, 0, stages), actions))
  }

  /// Completing a stage that is not behind the one in force puts it in force.
  lemma CompletedIsInForce(stages: seq<Stage>, i: nat)
    requires i < |stages| && Ahead(stages, i)
    ensures ApplicableIndex(Mark(stages, i, true)) == i
  {
    var t := Mark(stages, i, true);
    assert t[i].isCompleted;
    assert forall k | 0 <= k < |stages| :: t[k].sortOrder == stages[k].sortOrder;
    assert forall k | 0 <= k < |stages| && k != i :: t[k] == stages[k];
  }

  /// Completing stage `i`, paying its whole cap, then completing a later stage with a smaller cap.
  lemma FallingCapIsExceeded(stages: seq<Stage>, i: nat, j: nat)
    requires WellFormed(stages) && i < |stages| && j < |stages| && Ahead(stages, i) && Precedes(stages, i, j)
    requires stages[i].maxCumulativePctBps > stages[j].maxCumulativePctBps
    ensures !UnderCap(Run(Sale(10000, 0, stages), [Complete(i), Pay(stages[i].maxCumulativePctBps), Complete(j)]))
  {
    hide EvaluatePaymentStageRule, ApplicableIndex, Run;
    var s0, cap := Sale(10000, 0, stages), stages[i].maxCumulativePctBps;
    var s1 := Step(s0, Complete(i));
    CompletedIsInForce(stages, i);
    PayTheWholeCap(s1, stages[i]);
    var s2 := s1.(paid := cap);
    var s3 := Step(s2, Complete(j));
    CompletedIsInForce(s1.stages, j);
    RunOfThree(s0, Complete(i), Pay(cap), Complete(j));
    CapOfTenThousand(s3, stages[j].maxCumulativePctBps);
  }

  lemma CapOfTenThousand(s: Sale, pct: int)
    requires s.total == 10000 && WellFormed(s.stages) && Applicable(s.stages).value.maxCumulativePctBps == pct
    ensures CurrentCap(s) == pct
  {
    hide Applicable;
  }

  lemma RunOfThree(s: Sale, a: Action, b: Action, c: Action)
    ensures Run(s, [a, b, c]) == Step(Step(Step(s, a), b), c)
  {
    hide Step;
    assert [a, b, c][..2] == [a, b] && [a, b][..1] == [a] && [a][..0] == [];
    assert Run(s, [a]) == Step(s, a);
    assert Run(s, [a, b]) == Step(Step(s, a), b);
  }

  /// Exactly which plans the rule protects while stages are only completed, whatever has been completed
  /// already: those whose caps never fall from the stage in force on, equal orders counting as listed.
  lemma SafeIffCapsGrow(stages: seq<Stage>)
    requires WellFormed(stages)
    ensures SafeInEveryRun(stages) <==> CapsGrow(stages)
  {
    hide Ahead, Precedes, CurrentCap;
    if CapsGrow(stages) {
      forall total: nat, actions: seq<Action> | OnlyForward(actions)
        ensures UnderCap(Run(Sale(total, 0, stages), actions))
      {
        CapIsNatural(Sale(total, 0, stages));
        RunStaysUnderCap(Sale(total, 0, stages), actions);
      }
    } else {
      var i: nat, j: nat :| i < |stages| && j < |stages| && Ahead(stages, i) && Precedes(stages, i, j)
                            && stages[i].maxCumulativePctBps > stages[j].maxCumulativePctBps;
      FallingCapIsExceeded(stages, i, j);
      assert OnlyForward([Complete(i), Pay(stages[i].maxCumulativePctBps), Complete(j)]);
    }
  }

  lemma CapIsNatural(s: Sale)
    requires WellFormed(s.stages)
    ensures CurrentCap(s) >= 0
  {
    hide ApplicableIndex;
  }

  // ----- Within the cap in force, when stages can be reopened ---------------------------------------------------

  predicate SameCaps(stages: seq<Stage>) {
    forall i, j | 0 <= i < |stages| && 0 <= j < |stages| ::
      stages[i].maxCumulativePctBps == stages[j].maxCumulativePctBps
  }

  ghost predicate SafeWithReopening(stages: seq<Stage>) {
    forall total: nat, actions: seq<Action> | OnlyMarks(actions) :: UnderCap(Run(Sale(total, 0, stages), actions))
  }

  lemma {:induction false} SameCapsStaySafe(s: Sale, actions: seq<Action>)
    requires WellFormed(s.stages) && SameCaps(s.stages) && s.paid <= CurrentCap(s) && OnlyMarks(actions)
    ensures
      var last := Run(s, actions);
      WellFormed(last.stages) && SameCaps(last.stages) && last.paid <= CurrentCap(last)
  {
    hide SameCaps, CurrentCap, WellFormed, Step;
    if actions != [] {
      var n := |actions| - 1;
      SameCapsStaySafe(s, actions[..n]);
      StepKeepsSameCaps(Run(s, actions[..n]), actions[n]);
    }
  }

  lemma StepKeepsSameCaps(s: Sale, a: Action)
    requires WellFormed(s.stages) && SameCaps(s.stages) && s.paid <= CurrentCap(s) && !a.Revise?
    ensures
      var s' := Step(s, a);
      WellFormed(s'.stages) && SameCaps(s'.stages) && s'.paid <= CurrentCap(s')
  {
    hide ApplicableIndex;
    var s' := Step(s, a);
    assert s.stages[ApplicableIndex(s'.stages)].maxCumulativePctBps == Applicable(s.stages).value.maxCumulativePctBps;
  }

  /// Exactly which plans stay safe when stages can be reopened: those with one cap for all stages.
  lemma ReopeningSafeIffSameCaps(stages: seq<Stage>)
    requires WellFormed(stages)
    ensures SafeWithReopening(stages) <==> SameCaps(stages)
  {
    hide CurrentCap;
    if SameCaps(stages) {
      forall total: nat, actions: seq<Action> | OnlyMarks(actions)
        ensures UnderCap(Run(Sale(total, 0, stages), actions))
      {
        CapIsNatural(Sale(total, 0, stages));
        SameCapsStaySafe(Sale(total, 0, stages), actions);
      }
    } else {
      var i: nat, j: nat :| i < |stages| && j < |stages|
                            && stages[i].maxCumulativePctBps > stages[j].maxCumulativePctBps;
      var steps := ReopeningLowersTheCap(stages, i, j);
      assert OnlyMarks(steps);
    }
  }

  lemma ReopeningLowersTheCap(stages: seq<Stage>, i: nat, j: nat) returns (steps: seq<Action>)
    requires WellFormed(stages) && i < |stages| && j < |stages|
    requires stages[i].maxCumulativePctBps > stages[j].maxCumulativePctBps
    ensures OnlyMarks(steps) && !UnderCap(Run(Sale(10000, 0, stages), steps))
  {
    hide Run, Applicable, EvaluatePaymentStageRule;
    var s, paid := Sale(10000, 0, stages), PayCapOf(stages, i);
    PaysCapOf(stages, i);
    RunAppend(s, paid, Reopen(i));
    RunAppend(s, paid + [Reopen(i)], Complete(j));
    steps := paid + [Reopen(i)] + [Complete(j)];
    var last := Run(s, steps);
    OnlyCompleted(last.stages, j);
    CapOfTenThousand(last, stages[j].maxCumulativePctBps);
  }
}
