/// RERA payment stages: the part of the consideration that may be collected grows with the
/// construction stages that have been completed. Money is in paise, percentages in basis points.
module ReraRules {
  import opened Common

  datatype Stage = Stage(code: string, name: string, maxCumulativePctBps: int, sortOrder: int, isCompleted: bool)

  // ----- The applicable stage ------------------------------------------------------------------------

  predicate Ascending(stages: seq<Stage>) {
    forall i, j | 0 <= i < j < |stages| :: stages[i].sortOrder <= stages[j].sortOrder
  }

  /// Behind every stage whose order is not greater.
  function Insert(sorted: seq<Stage>, stage: Stage): (r: seq<Stage>)
    requires Ascending(sorted)
    ensures Ascending(r) && |r| == |sorted| + 1
    ensures r[|sorted|] == stage || (sorted != [] && r[|sorted|] == sorted[|sorted| - 1])
  {
    if sorted == [] || sorted[|sorted| - 1].sortOrder <= stage.sortOrder then sorted + [stage]
    else Insert(sorted[..|sorted| - 1], stage) + [sorted[|sorted| - 1]]
  }

  /// The stable sort by order.
  function SortByOrder(stages: seq<Stage>): (r: seq<Stage>)
    ensures Ascending(r) && |r| == |stages|
  {
    if stages == [] then [] else Insert(SortByOrder(stages[..|stages| - 1]), stages[|stages| - 1])
  }

  lemma AppendAddsOne<T>(s: seq<T>, x: T)
    ensures multiset(s + [x]) == multiset(s) + multiset{x}
  {
  }

  lemma LastIsOneMore<T>(s: seq<T>)
    requires s != []
    ensures multiset(s) == multiset(s[..|s| - 1]) + multiset{s[|s| - 1]}
  {
    assert s == s[..|s| - 1] + [s[|s| - 1]];
  }

  lemma AppendKeepsDifference<T>(longer: seq<T>, shorter: seq<T>, x: T, extra: T)
    requires multiset(longer) == multiset(shorter) + multiset{extra}
    ensures multiset(longer + [x]) == multiset(shorter + [x]) + multiset{extra}
  {
    AppendAddsOne(longer, x);
    AppendAddsOne(shorter, x);
  }

  lemma Rejoin<T>(s: seq<T>)
    requires s != []
    ensures s[..|s| - 1] + [s[|s| - 1]] == s
  {
  }

  lemma {:induction false} InsertAddsOne(sorted: seq<Stage>, stage: Stage)
    requires Ascending(sorted)
    ensures multiset(Insert(sorted, stage)) == multiset(sorted) + multiset{stage}
  {
    var n := |sorted| - 1;
    if sorted == [] || sorted[n].sortOrder <= stage.sortOrder {
      AppendAddsOne(sorted, stage);
    } else {
      InsertAddsOne(sorted[..n], stage);
      AppendKeepsDifference(Insert(sorted[..n], stage), sorted[..n], sorted[n], stage);
      Rejoin(sorted);
    }
  }

  /// The stages with the given order, as they are listed.
  function OfOrder(stages: seq<Stage>, sortOrder: int): seq<Stage> {
    if stages == [] then [] else
    OfOrder(stages[..|stages| - 1], sortOrder)
    + if stages[|stages| - 1].sortOrder == sortOrder then [stages[|stages| - 1]] else []
  }

  lemma OfOrderAppend(stages: seq<Stage>, stage: Stage, sortOrder: int)
    ensures OfOrder(stages + [stage], sortOrder)
            == OfOrder(stages, sortOrder) + if stage.sortOrder == sortOrder then [stage] else []
  {
    assert (stages + [stage])[..|stages|] == stages;
  }

  lemma {:induction false} InsertIsStable(sorted: seq<Stage>, stage: Stage, sortOrder: int)
    requires Ascending(sorted)
    ensures OfOrder(Insert(sorted, stage), sortOrder)
            == OfOrder(sorted, sortOrder) + if stage.sortOrder == sortOrder then [stage] else []
  {
    var n := |sorted| - 1;
    if sorted == [] || sorted[n].sortOrder <= stage.sortOrder {
      OfOrderAppend(sorted, stage, sortOrder);
    } else {
      var front, last := Insert(sorted[..n], stage), sorted[n];
      InsertIsStable(sorted[..n], stage, sortOrder);
      OfOrderAppend(front, last, sortOrder);
      if last.sortOrder == sortOrder {
        assert OfOrder(front, sortOrder) == OfOrder(sorted[..n], sortOrder);
      } else {
        assert OfOrder(sorted, sortOrder) == OfOrder(sorted[..n], sortOrder);
      }
    }
  }

  /// The sort loses nothing and adds nothing.
  lemma {:induction false} SortIsPermutation(stages: seq<Stage>)
    ensures multiset(SortByOrder(stages)) == multiset(stages)
  {
    if stages != [] {
      var n := |stages| - 1;
      SortIsPermutation(stages[..n]);
      InsertAddsOne(SortByOrder(stages[..n]), stages[n]);
      LastIsOneMore(stages);
    }
  }

  /// Stages of equal order stay as they were listed.
  lemma {:induction false} SortIsStable(stages: seq<Stage>, sortOrder: int)
    ensures OfOrder(SortByOrder(stages), sortOrder) == OfOrder(stages, sortOrder)
  {
    if stages != [] {
      var n := |stages| - 1;
      SortIsStable(stages[..n], sortOrder);
      InsertIsStable(SortByOrder(stages[..n]), stages[n], sortOrder);
    }
  }

  function LastCompleted(sorted: seq<Stage>): Option<Stage> {
    if sorted == [] then None
    else if sorted[|sorted| - 1].isCompleted then Some(sorted[|sorted| - 1])
    else LastCompleted(sorted[..|sorted| - 1])
  }

  /// The completed stage of greatest order; of several with that order the one listed last.
  function BestCompleted(stages: seq<Stage>): (r: Option<nat>)
    ensures r.None? <==> forall i | 0 <= i < |stages| :: !stages[i].isCompleted
    ensures r.Some? ==> r.value < |stages| && stages[r.value].isCompleted
    ensures r.Some? ==> forall i | 0 <= i < |stages| && stages[i].isCompleted ::
      stages[i].sortOrder < stages[r.value].sortOrder || (stages[i].sortOrder == stages[r.value].sortOrder && i <= r.value)
  {
    if stages == [] then None else
    var n := |stages| - 1;
    var best := BestCompleted(stages[..n]);
    assert forall i | 0 <= i < n :: stages[..n][i] == stages[i];
    if stages[n].isCompleted && (best.None? || stages[best.value].sortOrder <= stages[n].sortOrder) then Some(n) else best
  }

  /// The stage of least order; of several with that order the one listed first.
  function Earliest(stages: seq<Stage>): (k: nat)
    requires stages != []
    ensures k < |stages|
    ensures forall i | 0 <= i < |stages| ::
      stages[k].sortOrder < stages[i].sortOrder || (stages[k].sortOrder == stages[i].sortOrder && k <= i)
  {
    var n := |stages| - 1;
    if n == 0 then 0 else
    var first := Earliest(stages[..n]);
    assert forall i | 0 <= i < n :: stages[..n][i] == stages[i];
    if stages[n].sortOrder < stages[first].sortOrder then n else first
  }

  /// The position of the cap in force: the last completed stage, or else the first (booking).
  function ApplicableIndex(stages: seq<Stage>): (k: nat)
    requires stages != []
    ensures k < |stages|
  {
    var best := BestCompleted(stages);
    if best.Some? then best.value else Earliest(stages)
  }

  function Applicable(stages: seq<Stage>): (r: Option<Stage>)
    ensures r.None? <==> stages == []
    ensures r.Some? ==> r.value in stages
  {
    if stages == [] then None else Some(stages[ApplicableIndex(stages)])
  }

  lemma {:induction false} InsertAmongCompleted(sorted: seq<Stage>, stage: Stage)
    requires Ascending(sorted)
    ensures
      var last := LastCompleted(sorted);
      LastCompleted(Insert(sorted, stage))
      == if stage.isCompleted && (last.None? || last.value.sortOrder <= stage.sortOrder) then Some(stage) else last
  {
    var n := |sorted| - 1;
    if sorted == [] || sorted[n].sortOrder <= stage.sortOrder {
      LastCompletedAppend(sorted, stage);
      LastCompletedIsIn(sorted);
    } else {
      var front, last := Insert(sorted[..n], stage), sorted[n];
      InsertAmongCompleted(sorted[..n], stage);
      LastCompletedAppend(front, last);
      if last.isCompleted {
        assert LastCompleted(sorted) == Some(last);
      } else {
        assert LastCompleted(sorted) == LastCompleted(sorted[..n]);
      }
    }
  }

  lemma LastCompletedAppend(stages: seq<Stage>, stage: Stage)
    ensures LastCompleted(stages + [stage]) == if stage.isCompleted then Some(stage) else LastCompleted(stages)
  {
    assert (stages + [stage])[..|stages|] == stages;
  }

  lemma {:induction false} LastCompletedIsIn(sorted: seq<Stage>)
    ensures LastCompleted(sorted).Some? ==> LastCompleted(sorted).value in sorted
  {
    if sorted != [] {
      LastCompletedIsIn(sorted[..|sorted| - 1]);
    }
  }

  lemma InsertAtFront(sorted: seq<Stage>, stage: Stage)
    requires Ascending(sorted)
    ensures Insert(sorted, stage)[0] == if sorted == [] || stage.sortOrder < sorted[0].sortOrder then stage else sorted[0]
  {
  }

  /// Sorting and then taking the last completed stage, or the head, finds what one pass over the
  /// unsorted stages finds.
  lemma {:induction false} SortedSelection(stages: seq<Stage>)
    ensures
      var sorted, best := SortByOrder(stages), BestCompleted(stages);
      && LastCompleted(sorted) == (if best.Some? then Some(stages[best.value]) else None)
      && (stages != [] ==> sorted[0] == stages[Earliest(stages)])
  {
    if stages != [] {
      var n := |stages| - 1;
      var before := SortByOrder(stages[..n]);
      SortedSelection(stages[..n]);
      InsertAmongCompleted(before, stages[n]);
      InsertAtFront(before, stages[n]);
      assert SortByOrder(stages) == Insert(before, stages[n]);
      hide Insert, SortByOrder, LastCompleted;
    }
  }

  method ResolveApplicableStage(stages: seq<Stage>) returns (r: Option<Stage>)
    ensures r == Applicable(stages)
  {
    if |stages| == 0 {
      return None;
    }
    var sorted := SortByOrder(stages);
    var applicable := sorted[0];
    for i := 0 to |sorted|
      invariant applicable == match LastCompleted(sorted[..i]) case None => sorted[0] case Some(s) => s
    {
      assert sorted[..i + 1][..i] == sorted[..i];
      if sorted[i].isCompleted {
        applicable := sorted[i];
      }
    }
    assert sorted[..|sorted|] == sorted;
    SortedSelection(stages);
    return Some(applicable);
  }

  predicate DistinctOrders(stages: seq<Stage>) {
    forall i, j | 0 <= i < j < |stages| :: stages[i].sortOrder != stages[j].sortOrder
  }

  lemma SameMembers(s: seq<Stage>, t: seq<Stage>)
    requires multiset(s) == multiset(t)
    ensures forall x :: x in s <==> x in t
  {
    forall x
      ensures x in s <==> x in t
    {
      assert x in s <==> x in multiset(s);
      assert x in t <==> x in multiset(t);
    }
  }

  /// The stages among which the choice is made: the completed ones of greatest order, or if none is
  /// completed all those of least order.
  ghost predicate Contender(stages: seq<Stage>, x: Stage) {
    && x in stages
    && (if exists y | y in stages :: y.isCompleted
        then x.isCompleted && forall y | y in stages && y.isCompleted :: y.sortOrder <= x.sortOrder
        else forall y | y in stages :: x.sortOrder <= y.sortOrder)
  }

  lemma ApplicableContends(stages: seq<Stage>)
    requires stages != []
    ensures Contender(stages, Applicable(stages).value)
  {
    var best := BestCompleted(stages);
    if best.Some? {
      assert stages[best.value].isCompleted;
    } else {
      assert forall i | 0 <= i < |stages| :: !stages[i].isCompleted;
    }
  }

  lemma ContendersOfPermutation(s: seq<Stage>, t: seq<Stage>, x: Stage)
    requires multiset(s) == multiset(t)
    ensures Contender(s, x) <==> Contender(t, x)
  {
    SameMembers(s, t);
  }

  /// The list with one stage moved to the end, or to the front.
  function MovedLast(stages: seq<Stage>, i: nat): seq<Stage>
    requires i < |stages|
  {
    stages[..i] + stages[i + 1..] + [stages[i]]
  }

  function MovedFirst(stages: seq<Stage>, i: nat): seq<Stage>
    requires i < |stages|
  {
    [stages[i]] + (stages[..i] + stages[i + 1..])
  }

  lemma MovingPermutes<T>(s: seq<T>, i: nat)
    requires i < |s|
    ensures multiset(s[..i] + s[i + 1..] + [s[i]]) == multiset(s)
    ensures multiset([s[i]] + (s[..i] + s[i + 1..])) == multiset(s)
  {
    assert s == s[..i] + [s[i]] + s[i + 1..];
  }

  /// Any contender is the applicable stage of some permutation of the list.
  lemma ContenderCanWin(stages: seq<Stage>, x: Stage) returns (t: seq<Stage>)
    requires Contender(stages, x)
    ensures multiset(t) == multiset(stages) && Applicable(t) == Some(x)
  {
    var i :| 0 <= i < |stages| && stages[i] == x;
    MovingPermutes(stages, i);
    if x.isCompleted {
      t := MovedLast(stages, i);
      ContendersOfPermutation(stages, t, x);
      LastContenderWins(t);
    } else {
      t := MovedFirst(stages, i);
      ContendersOfPermutation(stages, t, x);
      FirstContenderWins(t);
    }
  }

  lemma LastContenderWins(t: seq<Stage>)
    requires t != [] && t[|t| - 1].isCompleted && Contender(t, t[|t| - 1])
    ensures Applicable(t) == Some(t[|t| - 1])
  {
    var best := BestCompleted(t);
    assert best.Some? && t[best.value] in t;
  }

  lemma FirstContenderWins(t: seq<Stage>)
    requires t != [] && !t[0].isCompleted && Contender(t, t[0])
    ensures Applicable(t) == Some(t[0])
  {
    assert forall i | 0 <= i < |t| :: t[i] in t;
  }

  ghost predicate OrderIndependent(stages: seq<Stage>) {
    forall t: seq<Stage> | multiset(t) == multiset(stages) :: Applicable(t) == Applicable(stages)
  }

  /// Exactly when the order of the list does not matter: when all contenders are the same stage.
  lemma OrderIndependentIff(stages: seq<Stage>)
    ensures OrderIndependent(stages)
            <==> forall x, y | Contender(stages, x) && Contender(stages, y) :: x == y
  {
    if x, y :| Contender(stages, x) && Contender(stages, y) && x != y {
      var t := ContenderCanWin(stages, x);
      var u := ContenderCanWin(stages, y);
      assert Applicable(t) != Applicable(u);
    } else {
      forall t: seq<Stage> | multiset(t) == multiset(stages)
        ensures Applicable(t) == Applicable(stages)
      {
        assert |t| == |multiset(t)| == |multiset(stages)| == |stages|;
        if stages != [] {
          ApplicableContends(stages);
          ApplicableContends(t);
          ContendersOfPermutation(stages, t, Applicable(t).value);
        }
      }
    }
  }

  /// With distinct orders there is one contender, and the order of the list does not matter.
  lemma OrderOfListIsIrrelevant(s: seq<Stage>, t: seq<Stage>)
    requires DistinctOrders(s) && multiset(s) == multiset(t)
    ensures Applicable(s) == Applicable(t)
  {
    forall x, y | Contender(s, x) && Contender(s, y)
      ensures x == y
    {
      assert x.sortOrder == y.sortOrder;
      var i, j :| 0 <= i < |s| && 0 <= j < |s| && s[i] == x && s[j] == y;
    }
    OrderIndependentIff(s);
  }

  /// With equal orders it can matter: both stages are completed, and the cap differs tenfold.
  lemma TiesDependOnTheList()
    ensures
      var a, b := Stage("plinth", "Plinth", 1000, 1, true), Stage("roof", "Roof", 10000, 1, true);
      multiset([a, b]) == multiset([b, a]) && Applicable([a, b]) == Some(b) && Applicable([b, a]) == Some(a)
  {
  }

  // ----- The payment rule ---------------------------------------------------------------------------------

  datatype RuleError = NegativePayment | NegativeConsideration | InvalidPercentage

  /// The nearest paise, a half going up.
  function MaxAllowedPaiseFromPct(total: int, bps: Number): (r: Result<int, RuleError>)
    ensures r.Ok? <==> total >= 0 && bps.Whole? && bps.n >= 0
    ensures r.Ok? ==> -5000 < 10000 * r.value - total * bps.n <= 5000
  {
    if total < 0 then Err(NegativeConsideration)
    else if bps.NotWhole? || bps.n < 0 then Err(InvalidPercentage)
    else Ok((total * bps.n + 5000) / 10000)
  }

  datatype Eval = Eval(
    configured: bool, allowed: bool, maxCumulativePctBps: int, maxAllowedPaise: int, projectedPaidPaise: int,
    applicableStageCode: Option<string>, reason: Option<string>)

  function EvaluatePaymentStageRule(total: int, alreadyPaid: int, proposed: int, stages: seq<Stage>)
    : (r: Result<Eval, RuleError>)
  {
    if alreadyPaid < 0 || proposed < 0 then Err(NegativePayment) else
    match Applicable(stages)
    case None =>
      Ok(Eval(false, true, 10000, total, alreadyPaid + proposed, None, Some("no_rera_payment_stages_configured")))
    case Some(stage) =>
      match MaxAllowedPaiseFromPct(total, Whole(stage.maxCumulativePctBps))
      case Err(e) => Err(e)
      case Ok(cap) =>
        var allowed := alreadyPaid + proposed <= cap;
        Ok(Eval(true, allowed, stage.maxCumulativePctBps, cap, alreadyPaid + proposed, Some(stage.code),
                if allowed then None else Some("payment_exceeds_rera_stage_cap:" + stage.code)))
  }

  /// What an evaluation says: without stages anything is allowed; otherwise exactly what stays within the
  /// rounded share of the stage in force, and a refusal names that stage.
  lemma EvaluationTells(total: int, paid: int, proposed: int, stages: seq<Stage>)
    ensures
      var r := EvaluatePaymentStageRule(total, paid, proposed, stages);
      && (r.Err? <==> (
            || paid < 0 || proposed < 0
            || (stages != [] && (total < 0 || stages[ApplicableIndex(stages)].maxCumulativePctBps < 0))))
      && (r.Ok? ==>
            && r.value.projectedPaidPaise == paid + proposed
            && (r.value.configured <==> stages != [])
            && (r.value.allowed && stages != [] <==> r.value.reason.None?)
            && (stages == [] ==> r.value.allowed && r.value.maxCumulativePctBps == 10000
                                 && r.value.maxAllowedPaise == total && r.value.applicableStageCode.None?
                                 && r.value.reason == Some("no_rera_payment_stages_configured"))
            && (stages != [] ==>
                  && var stage := stages[ApplicableIndex(stages)];
                  && r.value.applicableStageCode == Some(stage.code)
                  && r.value.maxCumulativePctBps == stage.maxCumulativePctBps
                  && -5000 < 10000 * r.value.maxAllowedPaise - total * stage.maxCumulativePctBps <= 5000
                  && (r.value.allowed <==> paid + proposed <= r.value.maxAllowedPaise)
                  && (!r.value.allowed ==> r.value.reason == Some("payment_exceeds_rera_stage_cap:" + stage.code))))
  {
    hide ApplicableIndex;
  }

  lemma CapGrowsWithPercentage(total: nat, a: nat, b: nat)
    requires a <= b
    ensures MaxAllowedPaiseFromPct(total, Whole(a)).value <= MaxAllowedPaiseFromPct(total, Whole(b)).value
    ensures b <= 10000 ==> MaxAllowedPaiseFromPct(total, Whole(b)).value <= total
  {
    assert total * a <= total * b;
    if b <= 10000 {
      assert total * b <= total * 10000;
    }
  }
}
