/// The tenant hook with its ownership lookups and its writes as separate steps: between the two,
/// other calls of any tenant may come in. The shared table still refines one private table per tenant,
/// on which the same lookups and writes are made.
module TenantPhases {
  import opened Common
  import opened TenantScope
  import opened TenantIsolation

  /// What a lookup leaves to be written, by the primary key it found.
  datatype Pending =
    | ToUpdate(id: Id, patch: Data)
    | ToDelete(id: Id)
    | ToUpsert(hit: Option<Id>, newId: Id, where: Option<Where>, create: Data, update: Data)

  datatype Looked = Answered(reply: Reply) | Found(pending: Pending)

  predicate LooksFirst(op: Op) {
    op.Update? || op.Delete? || op.Upsert?
  }

  // ----- Lookups --------------------------------------------------------------------------------------

  function LookShared(tbl: Table, t: Tenant, op: Op): Looked
    requires LooksFirst(op)
  {
    match op
    case Update(w, data) =>
      (match MergeTenantWhere(w, t)
       case Err(e) => Answered(Failed(e))
       case Ok(merged) =>
         match First(Matching(tbl, merged))
         case None => Answered(Failed(NotFound))
         case Some(id) =>
           match StripTenantId(data, t)
           case Err(e) => Answered(Failed(e))
           case Ok(d) => Looked.Found(ToUpdate(id, d)))
    case Delete(w) =>
      (match MergeTenantWhere(w, t)
       case Err(e) => Answered(Failed(e))
       case Ok(merged) =>
         match First(Matching(tbl, merged))
         case None => Answered(Failed(NotFound))
         case Some(id) => Looked.Found(ToDelete(id)))
    case Upsert(newId, w, create, update) =>
      (match UpsertPayloads(t, create, update)
       case Err(e) => Answered(Failed(e))
       case Ok((c, u)) =>
         match MergeTenantWhere(w, t)
         case Err(e) => Answered(Failed(e))
         case Ok(merged) => Looked.Found(ToUpsert(First(Matching(tbl, merged)), newId, w, c, u)))
  }

  /// The reference: the same lookups by the bare filter, on a database that only holds the rows of `t`.
  function LookPrivate(own: Table, t: Tenant, op: Op): Looked
    requires LooksFirst(op)
  {
    match op
    case Update(w, data) =>
      if AsksForOther(w, t) then Answered(Failed(TenantMismatch))
      else (match First(Matching(own, Untenanted(w)))
        case None => Answered(Failed(NotFound))
        case Some(id) =>
          if Reassigns(data, t) then Answered(Failed(Reassignment)) else Looked.Found(ToUpdate(id, Unassigned(data))))
    case Delete(w) =>
      if AsksForOther(w, t) then Answered(Failed(TenantMismatch))
      else (match First(Matching(own, Untenanted(w)))
        case None => Answered(Failed(NotFound))
        case Some(id) => Looked.Found(ToDelete(id)))
    case Upsert(newId, w, create, update) =>
      (match UpsertPayloads(t, create, update)
       case Err(e) => Answered(Failed(e))
       case Ok((c, u)) =>
         if AsksForOther(w, t) then Answered(Failed(TenantMismatch))
         else Looked.Found(ToUpsert(First(Matching(own, Untenanted(w))), newId, w, c, u)))
  }

  /// Lookups on the shared table find what they find on the tenant's slice.
  lemma LookupsAgree(tbl: Table, t: Tenant, op: Op)
    requires WellFormed(tbl) && LooksFirst(op)
    ensures LookShared(tbl, t, op) == LookPrivate(Slice(tbl, t), t, op)
  {
    hide MergeTenantWhere, Matching, Slice, Untenanted, AsksForOther, StripTenantId, Reassigns, UpsertPayloads, WellFormed;
    match op
    case Update(w, data) =>
      MergedSelectsOwn(tbl, w, t);
      MergeRefusedIff(w, t);
      StrippedIsUnassigned(data, t);
    case Delete(w) =>
      MergedSelectsOwn(tbl, w, t);
      MergeRefusedIff(w, t);
    case Upsert(_, w, create, update) =>
      MergedSelectsOwn(tbl, w, t);
      MergeRefusedIff(w, t);
  }

  // ----- Writes ----------------------------------------------------------------------------------------

  /// Payloads as lookups prepare them: creates carry the tenant, updates leave the column alone.
  predicate Prepared(p: Pending, t: Tenant) {
    match p
    case ToUpdate(_, patch) => patch.One? ==> TENANT_ID !in patch.row
    case ToDelete(_) => true
    case ToUpsert(_, _, _, c, u) => (c.One? ==> Owned(c.row, t)) && (u.One? ==> TENANT_ID !in u.row)
  }

  lemma LookupsPrepare(tbl: Table, t: Tenant, op: Op)
    requires LooksFirst(op)
    ensures LookShared(tbl, t, op).Found? ==> Prepared(LookShared(tbl, t, op).pending, t)
  {
    hide MergeTenantWhere, Matching;
    match op
    case Update(_, data) => StrippedIsUnassigned(data, t);
    case Delete(_) =>
    case Upsert(_, _, create, update) => UpsertWrites(t, create, update);
  }

  /// The filter of an upsert's write: the key that was found, or else the original filter.
  function SharedFilter(hit: Option<Id>, w: Option<Where>): Where {
    if hit.Some? then ById(hit.value) else Given(w)
  }

  function PrivateFilter(hit: Option<Id>, w: Option<Where>): Where {
    if hit.Some? then ById(hit.value) else Untenanted(w)
  }

  function WriteShared(tbl: Table, p: Pending): (Table, Reply) {
    match p
    case ToUpdate(id, patch) => RawUpdate(tbl, ById(id), patch)
    case ToDelete(id) => RawDelete(tbl, ById(id))
    case ToUpsert(hit, newId, w, c, u) => RawUpsert(tbl, newId, SharedFilter(hit, w), c, u)
  }

  function WritePrivate(own: Table, p: Pending): (Table, Reply) {
    match p
    case ToUpdate(id, patch) => RawUpdate(own, ById(id), patch)
    case ToDelete(id) => RawDelete(own, ById(id))
    case ToUpsert(hit, newId, w, c, u) => RawUpsert(own, newId, PrivateFilter(hit, w), c, u)
  }

  /// A lookup and its write with nothing in between are the hook's call.
  lemma UninterruptedIsScoped(tbl: Table, t: Tenant, op: Op)
    requires LooksFirst(op) && t != ""
    ensures Dispatch(tbl, true, Request(t), op) == match LookShared(tbl, t, op)
      case Answered(reply) => (tbl, reply)
      case Found(p) => WriteShared(tbl, p)
  {
    hide MergeTenantWhere, Matching, StripTenantId, UpsertPayloads, RawUpsert, RawUpdate, RawDelete;
  }

  /// When a write stays within its tenant: no other tenant has taken the key in the meantime, and an
  /// upsert still aims at the same row, or at none and brings a key it may use.
  ghost predicate WriteConfined(tbl: Table, t: Tenant, p: Pending) {
    match p
    case ToUpdate(id, patch) => !patch.One? || Usable(tbl, id, t)
    case ToDelete(id) => Usable(tbl, id, t)
    case ToUpsert(hit, newId, w, c, u) =>
      || !c.One? || !u.One?
      || (First(Matching(tbl, SharedFilter(hit, w))) == First(Matching(Slice(tbl, t), PrivateFilter(hit, w)))
          && (First(Matching(tbl, SharedFilter(hit, w))).None? ==> Usable(tbl, newId, t)))
  }

  /// The write does to the slice what it does to a private table, with the same answer.
  ghost predicate WriteCommutes(tbl: Table, t: Tenant, p: Pending) {
    var (after, reply) := WriteShared(tbl, p);
    WritePrivate(Slice(tbl, t), p) == (Slice(after, t), reply) && OthersUntouched(tbl, after, t)
  }

  lemma KeyLookup(tbl: Table, id: Id)
    ensures First(Matching(tbl, ById(id))) == if id in tbl then Some(id) else None
  {
    if id in tbl {
      ByIdSelects(tbl, id);
    } else {
      forall k | k in tbl
        ensures !Matches(ById(id), k, tbl[k])
      {
        assert !Accepts(ById(id).fields[ID], Cell(k, tbl[k], ID));
      }
      assert Matching(tbl, ById(id)) == map[];
    }
  }

  lemma SliceHas(tbl: Table, id: Id, t: Tenant)
    ensures id in Slice(tbl, t) <==> id in tbl && Owned(tbl[id], t)
    ensures id in Slice(tbl, t) ==> Slice(tbl, t)[id] == tbl[id]
  {
  }

  lemma UpdateWriteIff(tbl: Table, t: Tenant, id: Id, patch: Data)
    requires WellFormed(tbl) && Prepared(ToUpdate(id, patch), t)
    ensures WriteCommutes(tbl, t, ToUpdate(id, patch)) <==> WriteConfined(tbl, t, ToUpdate(id, patch))
    ensures WellFormed(WriteShared(tbl, ToUpdate(id, patch)).0)
  {
    hide Matching, Slice, ById;
    KeyLookup(tbl, id);
    KeyLookup(Slice(tbl, t), id);
    SliceHas(tbl, id, t);
    if id in tbl && Owned(tbl[id], t) && patch.One? {
      SlicePut(tbl, id, tbl[id] + patch.row, t);
    }
  }

  lemma DeleteWriteIff(tbl: Table, t: Tenant, id: Id)
    requires WellFormed(tbl)
    ensures WriteCommutes(tbl, t, ToDelete(id)) <==> WriteConfined(tbl, t, ToDelete(id))
    ensures WellFormed(WriteShared(tbl, ToDelete(id)).0)
  {
    hide Matching, Slice, ById;
    KeyLookup(tbl, id);
    KeyLookup(Slice(tbl, t), id);
    SliceHas(tbl, id, t);
    if id in tbl && Owned(tbl[id], t) {
      SliceDrop(tbl, {id}, t);
    }
  }

  /// An upsert of prepared records, by the row its filter hits first.
  lemma UpsertByHit(tbl: Table, newId: Id, w: Where, c: Data, u: Data, t: Tenant)
    requires c.One? && Owned(c.row, t) && u.One? && TENANT_ID !in u.row
    ensures
      var hit := First(Matching(tbl, w));
      RawUpsert(tbl, newId, w, c, u)
      == if hit.Some? then (tbl[hit.value := tbl[hit.value] + u.row], Reply.Found(hit.value, tbl[hit.value] + u.row))
         else RawCreate(tbl, newId, c)
    ensures First(Matching(tbl, w)).Some? ==> First(Matching(tbl, w)).value in tbl
  {
    var hit := First(Matching(tbl, w));
    if hit.Some? {
      UpsertUpdates(tbl, newId, w, hit.value, c, u);
    }
  }

  lemma CreatesAgreeIff(tbl: Table, t: Tenant, newId: Id, c: Data)
    requires WellFormed(tbl) && c.One? && Owned(c.row, t)
    ensures
      var ((after, reply), (own, ownReply)) := (RawCreate(tbl, newId, c), RawCreate(Slice(tbl, t), newId, c));
      && WellFormed(after)
      && ((own == Slice(after, t) && reply == ownReply && OthersUntouched(tbl, after, t)) <==> Usable(tbl, newId, t))
  {
    SliceHas(tbl, newId, t);
    if newId !in tbl {
      SlicePut(tbl, newId, c.row, t);
    }
  }

  /// A row of another tenant stays another's whatever an update without the column adds to it.
  lemma StaysForeign(row: Row, patch: Row, t: Tenant)
    requires !Owned(row, t) && TENANT_ID !in patch
    ensures !Owned(row + patch, t)
  {
  }

  lemma UpsertWriteIff(tbl: Table, t: Tenant, p: Pending)
    requires WellFormed(tbl) && p.ToUpsert? && Prepared(p, t) && p.create.One? && p.update.One?
    ensures WriteCommutes(tbl, t, p) <==> WriteConfined(tbl, t, p)
    ensures WellFormed(WriteShared(tbl, p).0)
  {
    hide Matching, Slice, SharedFilter, PrivateFilter, First, RawUpsert, RawCreate;
    var (s, q, own) := (SharedFilter(p.hit, p.where), PrivateFilter(p.hit, p.where), Slice(tbl, t));
    UpsertByHit(tbl, p.newId, s, p.create, p.update, t);
    UpsertByHit(own, p.newId, q, p.create, p.update, t);
    CreatesAgreeIff(tbl, t, p.newId, p.create);
    var (hit, ownHit) := (First(Matching(tbl, s)), First(Matching(own, q)));
    if hit.Some? {
      SliceHas(tbl, hit.value, t);
      if ownHit == hit {
        SlicePut(tbl, hit.value, tbl[hit.value] + p.update.row, t);
      } else if ownHit.None? {
        CreateAnswers(own, p.newId, p.create);
        if !Owned(tbl[hit.value], t) {
          StaysForeign(tbl[hit.value], p.update.row, t);
        }
      }
    } else if ownHit.Some? {
      SliceHas(tbl, ownHit.value, t);
      CreateAnswers(tbl, p.newId, p.create);
    }
  }

  lemma CreateAnswers(tbl: Table, newId: Id, c: Data)
    requires c.One? && Storable(c.row)
    ensures RawCreate(tbl, newId, c).1 == if newId in tbl then Failed(UniqueViolation) else Reply.Found(newId, c.row)
  {
  }

  lemma MalformedUpsertChangesNothing(tbl: Table, t: Tenant, p: Pending)
    requires p.ToUpsert? && (!p.create.One? || !p.update.One?)
    ensures WriteCommutes(tbl, t, p) && WriteShared(tbl, p).0 == tbl
  {
    hide Matching, Slice;
  }

  /// One write behaves as on a private table exactly when it is confined.
  lemma WriteRefinesPrivate(tbl: Table, t: Tenant, p: Pending)
    requires WellFormed(tbl) && Prepared(p, t)
    ensures WriteCommutes(tbl, t, p) <==> WriteConfined(tbl, t, p)
    ensures WellFormed(WriteShared(tbl, p).0)
  {
    match p
    case ToUpdate(id, patch) => UpdateWriteIff(tbl, t, id, patch);
    case ToDelete(id) => DeleteWriteIff(tbl, t, id);
    case ToUpsert(_, _, _, c, u) =>
      if c.One? && u.One? {
        UpsertWriteIff(tbl, t, p);
      } else {
        MalformedUpsertChangesNothing(tbl, t, p);
      }
  }

  // ----- Runs ---------------------------------------------------------------------------------------------

  /// A call in progress belongs to a tenant.
  datatype Process = Process(tenant: Tenant, number: nat)

  datatype State = State(table: Table, waiting: map<Process, Pending>)

  /// Calls without a lookup are single statements.
  datatype Step = Single(process: Process, op: Op) | Look(process: Process, op: Op) | Write(process: Process)

  function StepShared(s: State, step: Step): (State, Option<Reply>) {
    var p := step.process;
    match step
    case Single(_, op) =>
      if LooksFirst(op) then (s, None) else
      var (after, reply) := Hook(s.table, p.tenant, op);
      (s.(table := after), Some(reply))
    case Look(_, op) =>
      if !LooksFirst(op) || p in s.waiting then (s, None) else
      (match LookShared(s.table, p.tenant, op)
       case Answered(reply) => (s, Some(reply))
       case Found(pending) => (s.(waiting := s.waiting[p := pending]), None))
    case Write(_) =>
      if p !in s.waiting then (s, None) else
      var (after, reply) := WriteShared(s.table, s.waiting[p]);
      (State(after, s.waiting - {p}), Some(reply))
  }

  /// The same steps on a database of the process's own tenant.
  function StepPrivate(s: State, step: Step): (State, Option<Reply>) {
    var p := step.process;
    match step
    case Single(_, op) =>
      if LooksFirst(op) then (s, None) else
      var (after, reply) := OnPrivate(s.table, p.tenant, op);
      (s.(table := after), Some(reply))
    case Look(_, op) =>
      if !LooksFirst(op) || p in s.waiting then (s, None) else
      (match LookPrivate(s.table, p.tenant, op)
       case Answered(reply) => (s, Some(reply))
       case Found(pending) => (s.(waiting := s.waiting[p := pending]), None))
    case Write(_) =>
      if p !in s.waiting then (s, None) else
      var (after, reply) := WritePrivate(s.table, s.waiting[p]);
      (State(after, s.waiting - {p}), Some(reply))
  }

  function WaitingOf(waiting: map<Process, Pending>, t: Tenant): map<Process, Pending> {
    map p | p in waiting && p.tenant == t :: waiting[p]
  }

  function View(s: State, t: Tenant): State {
    State(Slice(s.table, t), WaitingOf(s.waiting, t))
  }

  ghost predicate Inv(s: State) {
    WellFormed(s.table) && forall p | p in s.waiting :: Prepared(s.waiting[p], p.tenant)
  }

  ghost predicate StepConfined(s: State, step: Step) {
    match step
    case Single(p, op) => LooksFirst(op) || (p.tenant != "" && Confined(s.table, p.tenant, op))
    case Look(_, _) => true
    case Write(p) => p in s.waiting ==> WriteConfined(s.table, p.tenant, s.waiting[p])
  }

  /// The step does to the view of its own tenant what it does on a private database, with the same
  /// answer, and nothing to the view of any other tenant.
  ghost predicate StepRefines(s: State, step: Step) {
    var (after, reply) := StepShared(s, step);
    && StepPrivate(View(s, step.process.tenant), step) == (View(after, step.process.tenant), reply)
    && forall u: Tenant | u != step.process.tenant :: View(after, u) == View(s, u)
  }

  lemma WaitingPut(waiting: map<Process, Pending>, p: Process, pending: Pending, u: Tenant)
    ensures WaitingOf(waiting[p := pending], u)
            == if u == p.tenant then WaitingOf(waiting, u)[p := pending] else WaitingOf(waiting, u)
    ensures WaitingOf(waiting - {p}, u) == WaitingOf(waiting, u) - {p}
    ensures u != p.tenant ==> WaitingOf(waiting, u) - {p} == WaitingOf(waiting, u)
    ensures p in WaitingOf(waiting, u) <==> p in waiting && u == p.tenant
    ensures p in WaitingOf(waiting, u) ==> WaitingOf(waiting, u)[p] == waiting[p]
  {
  }

  lemma SingleRefines(s: State, p: Process, op: Op)
    requires Inv(s) && StepConfined(s, Single(p, op))
    ensures StepRefines(s, Single(p, op)) && Inv(StepShared(s, Single(p, op)).0)
  {
    hide Dispatch, OnPrivate, Slice, WaitingOf, WellFormed, Confined, Prepared;
    if !LooksFirst(op) {
      HookRefinesPrivate(s.table, p.tenant, op);
    }
  }

  lemma LookRefines(s: State, p: Process, op: Op)
    requires Inv(s)
    ensures StepRefines(s, Look(p, op)) && Inv(StepShared(s, Look(p, op)).0)
  {
    hide LookShared, LookPrivate, Slice, WaitingOf, WellFormed, Prepared;
    WaitingPut(s.waiting, p, ToDelete(0), p.tenant);
    if LooksFirst(op) && p !in s.waiting {
      LookupsAgree(s.table, p.tenant, op);
      LookupsPrepare(s.table, p.tenant, op);
      var looked := LookShared(s.table, p.tenant, op);
      if looked.Found? {
        forall u: Tenant
          ensures WaitingOf(s.waiting[p := looked.pending], u)
                  == if u == p.tenant then WaitingOf(s.waiting, u)[p := looked.pending] else WaitingOf(s.waiting, u)
        {
          WaitingPut(s.waiting, p, looked.pending, u);
        }
      }
    }
  }

  lemma WriteRefines(s: State, p: Process)
    requires Inv(s) && StepConfined(s, Write(p))
    ensures StepRefines(s, Write(p)) && Inv(StepShared(s, Write(p)).0)
  {
    hide WriteShared, WritePrivate, Slice, WaitingOf, WellFormed, Prepared, WriteConfined;
    WaitingPut(s.waiting, p, ToDelete(0), p.tenant);
    if p in s.waiting {
      WriteRefinesPrivate(s.table, p.tenant, s.waiting[p]);
      forall u: Tenant
        ensures WaitingOf(s.waiting - {p}, u) == WaitingOf(s.waiting, u) - {p}
        ensures u != p.tenant ==> WaitingOf(s.waiting, u) - {p} == WaitingOf(s.waiting, u)
      {
        WaitingPut(s.waiting, p, ToDelete(0), u);
      }
    }
  }

  lemma ConfinedStepRefines(s: State, step: Step)
    requires Inv(s) && StepConfined(s, step)
    ensures StepRefines(s, step) && Inv(StepShared(s, step).0)
  {
    hide StepRefines, Inv, StepShared;
    match step
    case Single(p, op) => SingleRefines(s, p, op);
    case Look(p, op) => LookRefines(s, p, op);
    case Write(p) => WriteRefines(s, p);
  }

  function RunAllShared(s: State, steps: seq<Step>): (r: (State, seq<Option<Reply>>))
    ensures |r.1| == |steps|
    decreases |steps|
  {
    if steps == [] then (s, []) else
    var (next, reply) := StepShared(s, steps[0]);
    var (final, replies) := RunAllShared(next, steps[1..]);
    (final, [reply] + replies)
  }

  function RunAllPrivate(s: State, steps: seq<Step>): (State, seq<Option<Reply>>)
    decreases |steps|
  {
    if steps == [] then (s, []) else
    var (next, reply) := StepPrivate(s, steps[0]);
    var (final, replies) := RunAllPrivate(next, steps[1..]);
    (final, [reply] + replies)
  }

  function StepsOf(t: Tenant, steps: seq<Step>): seq<Step> {
    if steps == [] then []
    else (if steps[0].process.tenant == t then [steps[0]] else []) + StepsOf(t, steps[1..])
  }

  function AnswersTo(t: Tenant, steps: seq<Step>, replies: seq<Option<Reply>>): seq<Option<Reply>>
    requires |steps| == |replies|
  {
    if steps == [] then []
    else (if steps[0].process.tenant == t then [replies[0]] else []) + AnswersTo(t, steps[1..], replies[1..])
  }

  ghost predicate StepsConfined(s: State, steps: seq<Step>)
    decreases |steps|
  {
    steps != [] ==> StepConfined(s, steps[0]) && StepsConfined(StepShared(s, steps[0]).0, steps[1..])
  }

  /// Whatever the interleaving of the tenants' lookups, writes and single statements, every tenant ends
  /// with the rows, and has received the answers, of its own steps alone on a private database.
  lemma {:induction false} InterleavedPhasesRefine(s: State, steps: seq<Step>, t: Tenant)
    requires Inv(s) && StepsConfined(s, steps)
    ensures
      var (final, replies) := RunAllShared(s, steps);
      RunAllPrivate(View(s, t), StepsOf(t, steps)) == (View(final, t), AnswersTo(t, steps, replies))
    decreases |steps|
  {
    hide StepShared, StepPrivate, View, Inv, StepConfined;
    if steps != [] {
      var step, next := steps[0], StepShared(s, steps[0]).0;
      ConfinedStepRefines(s, step);
      InterleavedPhasesRefine(next, steps[1..], t);
      assert RunAllShared(s, steps).1[1..] == RunAllShared(next, steps[1..]).1;
      if step.process.tenant == t {
        assert StepsOf(t, steps)[1..] == StepsOf(t, steps[1..]);
      } else {
        assert StepsOf(t, steps) == StepsOf(t, steps[1..]);
        assert AnswersTo(t, steps, RunAllShared(s, steps).1) == AnswersTo(t, steps[1..], RunAllShared(next, steps[1..]).1);
      }
    }
  }

  /// A key that is deleted by its tenant and taken by another between lookup and write is not confined:
  /// the write reaches the new owner's row.
  lemma ReusedKeyIsReached(row: Row, t: Tenant, u: Tenant, id: Id, patch: Row)
    requires t != u && Owned(row, u) && TENANT_ID !in patch
    ensures !WriteCommutes(map[id := row], t, ToUpdate(id, One(patch)))
    ensures WriteShared(map[id := row], ToUpdate(id, One(patch))).0 == map[id := row + patch]
  {
    hide Matching;
    var tbl: Table := map[id := row];
    KeyLookup(tbl, id);
    UpdateWriteIff(tbl, t, id, One(patch));
  }
}
