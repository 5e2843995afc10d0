/// The shared table behind the tenant hook refines one private table per tenant.
module TenantIsolation {
  import opened Common
  import opened TenantScope

  predicate Owned(row: Row, t: Tenant) {
    TENANT_ID in row && row[TENANT_ID] == Str(t)
  }

  /// The private table of `t`.
  function Slice(tbl: Table, t: Tenant): Table {
    map id | id in tbl && Owned(tbl[id], t) :: tbl[id]
  }

  /// The filter without its top-level tenant condition: meaningless on a private table.
  function Untenanted(w: Option<Where>): Where {
    Given(w).(fields := Given(w).fields - {TENANT_ID})
  }

  /// The filter asks, by a plain text, for the rows of another tenant.
  predicate AsksForOther(w: Option<Where>, t: Tenant) {
    var fields := Given(w).fields;
    TENANT_ID in fields && fields[TENANT_ID].Equals? && fields[TENANT_ID].v.Str? && fields[TENANT_ID].v.s != t
  }

  predicate Reassigns(data: Data, t: Tenant) {
    data.One? && TENANT_ID in data.row && data.row[TENANT_ID].Str? && data.row[TENANT_ID].s != t
  }

  function Unassigned(data: Data): Data {
    if data.One? then One(data.row - {TENANT_ID}) else data
  }

  /// The reference: an ordinary database that only holds the rows of `t`. It needs no ownership
  /// lookups; what it shares with the hook is only which requests are refused outright.
  function OnPrivate(own: Table, t: Tenant, op: Op): (Table, Reply) {
    match op
    case Create(id, data) =>
      if NamesOtherTenant(data, t) then (own, Failed(TenantMismatch)) else RawCreate(own, id, Stamp(data, t))
    case CreateMany(ids, data) =>
      if NamesOtherTenant(data, t) then (own, Failed(TenantMismatch)) else RawCreateMany(own, ids, Stamp(data, t))
    case Filtered(kind, w) =>
      if AsksForOther(w, t) then (own, Failed(TenantMismatch)) else RawFiltered(own, kind, Untenanted(w))
    case FindUnique(orThrow, w) =>
      if AsksForOther(w, t) then (own, Failed(TenantMismatch)) else (own, RawFindFirst(own, Untenanted(w), orThrow))
    case Update(w, data) =>
      if AsksForOther(w, t) then (own, Failed(TenantMismatch))
      else if Matching(own, Untenanted(w)) == map[] then (own, Failed(NotFound))
      else if Reassigns(data, t) then (own, Failed(Reassignment))
      else RawUpdate(own, Untenanted(w), Unassigned(data))
    case Delete(w) =>
      if AsksForOther(w, t) then (own, Failed(TenantMismatch)) else RawDelete(own, Untenanted(w))
    case Upsert(id, w, create, update) =>
      if NamesOtherTenant(create, t) || NamesOtherTenant(update, t) || AsksForOther(w, t)
      then (own, Failed(TenantMismatch))
      else RawUpsert(own, id, Untenanted(w), Stamp(create, t), Unassigned(update))
    case CreateManyAndReturn(ids, data) =>
      if NamesOtherTenant(data, t) then (own, Failed(TenantMismatch)) else RawCreateManyAndReturn(own, ids, Stamp(data, t))
    case UpdateManyAndReturn(w, data) =>
      if AsksForOther(w, t) then (own, Failed(TenantMismatch)) else RawUpdateManyAndReturn(own, Untenanted(w), data)
  }

  /// A primary key that no other tenant uses.
  predicate Usable(tbl: Table, id: Id, t: Tenant) {
    id in tbl ==> Owned(tbl[id], t)
  }

  predicate AllStorable(rows: seq<Row>) {
    forall i | 0 <= i < |rows| :: Storable(rows[i])
  }

  predicate AllOwned(rows: seq<Row>, t: Tenant) {
    forall i | 0 <= i < |rows| :: Owned(rows[i], t)
  }

  /// When a call stays within its tenant. Of the calls the hook rewrites only three kinds can fail to:
  /// one that brings a primary key of another tenant, an updateMany that rewrites `tenantId` and hits a
  /// row, and an upsert that misses its own rows but whose original filter hits a row of another tenant.
  /// The two calls it passes on are confined only if the caller has done the hook's work: every record
  /// already carries the tenant, the filter already selects the tenant's rows only.
  ghost predicate Confined(tbl: Table, t: Tenant, op: Op) {
    match op
    case Create(id, data) => NamesOtherTenant(data, t) || !data.One? || Usable(tbl, id, t)
    case CreateMany(ids, data) =>
      || NamesOtherTenant(data, t)
      || Records(data).None? || |Records(data).value| != |ids| || !Distinct(ids)
      || (exists i | 0 <= i < |ids| :: ids[i] in Slice(tbl, t))
      || (forall i | 0 <= i < |ids| :: Usable(tbl, ids[i], t))
    case Filtered(UpdateMany(data), w) =>
      AsksForOther(w, t) || !Reassigns(data, t) || Matching(Slice(tbl, t), Untenanted(w)) == map[]
    case Upsert(id, w, create, update) =>
      || NamesOtherTenant(create, t) || NamesOtherTenant(update, t) || AsksForOther(w, t)
      || !create.One? || !update.One?
      || Matching(Slice(tbl, t), Untenanted(w)) != map[]
      || (Matching(tbl, Given(w)) == map[] && Usable(tbl, id, t))
    case CreateManyAndReturn(ids, data) =>
      && !NamesOtherTenant(data, t)
      && (|| Records(data).None? || |Records(data).value| != |ids|
          || (AllStorable(Records(data).value)
              && (!Distinct(ids) || exists i | 0 <= i < |ids| :: ids[i] in Slice(tbl, t)))
          || (AllOwned(Records(data).value, t) && forall i | 0 <= i < |ids| :: Usable(tbl, ids[i], t)))
    case UpdateManyAndReturn(w, data) =>
      && !AsksForOther(w, t)
      && (|| !Patchable(data)
          || (Matching(tbl, Given(w)) == Matching(Slice(tbl, t), Untenanted(w))
              && (!Reassigns(data, t) || Matching(tbl, Given(w)) == map[])))
    case _ => true
  }

  ghost predicate OthersUntouched(before: Table, after: Table, t: Tenant) {
    forall u: Tenant | u != t :: Slice(after, u) == Slice(before, u)
  }

  /// The call does to the slice of `t` what it does to a private table, with the same answer.
  ghost predicate Commutes(tbl: Table, t: Tenant, op: Op) {
    var (after, reply) := Scoped(tbl, t, op);
    && OnPrivate(Slice(tbl, t), t, op) == (Slice(after, t), reply)
    && OthersUntouched(tbl, after, t)
  }

  // ----- The rewritten filter ---------------------------------------------------------------

  lemma MergedMatches(w: Option<Where>, t: Tenant, id: Id, row: Row)
    requires !AsksForOther(w, t) && Storable(row)
    ensures MergeTenantWhere(w, t).Ok?
    ensures Matches(MergeTenantWhere(w, t).value, id, row) <==> Owned(row, t) && Matches(Untenanted(w), id, row)
  {
    var merged, bare := MergeTenantWhere(w, t).value, Untenanted(w);
    assert merged.fields == bare.fields[TENANT_ID := Equals(Str(t))];
    assert forall c | c in bare.fields :: merged.fields[c] == bare.fields[c];
    assert Accepts(merged.fields[TENANT_ID], Cell(id, row, TENANT_ID)) <==> Owned(row, t);
    assert forall c | c in merged.fields :: c == TENANT_ID || c in bare.fields;
  }

  lemma MergeRefusedIff(w: Option<Where>, t: Tenant)
    ensures MergeTenantWhere(w, t).Err? <==> AsksForOther(w, t)
    ensures MergeTenantWhere(w, t).Err? ==> MergeTenantWhere(w, t).error == TenantMismatch
  {
  }

  /// A filter merged with the tenant selects from the shared table exactly what the bare filter
  /// selects from the tenant's slice.
  lemma MergedSelectsOwn(tbl: Table, w: Option<Where>, t: Tenant)
    requires WellFormed(tbl)
    ensures MergeTenantWhere(w, t).Err? <==> AsksForOther(w, t)
    ensures !AsksForOther(w, t) ==>
      Matching(tbl, MergeTenantWhere(w, t).value) == Matching(Slice(tbl, t), Untenanted(w))
  {
    MergeRefusedIff(w, t);
    hide MergeTenantWhere, Matches, AsksForOther, Untenanted;
    if !AsksForOther(w, t) {
      forall id | id in tbl
        ensures Matches(MergeTenantWhere(w, t).value, id, tbl[id])
           <==> Owned(tbl[id], t) && Matches(Untenanted(w), id, tbl[id])
      {
        MergedMatches(w, t, id, tbl[id]);
      }
    }
  }

  lemma ByIdSelects(tbl: Table, id: Id)
    requires id in tbl
    ensures First(Matching(tbl, ById(id))) == Some(id)
  {
    assert Matches(ById(id), id, tbl[id]);
    assert forall k | k in Matching(tbl, ById(id)) :: k == id by {
      forall k | k in Matching(tbl, ById(id)) ensures k == id {
        assert Accepts(ById(id).fields[ID], Cell(k, tbl[k], ID));
      }
    }
    assert id in Matching(tbl, ById(id));
  }

  /// A created row is found under its key, and deleting it again restores the table.
  lemma CreateThenDelete(tbl: Table, id: Id, row: Row)
    requires Storable(row)
    ensures
      var (after, reply) := RawCreate(tbl, id, One(row));
      if id in tbl then after == tbl && reply == Failed(UniqueViolation)
      else
        && reply == Found(id, row) == RawFindFirst(after, ById(id), true)
        && RawDelete(after, ById(id)) == (tbl, Found(id, row))
  {
    if id !in tbl {
      ByIdSelects(tbl[id := row], id);
      assert tbl[id := row] - {id} == tbl;
    }
  }

  // ----- Slices under point updates -----------------------------------------------------------

  lemma SlicePut(tbl: Table, id: Id, row: Row, t: Tenant)
    requires Usable(tbl, id, t) && Owned(row, t)
    ensures Slice(tbl[id := row], t) == Slice(tbl, t)[id := row]
    ensures OthersUntouched(tbl, tbl[id := row], t)
  {
  }

  lemma SliceDrop(tbl: Table, ids: set<Id>, t: Tenant)
    requires forall id | id in ids && id in tbl :: Owned(tbl[id], t)
    ensures Slice(tbl - ids, t) == Slice(tbl, t) - ids
    ensures OthersUntouched(tbl, tbl - ids, t)
  {
  }

  lemma {:induction false} SliceInsert(tbl: Table, ids: seq<Id>, rows: seq<Row>, t: Tenant)
    requires |ids| == |rows|
    requires forall i | 0 <= i < |ids| :: Usable(tbl, ids[i], t) && Owned(rows[i], t)
    ensures Slice(Insert(tbl, ids, rows), t) == Insert(Slice(tbl, t), ids, rows)
    ensures OthersUntouched(tbl, Insert(tbl, ids, rows), t)
    ensures forall id | id in Insert(tbl, ids, rows) && id !in tbl :: Owned(Insert(tbl, ids, rows)[id], t)
    ensures forall id | Usable(tbl, id, t) :: Usable(Insert(tbl, ids, rows), id, t)
    ensures WellFormed(tbl) ==> WellFormed(Insert(tbl, ids, rows))
  {
    if ids != [] {
      var n := |ids| - 1;
      SliceInsert(tbl, ids[..n], rows[..n], t);
      SlicePut(Insert(tbl, ids[..n], rows[..n]), ids[n], rows[n], t);
    }
  }

  // ----- One call ------------------------------------------------------------------------------

  lemma CreateCommutes(tbl: Table, t: Tenant, id: Id, data: Data)
    requires WellFormed(tbl)
    ensures Commutes(tbl, t, Create(id, data)) <==> Confined(tbl, t, Create(id, data))
    ensures WellFormed(Scoped(tbl, t, Create(id, data)).0)
  {
    InjectStamps(data, t);
    if !NamesOtherTenant(data, t) && data.One? && id !in tbl {
      SlicePut(tbl, id, Stamp(data, t).row, t);
    }
  }

  lemma StampedRecords(data: Data, t: Tenant)
    ensures Records(Stamp(data, t)).Some? <==> Records(data).Some?
    ensures Records(data).Some? ==>
      && |Records(Stamp(data, t)).value| == |Records(data).value|
      && forall i | 0 <= i < |Records(data).value| :: Owned(Records(Stamp(data, t)).value[i], t)
  {
    if data.Many? {
      var stamped := Stamp(data, t).items;
      assert forall i | 0 <= i < |stamped| :: stamped[i] == Stamp(data.items[i], t);
      assert forall i | 0 <= i < |stamped| :: stamped[i].One? <==> data.items[i].One?;
    }
  }

  predicate Insertable(ids: seq<Id>, data: Data, t: Tenant) {
    !NamesOtherTenant(data, t) && Records(data).Some? && |Records(data).value| == |ids| && Distinct(ids)
  }

  lemma CreateManyOutcomes(tbl: Table, t: Tenant, ids: seq<Id>, data: Data)
    requires Insertable(ids, data, t)
    ensures Records(Stamp(data, t)).Some? && |Records(Stamp(data, t)).value| == |ids|
    ensures
      Scoped(tbl, t, CreateMany(ids, data))
      == if exists i | 0 <= i < |ids| :: ids[i] in tbl then (tbl, Failed(UniqueViolation))
         else (Insert(tbl, ids, Records(Stamp(data, t)).value), Affected(|ids|))
    ensures
      OnPrivate(Slice(tbl, t), t, CreateMany(ids, data))
      == if exists i | 0 <= i < |ids| :: ids[i] in Slice(tbl, t) then (Slice(tbl, t), Failed(UniqueViolation))
         else (Insert(Slice(tbl, t), ids, Records(Stamp(data, t)).value), Affected(|ids|))
  {
    InjectStamps(data, t);
    StampedRecords(data, t);
  }

  lemma CreateManyRefused(tbl: Table, t: Tenant, ids: seq<Id>, data: Data)
    requires !Insertable(ids, data, t)
    ensures Scoped(tbl, t, CreateMany(ids, data)).0 == tbl
    ensures Commutes(tbl, t, CreateMany(ids, data))
  {
    InjectStamps(data, t);
    StampedRecords(data, t);
  }

  lemma CreateManyCommutes(tbl: Table, t: Tenant, ids: seq<Id>, data: Data)
    requires WellFormed(tbl)
    ensures Commutes(tbl, t, CreateMany(ids, data)) <==> Confined(tbl, t, CreateMany(ids, data))
    ensures WellFormed(Scoped(tbl, t, CreateMany(ids, data)).0)
  {
    if !Insertable(ids, data, t) {
      CreateManyRefused(tbl, t, ids, data);
    } else {
      CreateManyOutcomes(tbl, t, ids, data);
      var own, rows := Slice(tbl, t), Records(Stamp(data, t)).value;
      if i :| 0 <= i < |ids| && ids[i] in own {
        assert ids[i] in tbl;
      } else if i :| 0 <= i < |ids| && !Usable(tbl, ids[i], t) {
        assert ids[i] in tbl;
      } else {
        assert forall i | 0 <= i < |ids| :: ids[i] !in tbl;
        StampedRecords(data, t);
        SliceInsert(tbl, ids, rows, t);
      }
    }
  }

  /// The rows an updateMany leaves behind.
  function Patched(tbl: Table, hits: Table, patch: Row): Table {
    map id | id in tbl :: if id in hits then tbl[id] + patch else tbl[id]
  }

  lemma PatchKeepsOwner(row: Row, patch: Row, t: Tenant, u: Tenant)
    requires Owned(row, t)
    requires TENANT_ID in patch ==> patch[TENANT_ID] == Str(t)
    ensures Owned(row + patch, u) <==> Owned(row, u)
  {
  }

  lemma PatchKeepsOwners(tbl: Table, t: Tenant, hits: Table, patch: Row, u: Tenant)
    requires hits.Keys <= Slice(tbl, t).Keys
    requires TENANT_ID in patch ==> patch[TENANT_ID] == Str(t)
    ensures forall id | id in tbl :: Owned(Patched(tbl, hits, patch)[id], u) <==> Owned(tbl[id], u)
  {
    forall id | id in tbl && id in hits
      ensures Owned(Patched(tbl, hits, patch)[id], u) <==> Owned(tbl[id], u)
    {
      PatchKeepsOwner(tbl[id], patch, t, u);
    }
  }

  lemma PatchLeavesOthers(tbl: Table, t: Tenant, hits: Table, patch: Row, u: Tenant)
    requires hits.Keys <= Slice(tbl, t).Keys && u != t
    requires TENANT_ID in patch ==> patch[TENANT_ID] == Str(t)
    ensures Slice(Patched(tbl, hits, patch), u) == Slice(tbl, u)
  {
    PatchKeepsOwners(tbl, t, hits, patch, u);
    assert forall id | id in hits :: !Owned(tbl[id], u);
  }

  lemma PatchStays(tbl: Table, t: Tenant, hits: Table, patch: Row)
    requires hits.Keys <= Slice(tbl, t).Keys
    requires TENANT_ID in patch ==> patch[TENANT_ID] == Str(t)
    ensures Slice(Patched(tbl, hits, patch), t) == Patched(Slice(tbl, t), hits, patch)
    ensures OthersUntouched(tbl, Patched(tbl, hits, patch), t)
  {
    forall u: Tenant | u != t
      ensures Slice(Patched(tbl, hits, patch), u) == Slice(tbl, u)
    {
      PatchLeavesOthers(tbl, t, hits, patch, u);
    }
    PatchKeepsOwners(tbl, t, hits, patch, t);
  }

  lemma PatchLeaves(tbl: Table, t: Tenant, hits: Table, patch: Row)
    requires hits.Keys <= Slice(tbl, t).Keys && hits != map[]
    requires TENANT_ID in patch && patch[TENANT_ID] != Str(t)
    ensures Slice(Patched(tbl, hits, patch), t) != Patched(Slice(tbl, t), hits, patch)
  {
    var id :| id in hits.Keys;
    assert id in Patched(Slice(tbl, t), hits, patch);
    assert id !in Slice(Patched(tbl, hits, patch), t);
  }

  lemma UpdateManyOutcomes(tbl: Table, t: Tenant, data: Data, w: Option<Where>)
    requires WellFormed(tbl) && !AsksForOther(w, t) && Patchable(data)
    ensures
      var hits := Matching(Slice(tbl, t), Untenanted(w));
      && hits.Keys <= Slice(tbl, t).Keys
      && Scoped(tbl, t, Filtered(UpdateMany(data), w)) == (Patched(tbl, hits, data.row), Affected(|hits|))
      && OnPrivate(Slice(tbl, t), t, Filtered(UpdateMany(data), w))
         == (Patched(Slice(tbl, t), hits, data.row), Affected(|hits|))
  {
    MergedSelectsOwn(tbl, w, t);
  }

  lemma PatchCommutes(tbl: Table, t: Tenant, hits: Table, data: Data)
    requires Patchable(data) && hits.Keys <= Slice(tbl, t).Keys
    ensures
      var after := Patched(tbl, hits, data.row);
      (Slice(after, t) == Patched(Slice(tbl, t), hits, data.row) && OthersUntouched(tbl, after, t))
      <==> (!Reassigns(data, t) || hits == map[])
  {
    if !Reassigns(data, t) {
      PatchStays(tbl, t, hits, data.row);
    } else if hits == map[] {
      assert Patched(tbl, hits, data.row) == tbl;
      assert Patched(Slice(tbl, t), hits, data.row) == Slice(tbl, t);
    } else {
      PatchLeaves(tbl, t, hits, data.row);
    }
  }

  /// Both executions in hand, commuting is a matter of comparing tables.
  lemma Compare(tbl: Table, t: Tenant, op: Op, after: Table, own: Table, reply: Reply)
    requires Scoped(tbl, t, op) == (after, reply)
    requires OnPrivate(Slice(tbl, t), t, op) == (own, reply)
    ensures Commutes(tbl, t, op) <==> Slice(after, t) == own && OthersUntouched(tbl, after, t)
  {
  }

  lemma UpdateManyCommutes(tbl: Table, t: Tenant, data: Data, w: Option<Where>)
    requires WellFormed(tbl) && !AsksForOther(w, t) && Patchable(data)
    ensures Commutes(tbl, t, Filtered(UpdateMany(data), w)) <==> Confined(tbl, t, Filtered(UpdateMany(data), w))
  {
    var own, op := Slice(tbl, t), Filtered(UpdateMany(data), w);
    var hits := Matching(own, Untenanted(w));
    UpdateManyOutcomes(tbl, t, data, w);
    PatchCommutes(tbl, t, hits, data);
    Compare(tbl, t, op, Patched(tbl, hits, data.row), Patched(own, hits, data.row), Affected(|hits|));
  }

  lemma PatchedWellFormed(tbl: Table, hits: Table, data: Data)
    requires WellFormed(tbl) && Patchable(data)
    ensures WellFormed(Patched(tbl, hits, data.row))
  {
  }

  lemma FilteredCommutes(tbl: Table, t: Tenant, kind: FilterOp, w: Option<Where>)
    requires WellFormed(tbl)
    ensures Commutes(tbl, t, Filtered(kind, w)) <==> Confined(tbl, t, Filtered(kind, w))
    ensures WellFormed(Scoped(tbl, t, Filtered(kind, w)).0)
  {
    MergedSelectsOwn(tbl, w, t);
    if !AsksForOther(w, t) {
      match kind
      case FindMany =>
      case FindFirst(_) =>
      case DeleteMany => SliceDrop(tbl, Matching(Slice(tbl, t), Untenanted(w)).Keys, t);
      case UpdateMany(data) =>
        if Patchable(data) {
          UpdateManyOutcomes(tbl, t, data, w);
          UpdateManyCommutes(tbl, t, data, w);
          PatchedWellFormed(tbl, Matching(Slice(tbl, t), Untenanted(w)), data);
        }
    }
  }

  lemma StrippedIsUnassigned(data: Data, t: Tenant)
    ensures StripTenantId(data, t) == if Reassigns(data, t) then Err(Reassignment) else Ok(Unassigned(data))
  {
    if data.One? && TENANT_ID !in data.row {
      assert data.row - {TENANT_ID} == data.row;
    }
  }

  /// A row found in the slice is a row of the shared table, and the tenant's own.
  lemma HitIsOwn(tbl: Table, t: Tenant, w: Where)
    ensures
      var hit := First(Matching(Slice(tbl, t), w));
      && (hit.Some? ==>
            hit.value in tbl && Owned(tbl[hit.value], t) && hit.value in Slice(tbl, t)
            && Slice(tbl, t)[hit.value] == tbl[hit.value])
      && (hit.None? <==> Matching(Slice(tbl, t), w) == map[])
  {
  }

  lemma UpdateCommutes(tbl: Table, t: Tenant, w: Option<Where>, data: Data)
    requires WellFormed(tbl)
    ensures Commutes(tbl, t, Update(w, data))
    ensures WellFormed(Scoped(tbl, t, Update(w, data)).0)
  {
    hide Matches, Matching, Slice;
    MergedSelectsOwn(tbl, w, t);
    StrippedIsUnassigned(data, t);
    var hit := First(Matching(Slice(tbl, t), Untenanted(w)));
    HitIsOwn(tbl, t, Untenanted(w));
    if !AsksForOther(w, t) && hit.Some? && !Reassigns(data, t) && data.One? {
      ByIdSelects(tbl, hit.value);
      SlicePut(tbl, hit.value, tbl[hit.value] + Unassigned(data).row, t);
    }
  }

  lemma DeleteCommutes(tbl: Table, t: Tenant, w: Option<Where>)
    requires WellFormed(tbl)
    ensures Commutes(tbl, t, Delete(w))
    ensures WellFormed(Scoped(tbl, t, Delete(w)).0)
  {
    hide Matches, Matching, Slice;
    MergedSelectsOwn(tbl, w, t);
    var hit := First(Matching(Slice(tbl, t), Untenanted(w)));
    HitIsOwn(tbl, t, Untenanted(w));
    if !AsksForOther(w, t) && hit.Some? {
      ByIdSelects(tbl, hit.value);
      SliceDrop(tbl, {hit.value}, t);
    }
  }

  /// The payloads an upsert really writes. Injecting first means stripping never refuses.
  lemma UpsertWrites(t: Tenant, create: Data, update: Data)
    ensures UpsertPayloads(t, create, update).Err? <==> NamesOtherTenant(create, t) || NamesOtherTenant(update, t)
    ensures UpsertPayloads(t, create, update).Err? ==> UpsertPayloads(t, create, update).error == TenantMismatch
    ensures UpsertPayloads(t, create, update).Ok? ==>
      var (c, u) := UpsertPayloads(t, create, update).value;
      && c == Stamp(create, t)
      && (update.One? ==> u == Unassigned(update))
      && (!update.One? ==> !u.One?)
  {
    InjectStamps(create, t);
    InjectStamps(update, t);
    if update.One? {
      assert update.row[TENANT_ID := Str(t)] - {TENANT_ID} == update.row - {TENANT_ID};
    }
  }

  /// Own rows that the original filter accepts are accepted without its tenant condition as well.
  lemma OriginalWithinUntenanted(tbl: Table, w: Option<Where>, t: Tenant)
    requires Matching(Slice(tbl, t), Untenanted(w)) == map[]
    ensures forall id | id in Matching(tbl, Given(w)) :: !Owned(tbl[id], t)
  {
    var own := Slice(tbl, t);
    forall id | id in Matching(tbl, Given(w))
      ensures !Owned(tbl[id], t)
    {
      assert Matches(Untenanted(w), id, tbl[id]);
      assert id in own ==> id in Matching(own, Untenanted(w));
    }
  }

  /// An upsert of well-formed payloads whose filter first hits row `hit`.
  lemma UpsertUpdates(tbl: Table, id: Id, w: Where, hit: Id, create: Data, update: Data)
    requires create.One? && Storable(create.row) && Patchable(update)
    requires First(Matching(tbl, w)) == Some(hit)
    ensures RawUpsert(tbl, id, w, create, update)
         == (tbl[hit := tbl[hit] + update.row], Found(hit, tbl[hit] + update.row))
  {
    ByIdSelects(tbl, hit);
  }

  predicate UpsertAccepted(t: Tenant, w: Option<Where>, create: Data, update: Data) {
    !NamesOtherTenant(create, t) && !NamesOtherTenant(update, t) && !AsksForOther(w, t)
  }

  /// What the hook sends on: the own row by primary key if there is one, else the original filter.
  lemma UpsertRewritten(tbl: Table, t: Tenant, id: Id, w: Option<Where>, create: Data, update: Data)
    requires WellFormed(tbl) && UpsertAccepted(t, w, create, update) && create.One? && update.One?
    ensures
      var hit := First(Matching(Slice(tbl, t), Untenanted(w)));
      ScopedUpsert(tbl, t, id, w, create, update)
      == RawUpsert(tbl, id, if hit.Some? then ById(hit.value) else Given(w), Stamp(create, t), Unassigned(update))
  {
    UpsertWrites(t, create, update);
    MergedSelectsOwn(tbl, w, t);
  }

  lemma UpsertHitOutcomes(tbl: Table, t: Tenant, id: Id, w: Option<Where>, create: Data, update: Data, hit: Id)
    requires WellFormed(tbl) && UpsertAccepted(t, w, create, update) && create.One? && update.One?
    requires First(Matching(Slice(tbl, t), Untenanted(w))) == Some(hit)
    ensures hit in Slice(tbl, t)
    ensures
      var row := tbl[hit] + Unassigned(update).row;
      && ScopedUpsert(tbl, t, id, w, create, update) == (tbl[hit := row], Found(hit, row))
      && RawUpsert(Slice(tbl, t), id, Untenanted(w), Stamp(create, t), Unassigned(update))
         == (Slice(tbl, t)[hit := row], Found(hit, row))
  {
    var c, u := Stamp(create, t), Unassigned(update);
    UpsertRewritten(tbl, t, id, w, create, update);
    assert hit in Slice(tbl, t);
    assert Storable(c.row) && Patchable(u);
    ByIdSelects(tbl, hit);
    UpsertUpdates(tbl, id, ById(hit), hit, c, u);
    UpsertUpdates(Slice(tbl, t), id, Untenanted(w), hit, c, u);
  }

  lemma UpsertUnfolds(tbl: Table, t: Tenant, id: Id, w: Option<Where>, create: Data, update: Data)
    requires UpsertAccepted(t, w, create, update)
    ensures Scoped(tbl, t, Upsert(id, w, create, update)) == ScopedUpsert(tbl, t, id, w, create, update)
    ensures OnPrivate(Slice(tbl, t), t, Upsert(id, w, create, update))
         == RawUpsert(Slice(tbl, t), id, Untenanted(w), Stamp(create, t), Unassigned(update))
  {
  }

  lemma UpsertHitCommutes(tbl: Table, t: Tenant, id: Id, w: Option<Where>, create: Data, update: Data)
    requires WellFormed(tbl) && UpsertAccepted(t, w, create, update)
    requires create.One? && update.One? && Matching(Slice(tbl, t), Untenanted(w)) != map[]
    ensures Commutes(tbl, t, Upsert(id, w, create, update))
    ensures WellFormed(Scoped(tbl, t, Upsert(id, w, create, update)).0)
  {
    var op, own := Upsert(id, w, create, update), Slice(tbl, t);
    var hit := First(Matching(own, Untenanted(w))).value;
    var row := tbl[hit] + Unassigned(update).row;
    UpsertHitOutcomes(tbl, t, id, w, create, update, hit);
    SlicePut(tbl, hit, row, t);
    UpsertUnfolds(tbl, t, id, w, create, update);
    Compare(tbl, t, op, tbl[hit := row], own[hit := row], Found(hit, row));
  }

  /// An upsert that lands on a row of another tenant answers with that row.
  lemma ForeignUpsertShows(tbl: Table, t: Tenant, id: Id, w: Option<Where>, create: Data, update: Data, foreign: Id)
    requires WellFormed(tbl) && create.One? && Owned(create.row, t)
    requires update.One? && TENANT_ID !in update.row
    requires First(Matching(tbl, Given(w))) == Some(foreign) && !Owned(tbl[foreign], t)
    ensures RawUpsert(tbl, id, Given(w), create, update).1 != RawCreate(Slice(tbl, t), id, create).1
    ensures WellFormed(RawUpsert(tbl, id, Given(w), create, update).0)
  {
    ByIdSelects(tbl, foreign);
    var patched := tbl[foreign] + update.row;
    assert RawUpsert(tbl, id, Given(w), create, update) == (tbl[foreign := patched], Found(foreign, patched));
    assert !Owned(patched, t);
  }

  lemma UpsertMissOutcomes(tbl: Table, t: Tenant, id: Id, w: Option<Where>, create: Data, update: Data)
    requires WellFormed(tbl) && UpsertAccepted(t, w, create, update) && create.One? && update.One?
    requires Matching(Slice(tbl, t), Untenanted(w)) == map[]
    ensures Scoped(tbl, t, Upsert(id, w, create, update))
         == RawUpsert(tbl, id, Given(w), Stamp(create, t), Unassigned(update))
    ensures OnPrivate(Slice(tbl, t), t, Upsert(id, w, create, update)) == RawCreate(Slice(tbl, t), id, Stamp(create, t))
  {
    UpsertRewritten(tbl, t, id, w, create, update);
    UpsertUnfolds(tbl, t, id, w, create, update);
    assert Storable(Stamp(create, t).row) && Patchable(Unassigned(update));
  }

  /// An upsert that finds nothing on the shared table creates, as on the private one, if it may.
  lemma UpsertCreates(tbl: Table, t: Tenant, id: Id, w: Option<Where>, create: Data, update: Data)
    requires WellFormed(tbl) && create.One? && Owned(create.row, t) && Patchable(update)
    requires Matching(tbl, Given(w)) == map[]
    ensures
      var ((after, reply), (own, ownReply)) :=
        (RawUpsert(tbl, id, Given(w), create, update), RawCreate(Slice(tbl, t), id, create));
      && WellFormed(after)
      && ((Slice(after, t) == own && reply == ownReply && OthersUntouched(tbl, after, t)) <==> Usable(tbl, id, t))
  {
    if id !in tbl {
      SlicePut(tbl, id, create.row, t);
    }
  }

  lemma UpsertMissCommutes(tbl: Table, t: Tenant, id: Id, w: Option<Where>, create: Data, update: Data)
    requires WellFormed(tbl) && UpsertAccepted(t, w, create, update)
    requires create.One? && update.One? && Matching(Slice(tbl, t), Untenanted(w)) == map[]
    ensures Commutes(tbl, t, Upsert(id, w, create, update))
       <==> Matching(tbl, Given(w)) == map[] && Usable(tbl, id, t)
    ensures WellFormed(Scoped(tbl, t, Upsert(id, w, create, update)).0)
  {
    var c, u := Stamp(create, t), Unassigned(update);
    UpsertMissOutcomes(tbl, t, id, w, create, update);
    var foreign := First(Matching(tbl, Given(w)));
    if foreign.Some? {
      OriginalWithinUntenanted(tbl, w, t);
      ForeignUpsertShows(tbl, t, id, w, c, u, foreign.value);
    } else {
      UpsertCreates(tbl, t, id, w, c, u);
    }
  }

  lemma UpsertRefused(tbl: Table, t: Tenant, id: Id, w: Option<Where>, create: Data, update: Data)
    requires WellFormed(tbl)
    requires !UpsertAccepted(t, w, create, update) || !create.One? || !update.One?
    ensures Scoped(tbl, t, Upsert(id, w, create, update)).0 == tbl
    ensures Commutes(tbl, t, Upsert(id, w, create, update))
  {
    hide StripTenantId, MergeTenantWhere, Matching, Matches, First, Untenanted, Slice, WellFormed;
    UpsertWrites(t, create, update);
    MergedSelectsOwn(tbl, w, t);
    MergeRefusedIff(w, t);
  }

  lemma UpsertCommutes(tbl: Table, t: Tenant, id: Id, w: Option<Where>, create: Data, update: Data)
    requires WellFormed(tbl)
    ensures Commutes(tbl, t, Upsert(id, w, create, update)) <==> Confined(tbl, t, Upsert(id, w, create, update))
    ensures WellFormed(Scoped(tbl, t, Upsert(id, w, create, update)).0)
  {
    if !UpsertAccepted(t, w, create, update) || !create.One? || !update.One? {
      UpsertRefused(tbl, t, id, w, create, update);
    } else if Matching(Slice(tbl, t), Untenanted(w)) != map[] {
      UpsertHitCommutes(tbl, t, id, w, create, update);
    } else {
      UpsertMissCommutes(tbl, t, id, w, create, update);
    }
  }

  // ----- The calls that are passed on ---------------------------------------------------------------

  lemma {:induction false} InsertKeepsForm(tbl: Table, ids: seq<Id>, rows: seq<Row>)
    requires |ids| == |rows| && WellFormed(tbl) && AllStorable(rows)
    ensures WellFormed(Insert(tbl, ids, rows))
  {
    if ids != [] {
      InsertKeepsForm(tbl, ids[..|ids| - 1], rows[..|ids| - 1]);
    }
  }

  lemma {:induction false} InsertedAt(tbl: Table, ids: seq<Id>, rows: seq<Row>, i: nat)
    requires |ids| == |rows| && Distinct(ids) && i < |ids|
    ensures ids[i] in Insert(tbl, ids, rows) && Insert(tbl, ids, rows)[ids[i]] == rows[i]
  {
    var n := |ids| - 1;
    if i < n {
      InsertedAt(tbl, ids[..n], rows[..n], i);
    }
  }

  /// Records that carry the tenant already are not changed by stamping.
  lemma StampOfOwned(data: Data, t: Tenant)
    requires Records(data).Some? && AllOwned(Records(data).value, t)
    ensures Records(Stamp(data, t)) == Records(data)
  {
    StampedRecords(data, t);
    match data
    case One(row) =>
      assert Owned(Records(data).value[0], t);
      assert row[TENANT_ID := Str(t)] == row;
    case Many(items) =>
      var stamped := Stamp(data, t).items;
      forall i | 0 <= i < |items|
        ensures stamped[i] == items[i]
      {
        assert Owned(Records(data).value[i], t);
        assert items[i].row[TENANT_ID := Str(t)] == items[i].row;
      }
      assert stamped == items;
  }

  /// What is passed on and what a private database would do, for a payload that is not malformed.
  lemma CreateReturnOutcomes(tbl: Table, t: Tenant, ids: seq<Id>, data: Data)
    requires Records(data).Some? && |Records(data).value| == |ids| && !NamesOtherTenant(data, t)
    ensures Records(Stamp(data, t)).Some? && |Records(Stamp(data, t)).value| == |ids|
    ensures
      var rows := Records(data).value;
      Scoped(tbl, t, CreateManyAndReturn(ids, data))
      == if !AllStorable(rows) then (tbl, Failed(Invalid))
         else if !Distinct(ids) || exists i | 0 <= i < |ids| :: ids[i] in tbl then (tbl, Failed(UniqueViolation))
         else (Insert(tbl, ids, rows), Rows(Insert(map[], ids, rows)))
    ensures
      var (own, stamped) := (Slice(tbl, t), Records(Stamp(data, t)).value);
      OnPrivate(own, t, CreateManyAndReturn(ids, data))
      == if !Distinct(ids) || exists i | 0 <= i < |ids| :: ids[i] in own then (own, Failed(UniqueViolation))
         else (Insert(own, ids, stamped), Rows(Insert(map[], ids, stamped)))
  {
    hide Insert, Slice, Stamp;
    StampedRecords(data, t);
  }

  lemma CreateReturnMalformed(tbl: Table, t: Tenant, ids: seq<Id>, data: Data)
    requires Records(data).None? || |Records(data).value| != |ids| || NamesOtherTenant(data, t)
    ensures Commutes(tbl, t, CreateManyAndReturn(ids, data)) <==> !NamesOtherTenant(data, t)
  {
    hide Insert, Slice, Stamp;
    StampedRecords(data, t);
  }

  lemma CreateReturnKeepsForm(tbl: Table, t: Tenant, ids: seq<Id>, data: Data)
    requires WellFormed(tbl)
    ensures WellFormed(Scoped(tbl, t, CreateManyAndReturn(ids, data)).0)
  {
    hide Insert, WellFormed;
    var rows := Records(data);
    if rows.Some? && |rows.value| == |ids| && AllStorable(rows.value) {
      InsertKeepsForm(tbl, ids, rows.value);
    }
  }

  /// An unowned record answers with itself, where the private database answers with the stamped one.
  lemma UnownedAnswersDiffer(ids: seq<Id>, rows: seq<Row>, stamped: seq<Row>, t: Tenant)
    requires |ids| == |rows| == |stamped| && Distinct(ids) && AllOwned(stamped, t) && !AllOwned(rows, t)
    ensures Insert(map[], ids, rows) != Insert(map[], ids, stamped)
  {
    hide Insert, Distinct;
    var i :| 0 <= i < |rows| && !Owned(rows[i], t);
    InsertedAt(map[], ids, rows, i);
    InsertedAt(map[], ids, stamped, i);
    assert Owned(stamped[i], t);
  }

  lemma CreateReturnOfOwned(tbl: Table, t: Tenant, ids: seq<Id>, data: Data)
    requires Records(data).Some? && |Records(data).value| == |ids| && !NamesOtherTenant(data, t)
    requires AllOwned(Records(data).value, t) && Distinct(ids)
    requires forall i | 0 <= i < |ids| :: ids[i] !in Slice(tbl, t)
    ensures Commutes(tbl, t, CreateManyAndReturn(ids, data)) <==> forall i | 0 <= i < |ids| :: Usable(tbl, ids[i], t)
  {
    hide Insert, Stamp, Scoped, OnPrivate;
    var rows := Records(data).value;
    CreateReturnOutcomes(tbl, t, ids, data);
    StampOfOwned(data, t);
    assert AllStorable(rows) by {
      forall i | 0 <= i < |rows| ensures Storable(rows[i]) { assert Owned(rows[i], t); }
    }
    if forall i | 0 <= i < |ids| :: Usable(tbl, ids[i], t) {
      assert forall i | 0 <= i < |ids| :: ids[i] !in tbl;
      SliceInsert(tbl, ids, rows, t);
    } else {
      assert exists i | 0 <= i < |ids| :: ids[i] in tbl;
    }
  }

  lemma CreateManyAndReturnCommutes(tbl: Table, t: Tenant, ids: seq<Id>, data: Data)
    requires WellFormed(tbl)
    ensures Commutes(tbl, t, CreateManyAndReturn(ids, data)) <==> Confined(tbl, t, CreateManyAndReturn(ids, data))
    ensures WellFormed(Scoped(tbl, t, CreateManyAndReturn(ids, data)).0)
  {
    hide Insert, Stamp, Scoped, OnPrivate, WellFormed;
    CreateReturnKeepsForm(tbl, t, ids, data);
    if Records(data).None? || |Records(data).value| != |ids| || NamesOtherTenant(data, t) {
      CreateReturnMalformed(tbl, t, ids, data);
    } else {
      var rows, own := Records(data).value, Slice(tbl, t);
      CreateReturnOutcomes(tbl, t, ids, data);
      StampedRecords(data, t);
      assert (exists i | 0 <= i < |ids| :: ids[i] in own) ==> exists i | 0 <= i < |ids| :: ids[i] in tbl;
      if !Distinct(ids) || exists i | 0 <= i < |ids| :: ids[i] in own {
      } else if AllOwned(rows, t) {
        CreateReturnOfOwned(tbl, t, ids, data);
      } else {
        UnownedAnswersDiffer(ids, rows, Records(Stamp(data, t)).value, t);
      }
    }
  }

  /// The rows an updateManyAndReturn answers with.
  function Answered(hits: Table, patch: Row): Table {
    map id | id in hits :: hits[id] + patch
  }

  lemma RawUpdateReturnOutcome(tbl: Table, w: Where, data: Data)
    requires Patchable(data)
    ensures RawUpdateManyAndReturn(tbl, w, data)
            == (Patched(tbl, Matching(tbl, w), data.row), Rows(Answered(Matching(tbl, w), data.row)))
  {
    hide Matches;
    var hits := Matching(tbl, w);
    assert (map id | id in hits :: tbl[id] + data.row) == Answered(hits, data.row);
    assert RawUpdateMany(tbl, w, data).0 == Patched(tbl, hits, data.row);
  }

  lemma UpdateReturnOutcomes(tbl: Table, t: Tenant, w: Option<Where>, data: Data)
    requires Patchable(data)
    ensures
      var hits := Matching(tbl, Given(w));
      Scoped(tbl, t, UpdateManyAndReturn(w, data)) == (Patched(tbl, hits, data.row), Rows(Answered(hits, data.row)))
    ensures
      var (own, hits) := (Slice(tbl, t), Matching(Slice(tbl, t), Untenanted(w)));
      !AsksForOther(w, t) ==>
        OnPrivate(own, t, UpdateManyAndReturn(w, data)) == (Patched(own, hits, data.row), Rows(Answered(hits, data.row)))
    ensures Matching(Slice(tbl, t), Untenanted(w)).Keys <= Slice(tbl, t).Keys
  {
    hide Slice, AsksForOther, Untenanted, Given, Matches, RawUpdateManyAndReturn, Patched, Answered;
    RawUpdateReturnOutcome(tbl, Given(w), data);
    RawUpdateReturnOutcome(Slice(tbl, t), Untenanted(w), data);
  }

  lemma SameAnswers(tbl: Table, own: Table, w: Where, v: Where, patch: Row)
    requires forall id | id in own :: id in tbl && own[id] == tbl[id]
    ensures Answered(Matching(tbl, w), patch) == Answered(Matching(own, v), patch) <==> Matching(tbl, w) == Matching(own, v)
  {
    hide Matches;
    if Answered(Matching(tbl, w), patch) == Answered(Matching(own, v), patch) {
      assert Answered(Matching(tbl, w), patch).Keys == Matching(tbl, w).Keys;
      assert Answered(Matching(own, v), patch).Keys == Matching(own, v).Keys;
    }
  }

  lemma UpdateManyAndReturnCommutes(tbl: Table, t: Tenant, w: Option<Where>, data: Data)
    requires WellFormed(tbl)
    ensures Commutes(tbl, t, UpdateManyAndReturn(w, data)) <==> Confined(tbl, t, UpdateManyAndReturn(w, data))
    ensures WellFormed(Scoped(tbl, t, UpdateManyAndReturn(w, data)).0)
  {
    hide Slice, Matching, Matches, Patched, Scoped, OnPrivate, Untenanted, Given, AsksForOther;
    if Patchable(data) && !AsksForOther(w, t) {
      UpdateReturnOutcomes(tbl, t, w, data);
      PatchedWellFormed(tbl, Matching(tbl, Given(w)), data);
      SliceIsPart(tbl, t);
      SameAnswers(tbl, Slice(tbl, t), Given(w), Untenanted(w), data.row);
      PatchCommutes(tbl, t, Matching(Slice(tbl, t), Untenanted(w)), data);
    } else {
      UpdateReturnRefused(tbl, t, w, data);
    }
  }

  lemma SliceIsPart(tbl: Table, t: Tenant)
    ensures forall id | id in Slice(tbl, t) :: id in tbl && Slice(tbl, t)[id] == tbl[id]
  {
  }

  lemma UpdateReturnRefused(tbl: Table, t: Tenant, w: Option<Where>, data: Data)
    requires WellFormed(tbl) && (!Patchable(data) || AsksForOther(w, t))
    ensures Commutes(tbl, t, UpdateManyAndReturn(w, data)) <==> !AsksForOther(w, t)
    ensures WellFormed(Scoped(tbl, t, UpdateManyAndReturn(w, data)).0)
  {
    hide Slice, Matching, Matches, Untenanted, Given, AsksForOther, WellFormed;
    if Patchable(data) {
      UpdateReturnOutcomes(tbl, t, w, data);
      PatchedWellFormed(tbl, Matching(tbl, Given(w)), data);
    }
  }

  /// One call of one tenant behaves as on a private table exactly when it is confined.
  lemma CallRefinesPrivate(tbl: Table, t: Tenant, op: Op)
    requires WellFormed(tbl)
    ensures Commutes(tbl, t, op) <==> Confined(tbl, t, op)
    ensures WellFormed(Scoped(tbl, t, op).0)
  {
    match op
    case Create(id, data) => CreateCommutes(tbl, t, id, data);
    case CreateMany(ids, data) => CreateManyCommutes(tbl, t, ids, data);
    case Filtered(kind, w) => FilteredCommutes(tbl, t, kind, w);
    case FindUnique(_, w) => MergedSelectsOwn(tbl, w, t);
    case Update(w, data) => UpdateCommutes(tbl, t, w, data);
    case Delete(w) => DeleteCommutes(tbl, t, w);
    case Upsert(id, w, create, update) => UpsertCommutes(tbl, t, id, w, create, update);
    case CreateManyAndReturn(ids, data) => CreateManyAndReturnCommutes(tbl, t, ids, data);
    case UpdateManyAndReturn(w, data) => UpdateManyAndReturnCommutes(tbl, t, w, data);
  }

  // ----- The whole hook ---------------------------------------------------------------------------

  /// What a request of tenant `t` on a tenant-owned model gets from the hook.
  function Hook(tbl: Table, t: Tenant, op: Op): (Table, Reply) {
    Dispatch(tbl, true, Request(t), op)
  }

  /// A request in the name of a tenant acts on that tenant's rows as on a private table, with the same
  /// answer, and leaves every other tenant's alone, exactly when it is confined.
  lemma HookRefinesPrivate(tbl: Table, t: Tenant, op: Op)
    requires WellFormed(tbl) && t != ""
    ensures
      var (after, reply) := Dispatch(tbl, true, Request(t), op);
      && WellFormed(after)
      && (Confined(tbl, t, op)
          <==> OnPrivate(Slice(tbl, t), t, op) == (Slice(after, t), reply)
               && forall u: Tenant | u != t :: Slice(after, u) == Slice(tbl, u))
  {
    hide Scoped, OnPrivate, Confined, WellFormed, Slice;
    CallRefinesPrivate(tbl, t, op);
  }

  /// The records a call would create, the ones at the leaves of nested lists.
  function Leaves(data: Data): seq<Data> {
    if data.Many? then LeavesOf(data.items) else [data]
  }

  function LeavesOf(items: seq<Data>): seq<Data>
    decreases items
  {
    if items == [] then [] else Leaves(items[0]) + LeavesOf(items[1..])
  }

  predicate Nameless(record: Data) {
    record.One? ==> TENANT_ID !in record.row || !record.row[TENANT_ID].Str? || record.row[TENANT_ID].s == ""
  }

  lemma {:induction false} NamesByLeaves(data: Data)
    ensures NamesTenant(data) <==> forall l | l in Leaves(data) :: !Nameless(l)
    decreases data, 0
  {
    if data.Many? {
      NamesByLeavesOf(data.items);
    } else {
      assert Leaves(data) == [data] && Leaves(data)[0] == data;
      assert NamesTenant(data) <==> !Nameless(data);
    }
  }

  lemma {:induction false} NamesByLeavesOf(items: seq<Data>)
    ensures (forall i | 0 <= i < |items| :: NamesTenant(items[i])) <==> forall l | l in LeavesOf(items) :: !Nameless(l)
    decreases items, 1
  {
    if items != [] {
      NamesByLeaves(items[0]);
      NamesByLeavesOf(items[1..]);
      assert forall i | 1 <= i < |items| :: items[i] == items[1..][i - 1];
    }
  }

  /// Without a tenant exactly the creates, createManys and upserts with a record that names no tenant are
  /// refused, and a refusal leaves the table alone; everything else is passed on as it is.
  lemma TenantlessRefusedIff(tbl: Table, op: Op)
    ensures
      var created := match op
        case Create(_, data) => Leaves(data)
        case CreateMany(_, data) => Leaves(data)
        case Upsert(_, _, create, _) => Leaves(create)
        case _ => [];
      var refused := exists l | l in created :: Nameless(l);
      var (after, reply) := Dispatch(tbl, true, Request(""), op);
      && (reply == Failed(MissingTenant) <==> refused)
      && (if refused then after == tbl else (after, reply) == Raw(tbl, op))
  {
    RawNamesAnything(tbl, op);
    hide Raw;
    match op
    case Create(_, data) => NamesByLeaves(data);
    case CreateMany(_, data) => NamesByLeaves(data);
    case Upsert(_, _, create, _) => NamesByLeaves(create);
    case _ =>
  }

  lemma RawNamesAnything(tbl: Table, op: Op)
    ensures Raw(tbl, op).1 != Failed(MissingTenant)
  {
    hide Matching, First;
  }

  /// A bypass and a model without a tenant column leave the call as it is, whoever asks.
  lemma PassedThrough(tbl: Table, tenantModel: bool, ctx: Context, op: Op)
    requires !tenantModel || ctx.Bypass?
    ensures Dispatch(tbl, tenantModel, ctx, op) == Raw(tbl, op)
  {
    hide Raw, Scoped, Unscoped;
  }

  // ----- Interleaved runs -----------------------------------------------------------------------

  datatype Call = Call(tenant: Tenant, op: Op)

  function RunShared(tbl: Table, calls: seq<Call>): (r: (Table, seq<Reply>))
    ensures |r.1| == |calls|
    decreases |calls|
  {
    if calls == [] then (tbl, []) else
    var (next, reply) := Hook(tbl, calls[0].tenant, calls[0].op);
    var (final, replies) := RunShared(next, calls[1..]);
    (final, [reply] + replies)
  }

  function RunPrivate(own: Table, t: Tenant, ops: seq<Op>): (Table, seq<Reply>)
    decreases |ops|
  {
    if ops == [] then (own, []) else
    var (next, reply) := OnPrivate(own, t, ops[0]);
    var (final, replies) := RunPrivate(next, t, ops[1..]);
    (final, [reply] + replies)
  }

  function OpsOf(t: Tenant, calls: seq<Call>): seq<Op> {
    if calls == [] then []
    else (if calls[0].tenant == t then [calls[0].op] else []) + OpsOf(t, calls[1..])
  }

  function RepliesTo(t: Tenant, calls: seq<Call>, replies: seq<Reply>): seq<Reply>
    requires |calls| == |replies|
  {
    if calls == [] then []
    else (if calls[0].tenant == t then [replies[0]] else []) + RepliesTo(t, calls[1..], replies[1..])
  }

  ghost predicate AllConfined(tbl: Table, calls: seq<Call>)
    decreases |calls|
  {
    calls != [] ==>
      && Confined(tbl, calls[0].tenant, calls[0].op)
      && AllConfined(Hook(tbl, calls[0].tenant, calls[0].op).0, calls[1..])
  }

  /// Whatever the interleaving of the tenants' calls, every tenant ends with the rows, and has
  /// received the answers, of running its own calls alone on a private table.
  lemma {:induction false} InterleavingRefinesPrivateTables(tbl: Table, calls: seq<Call>, t: Tenant)
    requires WellFormed(tbl) && AllConfined(tbl, calls) && forall i | 0 <= i < |calls| :: calls[i].tenant != ""
    ensures RunPrivate(Slice(tbl, t), t, OpsOf(t, calls))
         == (Slice(RunShared(tbl, calls).0, t), RepliesTo(t, calls, RunShared(tbl, calls).1))
    decreases |calls|
  {
    hide Dispatch, OnPrivate, Confined, WellFormed, Slice;
    if calls != [] {
      var c := calls[0];
      var next := Hook(tbl, c.tenant, c.op).0;
      HookRefinesPrivate(tbl, c.tenant, c.op);
      InterleavingRefinesPrivateTables(next, calls[1..], t);
      assert RunShared(tbl, calls).1[1..] == RunShared(next, calls[1..]).1;
      if c.tenant == t {
        assert OpsOf(t, calls)[1..] == OpsOf(t, calls[1..]);
      } else {
        assert OpsOf(t, calls) == OpsOf(t, calls[1..]);
        assert RepliesTo(t, calls, RunShared(tbl, calls).1) == RepliesTo(t, calls[1..], RunShared(next, calls[1..]).1);
        assert Slice(next, t) == Slice(tbl, t);
      }
    }
  }

  // ----- Why the conditions are needed --------------------------------------------------------------

  const ROW_OF_A: Row := map[TENANT_ID := Str("a")]
  const ROW_OF_B: Row := map[TENANT_ID := Str("b")]
  const HAND_OVER := Filtered(UpdateMany(One(ROW_OF_B)), None)

  lemma HandOverIsNotConfined()
    ensures !Confined(map[1 := ROW_OF_A], "a", HAND_OVER)
  {
    LoneRowIsHit(ROW_OF_A, "a");
    assert 1 in Matching(Slice(map[1 := ROW_OF_A], "a"), Untenanted(None));
  }

  lemma HandOverOutcome()
    ensures Scoped(map[1 := ROW_OF_A], "a", HAND_OVER).0 == map[1 := ROW_OF_B]
  {
    hide Scoped, OnPrivate, Matching, Slice, Patched;
    var tbl: Table := map[1 := ROW_OF_A];
    LoneRowIsHit(ROW_OF_A, "a");
    UpdateManyOutcomes(tbl, "a", One(ROW_OF_B), None);
    RowIsReplaced(1, ROW_OF_A, ROW_OF_B);
    assert Scoped(tbl, "a", HAND_OVER).0 == Patched(tbl, tbl, ROW_OF_B);
  }

  lemma RowIsReplaced(id: Id, row: Row, patch: Row)
    requires row.Keys <= patch.Keys
    ensures Patched(map[id := row], map[id := row], patch) == map[id := patch]
  {
    assert row + patch == patch;
  }

  /// An updateMany that writes `tenantId` hands the row over to the named tenant.
  lemma UpdateManyMovesRow()
    ensures !Commutes(map[1 := ROW_OF_A], "a", HAND_OVER)
    ensures Slice(Scoped(map[1 := ROW_OF_A], "a", HAND_OVER).0, "b") == map[1 := ROW_OF_B]
  {
    HandOverIsNotConfined();
    HandOverOutcome();
    hide Scoped, OnPrivate, Confined, Commutes;
    CallRefinesPrivate(map[1 := ROW_OF_A], "a", HAND_OVER);
  }

  /// An updateManyAndReturn without a filter changes and shows the row of another tenant.
  lemma UpdateManyAndReturnLeaks()
    ensures
      var op := UpdateManyAndReturn(None, One(map["status" := Str("seen")]));
      var (after, reply) := Scoped(map[1 := ROW_OF_B], "a", op);
      && !Confined(map[1 := ROW_OF_B], "a", op)
      && reply == Rows(map[1 := map[TENANT_ID := Str("b"), "status" := Str("seen")]])
      && Slice(after, "b") == map[1 := map[TENANT_ID := Str("b"), "status" := Str("seen")]]
  {
    hide Scoped, Matching, Slice, Patched, Answered;
    var tbl: Table := map[1 := ROW_OF_B];
    var seen: Row := map["status" := Str("seen")];
    EverythingMatches(ROW_OF_B, "a");
    UpdateReturnOutcomes(tbl, "a", None, One(seen));
    assert ROW_OF_B + seen == map[TENANT_ID := Str("b"), "status" := Str("seen")];
    PatchedAlone(ROW_OF_B, seen, "b");
  }

  lemma EverythingMatches(row: Row, t: Tenant)
    requires !Owned(row, t)
    ensures Matching(map[1 := row], Given(None)) == map[1 := row]
    ensures Matching(map[1 := row], Given(None)) != Matching(Slice(map[1 := row], t), Untenanted(None))
  {
    assert Matches(NO_FILTER, 1, row);
    assert 1 in Matching(map[1 := row], Given(None)) && 1 !in Matching(Slice(map[1 := row], t), Untenanted(None));
  }

  lemma PatchedAlone(row: Row, patch: Row, t: Tenant)
    requires Owned(row + patch, t)
    ensures Patched(map[1 := row], map[1 := row], patch) == map[1 := row + patch]
    ensures Answered(map[1 := row], patch) == map[1 := row + patch]
    ensures Slice(map[1 := row + patch], t) == map[1 := row + patch]
  {
  }

  /// A createManyAndReturn that names another tenant creates a row there.
  lemma CreateManyAndReturnPlantsRow()
    ensures
      var op := CreateManyAndReturn([1], Many([One(ROW_OF_B)]));
      && !Confined(map[], "a", op)
      && Slice(Scoped(map[], "a", op).0, "b") == map[1 := ROW_OF_B]
  {
    var data := Many([One(ROW_OF_B)]);
    assert NamesOtherTenant(data.items[0], "a");
    var rows := Records(data).value;
    assert |rows| == 1 && rows[0] == ROW_OF_B;
    assert rows == [ROW_OF_B];
    assert Insert(map[], [1], [ROW_OF_B]) == map[1 := ROW_OF_B];
  }

  lemma LoneRowIsHit(row: Row, t: Tenant)
    requires Owned(row, t)
    ensures Matching(Slice(map[1 := row], t), Untenanted(None)) == map[1 := row]
  {
    assert Matches(Untenanted(None), 1, row);
  }

  /// An upsert whose filter names a foreign row's key updates that row.
  lemma UpsertReachesForeignRow()
    ensures
      var tbl: Table := map[1 := map[TENANT_ID := Str("b")]];
      var op := Upsert(2, Some(ById(1)), One(map[]), One(map["status" := Str("seen")]));
      && !Commutes(tbl, "a", op)
      && Slice(Scoped(tbl, "a", op).0, "b") != Slice(tbl, "b")
  {
    var row: Row := map[TENANT_ID := Str("b")];
    var tbl: Table := map[1 := row];
    var create, update: Data := One(map[]), One(map["status" := Str("seen")]);
    assert !Owned(row, "a");
    assert Slice(tbl, "a") == map[];
    ByIdSelects(tbl, 1);
    UpsertMissOutcomes(tbl, "a", 2, Some(ById(1)), create, update);
    UpsertUpdates(tbl, 2, ById(1), 1, Stamp(create, "a"), Unassigned(update));
    assert Unassigned(update) == update;
    var after := Scoped(tbl, "a", Upsert(2, Some(ById(1)), create, update)).0;
    assert after[1] == row + update.row && "status" in after[1] && Owned(after[1], "b");
    assert Slice(after, "b")[1] != Slice(tbl, "b")[1];
  }
}
