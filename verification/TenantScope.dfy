/// The Prisma `tenant-scope` extension: every operation on a tenant-owned model is
/// rewritten so that it only sees rows of the tenant in context.
///
/// Tables map primary keys to rows. Rows and write payloads map column names to
/// values; `where` inputs are the usual field filters with AND / OR / NOT.
module TenantScope {
  import opened Common

  type Tenant = string
  type Id = nat

  datatype Value = Str(s: string) | Int(n: int) | Null

  type Row = map<string, Value>
  type Table = map<Id, Row>

  const TENANT_ID := "tenantId"
  const ID := "id"

  /// A write payload as it reaches the extension: one record, a list, or something else.
  datatype Data = One(row: Row) | Many(items: seq<Data>) | Scalar

  datatype Filter = Equals(v: Value) | In(vs: seq<Value>) | Not(f: Filter)

  /// An absent OR (`hasOr` false) does not restrict, an empty OR matches nothing.
  datatype Where = Where(
    fields: map<string, Filter>, allOf: seq<Where>, hasOr: bool, anyOf: seq<Where>, noneOf: seq<Where>)

  datatype Error =
    | TenantMismatch | Reassignment | MissingTenant | NotFound | UniqueViolation | Invalid

  /// Reads answer with the matching rows; counts, aggregates, orderings and pages are functions of those.
  datatype Reply =
    | Rows(rows: Table) | Found(id: Id, row: Row) | Nothing | Affected(n: nat) | Failed(error: Error)

  /// The operations whose `where` the hook merges and passes on. `FindMany` stands for every read
  /// that is a function of the matching rows: findMany, count, aggregate, groupBy.
  datatype FilterOp = FindMany | FindFirst(orThrow: bool) | UpdateMany(data: Data) | DeleteMany

  /// The last two reach the hook's final branch, which passes them on as they are.
  datatype Op =
    | Create(newId: Id, data: Data)
    | CreateMany(newIds: seq<Id>, data: Data)
    | Filtered(kind: FilterOp, where: Option<Where>)
    | FindUnique(orThrow: bool, where: Option<Where>)
    | Update(where: Option<Where>, data: Data)
    | Delete(where: Option<Where>)
    | Upsert(newId: Id, where: Option<Where>, create: Data, update: Data)
    | CreateManyAndReturn(newIds: seq<Id>, data: Data)
    | UpdateManyAndReturn(where: Option<Where>, data: Data)

  /// What the request carries: an explicit bypass, or a tenant id that may be empty.
  datatype Context = Bypass | Request(tenantId: string)

  // ----- Plain database semantics ---------------------------------------------------------

  const NO_FILTER := Where(map[], [], false, [], [])

  function Cell(id: Id, row: Row, column: string): Value {
    if column == ID then Int(id) else if column in row then row[column] else Null
  }

  predicate Accepts(f: Filter, v: Value) {
    match f
    case Equals(w) => v == w
    case In(ws) => v in ws
    case Not(g) => !Accepts(g, v)
  }

  predicate Matches(w: Where, id: Id, row: Row) {
    && (forall c | c in w.fields :: Accepts(w.fields[c], Cell(id, row, c)))
    && (forall i | 0 <= i < |w.allOf| :: Matches(w.allOf[i], id, row))
    && (w.hasOr ==> exists i | 0 <= i < |w.anyOf| :: Matches(w.anyOf[i], id, row))
    && (forall i | 0 <= i < |w.noneOf| :: !Matches(w.noneOf[i], id, row))
  }

  function Given(w: Option<Where>): Where {
    if w.Some? then w.value else NO_FILTER
  }

  function ById(id: Id): Where {
    Where(map[ID := Equals(Int(id))], [], false, [], [])
  }

  function Matching(tbl: Table, w: Where): Table {
    map id | id in tbl && Matches(w, id, tbl[id]) :: tbl[id]
  }

  lemma {:induction false} LeastBelow(s: set<nat>, x: nat)
    requires x in s
    ensures exists least :: least in s && forall y :: y in s ==> least <= y
    decreases x
  {
    if y :| y in s && y < x {
      LeastBelow(s, y);
    }
  }

  /// The first row in primary-key order.
  function First(rows: Table): Option<Id> {
    if rows == map[] then None else
    assert exists least :: least in rows.Keys && forall y :: y in rows.Keys ==> least <= y by {
      var some :| some in rows.Keys;
      LeastBelow(rows.Keys, some);
    }
    var least :| least in rows.Keys && forall y :: y in rows.Keys ==> least <= y;
    Some(least)
  }

  /// `tenantId` is a non-null text column.
  predicate Storable(row: Row) {
    TENANT_ID in row && row[TENANT_ID].Str?
  }

  predicate WellFormed(tbl: Table) {
    forall id | id in tbl :: Storable(tbl[id])
  }

  function RawCreate(tbl: Table, id: Id, data: Data): (Table, Reply) {
    if !data.One? || !Storable(data.row) then (tbl, Failed(Invalid))
    else if id in tbl then (tbl, Failed(UniqueViolation))
    else (tbl[id := data.row], Found(id, data.row))
  }

  /// The rows of a createMany payload, when it is a record or a list of records.
  function Records(data: Data): Option<seq<Row>> {
    match data
    case One(row) => Some([row])
    case Scalar => None
    case Many(items) =>
      if forall i | 0 <= i < |items| :: items[i].One?
      then Some(seq(|items|, i requires 0 <= i < |items| => items[i].row))
      else None
  }

  predicate Distinct(ids: seq<Id>) {
    forall i, j | 0 <= i < j < |ids| :: ids[i] != ids[j]
  }

  function Insert(tbl: Table, ids: seq<Id>, rows: seq<Row>): Table
    requires |ids| == |rows|
  {
    if ids == [] then tbl
    else Insert(tbl, ids[..|ids| - 1], rows[..|ids| - 1])[ids[|ids| - 1] := rows[|ids| - 1]]
  }

  function RawCreateMany(tbl: Table, ids: seq<Id>, data: Data): (Table, Reply) {
    var rows := Records(data);
    if rows.None? || |rows.value| != |ids| || exists i | 0 <= i < |ids| :: !Storable(rows.value[i])
    then (tbl, Failed(Invalid))
    else if !Distinct(ids) || exists i | 0 <= i < |ids| :: ids[i] in tbl
    then (tbl, Failed(UniqueViolation))
    else (Insert(tbl, ids, rows.value), Affected(|ids|))
  }

  /// Update payloads may omit `tenantId`, but may not set it to anything but text.
  predicate Patchable(data: Data) {
    data.One? && (TENANT_ID in data.row ==> data.row[TENANT_ID].Str?)
  }

  function RawUpdateMany(tbl: Table, w: Where, data: Data): (Table, Reply) {
    if !Patchable(data) then (tbl, Failed(Invalid)) else
    var hits := Matching(tbl, w);
    (map id | id in tbl :: if id in hits then tbl[id] + data.row else tbl[id], Affected(|hits|))
  }

  function RawCreateManyAndReturn(tbl: Table, ids: seq<Id>, data: Data): (Table, Reply) {
    var (after, reply) := RawCreateMany(tbl, ids, data);
    (after, if reply.Affected? then Rows(Insert(map[], ids, Records(data).value)) else reply)
  }

  function RawUpdateManyAndReturn(tbl: Table, w: Where, data: Data): (Table, Reply) {
    var (after, reply) := RawUpdateMany(tbl, w, data);
    (after, if reply.Affected? then Rows(map id | id in Matching(tbl, w) :: tbl[id] + data.row) else reply)
  }

  function RawDeleteMany(tbl: Table, w: Where): (Table, Reply) {
    var hits := Matching(tbl, w);
    (tbl - hits.Keys, Affected(|hits|))
  }

  function RawFindFirst(tbl: Table, w: Where, orThrow: bool): Reply {
    match First(Matching(tbl, w))
    case None => if orThrow then Failed(NotFound) else Nothing
    case Some(id) => Found(id, tbl[id])
  }

  function RawUpdate(tbl: Table, w: Where, data: Data): (Table, Reply) {
    if !Patchable(data) then (tbl, Failed(Invalid)) else
    match First(Matching(tbl, w))
    case None => (tbl, Failed(NotFound))
    case Some(id) => (tbl[id := tbl[id] + data.row], Found(id, tbl[id] + data.row))
  }

  function RawDelete(tbl: Table, w: Where): (Table, Reply) {
    match First(Matching(tbl, w))
    case None => (tbl, Failed(NotFound))
    case Some(id) => (tbl - {id}, Found(id, tbl[id]))
  }

  function RawUpsert(tbl: Table, newId: Id, w: Where, create: Data, update: Data): (Table, Reply) {
    if !create.One? || !Storable(create.row) || !Patchable(update) then (tbl, Failed(Invalid)) else
    match First(Matching(tbl, w))
    case None => RawCreate(tbl, newId, create)
    case Some(id) => RawUpdate(tbl, ById(id), update)
  }

  function RawFiltered(tbl: Table, kind: FilterOp, w: Where): (Table, Reply) {
    match kind
    case FindMany => (tbl, Rows(Matching(tbl, w)))
    case FindFirst(orThrow) => (tbl, RawFindFirst(tbl, w, orThrow))
    case UpdateMany(data) => RawUpdateMany(tbl, w, data)
    case DeleteMany => RawDeleteMany(tbl, w)
  }

  function Raw(tbl: Table, op: Op): (Table, Reply) {
    match op
    case Create(id, data) => RawCreate(tbl, id, data)
    case CreateMany(ids, data) => RawCreateMany(tbl, ids, data)
    case Filtered(kind, w) => RawFiltered(tbl, kind, Given(w))
    case FindUnique(orThrow, w) => (tbl, RawFindFirst(tbl, Given(w), orThrow))
    case Update(w, data) => RawUpdate(tbl, Given(w), data)
    case Delete(w) => RawDelete(tbl, Given(w))
    case Upsert(id, w, create, update) => RawUpsert(tbl, id, Given(w), create, update)
    case CreateManyAndReturn(ids, data) => RawCreateManyAndReturn(tbl, ids, data)
    case UpdateManyAndReturn(w, data) => RawUpdateManyAndReturn(tbl, Given(w), data)
  }

  function NotOf(w: Where): Where {
    NO_FILTER.(noneOf := [w])
  }

  function BothOf(v: Where, w: Where): Where {
    NO_FILTER.(allOf := [v, w])
  }

  function EitherOf(v: Where, w: Where): Where {
    NO_FILTER.(hasOr := true, anyOf := [v, w])
  }

  lemma NotMatches(w: Where, id: Id, row: Row)
    ensures Matches(NotOf(w), id, row) <==> !Matches(w, id, row)
  {
    assert NotOf(w).noneOf[0] == w;
  }

  lemma BothMatch(v: Where, w: Where, id: Id, row: Row)
    ensures Matches(BothOf(v, w), id, row) <==> Matches(v, id, row) && Matches(w, id, row)
  {
    assert BothOf(v, w).allOf[0] == v && BothOf(v, w).allOf[1] == w;
  }

  lemma EitherMatches(v: Where, w: Where, id: Id, row: Row)
    ensures Matches(EitherOf(v, w), id, row) <==> Matches(v, id, row) || Matches(w, id, row)
  {
    assert EitherOf(v, w).anyOf[0] == v && EitherOf(v, w).anyOf[1] == w;
  }

  function Having(column: string, f: Filter): Where {
    Where(map[column := f], [], false, [], [])
  }

  lemma HavingMatches(column: string, f: Filter, id: Id, row: Row)
    ensures Matches(Having(column, f), id, row) <==> Accepts(f, Cell(id, row, column))
  {
    assert column in Having(column, f).fields;
  }

  /// A list of values in a filter joins, an empty one selects nothing, and a negation takes the other rows.
  lemma ListsJoin(tbl: Table, column: string, v: Value, vs: seq<Value>, f: Filter)
    ensures Matching(tbl, Having(column, In([v] + vs)))
            == Matching(tbl, Having(column, Equals(v))) + Matching(tbl, Having(column, In(vs)))
    ensures Matching(tbl, Having(column, In([]))) == map[]
    ensures Matching(tbl, Having(column, Not(f))) == tbl - Matching(tbl, Having(column, f)).Keys
  {
    hide Matches, Having;
    var (a, b, c, not) := (Having(column, In([v] + vs)), Having(column, Equals(v)), Having(column, In(vs)),
                           Having(column, Not(f)));
    forall id | id in tbl
      ensures Matches(a, id, tbl[id]) <==> Matches(b, id, tbl[id]) || Matches(c, id, tbl[id])
      ensures !Matches(Having(column, In([])), id, tbl[id])
      ensures Matches(not, id, tbl[id]) <==> !Matches(Having(column, f), id, tbl[id])
    {
      HavingMatches(column, In([v] + vs), id, tbl[id]);
      HavingMatches(column, Equals(v), id, tbl[id]);
      HavingMatches(column, In(vs), id, tbl[id]);
      HavingMatches(column, In([]), id, tbl[id]);
      HavingMatches(column, f, id, tbl[id]);
      HavingMatches(column, Not(f), id, tbl[id]);
    }
  }

  /// What a filter selects: NOT takes the other rows, AND selects among the selected, OR joins; a
  /// deleteMany leaves what NOT selects.
  lemma FiltersAreSets(tbl: Table, v: Where, w: Where)
    ensures Matching(tbl, NotOf(w)) == tbl - Matching(tbl, w).Keys
    ensures Matching(tbl, BothOf(v, w)) == Matching(Matching(tbl, v), w)
    ensures Matching(tbl, EitherOf(v, w)) == Matching(tbl, v) + Matching(tbl, w)
    ensures RawDeleteMany(tbl, w) == (Matching(tbl, NotOf(w)), Affected(|Matching(tbl, w)|))
  {
    hide Matches, NotOf, BothOf, EitherOf;
    forall id | id in tbl
      ensures Matches(NotOf(w), id, tbl[id]) <==> !Matches(w, id, tbl[id])
      ensures Matches(BothOf(v, w), id, tbl[id]) <==> Matches(v, id, tbl[id]) && Matches(w, id, tbl[id])
      ensures Matches(EitherOf(v, w), id, tbl[id]) <==> Matches(v, id, tbl[id]) || Matches(w, id, tbl[id])
    {
      NotMatches(w, id, tbl[id]);
      BothMatch(v, w, id, tbl[id]);
      EitherMatches(v, w, id, tbl[id]);
    }
  }

  // ----- The rewriting helpers --------------------------------------------------------------

  function ReadTenantId(data: Data): Option<string> {
    if data.One? && TENANT_ID in data.row && data.row[TENANT_ID].Str?
    then Some(data.row[TENANT_ID].s) else None
  }

  /// A non-empty tenant id other than `t` somewhere in the payload.
  predicate NamesOtherTenant(data: Data, t: Tenant) {
    match data
    case One(_) => var e := ReadTenantId(data); e.Some? && e.value != "" && e.value != t
    case Many(items) => exists i | 0 <= i < |items| :: NamesOtherTenant(items[i], t)
    case Scalar => false
  }

  /// The payload with every record assigned to `t`.
  function Stamp(data: Data, t: Tenant): Data {
    match data
    case One(row) => One(row[TENANT_ID := Str(t)])
    case Many(items) => Many(seq(|items|, i requires 0 <= i < |items| => Stamp(items[i], t)))
    case Scalar => Scalar
  }

  function InjectTenant(data: Data, t: Tenant): Result<Data, Error> {
    match data
    case One(row) =>
      var e := ReadTenantId(data);
      if e.Some? && e.value != "" && e.value != t then Err(TenantMismatch)
      else Ok(One(row[TENANT_ID := Str(t)]))
    case Many(items) =>
      var rs := seq(|items|, i requires 0 <= i < |items| => InjectTenant(items[i], t));
      if exists i | 0 <= i < |rs| :: rs[i].Err? then Err(TenantMismatch)
      else Ok(Many(seq(|rs|, i requires 0 <= i < |rs| => rs[i].value)))
    case Scalar => Ok(Scalar)
  }

  function MergeTenantWhere(w: Option<Where>, t: Tenant): Result<Where, Error> {
    var base := Given(w);
    if TENANT_ID in base.fields && base.fields[TENANT_ID].Equals? && base.fields[TENANT_ID].v.Str?
       && base.fields[TENANT_ID].v.s != t
    then Err(TenantMismatch)
    else Ok(base.(fields := base.fields[TENANT_ID := Equals(Str(t))]))
  }

  function StripTenantId(data: Data, t: Tenant): Result<Data, Error> {
    if !data.One? || TENANT_ID !in data.row then Ok(data)
    else if data.row[TENANT_ID].Str? && data.row[TENANT_ID].s != t then Err(Reassignment)
    else Ok(One(data.row - {TENANT_ID}))
  }

  /// Every record, at any nesting of lists, carries a non-empty text tenant id.
  predicate NamesTenant(data: Data) {
    match data
    case Many(items) => forall i | 0 <= i < |items| :: NamesTenant(items[i])
    case _ => var e := ReadTenantId(data); e.Some? && e.value != ""
  }

  method RequireTenantIdOnWrite(data: Data) returns (ok: bool)
    ensures ok <==> NamesTenant(data)
    decreases data
  {
    if data.Many? {
      for i := 0 to |data.items|
        invariant forall j | 0 <= j < i :: NamesTenant(data.items[j])
      {
        var itemOk := RequireTenantIdOnWrite(data.items[i]);
        if !itemOk {
          return false;
        }
      }
      return true;
    }
    var e := ReadTenantId(data);
    ok := e.Some? && e.value != "";
  }

  lemma {:induction false} InjectStamps(data: Data, t: Tenant)
    ensures InjectTenant(data, t) == if NamesOtherTenant(data, t) then Err(TenantMismatch) else Ok(Stamp(data, t))
    decreases data
  {
    if data.Many? {
      forall i | 0 <= i < |data.items|
        ensures InjectTenant(data.items[i], t)
             == if NamesOtherTenant(data.items[i], t) then Err(TenantMismatch) else Ok(Stamp(data.items[i], t))
      {
        InjectStamps(data.items[i], t);
      }
      var rs := seq(|data.items|, i requires 0 <= i < |data.items| => InjectTenant(data.items[i], t));
      if !NamesOtherTenant(data, t) {
        assert forall i | 0 <= i < |rs| :: rs[i] == Ok(Stamp(data.items[i], t));
        assert seq(|rs|, i requires 0 <= i < |rs| => rs[i].value)
            == seq(|data.items|, i requires 0 <= i < |data.items| => Stamp(data.items[i], t));
      } else {
        var k :| 0 <= k < |data.items| && NamesOtherTenant(data.items[k], t);
        assert rs[k].Err?;
      }
    }
  }

  // ----- The $allOperations hook -------------------------------------------------------------

  /// The hook with a tenant in context.
  function Scoped(tbl: Table, t: Tenant, op: Op): (Table, Reply) {
    match op
    case Create(id, data) =>
      (match InjectTenant(data, t)
       case Err(e) => (tbl, Failed(e))
       case Ok(d) => RawCreate(tbl, id, d))
    case CreateMany(ids, data) =>
      (match InjectTenant(data, t)
       case Err(e) => (tbl, Failed(e))
       case Ok(d) => RawCreateMany(tbl, ids, d))
    case Filtered(kind, w) =>
      (match MergeTenantWhere(w, t)
       case Err(e) => (tbl, Failed(e))
       case Ok(merged) => RawFiltered(tbl, kind, merged))
    case FindUnique(orThrow, w) =>
      (match MergeTenantWhere(w, t)
       case Err(e) => (tbl, Failed(e))
       case Ok(merged) => (tbl, RawFindFirst(tbl, merged, orThrow)))
    case Update(w, data) => ScopedUpdate(tbl, t, w, data)
    case Delete(w) => ScopedDelete(tbl, t, w)
    case Upsert(id, w, create, update) => ScopedUpsert(tbl, t, id, w, create, update)
    case CreateManyAndReturn(ids, data) => RawCreateManyAndReturn(tbl, ids, data)
    case UpdateManyAndReturn(w, data) => RawUpdateManyAndReturn(tbl, Given(w), data)
  }

  function ScopedUpdate(tbl: Table, t: Tenant, w: Option<Where>, data: Data): (Table, Reply) {
    match MergeTenantWhere(w, t)
    case Err(e) => (tbl, Failed(e))
    case Ok(merged) =>
      match First(Matching(tbl, merged))
      case None => (tbl, Failed(NotFound))
      case Some(id) =>
        match StripTenantId(data, t)
        case Err(e) => (tbl, Failed(e))
        case Ok(d) => RawUpdate(tbl, ById(id), d)
  }

  function ScopedDelete(tbl: Table, t: Tenant, w: Option<Where>): (Table, Reply) {
    match MergeTenantWhere(w, t)
    case Err(e) => (tbl, Failed(e))
    case Ok(merged) =>
      match First(Matching(tbl, merged))
      case None => (tbl, Failed(NotFound))
      case Some(id) => RawDelete(tbl, ById(id))
  }

  /// Both payloads of an upsert: assigned to the tenant, the update then without the column.
  function UpsertPayloads(t: Tenant, create: Data, update: Data): Result<(Data, Data), Error> {
    match (InjectTenant(create, t), InjectTenant(update, t))
    case (Err(e), _) => Err(e)
    case (_, Err(e)) => Err(e)
    case (Ok(c), Ok(stamped)) =>
      match StripTenantId(stamped, t)
      case Err(e) => Err(e)
      case Ok(u) => Ok((c, u))
  }

  function ScopedUpsert(tbl: Table, t: Tenant, newId: Id, w: Option<Where>, create: Data, update: Data): (Table, Reply) {
    match UpsertPayloads(t, create, update)
    case Err(e) => (tbl, Failed(e))
    case Ok((c, u)) => ScopedUpsertOf(tbl, t, newId, w, c, u)
  }

  /// The lookup of an upsert whose payloads are ready.
  function ScopedUpsertOf(tbl: Table, t: Tenant, newId: Id, w: Option<Where>, c: Data, u: Data): (Table, Reply) {
    match MergeTenantWhere(w, t)
    case Err(e) => (tbl, Failed(e))
    case Ok(merged) =>
      match First(Matching(tbl, merged))
      case Some(id) => RawUpsert(tbl, newId, ById(id), c, u)
      case None => RawUpsert(tbl, newId, Given(w), c, u)
  }

  /// Without a tenant only creates are checked, and nothing is rewritten.
  function Unscoped(tbl: Table, op: Op): (Table, Reply) {
    var payload := match op
      case Create(_, data) => Some(data)
      case CreateMany(_, data) => Some(data)
      case Upsert(_, _, create, _) => Some(create)
      case _ => None;
    if payload.Some? && !NamesTenant(payload.value) then (tbl, Failed(MissingTenant))
    else Raw(tbl, op)
  }

  function Dispatch(tbl: Table, tenantModel: bool, ctx: Context, op: Op): (Table, Reply) {
    if !tenantModel || ctx.Bypass? then Raw(tbl, op)
    else if ctx.tenantId == "" then Unscoped(tbl, op)
    else Scoped(tbl, ctx.tenantId, op)
  }

  /// The extended client: one table behind the hook.
  class ScopedClient {
    var table: Table

    constructor (rows: Table)
      ensures table == rows
    {
      table := rows;
    }

    method Query(op: Op) returns (reply: Reply)
      modifies this
      ensures (table, reply) == Raw(old(table), op)
    {
      var next := Raw(table, op);
      table := next.0;
      reply := next.1;
    }

    method FindOwned(where: Where) returns (existing: Option<Id>)
      ensures existing == First(Matching(table, where))
    {
      existing := First(Matching(table, where));
    }

    method AllOperations(tenantModel: bool, ctx: Context, op: Op) returns (reply: Reply)
      modifies this
      ensures (table, reply) == Dispatch(old(table), tenantModel, ctx, op)
    {
      if !tenantModel || ctx.Bypass? {
        reply := Query(op);
        return;
      }
      if ctx.tenantId == "" {
        var named := true;
        if op.Create? || op.CreateMany? {
          named := RequireTenantIdOnWrite(op.data);
        } else if op.Upsert? {
          named := RequireTenantIdOnWrite(op.create);
        }
        if !named {
          return Failed(MissingTenant);
        }
        reply := Query(op);
        return;
      }
      reply := WithTenant(ctx.tenantId, op);
    }

    method WithTenant(t: Tenant, op: Op) returns (reply: Reply)
      modifies this
      ensures (table, reply) == Scoped(old(table), t, op)
    {
      match op
      case Create(id, data) =>
        var stamped := InjectTenant(data, t);
        if stamped.Err? {
          return Failed(stamped.error);
        }
        reply := Query(Create(id, stamped.value));
      case CreateMany(ids, data) =>
        var stamped := InjectTenant(data, t);
        if stamped.Err? {
          return Failed(stamped.error);
        }
        reply := Query(CreateMany(ids, stamped.value));
      case Filtered(kind, where) =>
        var merged := MergeTenantWhere(where, t);
        if merged.Err? {
          return Failed(merged.error);
        }
        reply := Query(Filtered(kind, Some(merged.value)));
      case FindUnique(orThrow, where) =>
        var merged := MergeTenantWhere(where, t);
        if merged.Err? {
          return Failed(merged.error);
        }
        reply := Query(Filtered(FindFirst(false), Some(merged.value)));
        if reply.Nothing? && orThrow {
          reply := Failed(NotFound);
        }
      case Update(where, data) =>
        var merged := MergeTenantWhere(where, t);
        if merged.Err? {
          return Failed(merged.error);
        }
        var existing := FindOwned(merged.value);
        if existing.None? {
          return Failed(NotFound);
        }
        var patch := StripTenantId(data, t);
        if patch.Err? {
          return Failed(patch.error);
        }
        reply := Query(Update(Some(ById(existing.value)), patch.value));
      case Delete(where) =>
        var merged := MergeTenantWhere(where, t);
        if merged.Err? {
          return Failed(merged.error);
        }
        var existing := FindOwned(merged.value);
        if existing.None? {
          return Failed(NotFound);
        }
        reply := Query(Delete(Some(ById(existing.value))));
      case Upsert(id, where, create, update) =>
        reply := UpsertWithTenant(t, id, where, create, update);
      case CreateManyAndReturn(_, _) => reply := Query(op);
      case UpdateManyAndReturn(_, _) => reply := Query(op);
    }

    method UpsertWithTenant(t: Tenant, id: Id, where: Option<Where>, create: Data, update: Data) returns (reply: Reply)
      modifies this
      ensures (table, reply) == ScopedUpsert(old(table), t, id, where, create, update)
    {
      var payloads := UpsertPayloads(t, create, update);
      if payloads.Err? {
        return Failed(payloads.error);
      }
      reply := UpsertOwned(t, id, where, payloads.value.0, payloads.value.1);
    }

    method UpsertOwned(t: Tenant, id: Id, where: Option<Where>, create: Data, update: Data) returns (reply: Reply)
      modifies this
      ensures (table, reply) == ScopedUpsertOf(old(table), t, id, where, create, update)
    {
      hide MergeTenantWhere, Matching, First, RawUpsert;
      var merged := MergeTenantWhere(where, t);
      if merged.Err? {
        return Failed(merged.error);
      }
      var existing := FindOwned(merged.value);
      var target := if existing.Some? then Some(ById(existing.value)) else where;
      reply := Query(Upsert(id, target, create, update));
    }
  }
}
