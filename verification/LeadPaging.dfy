/// Paging through the lead list: numbered pages, and pages that continue from a cursor while the
/// list changes underneath.
module LeadPaging {
  import opened Common

  /// A listed lead: its id and its value in the sorted column. Ids are text in the database; all
  /// that matters here is that they are distinct and totally ordered.
  datatype Row = Row(id: nat, key: int)

  /// The listing order: the sorted column, then the id, both in the same direction.
  predicate Before(descending: bool, a: Row, b: Row) {
    if descending then b.key < a.key || (b.key == a.key && b.id < a.id)
    else a.key < b.key || (a.key == b.key && a.id < b.id)
  }

  /// Smaller values and, among equal ones, smaller ids come first; descending is the other way round.
  lemma OrderIs(a: Row, b: Row)
    ensures Before(false, a, b) <==> a.key < b.key || (a.key == b.key && b.id > a.id)
    ensures Before(true, a, b) <==> Before(false, b, a)
  {
  }

  /// What a query returns without paging: the matching leads in order.
  predicate Listing(descending: bool, rows: seq<Row>) {
    && (forall i, j | 0 <= i < j < |rows| :: Before(descending, rows[i], rows[j]))
    && (forall i, j | 0 <= i < j < |rows| :: rows[i].id != rows[j].id)
  }

  // ----- Numbered pages ------------------------------------------------------------------------------

  datatype Params = Params(page: int, limit: int, skip: int, take: int)

  function GetPaginationParams(page: int, limit: int): (r: Params)
    ensures r.page >= 1 && 1 <= r.take <= 100 && r.limit == r.take
    ensures r.skip == (r.page - 1) * r.take && r.skip >= 0
    ensures r.page == page || (page < 1 && r.page == 1)
    ensures r.take == limit || (limit < 1 && r.take == 1) || (limit > 100 && r.take == 100)
  {
    var safePage, safeLimit := Max(1, page), Min(100, Max(1, limit));
    NonNegativeProduct(safePage - 1, safeLimit);
    Params(safePage, safeLimit, (safePage - 1) * safeLimit, safeLimit)
  }

  lemma NonNegativeProduct(a: nat, b: nat)
    ensures a * b >= 0
  {
  }

  function TotalPages(total: nat, limit: nat): nat
    requires limit >= 1
  {
    var pages := (total + limit - 1) / limit;
    if pages == 0 then 1 else pages
  }

  function Take(rows: seq<Row>, n: nat): seq<Row> {
    if |rows| <= n then rows else rows[..n]
  }

  function NumberedPage(rows: seq<Row>, page: int, limit: int): seq<Row> {
    var p := GetPaginationParams(page, limit);
    if p.skip >= |rows| then [] else Take(rows[p.skip..], p.take)
  }

  function FirstPages(rows: seq<Row>, pages: nat, limit: int): seq<Row> {
    if pages == 0 then [] else FirstPages(rows, pages - 1, limit) + NumberedPage(rows, pages, limit)
  }

  lemma {:induction false} FirstPagesArePrefix(rows: seq<Row>, pages: nat, limit: int)
    ensures FirstPages(rows, pages, limit) == Take(rows, pages * GetPaginationParams(1, limit).take)
  {
    hide NumberedPage, GetPaginationParams, Take;
    var take := GetPaginationParams(1, limit).take;
    if pages > 0 {
      FirstPagesArePrefix(rows, pages - 1, limit);
      OneMorePage(rows, pages, limit);
    } else {
      TakeNone(rows);
    }
  }

  lemma TakeNone(rows: seq<Row>)
    ensures Take(rows, 0) == []
  {
  }

  lemma OneMorePage(rows: seq<Row>, page: nat, limit: int)
    requires page >= 1
    ensures
      var take := GetPaginationParams(1, limit).take;
      Take(rows, (page - 1) * take) + NumberedPage(rows, page, limit) == Take(rows, page * take)
  {
    hide Take;
    var take := GetPaginationParams(1, limit).take;
    assert page * take == (page - 1) * take + take;
    NumberedPageIs(rows, (page - 1) * take, take);
  }

  lemma NumberedPageIs(rows: seq<Row>, skip: nat, take: nat)
    ensures Take(rows, skip) + (if skip >= |rows| then [] else Take(rows[skip..], take)) == Take(rows, skip + take)
  {
  }

  /// The pages that the reported page count promises are the whole list, once.
  lemma NumberedPagesAreTheList(rows: seq<Row>, limit: int)
    ensures
      var take := GetPaginationParams(1, limit).take;
      FirstPages(rows, TotalPages(|rows|, take), limit) == rows
  {
    var take := GetPaginationParams(1, limit).take;
    FirstPagesArePrefix(rows, TotalPages(|rows|, take), limit);
    EnoughPages(|rows|, take);
  }

  lemma EnoughPages(total: nat, limit: nat)
    requires limit >= 1
    ensures TotalPages(total, limit) * limit >= total
  {
    var x := total + limit - 1;
    assert x == x / limit * limit + x % limit;
  }

  // ----- Pages from a cursor ---------------------------------------------------------------------------

  datatype CursorPage = CursorPage(data: seq<Row>, nextCursor: Option<nat>, hasMore: bool)

  function CursorPaginate(rows: seq<Row>, limit: nat): CursorPage {
    var hasMore := |rows| > limit;
    var data := if hasMore then rows[..limit] else rows;
    CursorPage(data, if hasMore && data != [] then Some(data[|data| - 1].id) else None, hasMore)
  }

  /// A request with a cursor meets the list as it is by then, and the database resumes somewhere in it.
  datatype Answer = Answer(rows: seq<Row>, resume: nat)

  /// One more row than the page holds is asked for, to know whether there is a next page.
  function PageOf(a: Answer, take: nat): CursorPage {
    CursorPaginate(Take(if a.resume < |a.rows| then a.rows[a.resume..] else [], take + 1), take)
  }

  /// All rows a client sees that follows the cursors.
  function Walk(answers: seq<Answer>, take: nat): seq<Row>
    decreases |answers|
  {
    if answers == [] then [] else
    var page := PageOf(answers[0], take);
    page.data + if page.nextCursor.Some? then Walk(answers[1..], take) else []
  }

  /// The client has been told that there is no further page.
  predicate Finished(answers: seq<Answer>, take: nat)
    decreases |answers|
  {
    answers != [] && (PageOf(answers[0], take).nextCursor.Some? ==> Finished(answers[1..], take))
  }

  /// The database resumes right behind the place of the row the client stands on, the last one seen.
  predicate Resumed(descending: bool, a: Answer, stand: Row) {
    && a.resume <= |a.rows|
    && (forall i | 0 <= i < a.resume :: !Before(descending, stand, a.rows[i]))
    && (forall i | a.resume <= i < |a.rows| :: Before(descending, stand, a.rows[i]))
  }

  ghost predicate Resumes(descending: bool, answers: seq<Answer>, stand: Row, take: nat)
    decreases |answers|
  {
    answers != [] ==>
      && Resumed(descending, answers[0], stand)
      && var page := PageOf(answers[0], take);
         page.nextCursor.Some? && page.data != [] ==> Resumes(descending, answers[1..], page.data[|page.data| - 1], take)
  }

  ghost predicate Listings(descending: bool, answers: seq<Answer>) {
    forall i | 0 <= i < |answers| :: Listing(descending, answers[i].rows)
  }

  /// The page holds the next rows; the last of them is the next cursor exactly when more follow.
  lemma PageIs(a: Answer, take: nat)
    requires a.resume <= |a.rows| && take >= 1
    ensures
      var page, end := PageOf(a, take), Min(a.resume + take, |a.rows|);
      && page.data == a.rows[a.resume..end]
      && page.hasMore == page.nextCursor.Some? == (end < |a.rows|)
      && (page.nextCursor.Some? ==> page.data != [] && page.data[|page.data| - 1] == a.rows[end - 1]
                                    && page.nextCursor.value == a.rows[end - 1].id)
  {
    var rest := a.rows[a.resume..];
    TakeOfRest(a.rows, a.resume, take);
    assert a.resume == |a.rows| ==> rest == [];
    assert PageOf(a, take) == CursorPaginate(Take(rest, take + 1), take);
  }

  lemma TakeOfRest(rows: seq<Row>, skip: nat, take: nat)
    requires skip <= |rows|
    ensures
      var (asked, end) := (Take(rows[skip..], take + 1), Min(skip + take, |rows|));
      && |asked| == Min(|rows| - skip, take + 1)
      && (if |asked| > take then asked[..take] else asked) == rows[skip..end]
  {
  }

  // ----- Where the database has to resume ---------------------------------------------------------------

  /// The page shows only rows behind the stand, and every listed row behind it is on the page or behind the
  /// page, where the client will look next.
  ghost predicate NeitherRepeatsNorSkips(descending: bool, a: Answer, stand: Row, take: nat) {
    var page := PageOf(a, take);
    && (forall x | x in page.data :: Before(descending, stand, x))
    && (forall x | x in a.rows && Before(descending, stand, x) && x !in page.data ::
          page.nextCursor.Some? && page.data != [] && Before(descending, page.data[|page.data| - 1], x))
  }

  lemma Behind(descending: bool, a: Row, b: Row, c: Row)
    requires !Before(descending, a, b) && (Before(descending, c, b) || b == c)
    ensures !Before(descending, a, c)
  {
  }

  lemma ResumedIsEnough(descending: bool, a: Answer, stand: Row, take: nat)
    requires Listing(descending, a.rows) && take >= 1 && Resumed(descending, a, stand)
    ensures NeitherRepeatsNorSkips(descending, a, stand, take)
  {
    hide PageOf, Before;
    PageIs(a, take);
    var page, end := PageOf(a, take), Min(a.resume + take, |a.rows|);
    forall k | 0 <= k < |a.rows| && Before(descending, stand, a.rows[k])
      ensures a.rows[k] in page.data || (end < |a.rows| && Before(descending, a.rows[end - 1], a.rows[k]))
    {
      if k < end {
        assert page.data[k - a.resume] == a.rows[k];
      }
    }
  }

  lemma EarlierRepeats(descending: bool, a: Answer, stand: Row, take: nat, i: nat)
    requires Listing(descending, a.rows) && take >= 1
    requires a.resume <= i < |a.rows| && !Before(descending, stand, a.rows[i])
    ensures a.rows[a.resume] in PageOf(a, take).data && !Before(descending, stand, a.rows[a.resume])
  {
    PageIs(a, take);
    assert PageOf(a, take).data[0] == a.rows[a.resume];
    Behind(descending, stand, a.rows[i], a.rows[a.resume]);
  }

  lemma LaterSkips(descending: bool, a: Answer, stand: Row, take: nat, i: nat)
    requires Listing(descending, a.rows) && take >= 1 && a.resume <= |a.rows|
    requires i < a.resume && Before(descending, stand, a.rows[i])
    ensures !NeitherRepeatsNorSkips(descending, a, stand, take)
  {
    PageIs(a, take);
    var page := PageOf(a, take);
    forall k | 0 <= k < |page.data|
      ensures page.data[k] != a.rows[i] && !Before(descending, page.data[k], a.rows[i])
    {
      assert page.data[k] == a.rows[a.resume + k];
    }
    assert a.rows[i] !in page.data;
  }

  /// A page neither repeats nor skips anything exactly when the database resumes right behind the stand.
  lemma ResumedIff(descending: bool, a: Answer, stand: Row, take: nat)
    requires Listing(descending, a.rows) && take >= 1 && a.resume <= |a.rows|
    ensures NeitherRepeatsNorSkips(descending, a, stand, take) <==> Resumed(descending, a, stand)
  {
    hide Listing, Before, PageOf;
    if Resumed(descending, a, stand) {
      ResumedIsEnough(descending, a, stand, take);
    } else if i :| 0 <= i < a.resume && Before(descending, stand, a.rows[i]) {
      LaterSkips(descending, a, stand, take, i);
    } else {
      var i :| a.resume <= i < |a.rows| && !Before(descending, stand, a.rows[i]);
      EarlierRepeats(descending, a, stand, take, i);
    }
  }

  /// Where the row with this id ends: the database skips one row from the cursor row on.
  function BehindId(rows: seq<Row>, cursor: nat): (k: nat)
    ensures k <= |rows|
  {
    if rows == [] then 0 else if rows[0].id == cursor then 1 else 1 + BehindId(rows[1..], cursor)
  }

  lemma {:induction false} BehindIdIs(rows: seq<Row>, i: nat)
    requires i < |rows| && forall j | 0 <= j < i :: rows[j].id != rows[i].id
    ensures BehindId(rows, rows[i].id) == i + 1
  {
    if i > 0 {
      BehindIdIs(rows[1..], i - 1);
    }
  }

  /// That is right behind the stand whenever the row the client stands on is still listed as it was.
  lemma ListedCursorResumes(descending: bool, rows: seq<Row>, stand: Row)
    requires Listing(descending, rows) && stand in rows
    ensures Resumed(descending, Answer(rows, BehindId(rows, stand.id)), stand)
  {
    var i: nat :| i < |rows| && rows[i] == stand;
    BehindIdIs(rows, i);
  }

  // ----- Whole walks ------------------------------------------------------------------------------------

  predicate Ascends(descending: bool, stand: Row, rows: seq<Row>) {
    && (forall i | 0 <= i < |rows| :: Before(descending, stand, rows[i]))
    && (forall i, j | 0 <= i < j < |rows| :: Before(descending, rows[i], rows[j]))
  }

  lemma AscendsJoin(descending: bool, stand: Row, first: seq<Row>, rest: seq<Row>)
    requires Ascends(descending, stand, first) && first != [] && Ascends(descending, first[|first| - 1], rest)
    ensures Ascends(descending, stand, first + rest)
  {
    var last := first[|first| - 1];
    forall i, j | 0 <= i < j < |first + rest|
      ensures Before(descending, (first + rest)[i], (first + rest)[j])
    {
      if i < |first| <= j {
        assert (first + rest)[j] == rest[j - |first|] && Before(descending, last, rest[j - |first|]);
      }
    }
    forall j | 0 <= j < |rest|
      ensures Before(descending, stand, rest[j])
    {
      assert Before(descending, stand, last) && Before(descending, last, rest[j]);
    }
  }

  lemma SliceAscends(descending: bool, a: Answer, stand: Row, end: nat)
    requires Listing(descending, a.rows) && Resumed(descending, a, stand) && a.resume <= end <= |a.rows|
    ensures Ascends(descending, stand, a.rows[a.resume..end])
  {
    hide Before;
  }

  /// Whatever happens to the list between the requests, the row of the cursor included: the rows seen are
  /// in listing order, none is seen twice.
  lemma {:induction false} NoRowTwice(descending: bool, answers: seq<Answer>, stand: Row, take: nat)
    requires Listings(descending, answers) && Resumes(descending, answers, stand, take) && take >= 1
    ensures Ascends(descending, stand, Walk(answers, take))
    decreases |answers|
  {
    hide Before, Listing, PageOf, Resumed;
    if answers != [] {
      var a := answers[0];
      ResumesInside(descending, a, stand);
      PageIs(a, take);
      SliceAscends(descending, a, stand, Min(a.resume + take, |a.rows|));
      var page := PageOf(a, take);
      if page.nextCursor.Some? {
        NoRowTwice(descending, answers[1..], page.data[|page.data| - 1], take);
        AscendsJoin(descending, stand, page.data, Walk(answers[1..], take));
      } else {
        assert Walk(answers, take) == page.data;
      }
    }
  }

  lemma ResumesInside(descending: bool, a: Answer, stand: Row)
    requires Resumed(descending, a, stand)
    ensures a.resume <= |a.rows|
  {
  }

  lemma OrderIsPosition(descending: bool, rows: seq<Row>, i: nat, k: nat)
    requires Listing(descending, rows) && i < |rows| && k < |rows|
    ensures Before(descending, rows[i], rows[k]) <==> i < k
  {
  }

  lemma AfterStand(descending: bool, a: Answer, stand: Row, k: nat)
    requires Resumed(descending, a, stand) && k < |a.rows| && Before(descending, stand, a.rows[k])
    ensures a.resume <= k
  {
  }

  /// And none that was listed throughout is missed: a finished walk has seen every such row behind
  /// its start.
  lemma {:induction false} NoRowMissed(descending: bool, answers: seq<Answer>, stand: Row, take: nat, x: Row)
    requires Listings(descending, answers) && Resumes(descending, answers, stand, take) && take >= 1
    requires Finished(answers, take)
    requires Before(descending, stand, x) && forall i | 0 <= i < |answers| :: x in answers[i].rows
    ensures x in Walk(answers, take)
    decreases |answers|
  {
    hide Before, Listing, PageOf, Resumed;
    var a := answers[0];
    ResumesInside(descending, a, stand);
    var k: nat :| k < |a.rows| && a.rows[k] == x;
    PageIs(a, take);
    AfterStand(descending, a, stand, k);
    var page := PageOf(a, take);
    if k < a.resume + take {
      assert x == page.data[k - a.resume];
    } else {
      var last := page.data[|page.data| - 1];
      OrderIsPosition(descending, a.rows, a.resume + take - 1, k);
      NoRowMissed(descending, answers[1..], last, take, x);
    }
  }

  /// The answers to a client that follows the cursors over a list that does not change.
  function Still(rows: seq<Row>, cursor: nat, take: nat, n: nat): seq<Answer>
    decreases n
  {
    if n == 0 then [] else
    var a := Answer(rows, BehindId(rows, cursor));
    var page := PageOf(a, take);
    [a] + if page.nextCursor.Some? then Still(rows, page.nextCursor.value, take, n - 1) else []
  }

  /// How many rows `n` requests can show.
  function Room(n: nat, take: nat): nat {
    if n == 0 then 0 else take + Room(n - 1, take)
  }

  lemma {:induction false} RoomIs(n: nat, take: nat)
    ensures Room(n, take) == n * take
  {
    if n > 0 {
      RoomIs(n - 1, take);
      assert n * take == take + (n - 1) * take;
    }
  }

  lemma WalkStep(a: Answer, rest: seq<Answer>, take: nat)
    ensures
      var page := PageOf(a, take);
      && Walk([a] + rest, take) == page.data + (if page.nextCursor.Some? then Walk(rest, take) else [])
      && (Finished([a] + rest, take) <==> (page.nextCursor.Some? ==> Finished(rest, take)))
  {
    hide PageOf;
    assert ([a] + rest)[1..] == rest;
  }

  lemma StillStep(rows: seq<Row>, cursor: nat, take: nat, n: nat)
    requires n >= 1
    ensures
      var a := Answer(rows, BehindId(rows, cursor));
      var next := PageOf(a, take).nextCursor;
      Still(rows, cursor, take, n) == [a] + if next.Some? then Still(rows, next.value, take, n - 1) else []
  {
    hide PageOf, BehindId;
  }

  lemma {:induction false} StillWalkWithin(descending: bool, rows: seq<Row>, i: nat, take: nat, n: nat)
    requires Listing(descending, rows) && i < |rows| && take >= 1
    requires n >= 1 && i + 1 + Room(n, take) >= |rows|
    ensures Walk(Still(rows, rows[i].id, take, n), take) == rows[i + 1..]
    ensures Finished(Still(rows, rows[i].id, take, n), take)
    decreases n
  {
    hide Listing, PageOf, BehindId, Walk, Still, Finished;
    var a, end := Answer(rows, i + 1), Min(i + 1 + take, |rows|);
    PlaceOf(descending, rows, i);
    PageIs(a, take);
    StillStep(rows, rows[i].id, take, n);
    if end < |rows| {
      assert n > 1 by { assert Room(1, take) == take; }
      var rest := Still(rows, rows[end - 1].id, take, n - 1);
      WalkStep(a, rest, take);
      StillWalkWithin(descending, rows, end - 1, take, n - 1);
      assert rows[i + 1..] == rows[i + 1..end] + rows[end..];
    } else {
      WalkStep(a, [], take);
    }
  }

  /// Over an unchanged list a walk with enough requests sees exactly the rest of the list.
  lemma StillWalk(descending: bool, rows: seq<Row>, i: nat, take: nat, n: nat)
    requires Listing(descending, rows) && i < |rows| && take >= 1
    requires n >= 1 && i + 1 + n * take >= |rows|
    ensures Walk(Still(rows, rows[i].id, take, n), take) == rows[i + 1..]
    ensures Finished(Still(rows, rows[i].id, take, n), take)
  {
    hide *;
    RoomIs(n, take);
    StillWalkWithin(descending, rows, i, take, n);
  }

  lemma PlaceOf(descending: bool, rows: seq<Row>, i: nat)
    requires Listing(descending, rows) && i < |rows|
    ensures BehindId(rows, rows[i].id) == i + 1
  {
    BehindIdIs(rows, i);
  }

  predicate InOrder(descending: bool, rows: seq<Row>) {
    forall i, j | 0 <= i < j < |rows| :: Before(descending, rows[i], rows[j])
  }

  lemma InOrderJoin(descending: bool, first: seq<Row>, rest: seq<Row>)
    requires InOrder(descending, first) && first != [] && Ascends(descending, first[|first| - 1], rest)
    ensures InOrder(descending, first + rest)
  {
    var seen, last := first + rest, first[|first| - 1];
    forall i, j | 0 <= i < j < |seen|
      ensures Before(descending, seen[i], seen[j])
    {
      if i < |first| <= j {
        assert Before(descending, last, rest[j - |first|]);
      }
    }
  }

  lemma FirstPage(descending: bool, rows: seq<Row>, limit: int)
    requires Listing(descending, rows)
    ensures
      var first := NumberedPage(rows, 1, limit);
      |first| <= |rows| && first == rows[..|first|] && InOrder(descending, first)
  {
  }

  /// The first numbered page and then the cursors: no lead is seen twice, and every lead that is
  /// listed throughout is seen.
  lemma EveryLeadOnce(descending: bool, rows: seq<Row>, answers: seq<Answer>, limit: int, x: Row)
    requires Listing(descending, rows) && Listings(descending, answers)
    requires
      var (first, take) := (NumberedPage(rows, 1, limit), GetPaginationParams(1, limit).take);
      first != [] && Resumes(descending, answers, first[|first| - 1], take) && Finished(answers, take)
    ensures
      var (first, take) := (NumberedPage(rows, 1, limit), GetPaginationParams(1, limit).take);
      var seen := first + Walk(answers, take);
      && InOrder(descending, seen)
      && (x in rows && (forall i | 0 <= i < |answers| :: x in answers[i].rows) ==> x in seen)
  {
    hide Before, Listing, NumberedPage, Walk, Resumes, Finished, InOrder;
    FirstPage(descending, rows, limit);
    var (first, take) := (NumberedPage(rows, 1, limit), GetPaginationParams(1, limit).take);
    var stand := first[|first| - 1];
    NoRowTwice(descending, answers, stand, take);
    InOrderJoin(descending, first, Walk(answers, take));
    if x in rows && (forall i | 0 <= i < |answers| :: x in answers[i].rows) {
      var k: nat :| k < |rows| && rows[k] == x;
      if k < |first| {
        assert first[k] == x;
      } else {
        OrderIsPosition(descending, rows, |first| - 1, k);
        NoRowMissed(descending, answers, stand, take, x);
      }
    }
  }
}
