/// What holds of the GST invoice table over whole runs in which any number of requests are creating
/// invoices at once: each counts its series first and inserts its row later.
module GstNumbering {
  import opened Common
  import opened Decimal
  import opened GstTax
  import opened FiscalCalendar
  import opened GstInvoices

  // ----- Invoice numbers as strings -------------------------------------------------------------------

  lemma {:induction false} ReadPrefixed(z: string, s: string)
    requires AllDigits(z) && AllDigits(s) && Read(z) == 0
    ensures AllDigits(z + s) && Read(z + s) == Read(s)
  {
    if s == "" {
      assert z + s == z;
    } else {
      ReadPrefixed(z, s[..|s| - 1]);
      assert (z + s)[..|z + s| - 1] == z + s[..|s| - 1];
    }
  }

  lemma {:induction false} PaddingKeepsTheValue(s: string, length: nat)
    requires AllDigits(s)
    ensures Read(PadStart(s, length)) == Read(s)
    decreases if length > |s| then length - |s| else 0
  {
    if |s| < length {
      assert "0"[..0] == "";
      ReadPrefixed("0", s);
      PaddingKeepsTheValue("0" + s, length);
    }
  }

  /// An invoice number tells its prefix, the short form of its year and its place in the series.
  lemma NumberTells(prefix: string, fiscalYear: string, n: nat, prefix': string, fiscalYear': string, n': nat)
    requires AllDigits(Short(fiscalYear)) && AllDigits(Short(fiscalYear'))
    ensures NumberOf(prefix, fiscalYear, n) == NumberOf(prefix', fiscalYear', n')
            <==> prefix == prefix' && Short(fiscalYear) == Short(fiscalYear') && n == n'
  {
    var seq1, seq2 := PadStart(Show(n), 6), PadStart(Show(n'), 6);
    var short1, short2 := Short(fiscalYear), Short(fiscalYear');
    if NumberOf(prefix, fiscalYear, n) == NumberOf(prefix', fiscalYear', n') {
      hide *;
      NumberSpelled(prefix, fiscalYear, n);
      NumberSpelled(prefix', fiscalYear', n');
      DigitsHaveNoSlash(seq1);
      DigitsHaveNoSlash(seq2);
      DigitsHaveNoSlash(short1);
      DigitsHaveNoSlash(short2);
      CutUniqueAtEnd(prefix + "/" + short1, seq1, prefix' + "/" + short2, seq2, '/');
      CutUniqueAtEnd(prefix, short1, prefix', short2, '/');
      PaddingKeepsTheValue(Show(n), 6);
      PaddingKeepsTheValue(Show(n'), 6);
      ReadShow(n);
      ReadShow(n');
    }
  }

  lemma NumberSpelled(prefix: string, fiscalYear: string, n: nat)
    ensures NumberOf(prefix, fiscalYear, n) == prefix + "/" + Short(fiscalYear) + "/" + PadStart(Show(n), 6)
  {
  }

  lemma DigitsHaveNoSlash(s: string)
    requires AllDigits(s)
    ensures '/' !in s
  {
  }

  lemma {:induction false} AfterHyphenOf(a: string, b: string)
    requires '-' !in a
    ensures AfterHyphen(a + "-" + b) == b
  {
    if a == "" {
      assert (a + "-" + b)[1..] == b;
    } else {
      AfterHyphenOf(a[1..], b);
      assert (a + "-" + b)[1..] == a[1..] + "-" + b;
    }
  }

  lemma {:induction false} NoHyphenStays(s: string)
    requires '-' !in s
    ensures BeforeHyphen(s) == s
  {
    if s != "" {
      NoHyphenStays(s[1..]);
      assert s == [s[0]] + s[1..];
    }
  }

  lemma ShortOfLabel(y: nat)
    ensures Short(Label(y)) == LastTwo(Show(y)) + LastTwo(Show(y + 1)) && AllDigits(Short(Label(y)))
  {
    BeforeHyphenOf(Show(y), LastTwo(Show(y + 1)));
    AfterHyphenOf(Show(y), LastTwo(Show(y + 1)));
    NoHyphenStays(LastTwo(Show(y + 1)));
  }

  lemma LastTwoDigits(y: nat)
    requires y >= 10
    ensures LastTwo(Show(y)) == [Digit(y / 10 % 10), Digit(y % 10)]
  {
    assert Show(y) == Show(y / 10) + [Digit(y % 10)];
    var tens := Show(y / 10);
    assert tens[|tens| - 1] == Digit(y / 10 % 10);
    assert LastTwo(Show(y)) == [tens[|tens| - 1], Digit(y % 10)];
  }

  lemma DigitsDiffer(a: nat, b: nat)
    requires a < 10 && b < 10
    ensures Digit(a) == Digit(b) <==> a == b
  {
    assert DigitValue(Digit(a)) == a && DigitValue(Digit(b)) == b;
  }

  lemma TwoDigits(y: nat)
    ensures y % 100 == 10 * (y / 10 % 10) + y % 10
  {
    var q := y / 100;
    Quotient10(y, y / 10);
    Quotient10(y / 10, q);
  }

  lemma Quotient10(x: int, q: int)
    requires 10 * q <= x < 10 * q + 10
    ensures x / 10 == q && x % 10 == x - 10 * q
  {
  }

  lemma SameLastTwo(y: nat, z: nat)
    requires y >= 10 && z >= 10
    ensures LastTwo(Show(y)) == LastTwo(Show(z)) <==> y % 100 == z % 100
    ensures |LastTwo(Show(y))| == |LastTwo(Show(z))| == 2
  {
    hide *;
    LastTwoDigits(y);
    LastTwoDigits(z);
    DigitsDiffer(y % 10, z % 10);
    DigitsDiffer(y / 10 % 10, z / 10 % 10);
    TwoDigits(y);
    TwoDigits(z);
  }

  lemma NextYearsAgree(y: nat, z: nat)
    requires y % 100 == z % 100
    ensures (y + 1) % 100 == (z + 1) % 100
  {
  }

  lemma SamePairs(a: string, b: string, c: string, d: string)
    requires |a| == |c|
    ensures a + b == c + d <==> a == c && b == d
  {
    if a + b == c + d {
      assert (a + b)[..|a|] == a && (c + d)[..|c|] == c && (a + b)[|a|..] == b && (c + d)[|c|..] == d;
    }
  }

  /// Fiscal years a century apart share their short form, and no others do.
  lemma ShortFormsRepeatEachCentury(y: nat, z: nat)
    requires y >= 10 && z >= 10
    ensures Short(Label(y)) == Short(Label(z)) <==> y % 100 == z % 100
  {
    hide *;
    ShortOfLabel(y);
    ShortOfLabel(z);
    SameLastTwo(y, z);
    SameLastTwo(y + 1, z + 1);
    SamePairs(LastTwo(Show(y)), LastTwo(Show(y + 1)), LastTwo(Show(z)), LastTwo(Show(z + 1)));
    if y % 100 == z % 100 {
      NextYearsAgree(y, z);
    }
  }

  // ----- Concurrent creation ------------------------------------------------------------------------------

  /// A row waiting to be inserted, numbered when the table had `seen` rows.
  datatype Waiting = Waiting(invoice: Invoice, seen: nat)

  datatype State = State(table: seq<Invoice>, waiting: map<nat, Waiting>)

  datatype Action =
    | Count(process: nat, tenant: string, request: Request)
    | Insert(process: nat)

  const INIT := State([], map[])

  function Step(related: set<(string, Link)>, s: State, a: Action): State {
    match a
    case Count(p, tenant, request) =>
      var draft := Draft(related, s.table, tenant, request);
      if draft.Err? then s else s.(waiting := s.waiting[p := Waiting(draft.value, |s.table|)])
    case Insert(p) =>
      if p !in s.waiting then s
      else State(Inserted(s.table, s.waiting[p].invoice).1, s.waiting - {p})
  }

  function Run(related: set<(string, Link)>, actions: seq<Action>): State {
    if actions == [] then INIT else Step(related, Run(related, actions[..|actions| - 1]), actions[|actions| - 1])
  }

  /// The invoice carries the number that follows the first `n` rows.
  predicate NumberedAfter(table: seq<Invoice>, n: nat, v: Invoice)
    requires n <= |table|
  {
    v.number == NextNumber(table[..n], v.tenant, v.seriesPrefix, v.fiscalYear)
  }

  /// In every series the numbers run 1, 2, 3 and so on in the order of insertion.
  predicate WithoutGaps(table: seq<Invoice>) {
    forall i | 0 <= i < |table| :: NumberedAfter(table, i, table[i])
  }

  predicate NoDuplicates(table: seq<Invoice>) {
    forall i, j | 0 <= i < j < |table| ::
      && !(table[i].tenant == table[j].tenant && table[i].number == table[j].number)
      && (table[i].saasInvoiceId.Some? ==> table[i].saasInvoiceId != table[j].saasInvoiceId)
  }

  /// The amounts of a row: a sum of fair splits for the states it names, and the label of its date.
  predicate Sound(v: Invoice) {
    var totals := v.gst.totals;
    && v.fiscalYear == IndianFiscalYear(v.invoiceDate)
    && totals.isInterState == (v.supplierStateCode != v.placeOfSupply)
    && totals.totalPaise == totals.taxablePaise + totals.cgstPaise + totals.sgstPaise + totals.igstPaise
    && (if totals.isInterState then totals.cgstPaise == totals.sgstPaise == 0 <= totals.igstPaise
        else totals.igstPaise == 0 <= totals.sgstPaise <= totals.cgstPaise)
  }

  predicate Inv(s: State) {
    && WithoutGaps(s.table) && NoDuplicates(s.table)
    && (forall i | 0 <= i < |s.table| :: Sound(s.table[i]))
    && forall p | p in s.waiting ::
         s.waiting[p].seen <= |s.table| && NumberedAfter(s.table, s.waiting[p].seen, s.waiting[p].invoice)
         && Sound(s.waiting[p].invoice)
  }

  /// If a series has grown since it was counted, the row that took the counted number is there.
  lemma {:induction false} NumberTaken(table: seq<Invoice>, seen: nat, tenant: string, prefix: string, fiscalYear: string)
    requires WithoutGaps(table) && seen <= |table|
    requires CountSeries(table[..seen], tenant, prefix, fiscalYear) < CountSeries(table, tenant, prefix, fiscalYear)
    ensures exists i | seen <= i < |table| ::
      table[i].tenant == tenant && table[i].number == NextNumber(table[..seen], tenant, prefix, fiscalYear)
  {
    hide NumberOf;
    var n := |table| - 1;
    assert seen != |table| by { assert table[..|table|] == table; }
    if CountSeries(table[..seen], tenant, prefix, fiscalYear) == CountSeries(table[..n], tenant, prefix, fiscalYear) {
      assert NumberedAfter(table, n, table[n]);
      assert table[n].tenant == tenant && table[n].number == NextNumber(table[..seen], tenant, prefix, fiscalYear);
    } else {
      CountGrows(table, seen, n, tenant, prefix, fiscalYear);
      assert table[..n][..seen] == table[..seen];
      PrefixWithoutGaps(table, n);
      NumberTaken(table[..n], seen, tenant, prefix, fiscalYear);
      var i :| seen <= i < n && table[..n][i].tenant == tenant
               && table[..n][i].number == NextNumber(table[..seen], tenant, prefix, fiscalYear);
      assert table[i] == table[..n][i];
    }
  }

  lemma PrefixWithoutGaps(table: seq<Invoice>, n: nat)
    requires WithoutGaps(table) && n <= |table|
    ensures WithoutGaps(table[..n])
  {
    forall i | 0 <= i < n
      ensures NumberedAfter(table[..n], i, table[..n][i])
    {
      assert NumberedAfter(table, i, table[i]);
      assert table[..n][..i] == table[..i];
    }
  }

  lemma {:induction false} CountGrows(table: seq<Invoice>, m: nat, n: nat, tenant: string, prefix: string, fiscalYear: string)
    requires m <= n <= |table|
    ensures CountSeries(table[..m], tenant, prefix, fiscalYear) <= CountSeries(table[..n], tenant, prefix, fiscalYear)
  {
    if m < n {
      CountGrows(table, m, n - 1, tenant, prefix, fiscalYear);
      assert table[..n][..n - 1] == table[..n - 1];
    }
  }

  lemma StillNext(table: seq<Invoice>, seen: nat, v: Invoice)
    requires WithoutGaps(table) && seen <= |table| && NumberedAfter(table, seen, v) && Storable(table, v)
    ensures NumberedAfter(table, |table|, v)
  {
    hide NumberOf;
    assert table[..|table|] == table;
    CountGrows(table, seen, |table|, v.tenant, v.seriesPrefix, v.fiscalYear);
    if CountSeries(table[..seen], v.tenant, v.seriesPrefix, v.fiscalYear)
       < CountSeries(table, v.tenant, v.seriesPrefix, v.fiscalYear) {
      NumberTaken(table, seen, v.tenant, v.seriesPrefix, v.fiscalYear);
    }
  }

  /// The unique column turns a stale number away: what is inserted is numbered for the table it joins.
  lemma InsertedInOrder(table: seq<Invoice>, seen: nat, v: Invoice)
    requires WithoutGaps(table) && seen <= |table| && NumberedAfter(table, seen, v) && Storable(table, v)
    ensures WithoutGaps(table + [v])
  {
    hide NumberOf, CountSeries;
    StillNext(table, seen, v);
    var grown := table + [v];
    forall i | 0 <= i < |grown|
      ensures NumberedAfter(grown, i, grown[i])
    {
      assert grown[..i] == table[..i];
      if i < |table| {
        assert NumberedAfter(table, i, table[i]);
      }
    }
  }

  lemma DraftIsSound(related: set<(string, Link)>, table: seq<Invoice>, tenant: string, r: Request)
    ensures
      var draft := Draft(related, table, tenant, r);
      draft.Ok? ==> Sound(draft.value) && NumberedAfter(table, |table|, draft.value)
  {
    hide Draft, NormalizeStateCode, InvoiceOf, NumberedAfter;
    var draft := Draft(related, table, tenant, r);
    if draft.Ok? {
      StateCodesAreNormal(related, table, tenant, r);
      InvoiceTotals(r.items, draft.value.supplierStateCode, draft.value.placeOfSupply);
      DraftIsNumbered(related, table, tenant, r);
    }
  }

  lemma DraftIsNumbered(related: set<(string, Link)>, table: seq<Invoice>, tenant: string, r: Request)
    requires Draft(related, table, tenant, r).Ok?
    ensures NumberedAfter(table, |table|, Draft(related, table, tenant, r).value)
  {
    hide NormalizeStateCode, InvoiceOf, StateCodeFromGstin, MissingLink, NextNumber;
    assert table[..|table|] == table;
  }

  lemma StateCodesAreNormal(related: set<(string, Link)>, table: seq<Invoice>, tenant: string, r: Request)
    requires Draft(related, table, tenant, r).Ok?
    ensures
      var v := Draft(related, table, tenant, r).value;
      && NormalizeStateCode(v.supplierStateCode) == Ok(v.supplierStateCode)
      && NormalizeStateCode(v.placeOfSupply) == Ok(v.placeOfSupply)
      && InvoiceOf(r.items, v.supplierStateCode, v.placeOfSupply) == Ok(v.gst)
      && v.fiscalYear == IndianFiscalYear(v.invoiceDate)
  {
    hide NormalizeStateCode, InvoiceOf, StateCodeFromGstin, MissingLink;
    var place := OrElse(r.placeOfSupply, r.buyerStateCode);
    NormalizeIsIdempotent(place);
    if r.supplierStateCode.Some? {
      NormalizeIsIdempotent(r.supplierStateCode.value);
    } else {
      NormalizeIsIdempotent(StateCodeFromGstin(r.supplierGstin).value);
    }
  }

  lemma WaitingStaysNumbered(table: seq<Invoice>, seen: nat, v: Invoice, w: Invoice)
    requires seen <= |table| && NumberedAfter(table, seen, v)
    ensures NumberedAfter(table + [w], seen, v)
  {
    hide NextNumber;
    assert (table + [w])[..seen] == table[..seen];
  }

  lemma StillNoDuplicates(table: seq<Invoice>, v: Invoice)
    requires NoDuplicates(table) && Storable(table, v)
    ensures NoDuplicates(table + [v])
  {
  }

  lemma InsertKeepsInv(s: State, p: nat)
    requires Inv(s) && p in s.waiting && Storable(s.table, s.waiting[p].invoice)
    ensures Inv(State(s.table + [s.waiting[p].invoice], s.waiting - {p}))
  {
    hide NumberedAfter, Sound, WithoutGaps, NoDuplicates, Storable;
    var v := s.waiting[p].invoice;
    InsertedInOrder(s.table, s.waiting[p].seen, v);
    StillNoDuplicates(s.table, v);
    forall q | q in s.waiting
      ensures NumberedAfter(s.table + [v], s.waiting[q].seen, s.waiting[q].invoice)
    {
      WaitingStaysNumbered(s.table, s.waiting[q].seen, s.waiting[q].invoice, v);
    }
  }

  lemma StepKeepsInv(related: set<(string, Link)>, s: State, a: Action)
    requires Inv(s)
    ensures Inv(Step(related, s, a))
  {
    hide NumberedAfter, Sound, WithoutGaps, NoDuplicates, Draft;
    match a
    case Count(p, tenant, request) =>
      DraftIsSound(related, s.table, tenant, request);
    case Insert(p) =>
      if p in s.waiting && Storable(s.table, s.waiting[p].invoice) {
        InsertKeepsInv(s, p);
      }
  }

  /// A creation that is not interrupted is the service's `Create`.
  lemma UninterruptedIsCreate(related: set<(string, Link)>, s: State, p: nat, tenant: string, r: Request)
    requires p !in s.waiting
    ensures Step(related, Step(related, s, Count(p, tenant, r)), Insert(p))
            == s.(table := Created(related, s.table, tenant, r).1)
  {
    hide Draft, Storable;
    var draft := Draft(related, s.table, tenant, r);
    assert s.waiting - {p} == s.waiting;
    assert draft.Ok? ==> s.waiting[p := Waiting(draft.value, |s.table|)] - {p} == s.waiting;
  }

  /// However creations interleave, every series is numbered without gaps, numbers and subscription
  /// invoices are never used twice, and every row's amounts add up.
  lemma {:induction false} SeriesHaveNoGaps(related: set<(string, Link)>, actions: seq<Action>)
    ensures Inv(Run(related, actions))
  {
    if actions != [] {
      SeriesHaveNoGaps(related, actions[..|actions| - 1]);
      StepKeepsInv(related, Run(related, actions[..|actions| - 1]), actions[|actions| - 1]);
    }
  }

  // ----- When a number is refused ---------------------------------------------------------------------------

  /// Every number up to the length of a series is on one of its rows.
  lemma {:induction false} RowOfSequence(table: seq<Invoice>, n: nat, tenant: string, prefix: string, fiscalYear: string)
    requires WithoutGaps(table) && 1 <= n <= CountSeries(table, tenant, prefix, fiscalYear)
    ensures exists i | 0 <= i < |table| :: table[i].tenant == tenant && table[i].number == NumberOf(prefix, fiscalYear, n)
  {
    hide NumberOf;
    var last := |table| - 1;
    PrefixWithoutGaps(table, last);
    if n <= CountSeries(table[..last], tenant, prefix, fiscalYear) {
      RowOfSequence(table[..last], n, tenant, prefix, fiscalYear);
      var i :| 0 <= i < last && table[..last][i].tenant == tenant && table[..last][i].number == NumberOf(prefix, fiscalYear, n);
      assert table[i] == table[..last][i];
    } else {
      assert NumberedAfter(table, last, table[last]);
      assert table[last].tenant == tenant && table[last].number == NumberOf(prefix, fiscalYear, n);
    }
  }

  predicate NumberFree(table: seq<Invoice>, tenant: string, number: string) {
    forall i | 0 <= i < |table| :: !(table[i].tenant == tenant && table[i].number == number)
  }

  /// Another series of the tenant with the same prefix, exactly centuries away, that is already longer.
  ghost predicate LongerTwin(table: seq<Invoice>, tenant: string, prefix: string, y: nat) {
    exists z: nat :: z >= 10 && z != y && z % 100 == y % 100
      && CountSeries(table, tenant, prefix, Label(z)) > CountSeries(table, tenant, prefix, Label(y))
  }

  predicate OrdinaryYears(table: seq<Invoice>) {
    forall i | 0 <= i < |table| ::
      FiscalStart(table[i].invoiceDate) >= 10 && table[i].fiscalYear == Label(FiscalStart(table[i].invoiceDate))
  }

  lemma CountAtRow(table: seq<Invoice>, i: nat)
    requires i < |table|
    ensures
      var v := table[i];
      CountSeries(table[..i], v.tenant, v.seriesPrefix, v.fiscalYear) + 1
      <= CountSeries(table, v.tenant, v.seriesPrefix, v.fiscalYear)
  {
    var v := table[i];
    assert table[..i + 1][..i] == table[..i] && table[..|table|] == table;
    CountGrows(table, i + 1, |table|, v.tenant, v.seriesPrefix, v.fiscalYear);
  }

  lemma NextIs(table: seq<Invoice>, tenant: string, prefix: string, fiscalYear: string)
    ensures NextNumber(table, tenant, prefix, fiscalYear)
            == NumberOf(prefix, fiscalYear, CountSeries(table, tenant, prefix, fiscalYear) + 1)
  {
  }

  lemma RowsNumber(table: seq<Invoice>, i: nat)
    requires WithoutGaps(table) && i < |table|
    ensures
      var v := table[i];
      v.number == NumberOf(v.seriesPrefix, v.fiscalYear, CountSeries(table[..i], v.tenant, v.seriesPrefix, v.fiscalYear) + 1)
  {
    hide NumberOf, CountSeries;
    assert NumberedAfter(table, i, table[i]);
  }

  /// Numbers of two ordinary years agree exactly when the prefix, the place and the year within the
  /// century do.
  lemma OrdinaryNumbersTell(prefix: string, y: nat, n: nat, prefix': string, y': nat, n': nat)
    requires y >= 10 && y' >= 10
    ensures NumberOf(prefix, Label(y), n) == NumberOf(prefix', Label(y'), n')
            <==> prefix == prefix' && y % 100 == y' % 100 && n == n'
  {
    hide *;
    ShortFormsRepeatEachCentury(y, y');
    ShortOfLabel(y);
    ShortOfLabel(y');
    NumberTells(prefix, Label(y), n, prefix', Label(y'), n');
  }

  lemma TwinTakesTheNumber(table: seq<Invoice>, tenant: string, prefix: string, y: nat, z: nat)
    requires WithoutGaps(table) && y >= 10 && z >= 10 && z % 100 == y % 100
    requires CountSeries(table, tenant, prefix, Label(z)) > CountSeries(table, tenant, prefix, Label(y))
    ensures exists i | 0 <= i < |table| ::
      table[i].tenant == tenant && table[i].number == NextNumber(table, tenant, prefix, Label(y))
  {
    hide *;
    var n := CountSeries(table, tenant, prefix, Label(y)) + 1;
    RowOfSequence(table, n, tenant, prefix, Label(z));
    OrdinaryNumbersTell(prefix, y, n, prefix, z, n);
    NextIs(table, tenant, prefix, Label(y));
  }

  lemma TakenNumberHasATwin(table: seq<Invoice>, tenant: string, prefix: string, y: nat, i: nat, z: nat)
    requires WithoutGaps(table) && y >= 10 && i < |table| && z >= 10 && table[i].fiscalYear == Label(z)
    requires table[i].tenant == tenant && table[i].number == NextNumber(table, tenant, prefix, Label(y))
    ensures z != y && z % 100 == y % 100
    ensures CountSeries(table, tenant, prefix, Label(z)) > CountSeries(table, tenant, prefix, Label(y))
  {
    hide *;
    RowsNumber(table, i);
    NextIs(table, tenant, prefix, Label(y));
    OrdinaryNumbersTell(table[i].seriesPrefix, z, CountSeries(table[..i], tenant, table[i].seriesPrefix, Label(z)) + 1,
                        prefix, y, CountSeries(table, tenant, prefix, Label(y)) + 1);
    CountAtRow(table, i);
  }

  /// Once a request has been counted and no other creation comes in between, its number is refused
  /// exactly when a twin series a century or more away has run ahead of it.
  lemma NumberRefusedIff(table: seq<Invoice>, tenant: string, prefix: string, y: nat)
    requires WithoutGaps(table) && OrdinaryYears(table) && y >= 10
    ensures !NumberFree(table, tenant, NextNumber(table, tenant, prefix, Label(y))) <==> LongerTwin(table, tenant, prefix, y)
  {
    hide NextNumber, CountSeries, Label, FiscalStart, WithoutGaps;
    if LongerTwin(table, tenant, prefix, y) {
      var z: nat :| z >= 10 && z != y && z % 100 == y % 100
        && CountSeries(table, tenant, prefix, Label(z)) > CountSeries(table, tenant, prefix, Label(y));
      TwinTakesTheNumber(table, tenant, prefix, y, z);
    }
    if !NumberFree(table, tenant, NextNumber(table, tenant, prefix, Label(y))) {
      var i: nat :| i < |table| && table[i].tenant == tenant && table[i].number == NextNumber(table, tenant, prefix, Label(y));
      TakenNumberHasATwin(table, tenant, prefix, y, i, FiscalStart(table[i].invoiceDate));
    }
  }

  // ----- Subscription invoices ------------------------------------------------------------------------------------

  /// The total charged on a taxable amount, against the total charged on its neighbours.
  lemma NeighbouringTotals(t: nat)
    ensures
      var (x, total) := (t * 1800 + 5000, t + (t * 1800 + 5000) / 10000);
      && (t + 1) + ((t + 1) * 1800 + 5000) / 10000 == total + 1 + (if x % 10000 >= 8200 then 1 else 0)
      && (t >= 1 ==> (t - 1) + ((t - 1) * 1800 + 5000) / 10000 == total - 1 - (if x % 10000 < 1800 then 1 else 0))
  {
  }

  lemma FartherTotals(t: nat, u: nat)
    ensures u >= t ==> u + (u * 1800 + 5000) / 10000 >= t + (t * 1800 + 5000) / 10000 + (u - t)
    ensures u <= t ==> u + (u * 1800 + 5000) / 10000 <= t + (t * 1800 + 5000) / 10000 - (t - u)
  {
  }

  /// When the total of an invoice over `t` is the amount paid or one paise less; `exact` is the taxable
  /// part of the amount and `t` what is left of it after a conversion to a double.
  predicate WithinAPaise(amount: nat, exact: nat, t: int) {
    var rest, x := amount * 10000 % 11800, exact * 1800 + 5000;
    || t == exact
    || (t == exact + 1 && rest > 5000 && x % 10000 < 8200)
    || (t == exact - 1 && rest <= 5000 && x % 10000 >= 1800)
  }

  lemma TotalWithinAPaiseIff(amount: nat, t: nat)
    ensures
      var exact, total := amount * 10000 / 11800, t + (t * 1800 + 5000) / 10000;
      && (amount - 1 <= total <= amount <==> WithinAPaise(amount, exact, t))
      && (t == exact ==> (total == amount <==> amount * 10000 % 11800 <= 5000))
  {
    var exact := amount * 10000 / 11800;
    GrossRoundTrip(amount, SAAS_GST_RATE_BPS);
    assert Recharged(amount, SAAS_GST_RATE_BPS) == exact + (exact * 1800 + 5000) / 10000;
    NeighbouringTotals(exact);
    FartherTotals(exact, t);
  }

  /// The invoice of a paid subscription charges the amount paid or one paise less, exactly when the
  /// taxable part survives its conversion to a double well enough; below 2^53 paise it always does.
  /// Then the amount itself is charged exactly when the division leaves at most 5000.
  lemma SaasInvoiceTotal(related: set<(string, Link)>, table: seq<Invoice>, p: Paid, now: int)
    requires FindSaas(table, p.tenant, p.saasInvoiceId).None?
    ensures
      var r := CreatedFromSaas(related, table, p, now).0;
      r.Ok? ==>
        && p.amountPaise >= 0 && r.value.saasInvoiceId == Some(p.saasInvoiceId)
        && var exact, total := p.amountPaise * 10000 / 11800, r.value.gst.totals.totalPaise;
           && (p.amountPaise - 1 <= total <= p.amountPaise <==> WithinAPaise(p.amountPaise, exact, ToDouble(exact)))
           && (exact < TWO_53 ==> WithinAPaise(p.amountPaise, exact, ToDouble(exact)))
           && (ToDouble(exact) == exact ==> (total == p.amountPaise <==> p.amountPaise * 10000 % 11800 <= 5000))
  {
    hide *;
    if CreatedFromSaas(related, table, p, now).0.Ok? {
      SaasDraftTotal(related, table, p, now);
      TotalWithinAPaiseIff(p.amountPaise, ToDouble(p.amountPaise * 10000 / 11800));
      SurvivesBelow(p.amountPaise);
    }
  }

  /// The draft behind a new subscription invoice.
  lemma SaasDraft(related: set<(string, Link)>, table: seq<Invoice>, p: Paid, now: int)
    requires FindSaas(table, p.tenant, p.saasInvoiceId).None? && CreatedFromSaas(related, table, p, now).0.Ok?
    ensures p.amountPaise >= 0
    ensures
      var taxable := ToDouble(p.amountPaise * 10000 / 11800);
      Draft(related, table, p.tenant, SaasRequest(p, taxable, now)) == CreatedFromSaas(related, table, p, now).0
  {
    hide Draft, ToDouble, FindSaas, Storable, SaasRequest;
  }

  lemma DraftKeepsLink(related: set<(string, Link)>, table: seq<Invoice>, tenant: string, r: Request)
    requires Draft(related, table, tenant, r).Ok?
    ensures Draft(related, table, tenant, r).value.saasInvoiceId == r.saasInvoiceId
  {
    hide NormalizeStateCode, InvoiceOf, StateCodeFromGstin, MissingLink, NextNumber;
  }

  lemma SaasDraftTotal(related: set<(string, Link)>, table: seq<Invoice>, p: Paid, now: int)
    requires FindSaas(table, p.tenant, p.saasInvoiceId).None? && CreatedFromSaas(related, table, p, now).0.Ok?
    ensures p.amountPaise >= 0
    ensures
      var v, taxable := CreatedFromSaas(related, table, p, now).0.value, ToDouble(p.amountPaise * 10000 / 11800);
      && taxable >= 0 && v.saasInvoiceId == Some(p.saasInvoiceId)
      && v.gst.totals.totalPaise == taxable + (taxable * 1800 + 5000) / 10000
  {
    hide CreatedFromSaas, Draft, NormalizeStateCode, InvoiceOf, ToDouble, FindSaas;
    SaasDraft(related, table, p, now);
    var v, taxable := CreatedFromSaas(related, table, p, now).0.value, ToDouble(p.amountPaise * 10000 / 11800);
    StateCodesAreNormal(related, table, p.tenant, SaasRequest(p, taxable, now));
    DraftKeepsLink(related, table, p.tenant, SaasRequest(p, taxable, now));
    OneLineTotal(Line(taxable, Whole(SAAS_GST_RATE_BPS)), v.supplierStateCode, v.placeOfSupply);
  }

  lemma SurvivesBelow(amount: nat)
    ensures
      var exact := amount * 10000 / 11800;
      exact < TWO_53 ==> WithinAPaise(amount, exact, ToDouble(exact))
  {
  }

  const HUGE_AMOUNT := 18_014_398_509_481_985

  /// 2^54 + 1 paise: the taxable part is odd, no double has it, and the invoice is two paise short.
  lemma HugeAmountFallsShort()
    ensures
      var exact := HUGE_AMOUNT * 10000 / 11800;
      !WithinAPaise(HUGE_AMOUNT, exact, ToDouble(exact))
  {
    var exact := 15_266_439_414_815_241;
    assert HUGE_AMOUNT * 10000 / 11800 == exact;
    assert exact / 2 == 7_633_219_707_407_620 < TWO_53 <= exact;
    assert Spacing(exact) == 2;
    assert ToDouble(exact) == exact - 1;
  }

  lemma OneLineTotal(line: Line, supplierStateCode: string, placeOfSupply: string)
    requires InvoiceOf([line], supplierStateCode, placeOfSupply).Ok?
    ensures GstOnTaxable(line.taxablePaise, line.gstRateBps).Ok?
    ensures InvoiceOf([line], supplierStateCode, placeOfSupply).value.totals.totalPaise
            == line.taxablePaise + GstOnTaxable(line.taxablePaise, line.gstRateBps).value
  {
    hide NormalizeStateCode;
    assert [line][..0] == [];
    var split := ComputeGstSplit(line, supplierStateCode, placeOfSupply);
    assert SplitLines([line], supplierStateCode, placeOfSupply) == Ok([split.value]);
    var interState := InterState(supplierStateCode, placeOfSupply);
    assert [split.value][..0] == [];
    assert Sum([split.value], interState) == Plus(Sum([], interState), split.value);
    assert InvoiceOf([line], supplierStateCode, placeOfSupply) == Ok(InvoiceGst(Sum([split.value], interState), [split.value]));
  }

  /// Asking again for the same subscription invoice, however much later, returns the same row and
  /// writes nothing.
  lemma SaasInvoiceIsCreatedOnce(related: set<(string, Link)>, table: seq<Invoice>, p: Paid, now: int,
                                 later: seq<Invoice>, again: Paid, then_: int)
    requires
      var (r, next) := CreatedFromSaas(related, table, p, now);
      r.Ok? && next <= later
    requires again.tenant == p.tenant && again.saasInvoiceId == p.saasInvoiceId
    ensures CreatedFromSaas(related, later, again, then_) == (CreatedFromSaas(related, table, p, now).0, later)
  {
    hide CreatedFromSaas;
    SaasRow(related, table, p, now);
    var (r, next) := CreatedFromSaas(related, table, p, now);
    var k := FindSaas(table, p.tenant, p.saasInvoiceId);
    var j := if k.Some? then k.value else |table|;
    assert forall m | 0 <= m < |table| :: later[m] == next[m] == table[m];
    assert later[j] == next[j] == r.value;
    assert FindSaas(later, p.tenant, p.saasInvoiceId) == Some(j);
    SaasFound(related, later, again, then_, j);
  }

  lemma SaasRow(related: set<(string, Link)>, table: seq<Invoice>, p: Paid, now: int)
    ensures
      var (r, next) := CreatedFromSaas(related, table, p, now);
      var k := FindSaas(table, p.tenant, p.saasInvoiceId);
      r.Ok? ==>
        && r.value.tenant == p.tenant && r.value.saasInvoiceId == Some(p.saasInvoiceId)
        && (if k.Some? then next == table && r.value == table[k.value] else next == table + [r.value])
  {
    hide TaxableFromGrossInclusive, IndianFiscalYear, NormalizeStateCode, InvoiceOf, NextNumber, SupplierState, MissingLink;
  }

  lemma SaasFound(related: set<(string, Link)>, table: seq<Invoice>, p: Paid, now: int, j: nat)
    requires FindSaas(table, p.tenant, p.saasInvoiceId) == Some(j)
    ensures CreatedFromSaas(related, table, p, now) == (Ok(table[j]), table)
  {
  }
}
