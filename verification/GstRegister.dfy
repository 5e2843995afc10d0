/// The sales register: which invoices a fiscal year or one of its quarters reports, and their totals.
module GstRegister {
  import opened Common
  import opened FiscalCalendar
  import opened GstInvoices

  datatype Query = Query(fiscalYear: string, quarter: string, fromDate: Option<int>, toDate: Option<int>)

  datatype Totals = Totals(count: nat, taxablePaise: int, cgstPaise: int, sgstPaise: int, igstPaise: int, totalPaise: int)

  datatype Bounds = Bounds(from: Option<int>, to: Option<int>)

  /// Explicit dates win over the quarter; None is the refusal of a malformed year or quarter.
  function DateBounds(q: Query): Option<Bounds> {
    if q.fromDate.Some? || q.toDate.Some? then Some(Bounds(q.fromDate, q.toDate))
    else if q.quarter == "" then Some(Bounds(None, None))
    else match QuarterDateRange(q.fiscalYear, q.quarter)
      case None => None
      case Some(range) => Some(Bounds(Some(range.from), Some(range.to)))
  }

  predicate Selected(v: Invoice, fiscalYear: string, b: Bounds) {
    && v.fiscalYear == fiscalYear
    && (b.from.Some? ==> b.from.value <= v.invoiceDate)
    && (b.to.Some? ==> v.invoiceDate <= b.to.value)
  }

  function Register(sales: seq<Invoice>, fiscalYear: string, b: Bounds): seq<Invoice> {
    if sales == [] then [] else
    var last := sales[|sales| - 1];
    Register(sales[..|sales| - 1], fiscalYear, b) + if Selected(last, fiscalYear, b) then [last] else []
  }

  function SumOf(rows: seq<Invoice>): Totals {
    if rows == [] then Totals(0, 0, 0, 0, 0, 0)
    else Plus(SumOf(rows[..|rows| - 1]), Only(rows[|rows| - 1]))
  }

  function Only(v: Invoice): Totals {
    var t := v.gst.totals;
    Totals(1, t.taxablePaise, t.cgstPaise, t.sgstPaise, t.igstPaise, t.totalPaise)
  }

  function Plus(a: Totals, b: Totals): Totals {
    Totals(a.count + b.count, a.taxablePaise + b.taxablePaise, a.cgstPaise + b.cgstPaise, a.sgstPaise + b.sgstPaise,
           a.igstPaise + b.igstPaise, a.totalPaise + b.totalPaise)
  }

  /// `sales` are the tenant's sales invoices that have not been cancelled.
  function ExportSalesRegister(sales: seq<Invoice>, q: Query): Option<Totals> {
    match DateBounds(q)
    case None => None
    case Some(b) => Some(SumOf(Register(sales, q.fiscalYear, b)))
  }

  /// Which invoices count when dates are given: those of the fiscal year from the one to the other date, and
  /// the quarter is not looked at.
  predicate Within(v: Invoice, fiscalYear: string, from: Option<int>, to: Option<int>) {
    v.fiscalYear == fiscalYear && (from.Some? ==> from.value <= v.invoiceDate) && (to.Some? ==> v.invoiceDate <= to.value)
  }

  datatype Column = ROWS | TAXABLE | CGST | SGST | IGST | GROSS

  function Entry(v: Invoice, column: Column): int {
    match column
    case ROWS => 1
    case TAXABLE => v.gst.totals.taxablePaise
    case CGST => v.gst.totals.cgstPaise
    case SGST => v.gst.totals.sgstPaise
    case IGST => v.gst.totals.igstPaise
    case GROSS => v.gst.totals.totalPaise
  }

  /// The sum of a column over those invoices.
  function Total(sales: seq<Invoice>, fiscalYear: string, from: Option<int>, to: Option<int>, column: Column): int {
    if sales == [] then 0
    else Total(sales[1..], fiscalYear, from, to, column)
         + if Within(sales[0], fiscalYear, from, to) then Entry(sales[0], column) else 0
  }

  lemma {:induction false} TotalFromTheEnd(sales: seq<Invoice>, fiscalYear: string, from: Option<int>, to: Option<int>,
                                           column: Column)
    requires sales != []
    ensures
      var n := |sales| - 1;
      Total(sales, fiscalYear, from, to, column)
      == Total(sales[..n], fiscalYear, from, to, column)
         + if Within(sales[n], fiscalYear, from, to) then Entry(sales[n], column) else 0
    decreases |sales|
  {
    hide Within;
    var n := |sales| - 1;
    if n > 0 {
      TotalFromTheEnd(sales[1..], fiscalYear, from, to, column);
      assert sales[1..][..n - 1] == sales[..n][1..] && sales[1..][n - 1] == sales[n];
    }
  }

  /// The register's figures are the column sums over the invoices it reports.
  ghost predicate Reports(t: Totals, sales: seq<Invoice>, fiscalYear: string, from: Option<int>, to: Option<int>) {
    && t.count == Total(sales, fiscalYear, from, to, ROWS)
    && t.taxablePaise == Total(sales, fiscalYear, from, to, TAXABLE)
    && t.cgstPaise == Total(sales, fiscalYear, from, to, CGST)
    && t.sgstPaise == Total(sales, fiscalYear, from, to, SGST)
    && t.igstPaise == Total(sales, fiscalYear, from, to, IGST)
    && t.totalPaise == Total(sales, fiscalYear, from, to, GROSS)
  }

  lemma {:induction false} RegisterReports(sales: seq<Invoice>, fiscalYear: string, b: Bounds)
    ensures Reports(SumOf(Register(sales, fiscalYear, b)), sales, fiscalYear, b.from, b.to)
    decreases |sales|
  {
    if sales != [] {
      var n := |sales| - 1;
      RegisterReports(sales[..n], fiscalYear, b);
      RegisterAppend(sales, fiscalYear, b);
      forall column {
        TotalFromTheEnd(sales, fiscalYear, b.from, b.to, column);
      }
      hide Total, Register, SumOf;
    }
  }

  /// An export reports the invoices of its fiscal year: between the dates if any is given, whatever the
  /// quarter says; else within the range of the quarter; else all.
  lemma ExportReports(sales: seq<Invoice>, q: Query)
    ensures q.fromDate.Some? || q.toDate.Some? ==>
      var r := ExportSalesRegister(sales, q);
      r.Some? && Reports(r.value, sales, q.fiscalYear, q.fromDate, q.toDate)
    ensures q.fromDate.None? && q.toDate.None? && q.quarter == "" ==>
      var r := ExportSalesRegister(sales, q);
      r.Some? && Reports(r.value, sales, q.fiscalYear, None, None)
    ensures q.fromDate.None? && q.toDate.None? && q.quarter != "" ==>
      var (r, range) := (ExportSalesRegister(sales, q), QuarterDateRange(q.fiscalYear, q.quarter));
      && (r.None? <==> range.None?)
      && (r.Some? ==> Reports(r.value, sales, q.fiscalYear, Some(range.value.from), Some(range.value.to)))
  {
    hide SumOf, Register, QuarterDateRange, Reports;
    if DateBounds(q).Some? {
      RegisterReports(sales, q.fiscalYear, DateBounds(q).value);
    }
  }

  predicate Labelled(sales: seq<Invoice>) {
    forall i | 0 <= i < |sales| :: sales[i].fiscalYear == IndianFiscalYear(sales[i].invoiceDate)
  }

  lemma RegisterAppend(sales: seq<Invoice>, fiscalYear: string, b: Bounds)
    requires sales != []
    ensures
      var last := sales[|sales| - 1];
      SumOf(Register(sales, fiscalYear, b))
      == if Selected(last, fiscalYear, b) then Plus(SumOf(Register(sales[..|sales| - 1], fiscalYear, b)), Only(last))
         else SumOf(Register(sales[..|sales| - 1], fiscalYear, b))
  {
    var front, last := Register(sales[..|sales| - 1], fiscalYear, b), sales[|sales| - 1];
    if Selected(last, fiscalYear, b) {
      assert (front + [last])[..|front|] == front;
    } else {
      assert front + [] == front;
    }
  }

  function QuarterBounds(y: nat, q: nat): Bounds
    requires 1 <= q <= 4
  {
    Bounds(Some(QuarterRange(y, q).from), Some(QuarterRange(y, q).to))
  }

  /// A row labelled with its own fiscal year is in the register of exactly one quarter of that year.
  lemma SelectedByItsQuarter(v: Invoice, y: nat, q: nat)
    requires y >= 100 && 1 <= q <= 4 && v.fiscalYear == IndianFiscalYear(v.invoiceDate)
    ensures Selected(v, Label(y), QuarterBounds(y, q))
            <==> v.fiscalYear == Label(y) && IndianFiscalQuarter(v.invoiceDate) == QuarterName(q)
  {
    hide QuarterRange, QuarterDateRange, IndianFiscalYear, IndianFiscalQuarter, Label;
    RangeOfLabel(y, q);
    RangeHoldsItsQuarter(v.invoiceDate, y, q);
  }

  lemma OneQuarterOnly(t: int) returns (q: nat)
    ensures 1 <= q <= 4
    ensures forall r | 1 <= r <= 4 :: IndianFiscalQuarter(t) == QuarterName(r) <==> r == q
  {
    var m := MonthFromDay(Day(t));
    q := if m < 3 then 4 else m / 3;
  }

  function QuarterSum(sales: seq<Invoice>, y: nat, q: nat): Totals
    requires 1 <= q <= 4
  {
    SumOf(Register(sales, Label(y), QuarterBounds(y, q)))
  }

  function YearSum(sales: seq<Invoice>, y: nat): Totals {
    SumOf(Register(sales, Label(y), Bounds(None, None)))
  }

  function FourQuarters(sales: seq<Invoice>, y: nat): Totals {
    Plus(Plus(QuarterSum(sales, y, 1), QuarterSum(sales, y, 2)), Plus(QuarterSum(sales, y, 3), QuarterSum(sales, y, 4)))
  }

  /// One more row adds to the year what it adds to its quarter, and nothing to the other quarters.
  lemma OneMoreRow(sales: seq<Invoice>, y: nat)
    requires sales != [] && Labelled(sales) && y >= 100
    ensures
      var (before, last) := (sales[..|sales| - 1], sales[|sales| - 1]);
      if last.fiscalYear == Label(y)
      then YearSum(sales, y) == Plus(YearSum(before, y), Only(last))
           && FourQuarters(sales, y) == Plus(FourQuarters(before, y), Only(last))
      else YearSum(sales, y) == YearSum(before, y) && FourQuarters(sales, y) == FourQuarters(before, y)
  {
    hide SumOf, Register, Label, QuarterBounds, IndianFiscalYear, IndianFiscalQuarter, QuarterName;
    var last := sales[|sales| - 1];
    var own := OneQuarterOnly(last.invoiceDate);
    RegisterAppend(sales, Label(y), Bounds(None, None));
    forall q: nat | 1 <= q <= 4
      ensures QuarterSum(sales, y, q)
              == if last.fiscalYear == Label(y) && q == own then Plus(QuarterSum(sales[..|sales| - 1], y, q), Only(last))
                 else QuarterSum(sales[..|sales| - 1], y, q)
    {
      SelectedByItsQuarter(last, y, q);
      RegisterAppend(sales, Label(y), QuarterBounds(y, q));
    }
    assert own == 1 || own == 2 || own == 3 || own == 4;
  }

  lemma {:induction false} SumsAgree(sales: seq<Invoice>, y: nat)
    requires Labelled(sales) && y >= 100
    ensures FourQuarters(sales, y) == YearSum(sales, y)
  {
    hide IndianFiscalYear, Label, QuarterBounds;
    if sales != [] {
      SumsAgree(sales[..|sales| - 1], y);
      OneMoreRow(sales, y);
    }
  }

  lemma ExportOfQuarter(sales: seq<Invoice>, y: nat, q: nat)
    requires y >= 1 && 1 <= q <= 4
    ensures ExportSalesRegister(sales, Query(Label(y), QuarterName(q), None, None)) == Some(QuarterSum(sales, y, q))
  {
    hide SumOf, Register, Label, QuarterRange, QuarterDateRange;
    RangeOfLabel(y, q);
  }

  /// The four quarterly registers of a year report every invoice of its annual register exactly once:
  /// the counts and every column add up.
  lemma QuartersAddUp(sales: seq<Invoice>, y: nat)
    requires Labelled(sales) && y >= 100
    ensures
      var year := ExportSalesRegister(sales, Query(Label(y), "", None, None));
      var q1 := ExportSalesRegister(sales, Query(Label(y), "Q1", None, None));
      var q2 := ExportSalesRegister(sales, Query(Label(y), "Q2", None, None));
      var q3 := ExportSalesRegister(sales, Query(Label(y), "Q3", None, None));
      var q4 := ExportSalesRegister(sales, Query(Label(y), "Q4", None, None));
      && q1.Some? && q2.Some? && q3.Some? && q4.Some?
      && year == Some(Plus(Plus(q1.value, q2.value), Plus(q3.value, q4.value)))
  {
    hide SumOf, Register, Label, QuarterBounds, IndianFiscalYear, QuarterDateRange;
    ExportOfQuarter(sales, y, 1);
    ExportOfQuarter(sales, y, 2);
    ExportOfQuarter(sales, y, 3);
    ExportOfQuarter(sales, y, 4);
    SumsAgree(sales, y);
  }
}
