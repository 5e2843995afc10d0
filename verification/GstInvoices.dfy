/// The GST invoice table: creation with computed tax, numbering within a series, and the invoice that
/// goes with a paid subscription.
module GstInvoices {
  import opened Common
  import opened Decimal
  import opened GstTax
  import opened FiscalCalendar

  datatype Link = Company(id: string) | SaasInvoice(id: string) | Customer(id: string) | Vendor(id: string)

  /// The request; fields that are only copied into the row are left out.
  datatype Request = Request(
    companyId: Option<string>, saasInvoiceId: Option<string>, customerId: Option<string>, vendorId: Option<string>,
    supplierGstin: string, supplierStateCode: Option<string>, buyerStateCode: string, placeOfSupply: Option<string>,
    items: seq<Line>, invoiceDate: int, seriesPrefix: Option<string>)

  datatype Invoice = Invoice(
    tenant: string, number: string, seriesPrefix: string, fiscalYear: string, invoiceDate: int,
    supplierStateCode: string, buyerStateCode: string, placeOfSupply: string, saasInvoiceId: Option<string>,
    gst: InvoiceGst)

  datatype CreateError = NotFound(link: Link) | Tax(error: TaxError) | UniqueViolation

  // ----- Numbers ------------------------------------------------------------------------------------

  function CountSeries(table: seq<Invoice>, tenant: string, prefix: string, fiscalYear: string): nat {
    if table == [] then 0 else
    var last := table[|table| - 1];
    CountSeries(table[..|table| - 1], tenant, prefix, fiscalYear)
    + if last.tenant == tenant && last.seriesPrefix == prefix && last.fiscalYear == fiscalYear then 1 else 0
  }

  function PadStart(s: string, length: nat): (r: string)
    ensures AllDigits(s) ==> AllDigits(r)
    decreases if length > |s| then length - |s| else 0
  {
    if |s| < length then PadStart("0" + s, length) else s
  }

  function AfterHyphen(s: string): string {
    if s == "" then "" else if s[0] == '-' then s[1..] else AfterHyphen(s[1..])
  }

  /// 2025-26 becomes 2526.
  function Short(fiscalYear: string): string {
    LastTwo(BeforeHyphen(fiscalYear)) + BeforeHyphen(AfterHyphen(fiscalYear))
  }

  function NumberOf(prefix: string, fiscalYear: string, sequence: nat): string {
    prefix + "/" + Short(fiscalYear) + "/" + PadStart(Show(sequence), 6)
  }

  function NextNumber(table: seq<Invoice>, tenant: string, prefix: string, fiscalYear: string): string {
    NumberOf(prefix, fiscalYear, CountSeries(table, tenant, prefix, fiscalYear) + 1)
  }

  /// The unique columns: the number within its tenant, the subscription invoice among all tenants.
  predicate Storable(table: seq<Invoice>, invoice: Invoice) {
    forall i | 0 <= i < |table| ::
      && !(table[i].tenant == invoice.tenant && table[i].number == invoice.number)
      && (invoice.saasInvoiceId.Some? ==> table[i].saasInvoiceId != invoice.saasInvoiceId)
  }

  // ----- Operations ------------------------------------------------------------------------------------

  /// Each link that is given must belong to the tenant, checked in this order.
  function MissingLink(related: set<(string, Link)>, tenant: string, r: Request): (missing: Option<Link>)
    ensures missing.Some? ==> (tenant, missing.value) !in related
    ensures missing.None? <==>
      && (Linked(r.companyId) ==> (tenant, Company(r.companyId.value)) in related)
      && (Linked(r.saasInvoiceId) ==> (tenant, SaasInvoice(r.saasInvoiceId.value)) in related)
      && (Linked(r.customerId) ==> (tenant, Customer(r.customerId.value)) in related)
      && (Linked(r.vendorId) ==> (tenant, Vendor(r.vendorId.value)) in related)
    ensures missing.Some? && !missing.value.Company? && Linked(r.companyId) ==>
      (tenant, Company(r.companyId.value)) in related
    ensures missing.Some? && (missing.value.Customer? || missing.value.Vendor?) && Linked(r.saasInvoiceId) ==>
      (tenant, SaasInvoice(r.saasInvoiceId.value)) in related
    ensures missing.Some? && missing.value.Vendor? && Linked(r.customerId) ==>
      (tenant, Customer(r.customerId.value)) in related
  {
    if Linked(r.companyId) && (tenant, Company(r.companyId.value)) !in related then Some(Company(r.companyId.value))
    else if Linked(r.saasInvoiceId) && (tenant, SaasInvoice(r.saasInvoiceId.value)) !in related then
      Some(SaasInvoice(r.saasInvoiceId.value))
    else if Linked(r.customerId) && (tenant, Customer(r.customerId.value)) !in related then
      Some(Customer(r.customerId.value))
    else if Linked(r.vendorId) && (tenant, Vendor(r.vendorId.value)) !in related then Some(Vendor(r.vendorId.value))
    else None
  }

  predicate Linked(id: Option<string>) {
    id.Some? && id.value != ""
  }

  function SupplierState(r: Request): Result<string, TaxError> {
    if r.supplierStateCode.Some? then NormalizeStateCode(r.supplierStateCode.value) else
    var prefix := StateCodeFromGstin(r.supplierGstin);
    if prefix.Err? then prefix else NormalizeStateCode(prefix.value)
  }

  function OrElse(o: Option<string>, default: string): string {
    if o.Some? then o.value else default
  }

  /// The row to be inserted, numbered after the invoices counted in `table`.
  function Draft(related: set<(string, Link)>, table: seq<Invoice>, tenant: string, r: Request): Result<Invoice, CreateError> {
    var missing := MissingLink(related, tenant, r);
    if missing.Some? then Err(NotFound(missing.value)) else
    var supplier, buyer := SupplierState(r), NormalizeStateCode(r.buyerStateCode);
    var place := NormalizeStateCode(OrElse(r.placeOfSupply, r.buyerStateCode));
    if supplier.Err? then Err(Tax(supplier.error))
    else if buyer.Err? then Err(Tax(buyer.error))
    else if place.Err? then Err(Tax(place.error))
    else
      var gst := InvoiceOf(r.items, supplier.value, place.value);
      if gst.Err? then Err(Tax(gst.error)) else
      var fiscalYear, prefix := IndianFiscalYear(r.invoiceDate), Upper(OrElse(r.seriesPrefix, "INV"));
      Ok(Invoice(tenant, NextNumber(table, tenant, prefix, fiscalYear), prefix, fiscalYear, r.invoiceDate,
                 supplier.value, buyer.value, place.value, r.saasInvoiceId, gst.value))
  }

  function Inserted(table: seq<Invoice>, invoice: Invoice): (Result<Invoice, CreateError>, seq<Invoice>) {
    if Storable(table, invoice) then (Ok(invoice), table + [invoice]) else (Err(UniqueViolation), table)
  }

  function Created(related: set<(string, Link)>, table: seq<Invoice>, tenant: string, r: Request)
    : (Result<Invoice, CreateError>, seq<Invoice>)
  {
    var draft := Draft(related, table, tenant, r);
    if draft.Err? then (draft, table) else Inserted(table, draft.value)
  }

  function FindSaas(table: seq<Invoice>, tenant: string, saasId: string): (r: Option<nat>)
    ensures r.Some? ==> r.value < |table| && table[r.value].tenant == tenant && table[r.value].saasInvoiceId == Some(saasId)
    ensures forall i | 0 <= i < |table| && table[i].tenant == tenant && table[i].saasInvoiceId == Some(saasId) ::
      r.Some? && r.value <= i
  {
    if table == [] then None else
    var n := |table| - 1;
    var found := FindSaas(table[..n], tenant, saasId);
    assert forall i | 0 <= i < n :: table[..n][i] == table[i];
    if found.Some? then found
    else if table[n].tenant == tenant && table[n].saasInvoiceId == Some(saasId) then Some(n)
    else None
  }

  const SAAS_GST_RATE_BPS := 1800

  const TWO_53 := 0x20_0000_0000_0000

  /// The distance between neighbouring doubles around `n`.
  function Spacing(n: nat): (u: nat)
    ensures u >= 1 && (n < TWO_53 ==> u == 1) && (n >= TWO_53 ==> u >= 2)
  {
    if n < TWO_53 then 1 else 2 * Spacing(n / 2)
  }

  /// `Number(n)` for a big integer, and back: the nearest double, ties to the even neighbour.
  function ToDouble(n: int): (d: int)
    ensures n < TWO_53 ==> d == n
  {
    if n < TWO_53 then n else
    var u := Spacing(n);
    var q, r := n / u, n % u;
    if 2 * r < u || (2 * r == u && q % 2 == 0) then q * u else (q + 1) * u
  }

  /// Doubles around `n` lie at the multiples of its spacing, which leaves 53 binary digits.
  lemma {:induction false} SpacingIs(n: nat)
    requires n >= TWO_53
    ensures TWO_53 / 2 * Spacing(n) <= n < TWO_53 * Spacing(n)
    decreases n
  {
    if n / 2 >= TWO_53 {
      SpacingIs(n / 2);
    }
  }

  /// The conversion goes to the nearest of them, and from half-way to the even one.
  lemma ToDoubleIsNearest(n: nat) returns (k: nat)
    requires n >= TWO_53
    ensures ToDouble(n) == k * Spacing(n)
    ensures 2 * (ToDouble(n) - n) <= Spacing(n) && 2 * (n - ToDouble(n)) <= Spacing(n)
    ensures 2 * (ToDouble(n) - n) == Spacing(n) || 2 * (n - ToDouble(n)) == Spacing(n) ==> k % 2 == 0
  {
    hide Spacing;
    var u := Spacing(n);
    var q, r := n / u, n % u;
    assert n == q * u + r && (q + 1) * u == q * u + u;
    k := if 2 * r < u || (2 * r == u && q % 2 == 0) then q else q + 1;
  }

  /// A paid subscription: the amount is gross of tax.
  datatype Paid = Paid(
    tenant: string, saasInvoiceId: string, amountPaise: int, supplierGstin: string, supplierStateCode: Option<string>,
    buyerStateCode: string, companyId: Option<string>)

  function SaasRequest(p: Paid, taxable: int, now: int): Request {
    Request(p.companyId, Some(p.saasInvoiceId), None, None, p.supplierGstin, p.supplierStateCode, p.buyerStateCode,
            Some(p.buyerStateCode), [Line(taxable, Whole(SAAS_GST_RATE_BPS))], now, Some("SAAS"))
  }

  function CreatedFromSaas(related: set<(string, Link)>, table: seq<Invoice>, p: Paid, now: int)
    : (Result<Invoice, CreateError>, seq<Invoice>)
  {
    var existing := FindSaas(table, p.tenant, p.saasInvoiceId);
    if existing.Some? then (Ok(table[existing.value]), table) else
    var taxable := TaxableFromGrossInclusive(p.amountPaise, Whole(SAAS_GST_RATE_BPS));
    if taxable.Err? then (Err(Tax(taxable.error)), table)
    else Created(related, table, p.tenant, SaasRequest(p, ToDouble(taxable.value), now))
  }

  class GstInvoiceService {
    const related: set<(string, Link)>
    var table: seq<Invoice>

    constructor (related: set<(string, Link)>)
      ensures this.related == related && table == []
    {
      this.related := related;
      table := [];
    }

    method NextInvoiceNumber(tenant: string, prefix: string, fiscalYear: string) returns (number: string)
      ensures number == NextNumber(table, tenant, prefix, fiscalYear)
    {
      var count := CountSeries(table, tenant, prefix, fiscalYear);
      var sequence := PadStart(Show(count + 1), 6);
      number := prefix + "/" + Short(fiscalYear) + "/" + sequence;
    }

    method Create(tenant: string, r: Request) returns (result: Result<Invoice, CreateError>)
      modifies this
      ensures (result, table) == Created(related, old(table), tenant, r)
    {
      var missing := MissingLink(related, tenant, r);
      if missing.Some? {
        return Err(NotFound(missing.value));
      }
      var supplier := SupplierState(r);
      if supplier.Err? {
        return Err(Tax(supplier.error));
      }
      var buyer := NormalizeStateCode(r.buyerStateCode);
      if buyer.Err? {
        return Err(Tax(buyer.error));
      }
      var place := NormalizeStateCode(OrElse(r.placeOfSupply, r.buyerStateCode));
      if place.Err? {
        return Err(Tax(place.error));
      }
      hide InvoiceOf, IndianFiscalYear, NormalizeStateCode, SupplierState, Upper, MissingLink;
      var gst := ComputeInvoiceGst(r.items, supplier.value, place.value);
      if gst.Err? {
        return Err(Tax(gst.error));
      }
      var fiscalYear := IndianFiscalYear(r.invoiceDate);
      var prefix := Upper(OrElse(r.seriesPrefix, "INV"));
      var number := NextInvoiceNumber(tenant, prefix, fiscalYear);
      var invoice := Invoice(tenant, number, prefix, fiscalYear, r.invoiceDate, supplier.value, buyer.value, place.value,
                             r.saasInvoiceId, gst.value);
      if !Storable(table, invoice) {
        return Err(UniqueViolation);
      }
      table := table + [invoice];
      return Ok(invoice);
    }

    method CreateFromSaasInvoice(p: Paid, now: int) returns (result: Result<Invoice, CreateError>)
      modifies this
      ensures (result, table) == CreatedFromSaas(related, old(table), p, now)
    {
      var existing := FindSaas(table, p.tenant, p.saasInvoiceId);
      if existing.Some? {
        return Ok(table[existing.value]);
      }
      var taxable := TaxableFromGrossInclusive(p.amountPaise, Whole(SAAS_GST_RATE_BPS));
      if taxable.Err? {
        return Err(Tax(taxable.error));
      }
      result := Create(p.tenant, SaasRequest(p, ToDouble(taxable.value), now));
    }
  }
}
