/// What a created GST invoice says, column by column of the request, and exactly when one is created.
module GstDrafts {
  import opened Common
  import opened Decimal
  import opened GstTax
  import opened FiscalCalendar
  import opened GstInvoices

  // ----- The codes and the text a request stands for ------------------------------------------------------

  /// The supplier's state: the one given, or else the first two characters of the GSTIN.
  function SupplierText(r: Request): Option<string> {
    match r.supplierStateCode
    case Some(code) => Some(code)
    case None => if |Trim(r.supplierGstin)| < 2 then None else Some(Upper(Trim(r.supplierGstin))[..2])
  }

  /// The place of supply: the one given, or else the buyer's state.
  function PlaceText(r: Request): string {
    match r.placeOfSupply
    case Some(place) => place
    case None => r.buyerStateCode
  }

  function PrefixText(r: Request): string {
    match r.seriesPrefix
    case Some(prefix) => prefix
    case None => "INV"
  }

  lemma SupplierIs(r: Request)
    ensures SupplierText(r).None? ==> SupplierState(r) == Err(InvalidGstin)
    ensures SupplierText(r).Some? ==> SupplierState(r) == NormalizeStateCode(SupplierText(r).value)
  {
    hide NormalizeStateCode, Trim;
    UpperIs(Trim(r.supplierGstin));
  }

  /// A draft is made exactly when every link given is the tenant's, all three codes are well formed and no
  /// line is negative or has a rate that is not whole.
  lemma DraftedIff(related: set<(string, Link)>, table: seq<Invoice>, tenant: string, r: Request)
    ensures Draft(related, table, tenant, r).Ok? <==>
      && MissingLink(related, tenant, r).None?
      && SupplierText(r).Some? && NormalizeStateCode(SupplierText(r).value).Ok?
      && NormalizeStateCode(r.buyerStateCode).Ok? && NormalizeStateCode(PlaceText(r)).Ok?
      && Valid(r.items)
  {
    hide NormalizeStateCode, Trim, Valid, InvoiceOf, NextNumber, MissingLink, SupplierState, IndianFiscalYear;
    SupplierIs(r);
    var supplier, place := SupplierState(r), NormalizeStateCode(PlaceText(r));
    if supplier.Ok? && place.Ok? {
      NormalizeIsIdempotent(SupplierText(r).value);
      NormalizeIsIdempotent(PlaceText(r));
      AcceptedIff(r.items, supplier.value, place.value);
    }
  }

  /// What it says: the tenant, date, link and three states of the request; the prefix in capitals; its own
  /// fiscal year; the number after the series so far; and for each item the split between those states.
  lemma DraftFollowsRequest(related: set<(string, Link)>, table: seq<Invoice>, tenant: string, r: Request)
    requires Draft(related, table, tenant, r).Ok?
    ensures SupplierText(r).Some?
    ensures
      var v := Draft(related, table, tenant, r).value;
      && v.tenant == tenant && v.invoiceDate == r.invoiceDate && v.saasInvoiceId == r.saasInvoiceId
      && NormalizeStateCode(SupplierText(r).value) == Ok(v.supplierStateCode)
      && NormalizeStateCode(r.buyerStateCode) == Ok(v.buyerStateCode)
      && NormalizeStateCode(PlaceText(r)) == Ok(v.placeOfSupply)
      && v.seriesPrefix == Upper(PrefixText(r)) && v.fiscalYear == IndianFiscalYear(r.invoiceDate)
      && v.number == v.seriesPrefix + "/" + Short(v.fiscalYear) + "/"
                     + PadStart(Show(CountSeries(table, tenant, v.seriesPrefix, v.fiscalYear) + 1), 6)
      && |v.gst.lines| == |r.items|
      && (forall i | 0 <= i < |r.items| ::
            ComputeGstSplit(r.items[i], v.supplierStateCode, v.placeOfSupply) == Ok(v.gst.lines[i]))
  {
    hide NormalizeStateCode, Trim, MissingLink, SupplierState, IndianFiscalYear, Upper, Short, PadStart, Show, CountSeries,
      ComputeGstSplit;
    SupplierIs(r);
  }

  /// Creation adds exactly that row at the end of the table, unless its number is taken within the tenant or
  /// its subscription invoice has one already; otherwise nothing changes.
  lemma CreatedIs(related: set<(string, Link)>, table: seq<Invoice>, tenant: string, r: Request)
    ensures
      var (draft, (result, after)) := (Draft(related, table, tenant, r), Created(related, table, tenant, r));
      if draft.Err? then result == draft && after == table
      else if exists i | 0 <= i < |table| ::
                || (table[i].tenant == draft.value.tenant && table[i].number == draft.value.number)
                || (draft.value.saasInvoiceId.Some? && table[i].saasInvoiceId == draft.value.saasInvoiceId)
        then result == Err(UniqueViolation) && after == table
      else result == draft && after == table + [draft.value]
  {
    hide Draft;
  }

  /// The invoice of a paid subscription is a sale to the buyer's state, in the series SAAS, with one line of
  /// 18 %, dated now.
  lemma SaasFollowsPayment(related: set<(string, Link)>, table: seq<Invoice>, p: Paid, now: int)
    requires FindSaas(table, p.tenant, p.saasInvoiceId).None? && CreatedFromSaas(related, table, p, now).0.Ok?
    ensures
      var v := CreatedFromSaas(related, table, p, now).0.value;
      && v.tenant == p.tenant && v.invoiceDate == now && v.saasInvoiceId == Some(p.saasInvoiceId)
      && NormalizeStateCode(p.buyerStateCode) == Ok(v.buyerStateCode) && v.placeOfSupply == v.buyerStateCode
      && (p.supplierStateCode.Some? ==> NormalizeStateCode(p.supplierStateCode.value) == Ok(v.supplierStateCode))
      && v.seriesPrefix == "SAAS" && |v.gst.lines| == 1
      && p.amountPaise >= 0
      && ComputeGstSplit(Line(ToDouble(p.amountPaise * 10000 / 11800), Whole(1800)), v.supplierStateCode, v.placeOfSupply)
         == Ok(v.gst.lines[0])
  {
    hide NormalizeStateCode, MissingLink, Draft, IndianFiscalYear, ToDouble, FindSaas, ComputeGstSplit, Storable, Upper,
      SupplierState, NextNumber, InvoiceOf;
    var r := SaasRequest(p, ToDouble(p.amountPaise * 10000 / 11800), now);
    DraftFollowsRequest(related, table, p.tenant, r);
    SaasIsCapital();
  }

  lemma SaasIsCapital()
    ensures Upper("SAAS") == "SAAS"
  {
  }

  // ----- The width of a number ------------------------------------------------------------------------------

  function Pow10(k: nat): nat {
    if k == 0 then 1 else 10 * Pow10(k - 1)
  }

  lemma {:induction false} ShowWidth(n: nat, k: nat)
    requires k >= 1
    ensures |Show(n)| <= k <==> n < Pow10(k)
    decreases k
  {
    if k == 1 {
      assert Pow10(1) == 10;
    } else if n >= 10 {
      ShowWidth(n / 10, k - 1);
    } else {
      TenPowers(k);
    }
  }

  lemma {:induction false} TenPowers(k: nat)
    requires k >= 1
    ensures Pow10(k) >= 10
  {
    if k > 1 {
      TenPowers(k - 1);
    }
  }

  lemma {:induction false} PaddedWidth(s: string, length: nat)
    ensures |PadStart(s, length)| == Max(|s|, length)
    decreases if length > |s| then length - |s| else 0
  {
    if |s| < length {
      PaddedWidth("0" + s, length);
    }
  }

  /// The place in a series has six digits up to 999999 and as many as it needs beyond.
  lemma SixDigits(n: nat)
    ensures |PadStart(Show(n), 6)| >= 6 && (|PadStart(Show(n), 6)| == 6 <==> n < 1_000_000)
  {
    assert Pow10(6) == 1_000_000 by { assert Pow10(3) == 1000; }
    ShowWidth(n, 6);
    PaddedWidth(Show(n), 6);
  }

  /// What is put in front are zeros.
  lemma {:induction false} PaddedWithZeros(s: string, length: nat)
    ensures
      var (r, k) := (PadStart(s, length), |PadStart(s, length)| - |s|);
      k >= 0 && r[k..] == s && forall i | 0 <= i < k :: r[i] == '0'
    decreases if length > |s| then length - |s| else 0
  {
    if |s| < length {
      PaddedWithZeros("0" + s, length);
      var r := PadStart(s, length);
      var k := |r| - |s|;
      assert r[k - 1..][0] == '0' && r[k - 1..][1..] == s;
    }
  }

  lemma ShortOf2025()
    ensures Short("2025-26") == "2526"
  {
    var year := "2025-26";
    assert year[1..] == "025-26" && year[1..][1..] == "25-26" && year[1..][1..][1..] == "5-26";
    assert BeforeHyphen("5-26") == "5" && BeforeHyphen("25-26") == "25" && BeforeHyphen("025-26") == "025";
    assert AfterHyphen("5-26") == "26" && BeforeHyphen(year) == "2025" && LastTwo("2025") == "25";
    assert BeforeHyphen("6") == "6" && BeforeHyphen("26") == "26";
  }

  /// The seventh invoice of the series INV in 2025-26.
  lemma SeventhOf2025()
    ensures NumberOf("INV", "2025-26", 7) == "INV/2526/000007"
  {
    hide Short;
    ShortOf2025();
    assert Show(7) == "7";
    PaddedWidth("7", 6);
    PaddedWithZeros("7", 6);
    hide PadStart;
    var r := PadStart("7", 6);
    assert r == r[..5] + r[5..] && r[..5] == "00000";
  }
}
