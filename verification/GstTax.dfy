/// GST in integer paise: the split of a line between central, state and integrated tax, the totals
/// of an invoice, the taxable part of a tax-inclusive price, and tax deducted at source.
module GstTax {
  import opened Common
  import opened Decimal

  // ----- State codes ----------------------------------------------------------------------------

  datatype TaxError = InvalidStateCode | InvalidGstin | InvalidRate | NegativeAmount | DivisionByZero

  /// The white space and line terminators that `trim` removes.
  predicate IsSpace(c: char) {
    var n := c as int;
    || 9 <= n <= 13 || n == 32 || n == 0xA0 || n == 0x1680 || 0x2000 <= n <= 0x200A
    || n == 0x2028 || n == 0x2029 || n == 0x202F || n == 0x205F || n == 0x3000 || n == 0xFEFF
  }

  lemma SomeSpaces()
    ensures IsSpace(' ') && IsSpace('\t') && IsSpace('\n') && IsSpace('\r') && !IsSpace('0') && !IsSpace('-')
  {
  }

  function TrimStart(s: string): (r: string)
    ensures |r| <= |s| && (r == "" || !IsSpace(r[0]))
  {
    if s != "" && IsSpace(s[0]) then TrimStart(s[1..]) else s
  }

  function TrimEnd(s: string): (r: string)
    ensures r <= s && (r == "" || !IsSpace(r[|r| - 1]))
  {
    if s != "" && IsSpace(s[|s| - 1]) then TrimEnd(s[..|s| - 1]) else s
  }

  function Trim(s: string): string {
    TrimEnd(TrimStart(s))
  }

  /// One or two digits, padded to two.
  function NormalizeStateCode(code: string): (r: Result<string, TaxError>)
    ensures r.Ok? <==> 1 <= |Trim(code)| <= 2 && AllDigits(Trim(code))
    ensures r.Ok? ==> |r.value| == 2 && AllDigits(r.value)
    ensures r.Err? ==> r.error == InvalidStateCode
  {
    var c := Trim(code);
    if (|c| == 1 || |c| == 2) && AllDigits(c) then Ok(if |c| == 1 then "0" + c else c) else Err(InvalidStateCode)
  }

  function StateCodeFromGstin(gstin: string): (r: Result<string, TaxError>) {
    var g := Upper(Trim(gstin));
    if |g| < 2 then Err(InvalidGstin) else Ok(g[..2])
  }

  lemma NormalizeIsIdempotent(code: string)
    requires NormalizeStateCode(code).Ok?
    ensures NormalizeStateCode(NormalizeStateCode(code).value) == NormalizeStateCode(code)
  {
    var c := NormalizeStateCode(code).value;
    assert !IsSpace(c[0]) && !IsSpace(c[1]);
    assert Trim(c) == c;
  }

  lemma ReadTwo(c: string)
    requires AllDigits(c)
    ensures |c| == 1 ==> Read(c) == DigitValue(c[0])
    ensures |c| == 2 ==> Read(c) == 10 * DigitValue(c[0]) + DigitValue(c[1])
  {
    if |c| == 1 || |c| == 2 {
      assert c[..|c| - 1] == if |c| == 2 then [c[0]] else [];
    }
  }

  /// Two spellings name the same state exactly when they are the same number.
  lemma SameStateIffSameNumber(a: string, b: string)
    requires NormalizeStateCode(a).Ok? && NormalizeStateCode(b).Ok?
    ensures NormalizeStateCode(a) == NormalizeStateCode(b) <==> Read(Trim(a)) == Read(Trim(b))
  {
    hide *;
    NumberOfCode(a);
    NumberOfCode(b);
    SameDigits(NormalizeStateCode(a).value, NormalizeStateCode(b).value);
  }

  lemma NumberOfCode(code: string)
    requires NormalizeStateCode(code).Ok?
    ensures AllDigits(Trim(code)) && |NormalizeStateCode(code).value| == 2 && AllDigits(NormalizeStateCode(code).value)
    ensures Read(Trim(code)) == Read(NormalizeStateCode(code).value)
  {
    ReadTwo(Trim(code));
    ReadTwo(NormalizeStateCode(code).value);
  }

  lemma SameDigits(x: string, y: string)
    requires |x| == |y| == 2 && AllDigits(x) && AllDigits(y)
    ensures x == y <==> Read(x) == Read(y)
  {
    ReadTwo(x);
    ReadTwo(y);
    assert Digit(DigitValue(x[0])) == x[0] && Digit(DigitValue(x[1])) == x[1];
    assert Digit(DigitValue(y[0])) == y[0] && Digit(DigitValue(y[1])) == y[1];
    assert x == [x[0], x[1]] && y == [y[0], y[1]];
  }

  // ----- One line ----------------------------------------------------------------------------------

  datatype Line = Line(taxablePaise: int, gstRateBps: Number)

  datatype Split = Split(
    taxablePaise: int, cgstPaise: int, sgstPaise: int, igstPaise: int, totalGstPaise: int, totalPaise: int,
    isInterState: bool)

  function Bps(line: Line): int {
    if line.gstRateBps.Whole? then line.gstRateBps.n else 0
  }

  /// The nearest paise, a half going up.
  function GstOnTaxable(taxable: int, rate: Number): (r: Result<int, TaxError>)
    ensures r.Ok? <==> rate.Whole? && rate.n >= 0 && taxable >= 0
    ensures r.Ok? ==> r.value >= 0 && -5000 < 10000 * r.value - taxable * rate.n <= 5000
    ensures r.Err? ==> r.error == if rate.NotWhole? || rate.n < 0 then InvalidRate else NegativeAmount
  {
    if rate.NotWhole? || rate.n < 0 then Err(InvalidRate)
    else if taxable < 0 then Err(NegativeAmount)
    else
      assert taxable * rate.n >= 0;
      Ok((taxable * rate.n + 5000) / 10000)
  }

  function ComputeGstSplit(line: Line, supplierStateCode: string, placeOfSupply: string): Result<Split, TaxError> {
    var supplier := NormalizeStateCode(supplierStateCode);
    if supplier.Err? then Err(supplier.error) else
    var place := NormalizeStateCode(placeOfSupply);
    if place.Err? then Err(place.error) else
    var gst := GstOnTaxable(line.taxablePaise, line.gstRateBps);
    if gst.Err? then Err(gst.error) else
    var (taxable, tax) := (line.taxablePaise, gst.value);
    if supplier.value != place.value then Ok(Split(taxable, 0, 0, tax, tax, taxable + tax, true))
    else Ok(Split(taxable, tax - tax / 2, tax / 2, 0, tax, taxable + tax, false))
  }

  // ----- An invoice ----------------------------------------------------------------------------------

  datatype InvoiceGst = InvoiceGst(totals: Split, lines: seq<Split>)

  function Plus(a: Split, b: Split): Split {
    Split(a.taxablePaise + b.taxablePaise, a.cgstPaise + b.cgstPaise, a.sgstPaise + b.sgstPaise, a.igstPaise + b.igstPaise,
          a.totalGstPaise + b.totalGstPaise, a.totalPaise + b.totalPaise, a.isInterState)
  }

  /// Column by column, the sum of the line splits.
  function Sum(lines: seq<Split>, isInterState: bool): Split {
    if lines == [] then Split(0, 0, 0, 0, 0, 0, isInterState)
    else Plus(Sum(lines[..|lines| - 1], isInterState), lines[|lines| - 1])
  }

  /// Every line split on its own, or the error of the first line that cannot be.
  function SplitLines(lines: seq<Line>, supplierStateCode: string, placeOfSupply: string): (r: Result<seq<Split>, TaxError>)
    ensures r.Ok? ==> |r.value| == |lines|
    ensures r.Ok? ==> forall i | 0 <= i < |lines| ::
      ComputeGstSplit(lines[i], supplierStateCode, placeOfSupply) == Ok(r.value[i])
    ensures r.Err? ==> exists i | 0 <= i < |lines| ::
      ComputeGstSplit(lines[i], supplierStateCode, placeOfSupply) == Err(r.error)
  {
    if lines == [] then Ok([]) else
    var front := SplitLines(lines[..|lines| - 1], supplierStateCode, placeOfSupply);
    if front.Err? then front else
    match ComputeGstSplit(lines[|lines| - 1], supplierStateCode, placeOfSupply)
    case Err(e) => Err(e)
    case Ok(split) => Ok(front.value + [split])
  }

  /// The error reported is that of the first line that cannot be split.
  lemma {:induction false} FirstBadLine(lines: seq<Line>, supplierStateCode: string, placeOfSupply: string) returns (i: nat)
    requires SplitLines(lines, supplierStateCode, placeOfSupply).Err?
    ensures i < |lines|
    ensures ComputeGstSplit(lines[i], supplierStateCode, placeOfSupply)
            == Err(SplitLines(lines, supplierStateCode, placeOfSupply).error)
    ensures forall j | 0 <= j < i :: ComputeGstSplit(lines[j], supplierStateCode, placeOfSupply).Ok?
  {
    hide ComputeGstSplit;
    var n := |lines| - 1;
    if SplitLines(lines[..n], supplierStateCode, placeOfSupply).Err? {
      i := FirstBadLine(lines[..n], supplierStateCode, placeOfSupply);
    } else {
      i := n;
    }
  }

  predicate InterState(supplierStateCode: string, placeOfSupply: string) {
    NormalizeStateCode(supplierStateCode) != NormalizeStateCode(placeOfSupply)
  }

  /// The reference: split the lines, then add the splits up.
  function InvoiceOf(lines: seq<Line>, supplierStateCode: string, placeOfSupply: string): Result<InvoiceGst, TaxError> {
    if NormalizeStateCode(supplierStateCode).Err? || NormalizeStateCode(placeOfSupply).Err? then Err(InvalidStateCode) else
    match SplitLines(lines, supplierStateCode, placeOfSupply)
    case Err(e) => Err(e)
    case Ok(splits) => Ok(InvoiceGst(Sum(splits, InterState(supplierStateCode, placeOfSupply)), splits))
  }

  lemma NormalizedCodesSplitAlike(line: Line, supplierStateCode: string, placeOfSupply: string)
    requires NormalizeStateCode(supplierStateCode).Ok? && NormalizeStateCode(placeOfSupply).Ok?
    ensures ComputeGstSplit(line, NormalizeStateCode(supplierStateCode).value, NormalizeStateCode(placeOfSupply).value)
            == ComputeGstSplit(line, supplierStateCode, placeOfSupply)
  {
    NormalizeIsIdempotent(supplierStateCode);
    NormalizeIsIdempotent(placeOfSupply);
  }

  lemma {:induction false} ErrorStays(lines: seq<Line>, n: nat, supplierStateCode: string, placeOfSupply: string)
    requires n <= |lines| && SplitLines(lines[..n], supplierStateCode, placeOfSupply).Err?
    ensures SplitLines(lines, supplierStateCode, placeOfSupply) == SplitLines(lines[..n], supplierStateCode, placeOfSupply)
  {
    if n == |lines| {
      assert lines[..n] == lines;
    } else {
      assert lines[..|lines| - 1][..n] == lines[..n];
      ErrorStays(lines[..|lines| - 1], n, supplierStateCode, placeOfSupply);
    }
  }

  /// The accumulators after the first `n` lines.
  ghost predicate PassedOver(lines: seq<Line>, n: nat, supplierStateCode: string, placeOfSupply: string,
                             splits: seq<Split>, taxable: int, cgst: int, sgst: int, igst: int) {
    && n <= |lines|
    && SplitLines(lines[..n], supplierStateCode, placeOfSupply) == Ok(splits)
    && Sum(splits, InterState(supplierStateCode, placeOfSupply))
       == Split(taxable, cgst, sgst, igst, cgst + sgst + igst, taxable + cgst + sgst + igst,
                InterState(supplierStateCode, placeOfSupply))
  }

  lemma CodesDecide(lines: seq<Line>, supplierStateCode: string, placeOfSupply: string)
    ensures
      var supplier, place := NormalizeStateCode(supplierStateCode), NormalizeStateCode(placeOfSupply);
      && (supplier.Err? ==> InvoiceOf(lines, supplierStateCode, placeOfSupply) == Err(supplier.error))
      && (place.Err? ==> InvoiceOf(lines, supplierStateCode, placeOfSupply) == Err(place.error))
      && (supplier.Ok? && place.Ok? ==> InterState(supplierStateCode, placeOfSupply) == (supplier.value != place.value))
  {
  }

  lemma PassStart(lines: seq<Line>, supplierStateCode: string, placeOfSupply: string)
    ensures PassedOver(lines, 0, supplierStateCode, placeOfSupply, [], 0, 0, 0, 0)
  {
  }

  lemma SplitOneMore(lines: seq<Line>, n: nat, supplierStateCode: string, placeOfSupply: string, splits: seq<Split>, split: Split)
    requires n < |lines| && SplitLines(lines[..n], supplierStateCode, placeOfSupply) == Ok(splits)
    requires ComputeGstSplit(lines[n], supplierStateCode, placeOfSupply) == Ok(split)
    ensures SplitLines(lines[..n + 1], supplierStateCode, placeOfSupply) == Ok(splits + [split])
  {
    hide ComputeGstSplit;
    assert lines[..n + 1][..n] == lines[..n];
  }

  lemma SumOneMore(splits: seq<Split>, split: Split, line: Line, isInterState: bool, taxable: int, cgst: int, sgst: int, igst: int)
    requires SplitOf(split, line, isInterState)
    requires Sum(splits, isInterState)
             == Split(taxable, cgst, sgst, igst, cgst + sgst + igst, taxable + cgst + sgst + igst, isInterState)
    ensures
      var (t, c, s, i) := (taxable + split.taxablePaise, cgst + split.cgstPaise, sgst + split.sgstPaise, igst + split.igstPaise);
      Sum(splits + [split], isInterState) == Split(t, c, s, i, c + s + i, t + c + s + i, isInterState)
  {
    assert (splits + [split])[..|splits|] == splits;
  }

  lemma PassStep(lines: seq<Line>, n: nat, supplierStateCode: string, placeOfSupply: string,
                 splits: seq<Split>, taxable: int, cgst: int, sgst: int, igst: int, split: Split)
    requires n < |lines| && PassedOver(lines, n, supplierStateCode, placeOfSupply, splits, taxable, cgst, sgst, igst)
    requires ComputeGstSplit(lines[n], supplierStateCode, placeOfSupply) == Ok(split)
    ensures PassedOver(lines, n + 1, supplierStateCode, placeOfSupply, splits + [split], taxable + split.taxablePaise,
                       cgst + split.cgstPaise, sgst + split.sgstPaise, igst + split.igstPaise)
  {
    hide ComputeGstSplit, NormalizeStateCode, InterState, SplitLines, Sum, SplitOf;
    SplitIsFair(lines[n], supplierStateCode, placeOfSupply);
    SplitOneMore(lines, n, supplierStateCode, placeOfSupply, splits, split);
    SumOneMore(splits, split, lines[n], InterState(supplierStateCode, placeOfSupply), taxable, cgst, sgst, igst);
  }

  lemma PassFails(lines: seq<Line>, n: nat, supplierStateCode: string, placeOfSupply: string,
                  splits: seq<Split>, taxable: int, cgst: int, sgst: int, igst: int, e: TaxError)
    requires NormalizeStateCode(supplierStateCode).Ok? && NormalizeStateCode(placeOfSupply).Ok?
    requires n < |lines| && PassedOver(lines, n, supplierStateCode, placeOfSupply, splits, taxable, cgst, sgst, igst)
    requires ComputeGstSplit(lines[n], supplierStateCode, placeOfSupply) == Err(e)
    ensures InvoiceOf(lines, supplierStateCode, placeOfSupply) == Err(e)
  {
    hide ComputeGstSplit, NormalizeStateCode;
    assert lines[..n + 1][..n] == lines[..n];
    ErrorStays(lines, n + 1, supplierStateCode, placeOfSupply);
  }

  lemma PassEnd(lines: seq<Line>, supplierStateCode: string, placeOfSupply: string,
                splits: seq<Split>, taxable: int, cgst: int, sgst: int, igst: int)
    requires NormalizeStateCode(supplierStateCode).Ok? && NormalizeStateCode(placeOfSupply).Ok?
    requires PassedOver(lines, |lines|, supplierStateCode, placeOfSupply, splits, taxable, cgst, sgst, igst)
    ensures InvoiceOf(lines, supplierStateCode, placeOfSupply)
            == Ok(InvoiceGst(Split(taxable, cgst, sgst, igst, cgst + sgst + igst, taxable + cgst + sgst + igst,
                                   InterState(supplierStateCode, placeOfSupply)), splits))
  {
    assert lines[..|lines|] == lines;
  }

  /// The code's one pass: four accumulators beside the list of splits.
  method ComputeInvoiceGst(lines: seq<Line>, supplierStateCode: string, placeOfSupply: string)
    returns (r: Result<InvoiceGst, TaxError>)
    ensures r == InvoiceOf(lines, supplierStateCode, placeOfSupply)
  {
    hide *;
    CodesDecide(lines, supplierStateCode, placeOfSupply);
    var supplier := NormalizeStateCode(supplierStateCode);
    if supplier.Err? {
      return Err(supplier.error);
    }
    var place := NormalizeStateCode(placeOfSupply);
    if place.Err? {
      return Err(place.error);
    }
    var isInterState := supplier.value != place.value;
    var taxable, cgst, sgst, igst := 0, 0, 0, 0;
    var splits: seq<Split> := [];
    PassStart(lines, supplierStateCode, placeOfSupply);
    for i := 0 to |lines|
      invariant PassedOver(lines, i, supplierStateCode, placeOfSupply, splits, taxable, cgst, sgst, igst)
    {
      var split := ComputeGstSplit(lines[i], supplier.value, place.value);
      NormalizedCodesSplitAlike(lines[i], supplierStateCode, placeOfSupply);
      if split.Err? {
        PassFails(lines, i, supplierStateCode, placeOfSupply, splits, taxable, cgst, sgst, igst, split.error);
        return Err(split.error);
      }
      PassStep(lines, i, supplierStateCode, placeOfSupply, splits, taxable, cgst, sgst, igst, split.value);
      taxable := taxable + split.value.taxablePaise;
      cgst := cgst + split.value.cgstPaise;
      sgst := sgst + split.value.sgstPaise;
      igst := igst + split.value.igstPaise;
      splits := splits + [split.value];
    }
    PassEnd(lines, supplierStateCode, placeOfSupply, splits, taxable, cgst, sgst, igst);
    var totalGst := cgst + sgst + igst;
    return Ok(InvoiceGst(Split(taxable, cgst, sgst, igst, totalGst, taxable + totalGst, isInterState), splits));
  }

  predicate Valid(lines: seq<Line>) {
    forall i | 0 <= i < |lines| :: lines[i].taxablePaise >= 0 && Bps(lines[i]) >= 0 && lines[i].gstRateBps.Whole?
  }

  /// An invoice is computed exactly when both codes are well formed, every rate is a whole
  /// number and no line is negative.
  lemma {:induction false} AcceptedIff(lines: seq<Line>, supplierStateCode: string, placeOfSupply: string)
    ensures InvoiceOf(lines, supplierStateCode, placeOfSupply).Ok?
            <==> NormalizeStateCode(supplierStateCode).Ok? && NormalizeStateCode(placeOfSupply).Ok? && Valid(lines)
  {
    if NormalizeStateCode(supplierStateCode).Ok? && NormalizeStateCode(placeOfSupply).Ok? {
      var r := SplitLines(lines, supplierStateCode, placeOfSupply);
      forall i | 0 <= i < |lines|
        ensures ComputeGstSplit(lines[i], supplierStateCode, placeOfSupply).Ok?
                <==> lines[i].taxablePaise >= 0 && Bps(lines[i]) >= 0 && lines[i].gstRateBps.Whole?
      {
      }
    }
  }

  /// What the tax would be without rounding, in ten-thousandths of a paise.
  function ExactTax(lines: seq<Line>): int {
    if lines == [] then 0
    else ExactTax(lines[..|lines| - 1]) + lines[|lines| - 1].taxablePaise * Bps(lines[|lines| - 1])
  }

  function TaxableOf(lines: seq<Line>): int {
    if lines == [] then 0 else TaxableOf(lines[..|lines| - 1]) + lines[|lines| - 1].taxablePaise
  }

  predicate SplitOf(split: Split, line: Line, interState: bool) {
    && split.taxablePaise == line.taxablePaise
    && split.isInterState == interState
    && split.totalGstPaise == split.cgstPaise + split.sgstPaise + split.igstPaise
    && split.totalPaise == split.taxablePaise + split.totalGstPaise
    && -5000 < 10000 * split.totalGstPaise - line.taxablePaise * Bps(line) <= 5000
    && (if interState then split.cgstPaise == split.sgstPaise == 0 <= split.igstPaise
        else split.igstPaise == 0 <= split.sgstPaise <= split.cgstPaise <= split.sgstPaise + 1)
  }

  lemma SplitIsFair(line: Line, supplierStateCode: string, placeOfSupply: string)
    ensures
      var r := ComputeGstSplit(line, supplierStateCode, placeOfSupply);
      r.Ok? ==> SplitOf(r.value, line, InterState(supplierStateCode, placeOfSupply))
  {
  }

  lemma {:induction false} SumOfFairSplits(splits: seq<Split>, lines: seq<Line>, interState: bool)
    requires |splits| == |lines| && forall i | 0 <= i < |lines| :: SplitOf(splits[i], lines[i], interState)
    ensures
      var totals, n := Sum(splits, interState), |lines|;
      && totals.taxablePaise == TaxableOf(lines)
      && totals.totalGstPaise == totals.cgstPaise + totals.sgstPaise + totals.igstPaise
      && totals.totalPaise == totals.taxablePaise + totals.totalGstPaise
      && -5000 * n <= 10000 * totals.totalGstPaise - ExactTax(lines) <= 5000 * n
      && (if interState then totals.cgstPaise == totals.sgstPaise == 0 <= totals.igstPaise
          else totals.igstPaise == 0 <= totals.sgstPaise <= totals.cgstPaise <= totals.sgstPaise + n)
  {
    if lines != [] {
      var n := |lines| - 1;
      SumOfFairSplits(splits[..n], lines[..n], interState);
      assert SplitOf(splits[n], lines[n], interState);
    }
  }

  /// Between states an invoice carries only integrated tax; within a state central tax exceeds state
  /// tax by at most a paise a line; and however many lines and rates, the tax is within half a paise
  /// a line of the exact tax.
  lemma {:induction false} InvoiceTotals(lines: seq<Line>, supplierStateCode: string, placeOfSupply: string)
    requires InvoiceOf(lines, supplierStateCode, placeOfSupply).Ok?
    ensures
      var totals := InvoiceOf(lines, supplierStateCode, placeOfSupply).value.totals;
      && totals.isInterState == InterState(supplierStateCode, placeOfSupply)
      && totals.taxablePaise == TaxableOf(lines)
      && totals.totalGstPaise == totals.cgstPaise + totals.sgstPaise + totals.igstPaise
      && totals.totalPaise == totals.taxablePaise + totals.totalGstPaise
      && -5000 * |lines| <= 10000 * totals.totalGstPaise - ExactTax(lines) <= 5000 * |lines|
      && (if totals.isInterState then totals.cgstPaise == totals.sgstPaise == 0 <= totals.igstPaise
          else totals.igstPaise == 0 <= totals.sgstPaise <= totals.cgstPaise <= totals.sgstPaise + |lines|)
  {
    var splits := SplitLines(lines, supplierStateCode, placeOfSupply).value;
    var interState := InterState(supplierStateCode, placeOfSupply);
    forall i | 0 <= i < |lines|
      ensures SplitOf(splits[i], lines[i], interState)
    {
      SplitIsFair(lines[i], supplierStateCode, placeOfSupply);
    }
    SumOfFairSplits(splits, lines, interState);
    assert Sum(splits, interState).isInterState == interState by {
      SumKeepsFlag(splits, interState);
    }
  }

  lemma {:induction false} SumKeepsFlag(splits: seq<Split>, interState: bool)
    ensures Sum(splits, interState).isInterState == interState
  {
    if splits != [] {
      SumKeepsFlag(splits[..|splits| - 1], interState);
    }
  }

  lemma {:induction false} ExactTaxAtOneRate(lines: seq<Line>, rate: int)
    requires forall i | 0 <= i < |lines| :: lines[i].gstRateBps == Whole(rate)
    ensures ExactTax(lines) == rate * TaxableOf(lines)
  {
    if lines != [] {
      ExactTaxAtOneRate(lines[..|lines| - 1], rate);
    }
  }

  /// At a uniform rate the tax is within half a paise a line of the rate on the whole.
  lemma UniformRate(lines: seq<Line>, rate: int, supplierStateCode: string, placeOfSupply: string)
    requires InvoiceOf(lines, supplierStateCode, placeOfSupply).Ok?
    requires forall i | 0 <= i < |lines| :: lines[i].gstRateBps == Whole(rate)
    ensures
      var totals := InvoiceOf(lines, supplierStateCode, placeOfSupply).value.totals;
      -5000 * |lines| <= 10000 * totals.totalGstPaise - rate * totals.taxablePaise <= 5000 * |lines|
  {
    InvoiceTotals(lines, supplierStateCode, placeOfSupply);
    ExactTaxAtOneRate(lines, rate);
  }

  function HalfPaiseLines(n: nat): seq<Line> {
    if n == 0 then [] else HalfPaiseLines(n - 1) + [Line(1, Whole(5000))]
  }

  lemma {:induction false} HalfPaiseLinesAre(n: nat)
    ensures |HalfPaiseLines(n)| == n && forall i | 0 <= i < n :: HalfPaiseLines(n)[i] == Line(1, Whole(5000))
    ensures TaxableOf(HalfPaiseLines(n)) == n
  {
    if n > 0 {
      HalfPaiseLinesAre(n - 1);
      assert HalfPaiseLines(n)[..n - 1] == HalfPaiseLines(n - 1);
    }
  }

  lemma {:induction false} EachPaysOne(splits: seq<Split>, interState: bool)
    requires forall i | 0 <= i < |splits| :: splits[i].totalGstPaise == 1
    ensures Sum(splits, interState).totalGstPaise == |splits|
  {
    if splits != [] {
      EachPaysOne(splits[..|splits| - 1], interState);
    }
  }

  /// The bound is reached for every number of lines, since each line is rounded on its own.
  lemma {:induction false} UniformRateIsTight(n: nat, supplierStateCode: string, placeOfSupply: string)
    requires NormalizeStateCode(supplierStateCode).Ok? && NormalizeStateCode(placeOfSupply).Ok?
    ensures
      var r := InvoiceOf(HalfPaiseLines(n), supplierStateCode, placeOfSupply);
      r.Ok? && 10000 * r.value.totals.totalGstPaise - 5000 * r.value.totals.taxablePaise == 5000 * |HalfPaiseLines(n)|
  {
    hide NormalizeStateCode, SplitLines, Sum, ComputeGstSplit, InterState;
    HalfPaiseLinesAre(n);
    var lines := HalfPaiseLines(n);
    AcceptedIff(lines, supplierStateCode, placeOfSupply);
    InvoiceTotals(lines, supplierStateCode, placeOfSupply);
    var splits := SplitLines(lines, supplierStateCode, placeOfSupply).value;
    forall i | 0 <= i < n
      ensures splits[i].totalGstPaise == 1
    {
      SplitIsFair(lines[i], supplierStateCode, placeOfSupply);
      assert ComputeGstSplit(lines[i], supplierStateCode, placeOfSupply) == Ok(splits[i]);
    }
    EachPaysOne(splits, InterState(supplierStateCode, placeOfSupply));
  }

  // ----- Backing tax out of a gross price -----------------------------------------------------------

  /// Division of big integers truncates toward zero; only the divisor can be negative here.
  /// The division drops what is left over, towards zero.
  function TaxableFromGrossInclusive(gross: int, rate: Number): (r: Result<int, TaxError>)
    ensures r.Ok? <==> gross >= 0 && rate.Whole? && rate.n != -10000
    ensures r.Ok? && rate.n > -10000 ==> 0 <= gross * 10000 - r.value * (10000 + rate.n) < 10000 + rate.n
    ensures r.Ok? && rate.n < -10000 ==> 0 <= gross * 10000 - r.value * (10000 + rate.n) < -10000 - rate.n
    ensures r.Err? ==> r.error == if gross < 0 then NegativeAmount else if rate.NotWhole? then InvalidRate else DivisionByZero
  {
    if gross < 0 then Err(NegativeAmount)
    else if rate.NotWhole? then Err(InvalidRate) else
    var denominator := 10000 + rate.n;
    if denominator == 0 then Err(DivisionByZero)
    else if denominator < 0 then Ok(-(gross * 10000 / -denominator))
    else Ok(gross * 10000 / denominator)
  }

  /// The price charged again after backing out the tax and adding it back.
  function Recharged(gross: nat, rate: nat): int {
    var taxable := gross * 10000 / (10000 + rate);
    taxable + (taxable * rate + 5000) / 10000
  }

  lemma RechargedIsTheRoundTrip(gross: nat, rate: nat)
    ensures
      var taxable := TaxableFromGrossInclusive(gross, Whole(rate));
      && taxable.Ok? && taxable.value >= 0 && GstOnTaxable(taxable.value, Whole(rate)).Ok?
      && taxable.value + GstOnTaxable(taxable.value, Whole(rate)).value == Recharged(gross, rate)
  {
    assert gross * 10000 / (10000 + rate) >= 0;
  }

  /// How much is lost, for every rate.
  lemma RoundTripLoss(gross: nat, rate: nat)
    ensures gross - Recharged(gross, rate) == (gross * 10000 % (10000 + rate) + 4999) / 10000
  {
    var d := 10000 + rate;
    var taxable, rest := gross * 10000 / d, gross * 10000 % d;
    assert gross * 10000 == d * taxable + rest;
    assert d * taxable == 10000 * taxable + taxable * rate;
    var x := taxable * rate;
    assert x == 10000 * gross - rest - 10000 * taxable;
    assert (x + 5000) / 10000 == gross - taxable + (5000 - rest) / 10000;
  }

  /// Backing the tax out of a gross price never overcharges, and is exact exactly when the
  /// remainder of the division is at most 5000.
  lemma GrossRoundTrip(gross: nat, rate: nat)
    ensures Recharged(gross, rate) <= gross
    ensures Recharged(gross, rate) == gross <==> gross * 10000 % (10000 + rate) <= 5000
    ensures rate <= 5001 ==> gross - 1 <= Recharged(gross, rate)
  {
    RoundTripLoss(gross, rate);
    var d := 10000 + rate;
    assert 0 <= gross * 10000 % d < d;
  }

  /// From 50.03 % on the loss can be two paise.
  lemma GrossRoundTripBeyond()
    ensures Recharged(2501, 5003) == 2499
  {
    assert 2501 * 10000 / 15003 == 1666;
    assert (1666 * 5003 + 5000) / 10000 == 833;
  }

  /// The other way round, for every rate: the tax backs out to the taxable amount or one less.
  lemma TaxableRoundTrip(taxable: nat, rate: nat)
    ensures
      var back := (taxable + (taxable * rate + 5000) / 10000) * 10000 / (10000 + rate);
      && back == taxable - (if (taxable * rate + 5000) % 10000 <= 5000 then 0 else 1)
  {
    var d, x := 10000 + rate, taxable * rate;
    var gst, rest := (x + 5000) / 10000, (x + 5000) % 10000;
    var gross := taxable + gst;
    assert gross * 10000 == d * taxable + (5000 - rest) by {
      assert d * taxable == 10000 * taxable + x;
    }
    if rest <= 5000 {
      QuotientIs(gross * 10000, d, taxable, 5000 - rest);
    } else {
      assert d * (taxable - 1) == d * taxable - d;
      QuotientIs(gross * 10000, d, taxable - 1, d + 5000 - rest);
    }
  }

  lemma QuotientIs(x: int, d: nat, q: int, r: nat)
    requires r < d && x == d * q + r
    ensures x / d == q
  {
    var p, k := x / d, q - x / d;
    assert x == d * p + x % d;
    assert d * k == d * q - d * p;
    Multiples(d, k);
  }

  lemma Multiples(d: nat, k: int)
    ensures k >= 1 ==> d * k >= d
    ensures k <= -1 ==> d * k + d <= 0
  {
  }

  // ----- Tax deducted at source -------------------------------------------------------------------------

  datatype Tds = Tds(amountPaise: int, netPaise: int)

  function ComputeTds(payment: int, rate: Number): Result<Tds, TaxError> {
    if payment < 0 then Err(NegativeAmount)
    else if rate.NotWhole? || rate.n < 0 then Err(InvalidRate)
    else
      var tds := (payment * rate.n + 5000) / 10000;
      Ok(Tds(tds, payment - tds))
  }

  /// The deduction is the rate to the nearest paise, what is left is the rest of the payment, and
  /// something is left exactly when the rate does not overshoot the payment by half a paise.
  lemma TdsConserves(payment: int, rate: int)
    requires payment >= 0 && rate >= 0
    ensures ComputeTds(payment, NotWhole).Err? && ComputeTds(payment, Whole(-1 - rate)).Err?
    ensures
      var r := ComputeTds(payment, Whole(rate));
      && r.Ok? && r.value.amountPaise + r.value.netPaise == payment && 0 <= r.value.amountPaise
      && -5000 < 10000 * r.value.amountPaise - payment * rate <= 5000
      && (r.value.netPaise >= 0 <==> payment * rate < 10000 * payment + 5000)
      && (rate <= 10000 ==> r.value.netPaise >= 0)
  {
    assert payment * rate >= 0;
    if rate <= 10000 {
      assert payment * rate <= payment * 10000;
    }
  }
}
