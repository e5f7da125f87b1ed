/**
 * A record row's own amount: once both times are picked, the row sets its
 * amount text to `f"{total_hours * rate:.2f}"`, overtime counting as 0 when
 * it does not parse, and leaves it alone when a time or the rate does not
 * parse.
 */
module RowAmounts {
  import opened Options
  import opened Numbers
  import opened Times
  import opened Records
  import opened LiveTotals

  /** `total_hours`: the work hours plus the overtime, which counts as 0 when it does not parse. */
  function RowHours(start: nat, end: nat, overtime: string): real {
    WorkHours(start, end) + NumberOr0(overtime)
  }

  /** `amount = total_hours * rate`. */
  function Amount(totalHours: real, rate: real): real {
    totalHours * rate
  }

  /** The hours including overtime times the rate, once both times and the rate parse. */
  function AmountValue(startTime: string, endTime: string, overtime: string, rate: string): (v: Option<real>)
    ensures v.Some? <==> ParseTime(startTime).Some? && ParseTime(endTime).Some? && ParseNumber(rate).Some?
  {
    if ParseTime(startTime).Some? && ParseTime(endTime).Some? && ParseNumber(rate).Some? then
      Some(Amount(RowHours(ParseTime(startTime).value, ParseTime(endTime).value, overtime), ParseNumber(rate).value))
    else
      None
  }

  /**
   * The amount text `calculate_time_and_amount` writes, or `None` when it
   * writes nothing. It writes exactly when both times and the rate parse (the
   * placeholders never do, so the test for them adds nothing), and it then
   * writes the hours times the rate to the nearest hundredth.
   */
  function AmountText(startTime: string, endTime: string, overtime: string, rate: string): (t: Option<string>)
    ensures t.Some? <==> AmountValue(startTime, endTime, overtime, rate).Some?
    ensures t.Some? ==> t.value == FormatAmount(AmountValue(startTime, endTime, overtime, rate).value)
  {
    NoColonNoTime(StartUnset);
    NoColonNoTime(EndUnset);
    if startTime != StartUnset && endTime != EndUnset then
      match AmountValue(startTime, endTime, overtime, rate)
      case Some(v) => Some(FormatAmount(v))
      case None => None
    else
      None
  }

  /** The amount text parses back to within half a hundredth of the product. */
  lemma {:induction false} AmountTextParses(startTime: string, endTime: string, overtime: string, rate: string)
    requires AmountText(startTime, endTime, overtime, rate).Some?
    ensures ParseNumber(AmountText(startTime, endTime, overtime, rate).value).Some?
    ensures -0.005 <= ParseNumber(AmountText(startTime, endTime, overtime, rate).value).value
                      - AmountValue(startTime, endTime, overtime, rate).value <= 0.005
  {
    StoredAmountRoundTrip(AmountValue(startTime, endTime, overtime, rate).value);
  }

  /**
   * A record whose amount was computed by its row and whose overtime
   * parses is exported with that amount, which is then within half a
   * hundredth of the exported hours times the exported rate.
   */
  lemma {:induction false} ComputedAmountExports(r: Record)
    requires AmountText(r.startTime, r.endTime, r.overtime, r.rate) == Some(r.amount)
    requires r.date != DateUnset && r.plateName != "" && ParseNumber(r.overtime).Some?
    ensures ParseRecord(r).Some?
    ensures -0.005 <= ParseRecord(r).value.amount - ParseRecord(r).value.totalHours * ParseRecord(r).value.rate <= 0.005
  {
    AmountTextParses(r.startTime, r.endTime, r.overtime, r.rate);
    KeptProduct(r, ParseRecord(r).value);
  }

  /** For a kept record, the product the row computes is the exported hours times the exported rate. */
  lemma {:induction false} KeptProduct(r: Record, row: Row)
    requires ParseRecord(r) == Some(row)
    ensures AmountValue(r.startTime, r.endTime, r.overtime, r.rate) == Some(Amount(row.totalHours, row.rate))
  {
    AmountValueOf(r.startTime, r.endTime, r.overtime, r.rate, row.totalHours, row.rate);
  }

  lemma {:induction false} AmountValueOf(startTime: string, endTime: string, overtime: string, rate: string, hours: real, rateValue: real)
    requires ParseTime(startTime).Some? && ParseTime(endTime).Some? && ParseNumber(rate) == Some(rateValue)
    requires hours == RowHours(ParseTime(startTime).value, ParseTime(endTime).value, overtime)
    ensures AmountValue(startTime, endTime, overtime, rate) == Some(Amount(hours, rateValue))
  {
  }
}
