/**
 * The totals the project screen shows while records are edited: the number
 * of distinct dates, the hours and the amount. They follow their own rules,
 * looser than the export's filter: a date counts whatever else the record
 * holds, hours count whenever both times parse (an unparsable overtime
 * counting as 0), and an amount counts whenever it parses.
 */
module LiveTotals {
  import opened Options
  import opened Text
  import opened Numbers
  import opened Times
  import opened Records
  import opened Grouping

  /** The dates that count as days: every date that is not the placeholder. */
  function LiveDates(rs: seq<Record>): set<string> {
    if rs == [] then {}
    else
      var last := rs[|rs| - 1];
      LiveDates(rs[..|rs| - 1]) + (if last.date != DateUnset then {last.date} else {})
  }

  /** `float(s)` where it parses, 0 where it raises. */
  function NumberOr0(s: string): (v: real)
    ensures ParseNumber(s).Some? ==> v == ParseNumber(s).value
    ensures ParseNumber(s).None? ==> v == 0.0
  {
    match ParseNumber(s)
    case Some(v) => v
    case None => 0.0
  }

  /** The hours one record adds: none unless both times are set and parse; its overtime, or 0. */
  function HoursOf(r: Record): Option<real> {
    if r.startTime != StartUnset && r.endTime != EndUnset && ParseTime(r.startTime).Some? && ParseTime(r.endTime).Some? then
      Some(WorkHours(ParseTime(r.startTime).value, ParseTime(r.endTime).value) + NumberOr0(r.overtime))
    else
      None
  }

  /** Hours added over the records, in order. */
  function LiveHours(rs: seq<Record>): real {
    if rs == [] then 0.0
    else LiveHours(rs[..|rs| - 1]) + HoursOf(rs[|rs| - 1]).GetOr(0.0)
  }

  /** Amounts added over the records, in order: every amount that parses. */
  function LiveAmount(rs: seq<Record>): real {
    if rs == [] then 0.0
    else LiveAmount(rs[..|rs| - 1]) + NumberOr0(rs[|rs| - 1].amount)
  }

  /** One more record adds its date, its hours and its amount to the running totals. */
  lemma {:induction false} LiveSnoc(rs: seq<Record>, r: Record)
    ensures LiveDates(rs + [r]) == LiveDates(rs) + (if r.date != DateUnset then {r.date} else {})
    ensures LiveHours(rs + [r]) == LiveHours(rs) + HoursOf(r).GetOr(0.0)
    ensures LiveAmount(rs + [r]) == LiveAmount(rs) + NumberOr0(r.amount)
  {
    assert (rs + [r])[..|rs|] == rs;
  }

  /** The running totals over the first `i + 1` records are those over the first `i`, plus record `i`. */
  lemma {:induction false} LivePrefix(rs: seq<Record>, i: nat)
    requires i < |rs|
    ensures LiveDates(rs[..i + 1]) == LiveDates(rs[..i]) + (if rs[i].date != DateUnset then {rs[i].date} else {})
    ensures LiveHours(rs[..i + 1]) == LiveHours(rs[..i]) + HoursOf(rs[i]).GetOr(0.0)
    ensures LiveAmount(rs[..i + 1]) == LiveAmount(rs[..i]) + NumberOr0(rs[i].amount)
  {
    assert rs[..i + 1] == rs[..i] + [rs[i]];
    LiveSnoc(rs[..i], rs[i]);
  }

  /** The three texts the screen shows. */
  datatype Totals = Totals(days: string, hours: string, amount: string)

  /** `str(total_days)`, `f"{total_hours:.2f}"`, `f"{total_amount:.2f}"`. */
  function TotalsOf(days: nat, hours: real, amount: real): Totals {
    Totals(NatToString(days), FormatAmount(hours), FormatAmount(amount))
  }

  function TotalsText(rs: seq<Record>): Totals {
    TotalsOf(|LiveDates(rs)|, LiveHours(rs), LiveAmount(rs))
  }

  /** A day is counted exactly when some record carries that date and it is not the placeholder. */
  lemma {:induction false} LiveDatesMembers(rs: seq<Record>)
    ensures forall d :: d in LiveDates(rs) <==> d != DateUnset && exists i :: 0 <= i < |rs| && rs[i].date == d
    ensures |LiveDates(rs)| <= |rs|
  {
    if rs != [] {
      var init := rs[..|rs| - 1];
      LiveDatesMembers(init);
      forall d ensures d in LiveDates(rs) <==> d != DateUnset && exists i :: 0 <= i < |rs| && rs[i].date == d {
        if d in LiveDates(init) {
          var i :| 0 <= i < |init| && init[i].date == d;
          assert rs[i].date == d;
        }
        if d != DateUnset && exists i :: 0 <= i < |rs| && rs[i].date == d {
          var i :| 0 <= i < |rs| && rs[i].date == d;
          if i < |init| {
            assert init[i].date == d;
          }
        }
      }
    }
  }

  /** The placeholders never parse as times, so the sentinel test in front of the parse adds nothing. */
  lemma {:induction false} HoursNeedBothTimes(r: Record)
    ensures HoursOf(r).Some? <==> ParseTime(r.startTime).Some? && ParseTime(r.endTime).Some?
    ensures HoursOf(r).Some? ==>
      HoursOf(r).value * 3600.0 == ParseTime(r.endTime).value as real - ParseTime(r.startTime).value as real
                                   + NumberOr0(r.overtime) * 3600.0
  {
    NoColonNoTime(StartUnset);
    NoColonNoTime(EndUnset);
  }

  /** The export keeps only records with a set date, so every exported date is a counted day. */
  lemma {:induction false} ExportDatesAreDays(rs: seq<Record>)
    ensures DatesOf(KeptRows(rs)) <= LiveDates(rs)
  {
    if rs != [] {
      var init := rs[..|rs| - 1];
      ExportDatesAreDays(init);
      var last := rs[|rs| - 1];
      var k := KeptRows(init);
      if ParseRecord(last).Some? {
        var row := ParseRecord(last).value;
        assert KeptRows(rs) == k + [row];
        DatesSnoc(k, row);
        assert row.date == last.date != DateUnset;
        assert LiveDates(rs) == LiveDates(init) + {last.date};
      } else {
        assert KeptRows(rs) == k;
      }
    }
  }

  /**
   * When every record passes the export's filter, the live totals and the
   * export agree: the same days, the same hours, the same amount.
   */
  lemma {:induction false} AllKeptAgrees(rs: seq<Record>)
    requires forall i :: 0 <= i < |rs| ==> ParseRecord(rs[i]).Some?
    ensures DatesOf(KeptRows(rs)) == LiveDates(rs)
    ensures SumOf(KeptRows(rs), Hours) == LiveHours(rs)
    ensures SumOf(KeptRows(rs), Amount) == LiveAmount(rs)
  {
    if rs != [] {
      var init := rs[..|rs| - 1];
      var last := rs[|rs| - 1];
      assert forall i :: 0 <= i < |init| ==> init[i] == rs[i];
      AllKeptAgrees(init);
      var row := ParseRecord(last).value;
      var k := KeptRows(init);
      assert KeptRows(rs) == k + [row];
      DatesSnoc(k, row);
      SumSnoc(k, row, Hours);
      SumSnoc(k, row, Amount);
      HoursNeedBothTimes(last);
      assert HoursOf(last).value * 3600.0 == row.totalHours * 3600.0;
    }
  }

  /**
   * Where the two rules part: a record whose times and amount parse but
   * whose overtime does not is dropped by the export, yet its work hours
   * and its amount still count in the live totals.
   */
  lemma {:induction false} BadOvertimeCountsLive(rs: seq<Record>, r: Record)
    requires ParseTime(r.startTime).Some? && ParseTime(r.endTime).Some?
    requires ParseNumber(r.overtime).None? && ParseNumber(r.amount).Some?
    ensures KeptRows(rs + [r]) == KeptRows(rs)
    ensures LiveHours(rs + [r]) == LiveHours(rs) + WorkHours(ParseTime(r.startTime).value, ParseTime(r.endTime).value)
    ensures LiveAmount(rs + [r]) == LiveAmount(rs) + ParseNumber(r.amount).value
  {
    assert (rs + [r])[..|rs|] == rs;
    HoursNeedBothTimes(r);
  }

  /** A record with no date picked adds nothing to days or to the export, but its amount still counts. */
  lemma {:induction false} UnsetDateCountsLive(rs: seq<Record>, r: Record)
    requires r.date == DateUnset
    ensures KeptRows(rs + [r]) == KeptRows(rs)
    ensures LiveDates(rs + [r]) == LiveDates(rs)
    ensures LiveAmount(rs + [r]) == LiveAmount(rs) + NumberOr0(r.amount)
  {
    assert (rs + [r])[..|rs|] == rs;
  }
}
