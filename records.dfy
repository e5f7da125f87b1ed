/**
 * Time-sheet records and the export's filter: each stored record (every
 * field display text) either becomes a numeric row of the report or is
 * silently skipped.
 */
module Records {
  import opened Options
  import opened Text
  import opened Numbers
  import opened Times

  /** The placeholder a record's date shows until a date is picked. */
  const DateUnset: string := "选择日期"
  /** The placeholders of the two time fields until a time is picked. */
  const StartUnset: string := "开始时间"
  const EndUnset: string := "结束时间"

  /** A record as the project store keeps it: every field is the text the row shows. */
  datatype Record = Record(
    date: string,
    plateName: string,
    startTime: string,
    endTime: string,
    overtime: string,
    rate: string,
    amount: string)

  /** A record the export kept, with its numbers parsed; hours are fractional. */
  datatype Row = Row(
    date: string,
    plateName: string,
    workHours: real,
    overtime: real,
    totalHours: real,
    rate: real,
    amount: real)

  /** `(end - start).total_seconds() / 3600` for two times of the same day: negative when end is earlier. */
  function WorkHours(start: nat, end: nat): (h: real)
    ensures h * 3600.0 == end as real - start as real
  {
    (end as real - start as real) / 3600.0
  }

  /**
   * The body of the export's loop over records: a record is kept exactly when
   * its date is set, its name is non-empty, both times parse and the overtime,
   * amount and rate all parse; the amount kept is the stored one, never
   * recomputed from the rate.
   */
  function ParseRecord(r: Record): (row: Option<Row>)
    ensures row.Some? <==>
      && r.date != DateUnset
      && r.plateName != ""
      && ParseTime(r.startTime).Some? && ParseTime(r.endTime).Some?
      && ParseNumber(r.overtime).Some? && ParseNumber(r.amount).Some? && ParseNumber(r.rate).Some?
    ensures row.Some? ==>
      && row.value.date == r.date && row.value.plateName == r.plateName
      && row.value.amount == ParseNumber(r.amount).value
      && row.value.rate == ParseNumber(r.rate).value
      && row.value.overtime == ParseNumber(r.overtime).value
      && row.value.workHours * 3600.0 == ParseTime(r.endTime).value as real - ParseTime(r.startTime).value as real
      && row.value.totalHours == row.value.workHours + row.value.overtime
  {
    if r.date != DateUnset && r.plateName != "" then
      var start :- ParseTime(r.startTime);
      var end :- ParseTime(r.endTime);
      var overtime :- ParseNumber(r.overtime);
      var workHours := WorkHours(start, end);
      var amount :- ParseNumber(r.amount);
      var rate :- ParseNumber(r.rate);
      Some(Row(r.date, r.plateName, workHours, overtime, workHours + overtime, rate, amount))
    else
      None
  }

  /** The rows the export keeps, in record order. */
  function KeptRows(rs: seq<Record>): seq<Row> {
    if rs == [] then []
    else
      KeptRows(rs[..|rs| - 1]) + match ParseRecord(rs[|rs| - 1]) { case Some(row) => [row] case None => [] }
  }

  /** The filter pass of the export (`data.append` for each record that parses). */
  method BuildData(records: seq<Record>) returns (data: seq<Row>)
    ensures data == KeptRows(records)
  {
    data := [];
    for i := 0 to |records|
      invariant data == KeptRows(records[..i])
    {
      assert records[..i + 1][..i] == records[..i];
      match ParseRecord(records[i]) {
        case Some(row) => data := data + [row];
        case None =>
      }
    }
    assert records[..|records|] == records;
  }

  /** The filter works record by record: the rows of a concatenation are the concatenated rows. */
  lemma {:induction false} KeptRowsConcat(a: seq<Record>, b: seq<Record>)
    ensures KeptRows(a + b) == KeptRows(a) + KeptRows(b)
  {
    if b != [] {
      var b' := b[..|b| - 1];
      assert (a + b)[..|a + b| - 1] == a + b';
      assert (a + b)[|a + b| - 1] == b[|b| - 1];
      KeptRowsConcat(a, b');
    } else {
      assert a + b == a;
    }
  }

  /** One record contributes its parsed row, or nothing. */
  lemma {:induction false} KeptRowsSingle(r: Record)
    ensures KeptRows([r]) == match ParseRecord(r) { case Some(row) => [row] case None => [] }
  {
    assert [r][..0] == [];
  }

  /** A skipped record contributes nothing: removing it leaves the export's rows unchanged. */
  lemma {:induction false} SkippedRecordContributesNothing(a: seq<Record>, r: Record, b: seq<Record>)
    requires ParseRecord(r) == None
    ensures KeptRows(a + [r] + b) == KeptRows(a + b)
  {
    KeptRowsConcat(a + [r], b);
    KeptRowsConcat(a, [r]);
    KeptRowsSingle(r);
    KeptRowsConcat(a, b);
  }

  /** Every kept row comes from a record with a set date and a non-empty name. */
  lemma {:induction false} KeptRowsAreLabelled(rs: seq<Record>)
    ensures |KeptRows(rs)| <= |rs|
    ensures forall row :: row in KeptRows(rs) ==> row.date != DateUnset && row.plateName != ""
  {
    if rs != [] {
      KeptRowsAreLabelled(rs[..|rs| - 1]);
    }
  }

}
