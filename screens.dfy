/**
 * The screens' state and the operations that change it: a record row with
 * its seven texts, the main screen with its projects, and the project
 * screen with its rows, its rate presets and its three totals. Widgets,
 * pickers, dialogs and messages are not state here; a picker's choice
 * arrives as the text it writes.
 */
module Screens {
  import opened Options
  import opened Text
  import opened Numbers
  import opened Times
  import opened Records
  import opened Layout
  import opened Export
  import opened Store
  import opened LiveTotals
  import opened RowAmounts

  /** What a fresh row shows: the three placeholders, an empty name, and "0" in the number fields. */
  const BlankRecord: Record := Record(DateUnset, "", StartUnset, EndUnset, "0", "0", "0")

  /** One editable time-sheet row. */
  class TimeRecordRow {
    var dateText: string
    var plateNameText: string
    var startTimeText: string
    var endTimeText: string
    var overtimeText: string
    var rateText: string
    var amountText: string
    /** Whether `set_parent_screen` has linked the row to its project screen. */
    var hasParent: bool

    constructor ()
      ensures ToRecord() == BlankRecord && !hasParent
    {
      dateText := DateUnset;
      plateNameText := "";
      startTimeText := StartUnset;
      endTimeText := EndUnset;
      overtimeText := "0";
      rateText := "0";
      amountText := "0";
      hasParent := false;
    }

    /** The row as `save_project` stores it. */
    function ToRecord(): Record
      reads this
    {
      Record(dateText, plateNameText, startTimeText, endTimeText, overtimeText, rateText, amountText)
    }

    method SetParentScreen()
      modifies this
      ensures hasParent && ToRecord() == old(ToRecord())
    {
      hasParent := true;
    }

    /**
     * `calculate_time_and_amount`: rewrites the amount when both times and the
     * rate parse, and then asks a linked parent screen to refresh its totals,
     * which `notify` reports.
     */
    method CalculateTimeAndAmount() returns (notify: bool)
      modifies this
      ensures var text := AmountText(old(startTimeText), old(endTimeText), old(overtimeText), old(rateText));
        && ToRecord() == old(ToRecord()).(amount := if text.Some? then text.value else old(amountText))
        && (notify <==> text.Some? && hasParent)
      ensures hasParent == old(hasParent)
    {
      notify := false;
      if startTimeText != StartUnset && endTimeText != EndUnset {
        var start := ParseTime(startTimeText);
        var end := ParseTime(endTimeText);
        if start.Some? && end.Some? {
          var workHours := WorkHours(start.value, end.value);
          var overtime := 0.0;
          match ParseNumber(overtimeText) {
            case Some(v) => overtime := v;
            case None =>
          }
          var totalHours := workHours + overtime;
          match ParseNumber(rateText) {
            case Some(rate) =>
              AmountValueOf(startTimeText, endTimeText, overtimeText, rateText, totalHours, rate);
              var amount := Amount(totalHours, rate);
              amountText := FormatAmount(amount);
              notify := hasParent;
            case None =>
          }
        }
      }
    }

    /**
     * When only this row's fields may have changed, the records of any
     * sequence of rows change only where this row is.
     */
    twostate lemma {:induction false} OnlyThisChanged(rows: seq<TimeRecordRow>)
      requires forall r | r in rows && r != this :: unchanged(r)
      ensures forall j | 0 <= j < |rows| ::
        RecordsOf(rows)[j] == if rows[j] == this then ToRecord() else old(RecordsOf(rows))[j]
    {
      if rows != [] {
        var n := |rows| - 1;
        assert forall r | r in rows[..n] && r != this :: r in rows;
        OnlyThisChanged(rows[..n]);
        assert rows[n] in rows;
      }
    }
  }

  /** The stored records of a sequence of rows, in row order. */
  function RecordsOf(rows: seq<TimeRecordRow>): (rs: seq<Record>)
    reads rows
    ensures |rs| == |rows|
  {
    if rows == [] then [] else RecordsOf(rows[..|rows| - 1]) + [rows[|rows| - 1].ToRecord()]
  }

  /** The record at each position is the row's there. */
  lemma {:induction false} RecordsOfAt(rows: seq<TimeRecordRow>, i: nat)
    requires i < |rows|
    ensures RecordsOf(rows)[i] == rows[i].ToRecord()
  {
    if i < |rows| - 1 {
      RecordsOfAt(rows[..|rows| - 1], i);
    }
  }

  /** One more row adds its record at the end. */
  lemma {:induction false} RecordsOfSnoc(rows: seq<TimeRecordRow>, row: TimeRecordRow)
    ensures RecordsOf(rows + [row]) == RecordsOf(rows) + [row.ToRecord()]
  {
    assert (rows + [row])[..|rows|] == rows;
  }

  /** Rows whose fields all stay as they were hold the same records. */
  twostate lemma {:induction false} RecordsOfKept(rows: seq<TimeRecordRow>)
    requires forall r | r in rows :: unchanged(r)
    ensures RecordsOf(rows) == old(RecordsOf(rows))
  {
    if rows != [] {
      var n := |rows| - 1;
      assert forall r | r in rows[..n] :: r in rows;
      RecordsOfKept(rows[..n]);
      assert rows[n] in rows;
    }
  }

  /** No row appears twice. */
  ghost predicate Distinct(rows: seq<TimeRecordRow>) {
    rows == [] || (rows[|rows| - 1] !in rows[..|rows| - 1] && Distinct(rows[..|rows| - 1]))
  }

  /** In distinct rows, the row at `i` is at no other position. */
  lemma {:induction false} DistinctIndex(rows: seq<TimeRecordRow>, i: nat)
    requires Distinct(rows) && i < |rows|
    ensures forall j | 0 <= j < |rows| && j != i :: rows[j] != rows[i]
  {
    var n := |rows| - 1;
    if i < n {
      DistinctIndex(rows[..n], i);
      assert rows[..n][i] == rows[i];
    } else {
      assert forall j | 0 <= j < n :: rows[..n][j] == rows[j];
    }
  }

  /**
   * One pass of the loop in `update_totals`: the record's date joins the
   * days unless it is the placeholder, its hours join the total when both
   * times are set and parse (an overtime that does not parse adding 0), and
   * its amount joins the total when it parses.
   */
  method Tally(record: Record, dates0: set<string>, hours0: real, amount0: real)
    returns (dates: set<string>, hours: real, amount: real)
    ensures dates == dates0 + (if record.date != DateUnset then {record.date} else {})
    ensures hours == hours0 + HoursOf(record).GetOr(0.0)
    ensures amount == amount0 + NumberOr0(record.amount)
  {
    dates, hours, amount := dates0, hours0, amount0;
    if record.date != DateUnset {
      dates := dates + {record.date};
    }
    if record.startTime != StartUnset && record.endTime != EndUnset {
      var start := ParseTime(record.startTime);
      var end := ParseTime(record.endTime);
      if start.Some? && end.Some? {
        var workHours := WorkHours(start.value, end.value);
        var overtime := 0.0;
        match ParseNumber(record.overtime) {
          case Some(v) => overtime := v;
          case None =>
        }
        hours := hours + (workHours + overtime);
      }
    }
    match ParseNumber(record.amount) {
      case Some(v) => amount := amount + v;
      case None =>
    }
  }

  /** The loop of `update_totals`: the days, hours and amount over the rows' records, in row order. */
  method LiveSums(rows: seq<TimeRecordRow>) returns (uniqueDates: set<string>, totalHours: real, totalAmount: real)
    ensures uniqueDates == LiveDates(RecordsOf(rows))
    ensures totalHours == LiveHours(RecordsOf(rows))
    ensures totalAmount == LiveAmount(RecordsOf(rows))
  {
    ghost var rs := RecordsOf(rows);
    uniqueDates, totalHours, totalAmount := {}, 0.0, 0.0;
    for i := 0 to |rows|
      invariant uniqueDates == LiveDates(rs[..i])
      invariant totalHours == LiveHours(rs[..i])
      invariant totalAmount == LiveAmount(rs[..i])
    {
      var record := rows[i].ToRecord();
      RecordsOfAt(rows, i);
      LivePrefix(rs, i);
      uniqueDates, totalHours, totalAmount := Tally(record, uniqueDates, totalHours, totalAmount);
    }
    assert rs[..|rs|] == rs;
  }

  /** One row of `load_project`: a new row linked to the screen, its seven texts set from the stored record. */
  method LoadedRow(data: Record) returns (row: TimeRecordRow)
    ensures fresh(row) && row.hasParent && row.ToRecord() == data
  {
    row := new TimeRecordRow();
    row.SetParentScreen();
    row.dateText := data.date;
    row.plateNameText := data.plateName;
    row.startTimeText := data.startTime;
    row.endTimeText := data.endTime;
    row.overtimeText := data.overtime;
    row.rateText := data.rate;
    row.amountText := data.amount;
  }

  /** The main screen: every project by name, and the project-name input field. */
  class MainScreen {
    var projects: map<string, Project>
    var nameInput: string

    /** `loaded` is what `projects.json` held; reading the file is not part of this model. */
    constructor (loaded: map<string, Project>)
      ensures projects == loaded && nameInput == ""
    {
      projects := loaded;
      nameInput := "";
    }

    /** `add_project`: refuses a blank or taken name; otherwise adds a new project and clears the input. */
    method AddProject() returns (outcome: AddOutcome)
      modifies this
      ensures outcome == AddOutcomeOf(old(projects), old(nameInput))
      ensures projects == ProjectsAfterAdd(old(projects), old(nameInput))
      ensures nameInput == if outcome.Added? then "" else old(nameInput)
    {
      var name := Strip(nameInput);
      if name == [] {
        return EmptyName;
      }
      if name in projects {
        return DuplicateName;
      }
      projects := projects[name := NewProject];
      nameInput := "";
      outcome := Added(name);
    }

    /** `export_project`: the export pipeline on one project's stored data. */
    method ExportProject(projectName: string, data: Project, timestamp: string) returns (out: ExportOutcome)
      ensures out == NoRecords <==> data.records == []
      ensures out == NoValidRecords <==> data.records != [] && KeptRows(data.records) == []
      ensures out.Exported? ==> SavedReport(out.book, projectName, data.startDate, data.endDate, data.records, timestamp)
    {
      out := ExportRecords(projectName, data.startDate, data.endDate, data.records, timestamp);
    }
  }

  /** The project screen: the open project's rows, the rate presets and the shown totals. */
  class ProjectScreen {
    var projectName: string
    var startDate: string
    var endDate: string
    var timeRecords: seq<TimeRecordRow>
    var rateSettings: map<string, real>
    var totalDaysText: string
    var totalHoursText: string
    var totalAmountText: string
    /** What the rows hold, in row order: the records `save_project` would store. */
    ghost var records: seq<Record>

    /** Every row on the screen is a widget of its own, and `records` is what the rows hold. */
    ghost predicate Valid()
      reads this`timeRecords, this`records, timeRecords
    {
      Distinct(timeRecords) && records == RecordsOf(timeRecords)
    }

    /** The three totals as shown. */
    function Shown(): Totals
      reads this`totalDaysText, this`totalHoursText, this`totalAmountText
    {
      Totals(totalDaysText, totalHoursText, totalAmountText)
    }

    /** `rates` is what `rate_settings.json` held; reading the file is not part of this model. */
    constructor (rates: map<string, real>)
      ensures Valid() && records == []
      ensures projectName == "" && startDate == StartDateUnset && endDate == EndDateUnset
      ensures timeRecords == [] && rateSettings == rates
      ensures Shown() == Totals("0", "0", "0")
    {
      projectName := "";
      startDate := StartDateUnset;
      endDate := EndDateUnset;
      timeRecords := [];
      rateSettings := rates;
      totalDaysText := "0";
      totalHoursText := "0";
      totalAmountText := "0";
      records := [];
    }

    /** `update_totals`: the three totals of the rows, under the live rules. */
    method UpdateTotals()
      requires Valid()
      modifies this`totalDaysText, this`totalHoursText, this`totalAmountText
      ensures Valid() && Shown() == TotalsText(records)
      ensures unchanged(this`projectName, this`startDate, this`endDate)
    {
      var uniqueDates, totalHours, totalAmount := LiveSums(timeRecords);
      var totals := TotalsOf(|uniqueDates|, totalHours, totalAmount);
      totalDaysText, totalHoursText, totalAmountText := totals.days, totals.hours, totals.amount;
      ValidKept(this);
    }

    /** `save_project`: stores the date range and a snapshot of every row under the project's name. */
    method SaveProject(main: MainScreen)
      requires Valid()
      modifies main
      ensures main.projects == old(main.projects)[projectName := Project(startDate, endDate, records)]
      ensures main.nameInput == old(main.nameInput)
    {
      ghost var rs := records;
      var rows := timeRecords;
      var snapshot: seq<Record> := [];
      for i := 0 to |rows|
        modifies {}
        invariant snapshot == rs[..i]
      {
        RecordsOfAt(rows, i);
        assert rs[..i + 1] == rs[..i] + [rs[i]];
        snapshot := snapshot + [rows[i].ToRecord()];
      }
      assert rs[..|rs|] == rs;
      main.projects := main.projects[projectName := Project(startDate, endDate, snapshot)];
    }

    /**
     * `load_project`: opens the named project (an unknown name opens an empty
     * one with unset dates), one new linked row per stored record, then
     * refreshes the totals.
     */
    method LoadProject(main: MainScreen, name: string)
      modifies this`projectName, this`startDate, this`endDate, this`timeRecords, this`records
      modifies this`totalDaysText, this`totalHoursText, this`totalAmountText
      ensures Valid() && Shown() == TotalsText(records)
      ensures var p := ProjectNamed(main.projects, name);
        projectName == name && startDate == p.startDate && endDate == p.endDate && records == p.records
      ensures forall r :: r in timeRecords ==> fresh(r) && r.hasParent
    {
      var p := ProjectNamed(main.projects, name);
      projectName, startDate, endDate := name, p.startDate, p.endDate;
      LoadRows(p.records);
      UpdateTotals();
    }

    /** The rows `load_project` builds: one new linked row per stored record, in order, replacing the old rows. */
    method LoadRows(stored: seq<Record>)
      modifies this`timeRecords, this`records
      ensures Valid() && records == stored
      ensures forall r :: r in timeRecords ==> fresh(r) && r.hasParent
      ensures unchanged(this`projectName, this`startDate, this`endDate)
    {
      timeRecords := [];
      records := [];
      for i := 0 to |stored|
        invariant Valid() && records == stored[..i]
        invariant forall r :: r in timeRecords ==> fresh(r) && r.hasParent
      {
        var row := LoadedRow(stored[i]);
        AppendRow(row);
        assert stored[..i + 1] == stored[..i] + [stored[i]];
      }
      assert stored[..|stored|] == stored;
    }

    twostate lemma {:induction false} ValidKept(s: ProjectScreen)
      requires old(s.Valid())
      requires unchanged(s`timeRecords, s`records)
      requires forall r | r in old(s.timeRecords) :: unchanged(r)
      ensures s.Valid()
    {
      RecordsOfKept(s.timeRecords);
    }

    /** Puts a row no other row is at the end of the list. */
    method AppendRow(row: TimeRecordRow)
      requires Valid() && row !in timeRecords
      modifies this`timeRecords, this`records
      ensures Valid() && timeRecords == old(timeRecords) + [row] && records == old(records) + [row.ToRecord()]
    {
      RecordsOfSnoc(timeRecords, row);
      assert (timeRecords + [row])[..|timeRecords|] == timeRecords;
      timeRecords := timeRecords + [row];
      records := records + [row.ToRecord()];
    }

    /** `add_time_record_row`: appends one new blank row, linked to this screen. */
    method AddTimeRecordRow() returns (row: TimeRecordRow)
      requires Valid()
      modifies this`timeRecords, this`records
      ensures Valid() && fresh(row) && row.hasParent
      ensures timeRecords == old(timeRecords) + [row] && records == old(records) + [BlankRecord]
    {
      row := new TimeRecordRow();
      row.SetParentScreen();
      AppendRow(row);
    }

    /**
     * A row's recomputation, as the row's own callback runs it: the row's
     * amount is rewritten, and when the row asks for it the totals are
     * refreshed from every row. Nothing else changes.
     */
    method RecalculateRow(i: nat)
      requires Valid() && i < |timeRecords|
      modifies this`records, this`totalDaysText, this`totalHoursText, this`totalAmountText, timeRecords[i]
      ensures Valid()
      ensures timeRecords[i].hasParent == old(timeRecords[i].hasParent)
      ensures var r := old(records[i]);
        var text := AmountText(r.startTime, r.endTime, r.overtime, r.rate);
        records == old(records)[i := r.(amount := if text.Some? then text.value else r.amount)]
        && Shown() == if text.Some? && timeRecords[i].hasParent then TotalsText(records) else old(Shown())
    {
      var notify := RecomputeRow(i);
      if notify {
        UpdateTotals();
      }
    }

    /** The row's own part of the callback: its amount is rewritten, and it reports whether to refresh. */
    method RecomputeRow(i: nat) returns (notify: bool)
      requires Valid() && i < |timeRecords|
      modifies this`records, timeRecords[i]
      ensures Valid()
      ensures timeRecords[i].hasParent == old(timeRecords[i].hasParent)
      ensures var r := old(records[i]);
        var text := AmountText(r.startTime, r.endTime, r.overtime, r.rate);
        records == old(records)[i := r.(amount := if text.Some? then text.value else r.amount)]
        && (notify <==> text.Some? && timeRecords[i].hasParent)
    {
      var row := timeRecords[i];
      RecordsOfAt(timeRecords, i);
      notify := row.CalculateTimeAndAmount();
      row.OnlyThisChanged(timeRecords);
      DistinctIndex(timeRecords, i);
      records := records[i := row.ToRecord()];
    }

    /** `save_new_rate`: adds the preset, or overwrites the one with that name. */
    method SaveNewRate(name: string, rate: real)
      modifies this`rateSettings
      ensures rateSettings == old(rateSettings)[name := rate]
    {
      rateSettings := rateSettings[name := rate];
    }

    /**
     * `update_rate`: deletes the old name when the name changed, then sets the
     * new one; `false` and no change when the old name is not a preset.
     */
    method UpdateRate(oldName: string, newName: string, rate: real) returns (ok: bool)
      modifies this`rateSettings
      ensures ok <==> Renamed(old(rateSettings), oldName, newName, rate).Some?
      ensures rateSettings == if ok then Renamed(old(rateSettings), oldName, newName, rate).value else old(rateSettings)
    {
      if oldName != newName {
        if oldName !in rateSettings {
          return false;
        }
        rateSettings := rateSettings - {oldName};
      }
      rateSettings := rateSettings[newName := rate];
      ok := true;
    }

    /**
     * `generate_excel`: saves the project, then runs the export on what was
     * just saved, titled with this screen's name and date range.
     */
    method GenerateExcel(main: MainScreen, timestamp: string) returns (out: ExportOutcome)
      requires Valid()
      modifies main
      ensures main.projects == old(main.projects)[projectName := Project(startDate, endDate, records)]
      ensures main.nameInput == old(main.nameInput)
      ensures out == NoRecords <==> records == []
      ensures out == NoValidRecords <==> records != [] && KeptRows(records) == []
      ensures out.Exported? ==> SavedReport(out.book, projectName, startDate, endDate, records, timestamp)
    {
      SaveProject(main);
      var data := main.projects[projectName];
      out := ExportRecords(projectName, startDate, endDate, data.records, timestamp);
    }
  }
}
