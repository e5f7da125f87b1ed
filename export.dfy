/**
 * The export of one project to a workbook. Both places that export —
 * the main screen's per-project export and the project screen's
 * "generate Excel" — run this same pipeline: filter and parse the stored
 * records, group the kept rows by name, write the sheet, size the columns.
 * They differ only in where the records come from and in the messages
 * shown when nothing is exported.
 */
module Export {
  import opened Options
  import opened Text
  import opened Numbers
  import opened Records
  import opened Grouping
  import opened Layout

  /** What the code hands to `wb.save`: the cells, the last row, the seven column widths, the file name. */
  datatype Workbook = Workbook(sheet: Sheet, maxRow: int, widths: seq<real>, fileName: string)

  /** Either nothing is saved (no records at all, or none that parse), or one workbook is. */
  datatype ExportOutcome = NoRecords | NoValidRecords | Exported(book: Workbook)

  /** The rows of the report exported for a project's records. */
  function ReportOf(projectName: string, startDate: string, endDate: string, records: seq<Record>): seq<SheetRow> {
    Report(Title(projectName), Subtitle(startDate, endDate), Groups(KeptRows(records)))
  }

  /** `f"{project_name}_{timestamp}.xlsx"`; the timestamp is the caller's `%Y%m%d_%H%M%S` clock reading. */
  function FileName(projectName: string, timestamp: string): (f: string)
    ensures |f| == |projectName| + |timestamp| + 6
    ensures f[..|projectName|] == projectName && f[|projectName|] == '_'
    ensures f[|projectName| + 1..|f| - 5] == timestamp && f[|f| - 5..] == ".xlsx"
  {
    projectName + "_" + timestamp + ".xlsx"
  }

  /** The grouped items in the order `grouped_data.items()` yields them are the groups of the kept rows. */
  lemma {:induction false} ItemsAreGroups(data: seq<Row>, keys: seq<string>, groups: map<string, Group>)
    requires keys == Keys(data)
    requires forall n :: n in groups <==> n in keys
    requires forall n :: n in groups ==> groups[n] == GroupOf(data, n)
    ensures forall i :: 0 <= i < |keys| ==> keys[i] in groups
    ensures Items(keys, groups) == Groups(data)
  {
  }

  /**
   * The workbook saved for a project's records: its cells are exactly the
   * report, its last row is the report's last, each column's width comes
   * from that column's longest text, and it is named after the project and
   * the clock reading.
   */
  ghost predicate SavedReport(book: Workbook, projectName: string, startDate: string, endDate: string,
                              records: seq<Record>, timestamp: string) {
    && Renders(book.sheet, ReportOf(projectName, startDate, endDate, records))
    && book.maxRow == |ReportOf(projectName, startDate, endDate, records)|
    && |book.widths| == Columns
    && (forall c :: 0 <= c < Columns ==> book.widths[c] == Width(ColumnMax(book.sheet, c + 1, book.maxRow)))
    && book.fileName == FileName(projectName, timestamp)
  }

  /**
   * The export pipeline. No records: nothing happens. Records but none kept:
   * nothing happens. Otherwise the sheet holds exactly the report of the
   * kept rows, and each column's width is computed from its longest text.
   */
  method ExportRecords(projectName: string, startDate: string, endDate: string, records: seq<Record>, timestamp: string)
    returns (out: ExportOutcome)
    ensures out == NoRecords <==> records == []
    ensures out == NoValidRecords <==> records != [] && KeptRows(records) == []
    ensures out.Exported? ==> SavedReport(out.book, projectName, startDate, endDate, records, timestamp)
  {
    if records == [] {
      return NoRecords;
    }
    var data := BuildData(records);
    if data == [] {
      return NoValidRecords;
    }
    var keys, groups := GroupRows(data);
    ItemsAreGroups(data, keys, groups);
    var items := Items(keys, groups);
    var ws, maxRow := WriteSheet(Title(projectName), Subtitle(startDate, endDate), items);
    var widths := ColumnWidths(ws, maxRow);
    out := Exported(Workbook(ws, maxRow, widths, FileName(projectName, timestamp)));
  }

  /**
   * The grand-total row is the report's last row, after a blank one: it
   * counts the distinct names among the kept rows, and its hours and amount
   * are the sums over every kept row, rounded to two decimals.
   */
  lemma {:induction false} TotalRow(projectName: string, startDate: string, endDate: string, records: seq<Record>)
    ensures var rows, data := ReportOf(projectName, startDate, endDate, records), KeptRows(records);
      && |rows| >= 6
      && rows[|rows| - 2] == []
      && rows[|rows| - 1] == [Str(TotalLabel), Str(NatToString(|set i | 0 <= i < |data| :: data[i].plateName|) + "人"),
                              Str(""), Str(""), Num(Round2(SumOf(data, Hours))), Str(""), Num(Round2(SumOf(data, Amount)))]
  {
    var data := KeptRows(records);
    FixedRows(Title(projectName), Subtitle(startDate, endDate), Groups(data));
    KeyCount(data);
    GrandTotals(data);
  }

  /**
   * A record the filter skips changes nothing in the exported report: the
   * report with it equals the report without it.
   */
  lemma {:induction false} SkippedRecordLeavesReport(projectName: string, startDate: string, endDate: string,
                                  a: seq<Record>, r: Record, b: seq<Record>)
    requires ParseRecord(r) == None
    ensures ReportOf(projectName, startDate, endDate, a + [r] + b) == ReportOf(projectName, startDate, endDate, a + b)
  {
    SkippedRecordContributesNothing(a, r, b);
  }

  /**
   * The block a group with name `name` and rows `mine` takes in `rows` from
   * row `start` on: one row per record in their order, then the subtotal
   * row with the rows' summed hours and amount, then a blank row.
   */
  ghost predicate BlockAt(rows: seq<SheetRow>, start: int, name: string, mine: seq<Row>) {
    && 1 <= start && start + |mine| + 1 < |rows|
    && (forall m :: 0 <= m < |mine| ==> rows[start - 1 + m] == RecordCells(mine[m]))
    && rows[start - 1 + |mine|] == [Str(SubtotalLabel), Str(name), Str(""), Str(""),
                                    Num(Round2(SumOf(mine, Hours))), Str(""), Num(Round2(SumOf(mine, Amount)))]
    && rows[start + |mine|] == []
  }

  /**
   * The `i`-th distinct name among the kept rows has its block at row
   * `GroupStart`: exactly its own rows, in their original order, then their
   * subtotal; the next name's block follows right after.
   */
  lemma {:induction false} GroupRowsOfReport(projectName: string, startDate: string, endDate: string, records: seq<Record>, i: nat)
    requires i < |Keys(KeptRows(records))|
    ensures BlockAt(ReportOf(projectName, startDate, endDate, records), GroupStart(Groups(KeptRows(records)), i),
                    Keys(KeptRows(records))[i], RowsOf(KeptRows(records), Keys(KeptRows(records))[i]))
    ensures GroupStart(Groups(KeptRows(records)), i + 1)
         == GroupStart(Groups(KeptRows(records)), i) + |RowsOf(KeptRows(records), Keys(KeptRows(records))[i])| + 2
  {
    ReportBlock(Title(projectName), Subtitle(startDate, endDate), KeptRows(records), i);
  }

  /** The block of the `i`-th distinct name in the report of `data`'s groups, and where the next one starts. */
  lemma {:induction false} ReportBlock(title: string, subtitle: string, data: seq<Row>, i: nat)
    requires i < |Keys(data)|
    ensures var gs, name := Groups(data), Keys(data)[i];
      && BlockAt(Report(title, subtitle, gs), GroupStart(gs, i), name, RowsOf(data, name))
      && GroupStart(gs, i + 1) == GroupStart(gs, i) + |RowsOf(data, name)| + 2
  {
    var gs := Groups(data);
    var g := gs[i];
    assert g == GroupOf(data, Keys(data)[i]);
    GroupPlacement(title, subtitle, gs, i);
    PlacedBlockIsBlockAt(Report(title, subtitle, gs), GroupStart(gs, i), g);
  }

  /** Rows placed as `GroupPlacement` places a group's records and subtotal form that group's block. */
  lemma {:induction false} PlacedBlockIsBlockAt(rows: seq<SheetRow>, start: int, g: Group)
    requires 1 <= start && start + |g.records| + 1 < |rows|
    requires forall m :: 0 <= m < |g.records| ==> rows[start - 1 + m] == RecordCells(g.records[m])
    requires rows[start - 1 + |g.records|] == SubtotalCells(g) && rows[start + |g.records|] == []
    requires g.totalHours == SumOf(g.records, Hours) && g.amount == SumOf(g.records, Amount)
    ensures BlockAt(rows, start, g.name, g.records)
  {
  }
}
