/**
 * The report sheet: where the export writes each value, and how wide it makes
 * each column. The worksheet is a map from (row, column) to the value written
 * there, both counted from 1 as the spreadsheet does (column 1 is "A", 7 is
 * "G"); a cell never written reads as Python's `None`. Fonts, alignment and
 * merged ranges are presentation only and are not part of the map.
 */
module Layout {
  import opened Options
  import opened Text
  import opened Numbers
  import opened Records
  import opened Grouping

  /** A written cell: a string, or a float that `round(x, 2)` produced. */
  datatype Cell = Str(s: string) | Num(d: Decimal2)

  type Sheet = map<(int, int), Cell>

  /** The cells of one sheet row, written from column 1 on; a blank row writes nothing. */
  type SheetRow = seq<Cell>

  const Columns: nat := 7

  const SubtotalLabel: string := "小计"
  const TotalLabel: string := "总计"

  const Headers: SheetRow :=
    [Str("日期"), Str("车牌/姓名"), Str("工作时间"), Str("加班时间"), Str("总时间"), Str("单价"), Str("金额")]

  function Title(projectName: string): string {
    projectName + " 工时统计报表"
  }

  function Subtitle(startDate: string, endDate: string): string {
    "日期范围: " + startDate + " - " + endDate
  }

  /** One kept row, columns A to G, every number rounded to two decimals. */
  function RecordCells(r: Row): SheetRow {
    [Str(r.date), Str(r.plateName), Num(Round2(r.workHours)), Num(Round2(r.overtime)),
     Num(Round2(r.totalHours)), Num(Round2(r.rate)), Num(Round2(r.amount))]
  }

  /** A group's subtotal row: label, name, blanks in C, D and F, the group's hours and amount. */
  function SubtotalCells(g: Group): SheetRow {
    [Str(SubtotalLabel), Str(g.name), Str(""), Str(""), Num(Round2(g.totalHours)), Str(""), Num(Round2(g.amount))]
  }

  /** The grand-total row: label, `"{N}人"` for N groups, the sums over all groups. */
  function TotalCells(gs: seq<Group>): SheetRow {
    [Str(TotalLabel), Str(NatToString(|gs|) + "人"), Str(""), Str(""),
     Num(Round2(GroupsSum(gs, Hours))), Str(""), Num(Round2(GroupsSum(gs, Amount)))]
  }

  function RecordRows(rows: seq<Row>): (out: seq<SheetRow>)
    ensures |out| == |rows|
    ensures forall m :: 0 <= m < |rows| ==> out[m] == RecordCells(rows[m])
  {
    seq(|rows|, m requires 0 <= m < |rows| => RecordCells(rows[m]))
  }

  /** What one group occupies: its records, its subtotal, one blank row. */
  function GroupBlock(g: Group): seq<SheetRow> {
    RecordRows(g.records) + [SubtotalCells(g), []]
  }

  /** The data part of the sheet, group after group. */
  function Body(gs: seq<Group>): seq<SheetRow> {
    if gs == [] then [] else Body(gs[..|gs| - 1]) + GroupBlock(gs[|gs| - 1])
  }

  /** Title, subtitle, a blank row and the header: rows 1 to 4. */
  function Head(title: string, subtitle: string): seq<SheetRow> {
    [[Str(title)], [Str(subtitle)], [], Headers]
  }

  /** The whole sheet, row 1 first: head, body, one more blank row, the grand total. */
  function Report(title: string, subtitle: string, gs: seq<Group>): seq<SheetRow> {
    Head(title, subtitle) + Body(gs) + [[], TotalCells(gs)]
  }

  /** What `rows` holds at row `r`, column `c` (both from 1). */
  function CellAt(rows: seq<SheetRow>, r: int, c: int): Option<Cell> {
    if 1 <= r <= |rows| && 1 <= c <= |rows[r - 1]| then Some(rows[r - 1][c - 1]) else None
  }

  /** The value of a worksheet cell; `None` where nothing was written. */
  function Lookup(ws: Sheet, r: int, c: int): Option<Cell> {
    if (r, c) in ws then Some(ws[(r, c)]) else None
  }

  /** The worksheet holds exactly the cells of `rows`, and nothing anywhere else. */
  ghost predicate Renders(ws: Sheet, rows: seq<SheetRow>) {
    forall r, c :: Lookup(ws, r, c) == CellAt(rows, r, c)
  }

  /** Writing `cells` into row `r`, from column A on. */
  function PutRow(ws: Sheet, r: int, cells: SheetRow): Sheet {
    ws + map c | 1 <= c <= |cells| :: (r, c) := cells[c - 1]
  }

  /** Row `r` now holds `cells` from column A on; every other cell is as before. */
  lemma {:induction false} PutRowLookup(ws: Sheet, r: int, cells: SheetRow)
    ensures forall c :: Lookup(PutRow(ws, r, cells), r, c) == if 1 <= c <= |cells| then Some(cells[c - 1]) else Lookup(ws, r, c)
    ensures forall r', c :: r' != r ==> Lookup(PutRow(ws, r, cells), r', c) == Lookup(ws, r', c)
  {
  }

  lemma {:induction false} RendersAppend(ws: Sheet, rows: seq<SheetRow>, cells: SheetRow)
    requires Renders(ws, rows)
    ensures Renders(PutRow(ws, |rows| + 1, cells), rows + [cells])
  {
    var ws' := PutRow(ws, |rows| + 1, cells);
    PutRowLookup(ws, |rows| + 1, cells);
    forall r, c ensures Lookup(ws', r, c) == CellAt(rows + [cells], r, c) {
      if r != |rows| + 1 {
        assert Lookup(ws', r, c) == Lookup(ws, r, c) == CellAt(rows, r, c);
      } else {
        assert Lookup(ws, r, c) == None;
      }
    }
  }

  /** The worksheet that writing `rows` one after another from row 1 produces. */
  function SheetOf(rows: seq<SheetRow>): Sheet {
    if rows == [] then map[] else PutRow(SheetOf(rows[..|rows| - 1]), |rows|, rows[|rows| - 1])
  }

  /** Writing an empty row changes nothing. */
  lemma {:induction false} PutRowEmpty(ws: Sheet, r: int)
    ensures PutRow(ws, r, []) == ws
  {
  }

  /** Writing the next row of `rows` extends the sheet by that row. */
  lemma {:induction false} SheetOfSnoc(rows: seq<SheetRow>, cells: SheetRow)
    ensures SheetOf(rows + [cells]) == PutRow(SheetOf(rows), |rows| + 1, cells)
  {
    var s := rows + [cells];
    assert s[..|s| - 1] == rows;
    assert s[|s| - 1] == cells;
    assert SheetOf(s) == PutRow(SheetOf(s[..|s| - 1]), |s|, s[|s| - 1]);
  }

  /** The sheet built row by row holds exactly the cells of those rows. */
  lemma {:induction false} SheetOfRenders(rows: seq<SheetRow>)
    ensures Renders(SheetOf(rows), rows)
  {
    if rows != [] {
      var init := rows[..|rows| - 1];
      SheetOfRenders(init);
      RendersAppend(SheetOf(init), init, rows[|rows| - 1]);
      assert init + [rows[|rows| - 1]] == rows;
    }
  }

  /**
   * The export's writing pass: title and subtitle, the header in row 4, then
   * from row 5 each group's records, its subtotal and a skipped row, then one
   * more skipped row and the grand total. `maxRow` is the last row written.
   */
  method WriteSheet(title: string, subtitle: string, gs: seq<Group>) returns (ws: Sheet, maxRow: int)
    ensures ws == SheetOf(Report(title, subtitle, gs))
    ensures Renders(ws, Report(title, subtitle, gs))
    ensures maxRow == |Report(title, subtitle, gs)|
  {
    ws := map[];
    ws := PutRow(ws, 1, [Str(title)]);
    ws := PutRow(ws, 2, [Str(subtitle)]);
    ws := PutRow(ws, 4, Headers);
    HeadSheet(title, subtitle);
    var rowIdx := 5;
    ghost var rows := Head(title, subtitle);
    for gi := 0 to |gs|
      invariant rows == Head(title, subtitle) + Body(gs[..gi])
      invariant ws == SheetOf(rows) && rowIdx == |rows| + 1
    {
      ws, rowIdx := WriteGroup(ws, rowIdx, gs[gi], rows);
      rows := rows + GroupBlock(gs[gi]);
      GroupDone(title, subtitle, gs, gi);
    }
    assert gs[..|gs|] == gs;
    SheetOfSnoc(rows, []);
    PutRowEmpty(ws, rowIdx);
    rows := rows + [[]];
    rowIdx := rowIdx + 1;
    SheetOfSnoc(rows, TotalCells(gs));
    ws := PutRow(ws, rowIdx, TotalCells(gs));
    rows := rows + [TotalCells(gs)];
    maxRow := rowIdx;
    assert rows == Report(title, subtitle, gs);
    SheetOfRenders(rows);
  }

  /** One group of the writing pass: its records from `rowIdx` on, then its subtotal, then a skipped row. */
  method WriteGroup(ws0: Sheet, row0: int, g: Group, ghost rows: seq<SheetRow>) returns (ws: Sheet, rowIdx: int)
    requires ws0 == SheetOf(rows) && row0 == |rows| + 1
    ensures ws == SheetOf(rows + GroupBlock(g))
    ensures rowIdx == |rows| + |g.records| + 3
  {
    ws, rowIdx := ws0, row0;
    ghost var done := rows;
    for k := 0 to |g.records|
      invariant done == rows + RecordRows(g.records[..k])
      invariant ws == SheetOf(done) && rowIdx == |done| + 1
    {
      SheetOfSnoc(done, RecordCells(g.records[k]));
      ws := PutRow(ws, rowIdx, RecordCells(g.records[k]));
      rowIdx := rowIdx + 1;
      RecordRowsSnoc(g.records, k);
      done := done + [RecordCells(g.records[k])];
    }
    assert g.records[..|g.records|] == g.records;
    SheetOfSnoc(done, SubtotalCells(g));
    ws := PutRow(ws, rowIdx, SubtotalCells(g));
    done := done + [SubtotalCells(g)];
    SheetOfSnoc(done, []);
    PutRowEmpty(ws, rowIdx + 1);
    done := done + [[]];
    rowIdx := rowIdx + 2;
    BlockAppended(rows, g);
  }

  lemma {:induction false} BlockAppended(rows: seq<SheetRow>, g: Group)
    ensures rows + RecordRows(g.records) + [SubtotalCells(g)] + [[]] == rows + GroupBlock(g)
  {
  }

  lemma {:induction false} HeadSheet(title: string, subtitle: string)
    ensures PutRow(PutRow(PutRow(map[], 1, [Str(title)]), 2, [Str(subtitle)]), 4, Headers) == SheetOf(Head(title, subtitle))
  {
    var h := Head(title, subtitle);
    SheetOfSnoc([], [Str(title)]);
    SheetOfSnoc(h[..1], [Str(subtitle)]);
    SheetOfSnoc(h[..2], []);
    SheetOfSnoc(h[..3], Headers);
    assert h[..1] + [h[1]] == h[..2];
    assert h[..2] + [h[2]] == h[..3];
    assert h[..3] + [h[3]] == h;
    PutRowEmpty(SheetOf(h[..2]), 3);
  }

  lemma {:induction false} RecordRowsSnoc(rows: seq<Row>, k: nat)
    requires k < |rows|
    ensures RecordRows(rows[..k + 1]) == RecordRows(rows[..k]) + [RecordCells(rows[k])]
  {
  }

  lemma {:induction false} GroupDone(title: string, subtitle: string, gs: seq<Group>, gi: nat)
    requires gi < |gs|
    ensures Head(title, subtitle) + Body(gs[..gi]) + GroupBlock(gs[gi]) == Head(title, subtitle) + Body(gs[..gi + 1])
  {
    assert gs[..gi + 1][..gi] == gs[..gi];
    assert Body(gs[..gi + 1]) == Body(gs[..gi]) + GroupBlock(gs[gi]);
  }

  // ---------------------------------------------------------------------------
  // Where each group lands.

  /** Rows taken by the groups: k + 2 for a group of k records. */
  function BlockRows(gs: seq<Group>): nat {
    if gs == [] then 0 else BlockRows(gs[..|gs| - 1]) + |gs[|gs| - 1].records| + 2
  }

  /** The row of group `i`'s first record: 5 plus the rows of the groups before it. */
  function GroupStart(gs: seq<Group>, i: nat): nat
    requires i <= |gs|
  {
    5 + BlockRows(gs[..i])
  }

  lemma {:induction false} BodyLength(gs: seq<Group>)
    ensures |Body(gs)| == BlockRows(gs)
  {
    if gs != [] {
      BodyLength(gs[..|gs| - 1]);
    }
  }

  lemma {:induction false} BodyPrefix(gs: seq<Group>, i: nat, j: nat)
    requires i <= j <= |gs|
    ensures |Body(gs[..i])| <= |Body(gs[..j])|
    ensures Body(gs[..j])[..|Body(gs[..i])|] == Body(gs[..i])
  {
    if i < j {
      BodyPrefix(gs, i, j - 1);
      assert gs[..j][..j - 1] == gs[..j - 1];
    }
  }

  /**
   * Group `i` (k records) starting at row R = `GroupStart(gs, i)` has its
   * records in rows R .. R+k-1, its subtotal in row R+k, row R+k+1 blank, and
   * the next group starts at row R+k+2.
   */
  lemma {:induction false} GroupPlacement(title: string, subtitle: string, gs: seq<Group>, i: nat)
    requires i < |gs|
    ensures var rows, start, k := Report(title, subtitle, gs), GroupStart(gs, i), |gs[i].records|;
      && start + k + 1 < |rows|
      && (forall m :: 0 <= m < k ==> rows[start - 1 + m] == RecordCells(gs[i].records[m]))
      && rows[start - 1 + k] == SubtotalCells(gs[i])
      && rows[start + k] == []
      && GroupStart(gs, i + 1) == start + k + 2
  {
    var k := |gs[i].records|;
    BlockRowsOfTake(gs, i);
    var rows, start := Report(title, subtitle, gs), GroupStart(gs, i);
    BlockInReport(title, subtitle, gs, i, k);
    BlockInReport(title, subtitle, gs, i, k + 1);
    forall m | 0 <= m < k
      ensures rows[start - 1 + m] == RecordCells(gs[i].records[m])
    {
      BlockInReport(title, subtitle, gs, i, m);
    }
  }

  lemma {:induction false} BlockRowsOfTake(gs: seq<Group>, i: nat)
    requires i < |gs|
    ensures BlockRows(gs[..i + 1]) == BlockRows(gs[..i]) + |gs[i].records| + 2
  {
    assert gs[..i + 1][..i] == gs[..i];
  }

  /** Row `t` of group `i`'s block sits in the report at row `GroupStart(gs, i) + t`. */
  lemma {:induction false} BlockInReport(title: string, subtitle: string, gs: seq<Group>, i: nat, t: nat)
    requires i < |gs| && t < |GroupBlock(gs[i])|
    ensures GroupStart(gs, i) - 1 + t < |Report(title, subtitle, gs)|
    ensures Report(title, subtitle, gs)[GroupStart(gs, i) - 1 + t] == GroupBlock(gs[i])[t]
  {
    BodyLength(gs[..i]);
    BlockInBody(gs, i, t);
    ReportIndex(title, subtitle, gs, |Body(gs[..i])| + t);
  }

  lemma {:induction false} ReportIndex(title: string, subtitle: string, gs: seq<Group>, t: nat)
    requires t < |Body(gs)|
    ensures 4 + t < |Report(title, subtitle, gs)|
    ensures Report(title, subtitle, gs)[4 + t] == Body(gs)[t]
  {
  }

  lemma {:induction false} BlockInBody(gs: seq<Group>, i: nat, t: nat)
    requires i < |gs| && t < |GroupBlock(gs[i])|
    ensures |Body(gs[..i])| + t < |Body(gs)|
    ensures Body(gs)[|Body(gs[..i])| + t] == GroupBlock(gs[i])[t]
  {
    var block := Body(gs[..i + 1]);
    BodyOfTake(gs, i);
    BodyHasPrefix(gs, i + 1);
    assert block[|Body(gs[..i])| + t] == GroupBlock(gs[i])[t];
  }

  /** One more group taken adds its block to the body. */
  lemma {:induction false} BodyOfTake(gs: seq<Group>, i: nat)
    requires i < |gs|
    ensures Body(gs[..i + 1]) == Body(gs[..i]) + GroupBlock(gs[i])
  {
    assert gs[..i + 1][..i] == gs[..i];
  }

  /** The body of the first `j` groups begins the whole body. */
  lemma {:induction false} BodyHasPrefix(gs: seq<Group>, j: nat)
    requires j <= |gs|
    ensures |Body(gs[..j])| <= |Body(gs)|
    ensures Body(gs)[..|Body(gs[..j])|] == Body(gs[..j])
  {
    BodyPrefix(gs, j, |gs|);
    assert gs[..|gs|] == gs;
  }

  /** The header sits in rows 1 to 4, and the grand total in the last row, 5 + Σ(k+2) + 1, after a blank row. */
  lemma {:induction false} FixedRows(title: string, subtitle: string, gs: seq<Group>)
    ensures var rows := Report(title, subtitle, gs);
      && |rows| == GroupStart(gs, |gs|) + 1
      && rows[0] == [Str(title)] && rows[1] == [Str(subtitle)] && rows[2] == [] && rows[3] == Headers
      && rows[|rows| - 2] == [] && rows[|rows| - 1] == TotalCells(gs)
  {
    BodyLength(gs);
    assert gs[..|gs|] == gs;
  }

  // ---------------------------------------------------------------------------
  // Column widths.

  /** `str(None)`: what an unwritten cell's value prints as. */
  const NoneText: string := "None"

  /** `str(cell.value)`: a string itself, a number's repr, and "None" for a cell never written. */
  function CellText(v: Option<Cell>): (t: string)
    ensures v.None? ==> t == NoneText && |t| == 4
    ensures v.Some? && v.value.Str? ==> t == v.value.s
    ensures v.Some? && v.value.Num? ==> ParseNumber(t) == Some(v.value.d.Value())
  {
    match v
    case None => NoneText
    case Some(Str(s)) => s
    case Some(Num(d)) => ParseRepr(d); Repr(d)
  }

  /** The longest `str(value)` in column `col`, rows 1 to `n`. */
  function ColumnMax(ws: Sheet, col: int, n: nat): nat {
    if n == 0 then 0
    else
      var prev := ColumnMax(ws, col, n - 1);
      var len := |CellText(Lookup(ws, n, col))|;
      if len > prev then len else prev
  }

  /** `min((max_length + 2) * 1.2, 25)`. */
  function Width(maxLen: nat): (w: real)
    ensures 2.4 <= w <= 25.0
    ensures w == 25.0 || w == (maxLen + 2) as real * 1.2
    ensures maxLen >= 19 ==> w == 25.0
  {
    var w := (maxLen + 2) as real * 1.2;
    if w < 25.0 then w else 25.0
  }

  /** The width pass: for each of the seven columns, scan rows 1 to `maxRow`. */
  method ColumnWidths(ws: Sheet, maxRow: nat) returns (widths: seq<real>)
    ensures |widths| == Columns
    ensures forall c :: 0 <= c < Columns ==> widths[c] == Width(ColumnMax(ws, c + 1, maxRow))
  {
    widths := [];
    for col := 1 to Columns + 1
      invariant |widths| == col - 1
      invariant forall c :: 0 <= c < col - 1 ==> widths[c] == Width(ColumnMax(ws, c + 1, maxRow))
    {
      var maxLength := 0;
      for row := 1 to maxRow + 1
        invariant maxLength == ColumnMax(ws, col, row - 1)
      {
        var len := |CellText(Lookup(ws, row, col))|;
        if len > maxLength {
          maxLength := len;
        }
      }
      widths := widths + [Width(maxLength)];
    }
  }

  /** The scan's result is the length of some cell of the column and no cell is longer. */
  lemma {:induction false} ColumnMaxIsMax(ws: Sheet, col: int, n: nat)
    ensures forall r :: 1 <= r <= n ==> |CellText(Lookup(ws, r, col))| <= ColumnMax(ws, col, n)
    ensures n >= 1 ==> exists r :: 1 <= r <= n && |CellText(Lookup(ws, r, col))| == ColumnMax(ws, col, n)
  {
    if n >= 1 {
      ColumnMaxIsMax(ws, col, n - 1);
      var len := |CellText(Lookup(ws, n, col))|;
      if len < ColumnMax(ws, col, n - 1) {
        var r :| 1 <= r <= n - 1 && |CellText(Lookup(ws, r, col))| == ColumnMax(ws, col, n - 1);
        assert |CellText(Lookup(ws, r, col))| == ColumnMax(ws, col, n);
      } else {
        assert len == ColumnMax(ws, col, n);
      }
    }
  }

  /** No column is wider than 25. */
  lemma {:induction false} WidthCapped(maxLen: nat)
    ensures Width(maxLen) <= 25.0
    ensures maxLen <= 18 ==> Width(maxLen) == (maxLen + 2) as real * 1.2
  {
  }

  /**
   * Row 3 is never written, so every column of a report holds a "None" and
   * no report column is narrower than (4 + 2) * 1.2.
   */
  lemma {:induction false} ReportWidthFloor(ws: Sheet, title: string, subtitle: string, gs: seq<Group>, col: int)
    requires Renders(ws, Report(title, subtitle, gs))
    requires 1 <= col <= Columns
    ensures ColumnMax(ws, col, |Report(title, subtitle, gs)|) >= 4
    ensures 7.2 <= Width(ColumnMax(ws, col, |Report(title, subtitle, gs)|)) <= 25.0
  {
    var n := |Report(title, subtitle, gs)|;
    FixedRows(title, subtitle, gs);
    assert Lookup(ws, 3, col) == CellAt(Report(title, subtitle, gs), 3, col) == None;
    ColumnMaxIsMax(ws, col, n);
  }
}
