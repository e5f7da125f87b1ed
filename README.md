# Time-sheet aggregation and report layout, in Dafny

This project models the core of a small time-sheet application (`gz.py`).
A project holds rows of time records. Each row holds seven display texts:
- the date;
- the plate number or worker name;
- the start and end times;
- the overtime;
- the rate;
- the amount.

The application:
- keeps the projects and the rate presets in dictionaries;
- recomputes a row's amount when its times change;
- shows live totals on the project screen;
- exports a project to a spreadsheet.

To export, it filters and parses the stored records, groups the kept rows by name in first-seen order, writes one block per group and a grand-total row, and sizes the seven columns.

The model follows the program's structure, one module per file:
- **Options, Text, Numbers, Times** model the library behaviour the code relies on:
  - `str.strip()`;
  - `float()` on the strings the application writes;
  - `round(x, 2)`;
  - `f"{x:.2f}"`;
  - `str()` of a float rounded to two decimals;
  - `strptime(s, "%H:%M:%S")`;
  - `str()` of a time.
- **Records** models the export's parse-or-skip filter, and the `data` loop as a method proved against it.
- **Grouping** models the `grouped_data` loop as a method. It is proved against a specification of the groups. Lemmas then show that:
  - the grouping is a stable partition of the data;
  - its sums are the sums over the kept rows.
- **Layout** models the worksheet as a map from (row, column) to cell. It contains:
  - the writing loops;
  - the row-index lemmas;
  - the column-width loop.
- **Export** is the shared pipeline. `export_project` and `generate_excel` both run it; they are copies of each other in the source.
- **LiveTotals** holds the specification of `update_totals` and its laws. Its rules differ from the export's filter.
- **RowAmounts** holds the specification of `calculate_time_and_amount`.
- **Store** holds the dictionary operations behind `add_project`, `load_project` and `update_rate`.
- **Screens** holds three classes, `TimeRecordRow`, `MainScreen` and `ProjectScreen`. Their methods update fields as the source does.

Numbers are exact reals. A value rounded to two decimals is a sign plus a whole number of hundredths.

### Two rules the export applies differently

The row's own amount, the live totals and the preview all treat an unparsable overtime as 0 (`gz.py:101-104`, `gz.py:610-613`, `gz.py:648-651`). The export does not guard that parse, so a record whose overtime does not parse is dropped whole (`gz.py:278`, `gz.py:291-292`). The export also does not recompute the amount from the hours and the rate: it reads back the stored amount text (`gz.py:280`). The model follows the export as written. It proves the stored amount lies within half a hundredth of hours × rate when the row computed it (`RowAmounts.ComputedAmountExports`).

## Model

| member | source | states |
|---|---|---|
| Records.WorkHours | gz.py:274-276 | the work hours times 3600 are the end's seconds minus the start's, with no correction past midnight (so they can be negative) |
| Records.ParseRecord | gz.py:271-292 | a record is kept exactly when its date is not "选择日期", its name is non-empty, both times parse, and overtime, amount and rate all parse; the kept row copies date and name, takes the stored amount (never recomputed from the rate), and its total hours are work hours plus overtime |
| Records.BuildData | gz.py:270-292 | the filter loop's list is the kept rows of the records, in order |
| Records.KeptRowsConcat | gz.py:271-292 | each record is filtered on its own: the kept rows of two record lists joined are the two kept lists joined |
| Records.KeptRowsSingle | gz.py:271-292 | one record contributes its row when it parses and nothing otherwise |
| Records.SkippedRecordContributesNothing | gz.py:291-292 | a record the filter rejects can be removed from anywhere in the list without changing the kept rows |
| Records.KeptRowsAreLabelled | gz.py:272 | no more rows are kept than records, and every kept row has a set date and a non-empty name |
| Grouping.GroupRows | gz.py:298-312 | the dictionary's keys, in insertion order, are the distinct names in first-seen order; each name's group holds its rows' date set, the sums of their hours and amounts, and exactly its rows in original order |
| Grouping.GroupStep | gz.py:299-312 | one pass of the grouping loop keeps the dictionary the grouping of the rows seen so far |
| Grouping.StepKeys | gz.py:301-307 | a new name is appended to the key order; a name seen before leaves it unchanged |
| Grouping.StepGroups | gz.py:309-312 | one pass changes only the current row's group; every other group stays the group of its name |
| Grouping.StepOwnGroup | gz.py:301-312 | the current row's group, whether just created empty or existing, becomes the group of its name over the longer prefix |
| Grouping.GroupOfSnocSame | gz.py:309-312 | a row adds its date, its hours, its amount and itself to its own name's group |
| Grouping.GroupOfSnocOther | gz.py:309-312 | a row leaves every other name's group unchanged |
| Grouping.KeysAreNames | gz.py:299-307 | a name is a key exactly when some row carries it |
| Grouping.KeysDistinct | gz.py:301 | no name is a key twice |
| Grouping.KeysInFirstSeenOrder | gz.py:299-307 | for two keys in key order, the first occurs in the data before any occurrence of the second |
| Grouping.KeyCount | gz.py:298-307 | the number of keys is the number of distinct names among the rows |
| Grouping.RowsOfExact | gz.py:312 | a group's rows all carry its name, and each row with that name occurs there as often as it does in the data |
| Grouping.CatRowsPartition | gz.py:298-312 | the rows of every key's group, taken together, have exactly the data's multiset |
| Grouping.GroupsPartitionData | gz.py:298-312 | the groups' record lists, concatenated in key order, are a permutation of the data |
| Grouping.SumPermutation | gz.py:376-377 | a sum of hours or of amounts does not depend on the order of the rows |
| Grouping.DatesPermutation | gz.py:309 | the set of dates does not depend on the order of the rows |
| Grouping.DatesAreRowDates | gz.py:309 | a group's date set is exactly the dates its rows carry |
| Grouping.GroupsSumConcat | gz.py:376-377 | when each group's totals are the sums over its rows, the sum over the groups is the sum over all their rows |
| Grouping.UnionDatesConcat | gz.py:309 | when each group's dates are its rows' dates, the union of the groups' date sets is the dates of all their rows |
| Grouping.GrandTotals | gz.py:376-377 | the grand totals of hours and of amounts are the sums over every kept row |
| Grouping.AllDates | gz.py:309 | the union of the groups' date sets is the set of all kept rows' dates |
| Grouping.UnionDatesBounds | gz.py:309 | every group's dates lie in the union, and the union is no larger than the sum of the groups' distinct-day counts |
| Grouping.DistinctDayBounds | gz.py:309 | a group's distinct days are at most all distinct days, which are at most the sum of the groups' distinct-day counts |
| Layout.WriteSheet | gz.py:320-381 | the writing pass leaves the worksheet holding exactly the report's rows: title, subtitle, header, every group's block, a blank row, the grand total; `ws.max_row` is the report's length |
| Layout.WriteGroup | gz.py:340-367 | one group's pass writes its records from the current row, then its subtotal, skips a row, and advances the row counter by k + 2 |
| Layout.PutRowLookup | gz.py:343-349 | writing a row sets exactly its cells from column A on and leaves every other cell as it was |
| Layout.RendersAppend | gz.py:339-381 | writing the next row after the rows already written keeps the sheet an exact rendering of them all |
| Layout.SheetOfRenders | gz.py:320-381 | the worksheet built row by row holds exactly those rows' cells, and nothing anywhere else |
| Layout.HeadSheet | gz.py:320-336 | the title lands in A1, the date range in A2, row 3 stays empty, and the seven headers fill row 4 |
| Layout.GroupPlacement | gz.py:339-367 | a group of k records starting at row r fills rows r to r+k-1 with its records in order, puts its subtotal in row r+k, leaves r+k+1 blank, and the next group starts at r+k+2 |
| Layout.BlockInReport | gz.py:339-367 | each row of a group's block sits at that group's start row plus its offset |
| Layout.FixedRows | gz.py:320-381 | rows 1-4 hold the title, the date range, a blank row and the headers; the report ends one row after the last group's block, with a blank row and then the grand total |
| Layout.ColumnWidths | gz.py:390-397 | each of the seven widths is min((longest text in the column + 2) × 1.2, 25) over rows 1 to max_row |
| Layout.ColumnMaxIsMax | gz.py:391-395 | the measured length is at least every cell's text length in the column and equals one of them |
| Layout.WidthCapped | gz.py:396-397 | a width never exceeds 25, and is (n + 2) × 1.2 while the longest text has at most 18 characters |
| Layout.Width | gz.py:396-397 | a width is the smaller of (n + 2) × 1.2 and 25, so it lies between 2.4 and 25, and is 25 from 19 characters on |
| Layout.CellText | gz.py:393-394 | an unwritten cell's text is exactly "None" (`str(None)`), a string cell's text is the string, and a number cell's text parses back to its value |
| Layout.ReportWidthFloor | gz.py:390-397 | on an exported sheet every column's width is at least (4 + 2) × 1.2, which is 7.2 in the model's exact reals, because an unwritten cell reads as "None" |
| Export.FileName | gz.py:400-401 | the file name is the project name, '_', the timestamp and ".xlsx", each in its place |
| Export.ExportRecords | gz.py:265-397 | no records: nothing is exported; records but none kept: nothing is exported; otherwise the sheet renders exactly the report of the grouped kept rows, `max_row` is its length, each width is computed from its column, and the file is named from the project and the timestamp |
| Export.ItemsAreGroups | gz.py:340 | iterating the grouping dictionary in key order yields the groups of the kept rows |
| Export.TotalRow | gz.py:369-381 | the last row follows a blank one and holds "总计", "{N}人" with N the number of distinct names, and the rounded sums of hours and amount over every kept row |
| Export.SkippedRecordLeavesReport | gz.py:271-292 | adding a record the filter rejects anywhere in the project leaves the exported report unchanged |
| Export.GroupRowsOfReport | gz.py:339-367 | the block of the i-th distinct name holds exactly that name's kept rows in original order, then its subtotal of their summed hours and amount, then a blank row; the next block follows directly |
| Export.ReportBlock | gz.py:339-367 | the same placement, stated for the groups of any rows |
| LiveTotals.LiveSnoc | gz.py:600-622 | one more row adds its date when set, its hours when both times parse, and its amount when it parses |
| LiveTotals.LivePrefix | gz.py:600-622 | the running totals after row i are those before it, plus row i's contribution |
| LiveTotals.LiveDatesMembers | gz.py:598-602 | a day is counted exactly when some row carries that date and the date is not "选择日期"; there are no more days than rows |
| LiveTotals.HoursNeedBothTimes | gz.py:604-617 | a row adds hours exactly when both times parse (the placeholders never do), and it adds the work hours plus its overtime or 0 |
| LiveTotals.ExportDatesAreDays | gz.py:272 | every date the export keeps is a day the live totals count |
| LiveTotals.AllKeptAgrees | gz.py:592-628 | when every record passes the export's filter, the live days, hours and amount equal the export's dates and sums |
| LiveTotals.BadOvertimeCountsLive | gz.py:610-615 | a record whose overtime does not parse is dropped by the export, but its work hours and amount still count live |
| LiveTotals.UnsetDateCountsLive | gz.py:601-622 | a record with no date adds no day and nothing to the export, but its amount still counts live |
| RowAmounts.AmountValue | gz.py:96-113 | there is an amount exactly when both times and the rate parse |
| RowAmounts.AmountText | gz.py:95-113 | the amount text is written exactly when both times and the rate parse (the placeholder test never decides anything), and it is then the hours times the rate to two decimals |
| RowAmounts.AmountTextParses | gz.py:111-113 | the written amount text parses back to within half a hundredth of hours × rate |
| RowAmounts.ComputedAmountExports | gz.py:111-113 | a kept record whose amount its row computed exports an amount within half a hundredth of its exported hours times its exported rate |
| RowAmounts.KeptProduct | gz.py:274-288 | for a kept record, the row's product is the exported total hours times the exported rate |
| Numbers.ParseUnsigned | gz.py:278-280 | an unsigned number that parses is non-empty, made only of digits and points, and never negative; a digit string parses to its decimal value |
| Numbers.ParseNumber | gz.py:278-280 | the model's `float(s)`: a text that parses is non-empty and has only digits, points and one leading sign, so the empty text and the placeholders fail; a negative value needs a leading '-'; a digit string parses to its decimal value (the forms Python also accepts are listed under Left out) |
| Numbers.FormatFixed2 | gz.py:113 | `f"{v:.2f}"` ends in a point and two digits worth the hundredths, and starts with '-' exactly for a negative value |
| Numbers.FormatAmount | gz.py:113 | `f"{x:.2f}"` ends in a point and two digits, and starts with '-' exactly when x is negative, even where it rounds to zero |
| Numbers.Repr | gz.py:394 | `str(v)` starts with '-' exactly for a negative value and ends in a point and one digit, or in a point and two digits the last of which is not 0 |
| Numbers.RoundHalfEven | gz.py:345-349 | the nearest integer, within one half, with an exact half going to the even integer |
| Numbers.Round2 | gz.py:345-349 | `round(x, 2)` lies within half a hundredth of x and keeps x's sign |
| Numbers.ReprFraction | gz.py:394 | `repr`'s fractional digits are one or two digits with the value of the hundredths, and a trailing 0 is dropped unless it is the only digit |
| Numbers.ParseDecimal | gz.py:278-280 | a sign, the whole part, a point and digits worth the hundredths parse back to the value |
| Numbers.ParseFormatFixed2 | gz.py:113 | `float(f"{v:.2f}")` gives back v for a value rounded to hundredths |
| Numbers.ParseRepr | gz.py:394 | `float(str(v))` gives back v for a value rounded to hundredths |
| Numbers.StoredAmountRoundTrip | gz.py:113 | an amount stored as `f"{x:.2f}"` parses back to within half a hundredth of x |
| Text.NatToString | gz.py:626 | `str(n)` is digits only, reads back as n, and starts with '0' only for 0 |
| Text.Pad2 | gz.py:80 | the two-digit field of a time reads back as its number |
| Text.Split | gz.py:274-275 | splitting yields at least one piece, and no piece contains the separator |
| Text.SplitJoin | gz.py:274-275 | joining the pieces with the separator gives back the text |
| Text.SplitAtSeparator | gz.py:274-275 | a piece without the separator, then the separator, splits off as the first piece |
| Text.LStrip | gz.py:214 | `lstrip` drops exactly a leading run of whitespace and leaves a text that does not start with whitespace |
| Text.RStrip | gz.py:214 | `rstrip` drops exactly a trailing run of whitespace and leaves a text that does not end with whitespace |
| Text.Strip | gz.py:214 | `strip` is the slice of the text between a leading and a trailing whitespace run; it is empty exactly when the text is all whitespace, and otherwise starts and ends with non-whitespace |
| Text.StripIdempotent | gz.py:214 | stripping a stripped name changes nothing |
| Times.Field | gz.py:97-98 | a field's value never exceeds its bound |
| Times.ParseTime | gz.py:97-98 | a parsed time is a second of the day, below 86400 |
| Times.FormatTime | gz.py:78-91 | `str(time)` is eight characters long |
| Times.ParseFormatTime | gz.py:78-98 | the text the time picker writes parses back to the same time of day |
| Times.SplitClock | gz.py:274-275 | three digit fields joined by ':' split back into those three fields |
| Times.FieldPad2 | gz.py:274-275 | a two-digit field within its bound reads back as its number |
| Times.NoColonNoTime | gz.py:95 | a text without ':' never parses as a time, so the placeholders never do |
| Store.ProjectNamed | gz.py:429 | a stored project opens as stored, so saving it back unchanged leaves the store as it was; an unknown name opens a project with unset dates and no records |
| Store.AddOutcomeOf | gz.py:214-221 | adding is refused as empty exactly when the input is all whitespace and as taken exactly when its stripped form is a project; otherwise the stripped, non-empty, new name is added |
| Store.ProjectsAfterAdd | gz.py:219-228 | a refused add leaves the projects unchanged; a successful one adds exactly one key, mapped to unset dates and no records, and keeps every other key's project |
| Store.AddIgnoresBlanks | gz.py:214 | typing a name with surrounding blanks adds exactly what typing the bare name does |
| Store.AddTwice | gz.py:219-221 | adding the same name a second time is refused as taken and changes nothing |
| Store.Renamed | gz.py:574-579 | with a new name the old key is deleted and the new key set to the rate; when the old key is missing, `del` raises `KeyError` and the presets are unchanged; the same name only overwrites; every other preset is unchanged |
| Store.RenameToSameName | gz.py:577-579 | keeping the name only overwrites the value and keeps the set of presets |
| Store.RenameCount | gz.py:577-579 | a rename to a free name keeps the number of presets; onto another existing preset, it loses one |
| Store.RenameBack | gz.py:574-579 | renaming back to the old name with the old rate restores the presets when the new name was free |
| Screens.TimeRecordRow.constructor | gz.py:37-50 | a new row shows the three placeholders, an empty name and "0" in the number fields, and is not yet linked |
| Screens.TimeRecordRow.SetParentScreen | gz.py:52-54 | linking the row changes none of its texts |
| Screens.TimeRecordRow.CalculateTimeAndAmount | gz.py:93-121 | only the amount text can change; it becomes the amount text of the row's times, overtime and rate when that exists, and otherwise stays; the totals refresh exactly when it was written and the row is linked |
| Screens.Tally | gz.py:600-622 | one row's contribution to the live totals, branch by branch as the loop adds it |
| Screens.LiveSums | gz.py:594-624 | the loop's date set, hours and amount are the live totals of the rows' records |
| Screens.LoadedRow | gz.py:440-448 | a loaded row is new, linked, and shows exactly the stored record |
| Screens.MainScreen.constructor | gz.py:187-190 | the screen starts with the loaded projects and an empty name input |
| Screens.MainScreen.AddProject | gz.py:212-237 | the outcome and the new projects are those of adding the stripped input; on success the input is cleared, otherwise it is kept |
| Screens.MainScreen.ExportProject | gz.py:263-402 | the export pipeline on the stored project: nothing without records or without kept records, otherwise the saved report |
| Screens.ProjectScreen.constructor | gz.py:406-418 | a new project screen has no rows, unset dates, totals "0", and the loaded rate presets |
| Screens.ProjectScreen.UpdateTotals | gz.py:592-628 | the three totals show the distinct set dates, the summed hours and the summed amount of the current rows |
| Screens.ProjectScreen.SaveProject | gz.py:473-499 | the main screen's entry under the project's name becomes its date range and a snapshot of every row's seven texts, in row order; no other entry changes |
| Screens.ProjectScreen.LoadProject | gz.py:423-454 | the screen takes the name, the date range and the stored records of the project (an empty one when unknown), as new linked rows, and shows their totals |
| Screens.ProjectScreen.LoadRows | gz.py:434-451 | the old rows are replaced by one new linked row per stored record, in order |
| Screens.ProjectScreen.AppendRow | gz.py:450-451 | the row is appended and its record is appended to the records |
| Screens.ProjectScreen.AddTimeRecordRow | gz.py:501-507 | a new linked blank row is appended and returned |
| Screens.ProjectScreen.RecalculateRow | gz.py:93-121 | row i's amount is recomputed and no other row changes; the totals are refreshed from every row exactly when the amount was written and the row is linked, and otherwise stay; row i keeps its link to the screen |
| Screens.ProjectScreen.RecomputeRow | gz.py:93-117 | row i's amount text becomes the amount text of its times, overtime and rate when that exists, no other row or link changes, and the row asks for a refresh exactly when it wrote and is linked |
| Screens.ProjectScreen.SaveNewRate | gz.py:556-560 | the preset is inserted or overwritten, and no other preset changes |
| Screens.ProjectScreen.UpdateRate | gz.py:574-580 | the presets become the rename of the old name to the new one; when the old name is missing and differs, the call fails and nothing changes |
| Screens.ProjectScreen.GenerateExcel | gz.py:708-858 | the project is saved first; then the export runs on what was saved: nothing without records or without kept records, otherwise the saved report |

## Left out

- Widgets, pickers, dialogs, snack-bar messages and screen navigation (`gz.py:35-91` apart from the row's texts, `gz.py:123-180`, `gz.py:239-250`, `gz.py:513-554`, `gz.py:630-706`, `gz.py:860-883`). A picker's choice enters the model only as the text it writes.
- JSON persistence (`load_projects`, `save_projects`, `load_rate_settings`, `save_rate_settings`). The loaded dictionaries are constructor parameters; saving is not modelled.
- openpyxl fonts, alignment, merged cells and `wb.save`. The saved workbook is the returned value.
- `datetime.now()`: the `%Y%m%d_%H%M%S` timestamp is a parameter.
- Floating point: sums and products are exact reals. `round(x, 2)` is exact round-half-even on the real, and `f"{x:.2f}"` spells that rounded value. Double-rounding effects are not captured.
- Numbers.ParseNumber: accepts only an optional sign, ASCII digits and one optional point. Python's `float()` also accepts non-ASCII Unicode decimal digits (such as the full-width "１２" a Chinese input method types), surrounding whitespace, exponents, underscores, "inf" and "nan". On such texts the model reports a failure where the program gets a number, so the export skips a record the program keeps, and the live totals and the row amount leave out a value the program counts. The application's own texts ("0" and `f"{x:.2f}"`) never take these forms. The exception is `apply_rate`'s `str(rate)`, which is not modelled. A user can also type any of these forms into the overtime or rate field.
- Numbers.Repr: covers `str()` of a float rounded to two decimals only while doubles can hold every hundredth, i.e. below 2^46 (about 7e13). Above that, neighbouring doubles are more than 0.01 apart, so `str(round(x, 2))` can print other digits than the exact hundredths. That changes the column widths.
- Times.Field: restricts each `%H`, `%M` and `%S` field to one or two ASCII digits. Python's `\d` also matches other Unicode decimal digits. Hours go up to 23, and minutes and seconds up to 59. Python's regex admits seconds 60 and 61, but building the `datetime` then raises, so they fail the same way.
- `apply_rate` (`gz.py:582-590`). It writes `str(rate)` of a float the rate dialog produced, which is not modelled.
- `export_all_projects` (`gz.py:252-261`). It only loops `export_project` over the dictionary.
- `preview_excel` and `RateSettingDialog.save_rate`. They are dialog code.
- `main.py` and the matplotlib font setup: application bootstrap, not part of this model.
- Screens.ProjectScreen.LoadProject: does not model the `.get` defaults for a stored record missing one of its seven keys. Stored records always carry all seven texts here.
- Screens.ProjectScreen.RecalculateRow: models the row's callback into its screen (`parent_screen.update_totals()`) as this method on the screen. The row itself holds only whether it is linked.
- Dates are opaque strings. The date picker's `str(date)` format is not modelled, because nothing in the core parses a date: the export and the totals only compare dates.
- Store.Renamed: the presets are a map, so the model does not capture that `del` followed by an insert moves a renamed preset to the end of the dictionary's order (`gz.py:577-579`). Only the order in which the presets are listed depends on it.

