# ExcelToXML order aggregation, modelled in Dafny

ExcelToXML reads a sales spreadsheet and writes one XML file per order.
The author marks the rows to export by filling their first cell with a
colour. Each marked row becomes one line item. Rows that share an order
identity are merged into one order. The identity is the order id (or a
synthetic `ORD-<city>`), the recipient, the destination and the date.

This project models the core of `ProcessExcelFile` in `Program.cs` and
the records in `Models/OrderData.cs`:

- `highlight.dfy`, module `Highlight`: the highlight selector
  `GetHighlightedRows`, over the decoded fill colour names of the first
  column.
- `contacts.dfy`, module `Contacts`: `ParseContactInfo`, which reads a
  comma separated free-text contact as name, address, city and region.
- `rows.dfy`, module `Rows`: reading the nine cells of a row into typed
  values, the total-price rules, and the errors that make the loop skip
  a row.
- `identity.dfy`, module `Identity`: the parts of the composite order
  identity and the identity string itself.
- `aggregator.dfy`, module `Aggregator`: the row loop. It is modelled
  twice, once as the loop the code writes (`ProcessSheet`) and once as a
  fold over the rows' contributions (`Aggregate`). The lemmas relate the
  fold to independent views: the items filed under each identity, the
  item count, and the well-formedness of every order.
- Support modules: `text.dfy` (.NET `Trim`, `Split`, `Replace` and
  `Char.IsWhiteSpace`), `dates.dfy` (dates and the `yyyyMMdd` format),
  `models.dfy` (`OrderData`, `ItemData`, `ContactInfo`) and
  `wrappers.dfy` (`Option`, `Result`).

The spreadsheet libraries are not modelled. The sheet is given as a
sequence of rows (`None` for a null row), indexed by the 0-based row
index. Each cell arrives as the outcome of `ToString()` and of the .NET
parse applied to it: missing, parsed, or rejected by the parser. The
total cell arrives as missing, a plain number, a plain non-number, or
the evaluator's outcome for a formula: a number, another kind of value,
or an exception. A plain total cell that holds text fails the row
(`TotalNotNumeric`), because the code reads it through
`NumericCellValue`, which throws on such cells. A formula whose
evaluation throws fails the row too (`FormulaFailed`).

## Model

| member | source | states |
|---|---|---|
| Highlight.IsHighlight | Program.cs:189-191 | A fill colour counts as a highlight exactly when its name is none of "Transparent", "White" and "000000" |
| Highlight.HighlightedRows | Program.cs:174-200 | The result is exactly the rows 2..RowCount whose first-cell colour is not "Transparent", "White" or "000000", each listed once in ascending order |
| Contacts.ParseContactInfo | Program.cs:202-235 | The record is built from the trimmed comma pieces: name, "street, city", city and second-to-last piece when there are at least four pieces, all "Unknown" otherwise; fewer than three commas always give the fallback record |
| Contacts.FromPieces | Program.cs:208-234 | The trimmed pieces give the fallback record exactly when there are fewer than four; otherwise the name is piece 0, the city piece 2, the region the second-to-last piece, and the address piece 1, ", " and the city |
| Contacts.NoCommaIsUnknown | Program.cs:204-234 | A contact without a comma parses to the all-"Unknown" record |
| Contacts.ParseJoined | Program.cs:206-224 | Joining four or more comma-free pieces with commas and parsing gives name = trimmed piece 0, address = trimmed piece 1 + ", " + trimmed piece 2, city = trimmed piece 2, region = trimmed second-to-last piece |
| Contacts.ParseUsualShape | Program.cs:206-224 | "name, street, city, region, zip" reads back as name, "street, city", city and region, e.g. region "IL" for "Jane Doe, 123 Main St, Springfield, IL, 62704" |
| Text.Trim | Program.cs:206 | `Trim` leaves a string with no white space at either end and is no longer than its input |
| Text.TrimIsCore | Program.cs:206 | The input is the trimmed string with only white space before and after it |
| Text.TrimPadded | Program.cs:206 | Trimming any white space padding around a trimmed string gives that string back |
| Text.TrimIdempotent | Program.cs:206 | Trimming twice is the same as trimming once |
| Text.Split | Program.cs:206 | Splitting gives one more piece than there are separators, and no piece contains the separator |
| Text.JoinSplit | Program.cs:206 | Joining the pieces of a split with the separator restores the string |
| Text.SplitJoin | Program.cs:206 | Splitting the join of separator-free pieces returns those pieces |
| Text.RemoveChar | Program.cs:128 | `Replace(c, "")` removes every `c`, shortens the string by the number of occurrences, and keeps every other character |
| Text.RemoveCharAppend | Program.cs:130 | Deleting a character distributes over concatenation |
| Rows.ResolveTotal | Program.cs:103-124 | The total is 0 for a missing cell or a formula that evaluates to something other than a number, and the number for a numeric cell or formula; a plain non-numeric cell and a formula whose evaluation throws are errors |
| Rows.ExtractRow | Program.cs:90-124 | A row reads successfully exactly when the date parses and the quantity, unit price and total do not fail; the first failing column (date, quantity, unit price, total) decides the error, a throwing formula evaluation being its own error; text cells default to "", missing quantity and price to 0, parsed ones keep their values |
| Rows.ExtractCellsOf | Program.cs:92-122 | Writing typed values into cells and reading them back gives the values |
| Rows.TextCellsNeverFail | Program.cs:92-98 | Whether a row reads successfully never depends on its id, city, category, product or contact cells |
| Identity.BaseId | Program.cs:128 | The base id is the order id when it is non-empty, otherwise "ORD-" followed by the city with its blanks removed; it is never empty |
| Identity.BaseIdOfTwoWords | Program.cs:128 | An unlabelled order from a two-word city gets "ORD-" followed by the two words run together |
| Identity.BaseIdOfCity | Program.cs:128 | An unlabelled order from "New York" gets the id "ORD-NewYork" |
| Identity.ShipName | Program.cs:129 | The recipient part is the contact name, or "User" when that is empty; it is never empty |
| Identity.ShippingKey | Program.cs:130 | The destination part contains no blank and no comma, and keeps the "-" separator |
| Identity.ShippingKeyParts | Program.cs:130 | The destination part is the cleaned city, "-", then the cleaned region |
| Identity.KeyDate | Program.cs:131 | A date is read from an identity only when "-" stands right before its last eight characters |
| Identity.UniqueId | Program.cs:131 | The identity reads piece by piece as the base id, "-", the recipient, "-", the destination part, "-" and the `yyyyMMdd` digits of its date, which `KeyDate` reads back as that date; its length is the parts' plus eleven |
| Identity.KeyOfIsUniqueId | Program.cs:131 | That reading is complete: any string that reads as given parts and date is the identity built from them |
| Identity.SameKeySameDestination | Program.cs:130-131 | For the same base id and recipient, equal identities mean equal destination parts and equal dates: rows for different destinations or days are never merged |
| Identity.SameKeySameDate | Program.cs:131 | Two rows with equal identities have equal dates |
| Identity.KeyPartsCollide | Program.cs:128-131 | Distinct (order id, recipient) pairs can give the same identity, because the parts may contain "-" |
| Dates.FormatYmd | Program.cs:131 | `yyyyMMdd` is exactly eight digits |
| Dates.ParseFormat | Program.cs:131 | Reading back a `yyyyMMdd` rendering gives the date |
| Dates.FormatParse | Program.cs:131 | Rendering a date read from `yyyyMMdd` text gives the text back |
| Aggregator.RowKey | Program.cs:128-131 | A row's identity reads as its base id (order id, or "ORD-" and the city without blanks), its recipient ("User" for an empty contact name), its destination (city and contact region without blanks and commas) and its row date, joined by "-" |
| Aggregator.LineOf | Program.cs:126-155 | A readable row's line is filed under the row's identity; its order carries that identity, the order person, the row's id, date and city, the parsed contact's name, address and region, and no items; its item has title category + " - " + product, note "Category: " + category and the row's quantity, price and total; the identity ends with the order's date |
| Aggregator.NewOrder | Program.cs:135-145 | A new order takes its identity, id, date and city from the row, its recipient fields from the parsed contact, "Food Sales System" as order person, and starts with no items (Models/OrderData.cs:19) |
| Aggregator.NewItem | Program.cs:148-155 | The item's title is "category - product"; its note is "Category: " followed by the category, so it is never empty; quantity, price and total come from the row |
| Aggregator.Contribution | Program.cs:84-131 | A row contributes exactly when it is non-null, its row number is highlighted and it reads successfully; it then contributes its identity, its order and its item |
| Aggregator.ReadRow | Program.cs:84-131 | The loop body's reading half yields exactly the row's contribution |
| Aggregator.AddLine | Program.cs:133-155 | Filing a line adds its identity; a new identity gets the line's order header and a known one keeps its header; exactly the line's item is appended; every other order is unchanged |
| Aggregator.FileItem | Program.cs:133-155 | The loop body's insert-then-append half is `AddLine` |
| Aggregator.ProcessSheet | Program.cs:81-162 | The loop over row indices 1..LastRowNum computes the fold of the rows' contributions |
| Aggregator.ProcessWorkbook | Program.cs:78-162 | The highlight list holds exactly the highlighted rows 2..RowCount, and the orders are the fold of the sheet under that list |
| Aggregator.Aggregate | Program.cs:81-162 | The orders of a sheet, the fold the loop computes; a sheet with at most its header row has no orders |
| Aggregator.NothingHighlighted | Program.cs:88 | Without highlighted rows there are no orders, whatever the sheet holds |
| Aggregator.AggregateIsGrouping | Program.cs:133-155 | An order exists exactly for the identities some contributing row has, and its items are those rows' items in row order |
| Aggregator.FirstRowFixesHeader | Program.cs:133-146 | An order's header is the one the first row of its identity created; later rows never change it |
| Aggregator.FirstRowHeaderFields | Program.cs:128-146 | An order carries its identity, the id, date and city cells of its first row, "Food Sales System", and that row's contact name, address and region |
| Aggregator.RowItemFiled | Program.cs:148-155 | Every contributing row's item is in its order's items, with title category + " - " + product, note "Category: " + category and the row's quantity, unit price and total |
| Aggregator.AddLineCount | Program.cs:148-155 | Filing a line adds exactly one item over all orders |
| Aggregator.ItemCountIsLineCount | Program.cs:82-155 | After any prefix of rows, the orders hold as many items as rows have contributed |
| Aggregator.AggregateItemCount | Program.cs:82-155 | Over a whole sheet, the total item count is the number of contributing rows |
| Aggregator.AggregateWellFormed | Program.cs:133-155 | Every order is filed under its own identity, has the fixed order person and at least one item, has a date matching its identity, and every note has the category prefix |
| Aggregator.MergedRowsShareDate | Program.cs:131-146 | Every row filed under an order has that order's date |
| Aggregator.SkippedRowLeavesOrders | Program.cs:84-93 | A null, unhighlighted or unreadable row leaves the orders exactly as they were |
| Aggregator.UnhighlightedRowIgnored | Program.cs:88 | Changing a row that is not highlighted never changes the orders |
| Aggregator.FailedRowIgnored | Program.cs:90-160 | A row that fails to read gives the same orders as a null row in its place: every error is raised before the insertion |

## Left out

- File and workbook I/O are not modelled: the file existence check, the file stream, opening the workbook with NPOI or ClosedXML, the sheet lookup by its configured name, and disposal. The decoded cells and colour names are inputs.
- The library's cell decoding is abstract. `ICell.ToString()`, `DateTime.Parse`, `int.Parse`, `decimal.Parse` and formula evaluation appear only as their outcomes (`Rows.Field`, `Rows.TotalCell`).
- Construction of the formula evaluator for each row is not modelled. It is assumed to succeed for any workbook, `.xls` ones included.
- The `(decimal)double` conversions of the total are not modelled: `Decimal` is a real number and the value is copied unchanged.
- Dates keep no time of day. The identity uses only the `yyyyMMdd` part, but the order's date in the code keeps the first row's time of day.
- The `yyyyMMdd` rendering assumes the current culture uses the Gregorian calendar. Under another calendar, such as the Thai Buddhist one, the code's digits and so the identity would differ.
- The selector reads the first worksheet while the loop reads the named sheet. The model takes the colour list and the sheet as independent inputs and does not model this mismatch.
- The colour list is indexed by the used range's row count. The model takes that range as starting at row 1.
- The `ColumnCount()` call before the used range's null check is not modelled, nor its null dereference. For a first worksheet with no used cells the code aborts there; the model's empty colour list gives no rows instead.
- The model's orders form a map. It keeps no `Dictionary` enumeration order, which only decides the order XML files are written in.
- XML emission (`GenerateXmlFiles`), configuration and console output are left out. So is the exception wrapper around the whole run. None of them change the orders.
- The `orders` list is never used by the code, so it is not modelled.
