/** The row loop of `ProcessExcelFile` (Program.cs): every highlighted,
    non-null, readable row is turned into one line item and filed under its
    order identity; the first row of an identity creates the order and
    fixes its header, later rows only append items.

    The sheet is given decoded: `sheet[rowIndex]` is the row at 0-based
    `rowIndex` (`None` for a null row), so `LastRowNum` is `|sheet| - 1`,
    and row `rowIndex` has the 1-based row number `rowIndex + 1` that the
    highlight list speaks of. */
module Aggregator {
  import opened Wrappers
  import opened Models
  import opened Contacts
  import opened Rows
  import opened Identity
  import opened Highlight

  type Groups = map<string, OrderData>

  const OrderPerson: string := "Food Sales System"
  const NotePrefix: string := "Category: "

  /** What one readable row adds: its identity, the order it would create
      and its line item. */
  datatype Line = Line(key: string, order: OrderData, item: ItemData)

  /** The identity of a row, from its cells and its parsed contact: the
      base id and a dash first, then the recipient, then a dash and the
      destination, and the row's date readable from the end. */
  function RowKey(e: Extracted, contact: ContactInfo): (key: string)
    ensures IsKeyOf(key, BaseId(e.id, e.city), ShipName(contact.name), ShippingKey(e.city, contact.region), e.date)
  {
    UniqueId(BaseId(e.id, e.city), ShipName(contact.name), ShippingKey(e.city, contact.region), e.date)
  }

  /** The order a row creates: header from the row, no items yet. The
      ship-to city is the row's city cell, not the contact's city. */
  function NewOrder(key: string, e: Extracted, contact: ContactInfo): (o: OrderData)
    ensures o.items == []
    ensures o.uniqueIdentity == key && o.orderId == e.id && o.orderDate == e.date
    ensures o.orderPerson == OrderPerson
    ensures o.shipToName == contact.name && o.shipToAddress == contact.address
    ensures o.shipToCity == e.city && o.shipToRegion == contact.region
  {
    OrderData(key, e.id, e.date, OrderPerson, contact.name, contact.address, e.city, contact.region, [])
  }

  /** A note as the code writes it: never empty, the category after a fixed
      prefix. */
  predicate IsCategoryNote(note: string) {
    |note| >= |NotePrefix| && note[..|NotePrefix|] == NotePrefix
  }

  /** The line item of a row: "{category} - {product}" and
      "Category: {category}", with the row's numbers. */
  function NewItem(e: Extracted): (it: ItemData)
    ensures IsCategoryNote(it.note) && it.note != []
    ensures it.note[|NotePrefix|..] == e.category
    ensures |it.title| == |e.category| + 3 + |e.product|
    ensures it.title[..|e.category|] == e.category
    ensures it.title[|e.category|..|e.category| + 3] == " - "
    ensures it.title[|e.category| + 3..] == e.product
    ensures it.quantity == e.quantity && it.price == e.unitPrice && it.total == e.total
  {
    ItemData(e.category + " - " + e.product, NotePrefix + e.category, e.quantity, e.unitPrice, e.total)
  }

  /** The line of a readable row: its identity, the order it would
      create, and its item. */
  function LineOf(e: Extracted): (l: Line)
    ensures LineWellFormed(l)
    ensures l.key == RowKey(e, ParseContactInfo(e.contact))
    ensures l.order.items == [] && l.order.orderId == e.id && l.order.orderDate == e.date
    ensures l.order.shipToCity == e.city
    ensures var contact := ParseContactInfo(e.contact);
      && l.order.shipToName == contact.name && l.order.shipToAddress == contact.address
      && l.order.shipToRegion == contact.region
    ensures l.item.title == e.category + " - " + e.product && l.item.note == NotePrefix + e.category
    ensures l.item.quantity == e.quantity && l.item.price == e.unitPrice && l.item.total == e.total
  {
    var contact := ParseContactInfo(e.contact);
    var key := RowKey(e, contact);
    Line(key, NewOrder(key, e, contact), NewItem(e))
  }

  /** What row number `rowNumber` contributes: nothing when the row is
      null, not highlighted, or fails to read; its line otherwise. */
  function Contribution(rowNumber: int, row: Option<Row>, highlighted: seq<int>): (c: Option<Line>)
    ensures c.Some? <==> row.Some? && rowNumber in highlighted && ExtractRow(row.value).Success?
    ensures c.Some? ==> c.value == LineOf(ExtractRow(row.value).value)
  {
    if row.None? || rowNumber !in highlighted then None
    else
      match ExtractRow(row.value)
      case Failure(_) => None
      case Success(e) => Some(LineOf(e))
  }

  /** `f` applied to every row together with its 1-based row number. */
  function MapRows<R, L>(rows: seq<R>, f: (int, R) -> L): (ls: seq<L>)
    ensures |ls| == |rows|
    decreases |rows|
  {
    if rows == [] then []
    else MapRows(rows[..|rows| - 1], f) + [f(|rows|, rows[|rows| - 1])]
  }

  /** Entry `i` of the map is `f` at row number `i + 1`. */
  lemma {:induction false} MapRowsAt<R, L>(rows: seq<R>, f: (int, R) -> L, i: nat)
    requires i < |rows|
    ensures MapRows(rows, f)[i] == f(i + 1, rows[i])
    decreases |rows|
  {
    var init := rows[..|rows| - 1];
    if i < |init| {
      MapRowsAt(init, f, i);
      assert init[i] == rows[i];
    }
  }

  /** Replacing a row by one `f` maps to the same value leaves the map
      unchanged. */
  lemma {:induction false} MapRowsUpdate<R, L>(rows: seq<R>, f: (int, R) -> L, i: nat, row: R)
    requires i < |rows|
    requires f(i + 1, row) == f(i + 1, rows[i])
    ensures MapRows(rows[i := row], f) == MapRows(rows, f)
    decreases |rows|
  {
    var s := rows[i := row];
    var n := |rows|;
    if i < n - 1 {
      assert s[..n - 1] == rows[..n - 1][i := row];
      MapRowsUpdate(rows[..n - 1], f, i, row);
      assert s[n - 1] == rows[n - 1];
    } else {
      assert s[..n - 1] == rows[..n - 1];
    }
  }

  /** The lines of a sheet: entry `i` is what row index `i` contributes
      (row number `i + 1`); row index 0 is the header row and never read. */
  function LinesOf(sheet: seq<Option<Row>>, highlighted: seq<int>): (lines: seq<Option<Line>>)
    ensures |lines| == |sheet|
  {
    MapRows(sheet, (rowNumber: int, row: Option<Row>) => Contribution(rowNumber, row, highlighted))
  }

  /** Entry `i` of the lines is row `i`'s contribution. */
  lemma LineAt(sheet: seq<Option<Row>>, highlighted: seq<int>, i: nat)
    requires i < |sheet|
    ensures LinesOf(sheet, highlighted)[i] == Contribution(i + 1, sheet[i], highlighted)
  {
    MapRowsAt(sheet, (rowNumber: int, row: Option<Row>) => Contribution(rowNumber, row, highlighted), i);
  }

  /** Insert-or-reuse, then append: a new identity gets the line's order,
      a known one keeps its header; either way exactly the line's item is
      appended, and every other order is left as it was. */
  function AddLine(groups: Groups, line: Line): (r: Groups)
    ensures r.Keys == groups.Keys + {line.key}
    ensures line.key in groups ==> r[line.key].Header() == groups[line.key].Header()
    ensures line.key !in groups ==> r[line.key].Header() == line.order.Header()
    ensures line.key in groups ==> r[line.key].items == groups[line.key].items + [line.item]
    ensures line.key !in groups ==> r[line.key].items == [line.item]
    ensures forall k :: k in groups && k != line.key ==> r[k] == groups[k]
  {
    var o := if line.key in groups then groups[line.key] else line.order.(items := []);
    groups[line.key := o.(items := o.items + [line.item])]
  }

  /** Files a row's contribution, if it has one. */
  function FileLine(groups: Groups, c: Option<Line>): Groups {
    match c
    case None => groups
    case Some(line) => AddLine(groups, line)
  }

  /** The orders after the lines at indices `1..n-1` have been filed. */
  function Fold(lines: seq<Option<Line>>, n: nat): Groups
    requires n <= |lines|
  {
    if n <= 1 then map[] else FileLine(Fold(lines, n - 1), lines[n - 1])
  }

  /** The orders of a whole sheet; a sheet with at most its header row
      has none. */
  function Aggregate(sheet: seq<Option<Row>>, highlighted: seq<int>): (groups: Groups)
    ensures |sheet| <= 1 ==> groups == map[]
  {
    var lines := LinesOf(sheet, highlighted);
    Fold(lines, |lines|)
  }

  /** The first half of the loop body for row number `rowNumber`: skip a
      null or unhighlighted row, read it, skip it on failure, otherwise
      parse its contact and derive its identity. */
  method ReadRow(sheet: seq<Option<Row>>, rowIndex: nat, highlighted: seq<int>) returns (c: Option<Line>)
    requires rowIndex < |sheet|
    ensures c == LinesOf(sheet, highlighted)[rowIndex]
  {
    LineAt(sheet, highlighted, rowIndex);
    var rowNumber := rowIndex + 1;
    var row := sheet[rowIndex];
    if row.None? || rowNumber !in highlighted {
      return None;
    }
    var extracted := ExtractRow(row.value);
    if extracted.Failure? {
      return None;
    }
    var e := extracted.value;
    var contact := ParseContactInfo(e.contact);
    var key := RowKey(e, contact);
    c := Some(Line(key, NewOrder(key, e, contact), NewItem(e)));
  }

  /** The second half: add the order if the identity is new, then append
      the item. */
  method FileItem(groups: Groups, line: Line) returns (r: Groups)
    ensures r == AddLine(groups, line)
  {
    r := groups;
    if line.key !in r {
      r := r[line.key := line.order.(items := [])];
    }
    r := r[line.key := r[line.key].(items := r[line.key].items + [line.item])];
  }

  /** The loop as the code writes it: row indices 1 to `LastRowNum`, the
      header row skipped. */
  method ProcessSheet(sheet: seq<Option<Row>>, highlighted: seq<int>) returns (groups: Groups)
    ensures groups == Aggregate(sheet, highlighted)
  {
    ghost var lines := LinesOf(sheet, highlighted);
    groups := map[];
    if |sheet| == 0 {
      return;
    }
    var rowIndex := 1;
    while rowIndex <= |sheet| - 1
      invariant 1 <= rowIndex <= |sheet|
      invariant groups == Fold(lines, rowIndex)
      decreases |sheet| - rowIndex
    {
      var c := ReadRow(sheet, rowIndex, highlighted);
      if c.Some? {
        groups := FileItem(groups, c.value);
      }
      rowIndex := rowIndex + 1;
    }
  }

  /** The pipeline from the decoded workbook: the highlight list from the
      first-column colours, then the row loop over the named sheet. */
  method ProcessWorkbook(colours: seq<string>, sheet: seq<Option<Row>>)
    returns (highlighted: seq<int>, groups: Groups)
    ensures forall r :: r in highlighted <==> 2 <= r <= |colours| && IsHighlight(colours[r - 1])
    ensures groups == Aggregate(sheet, highlighted)
  {
    highlighted := HighlightedRows(colours);
    groups := ProcessSheet(sheet, highlighted);
  }

  // ---------------------------------------------------------------------
  // Reference views of the fold, and the lemmas tying the fold to them.

  /** The line at index `i` (a row index of the sheet) is filed under `key`. */
  predicate FiledUnder(lines: seq<Option<Line>>, i: int, key: string) {
    1 <= i < |lines| && lines[i].Some? && lines[i].value.key == key
  }

  /** The items the lines at indices `1..n-1` file under `key`, in order. */
  function ItemsFor(lines: seq<Option<Line>>, key: string, n: nat): seq<ItemData>
    requires n <= |lines|
  {
    if n <= 1 then []
    else ItemsFor(lines, key, n - 1) + (if FiledUnder(lines, n - 1, key) then [lines[n - 1].value.item] else [])
  }

  /** The number of lines among indices `1..n-1`. */
  function CountLines(lines: seq<Option<Line>>, n: nat): nat
    requires n <= |lines|
  {
    if n <= 1 then 0 else CountLines(lines, n - 1) + (if lines[n - 1].Some? then 1 else 0)
  }

  ghost function PickKey(groups: Groups): (k: string)
    requires groups != map[]
    ensures k in groups
  {
    var k :| k in groups; k
  }

  /** The number of items over all orders. */
  ghost function TotalItems(groups: Groups): nat
    decreases |groups|
  {
    if groups == map[] then 0
    else
      var k := PickKey(groups);
      |groups[k].items| + TotalItems(groups - {k})
  }

  /** An order is well formed when it is filed under its own identity, is
      made by the fixed order person, has at least one item, and every note
      carries the category prefix. */
  ghost predicate WellFormed(groups: Groups) {
    forall k :: k in groups ==>
      && groups[k].uniqueIdentity == k
      && groups[k].orderPerson == OrderPerson
      && KeyDate(k) == Some(groups[k].orderDate)
      && |groups[k].items| > 0
      && forall j :: 0 <= j < |groups[k].items| ==> IsCategoryNote(groups[k].items[j].note)
  }

  /** A line as rows make them: its order carries its key and the order
      person, its note the category prefix. */
  predicate LineWellFormed(line: Line) {
    && line.order.uniqueIdentity == line.key
    && line.order.orderPerson == OrderPerson
    && KeyDate(line.key) == Some(line.order.orderDate)
    && IsCategoryNote(line.item.note)
  }

  /** An identity has an order exactly when some line so far was filed
      under it, and that order's items are exactly those lines' items, in
      row order. */
  lemma {:induction false} FoldMatchesItems(lines: seq<Option<Line>>, n: nat)
    requires n <= |lines|
    ensures forall key :: key in Fold(lines, n) <==> ItemsFor(lines, key, n) != []
    ensures forall key :: key in Fold(lines, n) ==> Fold(lines, n)[key].items == ItemsFor(lines, key, n)
    decreases n
  {
    if n > 1 {
      FoldMatchesItems(lines, n - 1);
    }
  }

  /** Items are filed under `key` exactly when some line is. */
  lemma {:induction false} ItemsForNonEmpty(lines: seq<Option<Line>>, key: string, n: nat)
    requires n <= |lines|
    ensures ItemsFor(lines, key, n) != [] <==> exists j :: 1 <= j < n && FiledUnder(lines, j, key)
    decreases n
  {
    if n > 1 {
      ItemsForNonEmpty(lines, key, n - 1);
      if FiledUnder(lines, n - 1, key) {
        assert |ItemsFor(lines, key, n)| == |ItemsFor(lines, key, n - 1)| + 1;
        assert 1 <= n - 1 < n && FiledUnder(lines, n - 1, key);
      } else {
        assert ItemsFor(lines, key, n) == ItemsFor(lines, key, n - 1);
        forall j | 1 <= j < n && FiledUnder(lines, j, key)
          ensures 1 <= j < n - 1
        {
        }
      }
    }
  }

  /** An order exists exactly for the identities some row was filed under,
      and holds exactly those rows' items in row order. */
  lemma AggregateIsGrouping(sheet: seq<Option<Row>>, highlighted: seq<int>, key: string)
    ensures key in Aggregate(sheet, highlighted) <==>
      exists i :: FiledUnder(LinesOf(sheet, highlighted), i, key)
    ensures key in Aggregate(sheet, highlighted) ==>
      Aggregate(sheet, highlighted)[key].items == ItemsFor(LinesOf(sheet, highlighted), key, |sheet|)
  {
    var lines := LinesOf(sheet, highlighted);
    assert Aggregate(sheet, highlighted) == Fold(lines, |lines|);
    FoldMatchesItems(lines, |lines|);
    ItemsForNonEmpty(lines, key, |lines|);
    if key in Aggregate(sheet, highlighted) {
      var j :| 1 <= j < |lines| && FiledUnder(lines, j, key);
      assert exists i :: FiledUnder(LinesOf(sheet, highlighted), i, key) by {
        assert FiledUnder(LinesOf(sheet, highlighted), j, key);
      }
    }
  }

  /** A line filed under `key` among indices `1..n-1` has its item there. */
  lemma {:induction false} ItemsForHas(lines: seq<Option<Line>>, key: string, n: nat, i: nat)
    requires i < n <= |lines|
    requires FiledUnder(lines, i, key)
    ensures lines[i].value.item in ItemsFor(lines, key, n)
    decreases n
  {
    if i < n - 1 {
      ItemsForHas(lines, key, n - 1, i);
    }
  }

  /** Every contributing row's item is in its order, with the title
      "category - product", the note "Category: category" and the row's
      numbers. */
  lemma RowItemFiled(sheet: seq<Option<Row>>, highlighted: seq<int>, key: string, i: nat)
    requires FiledUnder(LinesOf(sheet, highlighted), i, key)
    ensures sheet[i].Some? && ExtractRow(sheet[i].value).Success?
    ensures key in Aggregate(sheet, highlighted)
    ensures var e := ExtractRow(sheet[i].value).value;
      exists it :: it in Aggregate(sheet, highlighted)[key].items
        && it.title == e.category + " - " + e.product && it.note == NotePrefix + e.category
        && it.quantity == e.quantity && it.price == e.unitPrice && it.total == e.total
  {
    var lines := LinesOf(sheet, highlighted);
    LineAt(sheet, highlighted, i);
    AggregateIsGrouping(sheet, highlighted, key);
    ItemsForHas(lines, key, |lines|, i);
    var it := lines[i].value.item;
    assert it in Aggregate(sheet, highlighted)[key].items;
  }

  /** First insertion wins: an order's header is the one the first line
      filed under its identity created; later lines never change it. */
  lemma {:induction false} FirstLineFixesHeader(lines: seq<Option<Line>>, key: string, i: nat, n: nat)
    requires i < n <= |lines|
    requires FiledUnder(lines, i, key)
    requires forall j :: 1 <= j < i ==> !FiledUnder(lines, j, key)
    ensures key in Fold(lines, n)
    ensures Fold(lines, n)[key].Header() == lines[i].value.order.Header()
    decreases n
  {
    if n - 1 == i {
      FoldMatchesItems(lines, i);
      ItemsForNonEmpty(lines, key, i);
    } else {
      FirstLineFixesHeader(lines, key, i, n - 1);
    }
  }

  /** The same, for a sheet: the first readable highlighted row of an
      identity decides the order's id, date, recipient and address. */
  lemma FirstRowFixesHeader(sheet: seq<Option<Row>>, highlighted: seq<int>, key: string, i: nat)
    requires var lines := LinesOf(sheet, highlighted);
      && FiledUnder(lines, i, key)
      && forall j :: 1 <= j < i ==> !FiledUnder(lines, j, key)
    ensures key in Aggregate(sheet, highlighted)
    ensures Aggregate(sheet, highlighted)[key].Header() ==
            LinesOf(sheet, highlighted)[i].value.order.Header()
  {
    var lines := LinesOf(sheet, highlighted);
    FirstLineFixesHeader(lines, key, i, |lines|);
  }

  /** Spelled out in cells: the order of an identity carries the id, date
      and city cells of its first row, the fixed order person, and the
      recipient fields of that row's parsed contact. */
  lemma FirstRowHeaderFields(sheet: seq<Option<Row>>, highlighted: seq<int>, key: string, i: nat)
    requires var lines := LinesOf(sheet, highlighted);
      && FiledUnder(lines, i, key)
      && forall j :: 1 <= j < i ==> !FiledUnder(lines, j, key)
    ensures sheet[i].Some? && i + 1 in highlighted && ExtractRow(sheet[i].value).Success?
    ensures key in Aggregate(sheet, highlighted)
    ensures var e := ExtractRow(sheet[i].value).value;
      var contact := ParseContactInfo(e.contact);
      var o := Aggregate(sheet, highlighted)[key];
      && o.uniqueIdentity == key && o.orderId == e.id && o.orderDate == e.date
      && o.orderPerson == OrderPerson && o.shipToCity == e.city
      && o.shipToName == contact.name && o.shipToAddress == contact.address
      && o.shipToRegion == contact.region
  {
    FirstRowFixesHeader(sheet, highlighted, key, i);
    LineAt(sheet, highlighted, i);
    var e := ExtractRow(sheet[i].value).value;
    var o := Aggregate(sheet, highlighted)[key];
    var h := LinesOf(sheet, highlighted)[i].value.order;
    assert h == LineOf(e).order;
    assert o.Header() == h.Header();
    assert o.orderId == o.Header().orderId && o.orderDate == o.Header().orderDate;
  }

  /** A row that is null, not highlighted, or fails to read leaves the
      orders exactly as they were before it. */
  lemma SkippedRowLeavesOrders(sheet: seq<Option<Row>>, highlighted: seq<int>, i: nat)
    requires 1 <= i < |sheet|
    requires sheet[i].None? || i + 1 !in highlighted || ExtractRow(sheet[i].value).Failure?
    ensures Fold(LinesOf(sheet, highlighted), i + 1) == Fold(LinesOf(sheet, highlighted), i)
  {
    LineAt(sheet, highlighted, i);
  }

  lemma {:induction false} TotalItemsRemove(groups: Groups, key: string)
    requires key in groups
    ensures TotalItems(groups) == |groups[key].items| + TotalItems(groups - {key})
    decreases |groups|
  {
    var k := PickKey(groups);
    if k != key {
      var rest := groups - {k};
      assert key in rest && |rest| < |groups|;
      TotalItemsRemove(rest, key);
      var rest2 := groups - {key};
      assert k in rest2 && |rest2| < |groups|;
      TotalItemsRemove(rest2, k);
      assert rest - {key} == rest2 - {k};
    }
  }

  /** Each line adds exactly one item overall. */
  lemma AddLineCount(groups: Groups, line: Line)
    ensures TotalItems(AddLine(groups, line)) == TotalItems(groups) + 1
  {
    var r := AddLine(groups, line);
    TotalItemsRemove(r, line.key);
    if line.key in groups {
      TotalItemsRemove(groups, line.key);
      assert r - {line.key} == groups - {line.key};
    } else {
      assert r - {line.key} == groups;
    }
  }

  /** The orders hold as many items as there were lines: one per readable
      highlighted row. */
  lemma {:induction false} ItemCountIsLineCount(lines: seq<Option<Line>>, n: nat)
    requires n <= |lines|
    ensures TotalItems(Fold(lines, n)) == CountLines(lines, n)
    decreases n
  {
    if n > 1 {
      ItemCountIsLineCount(lines, n - 1);
      if lines[n - 1].Some? {
        AddLineCount(Fold(lines, n - 1), lines[n - 1].value);
      }
    }
  }

  /** Over a whole sheet: the orders hold exactly one item per readable
      highlighted row. */
  lemma AggregateItemCount(sheet: seq<Option<Row>>, highlighted: seq<int>)
    ensures TotalItems(Aggregate(sheet, highlighted)) == CountLines(LinesOf(sheet, highlighted), |sheet|)
  {
    ItemCountIsLineCount(LinesOf(sheet, highlighted), |sheet|);
  }

  /** Rows make well-formed lines. */
  lemma LinesWellFormed(sheet: seq<Option<Row>>, highlighted: seq<int>)
    ensures forall i :: 0 <= i < |sheet| && LinesOf(sheet, highlighted)[i].Some? ==>
      LineWellFormed(LinesOf(sheet, highlighted)[i].value)
  {
    forall i | 0 <= i < |sheet| && LinesOf(sheet, highlighted)[i].Some?
      ensures LineWellFormed(LinesOf(sheet, highlighted)[i].value)
    {
      LineAt(sheet, highlighted, i);
    }
  }

  /** Filing well-formed lines keeps every order well formed. */
  lemma {:induction false} FoldWellFormed(lines: seq<Option<Line>>, n: nat)
    requires n <= |lines|
    requires forall i :: 0 <= i < |lines| && lines[i].Some? ==> LineWellFormed(lines[i].value)
    ensures WellFormed(Fold(lines, n))
    decreases n
  {
    if n > 1 {
      FoldWellFormed(lines, n - 1);
      if lines[n - 1].Some? {
        var line := lines[n - 1].value;
        var g := Fold(lines, n - 1);
        var r := AddLine(g, line);
        assert LineWellFormed(line);
        forall k | k in r
          ensures r[k].uniqueIdentity == k && r[k].orderPerson == OrderPerson && |r[k].items| > 0
          ensures KeyDate(k) == Some(r[k].orderDate)
          ensures forall j :: 0 <= j < |r[k].items| ==> IsCategoryNote(r[k].items[j].note)
        {
          if k == line.key {
            assert r[k].uniqueIdentity == r[k].Header().uniqueIdentity;
            assert r[k].orderPerson == r[k].Header().orderPerson;
            assert r[k].orderDate == r[k].Header().orderDate;
          }
        }
      }
    }
  }

  /** Every order of a sheet is well formed. */
  lemma AggregateWellFormed(sheet: seq<Option<Row>>, highlighted: seq<int>)
    ensures WellFormed(Aggregate(sheet, highlighted))
  {
    var lines := LinesOf(sheet, highlighted);
    LinesWellFormed(sheet, highlighted);
    FoldWellFormed(lines, |lines|);
  }

  /** Every row filed under an order carries that order's date: merging
      never mixes dates. */
  lemma MergedRowsShareDate(sheet: seq<Option<Row>>, highlighted: seq<int>, key: string, i: nat)
    requires FiledUnder(LinesOf(sheet, highlighted), i, key)
    ensures key in Aggregate(sheet, highlighted)
    ensures LinesOf(sheet, highlighted)[i].value.order.orderDate == Aggregate(sheet, highlighted)[key].orderDate
  {
    AggregateIsGrouping(sheet, highlighted, key);
    AggregateWellFormed(sheet, highlighted);
    LinesWellFormed(sheet, highlighted);
  }

  /** Lines that are all empty file nothing. */
  lemma {:induction false} FoldOfNothing(lines: seq<Option<Line>>, n: nat)
    requires n <= |lines|
    requires forall i :: 0 <= i < |lines| ==> lines[i].None?
    ensures Fold(lines, n) == map[]
    decreases n
  {
    if n > 1 {
      FoldOfNothing(lines, n - 1);
    }
  }

  /** Without highlighted rows there are no orders, whatever the sheet
      holds. */
  lemma NothingHighlighted(sheet: seq<Option<Row>>)
    ensures Aggregate(sheet, []) == map[]
  {
    var lines := LinesOf(sheet, []);
    forall i | 0 <= i < |lines|
      ensures lines[i].None?
    {
      LineAt(sheet, [], i);
    }
    FoldOfNothing(lines, |lines|);
  }

  /** Rows outside the highlighted set never contribute: whatever such a
      row holds, the orders are the same. */
  lemma UnhighlightedRowIgnored(sheet: seq<Option<Row>>, highlighted: seq<int>, i: nat, row: Option<Row>)
    requires 1 <= i < |sheet|
    requires i + 1 !in highlighted
    ensures Aggregate(sheet[i := row], highlighted) == Aggregate(sheet, highlighted)
  {
    LinesAgree(sheet, highlighted, i, row);
  }

  /** A row that fails to read changes nothing: the orders are those of the
      sheet with that row null. */
  lemma FailedRowIgnored(sheet: seq<Option<Row>>, highlighted: seq<int>, i: nat, row: Row)
    requires 1 <= i < |sheet|
    requires ExtractRow(row).Failure?
    ensures Aggregate(sheet[i := Some(row)], highlighted) == Aggregate(sheet[i := None], highlighted)
  {
    var s := sheet[i := None];
    assert sheet[i := Some(row)] == s[i := Some(row)];
    LinesAgree(s, highlighted, i, Some(row));
  }

  /** Replacing a row by one that contributes the same leaves the lines
      unchanged. */
  lemma LinesAgree(sheet: seq<Option<Row>>, highlighted: seq<int>, i: nat, row: Option<Row>)
    requires i < |sheet|
    requires Contribution(i + 1, row, highlighted) == Contribution(i + 1, sheet[i], highlighted)
    ensures LinesOf(sheet[i := row], highlighted) == LinesOf(sheet, highlighted)
  {
    MapRowsUpdate(sheet, (rowNumber: int, row: Option<Row>) => Contribution(rowNumber, row, highlighted), i, row);
  }
}
