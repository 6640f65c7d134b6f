/** Reading one highlighted row into typed values (Program.cs, the body of
    the per-row `try`). The spreadsheet library's cell decoding is taken as
    already done: each cell arrives as the outcome of `ToString()` and of
    the .NET parse the code applies to it. */
module Rows {
  import opened Wrappers
  import opened Dates
  import opened Models

  /** A cell that is parsed: absent (a null cell), parsed, or rejected by
      the parser (`DateTime.Parse`, `int.Parse`, `decimal.Parse` throw). */
  datatype Field<+T> = Missing | Parsed(value: T) | Unparseable

  /** What the workbook's formula evaluator yields for a formula cell: a
      number, another kind of value, or an exception (a function it does
      not implement, an unresolvable reference). */
  datatype FormulaResult = NumericResult(value: Decimal) | NonNumericResult | EvaluationFailed

  /** The total-price cell (column 8). A plain cell is read through its
      numeric value, which the library refuses for text, boolean and error
      cells. */
  datatype TotalCell =
    | NoTotal
    | Numeric(value: Decimal)
    | NotNumeric
    | Formula(result: FormulaResult)

  /** The nine cells the extraction reads, columns 0..8. */
  datatype Row = Row(
    id: Option<string>,
    date: Field<Date>,
    city: Option<string>,
    category: Option<string>,
    product: Option<string>,
    quantity: Field<Int32>,
    contact: Option<string>,
    unitPrice: Field<Decimal>,
    total: TotalCell)

  /** Why a row was skipped, in the order the code meets the failures. */
  datatype RowError =
    | DateMissing
    | DateUnparseable
    | QuantityUnparseable
    | PriceUnparseable
    | TotalNotNumeric
    | FormulaFailed

  /** The typed values of one successfully read row. */
  datatype Extracted = Extracted(
    id: string,
    date: Date,
    city: string,
    category: string,
    product: string,
    quantity: Int32,
    contact: string,
    unitPrice: Decimal,
    total: Decimal)

  /** The total price: 0 for a missing cell and for a formula that does not
      evaluate to a number, the number otherwise; `None` where the code
      throws (a plain cell that holds no number, a formula whose
      evaluation throws). */
  function ResolveTotal(t: TotalCell): (r: Option<Decimal>)
    ensures r.None? <==> t.NotNumeric? || t == Formula(EvaluationFailed)
    ensures r == Some(0.0) <== t.NoTotal? || t == Formula(NonNumericResult)
    ensures t.Numeric? ==> r == Some(t.value)
    ensures t.Formula? && t.result.NumericResult? ==> r == Some(t.result.value)
  {
    match t
    case NoTotal => Some(0.0)
    case Numeric(v) => Some(v)
    case NotNumeric => None
    case Formula(NumericResult(v)) => Some(v)
    case Formula(NonNumericResult) => Some(0.0)
    case Formula(EvaluationFailed) => None
  }

  /** A number cell whose absence means 0 (`?? "0"` before parsing). */
  function NumberOr0<T>(f: Field<T>, zero: T): Option<T> {
    match f
    case Missing => Some(zero)
    case Parsed(v) => Some(v)
    case Unparseable => None
  }

  /** Reads a row. The text cells default to "" and never fail; the row
      fails exactly when the date is missing or unparseable, the quantity
      or unit price is unparseable, or the total cell holds no number; when
      several fail, the error is the first one in column order. */
  function ExtractRow(row: Row): (r: Result<Extracted, RowError>)
    ensures r.Success? <==>
      && row.date.Parsed?
      && !row.quantity.Unparseable?
      && !row.unitPrice.Unparseable?
      && !row.total.NotNumeric?
      && row.total != Formula(EvaluationFailed)
    ensures row.date.Missing? ==> r == Failure(DateMissing)
    ensures row.date.Unparseable? ==> r == Failure(DateUnparseable)
    ensures row.date.Parsed? && row.quantity.Unparseable? ==> r == Failure(QuantityUnparseable)
    ensures row.date.Parsed? && !row.quantity.Unparseable? && row.unitPrice.Unparseable? ==>
      r == Failure(PriceUnparseable)
    ensures (row.date.Parsed? && !row.quantity.Unparseable? && !row.unitPrice.Unparseable?
             && row.total.NotNumeric?) ==> r == Failure(TotalNotNumeric)
    ensures (row.date.Parsed? && !row.quantity.Unparseable? && !row.unitPrice.Unparseable?
             && row.total == Formula(EvaluationFailed)) ==> r == Failure(FormulaFailed)
    ensures r.Success? ==>
      && r.value.id == row.id.GetOr("")
      && r.value.date == row.date.value
      && r.value.city == row.city.GetOr("")
      && r.value.category == row.category.GetOr("")
      && r.value.product == row.product.GetOr("")
      && r.value.contact == row.contact.GetOr("")
      && (row.quantity.Missing? ==> r.value.quantity == 0)
      && (row.quantity.Parsed? ==> r.value.quantity == row.quantity.value)
      && (row.unitPrice.Missing? ==> r.value.unitPrice == 0.0)
      && (row.unitPrice.Parsed? ==> r.value.unitPrice == row.unitPrice.value)
      && Some(r.value.total) == ResolveTotal(row.total)
  {
    match row.date
    case Missing => Failure(DateMissing)
    case Unparseable => Failure(DateUnparseable)
    case Parsed(date) =>
      match NumberOr0(row.quantity, 0)
      case None => Failure(QuantityUnparseable)
      case Some(quantity) =>
        match NumberOr0(row.unitPrice, 0.0)
        case None => Failure(PriceUnparseable)
        case Some(unitPrice) =>
          match ResolveTotal(row.total)
          case None => Failure(if row.total.NotNumeric? then TotalNotNumeric else FormulaFailed)
          case Some(total) =>
            Success(Extracted(
              row.id.GetOr(""), date, row.city.GetOr(""), row.category.GetOr(""),
              row.product.GetOr(""), quantity, row.contact.GetOr(""), unitPrice, total))
  }

  /** The cells a typed row is written as: every cell present and readable. */
  function CellsOf(e: Extracted): Row {
    Row(Some(e.id), Parsed(e.date), Some(e.city), Some(e.category), Some(e.product),
        Parsed(e.quantity), Some(e.contact), Parsed(e.unitPrice), Numeric(e.total))
  }

  /** Writing typed values into cells and reading them back is lossless. */
  lemma ExtractCellsOf(e: Extracted)
    ensures ExtractRow(CellsOf(e)) == Success(e)
  {
  }

  /** A failing row fails whatever its other cells hold: the outcome of
      extraction depends only on the four parsed cells, never on the text
      cells. */
  lemma TextCellsNeverFail(row: Row, id: Option<string>, city: Option<string>,
                           category: Option<string>, product: Option<string>,
                           contact: Option<string>)
    ensures ExtractRow(row).Success? ==
            ExtractRow(row.(id := id, city := city, category := category,
                            product := product, contact := contact)).Success?
  {
  }
}
