/** The in-memory records the aggregator builds and the XML writer reads:
    `OrderData`, `ItemData` and `ContactInfo` of Models/OrderData.cs. */
module Models {
  import opened Dates

  /** A C# `int`: `int.Parse` rejects anything outside this range. */
  type Int32 = x: int | -0x8000_0000 <= x < 0x8000_0000

  /** A C# `decimal`; the pipeline only copies such values, so any real
      number stands for one. */
  type Decimal = real

  /** The four fields recovered from a free-text contact. */
  datatype ContactInfo = ContactInfo(name: string, address: string, city: string, region: string)

  /** One line item of an order: one per processed spreadsheet row. */
  datatype ItemData = ItemData(title: string, note: string, quantity: Int32, price: Decimal, total: Decimal)

  /** An order: a header fixed when the order is created, and its items in
      the order their rows were met. */
  datatype OrderData = OrderData(
    uniqueIdentity: string,
    orderId: string,
    orderDate: Date,
    orderPerson: string,
    shipToName: string,
    shipToAddress: string,
    shipToCity: string,
    shipToRegion: string,
    items: seq<ItemData>)
  {
    /** The order with its item list cleared: the header fields alone. */
    function Header(): OrderData {
      this.(items := [])
    }
  }
}
