/**
 * The order functions of `lib/supabase.ts`: `createOrder` guards its required
 * fields before inserting and turns every database failure into a thrown
 * error; `getOrderByNumber` answers `null` instead of throwing. The database
 * calls are reduced to their outcomes.
 */
module Orders {
  import opened Wrappers

  datatype Address = Address(firstName: string, lastName: string, address: string, city: string,
                             postalCode: string, country: string)

  datatype OrderLine = OrderLine(id: string, name: string, price: real, quantity: int, size: Option<string>)

  /** The data `createOrder` receives (an order without id and creation time). */
  datatype OrderInput = OrderInput(
    orderNumber: string,
    customerEmail: string,
    customerName: string,
    customerAddress: Address,
    items: seq<OrderLine>,
    subtotal: real,
    currency: string,
    paymentIntentId: string,
    status: string)

  /** A stored order as the database returns it. */
  datatype Order = Order(id: string, fields: OrderInput, createdAt: string)

  /** What `insert(...).select().single()` answers: an error object, data (possibly null), or a throw. */
  datatype InsertOutcome = InsertError(errorMessage: Option<string>) | InsertData(data: Option<Order>) | InsertThrew(message: string)

  /** What `select(...).eq(...).single()` answers. */
  datatype LookupOutcome = LookupError | LookupData(data: Option<Order>) | LookupThrew

  /** A returned value or the message of a thrown `Error`. */
  datatype Result<T> = Returned(value: T) | Thrown(message: string)

  /** The result and the row handed to `insert`, if the insert was attempted. */
  datatype CreateHandled = CreateHandled(result: Result<Order>, inserted: Option<OrderInput>)

  /** The result and the order number queried, if the query was made. */
  datatype LookupHandled = LookupHandled(order: Option<Order>, queried: Option<string>)

  const MissingFieldsMessage: string := "Missing required order fields"
  const NoDataMessage: string := "No data returned from database"

  /** Cents of a non-negative amount, a half cent rounded up. */
  function CentsOf(y: real): (n: int)
    requires y >= 0.0
    ensures n >= 0
    ensures -0.5 < (n as real) - y * 100.0 <= 0.5
  {
    (y * 100.0 + 0.5).Floor
  }

  lemma CentsToReal(cents: int, x: real)
    requires -0.5 <= (cents as real) - x * 100.0 <= 0.5
    ensures -0.005 <= (cents as real) / 100.0 - x <= 0.005
    ensures ((cents as real) / 100.0 * 100.0).Floor as real == (cents as real) / 100.0 * 100.0
  {
    assert (cents as real) / 100.0 * 100.0 == cents as real;
  }

  /** `Number(x.toFixed(2))` on exact reals: round to cents, halves away from zero. */
  function RoundToCents(x: real): (r: real)
    ensures -0.005 <= r - x <= 0.005
    ensures (r * 100.0).Floor as real == r * 100.0
    ensures x >= 0.0 ==> r >= 0.0
  {
    var cents := if x >= 0.0 then CentsOf(x) else -CentsOf(-x);
    CentsToReal(cents, x);
    (cents as real) / 100.0
  }

  predicate HasRequiredFields(order: OrderInput) {
    order.orderNumber != "" && order.customerEmail != "" && order.customerName != ""
  }

  /** `createOrder`: guard, insert with the subtotal rounded to cents, and rethrow every failure. */
  function CreateOrder(order: OrderInput, db: InsertOutcome): (h: CreateHandled)
    ensures !HasRequiredFields(order) ==> h == CreateHandled(Thrown(MissingFieldsMessage), None)
    ensures HasRequiredFields(order) ==>
      h.inserted == Some(order.(subtotal := RoundToCents(order.subtotal)))
    ensures HasRequiredFields(order) ==>
      match db
      case InsertError(m) =>
        h.result == Thrown("Database error: " + if m.Some? && m.value != "" then m.value else "Unknown database error")
      case InsertData(None) => h.result == Thrown(NoDataMessage)
      case InsertData(Some(row)) => h.result == Returned(row)
      case InsertThrew(m) => h.result == Thrown(m)
    ensures h.inserted.Some? ==> HasRequiredFields(order)
    ensures h.result.Returned? ==> h.inserted.Some? && db == InsertData(Some(h.result.value))
  {
    if !HasRequiredFields(order) then CreateHandled(Thrown(MissingFieldsMessage), None)
    else
      var row := order.(subtotal := RoundToCents(order.subtotal));
      var result := match db
        case InsertError(m) =>
          Thrown("Database error: " + if m.Some? && m.value != "" then m.value else "Unknown database error")
        case InsertData(None) => Thrown(NoDataMessage)
        case InsertData(Some(data)) => Returned(data)
        case InsertThrew(m) => Thrown(m);
      CreateHandled(result, Some(row))
  }

  /** `getOrderByNumber`: an empty number, a query error or a throw all give `null`. */
  function GetOrderByNumber(orderNumber: string, db: LookupOutcome): (h: LookupHandled)
    ensures orderNumber == "" ==> h == LookupHandled(None, None)
    ensures orderNumber != "" ==> h.queried == Some(orderNumber)
    ensures orderNumber != "" && db.LookupData? ==> h.order == db.data
    ensures !db.LookupData? ==> h.order.None?
  {
    if orderNumber == "" then LookupHandled(None, None)
    else
      match db
      case LookupError => LookupHandled(None, Some(orderNumber))
      case LookupData(data) => LookupHandled(data, Some(orderNumber))
      case LookupThrew => LookupHandled(None, Some(orderNumber))
  }

  /** An order without a customer e-mail is rejected before any database write, whatever the database would do. */
  lemma MissingEmailNeverInserts(order: OrderInput, db: InsertOutcome)
    requires order.customerEmail == ""
    ensures CreateOrder(order, db).inserted.None? && CreateOrder(order, db).result.Thrown?
  {
  }
}
