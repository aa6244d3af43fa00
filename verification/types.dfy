/** The values that flow through the GrubDash orders controller: stored orders,
    request payloads (whose fields may each be absent), and the replies and
    errors the middleware chains produce. JavaScript's dynamic values are
    abstracted into small sum types. */
module OrderTypes {

  datatype Option<+T> = None | Some(value: T)

  /** A dish `quantity` as it arrives in the JSON payload: missing (undefined
      or null), an integer, or some other value (a fraction, a string, ...). */
  datatype Qty = Missing | IntVal(n: int) | NonInteger

  /** A dish embedded in an order. Only `quantity` is inspected by the
      controller; the name stands for the dish's other attributes. */
  datatype Dish = Dish(name: string, quantity: Qty)

  /** An order held in the store. `status` is absent on orders made by `create`. */
  datatype Order = Order(
    id: string,
    deliverTo: string,
    mobileNumber: string,
    status: Option<string>,
    dishes: seq<Dish>)

  /** The `dishes` property of a payload: missing (undefined or null), a value
      that is not an array, or an array. */
  datatype DishesField = Absent | NotAList | List(items: seq<Dish>)

  /** `req.body.data`. A string field holding "" is falsy, exactly like a missing one. */
  datatype Payload = Payload(
    id: Option<string>,
    deliverTo: Option<string>,
    mobileNumber: Option<string>,
    status: Option<string>,
    dishes: DishesField)

  /** An incoming request: the `:orderId` route parameter and the optional `data`
      object of the body. Routes without a parameter ignore `orderId`. */
  datatype Request = Request(orderId: string, data: Option<Payload>)

  /** The payload properties that `bodyDataHas` is asked about. */
  datatype Field = DeliverTo | MobileNumber | Status | Dishes

  /** The property name as written in the source and in the error message. */
  function FieldName(f: Field): string
  {
    match f
    case DeliverTo => "deliverTo"
    case MobileNumber => "mobileNumber"
    case Status => "status"
    case Dishes => "dishes"
  }

  /** Everything a request can fail with. `Thrown` stands for a TypeError raised
      inside a check (reading `length` of undefined, calling `forEach` on a
      non-array), which Express turns into a 500 reply. */
  datatype Error =
    | NotFound(orderId: string)
    | MissingField(field: Field)
    | NoDishes
    | BadQuantity(index: nat)
    | BadStatus
    | IdMismatch(orderId: string, given: string)
    | NotPending
    | Thrown

  /** The HTTP status code an error is reported with. */
  function ErrorCode(e: Error): nat
  {
    match e
    case NotFound(_) => 404
    case Thrown => 500
    case _ => 400
  }

  /** The outcome of a single check: continue with `next()` or stop with `next(err)`. */
  datatype Verdict = Pass | Fail(error: Error)

  /** What a handler sends back. */
  datatype Reply =
    | Found(order: Order)
    | Created(order: Order)
    | Updated(order: Order)
    | NoContent
    | Failed(error: Error)

  function ReplyCode(r: Reply): nat
  {
    match r
    case Found(_) => 200
    case Created(_) => 201
    case Updated(_) => 200
    case NoContent => 204
    case Failed(e) => ErrorCode(e)
  }

  /** A reply together with the store as the request leaves it. */
  datatype Response = Response(reply: Reply, store: seq<Order>)

  const Pending: string := "pending"

  /** The four statuses `statusPropertyIsValid` accepts, in the source's order. */
  const ValidStatuses: seq<string> := ["pending", "preparing", "out-for-delivery", "delivered"]
}
