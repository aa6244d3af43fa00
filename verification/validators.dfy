/** The single-responsibility checks of the orders controller. Each one looks
    at the store and the request and either passes or fails with one error. */
module Validators {
  import opened OrderTypes

  /** A string field counts as supplied when it is present and not "". */
  predicate Supplied(s: Option<string>)
  {
    s.Some? && s.value != ""
  }

  /** A dish quantity the controller accepts: an integer of at least 1. */
  predicate ValidQuantity(q: Qty)
  {
    q.IntVal? && q.n >= 1
  }

  /** The status enumeration, written out. */
  predicate KnownStatus(s: string)
  {
    s == "pending" || s == "preparing" || s == "out-for-delivery" || s == "delivered"
  }

  // ---------------------------------------------------------------- orderExists

  /** `orders.find((order) => order.id === orderId)`, as the position of the
      first order whose id is exactly `orderId`. */
  function FindOrder(store: seq<Order>, orderId: string): (r: Option<nat>)
    ensures r.None? <==> forall j :: 0 <= j < |store| ==> store[j].id != orderId
    ensures r.Some? ==> r.value < |store| && store[r.value].id == orderId
    ensures r.Some? ==> forall j :: 0 <= j < r.value ==> store[j].id != orderId
  {
    if |store| == 0 then None
    else if store[0].id == orderId then Some(0)
    else
      match FindOrder(store[1..], orderId)
      case None => None
      case Some(k) => Some(k + 1)
  }

  /** `orderExists`: passes when some order carries the route's id, and
      otherwise fails with 404 naming that id. */
  function OrderExists(store: seq<Order>, orderId: string): (v: Verdict)
    ensures v.Pass? <==> exists j :: 0 <= j < |store| && store[j].id == orderId
    ensures v.Fail? ==> v.error == NotFound(orderId)
  {
    if FindOrder(store, orderId).Some? then Pass else Fail(NotFound(orderId))
  }

  // ---------------------------------------------------------------- bodyDataHas

  /** The JavaScript value `data[propertyName]` evaluates to. */
  datatype JsValue = Undefined | Str(s: string) | Arr(items: seq<Dish>) | OtherObject

  predicate Truthy(v: JsValue)
  {
    match v
    case Undefined => false
    case Str(s) => s != ""
    case Arr(_) => true
    case OtherObject => true
  }

  /** Reads a property of `data`; `const { data = {} } = req.body` makes every
      property undefined when `data` itself is missing. */
  function DataProperty(data: Option<Payload>, f: Field): JsValue
  {
    match data
    case None => Undefined
    case Some(p) =>
      match f
      case DeliverTo => if p.deliverTo.Some? then Str(p.deliverTo.value) else Undefined
      case MobileNumber => if p.mobileNumber.Some? then Str(p.mobileNumber.value) else Undefined
      case Status => if p.status.Some? then Str(p.status.value) else Undefined
      case Dishes =>
        match p.dishes
        case Absent => Undefined
        case NotAList => OtherObject
        case List(ds) => Arr(ds)
  }

  /** `bodyDataHas(propertyName)`: passes when the named property is truthy and
      not "" (the second test is implied by the first, as in the source), and
      otherwise fails with "Order must include a <propertyName>". */
  function BodyDataHas(f: Field, data: Option<Payload>): (v: Verdict)
    ensures v.Fail? ==> v.error == MissingField(f)
    ensures data.None? ==> v.Fail?
    ensures data.Some? && f == DeliverTo ==> (v.Pass? <==> Supplied(data.value.deliverTo))
    ensures data.Some? && f == MobileNumber ==> (v.Pass? <==> Supplied(data.value.mobileNumber))
    ensures data.Some? && f == Status ==> (v.Pass? <==> Supplied(data.value.status))
    ensures data.Some? && f == Dishes ==> (v.Pass? <==> !data.value.dishes.Absent?)
  {
    var value := DataProperty(data, f);
    if Truthy(value) && value != Str("") then Pass else Fail(MissingField(f))
  }

  // ------------------------------------------------------- dishesPropertyIsValid

  /** `dishesPropertyIsValid`: an empty array or a non-array fails with
      "Order must include at least one dish"; reading `length` of a missing
      `dishes` throws. The source calls `next()` after `next(err)` without
      returning (orders.controller.js line 60); this is the intended if/else. */
  function DishesPropertyIsValid(data: Option<Payload>): (v: Verdict)
    ensures v.Pass? <==> data.Some? && data.value.dishes.List? && |data.value.dishes.items| > 0
    ensures v == Fail(Thrown) <==> data.None? || data.value.dishes.Absent?
    ensures v.Fail? ==> v.error in {NoDishes, Thrown}
  {
    var dishes := if data.None? then Absent else data.value.dishes;
    match dishes
    case Absent => Fail(Thrown)
    case NotAList => Fail(NoDishes)
    case List(ds) => if |ds| == 0 then Fail(NoDishes) else Pass
  }

  // ------------------------------------------------------- quantityIsValidNumber

  /** The test inside the `forEach` callback: `!q || q < 1 || !Number.isInteger(q)
      || q === null`. A missing quantity and 0 are falsy; a non-integer fails
      `Number.isInteger`. */
  predicate QuantityRejected(q: Qty)
  {
    match q
    case Missing => true
    case IntVal(n) => n == 0 || n < 1
    case NonInteger => true
  }

  lemma QuantityRejectedIsInvalid(q: Qty)
    ensures QuantityRejected(q) <==> !ValidQuantity(q)
  {
  }

  /** The zero-based position of the first dish whose quantity is rejected. The
      source's `return next(...)` only leaves the callback, not the `forEach`
      (line 43); the first offending index is what the message reports. */
  function FirstBadQuantity(dishes: seq<Dish>): (r: Option<nat>)
    ensures r.None? <==> forall i :: 0 <= i < |dishes| ==> ValidQuantity(dishes[i].quantity)
    ensures r.Some? ==> r.value < |dishes| && !ValidQuantity(dishes[r.value].quantity)
    ensures r.Some? ==> forall i :: 0 <= i < r.value ==> ValidQuantity(dishes[i].quantity)
  {
    if |dishes| == 0 then None
    else if QuantityRejected(dishes[0].quantity) then Some(0)
    else
      match FirstBadQuantity(dishes[1..])
      case None => None
      case Some(k) => Some(k + 1)
  }

  /** `quantityIsValidNumber`: fails with "Dish <index> must have a quantity ..."
      for the first offending dish, passes when every quantity is an integer of
      at least 1, and throws when `dishes` is not an array. The source calls
      `next()` after the `forEach` even when the callback already called
      `next(err)` (orders.controller.js line 49); this is the intended if/else,
      which passes only when no dish was rejected. */
  function QuantityIsValidNumber(data: Option<Payload>): (v: Verdict)
    ensures v.Pass? <==>
      data.Some? && data.value.dishes.List?
      && forall i :: 0 <= i < |data.value.dishes.items| ==> ValidQuantity(data.value.dishes.items[i].quantity)
    ensures v == Fail(Thrown) <==> data.None? || !data.value.dishes.List?
    ensures v.Fail? && v.error.BadQuantity? ==>
      data.Some? && data.value.dishes.List?
      && var ds := data.value.dishes.items;
      && v.error.index < |ds| && !ValidQuantity(ds[v.error.index].quantity)
      && forall i :: 0 <= i < v.error.index ==> ValidQuantity(ds[i].quantity)
    ensures v.Fail? ==> v.error.BadQuantity? || v.error == Thrown
  {
    var dishes := if data.None? then Absent else data.value.dishes;
    match dishes
    case List(ds) =>
      (match FirstBadQuantity(ds)
       case Some(i) => Fail(BadQuantity(i))
       case None => Pass)
    case _ => Fail(Thrown)
  }

  // ------------------------------------------------------- statusPropertyIsValid

  /** `statusPropertyIsValid`: `validStatus.includes(status)`. */
  function StatusPropertyIsValid(data: Option<Payload>): (v: Verdict)
    ensures v.Pass? <==> data.Some? && data.value.status.Some? && KnownStatus(data.value.status.value)
    ensures v.Fail? ==> v.error == BadStatus
  {
    var status := if data.None? then None else data.value.status;
    if status.Some? && status.value in ValidStatuses then Pass else Fail(BadStatus)
  }
}
