/** `destroy` as the source writes it. It looks the order up a second time with
    `orders.findIndex((order) => order.id === Number(orderId))`; ids are strings
    (the lookup in `orderExists` matched one with `===` against the string
    route parameter), and `===` between a string and a number is always false,
    so the index is -1 and `orders.splice(-1, 1)` removes the LAST order rather
    than the one found. The rest of the model uses the corrected
    `Store.Destroy`, which removes the found order. */
module AsWritten {
  import opened OrderTypes
  import opened Validators
  import opened Store
  import opened Pipeline
  import Messages

  /** The primitive values the comparison in `destroy` sees. */
  datatype JsScalar = JsString(s: string) | JsNumber(n: nat) | JsNaN

  /** `Number(orderId)` for a route parameter: "" is 0, a string of decimal
      digits is its value, and anything else is taken as NaN (leading signs,
      blanks, fractions and exponents are not modelled; only the fact that the
      result is a number matters here). */
  function ToNumber(s: string): (v: JsScalar)
    ensures !v.JsString?
    ensures s == "" ==> v == JsNumber(0)
  {
    if forall i :: 0 <= i < |s| ==> Messages.IsDigit(s[i]) then JsNumber(Messages.ParseDecimal(s))
    else JsNaN
  }

  /** A route id made of decimal digits, such as "1", reads back through
      `Number` as its value: what `===` then sees is a number, not the string. */
  lemma ToNumberOfDecimal(n: nat)
    ensures ToNumber(Messages.NatToString(n)) == JsNumber(n)
  {
    Messages.ParseNatToString(n);
  }

  /** `===` on primitives: equal type and equal value; NaN equals nothing. */
  predicate StrictEquals(a: JsScalar, b: JsScalar)
  {
    match (a, b)
    case (JsString(x), JsString(y)) => x == y
    case (JsNumber(x), JsNumber(y)) => x == y
    case _ => false
  }

  /** `array.findIndex(matches)`: the first position whose element matches, or -1. */
  function FindIndex(store: seq<Order>, matches: Order -> bool): (r: int)
    ensures -1 <= r < |store|
    ensures r == -1 <==> forall j :: 0 <= j < |store| ==> !matches(store[j])
    ensures r >= 0 ==> matches(store[r]) && forall j :: 0 <= j < r ==> !matches(store[j])
  {
    if |store| == 0 then -1
    else if matches(store[0]) then 0
    else
      var k := FindIndex(store[1..], matches);
      if k < 0 then -1 else k + 1
  }

  /** The index `destroy` computes: `orders.findIndex((order) => order.id === Number(orderId))`. */
  function DestroyIndex(store: seq<Order>, orderId: string): int
  {
    FindIndex(store, (order: Order) => StrictEquals(JsString(order.id), ToNumber(orderId)))
  }

  /** A string id never strictly equals a number, so that index is always -1. */
  lemma DestroyIndexIsMinusOne(store: seq<Order>, orderId: string)
    ensures DestroyIndex(store, orderId) == -1
  {
    var matches := (order: Order) => StrictEquals(JsString(order.id), ToNumber(orderId));
    forall j | 0 <= j < |store|
      ensures !matches(store[j])
    {
      assert !ToNumber(orderId).JsString?;
    }
  }

  /** `array.splice(start, 1)` on the result array: a negative start counts back
      from the end; a start past the end removes nothing. */
  function SpliceOne(store: seq<Order>, start: int): (r: seq<Order>)
    ensures start < 0 && |store| + start >= 0 ==> r == store[..|store| + start] + store[|store| + start + 1..]
    ensures start >= |store| ==> r == store
  {
    var k := if start < 0 then (if |store| + start < 0 then 0 else |store| + start)
             else (if start > |store| then |store| else start);
    if k < |store| then store[..k] + store[k + 1..] else store
  }

  /** DELETE /orders/:orderId as written: `orderExists`, then `destroy`. */
  function DeleteEndpointAsWritten(store: seq<Order>, req: Request): (r: Response)
    ensures FindOrder(store, req.orderId).None? ==>
      r == Response(Failed(NotFound(req.orderId)), store)
    ensures FindOrder(store, req.orderId).Some? ==>
      var i := FindOrder(store, req.orderId).value;
      && (store[i].status == Some(Pending) ==> r == Response(NoContent, store[..|store| - 1]))
      && (store[i].status != Some(Pending) ==> r == Response(Failed(NotPending), store))
  {
    match RunChain(DeleteChain, store, req)
    case Fail(e) => Response(Failed(e), store)
    case Pass =>
      LookupChainEstablishes(store, req);
      DestroyIndexIsMinusOne(store, req.orderId);
      var order := store[FindOrder(store, req.orderId).value];
      if order.status == Some(Pending) then
        Response(NoContent, SpliceOne(store, DestroyIndex(store, req.orderId)))
      else
        Response(Failed(NotPending), store)
  }

  const PendingOrder: Order := Order("1", "A", "555", Some("pending"), [Dish("x", IntVal(2))])
  const DeliveredOrder: Order := Order("2", "B", "556", Some("delivered"), [Dish("y", IntVal(1))])

  /** Deleting the pending order "1" from [order "1", order "2"] answers 204 but
      removes the delivered order "2" and leaves order "1" readable; the
      corrected endpoint removes order "1". */
  lemma DestroyAsWrittenDropsLastOrder()
    ensures var store := [PendingOrder, DeliveredOrder];
      var req := Request("1", None);
      && DeleteEndpointAsWritten(store, req) == Response(NoContent, [PendingOrder])
      && ReadEndpoint(DeleteEndpointAsWritten(store, req).store, req).reply == Found(PendingOrder)
      && DeleteEndpoint(store, req) == Response(NoContent, [DeliveredOrder])
  {
    var store := [PendingOrder, DeliveredOrder];
    var req := Request("1", None);
    assert FindOrder(store, "1") == Some(0);
    assert FindOrder([PendingOrder], "1") == Some(0);
    assert RunCheck(DeleteChain[0], store, req).Pass?;
    assert store[..0] + store[1..] == [DeliveredOrder];
  }
}
