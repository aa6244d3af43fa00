/** The exported middleware arrays as ordered, fail-fast chains of checks, and
    the four endpoints that run a chain and then the handler behind it. */
module Pipeline {
  import opened OrderTypes
  import opened Validators
  import opened Store

  /** One entry of a middleware array. */
  datatype Check =
    | CheckExists
    | CheckField(field: Field)
    | CheckStatus
    | CheckDishes
    | CheckQuantity

  /** The read middleware array (orders.controller.js line 131): only the lookup
      runs before the handler. */
  const ReadChain: seq<Check> := [CheckExists]

  /** The create middleware array (orders.controller.js lines 132-139), without
      the final handler: the three presence checks, then the dish list and the
      quantities. */
  const CreateChain: seq<Check> :=
    [CheckField(DeliverTo), CheckField(MobileNumber), CheckField(Dishes), CheckDishes, CheckQuantity]

  /** The update middleware array (orders.controller.js lines 140-150), without
      the final handler: the lookup, the four presence checks, the status, then
      the dish list and the quantities. */
  const UpdateChain: seq<Check> :=
    [CheckExists, CheckField(DeliverTo), CheckField(MobileNumber), CheckField(Status),
     CheckField(Dishes), CheckStatus, CheckDishes, CheckQuantity]

  /** The delete middleware array (orders.controller.js line 151), without the
      final handler. */
  const DeleteChain: seq<Check> := [CheckExists]

  function RunCheck(c: Check, store: seq<Order>, req: Request): Verdict
  {
    match c
    case CheckExists => OrderExists(store, req.orderId)
    case CheckField(f) => BodyDataHas(f, req.data)
    case CheckStatus => StatusPropertyIsValid(req.data)
    case CheckDishes => DishesPropertyIsValid(req.data)
    case CheckQuantity => QuantityIsValidNumber(req.data)
  }

  /** The chain stops at position `k`: every earlier check passed and check `k` failed. */
  predicate StopsAt(chain: seq<Check>, k: nat, store: seq<Order>, req: Request)
  {
    && k < |chain|
    && RunCheck(chain[k], store, req).Fail?
    && forall i :: 0 <= i < k ==> RunCheck(chain[i], store, req).Pass?
  }

  /** Runs the checks in order and stops at the first failure, which is the
      only one reported. It passes exactly when every check passes. */
  function RunChain(chain: seq<Check>, store: seq<Order>, req: Request): (v: Verdict)
    ensures v.Pass? <==> forall i :: 0 <= i < |chain| ==> RunCheck(chain[i], store, req).Pass?
    ensures v.Fail? ==>
      exists k: nat :: StopsAt(chain, k, store, req) && RunCheck(chain[k], store, req) == v
  {
    if |chain| == 0 then Pass
    else
      match RunCheck(chain[0], store, req)
      case Fail(e) =>
        assert StopsAt(chain, 0, store, req);
        Fail(e)
      case Pass =>
        var rest := RunChain(chain[1..], store, req);
        if rest.Fail? then
          var k: nat :| StopsAt(chain[1..], k, store, req) && RunCheck(chain[1..][k], store, req) == rest;
          assert StopsAt(chain, k + 1, store, req);
          rest
        else
          assert forall i :: 1 <= i < |chain| ==> chain[i] == chain[1..][i - 1];
          rest
  }

  /** At most one position can be where a chain stops. */
  lemma StopsAtUnique(chain: seq<Check>, k: nat, m: nat, store: seq<Order>, req: Request)
    requires StopsAt(chain, k, store, req) && StopsAt(chain, m, store, req)
    ensures k == m
  {
  }

  /** The failure a chain reports is the one of the check at which it stops. */
  lemma RunChainReportsFirstFailure(chain: seq<Check>, k: nat, store: seq<Order>, req: Request)
    requires StopsAt(chain, k, store, req)
    ensures RunChain(chain, store, req) == RunCheck(chain[k], store, req)
  {
    var v := RunChain(chain, store, req);
    if v.Fail? {
      var m: nat :| StopsAt(chain, m, store, req) && RunCheck(chain[m], store, req) == v;
      StopsAtUnique(chain, k, m, store, req);
    }
  }

  // ------------------------------------------------------------ what a chain establishes

  lemma CreateChainEstablishes(store: seq<Order>, req: Request)
    requires RunChain(CreateChain, store, req).Pass?
    ensures req.data.Some? && CreateReady(req.data.value)
    ensures |req.data.value.dishes.items| > 0
    ensures forall i :: 0 <= i < |req.data.value.dishes.items| ==>
      ValidQuantity(req.data.value.dishes.items[i].quantity)
  {
    assert RunCheck(CreateChain[0], store, req).Pass?;
    assert RunCheck(CreateChain[1], store, req).Pass?;
    assert RunCheck(CreateChain[3], store, req).Pass?;
    assert RunCheck(CreateChain[4], store, req).Pass?;
  }

  lemma UpdateChainEstablishes(store: seq<Order>, req: Request)
    requires RunChain(UpdateChain, store, req).Pass?
    ensures FindOrder(store, req.orderId).Some?
    ensures req.data.Some? && UpdateReady(req.data.value)
    ensures KnownStatus(req.data.value.status.value)
    ensures |req.data.value.dishes.items| > 0
    ensures forall i :: 0 <= i < |req.data.value.dishes.items| ==>
      ValidQuantity(req.data.value.dishes.items[i].quantity)
  {
    assert RunCheck(UpdateChain[0], store, req).Pass?;
    assert RunCheck(UpdateChain[1], store, req).Pass?;
    assert RunCheck(UpdateChain[2], store, req).Pass?;
    assert RunCheck(UpdateChain[3], store, req).Pass?;
    assert RunCheck(UpdateChain[5], store, req).Pass?;
    assert RunCheck(UpdateChain[6], store, req).Pass?;
    assert RunCheck(UpdateChain[7], store, req).Pass?;
  }

  lemma LookupChainEstablishes(store: seq<Order>, req: Request)
    requires RunChain([CheckExists], store, req).Pass?
    ensures FindOrder(store, req.orderId).Some?
  {
    assert RunCheck([CheckExists][0], store, req).Pass?;
  }

  // ------------------------------------------------------------ endpoints

  /** GET /orders/:orderId: the lookup, then the found order. */
  function ReadEndpoint(store: seq<Order>, req: Request): (r: Response)
    ensures r.store == store
    ensures FindOrder(store, req.orderId).None? ==> r.reply == Failed(NotFound(req.orderId))
    ensures FindOrder(store, req.orderId).Some? ==>
      r.reply == Found(store[FindOrder(store, req.orderId).value])
    ensures r.reply.Found? ==> r.reply.order in store && r.reply.order.id == req.orderId
    ensures r.reply.Found? || r.reply.Failed?
  {
    match RunChain(ReadChain, store, req)
    case Fail(e) => Response(Failed(e), store)
    case Pass =>
      LookupChainEstablishes(store, req);
      Response(Found(store[FindOrder(store, req.orderId).value]), store)
  }

  /** POST /orders. `newId` is the value `nextId()` returns, fresh for the store. */
  function CreateEndpoint(store: seq<Order>, req: Request, newId: string): (r: Response)
    requires FreshId(store, newId)
    ensures r.reply.Created? || r.reply.Failed?
    ensures r.reply.Failed? ==> r.store == store
    ensures r.reply.Created? ==>
      && req.data.Some? && req.data.value.dishes.List?
      && Supplied(req.data.value.deliverTo) && Supplied(req.data.value.mobileNumber)
      && var p := req.data.value;
      && r.reply.order == Order(newId, p.deliverTo.value, p.mobileNumber.value, None, p.dishes.items)
      && r.store == store + [r.reply.order]
  {
    match RunChain(CreateChain, store, req)
    case Fail(e) => Response(Failed(e), store)
    case Pass =>
      CreateChainEstablishes(store, req);
      Create(store, req.data.value, newId)
  }

  /** PUT /orders/:orderId. */
  function UpdateEndpoint(store: seq<Order>, req: Request): (r: Response)
    ensures r.reply.Updated? || r.reply.Failed?
    ensures FindOrder(store, req.orderId).None? ==>
      r == Response(Failed(NotFound(req.orderId)), store)
    ensures r.reply.Failed? ==> r.store == store
    ensures |r.store| == |store|
    ensures forall j :: 0 <= j < |store| ==> r.store[j].id == store[j].id
  {
    match RunChain(UpdateChain, store, req)
    case Fail(e) =>
      assert RunCheck(UpdateChain[0], store, req).Fail? ==> StopsAt(UpdateChain, 0, store, req);
      Response(Failed(e), store)
    case Pass =>
      UpdateChainEstablishes(store, req);
      Update(store, FindOrder(store, req.orderId).value, req.data.value)
  }

  /** DELETE /orders/:orderId. */
  function DeleteEndpoint(store: seq<Order>, req: Request): (r: Response)
    ensures r.reply.NoContent? || r.reply.Failed?
    ensures FindOrder(store, req.orderId).None? ==>
      r == Response(Failed(NotFound(req.orderId)), store)
    ensures r.reply.Failed? ==> r.store == store
    ensures r.reply.NoContent? ==>
      && FindOrder(store, req.orderId).Some?
      && var i := FindOrder(store, req.orderId).value;
      && store[i].status == Some(Pending)
      && r.store == RemoveAt(store, i)
  {
    match RunChain(DeleteChain, store, req)
    case Fail(e) => Response(Failed(e), store)
    case Pass =>
      LookupChainEstablishes(store, req);
      Destroy(store, FindOrder(store, req.orderId).value)
  }
}
