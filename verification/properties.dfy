/** Properties of the endpoints as a whole: which error each chain reports for
    which payload, what a successful request does to the store, how lookups
    behave afterwards, and the store invariant every endpoint keeps. */
module Properties {
  import opened OrderTypes
  import opened Validators
  import opened Store
  import opened Pipeline

  // ------------------------------------------------------------ lookup

  /** The lookup is determined by the first position holding the id. */
  lemma FindOrderAt(store: seq<Order>, orderId: string, i: nat)
    requires i < |store| && store[i].id == orderId
    requires forall j :: 0 <= j < i ==> store[j].id != orderId
    ensures FindOrder(store, orderId) == Some(i)
  {
  }

  /** With unique ids, the order found for an id is the one that holds it. */
  lemma FindOrderUnique(store: seq<Order>, i: nat)
    requires UniqueIds(store) && i < |store|
    ensures FindOrder(store, store[i].id) == Some(i)
  {
    FindOrderAt(store, store[i].id, i);
  }

  /** Two stores with the same ids at the same positions answer every lookup alike. */
  lemma FindOrderSameIds(s1: seq<Order>, s2: seq<Order>, orderId: string)
    requires |s1| == |s2|
    requires forall j :: 0 <= j < |s1| ==> s1[j].id == s2[j].id
    ensures FindOrder(s1, orderId) == FindOrder(s2, orderId)
  {
    var r := FindOrder(s1, orderId);
    if r.Some? {
      FindOrderAt(s2, orderId, r.value);
    }
  }

  // ------------------------------------------------------------ the reported error

  /** A payload `create` accepts, stated on the payload alone. */
  predicate Creatable(data: Option<Payload>)
  {
    && data.Some?
    && Supplied(data.value.deliverTo)
    && Supplied(data.value.mobileNumber)
    && data.value.dishes.List?
    && |data.value.dishes.items| > 0
    && forall i :: 0 <= i < |data.value.dishes.items| ==> ValidQuantity(data.value.dishes.items[i].quantity)
  }

  /** The dish at `k` is the first one with an unacceptable quantity. */
  predicate FirstBadDishAt(dishes: DishesField, k: nat)
  {
    && dishes.List?
    && k < |dishes.items|
    && !ValidQuantity(dishes.items[k].quantity)
    && forall i :: 0 <= i < k ==> ValidQuantity(dishes.items[i].quantity)
  }

  /** POST /orders succeeds exactly on a creatable payload, and otherwise reports
      the first failing check in the order the create chain lists them. */
  lemma CreateOutcome(store: seq<Order>, req: Request, newId: string)
    requires FreshId(store, newId)
    ensures var r := CreateEndpoint(store, req, newId);
      && (r.reply.Created? <==> Creatable(req.data))
      && (req.data.None? ==> r.reply == Failed(MissingField(DeliverTo)))
      && (req.data.Some? ==> var p := req.data.value;
          && (!Supplied(p.deliverTo) ==> r.reply == Failed(MissingField(DeliverTo)))
          && (Supplied(p.deliverTo) && !Supplied(p.mobileNumber) ==>
                r.reply == Failed(MissingField(MobileNumber)))
          && (Supplied(p.deliverTo) && Supplied(p.mobileNumber) && p.dishes.Absent? ==>
                r.reply == Failed(MissingField(Dishes)))
          && (Supplied(p.deliverTo) && Supplied(p.mobileNumber)
              && (p.dishes.NotAList? || p.dishes == List([])) ==>
                r.reply == Failed(NoDishes))
          && (forall k: nat :: (Supplied(p.deliverTo) && Supplied(p.mobileNumber)
              && FirstBadDishAt(p.dishes, k)) ==> r.reply == Failed(BadQuantity(k))))
  {
    var r := CreateEndpoint(store, req, newId);
    var v := RunChain(CreateChain, store, req);
    if v.Pass? {
      CreateChainEstablishes(store, req);
    } else {
      var s: nat :| StopsAt(CreateChain, s, store, req) && RunCheck(CreateChain[s], store, req) == v;
      assert RunCheck(CreateChain[0], store, req) == BodyDataHas(DeliverTo, req.data);
      assert RunCheck(CreateChain[1], store, req) == BodyDataHas(MobileNumber, req.data);
      assert RunCheck(CreateChain[2], store, req) == BodyDataHas(Dishes, req.data);
      assert RunCheck(CreateChain[3], store, req) == DishesPropertyIsValid(req.data);
      assert RunCheck(CreateChain[4], store, req) == QuantityIsValidNumber(req.data);
      if req.data.Some? {
        var p := req.data.value;
        forall k: nat | Supplied(p.deliverTo) && Supplied(p.mobileNumber) && FirstBadDishAt(p.dishes, k)
          ensures r.reply == Failed(BadQuantity(k))
        {
          assert FirstBadQuantity(p.dishes.items) == Some(k);
        }
      }
    }
  }

  /** A payload `update` accepts for the order stored under `orderId`. */
  predicate Updatable(data: Option<Payload>, orderId: string)
  {
    && Creatable(data)
    && Supplied(data.value.status)
    && KnownStatus(data.value.status.value)
    && IdAgrees(data.value, orderId)
  }

  /** For an existing order, a payload with every field present and a known
      status passes the first six checks of the update chain: the lookup, the
      four presence checks and the status check. */
  lemma UpdateHeadPasses(store: seq<Order>, req: Request)
    requires FindOrder(store, req.orderId).Some?
    requires req.data.Some? && var p := req.data.value;
      && Supplied(p.deliverTo) && Supplied(p.mobileNumber)
      && Supplied(p.status) && KnownStatus(p.status.value) && !p.dishes.Absent?
    ensures forall i :: 0 <= i < 6 ==> RunCheck(UpdateChain[i], store, req).Pass?
  {
    assert RunCheck(UpdateChain[0], store, req).Pass?;
    assert RunCheck(UpdateChain[1], store, req).Pass?;
    assert RunCheck(UpdateChain[2], store, req).Pass?;
    assert RunCheck(UpdateChain[3], store, req).Pass?;
    assert RunCheck(UpdateChain[4], store, req).Pass?;
    assert RunCheck(UpdateChain[5], store, req).Pass?;
  }

  /** The converse of `UpdateChainEstablishes`: for an existing order, a
      creatable payload with a known status passes every check of the update
      chain. */
  lemma UpdateChainPasses(store: seq<Order>, req: Request)
    requires FindOrder(store, req.orderId).Some?
    requires Creatable(req.data)
    requires Supplied(req.data.value.status) && KnownStatus(req.data.value.status.value)
    ensures RunChain(UpdateChain, store, req).Pass?
  {
    UpdateHeadPasses(store, req);
    assert RunCheck(UpdateChain[6], store, req).Pass?;
    assert RunCheck(UpdateChain[7], store, req).Pass?;
  }

  /** For an existing order, PUT /orders/:orderId succeeds exactly on an
      updatable payload. */
  lemma UpdateAccepts(store: seq<Order>, req: Request)
    requires FindOrder(store, req.orderId).Some?
    ensures UpdateEndpoint(store, req).reply.Updated? <==> Updatable(req.data, req.orderId)
  {
    var v := RunChain(UpdateChain, store, req);
    if v.Pass? {
      UpdateChainEstablishes(store, req);
      var i := FindOrder(store, req.orderId).value;
      assert store[i].id == req.orderId;
    } else if Updatable(req.data, req.orderId) {
      UpdateChainPasses(store, req);
    }
  }

  /** For an existing order, the update chain reports the first missing field,
      in the order deliverTo, mobileNumber, status, dishes, and then an unknown
      status, before it looks at the dishes themselves. */
  lemma UpdateFieldErrors(store: seq<Order>, req: Request)
    requires FindOrder(store, req.orderId).Some?
    ensures var r := UpdateEndpoint(store, req);
      && (req.data.None? ==> r.reply == Failed(MissingField(DeliverTo)))
      && (req.data.Some? ==> var p := req.data.value;
          && (!Supplied(p.deliverTo) ==> r.reply == Failed(MissingField(DeliverTo)))
          && (Supplied(p.deliverTo) && !Supplied(p.mobileNumber) ==>
                r.reply == Failed(MissingField(MobileNumber)))
          && (Supplied(p.deliverTo) && Supplied(p.mobileNumber) && !Supplied(p.status) ==>
                r.reply == Failed(MissingField(Status)))
          && ((Supplied(p.deliverTo) && Supplied(p.mobileNumber) && Supplied(p.status)
               && p.dishes.Absent?) ==> r.reply == Failed(MissingField(Dishes)))
          && ((Supplied(p.deliverTo) && Supplied(p.mobileNumber) && Supplied(p.status)
               && !p.dishes.Absent? && !KnownStatus(p.status.value)) ==>
                r.reply == Failed(BadStatus)))
  {
    if req.data.None? || !Supplied(req.data.value.deliverTo) {
      UpdateMissingAt(store, req, 1);
      assert RunCheck(UpdateChain[1], store, req) == Fail(MissingField(DeliverTo));
    } else if !Supplied(req.data.value.mobileNumber) {
      UpdateMissingAt(store, req, 2);
      assert RunCheck(UpdateChain[2], store, req) == Fail(MissingField(MobileNumber));
    } else if !Supplied(req.data.value.status) {
      UpdateMissingAt(store, req, 3);
      assert RunCheck(UpdateChain[3], store, req) == Fail(MissingField(Status));
    } else if req.data.value.dishes.Absent? {
      UpdateMissingAt(store, req, 4);
      assert RunCheck(UpdateChain[4], store, req) == Fail(MissingField(Dishes));
    } else if !KnownStatus(req.data.value.status.value) {
      UpdateMissingAt(store, req, 5);
      assert RunCheck(UpdateChain[5], store, req) == Fail(BadStatus);
    }
  }

  /** The payload condition under which the update chain stops at check `k`,
      for the lookup, the four presence checks and the status check. */
  predicate UpdateFailsAt(data: Option<Payload>, k: nat)
  {
    match data
    case None => k == 1
    case Some(p) =>
      if !Supplied(p.deliverTo) then k == 1
      else if !Supplied(p.mobileNumber) then k == 2
      else if !Supplied(p.status) then k == 3
      else if p.dishes.Absent? then k == 4
      else k == 5 && !KnownStatus(p.status.value)
  }

  /** For an existing order, a payload that fails at presence or status check
      `k` is answered with that check's error, the store unchanged. */
  lemma UpdateMissingAt(store: seq<Order>, req: Request, k: nat)
    requires FindOrder(store, req.orderId).Some?
    requires UpdateFailsAt(req.data, k)
    ensures 1 <= k <= 5
    ensures UpdateEndpoint(store, req) == Response(Failed(RunCheck(UpdateChain[k], store, req).error), store)
  {
    assert RunCheck(UpdateChain[0], store, req).Pass?;
    if k > 1 {
      assert RunCheck(UpdateChain[1], store, req).Pass?;
    }
    if k > 2 {
      assert RunCheck(UpdateChain[2], store, req).Pass?;
    }
    if k > 3 {
      assert RunCheck(UpdateChain[3], store, req).Pass?;
    }
    if k > 4 {
      assert RunCheck(UpdateChain[4], store, req).Pass?;
    }
    UpdateStopsAt(store, req, k);
  }

  /** PUT answers with the error of the check at which the update chain stops,
      and leaves the store as it was. */
  lemma UpdateStopsAt(store: seq<Order>, req: Request, k: nat)
    requires StopsAt(UpdateChain, k, store, req)
    ensures UpdateEndpoint(store, req) == Response(Failed(RunCheck(UpdateChain[k], store, req).error), store)
  {
    RunChainReportsFirstFailure(UpdateChain, k, store, req);
  }

  /** The id comparison comes last: a payload that passes every check but names
      another id is a 400 that reports both ids, and the store is untouched. */
  lemma UpdateIdMismatch(store: seq<Order>, req: Request)
    requires FindOrder(store, req.orderId).Some?
    requires Creatable(req.data)
    requires Supplied(req.data.value.status) && KnownStatus(req.data.value.status.value)
    requires !IdAgrees(req.data.value, req.orderId)
    ensures UpdateEndpoint(store, req) ==
      Response(Failed(IdMismatch(req.orderId, req.data.value.id.value)), store)
  {
    UpdateChainPasses(store, req);
    var i := FindOrder(store, req.orderId).value;
    assert store[i].id == req.orderId;
  }

  /** With the fields before them in place, the update chain rejects a
      non-array or empty `dishes` just as the create chain does. */
  lemma UpdateNoDishes(store: seq<Order>, req: Request)
    requires FindOrder(store, req.orderId).Some?
    requires req.data.Some? && var p := req.data.value;
      && Supplied(p.deliverTo) && Supplied(p.mobileNumber)
      && Supplied(p.status) && KnownStatus(p.status.value)
      && (p.dishes.NotAList? || p.dishes == List([]))
    ensures UpdateEndpoint(store, req) == Response(Failed(NoDishes), store)
  {
    UpdateHeadPasses(store, req);
    assert RunCheck(UpdateChain[6], store, req) == Fail(NoDishes);
    UpdateStopsAt(store, req, 6);
  }

  /** With the fields before it in place, the update chain reports the first
      dish with an unacceptable quantity, just as the create chain does. */
  lemma UpdateBadQuantity(store: seq<Order>, req: Request, k: nat)
    requires FindOrder(store, req.orderId).Some?
    requires req.data.Some? && var p := req.data.value;
      && Supplied(p.deliverTo) && Supplied(p.mobileNumber)
      && Supplied(p.status) && KnownStatus(p.status.value)
      && FirstBadDishAt(p.dishes, k)
    ensures UpdateEndpoint(store, req) == Response(Failed(BadQuantity(k)), store)
  {
    UpdateHeadPasses(store, req);
    assert RunCheck(UpdateChain[6], store, req).Pass?;
    assert FirstBadQuantity(req.data.value.dishes.items) == Some(k);
    assert RunCheck(UpdateChain[7], store, req) == Fail(BadQuantity(k));
    UpdateStopsAt(store, req, 7);
  }

  /** The create chain never reaches a check the model marks `Thrown`:
      `bodyDataHas("dishes")` runs before `dishesPropertyIsValid`, which runs
      before `quantityIsValidNumber`. */
  lemma CreateChainNeverThrows(store: seq<Order>, req: Request)
    ensures RunChain(CreateChain, store, req) != Fail(Thrown)
  {
    var v := RunChain(CreateChain, store, req);
    if v.Fail? {
      var s: nat :| StopsAt(CreateChain, s, store, req) && RunCheck(CreateChain[s], store, req) == v;
      if s == 3 || s == 4 {
        assert RunCheck(CreateChain[2], store, req).Pass?;
      }
      if s == 4 {
        assert RunCheck(CreateChain[3], store, req).Pass?;
      }
    }
  }

  /** The update chain never reaches a check the model marks `Thrown`, for the
      same ordering reason as the create chain. */
  lemma UpdateChainNeverThrows(store: seq<Order>, req: Request)
    ensures RunChain(UpdateChain, store, req) != Fail(Thrown)
  {
    if FindOrder(store, req.orderId).None? {
      RunChainReportsFirstFailure(UpdateChain, 0, store, req);
      return;
    }
    if req.data.None? {
      UpdateMissingAt(store, req, 1);
      return;
    }
    var p := req.data.value;
    if !Supplied(p.deliverTo) || !Supplied(p.mobileNumber) || !Supplied(p.status) || p.dishes.Absent? {
      UpdateMissingAt(store, req, if !Supplied(p.deliverTo) then 1
                                  else if !Supplied(p.mobileNumber) then 2
                                  else if !Supplied(p.status) then 3 else 4);
    } else if !KnownStatus(p.status.value) {
      UpdateMissingAt(store, req, 5);
    } else if !p.dishes.List? || |p.dishes.items| == 0 {
      UpdateNoDishes(store, req);
    } else if FirstBadQuantity(p.dishes.items).Some? {
      UpdateBadQuantity(store, req, FirstBadQuantity(p.dishes.items).value);
    } else {
      UpdateHeadPasses(store, req);
      assert RunCheck(UpdateChain[6], store, req).Pass?;
      assert RunCheck(UpdateChain[7], store, req).Pass?;
    }
  }

  /** The read and delete chains hold only the lookup, which fails with 404 or passes. */
  lemma LookupChainsNeverThrow(store: seq<Order>, req: Request)
    ensures RunChain(ReadChain, store, req) != Fail(Thrown)
    ensures RunChain(DeleteChain, store, req) != Fail(Thrown)
  {
    var u := RunChain(ReadChain, store, req);
    if u.Fail? {
      assert RunCheck(ReadChain[0], store, req).Fail?;
    }
  }

  /** The status check belongs to the update chain only: POST /orders answers
      the same whatever status (or payload id, or route id) the request carries. */
  lemma CreateIgnoresStatus(store: seq<Order>, p: Payload, status: Option<string>, id: Option<string>,
                            route: string, newId: string)
    requires FreshId(store, newId)
    ensures CreateEndpoint(store, Request(route, Some(p.(status := status, id := id))), newId)
         == CreateEndpoint(store, Request("", Some(p)), newId)
  {
    var a := Request(route, Some(p.(status := status, id := id)));
    var b := Request("", Some(p));
    forall i | 0 <= i < |CreateChain|
      ensures RunCheck(CreateChain[i], store, a) == RunCheck(CreateChain[i], store, b)
    {
    }
    var va, vb := RunChain(CreateChain, store, a), RunChain(CreateChain, store, b);
    if va.Fail? {
      var s: nat :| StopsAt(CreateChain, s, store, a) && RunCheck(CreateChain[s], store, a) == va;
      RunChainReportsFirstFailure(CreateChain, s, store, b);
    }
  }

  // ------------------------------------------------------------ after a success

  /** After POST /orders the new order is found under its id, and every other
      id is found where it was before. */
  lemma CreateThenFind(store: seq<Order>, req: Request, newId: string, other: string)
    requires FreshId(store, newId)
    requires CreateEndpoint(store, req, newId).reply.Created?
    requires other != newId
    ensures var r := CreateEndpoint(store, req, newId);
      && FindOrder(r.store, newId) == Some(|store|)
      && ReadEndpoint(r.store, Request(newId, None)).reply == Found(r.reply.order)
      && FindOrder(r.store, other) == FindOrder(store, other)
  {
    var r := CreateEndpoint(store, req, newId);
    FindOrderAt(r.store, newId, |store|);
    var f := FindOrder(store, other);
    if f.Some? {
      FindOrderAt(r.store, other, f.value);
    }
  }

  /** After a successful PUT every id is found where it was before, and reading
      the order back gives the updated record. */
  lemma UpdateThenFind(store: seq<Order>, req: Request, other: string)
    requires UpdateEndpoint(store, req).reply.Updated?
    ensures var r := UpdateEndpoint(store, req);
      && FindOrder(r.store, other) == FindOrder(store, other)
      && ReadEndpoint(r.store, Request(req.orderId, None)).reply == Found(r.reply.order)
  {
    var r := UpdateEndpoint(store, req);
    FindOrderSameIds(r.store, store, other);
    FindOrderSameIds(r.store, store, req.orderId);
    UpdateChainEstablishes(store, req);
  }

  /** A successful PUT writes exactly the payload's
      `deliverTo`, `mobileNumber`, `status` and `dishes` into the order stored
      under the route id; its id, its position and every other order stay. */
  lemma UpdateWritesPayload(store: seq<Order>, req: Request)
    requires FindOrder(store, req.orderId).Some?
    requires Updatable(req.data, req.orderId)
    ensures var r := UpdateEndpoint(store, req);
      && var i := FindOrder(store, req.orderId).value;
      && var p := req.data.value;
      && r.store == store[i := Order(req.orderId, p.deliverTo.value, p.mobileNumber.value,
                                     p.status, p.dishes.items)]
      && r.reply == Updated(r.store[i])
  {
    UpdateAccepts(store, req);
    UpdateChainEstablishes(store, req);
  }

  /** DELETE on a pending order removes it (a later lookup is a 404) and keeps
      every other order; on any other status it is a 400 and the order stays
      readable. */
  lemma DeleteOutcome(store: seq<Order>, req: Request)
    requires UniqueIds(store)
    requires FindOrder(store, req.orderId).Some?
    ensures var i := FindOrder(store, req.orderId).value;
      var r := DeleteEndpoint(store, req);
      && (store[i].status == Some(Pending) ==>
          && r.reply == NoContent
          && ReadEndpoint(r.store, Request(req.orderId, None)).reply == Failed(NotFound(req.orderId))
          && multiset(r.store) + multiset{store[i]} == multiset(store))
      && (store[i].status != Some(Pending) ==>
          && r == Response(Failed(NotPending), store)
          && ReadEndpoint(r.store, Request(req.orderId, None)).reply == Found(store[i]))
  {
    var i := FindOrder(store, req.orderId).value;
    var r := DeleteEndpoint(store, req);
    assert RunCheck(DeleteChain[0], store, req).Pass?;
    if store[i].status == Some(Pending) {
      forall j | 0 <= j < |r.store|
        ensures r.store[j].id != req.orderId
      {
        if j < i {
          assert r.store[j] == store[j];
        } else {
          assert r.store[j] == store[j + 1];
        }
      }
    }
  }

  // ------------------------------------------------------------ the store invariant

  lemma CreatePreservesInvariant(store: seq<Order>, req: Request, newId: string)
    requires StoreInvariant(store) && FreshId(store, newId)
    ensures StoreInvariant(CreateEndpoint(store, req, newId).store)
  {
    if RunChain(CreateChain, store, req).Pass? {
      CreateChainEstablishes(store, req);
      var r := CreateEndpoint(store, req, newId);
      assert r.store[|store|] == r.reply.order;
      assert forall j :: 0 <= j < |store| ==> r.store[j] == store[j];
    }
  }

  lemma UpdatePreservesInvariant(store: seq<Order>, req: Request)
    requires StoreInvariant(store)
    ensures StoreInvariant(UpdateEndpoint(store, req).store)
  {
    if RunChain(UpdateChain, store, req).Pass? {
      UpdateChainEstablishes(store, req);
    }
  }

  lemma DeletePreservesInvariant(store: seq<Order>, req: Request)
    requires StoreInvariant(store)
    ensures StoreInvariant(DeleteEndpoint(store, req).store)
  {
    var r := DeleteEndpoint(store, req);
    if r.reply.NoContent? {
      LookupChainEstablishes(store, req);
      var i := FindOrder(store, req.orderId).value;
      assert forall j :: 0 <= j < |r.store| ==> r.store[j] == store[if j < i then j else j + 1];
    }
  }
}
