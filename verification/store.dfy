/** The in-memory `orders` array and the three mutations the handlers perform on
    it: `push` (create), field assignment on the found order (update) and
    `splice` of the found order (destroy). */
module Store {
  import opened OrderTypes
  import opened Validators

  /** No two orders share an id. */
  predicate UniqueIds(store: seq<Order>)
  {
    forall i, j :: 0 <= i < j < |store| ==> store[i].id != store[j].id
  }

  predicate FreshId(store: seq<Order>, id: string)
  {
    forall j :: 0 <= j < |store| ==> store[j].id != id
  }

  /** The shape every order has once it passed validation: non-empty contact
      fields, at least one dish, every quantity an integer of at least 1, and a
      status that is absent (as `create` leaves it) or one of the four. */
  predicate WellFormedOrder(o: Order)
  {
    && o.deliverTo != ""
    && o.mobileNumber != ""
    && |o.dishes| > 0
    && (forall i :: 0 <= i < |o.dishes| ==> ValidQuantity(o.dishes[i].quantity))
    && (o.status.None? || KnownStatus(o.status.value))
  }

  predicate StoreInvariant(store: seq<Order>)
  {
    UniqueIds(store) && forall i :: 0 <= i < |store| ==> WellFormedOrder(store[i])
  }

  // ---------------------------------------------------------------- create

  /** What the create chain guarantees about the payload before `create` runs. */
  predicate CreateReady(p: Payload)
  {
    Supplied(p.deliverTo) && Supplied(p.mobileNumber) && p.dishes.List?
  }

  /** `create`: builds `{ id: nextId(), deliverTo, mobileNumber, dishes }` and
      pushes it. The new order is last, carries the supplied id and the payload's
      fields and has no status; every earlier order is kept as it was. */
  function Create(store: seq<Order>, p: Payload, newId: string): (r: Response)
    requires CreateReady(p)
    ensures r.reply.Created?
    ensures |r.store| == |store| + 1
    ensures r.store[..|store|] == store
    ensures r.store[|store|] == r.reply.order
    ensures r.reply.order.id == newId
    ensures r.reply.order.status.None?
    ensures Some(r.reply.order.deliverTo) == p.deliverTo
    ensures Some(r.reply.order.mobileNumber) == p.mobileNumber
    ensures List(r.reply.order.dishes) == p.dishes
  {
    var order := Order(newId, p.deliverTo.value, p.mobileNumber.value, None, p.dishes.items);
    Response(Created(order), store + [order])
  }

  // ---------------------------------------------------------------- update

  /** What the update chain guarantees about the payload before `update` runs. */
  predicate UpdateReady(p: Payload)
  {
    Supplied(p.deliverTo) && Supplied(p.mobileNumber) && Supplied(p.status) && p.dishes.List?
  }

  /** The `if` of `update`: the payload's id equals the order's id, or is falsy. */
  predicate IdAgrees(p: Payload, orderId: string)
  {
    p.id == Some(orderId) || !Supplied(p.id)
  }

  /** `update` on the order at `index`: when the ids agree it overwrites
      `deliverTo`, `mobileNumber`, `status` and `dishes` of that order in place;
      otherwise it fails with 400 and the store is untouched. The source falls
      through to `next(err)` after replying (line 108); this is the intended
      if/else. */
  function Update(store: seq<Order>, index: nat, p: Payload): (r: Response)
    requires index < |store|
    requires UpdateReady(p)
    ensures |r.store| == |store|
    ensures forall j :: 0 <= j < |store| && j != index ==> r.store[j] == store[j]
    ensures r.store[index].id == store[index].id
    ensures IdAgrees(p, store[index].id) ==>
      && r.reply == Updated(r.store[index])
      && Some(r.store[index].deliverTo) == p.deliverTo
      && Some(r.store[index].mobileNumber) == p.mobileNumber
      && r.store[index].status == p.status
      && List(r.store[index].dishes) == p.dishes
    ensures !IdAgrees(p, store[index].id) ==>
      r == Response(Failed(IdMismatch(store[index].id, p.id.value)), store)
  {
    var order := store[index];
    if p.id == Some(order.id) || !Supplied(p.id) then
      var updated := order.(deliverTo := p.deliverTo.value, mobileNumber := p.mobileNumber.value,
                            status := p.status, dishes := p.dishes.items);
      Response(Updated(updated), store[index := updated])
    else
      Response(Failed(IdMismatch(order.id, p.id.value)), store)
  }

  // ---------------------------------------------------------------- destroy

  /** `orders.splice(index, 1)` for an index inside the array. */
  function RemoveAt(store: seq<Order>, index: nat): (r: seq<Order>)
    requires index < |store|
    ensures |r| == |store| - 1
    ensures forall j :: 0 <= j < index ==> r[j] == store[j]
    ensures forall j :: index <= j < |r| ==> r[j] == store[j + 1]
    ensures multiset(r) + multiset{store[index]} == multiset(store)
  {
    assert store == store[..index] + [store[index]] + store[index + 1..];
    store[..index] + store[index + 1..]
  }

  /** `destroy` on the order at `index`: a pending order is removed and the reply
      is 204; any other order stays and the reply is 400. The source falls
      through to `next(err)` after replying (line 123); this is the intended
      if/else. The source's own index computation is modelled separately in
      module AsWritten. */
  function Destroy(store: seq<Order>, index: nat): (r: Response)
    requires index < |store|
    ensures store[index].status == Some(Pending) ==>
      && r.reply == NoContent
      && r.store == RemoveAt(store, index)
      && multiset(r.store) + multiset{store[index]} == multiset(store)
    ensures store[index].status != Some(Pending) ==> r == Response(Failed(NotPending), store)
  {
    if store[index].status == Some(Pending) then Response(NoContent, RemoveAt(store, index))
    else Response(Failed(NotPending), store)
  }
}
