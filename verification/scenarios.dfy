/** Concrete requests against a one-order store: a create, an update with an
    empty dish list, a delete of a non-pending order and a read of a missing id. */
module Scenarios {
  import opened OrderTypes
  import opened Validators
  import opened Store
  import opened Pipeline

  const Existing: Order := Order("a1", "Home", "555-0100", Some("preparing"), [Dish("soup", IntVal(1))])

  /** POST with deliverTo "A", mobileNumber "555" and one dish of quantity 2
      answers 201 with a fresh id and the dish's quantity kept. */
  lemma CreateExample(newId: string)
    requires newId != "" && newId != Existing.id
    ensures var data := Payload(None, Some("A"), Some("555"), None, List([Dish("x", IntVal(2))]));
      var r := CreateEndpoint([Existing], Request("", Some(data)), newId);
      && ReplyCode(r.reply) == 201
      && r.reply.order.id == newId
      && r.reply.order.dishes[0].quantity == IntVal(2)
      && r.store == [Existing, r.reply.order]
  {
    var data := Payload(None, Some("A"), Some("555"), None, List([Dish("x", IntVal(2))]));
    var req := Request("", Some(data));
    forall i | 0 <= i < |CreateChain|
      ensures RunCheck(CreateChain[i], [Existing], req).Pass?
    {
    }
  }

  /** PUT with status "delivered" and an empty dishes array answers 400 and
      leaves the store as it was. */
  lemma UpdateEmptyDishesExample()
    ensures var data := Payload(None, Some("A"), Some("555"), Some("delivered"), List([]));
      var r := UpdateEndpoint([Existing], Request("a1", Some(data)));
      && r == Response(Failed(NoDishes), [Existing])
      && ReplyCode(r.reply) == 400
  {
    var data := Payload(None, Some("A"), Some("555"), Some("delivered"), List([]));
    var req := Request("a1", Some(data));
    assert FindOrder([Existing], "a1") == Some(0);
    assert RunCheck(UpdateChain[0], [Existing], req).Pass?;
    assert RunCheck(UpdateChain[5], [Existing], req).Pass?;
    RunChainReportsFirstFailure(UpdateChain, 6, [Existing], req);
  }

  /** DELETE on a "preparing" order answers 400 and a later GET still finds it. */
  lemma DeletePreparingExample()
    ensures var r := DeleteEndpoint([Existing], Request("a1", None));
      && r == Response(Failed(NotPending), [Existing])
      && ReplyCode(r.reply) == 400
      && ReadEndpoint(r.store, Request("a1", None)).reply == Found(Existing)
  {
    assert FindOrder([Existing], "a1") == Some(0);
    assert RunCheck(DeleteChain[0], [Existing], Request("a1", None)).Pass?;
  }

  /** GET of an id the store does not hold answers 404. */
  lemma ReadMissingExample()
    ensures ReadEndpoint([Existing], Request("zz", None)).reply == Failed(NotFound("zz"))
    ensures ReplyCode(ReadEndpoint([Existing], Request("zz", None)).reply) == 404
  {
    assert FindOrder([Existing], "zz").None?;
  }
}
