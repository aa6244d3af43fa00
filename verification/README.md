# GrubDash orders controller, modelled in Dafny

This project models the order-validation and order-lifecycle logic of the
GrubDash orders controller (`src/orders/orders.controller.js`). It covers the
validators `orderExists`, `bodyDataHas`, `dishesPropertyIsValid`,
`quantityIsValidNumber` and `statusPropertyIsValid`, and the handlers `create`,
`update` and `destroy`. It also covers the exported middleware arrays for
read, create, update and delete. The Express plumbing is removed. Each check
becomes a pure function that yields `Pass` or `Fail(error)`. Each middleware
array becomes a fail-fast chain of checks. Each endpoint takes the in-memory
`orders` array as an immutable `seq<Order>` and returns a reply together with
the new store.

Files, one module each:

- `types.dfy` (`OrderTypes`): orders, dishes and payloads, the errors and
  replies, and their HTTP codes. JavaScript values become small sum types:
  - a quantity is `Missing | IntVal(n) | NonInteger`;
  - the `dishes` property is `Absent | NotAList | List(items)`;
  - a string field is `Option<string>`, where `""` is falsy just like a missing value.
- `messages.dfy` (`Messages`): the text sent with each error, including the
  decimal rendering of a dish index.
- `validators.dfy` (`Validators`): the five checks.
- `store.dfy` (`Store`): the three store mutations and the store invariant.
  The invariant is: ids are unique, and every order is well formed.
- `pipeline.dfy` (`Pipeline`): the four exported chains, the chain runner and
  the four endpoints.
- `properties.dfy` (`Properties`): lemmas that relate the endpoints to
  definitions stated on the payload alone. They cover which error is reported,
  what a success writes, lookups afterwards, and invariant preservation.
- `aswritten.dfy` (`AsWritten`): `destroy` with the index computation as the
  source writes it (see Findings).
- `scenarios.dfy` (`Scenarios`): concrete requests against a one-order store.

Four behaviours of the source are easy to miss. The model follows the code in each case:

- A newly created order has no `status`, so only an update to `"pending"` can
  make it deletable.
- A payload `id` of `""` counts as absent in the id comparison of `update`.
- The TypeError cases are modelled as `Error.Thrown`, which Express answers
  with 500. They are reading `length` of a missing `dishes` and calling
  `forEach` on a non-array. `Properties.CreateChainNeverThrows`,
  `Properties.UpdateChainNeverThrows` and `Properties.LookupChainsNeverThrow`
  show that none of the four exported chains reaches a check the model marks
  `Thrown`. A TypeError the model cannot express, such as a `null` dish, is
  listed under Left out.
- The id-mismatch check runs after every other check of the update chain.

In four places the source decides and then goes on instead of stopping. The
model takes the evident intent in each, and a comment marks the spot:

- `quantityIsValidNumber` calls `next()` after its loop (line 49). Its
  `return next(...)` inside `forEach` (line 43) does not end the loop. The
  model reports the first offending dish and stops.
- `dishesPropertyIsValid` calls `next()` after `next(err)` (line 60).
- `update` and `destroy` call `next(err)` after replying (lines 108 and 123).

## Model

| member | source | states |
|---|---|---|
| `Validators.FindOrder` | src/orders/orders.controller.js:11-13 | The lookup finds the first order whose id is exactly the route id. It finds nothing exactly when no order carries that id. |
| `Validators.OrderExists` | src/orders/orders.controller.js:11-22 | The check passes iff some order has the route id. Otherwise it fails with NotFound (404) naming that id. |
| `Validators.BodyDataHas` | src/orders/orders.controller.js:24-31 | A required-field check passes iff `data` exists and the field is present. For a string field, present means non-empty. For `dishes`, present means not missing. Otherwise it fails with MissingField of that field, including when `data` is absent. |
| `Validators.DishesPropertyIsValid` | src/orders/orders.controller.js:52-60 | The check passes iff `dishes` is a non-empty list. An empty list or a non-list fails with NoDishes. A missing `dishes` throws. |
| `Validators.FirstBadQuantity` | src/orders/orders.controller.js:34-48 | It returns no index iff every dish has an integer quantity of at least 1. Otherwise it returns the index of the first dish without one. |
| `Validators.QuantityIsValidNumber` | src/orders/orders.controller.js:34-49 | The check passes iff `dishes` is a list whose quantities are all integers of at least 1. A rejection names the zero-based index of the first offending dish. A non-list throws. |
| `Validators.StatusPropertyIsValid` | src/orders/orders.controller.js:63-72 | The check passes iff status is exactly one of pending, preparing, out-for-delivery or delivered. Otherwise it fails with BadStatus. |
| `Validators.QuantityRejectedIsInvalid` | src/orders/orders.controller.js:37-42 | The four-way rejection test of the callback rejects exactly the quantities that are not integers of at least 1. |
| `Messages.ParseNatToString` | src/orders/orders.controller.js:45 | Reading back the index rendered in the quantity message gives the index. |
| `Messages.NatToStringInjective` | src/orders/orders.controller.js:45 | Distinct indices render as distinct texts. |
| `Messages.Message` | src/orders/orders.controller.js:18-125 | Each error message names its subject. The 404 text quotes the route id between "Order does not exist: " and a final period. A missing-field text ends with the property name. A quantity text has the dish index right after "Dish ". An id-mismatch text has the stored id after "Order: " and the payload id at the end, after ", Route: ". |
| `Messages.BadQuantityMessageInjective` | src/orders/orders.controller.js:43-46 | Two quantity messages are equal only if they name the same dish index. |
| `Store.Create` | src/orders/orders.controller.js:83-92 | The store grows by exactly one order, appended last, and earlier orders are unchanged. The new order carries the supplied id, the payload's deliverTo, mobileNumber and dishes, and no status. |
| `Store.Update` | src/orders/orders.controller.js:95-111 | If the payload id is falsy or equals the order's id, exactly deliverTo, mobileNumber, status and dishes of that order are overwritten. Its id and position stay, as does every other order. Otherwise the reply is IdMismatch and the store is unchanged. |
| `Store.RemoveAt` | src/orders/orders.controller.js:120 | Removing one position keeps every other order in order. The old store is the new one plus the removed order, as a multiset. |
| `Store.Destroy` | src/orders/orders.controller.js:114-126 | A pending order is removed with 204. The remaining orders keep their relative order, and the old store is the new one plus that order, as a multiset. Any other status gives NotPending and leaves the store unchanged. |
| `Pipeline.RunChain` | src/orders/orders.controller.js:129-151 | A chain passes iff every check in it passes. A failure is the failure of a check at which the chain stops, with every earlier check passed. |
| `Pipeline.StopsAtUnique` | src/orders/orders.controller.js:129-151 | A chain has at most one stopping position. |
| `Pipeline.RunChainReportsFirstFailure` | src/orders/orders.controller.js:129-151 | When the checks before position k pass and check k fails, the chain reports exactly check k's error. |
| `Pipeline.CreateChainEstablishes` | src/orders/orders.controller.js:132-139 | After the create chain passes, data exists, deliverTo and mobileNumber are non-empty, and dishes is a non-empty list with valid quantities. |
| `Pipeline.UpdateChainEstablishes` | src/orders/orders.controller.js:140-150 | After the update chain passes, the order exists and every field is supplied. The status is one of the four, and the dishes are non-empty with valid quantities. |
| `Pipeline.LookupChainEstablishes` | src/orders/orders.controller.js:151 | After the lookup chain passes, the order exists. |
| `Pipeline.ReadEndpoint` | src/orders/orders.controller.js:131 | A missing id gives NotFound. An existing id gives the first order carrying it. The store is unchanged. |
| `Pipeline.CreateEndpoint` | src/orders/orders.controller.js:132-139 | A failure leaves the store unchanged. A success appends exactly one order: the fresh id, the payload's deliverTo, mobileNumber and dishes, and no status. |
| `Pipeline.UpdateEndpoint` | src/orders/orders.controller.js:140-150 | A missing order gives NotFound whatever the payload. A failure leaves the store unchanged. Every outcome keeps the length and every id in place. |
| `Pipeline.DeleteEndpoint` | src/orders/orders.controller.js:151 | A missing order gives NotFound whatever the request. A failure leaves the store unchanged. A 204 means the found order was pending and exactly that position was removed, the rest kept in order. |
| `Properties.FindOrderAt` | src/orders/orders.controller.js:13 | The lookup returns the first position holding the id. |
| `Properties.FindOrderUnique` | src/orders/orders.controller.js:13 | With unique ids, looking up an order's id finds that order. |
| `Properties.FindOrderSameIds` | src/orders/orders.controller.js:13 | Stores with the same ids at the same positions answer every lookup alike. |
| `Properties.CreateOutcome` | src/orders/orders.controller.js:132-139 | POST succeeds iff data exists, deliverTo and mobileNumber are non-empty, and dishes is a non-empty list of valid quantities. Otherwise it reports the first failing check in chain order: missing deliverTo (also when data is absent), then mobileNumber, then dishes, then an empty or non-list dishes, then the first bad quantity index. |
| `Properties.UpdateAccepts` | src/orders/orders.controller.js:140-150 | For an existing order, PUT succeeds iff the payload is creatable, has a known status, and its id is falsy or matches. |
| `Properties.UpdateFieldErrors` | src/orders/orders.controller.js:140-146 | For an existing order, PUT reports the first missing field, in the order deliverTo, mobileNumber, status, dishes. After that it reports an unknown status. |
| `Properties.UpdateMissingAt` | src/orders/orders.controller.js:140-146 | For an existing order, a payload that first fails presence or status check k (data or deliverTo, mobileNumber, status, dishes, then status value) is answered with that check's error, and the store is unchanged. |
| `Properties.UpdateStopsAt` | src/orders/orders.controller.js:140-150 | PUT answers with the error of the check where the update chain stops, and leaves the store unchanged. |
| `Properties.UpdateHeadPasses` | src/orders/orders.controller.js:141-146 | For an existing order, a payload with all four fields present and a known status passes the lookup, the presence checks and the status check. |
| `Properties.UpdateChainPasses` | src/orders/orders.controller.js:140-148 | For an existing order, a creatable payload with a known status passes every check of the update chain. This is the converse of `Pipeline.UpdateChainEstablishes`. |
| `Properties.UpdateNoDishes` | src/orders/orders.controller.js:147 | Once those checks pass, an empty or non-list dishes gives NoDishes and the store is unchanged. |
| `Properties.UpdateBadQuantity` | src/orders/orders.controller.js:148 | Once those checks pass, the first bad quantity index is reported and the store is unchanged. |
| `Properties.UpdateIdMismatch` | src/orders/orders.controller.js:99-111 | A payload that passes every check but names a different id gets 400 IdMismatch with both ids. The store is unchanged. |
| `Properties.UpdateWritesPayload` | src/orders/orders.controller.js:99-104 | A successful PUT replaces the order at the found position with the route id and the payload's four fields. Nothing else changes. |
| `Properties.UpdateThenFind` | src/orders/orders.controller.js:95-106 | After a PUT, every lookup finds what it found before, and reading back gives the updated order. |
| `Properties.CreateChainNeverThrows` | src/orders/orders.controller.js:132-139 | The create chain never reaches a check the model marks `Thrown`: the presence check on dishes runs before the length and forEach checks. |
| `Properties.UpdateChainNeverThrows` | src/orders/orders.controller.js:140-150 | The update chain never reaches a check the model marks `Thrown`, for the same reason. |
| `Properties.LookupChainsNeverThrow` | src/orders/orders.controller.js:129-151 | The read and delete chains, which only look the order up, never report `Thrown`. |
| `Properties.CreateIgnoresStatus` | src/orders/orders.controller.js:132-139 | The status check is not in the create chain. POST answers the same whatever status, payload id or route id it carries. |
| `Properties.CreateThenFind` | src/orders/orders.controller.js:83-92 | After POST, the new order is found under its id, reading it back gives the created order, and every other id is found where it was. |
| `Properties.DeleteOutcome` | src/orders/orders.controller.js:114-126 | With unique ids, a DELETE of a pending order gives 204, and a later read gives NotFound. The store loses exactly that order, as a multiset. On any other status the reply is NotPending, the store is unchanged, and the order is still readable. |
| `Properties.CreatePreservesInvariant` | src/orders/orders.controller.js:83-92 | POST with a fresh id keeps ids unique and every order well formed. |
| `Properties.UpdatePreservesInvariant` | src/orders/orders.controller.js:95-111 | PUT keeps ids unique and every order well formed. |
| `Properties.DeletePreservesInvariant` | src/orders/orders.controller.js:114-126 | DELETE keeps ids unique and every order well formed. |
| `AsWritten.ToNumber` | src/orders/orders.controller.js:117 | `Number(orderId)` is never a string; an empty route id reads as 0. |
| `AsWritten.ToNumberOfDecimal` | src/orders/orders.controller.js:117 | A route id of decimal digits reads back through `Number` as its numeric value. |
| `AsWritten.FindIndex` | src/orders/orders.controller.js:117 | `findIndex` returns -1 iff no element matches. Otherwise it returns the first matching position. |
| `AsWritten.DestroyIndexIsMinusOne` | src/orders/orders.controller.js:117 | `destroy` compares each string id with `Number(orderId)` using `===`. A string never equals a number, so the index is always -1. |
| `AsWritten.SpliceOne` | src/orders/orders.controller.js:120 | `splice(start, 1)` with a negative start removes the element counted back from the end. A start past the end removes nothing. |
| `AsWritten.DeleteEndpointAsWritten` | src/orders/orders.controller.js:114-126 | As written, deleting a pending order drops the LAST order of the store. A missing order gives NotFound, and a non-pending one gives NotPending with the store unchanged. |
| `AsWritten.DestroyAsWrittenDropsLastOrder` | src/orders/orders.controller.js:117-120 | Deleting pending order "1" from [order "1", order "2"] removes order "2" and leaves order "1" readable. The corrected endpoint removes order "1". |
| `Scenarios.CreateExample` | src/orders/orders.controller.js:83-92 | A POST with deliverTo "A", mobileNumber "555" and one dish of quantity 2 gives 201, with the fresh id and quantity 2. |
| `Scenarios.UpdateEmptyDishesExample` | src/orders/orders.controller.js:140-150 | A PUT with status "delivered" and an empty dishes list gives 400, and the store is unchanged. |
| `Scenarios.DeletePreparingExample` | src/orders/orders.controller.js:114-126 | A DELETE of a "preparing" order gives 400, and the order is still readable. |
| `Scenarios.ReadMissingExample` | src/orders/orders.controller.js:11-22 | A GET of an unknown id gives 404. |

## Left out

- `list` (lines 75-77) is left out. It only serialises the whole store.
- `read` (lines 79-81) is reduced to the lookup and the found order.
- JSON serialisation, `res.json`, `res.status` and `res.sendStatus` are left
  out. HTTP codes exist only as `ErrorCode` and `ReplyCode` on the reply.
- The seed data (line 4) is left out. Every endpoint takes the current store
  as a parameter.
- `nextId` (line 7) is not part of this model. The created id is a parameter,
  and the precondition `FreshId` says it is fresh for the current store.
  Uniqueness against ids issued earlier and since deleted is not modelled.
- JavaScript truthiness corner cases are abstracted. These are `0`, `false`
  or `null` as field values, `data: null`, and `Number.isInteger` on arbitrary
  values. A falsy but present `dishes` value such as `""` is treated as
  missing. Outside the exported chains, the source's `dishesPropertyIsValid`
  would answer 400 for such a value rather than throw.
- A payload `id` that is not a string is not modelled.
- Properties.CreateChainNeverThrows: covers only the TypeErrors the model
  marks `Thrown`. A `null` element of `dishes` (`dishes: [null]`) makes
  `dish.quantity` at line 38 throw in the source, but a `Dish` here cannot be
  `null`, so that 500 is not ruled out.
- Properties.UpdateChainNeverThrows: the same `null`-dish TypeError (line 38)
  is outside the model and not ruled out.
- Of a dish, only `quantity` is modelled. Its other attributes are carried
  through unchanged as `name`.
- The message Express sends for a thrown TypeError is not modelled.
  `Message(Thrown)` is a placeholder.
- Express behaviour after a double `next`/reply at lines 49, 60, 108 and 123
  is not modelled, for example "headers already sent". The model takes the
  evident if/else.
- Concurrency is left out. Requests are handled one at a time, and the file
  coordinates no writers.

## Findings

| source | as written | input that shows it | evidently intended | confidence | as-written member | corrected member |
|---|---|---|---|---|---|---|
| src/orders/orders.controller.js:117-120 | `findIndex` compares each string id with `Number(orderId)`, so it yields -1, and `splice(-1, 1)` removes the last order. | Store [order "1" pending, order "2" delivered], DELETE /orders/1: 204, order "2" is gone, and order "1" is still there. | Remove the order that `orderExists` found. | high; not executed | `AsWritten.DestroyAsWrittenDropsLastOrder` | `Properties.DeleteOutcome` |
