/** The cart API (`/api/cart`): request validation, dispatch to the document
    store when a connection exists and to the in-memory store otherwise, and
    the cart total. */
module CartRoutes {
  import opened Optional
  import opened LineItems
  import CartStore
  import CartsCollection

  /** The JSON body of POST `/add`; `None` is a field that is absent. */
  datatype AddBody = AddBody(
    productId: Option<string>,
    productName: Option<string>,
    price: Option<int>,
    quantity: Option<int>,
    image: Option<string>)

  /** The JSON body of PUT `/update`. */
  datatype UpdateBody = UpdateBody(productId: Option<string>, quantity: Option<int>)

  /** What a handler sends back. */
  datatype Response =
    | Listing(items: seq<Item>, total: int)   // 200 `{ items, total }`
    | Success(message: string)                // 200 `{ success: true, message }`
    | BadRequest(error: string)               // 400 `{ error }`

  const MissingFields := "Missing required fields"
  const ItemAdded := "Item added to cart"
  const CartUpdated := "Cart updated"
  const ItemRemoved := "Item removed from cart"

  /** JavaScript truthiness of a string field. */
  predicate Truthy(s: Option<string>)
  {
    s.Some? && s.value != ""
  }

  /** JavaScript truthiness of the numeric `price` field. */
  predicate TruthyPrice(p: Option<int>)
  {
    p.Some? && p.value != 0
  }

  /** An add request that passed validation, `quantity = 1` default applied. */
  datatype AddRequest = AddRequest(
    productId: string,
    productName: string,
    price: int,
    quantity: int,
    image: Option<string>)

  /** The destructuring with its default and the required-field guard of
      POST `/add`. */
  function ValidateAdd(body: AddBody): (r: Option<AddRequest>)
    ensures r.Some? <==> Truthy(body.productId) && Truthy(body.productName) && TruthyPrice(body.price)
    ensures r.Some? ==>
      && r.value.productId == body.productId.value
      && r.value.productName == body.productName.value
      && r.value.price == body.price.value
      && r.value.image == body.image
      && r.value.quantity == (if body.quantity.Some? then body.quantity.value else 1)
  {
    if !Truthy(body.productId) || !Truthy(body.productName) || !TruthyPrice(body.price) then None
    else
      var quantity := match body.quantity case None => 1 case Some(q) => q;
      Some(AddRequest(body.productId.value, body.productName.value, body.price.value, quantity, body.image))
  }

  /** The required-field guard of PUT `/update`: a present `productId` and a
      defined `quantity`. */
  function ValidateUpdate(body: UpdateBody): (r: Option<(string, int)>)
    ensures r.Some? <==> Truthy(body.productId) && body.quantity.Some?
    ensures r.Some? ==> r.value.0 == body.productId.value && r.value.1 == body.quantity.value
  {
    if !Truthy(body.productId) || body.quantity.None? then None
    else Some((body.productId.value, body.quantity.value))
  }

  /** The argument the in-memory branch passes to `addItem`. */
  function ToNewItem(r: AddRequest): CartStore.NewItem
  {
    CartStore.NewItem(r.productId, r.productName, r.price, Some(r.quantity), r.image)
  }

  /** The document-store branch of POST `/add`: look the product up, then set
      its quantity to the stored one plus the incoming one, or insert it. */
  function DatabaseAdded(s: seq<Item>, r: AddRequest, now: Timestamp): (t: seq<Item>)
    ensures |t| == if r.productId in Keys(s) then |s| else |s| + 1
  {
    match Lookup(s, r.productId)
    case Some(e) => WithQuantity(s, r.productId, e.quantity + r.quantity)
    case None => s + [Item(r.productId, r.productName, r.price, r.quantity, r.image, now)]
  }

  /** A request that changes the cart; `now` is the clock reading an add would
      store as `createdAt`. */
  datatype Request =
    | AddItem(body: AddBody, now: Timestamp)
    | UpdateItem(update: UpdateBody)
    | RemoveItem(productId: string)

  /** The in-memory cart after one request. */
  function MemoryStep(s: seq<Item>, req: Request): seq<Item>
  {
    match req
    case AddItem(body, now) =>
      (match ValidateAdd(body)
       case None => s
       case Some(r) => CartStore.Added(s, ToNewItem(r), now))
    case UpdateItem(update) =>
      (match ValidateUpdate(update)
       case None => s
       case Some((id, q)) => CartStore.QuantityUpdated(s, id, q))
    case RemoveItem(id) => Without(s, id)
  }

  /** The document-store cart after one request. */
  function DatabaseStep(s: seq<Item>, req: Request): seq<Item>
  {
    match req
    case AddItem(body, now) =>
      (match ValidateAdd(body)
       case None => s
       case Some(r) => DatabaseAdded(s, r, now))
    case UpdateItem(update) =>
      (match ValidateUpdate(update)
       case None => s
       case Some((id, q)) => if q <= 0 then Without(s, id) else WithQuantity(s, id, q))
    case RemoveItem(id) => Without(s, id)
  }

  /** The reply to a request that changes the cart; it depends neither on the
      backend nor on whether the product was in the cart. */
  function Reply(req: Request): Response
  {
    match req
    case AddItem(body, _) => if ValidateAdd(body).None? then BadRequest(MissingFields) else Success(ItemAdded)
    case UpdateItem(update) => if ValidateUpdate(update).None? then BadRequest(MissingFields) else Success(CartUpdated)
    case RemoveItem(_) => Success(ItemRemoved)
  }

  /** The add that the two backends treat differently: a valid body whose
      explicit quantity is 0. */
  predicate AddsZero(req: Request)
  {
    req.AddItem? && ValidateAdd(req.body).Some? && ValidateAdd(req.body).value.quantity == 0
  }

  /** A run of requests against the in-memory cart. */
  function RunMemory(s: seq<Item>, reqs: seq<Request>): seq<Item>
    decreases |reqs|
  {
    if reqs == [] then s else RunMemory(MemoryStep(s, reqs[0]), reqs[1..])
  }

  /** The same run against the document store. */
  function RunDatabase(s: seq<Item>, reqs: seq<Request>): seq<Item>
    decreases |reqs|
  {
    if reqs == [] then s else RunDatabase(DatabaseStep(s, reqs[0]), reqs[1..])
  }

  // ----- properties of the handlers -----

  /** A request with a missing required field changes neither store. */
  lemma RejectedRequestChangesNothing(s: seq<Item>, req: Request)
    requires Reply(req).BadRequest?
    ensures MemoryStep(s, req) == s && DatabaseStep(s, req) == s
    ensures !req.RemoveItem?
  {
  }

  /** The document store's add keeps at most one document per product, although
      the store itself does not enforce it. */
  lemma DatabaseAddedKeepsKeysUnique(s: seq<Item>, r: AddRequest, now: Timestamp)
    requires UniqueKeys(s)
    ensures UniqueKeys(DatabaseAdded(s, r, now))
    ensures Lookup(DatabaseAdded(s, r, now), r.productId).Some?
    ensures Lookup(DatabaseAdded(s, r, now), r.productId).value.quantity ==
      (match Lookup(s, r.productId)
       case None => 0
       case Some(e) => e.quantity) + r.quantity
  {
    match Lookup(s, r.productId)
    case Some(e) =>
      WithQuantityEffect(s, r.productId, e.quantity + r.quantity);
    case None =>
      var t := s + [Item(r.productId, r.productName, r.price, r.quantity, r.image, now)];
      LookupFindsEntry(t, |s|);
  }

  /** Every request keeps at most one record per product, in either backend. */
  lemma StepKeepsKeysUnique(s: seq<Item>, req: Request)
    requires UniqueKeys(s)
    ensures UniqueKeys(MemoryStep(s, req))
    ensures UniqueKeys(DatabaseStep(s, req))
  {
    match req
    case AddItem(body, now) =>
      if ValidateAdd(body).Some? {
        CartStore.AddedKeepsKeysUnique(s, ToNewItem(ValidateAdd(body).value), now);
        DatabaseAddedKeepsKeysUnique(s, ValidateAdd(body).value, now);
      }
    case UpdateItem(update) =>
      if ValidateUpdate(update).Some? {
        var (id, q) := ValidateUpdate(update).value;
        WithoutEffect(s, id);
        WithQuantityEffect(s, id, q);
      }
    case RemoveItem(id) =>
      WithoutEffect(s, id);
  }

  /** Apart from an add with an explicit quantity of 0, both backends turn a
      cart into the same cart. */
  lemma BackendsAgreeOnStep(s: seq<Item>, req: Request)
    requires UniqueKeys(s) && !AddsZero(req)
    ensures MemoryStep(s, req) == DatabaseStep(s, req)
  {
    if req.AddItem? && ValidateAdd(req.body).Some? {
      var r := ValidateAdd(req.body).value;
      assert CartStore.QuantityOrOne(Some(r.quantity)) == r.quantity;
      assert CartStore.NewRecord(ToNewItem(r), req.now)
        == Item(r.productId, r.productName, r.price, r.quantity, r.image, req.now);
      assert CartStore.Added(s, ToNewItem(r), req.now) == DatabaseAdded(s, r, req.now);
    }
  }

  /** An add with an explicit quantity of 0 adds one in memory (`0 || 1`) but
      nothing in the document store, which may then hold a record of quantity
      0. */
  lemma BackendsDivergeOnZeroQuantity(s: seq<Item>, req: Request)
    requires UniqueKeys(s) && AddsZero(req)
    ensures var id := req.body.productId.value;
      && Lookup(MemoryStep(s, req), id).Some?
      && Lookup(DatabaseStep(s, req), id).Some?
      && Lookup(MemoryStep(s, req), id).value.quantity == Lookup(DatabaseStep(s, req), id).value.quantity + 1
    ensures Lookup(s, req.body.productId.value).None? ==>
      Lookup(DatabaseStep(s, req), req.body.productId.value).value.quantity == 0
  {
    var r := ValidateAdd(req.body).value;
    CartStore.AddedKeepsKeysUnique(s, ToNewItem(r), req.now);
    DatabaseAddedKeepsKeysUnique(s, r, req.now);
  }

  /** Any run of requests free of zero-quantity adds leaves both backends with
      the same items in the same order, hence the same listing and total. */
  lemma {:induction false} BackendsAgree(s: seq<Item>, reqs: seq<Request>)
    requires UniqueKeys(s)
    requires forall i :: 0 <= i < |reqs| ==> !AddsZero(reqs[i])
    ensures RunMemory(s, reqs) == RunDatabase(s, reqs)
    ensures UniqueKeys(RunMemory(s, reqs))
    decreases |reqs|
  {
    if reqs != [] {
      BackendsAgreeOnStep(s, reqs[0]);
      StepKeepsKeysUnique(s, reqs[0]);
      BackendsAgree(MemoryStep(s, reqs[0]), reqs[1..]);
    }
  }

  /** An add is not restricted to positive quantities: a negative one is stored
      as given, so a record can hold a quantity below 1. */
  lemma NegativeQuantityIsStored(s: seq<Item>, req: Request)
    requires UniqueKeys(s) && req.AddItem? && ValidateAdd(req.body).Some?
    requires Lookup(s, req.body.productId.value).None?
    requires req.body.quantity.Some? && req.body.quantity.value < 0
    ensures Lookup(MemoryStep(s, req), req.body.productId.value).Some?
    ensures Lookup(MemoryStep(s, req), req.body.productId.value).value.quantity < 1
  {
    CartStore.AddedKeepsKeysUnique(s, ToNewItem(ValidateAdd(req.body).value), req.now);
  }

  // ----- the total -----

  /** Raising the quantity of a present product by `d` raises the total by its
      price times `d`. */
  lemma TotalAfterRaise(s: seq<Item>, id: string, d: int)
    requires Lookup(s, id).Some?
    ensures var e := Lookup(s, id).value;
      Total(WithQuantity(s, id, e.quantity + d)) == Total(s) + e.price * d
  {
    var i := IndexOf(s, id).value;
    WithQuantityAt(s, id, s[i].quantity + d);
    TotalRaise(s, i, d);
  }

  /** The total after an in-memory add grows by the stored price times the
      quantity actually added. */
  lemma TotalAfterAdd(s: seq<Item>, item: CartStore.NewItem, now: Timestamp)
    requires UniqueKeys(s)
    ensures var t := CartStore.Added(s, item, now);
      Lookup(t, item.productId).Some? &&
      Total(t) == Total(s) + Lookup(t, item.productId).value.price * CartStore.QuantityOrOne(item.quantity)
  {
    CartStore.AddedAt(s, item, now);
    CartStore.AddedKeepsKeysUnique(s, item, now);
    if IndexOf(s, item.productId).Some? {
      TotalAfterAddAt(s, CartStore.Added(s, item, now), IndexOf(s, item.productId).value,
                      CartStore.QuantityOrOne(item.quantity));
    } else {
      TotalAfterAppend(s, CartStore.Added(s, item, now));
    }
  }

  /** `t` is `s` with line `i` raised by `n`. */
  lemma TotalAfterAddAt(s: seq<Item>, t: seq<Item>, i: nat, n: int)
    requires i < |s| && t == s[i := s[i].(quantity := s[i].quantity + n)] && UniqueKeys(t)
    ensures Lookup(t, s[i].productId) == Some(t[i])
    ensures Total(t) == Total(s) + t[i].price * n
  {
    LookupFindsEntry(t, i);
    TotalRaise(s, i, n);
  }

  /** `t` is `s` with one line appended. */
  lemma TotalAfterAppend(s: seq<Item>, t: seq<Item>)
    requires |t| == |s| + 1 && t[..|s|] == s && UniqueKeys(t)
    ensures Lookup(t, t[|s|].productId) == Some(t[|s|])
    ensures Total(t) == Total(s) + LineTotal(t[|s|])
  {
    LookupFindsEntry(t, |s|);
    assert t[..|t| - 1] == s;
  }

  /** The total after `updateQuantity` replaces the product's line: its old
      line is taken out, and for a positive quantity price × new quantity is put
      in. */
  lemma TotalAfterUpdate(s: seq<Item>, productId: string, quantity: int)
    requires UniqueKeys(s)
    ensures var line := match Lookup(s, productId) case None => 0 case Some(e) => LineTotal(e);
      var added := match Lookup(s, productId) case None => 0 case Some(e) => e.price * quantity;
      Total(CartStore.QuantityUpdated(s, productId, quantity)) ==
        Total(s) - line + (if quantity <= 0 then 0 else added)
  {
    WithoutAt(s, productId);
    WithQuantityAt(s, productId, quantity);
    if IndexOf(s, productId).Some? {
      var i := IndexOf(s, productId).value;
      TotalCut(s, i);
      TotalReplace(s, i, s[i].(quantity := quantity));
    }
  }

  // ----- the service -----

  /** The router: `database` is what `getDB()` returns, `null` when no
      connection was made; `memory` is the in-memory fallback. */
  /** A valid add request steps each backend by its own add. */
  lemma AddStep(body: AddBody, now: Timestamp, r: AddRequest)
    requires ValidateAdd(body) == Some(r)
    ensures forall s :: DatabaseStep(s, AddItem(body, now)) == DatabaseAdded(s, r, now)
    ensures forall s :: MemoryStep(s, AddItem(body, now)) == CartStore.Added(s, ToNewItem(r), now)
    ensures Reply(AddItem(body, now)) == Success(ItemAdded)
  {
  }

  /** The document-store branch of POST `/add`: `findOne`, then `updateOne`
      with the summed quantity or `insertOne`. */
  method AddToDatabase(db: CartsCollection.Collection, r: AddRequest, now: Timestamp)
    modifies db
    ensures db.docs == DatabaseAdded(old(db.docs), r, now)
  {
    ghost var before := db.docs;
    var existing := db.FindOne(r.productId);
    if existing.Some? {
      assert DatabaseAdded(before, r, now)
        == WithQuantity(before, r.productId, existing.value.quantity + r.quantity);
      db.SetQuantity(r.productId, existing.value.quantity + r.quantity);
    } else {
      db.InsertOne(Item(r.productId, r.productName, r.price, r.quantity, r.image, now));
    }
  }

  class CartService {
    const memory: CartStore.Cart
    const database: CartsCollection.Collection?

    /** The in-memory store keeps one record per key. The document store is
        taken as it is: a persisted collection may already hold duplicates. */
    ghost predicate Valid()
      reads this, memory
    {
      memory.Valid()
    }

    /** The items of the store that serves requests. */
    ghost function Contents(): seq<Item>
      reads this, memory, database
    {
      if database != null then database.docs else memory.entries
    }

    constructor (database: CartsCollection.Collection?)
      ensures Valid() && this.database == database
      ensures fresh(memory) && memory.entries == []
    {
      this.database := database;
      memory := new CartStore.Cart();
    }

    /** GET `/`: the items of the active store with `total`, the sum of price
        × quantity over them. */
    method GetCart() returns (resp: Response)
      requires Valid()
      ensures resp == Listing(Contents(), Total(Contents()))
      ensures resp.total == SumOfLines(resp.items)
    {
      var items;
      if database != null {
        items := database.Find();
      } else {
        items := memory.GetAllItems();
      }
      TotalIsSumOfLines(items);
      resp := Listing(items, Total(items));
    }

    /** POST `/add`: 400 when `productId`, `productName` or `price` is falsy,
        and then no store is touched; otherwise the active store adds the item. */
    method Add(body: AddBody, now: Timestamp) returns (resp: Response)
      requires Valid()
      modifies memory, database
      ensures Valid()
      ensures resp == Reply(AddItem(body, now))
      ensures database != null ==>
        database.docs == DatabaseStep(old(database.docs), AddItem(body, now)) && unchanged(memory)
      ensures database == null ==> memory.entries == MemoryStep(old(memory.entries), AddItem(body, now))
    {
      var parsed := ValidateAdd(body);
      if parsed.None? {
        return BadRequest(MissingFields);
      }
      var r := parsed.value;
      AddStep(body, now, r);
      if database != null {
        AddToDatabase(database, r, now);
      } else {
        var _ := memory.AddItem(ToNewItem(r), now);
      }
      resp := Success(ItemAdded);
    }

    /** PUT `/update`: 400 when `productId` is falsy or `quantity` undefined;
        otherwise a quantity of 0 or less removes the product and a positive
        one sets it, in the active store. */
    method Update(body: UpdateBody) returns (resp: Response)
      requires Valid()
      modifies memory, database
      ensures Valid()
      ensures resp == Reply(UpdateItem(body))
      ensures database != null ==>
        database.docs == DatabaseStep(old(database.docs), UpdateItem(body)) && unchanged(memory)
      ensures database == null ==> memory.entries == MemoryStep(old(memory.entries), UpdateItem(body))
    {
      var parsed := ValidateUpdate(body);
      if parsed.None? {
        return BadRequest(MissingFields);
      }
      var (productId, quantity) := parsed.value;
      if database != null {
        if quantity <= 0 {
          database.DeleteOne(productId);
        } else {
          database.SetQuantity(productId, quantity);
        }
      } else {
        var _ := memory.UpdateQuantity(productId, quantity);
      }
      resp := Success(CartUpdated);
    }

    /** DELETE `/remove/:productId`: removes the product from the active store
        and replies success whether or not it was there. */
    method Remove(productId: string) returns (resp: Response)
      requires Valid()
      modifies memory, database
      ensures Valid()
      ensures resp == Success(ItemRemoved)
      ensures database != null ==> database.docs == Without(old(database.docs), productId) && unchanged(memory)
      ensures database == null ==> memory.entries == Without(old(memory.entries), productId)
    {
      if database != null {
        database.DeleteOne(productId);
      } else {
        var _ := memory.RemoveItem(productId);
      }
      resp := Success(ItemRemoved);
    }
  }

  /** Against the in-memory fallback: an add without a price is refused and
      changes nothing, adding a product twice sums the quantities, and an
      update to 0 removes it. */
  method PanelScenario()
  {
    var service := new CartService(null);
    var resp := service.Add(AddBody(Some("p1"), Some("Panel"), None, Some(2), None), 1);
    assert resp == BadRequest(MissingFields) && service.memory.entries == [];
    resp := service.Add(AddBody(Some("p1"), Some("Panel"), Some(10000), Some(2), None), 1);
    resp := service.GetCart();
    assert resp == Listing([Item("p1", "Panel", 10000, 2, None, 1)], 20000);
    resp := service.Add(AddBody(Some("p1"), Some("Panel"), Some(10000), Some(3), None), 2);
    resp := service.GetCart();
    assert resp == Listing([Item("p1", "Panel", 10000, 5, None, 1)], 50000);
    resp := service.Update(UpdateBody(Some("p1"), Some(0)));
    resp := service.GetCart();
    assert resp == Listing([], 0);
  }
}
