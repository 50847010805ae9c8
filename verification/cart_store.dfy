/** The in-memory cart store: the module-level `Map` from `productId` to line
    item, and its six operations. */
module CartStore {
  import opened Optional
  import opened LineItems

  /** The argument of `addItem`. `quantity == None` is an undefined field. */
  datatype NewItem = NewItem(
    productId: string,
    productName: string,
    price: int,
    quantity: Option<int>,
    image: Option<string>)

  /** `item.quantity || 1`: an undefined or zero quantity counts as one. */
  function QuantityOrOne(q: Option<int>): (r: int)
    ensures r != 0
    ensures q.Some? && q.value != 0 ==> r == q.value
    ensures q.None? || q.value == 0 ==> r == 1
  {
    if q.Some? && q.value != 0 then q.value else 1
  }

  /** The record `addItem` creates for a product not yet in the cart. */
  function NewRecord(item: NewItem, now: Timestamp): Item
  {
    Item(item.productId, item.productName, item.price, QuantityOrOne(item.quantity), item.image, now)
  }

  /** The entries after `addItem(item)` with the clock reading `now`. */
  function Added(s: seq<Item>, item: NewItem, now: Timestamp): (r: seq<Item>)
    ensures |r| == if item.productId in Keys(s) then |s| else |s| + 1
  {
    match Lookup(s, item.productId)
    case Some(e) => WithQuantity(s, item.productId, e.quantity + QuantityOrOne(item.quantity))
    case None => s + [NewRecord(item, now)]
  }

  /** The entries after `updateQuantity(productId, quantity)`. */
  function QuantityUpdated(s: seq<Item>, productId: string, quantity: int): (r: seq<Item>)
    ensures quantity > 0 ==> |r| == |s|
    ensures quantity <= 0 ==> |r| == if productId in Keys(s) then |s| - 1 else |s|
  {
    assert Lookup(s, productId).Some? <==> IndexOf(s, productId).Some?;
    if quantity <= 0 then Without(s, productId) else WithQuantity(s, productId, quantity)
  }

  // ----- addItem -----

  /** Adding a product already in the cart raises its quantity by
      `item.quantity || 1` and changes nothing else: not its name, price, image
      or creation time, not its position, not any other entry. */
  lemma AddedExisting(s: seq<Item>, item: NewItem, now: Timestamp)
    requires UniqueKeys(s) && Lookup(s, item.productId).Some?
    ensures var e := Lookup(s, item.productId).value;
      Lookup(Added(s, item, now), item.productId)
        == Some(e.(quantity := e.quantity + QuantityOrOne(item.quantity)))
    ensures Keys(Added(s, item, now)) == Keys(s)
    ensures UniqueKeys(Added(s, item, now))
    ensures forall other :: other != item.productId ==> Lookup(Added(s, item, now), other) == Lookup(s, other)
  {
    var e := Lookup(s, item.productId).value;
    WithQuantityEffect(s, item.productId, e.quantity + QuantityOrOne(item.quantity));
  }

  /** Adding a product not in the cart appends one record, with quantity
      `item.quantity || 1` and creation time `now`, as the last entry. */
  lemma AddedFresh(s: seq<Item>, item: NewItem, now: Timestamp)
    requires UniqueKeys(s) && Lookup(s, item.productId).None?
    ensures Keys(Added(s, item, now)) == Keys(s) + [item.productId]
    ensures UniqueKeys(Added(s, item, now))
    ensures var r := Added(s, item, now);
      && r[|r| - 1] == Item(item.productId, item.productName, item.price,
                            QuantityOrOne(item.quantity), item.image, now)
      && Lookup(r, item.productId) == Some(r[|r| - 1])
    ensures forall other :: other != item.productId ==> Lookup(Added(s, item, now), other) == Lookup(s, other)
  {
    var r := Added(s, item, now);
    assert r == s + [NewRecord(item, now)];
    LookupFindsEntry(r, |s|);
    forall other | other != item.productId
      ensures Lookup(r, other) == Lookup(s, other)
    {
      match Lookup(s, other)
      case None =>
      case Some(e) =>
        var k :| 0 <= k < |s| && s[k] == e;
        LookupFindsEntry(s, k);
        LookupFindsEntry(r, k);
    }
  }

  /** Whatever the cart held, `addItem` keeps at most one record per key and
      leaves one under the product's key, holding the previous quantity (0 when
      there was none) plus `item.quantity || 1`. */
  lemma AddedKeepsKeysUnique(s: seq<Item>, item: NewItem, now: Timestamp)
    requires UniqueKeys(s)
    ensures UniqueKeys(Added(s, item, now))
    ensures Lookup(Added(s, item, now), item.productId).Some?
    ensures Lookup(Added(s, item, now), item.productId).value.quantity ==
      (match Lookup(s, item.productId)
       case None => 0
       case Some(e) => e.quantity) + QuantityOrOne(item.quantity)
  {
    if Lookup(s, item.productId).Some? {
      AddedExisting(s, item, now);
    } else {
      AddedFresh(s, item, now);
    }
  }

  /** Adding the same product twice with quantities `q1` and `q2` (neither
      zero) to a cart without it yields one record with quantity `q1 + q2`,
      created at the first add, and keeps keys unique. */
  lemma AddTwice(s: seq<Item>, item: NewItem, q1: int, q2: int, t1: Timestamp, t2: Timestamp)
    requires UniqueKeys(s) && Lookup(s, item.productId).None? && q1 != 0 && q2 != 0
    ensures var once := Added(s, item.(quantity := Some(q1)), t1);
      var twice := Added(once, item.(quantity := Some(q2)), t2);
      && UniqueKeys(twice)
      && Lookup(twice, item.productId).Some?
      && Lookup(twice, item.productId).value.quantity == q1 + q2
      && Lookup(twice, item.productId).value.createdAt == t1
      && |twice| == |s| + 1
  {
    var once := Added(s, item.(quantity := Some(q1)), t1);
    AddedFresh(s, item.(quantity := Some(q1)), t1);
    AddedExisting(once, item.(quantity := Some(q2)), t2);
    assert |Keys(Added(once, item.(quantity := Some(q2)), t2))| == |Keys(once)| == |Keys(s)| + 1;
  }

  /** `Added` positionally: an in-place raise of the first matching record, or
      an append. */
  lemma AddedAt(s: seq<Item>, item: NewItem, now: Timestamp)
    ensures IndexOf(s, item.productId).None? ==> Added(s, item, now) == s + [NewRecord(item, now)]
    ensures IndexOf(s, item.productId).Some? ==>
      var i := IndexOf(s, item.productId).value;
      Added(s, item, now) == s[i := s[i].(quantity := s[i].quantity + QuantityOrOne(item.quantity))]
  {
    WithQuantityAt(s, item.productId, if IndexOf(s, item.productId).Some?
      then s[IndexOf(s, item.productId).value].quantity + QuantityOrOne(item.quantity) else 0);
  }

  // ----- updateQuantity -----

  /** A quantity of zero or less deletes the product, if present, and nothing
      else; afterwards `getItem` reports it absent. */
  lemma QuantityUpdatedNonPositive(s: seq<Item>, productId: string, quantity: int)
    requires UniqueKeys(s) && quantity <= 0
    ensures UniqueKeys(QuantityUpdated(s, productId, quantity))
    ensures Lookup(QuantityUpdated(s, productId, quantity), productId) == None
    ensures forall other :: other != productId ==>
      Lookup(QuantityUpdated(s, productId, quantity), other) == Lookup(s, other)
    ensures Lookup(s, productId).None? ==> QuantityUpdated(s, productId, quantity) == s
  {
    WithoutEffect(s, productId);
  }

  /** A positive quantity overwrites the quantity of a present product, keeps
      every key in place, and never inserts an absent one. */
  lemma QuantityUpdatedPositive(s: seq<Item>, productId: string, quantity: int)
    requires UniqueKeys(s) && quantity > 0
    ensures Keys(QuantityUpdated(s, productId, quantity)) == Keys(s)
    ensures UniqueKeys(QuantityUpdated(s, productId, quantity))
    ensures Lookup(s, productId).None? ==> QuantityUpdated(s, productId, quantity) == s
    ensures Lookup(s, productId).Some? ==>
      Lookup(QuantityUpdated(s, productId, quantity), productId)
        == Some(Lookup(s, productId).value.(quantity := quantity))
    ensures forall other :: other != productId ==>
      Lookup(QuantityUpdated(s, productId, quantity), other) == Lookup(s, other)
  {
    WithQuantityEffect(s, productId, quantity);
    WithQuantityAt(s, productId, quantity);
  }

  // ----- the store -----

  /** The process-wide cart: `entries` lists the Map's values in insertion
      order. */
  class Cart {
    var entries: seq<Item>

    /** At most one record per `productId`. */
    ghost predicate Valid()
      reads this
    {
      UniqueKeys(entries)
    }

    /** `new Map()`. */
    constructor ()
      ensures Valid() && entries == []
    {
      entries := [];
    }

    /** `getAllItems`: the records in insertion order. */
    method GetAllItems() returns (items: seq<Item>)
      ensures items == entries
    {
      items := entries;
    }

    /** `getItem`: the record stored under `productId`, or nothing. */
    method GetItem(productId: string) returns (r: Option<Item>)
      ensures r.Some? <==> productId in Keys(entries)
      ensures r.Some? ==> r.value in entries && r.value.productId == productId
    {
      r := Lookup(entries, productId);
    }

    /** `addItem`: raise the quantity of a present product or append a new
        record; returns the record now stored under the product's key. */
    method AddItem(item: NewItem, now: Timestamp) returns (r: Item)
      requires Valid()
      modifies this
      ensures Valid()
      ensures entries == Added(old(entries), item, now)
      ensures Lookup(entries, item.productId) == Some(r)
    {
      ghost var before := entries;
      AddedAt(before, item, now);
      AddedKeepsKeysUnique(before, item, now);
      var found := IndexOf(entries, item.productId);
      if found.Some? {
        var i := found.value;
        r := entries[i].(quantity := entries[i].quantity + QuantityOrOne(item.quantity));
        entries := entries[i := r];
        LookupFindsEntry(entries, i);
      } else {
        r := NewRecord(item, now);
        entries := entries + [r];
        LookupFindsEntry(entries, |before|);
      }
    }

    /** `updateQuantity`: a quantity of zero or less deletes the product and
        returns nothing; otherwise a present product gets exactly that
        quantity and is returned, and an absent one is left absent. */
    method UpdateQuantity(productId: string, quantity: int) returns (r: Option<Item>)
      requires Valid()
      modifies this
      ensures Valid()
      ensures entries == QuantityUpdated(old(entries), productId, quantity)
      ensures quantity <= 0 ==> r == None
      ensures quantity > 0 ==> r == Lookup(entries, productId)
    {
      if quantity <= 0 {
        var _ := RemoveItem(productId);
        return None;
      }
      ghost var before := entries;
      var found := IndexOf(entries, productId);
      if found.Some? {
        var item := entries[found.value].(quantity := quantity);
        entries := entries[found.value := item];
        r := Some(item);
      } else {
        r := None;
      }
      WithQuantityAt(before, productId, quantity);
      QuantityUpdatedPositive(before, productId, quantity);
      if r.Some? {
        LookupFindsEntry(entries, found.value);
      }
    }

    /** `removeItem`: delete the product; true exactly when it was present. */
    method RemoveItem(productId: string) returns (removed: bool)
      requires Valid()
      modifies this
      ensures Valid()
      ensures entries == Without(old(entries), productId)
      ensures removed <==> productId in Keys(old(entries))
    {
      ghost var before := entries;
      var found := IndexOf(entries, productId);
      if found.Some? {
        entries := entries[..found.value] + entries[found.value + 1..];
      }
      removed := found.Some?;
      WithoutAt(before, productId);
      WithoutEffect(before, productId);
    }

    /** `clear`: empty the cart. */
    method Clear()
      modifies this
      ensures Valid() && entries == []
    {
      entries := [];
    }
  }

  /** Two concrete runs of the in-memory store: adding a product twice sums
      the quantities, and updating it to zero removes it. */
  method PanelScenario()
  {
    var cart := new Cart();
    var panel := NewItem("p1", "Panel", 10000, Some(2), None);
    var r := cart.AddItem(panel, 1);
    assert cart.entries == [Item("p1", "Panel", 10000, 2, None, 1)];
    assert Total(cart.entries) == 20000;
    r := cart.AddItem(panel.(quantity := Some(3)), 2);
    assert cart.entries == [Item("p1", "Panel", 10000, 5, None, 1)];
    assert Total(cart.entries) == 50000;
    var u := cart.UpdateQuantity("p1", 0);
    assert cart.entries == [];
    var item := cart.GetItem("p1");
    assert item == None;
  }
}
