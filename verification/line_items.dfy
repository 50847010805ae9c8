/** Cart line items and the keyed, ordered entry lists both cart backends keep.

    A JavaScript `Map` keyed by `productId` (and, likewise, the `carts` document
    collection) is modelled as a sequence of records in insertion order; the key
    of every record is its own `productId`.
 */
module LineItems {
  import opened Optional

  /** A clock reading. The source stores `new Date()`; the model keeps it opaque. */
  type Timestamp = nat

  /** One cart line item. `price` is an amount in cents. */
  datatype Item = Item(
    productId: string,
    productName: string,
    price: int,
    quantity: int,
    image: Option<string>,
    createdAt: Timestamp)

  /** The keys in entry order. */
  function Keys(s: seq<Item>): seq<string>
  {
    seq(|s|, i requires 0 <= i < |s| => s[i].productId)
  }

  /** At most one record per `productId`. */
  predicate UniqueKeys(s: seq<Item>)
  {
    forall i, j :: 0 <= i < j < |s| ==> s[i].productId != s[j].productId
  }

  /** The position of the first record stored under `id`. */
  function IndexOf(s: seq<Item>, id: string): (r: Option<nat>)
    ensures r.Some? ==> r.value < |s| && s[r.value].productId == id
    ensures r.Some? ==> forall j :: 0 <= j < r.value ==> s[j].productId != id
    ensures r.None? ==> forall j :: 0 <= j < |s| ==> s[j].productId != id
  {
    if s == [] then None
    else if s[0].productId == id then Some(0)
    else match IndexOf(s[1..], id)
      case None => None
      case Some(k) => Some(k + 1)
  }

  /** `Map.prototype.get`: the record stored under `id`, if any. */
  function Lookup(s: seq<Item>, id: string): (r: Option<Item>)
    ensures r.Some? ==> r.value in s && r.value.productId == id
    ensures r.None? <==> forall j :: 0 <= j < |s| ==> s[j].productId != id
    ensures r.Some? <==> id in Keys(s)
  {
    assert forall j :: 0 <= j < |s| ==> Keys(s)[j] == s[j].productId;
    match IndexOf(s, id)
    case Some(i) => Some(s[i])
    case None => None
  }

  /** Overwrites the quantity of the first record stored under `id`; no change
      when there is none (neither `Map.set` on an existing key nor `updateOne`
      without upsert ever inserts). */
  function WithQuantity(s: seq<Item>, id: string, q: int): (r: seq<Item>)
    ensures |r| == |s|
  {
    if s == [] then []
    else if s[0].productId == id then [s[0].(quantity := q)] + s[1..]
    else [s[0]] + WithQuantity(s[1..], id, q)
  }

  /** Deletes the first record stored under `id`; no change when there is none. */
  function Without(s: seq<Item>, id: string): (r: seq<Item>)
    ensures |r| == if IndexOf(s, id).Some? then |s| - 1 else |s|
  {
    if s == [] then []
    else if s[0].productId == id then s[1..]
    else [s[0]] + Without(s[1..], id)
  }

  /** One line of the cart total. */
  function LineTotal(it: Item): int
  {
    it.price * it.quantity
  }

  /** `items.reduce((sum, item) => sum + item.price * item.quantity, 0)`: a fold
      from the left. */
  function Total(s: seq<Item>): int
  {
    if s == [] then 0 else Total(s[..|s| - 1]) + LineTotal(s[|s| - 1])
  }

  /** The sum of the line totals, taken from the right: an independent
      reference for `Total`. */
  function SumOfLines(s: seq<Item>): int
  {
    if s == [] then 0 else LineTotal(s[0]) + SumOfLines(s[1..])
  }

  // ----- Lookup -----

  /** Under unique keys, looking up the key of any record finds that record. */
  lemma LookupFindsEntry(s: seq<Item>, i: nat)
    requires UniqueKeys(s) && i < |s|
    ensures Lookup(s, s[i].productId) == Some(s[i])
  {
  }

  /** Two lists with the same keys in the same order answer every lookup at
      the same position. */
  lemma {:induction false} IndexOfSameKeys(s: seq<Item>, t: seq<Item>, id: string)
    requires Keys(s) == Keys(t)
    ensures IndexOf(s, id) == IndexOf(t, id)
  {
    assert |s| == |Keys(s)| == |Keys(t)| == |t|;
    if s != [] {
      assert s[0].productId == Keys(s)[0] == Keys(t)[0] == t[0].productId;
      assert Keys(s[1..]) == Keys(s)[1..] == Keys(t)[1..] == Keys(t[1..]);
      IndexOfSameKeys(s[1..], t[1..], id);
    }
  }

  // ----- WithQuantity -----

  /** `WithQuantity` is an in-place update of the first matching record. */
  lemma {:induction false} WithQuantityAt(s: seq<Item>, id: string, q: int)
    ensures IndexOf(s, id).None? ==> WithQuantity(s, id, q) == s
    ensures IndexOf(s, id).Some? ==>
      var i := IndexOf(s, id).value;
      WithQuantity(s, id, q) == s[i := s[i].(quantity := q)]
  {
    if s != [] && s[0].productId != id {
      var rest := s[1..];
      WithQuantityAt(rest, id, q);
      assert s == [s[0]] + rest;
      match IndexOf(rest, id)
      case None =>
      case Some(k) =>
        assert [s[0]] + rest[k := rest[k].(quantity := q)] == s[k + 1 := s[k + 1].(quantity := q)];
    }
  }

  /** `WithQuantity` keeps every key where it was, so every lookup lands on
      the same position as before. */
  lemma WithQuantitySameIndex(s: seq<Item>, id: string, q: int, k: string)
    ensures Keys(WithQuantity(s, id, q)) == Keys(s)
    ensures IndexOf(WithQuantity(s, id, q), k) == IndexOf(s, k)
  {
    WithQuantityAt(s, id, q);
    var t := WithQuantity(s, id, q);
    assert forall j :: 0 <= j < |s| ==> t[j].productId == s[j].productId;
    assert Keys(t) == Keys(s);
    IndexOfSameKeys(s, t, k);
  }

  /** `WithQuantity` changes the quantity of the record under `id` and nothing
      else: keys and their order, all other fields and all other records stay. */
  lemma WithQuantityEffect(s: seq<Item>, id: string, q: int)
    ensures Keys(WithQuantity(s, id, q)) == Keys(s)
    ensures UniqueKeys(s) ==> UniqueKeys(WithQuantity(s, id, q))
    ensures Lookup(WithQuantity(s, id, q), id) ==
      match Lookup(s, id)
      case None => None
      case Some(e) => Some(e.(quantity := q))
    ensures forall other :: other != id ==> Lookup(WithQuantity(s, id, q), other) == Lookup(s, other)
  {
    WithQuantityAt(s, id, q);
    var t := WithQuantity(s, id, q);
    WithQuantitySameIndex(s, id, q, id);
    assert forall j :: 0 <= j < |s| ==> t[j].productId == s[j].productId;
    forall other | other != id
      ensures Lookup(t, other) == Lookup(s, other)
    {
      WithQuantitySameIndex(s, id, q, other);
    }
  }

  // ----- Without -----

  /** `Without` cuts the first matching record out of the list. */
  lemma {:induction false} WithoutAt(s: seq<Item>, id: string)
    ensures IndexOf(s, id).None? ==> Without(s, id) == s
    ensures IndexOf(s, id).Some? ==>
      var i := IndexOf(s, id).value;
      Without(s, id) == s[..i] + s[i + 1..]
  {
    if s != [] && s[0].productId != id {
      var rest := s[1..];
      WithoutAt(rest, id);
      assert s == [s[0]] + rest;
      match IndexOf(rest, id)
      case None =>
      case Some(k) =>
        assert IndexOf(s, id) == Some(k + 1);
        assert Without(s, id) == [s[0]] + Without(rest, id);
        ConsCut(s[0], rest, k);
    }
  }

  /** Cutting element `k` out of a tail, then putting the head back, cuts
      element `k + 1` out of the whole. */
  lemma ConsCut<T>(x: T, rest: seq<T>, k: nat)
    requires k < |rest|
    ensures [x] + (rest[..k] + rest[k + 1..]) == ([x] + rest)[..k + 1] + ([x] + rest)[k + 2..]
  {
    var s := [x] + rest;
    assert s[..k + 1] == [x] + rest[..k];
    assert s[k + 2..] == rest[k + 1..];
  }

  /** Cutting record `i` out of a list with unique keys keeps the keys unique
      and leaves no record under the cut key. */
  lemma CutKeepsKeysUnique(s: seq<Item>, i: nat)
    requires UniqueKeys(s) && i < |s|
    ensures UniqueKeys(s[..i] + s[i + 1..])
    ensures Lookup(s[..i] + s[i + 1..], s[i].productId) == None
  {
    var t := s[..i] + s[i + 1..];
    assert forall j :: 0 <= j < |t| ==> t[j] == if j < i then s[j] else s[j + 1];
  }

  /** Cutting record `i` out of a list with unique keys keeps every other
      lookup. */
  lemma CutKeepsOtherLookups(s: seq<Item>, i: nat, other: string)
    requires UniqueKeys(s) && i < |s| && other != s[i].productId
    ensures Lookup(s[..i] + s[i + 1..], other) == Lookup(s, other)
  {
    var t := s[..i] + s[i + 1..];
    match Lookup(s, other)
    case None =>
    case Some(e) =>
      var k :| 0 <= k < |s| && s[k] == e;
      LookupFindsEntry(s, k);
      var k' := if k < i then k else k - 1;
      assert t[k'] == s[k];
      CutKeepsKeysUnique(s, i);
      LookupFindsEntry(t, k');
  }

  /** Deleting `id` from a list with unique keys leaves `id` absent, every
      other record in place and in order, and the keys unique. */
  lemma WithoutEffect(s: seq<Item>, id: string)
    requires UniqueKeys(s)
    ensures UniqueKeys(Without(s, id))
    ensures Lookup(Without(s, id), id) == None
    ensures forall other :: other != id ==> Lookup(Without(s, id), other) == Lookup(s, other)
    ensures Lookup(s, id).None? ==> Without(s, id) == s
    ensures Lookup(s, id).Some? ==>
      exists i :: 0 <= i < |s| && s[i].productId == id && Without(s, id) == s[..i] + s[i + 1..]
  {
    WithoutAt(s, id);
    if IndexOf(s, id).Some? {
      var i := IndexOf(s, id).value;
      CutKeepsKeysUnique(s, i);
      forall other | other != id
        ensures Lookup(Without(s, id), other) == Lookup(s, other)
      {
        CutKeepsOtherLookups(s, i, other);
      }
    }
  }

  /** Deleting twice is deleting once. */
  lemma WithoutIdempotent(s: seq<Item>, id: string)
    requires UniqueKeys(s)
    ensures Without(Without(s, id), id) == Without(s, id)
  {
    WithoutEffect(s, id);
    WithoutAt(Without(s, id), id);
  }

  // ----- Total -----

  /** The total of a concatenation is the sum of the totals. */
  lemma {:induction false} TotalAppend(a: seq<Item>, b: seq<Item>)
    ensures Total(a + b) == Total(a) + Total(b)
  {
    if b == [] {
      assert a + b == a;
    } else {
      assert (a + b)[..|a + b| - 1] == a + b[..|b| - 1];
      TotalAppend(a, b[..|b| - 1]);
    }
  }

  /** Summing from the left (as `reduce` does) and from the right agree. */
  lemma {:induction false} TotalIsSumOfLines(s: seq<Item>)
    ensures Total(s) == SumOfLines(s)
  {
    if s != [] {
      TotalIsSumOfLines(s[1..]);
      TotalAppend([s[0]], s[1..]);
      assert [s[0]] + s[1..] == s;
      assert Total([s[0]]) == LineTotal(s[0]) by {
        assert [s[0]][..0] == [];
      }
    }
  }

  /** The total of a single record is its line. */
  lemma TotalOne(x: Item)
    ensures Total([x]) == LineTotal(x)
  {
    assert [x][..0] == [];
  }

  /** Replacing one record changes the total by the difference of its lines. */
  lemma TotalReplace(s: seq<Item>, i: nat, x: Item)
    requires i < |s|
    ensures Total(s[i := x]) == Total(s) - LineTotal(s[i]) + LineTotal(x)
  {
    var front, mid, back := s[..i], s[..i + 1], s[i + 1..];
    assert mid == front + [s[i]];
    assert s == mid + back;
    assert s[i := x] == (front + [x]) + back;
    TotalAppend(front + [s[i]], back);
    TotalAppend(front, [s[i]]);
    TotalAppend(front + [x], back);
    TotalAppend(front, [x]);
    TotalOne(s[i]);
    TotalOne(x);
  }

  /** Raising the quantity of record `i` by `d` raises the total by its price
      times `d`. */
  lemma TotalRaise(s: seq<Item>, i: nat, d: int)
    requires i < |s|
    ensures Total(s[i := s[i].(quantity := s[i].quantity + d)]) == Total(s) + s[i].price * d
  {
    TotalReplace(s, i, s[i].(quantity := s[i].quantity + d));
    LineRaise(s[i], d);
  }

  /** Raising a line's quantity by `d` raises the line by price times `d`. */
  lemma LineRaise(e: Item, d: int)
    ensures LineTotal(e.(quantity := e.quantity + d)) == LineTotal(e) + e.price * d
  {
  }

  /** Cutting one record out lowers the total by its line. */
  lemma TotalCut(s: seq<Item>, i: nat)
    requires i < |s|
    ensures Total(s[..i] + s[i + 1..]) == Total(s) - LineTotal(s[i])
  {
    var front, mid, back := s[..i], s[..i + 1], s[i + 1..];
    assert mid == front + [s[i]];
    assert s == mid + back;
    TotalAppend(mid, back);
    TotalAppend(front, [s[i]]);
    TotalAppend(front, back);
    TotalOne(s[i]);
  }
}
