/** The `carts` collection of the document store, reduced to the calls the cart
    routes make on it. Documents are kept in natural (insertion) order; the
    store itself does not make `productId` unique, only the routes' logic does. */
module CartsCollection {
  import opened Optional
  import opened LineItems

  class Collection {
    var docs: seq<Item>

    constructor ()
      ensures docs == []
    {
      docs := [];
    }

    /** `find({}).toArray()`: every document. */
    method Find() returns (all: seq<Item>)
      ensures all == docs
    {
      all := docs;
    }

    /** `findOne({ productId })`: the first document with that key, if any. */
    method FindOne(productId: string) returns (r: Option<Item>)
      ensures r.Some? <==> productId in Keys(docs)
      ensures r.Some? ==> r.value in docs && r.value.productId == productId
      ensures r == Lookup(docs, productId)
    {
      r := Lookup(docs, productId);
    }

    /** `insertOne(doc)`: appends, whether or not the key is already used. */
    method InsertOne(doc: Item)
      modifies this
      ensures docs == old(docs) + [doc]
    {
      docs := docs + [doc];
    }

    /** `updateOne({ productId }, { $set: { quantity } })`: sets the quantity
        of the first matching document; without upsert, no match means no
        change. */
    method SetQuantity(productId: string, quantity: int)
      modifies this
      ensures docs == WithQuantity(old(docs), productId, quantity)
    {
      WithQuantityAt(docs, productId, quantity);
      var found := IndexOf(docs, productId);
      if found.Some? {
        docs := docs[found.value := docs[found.value].(quantity := quantity)];
      }
    }

    /** `deleteOne({ productId })`: removes the first matching document. */
    method DeleteOne(productId: string)
      modifies this
      ensures docs == Without(old(docs), productId)
    {
      WithoutAt(docs, productId);
      var found := IndexOf(docs, productId);
      if found.Some? {
        docs := docs[..found.value] + docs[found.value + 1..];
      }
    }
  }
}
