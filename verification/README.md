# Cart store, cart API and contact-form checks

A Dafny model of the core of a small e-commerce demo:

- **The in-memory cart store** (`backend/models/cartStore.js`): a
  process-wide `Map` from `productId` to a cart line item, with `getAllItems`,
  `getItem`, `addItem`, `updateQuantity`, `removeItem` and `clear`. It is
  modelled as the class `CartStore.Cart`. Its field `entries` lists the Map's
  values in insertion order. `Valid()` keeps at most one record per
  `productId`. Each method is proved against a pure function of the old
  entries (`Added`, `QuantityUpdated`, `Without`). Lemmas state what those
  functions promise: which record changes, what stays, where a new key goes,
  and that keys stay unique.
- **The cart API** (`backend/routes/cart.js`): the GET `/` listing with its
  `total`, POST `/add`, PUT `/update` and DELETE `/remove/:productId`. The
  class `CartRoutes.CartService` holds the in-memory store and, in
  `database`, what `getDB()` returns: either a `CartsCollection.Collection`
  standing for the `carts` document collection, or `null`. Each handler uses
  the document store when there is one and the in-memory store otherwise. The
  handlers are proved against per-request functions (`MemoryStep`,
  `DatabaseStep`, `Reply`). A replay lemma compares the two backends over any
  run of requests.
- **The contact form** (`frontend/js/contact.js`): `validateEmail` and
  `validateMobile` as predicates over strings. `trim` is modelled too, along
  with the decision the submit handler and the blur handlers take for each
  field.

Modelling choices:

- Prices are integer amounts in cents, so `total` is exact.
- Quantities are integers. An optional request field is an `Option`, where
  `None` means the field is absent.
- `createdAt` is a clock reading passed in as `now` and never inspected.

Two properties one might expect of this code do not hold, and the model
follows the code:

- One might expect any run of add/update/remove requests to give the same
  listing on both backends. It does not. The route defaults `quantity` to 1
  only when the field is absent. The in-memory store then applies
  `item.quantity || 1`, so an explicit `quantity: 0` adds 1 in memory. The
  document-store branch adds 0 for the same request, or inserts a record of
  quantity 0. `BackendsDivergeOnZeroQuantity` proves the difference for every
  cart. `BackendsAgree` proves that every run without such a request leaves
  both backends with the same records in the same order, and so the same
  total. "The same records" covers the fields an `Item` holds. Documents also
  carry fields that `Item` omits (see "Left out").
- One might expect a stored quantity to be at least 1. The code stores a
  negative quantity sent to `/add` as it is (`NegativeQuantityIsStored`).

The in-memory store starts empty and keeps one record per key
(`CartStore.Cart.Valid`). The document store is persisted, and the database
enforces nothing, so `CartService` takes the collection as it finds it.
Its handlers are specified for any collection, duplicates included.
`StepKeepsKeysUnique` and `BackendsAgree` show that a collection that starts
with one document per key keeps that property.

## Model

| member | source | states |
|---|---|---|
| `LineItems.Lookup` | backend/models/cartStore.js:9-11 | `Map.get`: a found record is in the cart under that key; nothing is found exactly when no record has that key |
| `LineItems.WithQuantity` | backend/models/cartStore.js:41-45 | overwriting the quantity under a key keeps the number of records |
| `LineItems.WithQuantityAt` | backend/models/cartStore.js:41-45 | the overwrite is in place: exactly the first record under the key gets the new quantity, and with no such record nothing changes |
| `LineItems.Without` | backend/models/cartStore.js:51-53 | deleting a key removes one record when the key is present and none otherwise |
| `LineItems.WithoutAt` | backend/models/cartStore.js:51-53 | the deletion cuts exactly the first record under the key out of the list, keeping the rest in order |
| `LineItems.Total` | backend/routes/cart.js:19 | `items.reduce((sum, item) => sum + item.price * item.quantity, 0)` as a fold from the left; its meaning is stated by `TotalAppend` and `TotalIsSumOfLines` |
| `LineItems.WithQuantityEffect` | backend/models/cartStore.js:41-45 | overwriting a stored record's quantity keeps every key and its position, keeps keys unique, changes only that record's quantity, and never inserts |
| `LineItems.WithoutEffect` | backend/models/cartStore.js:51-53 | `Map.delete` on unique keys: the key is absent afterwards, every other lookup is unchanged, the rest keep their order, nothing changes when the key was absent |
| `LineItems.WithoutIdempotent` | backend/models/cartStore.js:51-53 | deleting a key a second time changes nothing |
| `LineItems.TotalAppend` | backend/routes/cart.js:19 | the total of two concatenated lists is the sum of their totals |
| `LineItems.TotalIsSumOfLines` | backend/routes/cart.js:19 | the left fold computed by `reduce` equals the sum of price × quantity taken from the other end |
| `CartStore.QuantityOrOne` | backend/models/cartStore.js:18 | `item.quantity \|\| 1` is never 0: it is the given quantity whenever that is defined and non-zero, and exactly 1 when the quantity is undefined or 0 |
| `CartStore.Added` | backend/models/cartStore.js:13-33 | after `addItem` the cart holds as many records as before when the key was present, and one more otherwise |
| `CartStore.QuantityUpdated` | backend/models/cartStore.js:35-49 | `updateQuantity` with a positive quantity keeps the number of records; with 0 or less it removes one record when the key was present |
| `CartStore.AddedExisting` | backend/models/cartStore.js:14-19 | adding a present product raises its quantity by `item.quantity \|\| 1`; name, price, image, createdAt, position and all other entries are unchanged |
| `CartStore.AddedFresh` | backend/models/cartStore.js:20-30 | adding an absent product appends one record as the last entry, with quantity `item.quantity \|\| 1` and createdAt `now`; other entries are unchanged |
| `CartStore.AddedKeepsKeysUnique` | backend/models/cartStore.js:13-33 | after any add, at most one record per key, and the product's record holds the previous quantity (0 if none) plus `item.quantity \|\| 1` |
| `CartStore.AddTwice` | backend/models/cartStore.js:13-33 | adding a product twice with non-zero quantities q1 and q2 gives one record with quantity q1 + q2 and the first createdAt, keys staying unique |
| `CartStore.QuantityUpdatedNonPositive` | backend/models/cartStore.js:36-39 | a quantity ≤ 0 leaves the product absent and every other entry as it was |
| `CartStore.QuantityUpdatedPositive` | backend/models/cartStore.js:41-48 | a quantity > 0 sets exactly that quantity on a present product, keeps positions, and leaves an absent product absent |
| `CartStore.Cart.constructor` | backend/models/cartStore.js:3 | the store starts empty |
| `CartStore.Cart.GetAllItems` | backend/models/cartStore.js:5-7 | returns the records in insertion order |
| `CartStore.Cart.GetItem` | backend/models/cartStore.js:9-11 | returns a record exactly when the key is stored, and that record carries the key |
| `CartStore.Cart.AddItem` | backend/models/cartStore.js:13-33 | the new entries are `Added(old entries)`, keys stay unique, and the result is the record now stored under the key |
| `CartStore.Cart.UpdateQuantity` | backend/models/cartStore.js:35-49 | the new entries are `QuantityUpdated(old entries)`; returns nothing for quantity ≤ 0, otherwise the updated record, or nothing if the product was absent |
| `CartStore.Cart.RemoveItem` | backend/models/cartStore.js:51-53 | deletes the key and returns true exactly when it was present |
| `CartStore.Cart.Clear` | backend/models/cartStore.js:55-57 | the store is empty afterwards |
| `CartsCollection.Collection.Find` | backend/routes/cart.js:13 | returns every document |
| `CartsCollection.Collection.FindOne` | backend/routes/cart.js:38 | returns the first document with the key, if there is one |
| `CartsCollection.Collection.InsertOne` | backend/routes/cart.js:48-55 | appends the document whether or not the key is already used |
| `CartsCollection.Collection.SetQuantity` | backend/routes/cart.js:42-45 | sets the quantity of the first matching document; no match, no change |
| `CartsCollection.Collection.DeleteOne` | backend/routes/cart.js:88 | removes the first matching document |
| `CartRoutes.ValidateAdd` | backend/routes/cart.js:30-34 | an add request passes exactly when `productId`, `productName` and `price` are truthy; it then carries those fields and `image` unchanged, and `quantity` defaults to 1 only when absent, so 0 and negative values pass through |
| `CartRoutes.ValidateUpdate` | backend/routes/cart.js:78-82 | an update passes exactly when `productId` is truthy and `quantity` is defined, and then carries both unchanged |
| `CartRoutes.DatabaseAdded` | backend/routes/cart.js:38-56 | the document-store add keeps the number of documents when the product was present and adds one otherwise |
| `CartRoutes.AddToDatabase` | backend/routes/cart.js:36-56 | `findOne` followed by `updateOne` with the summed quantity, or by `insertOne`, leaves the collection as `DatabaseAdded` describes |
| `CartRoutes.RejectedRequestChangesNothing` | backend/routes/cart.js:32-34 | an add or update rejected with 400 leaves both stores as they were |
| `CartRoutes.DatabaseAddedKeepsKeysUnique` | backend/routes/cart.js:38-56 | on a collection with one document per product, the document-store add keeps it so, although the store does not enforce it, and the product then holds the previous quantity plus the incoming one |
| `CartRoutes.StepKeepsKeysUnique` | backend/routes/cart.js:27-125 | every add, update and remove request keeps keys unique in both backends |
| `CartRoutes.BackendsAgreeOnStep` | backend/routes/cart.js:30-65 | unless a valid add carries an explicit quantity of 0, one request changes both backends the same way |
| `CartRoutes.BackendsDivergeOnZeroQuantity` | backend/routes/cart.js:30-65 | a valid add with quantity 0 leaves the in-memory quantity one higher than the document-store quantity; for a new product the document store keeps quantity 0 |
| `CartRoutes.BackendsAgree` | backend/routes/cart.js:36-118 | any run of requests without such an add leaves both backends with the same records (in the fields an `Item` holds) in the same order, and keys stay unique |
| `CartRoutes.NegativeQuantityIsStored` | backend/routes/cart.js:30-34 | a negative quantity passes validation and is stored, so a record can hold a quantity below 1 |
| `CartRoutes.TotalAfterRaise` | backend/routes/cart.js:19 | raising a product's quantity by d raises the total by its price × d |
| `CartRoutes.TotalAfterAdd` | backend/routes/cart.js:19 | after an in-memory add the total grows by the stored price × `item.quantity \|\| 1` |
| `CartRoutes.TotalAfterUpdate` | backend/routes/cart.js:19 | after `updateQuantity` the total loses the product's old line and, for a positive quantity, gains price × the new quantity |
| `CartRoutes.CartService.constructor` | backend/routes/cart.js:8-17 | the service keeps the handle `getDB()` gave, whatever the collection holds, and an empty in-memory store |
| `CartRoutes.CartService.GetCart` | backend/routes/cart.js:6-25 | lists the active store's items with `total` = Σ price × quantity over them, which is 0 for an empty cart |
| `CartRoutes.CartService.Add` | backend/routes/cart.js:27-73 | 400 exactly when `productId`, `productName` or `price` is falsy, with no store touched; otherwise the active store adds the item, with `quantity` 1 when absent, and the inactive one is unchanged |
| `CartRoutes.CartService.Update` | backend/routes/cart.js:75-105 | 400 exactly when `productId` is falsy or `quantity` undefined, so 0 is accepted; otherwise quantity ≤ 0 removes the first record under the product and > 0 sets that record's quantity, in the active store only; with one record per product (always so in memory, and kept so in the document store by `StepKeepsKeysUnique`) the product is absent after a removal |
| `CartRoutes.CartService.Remove` | backend/routes/cart.js:107-125 | always replies success; removes the first record under the product from the active store and leaves the inactive store unchanged; with one record per product (always so in memory, and kept so in the document store by `StepKeepsKeysUnique`) the product is absent afterwards |
| `ContactForm.ValidateEmail` | frontend/js/contact.js:25-28 | `/^[^\s@]+@[^\s@]+\.[^\s@]+$/` as a predicate: an accepted address has at least five characters and neither starts nor ends with whitespace or `@` (the exact shape is `EmailValidIffShape`) |
| `ContactForm.EmailValidHasShape` | frontend/js/contact.js:25-28 | an accepted e-mail has no whitespace, exactly one `@` with something before it, and a `.` strictly inside the part after it |
| `ContactForm.EmailShapeIsValid` | frontend/js/contact.js:25-28 | every string of that shape is accepted |
| `ContactForm.EmailValidIffShape` | frontend/js/contact.js:25-28 | `validateEmail` holds exactly for strings of that shape |
| `ContactForm.EmailRejects` | frontend/js/contact.js:26 | a string with no `@`, two or more `@`, or any whitespace is rejected |
| `ContactForm.Digits` | frontend/js/contact.js:32 | `replace(/\D/g, '')` keeps only digits and is never longer than its input |
| `ContactForm.ValidateMobile` | frontend/js/contact.js:30-33 | only digits, whitespace, `-`, `+`, `(` and `)`, at least one character, and at least ten digits after `replace(/\D/g, '')`: an accepted number has at least ten characters |
| `ContactForm.DigitsKeepsEveryDigit` | frontend/js/contact.js:32 | `replace(/\D/g, '')` keeps every digit as often as it occurs, so the length compared with 10 is the number of digits |
| `ContactForm.FormattingIsIgnored` | frontend/js/contact.js:30-33 | inserting or deleting a space, `-`, `+`, `(` or `)` anywhere changes neither the digits nor the verdict |
| `ContactForm.MobileDigitBound` | frontend/js/contact.js:32 | fewer than ten digits is always rejected; ten or more digits and nothing else is accepted |
| `ContactForm.Trim` | frontend/js/contact.js:92-93 | the trimmed string is a slice of the input with only whitespace before and after it; it is empty exactly when the input is all whitespace, and otherwise starts and ends with a non-whitespace character |
| `ContactForm.TrimIdempotent` | frontend/js/contact.js:92-93 | trimming twice is trimming once |
| `ContactForm.CheckEmail` | frontend/js/contact.js:97-105 | "required" exactly when the input is all whitespace; cleared exactly when the trimmed input is a valid e-mail; otherwise "invalid" |
| `ContactForm.CheckMobile` | frontend/js/contact.js:107-115 | "required" exactly when the input is all whitespace; cleared exactly when the trimmed input is a valid number; otherwise "invalid" |
| `ContactForm.Submit` | frontend/js/contact.js:92-124 | both fields are checked independently of each other; `hasErrors` is false exactly when both trimmed fields are non-empty and valid |
| `ContactForm.BlurEmail` | frontend/js/contact.js:67-72 | an error shows on blur exactly for a non-empty invalid e-mail, with the message a submit would show |
| `ContactForm.BlurMobile` | frontend/js/contact.js:80-85 | an error shows on blur exactly for a non-empty invalid number, with the message a submit would show |

## Left out

- Store faults and the 500 replies: database I/O failure is not modelled, and every handler ends in its success or 400 reply.
- The MongoDB driver, the connection attempt and the index creation. backend/config/db.js is not part of this model beyond `getDB()`. The service keeps one fixed handle. `connectDB()` is not awaited, so `getDB()` can change from `null` to a handle shortly after start-up; the model does not capture that.
- The read-then-write race in the document-store add, and concurrent requests in general: each request runs to completion before the next.
- The order of `find({})`: documents are listed in insertion order, which the document store does not guarantee.
- Fields a document has and an `Item` does not: `insertOne` gives every document an `_id`, which `find({})` returns, and the driver stores an absent `image` as `null`. `BackendsAgree` compares only the fields an `Item` holds, so the two backends' JSON listings still differ in these fields.
- Records are values. `addItem`, `getItem` and `updateQuantity` hand out the stored object itself in the source, and a caller could change it through that alias; the model returns a copy.
- `parseFloat(price)`, `NaN` and floating-point arithmetic: a price is an integer number of cents, so `total` is exact where the source rounds.
- JSON values of unexpected types: `null`, strings where numbers are expected, fractional quantities. A field is either absent or of its expected type.
- JavaScript strings are UTF-16 code units; the model's strings are sequences of Unicode scalar values. Lone surrogates cannot be represented.
- Everything on the page beyond the decision: the DOM error markers, the notifications and alerts, `contactForm.reset()`, the `input` listeners that clear an error, and `clearForm`.
- The other client pages (catalog, cart page with its tax display, availability lookup) and backend/server.js: rendering, network calls and floating-point display arithmetic.
