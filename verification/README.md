# MiniCommerce cart and checkout reconciliation, modelled in Dafny

This project models the two pieces of the MiniCommerce storefront whose
behaviour can be stated precisely, and proves properties of them.

- **The cart** (`src/context/CartContext.tsx`). The cart is an ordered list of
  cart lines keyed by `productId`. With the React state plumbing removed,
  `addItem`, `removeItem`, `updateQuantity` and `clearCart` are pure functions
  from one list to the next. Module `Cart` (`cart.dfy`) models them, together
  with the header's item count, which is the sum of line quantities.
- **Checkout-completed order reconciliation** (`handleCheckoutCompleted` in
  `webhook-server/index.js`). This is one store transaction, modelled as a pure
  transition `Reconcile(store, session, lineItems) -> store'` over a `Store`.
  The store holds the product catalog, the global order ledger keyed by
  session id, and the per-user order histories keyed by (user id, session id).
  - Module `Checkout` (`checkout.dfy`) holds the data model, the per-line-item
    resolution and the order construction.
  - Module `Reconcile` (`reconcile.dfy`) holds the transaction and its lemmas.
  - Module `Text` (`text.dfy`) holds the JavaScript string semantics the
    handler relies on: `toUpperCase`, and the truthiness tests behind `||` and
    `if (x)`.
  - Module `Options` (`options.dfy`) holds `Option`, which stands in for
    `null`/`undefined`; its `GetOr` is the `??` operator.

Semantics the model fixes explicitly:

- **Snapshot reads.** Every product read in the line-item loop sees the catalog
  as it was when the transaction began. Stock writes are staged in a map and
  applied at commit, and a later write for the same product replaces an
  earlier one. So when two line items resolve to the same product, only the
  later one's decrement survives. Both decrements are computed from the
  original stock. The source does not guard against this case.
  `Reconcile.SameProductTwice` states it. `Reconcile.Reconcile` reads as if
  every catalog query came before the first write. As written, the handler
  interleaves queries and writes, and the store refuses that; see
  "## Findings" and `Reconcile.ReconcileAsWritten`.
- **Product lookup.** The catalog query by price id with `limit(1)` names no
  ordering, so the store returns the match first in its default order
  (ascending document id). It is modelled as `Checkout.FindProductByPriceId`,
  which leaves that choice open: it returns *some* product that carries the
  price id, or none. `Checkout.FindUnique`
  shows that the answer is determined when price ids are unique. Because this
  is a choice, the reconciliation functions are ghost.
- **Truthiness.** `||` and `if (!x)` treat both an absent value and `""` as
  false. This affects the user id, the email, and the skip for a missing price
  id. `??` falls through only on an absent value. This affects the quantity
  (default 1), the stock (default 0), the title, the currencies and the status.
- **Money.** Amounts stay in integer minor units, as the payment provider
  reports them. The model does not divide them by 100.

## Model

| member | source | states |
|---|---|---|
| Cart.Find | src/context/CartContext.tsx:49 | finds the first line for a product id; it returns none exactly when the id is absent, and no earlier line has that id |
| Cart.MergeQuantity | src/context/CartContext.tsx:51-55 | adds the new quantity to every line with the product id and leaves all other lines equal |
| Cart.AddItem | src/context/CartContext.tsx:47-59 | a new product is appended as the last line; for an existing product the length is kept, the matching line's quantity rises by the added quantity with its other fields unchanged, and every other line is unchanged |
| Cart.AddItemIds | src/context/CartContext.tsx:47-59 | after an add the product is in the cart and the id set has grown by exactly that id |
| Cart.AddItemCount | src/context/CartContext.tsx:49-57 | if ids are unique, the sum of quantities rises by exactly the added quantity, whether the product is new or merged |
| Cart.AddItemKeepsUnique | src/context/CartContext.tsx:47-59 | if product ids are unique before an add, they are unique after it |
| Cart.RemoveItem | src/context/CartContext.tsx:61-63 | a line is in the result exactly when it was in the cart with a different id, so no line with the id is left; the cart never grows |
| Cart.RemoveItemIds | src/context/CartContext.tsx:62 | after a removal the id is absent and the id set has lost exactly that id |
| Cart.RemoveItemSingle | src/context/CartContext.tsx:62 | on a single line, removal keeps the line exactly when its id differs; with RemoveItemAppend this fixes the result line by line, including order and multiplicity |
| Cart.RemoveItemIdempotent | src/context/CartContext.tsx:62 | removing twice is the same as removing once |
| Cart.RemoveItemAbsent | src/context/CartContext.tsx:62 | removing an id that is not in the cart leaves the cart unchanged |
| Cart.RemoveItemAppend | src/context/CartContext.tsx:62 | removal distributes over concatenation, so the kept lines keep their relative order |
| Cart.RemoveItemCount | src/context/CartContext.tsx:62 | the item count drops by exactly the quantity held on the removed id's lines |
| Cart.RemoveItemKeepsUnique | src/context/CartContext.tsx:62 | removal preserves uniqueness of product ids |
| Cart.AddThenRemove | src/context/CartContext.tsx:47-63 | adding a product and then removing it gives the same cart as only removing it |
| Cart.SetQuantity | src/context/CartContext.tsx:66-72 | sets every matching line's quantity to max(1, q) with its other fields unchanged, and leaves all other lines equal |
| Cart.UpdateQuantity | src/context/CartContext.tsx:65-73 | the length and the product id at every position are kept; every line for the id ends with quantity max(1, q), so never below 1, and keeps its other fields; every other line is unchanged |
| Cart.UpdateQuantityAbsent | src/context/CartContext.tsx:67-71 | updating an id that is not in the cart changes nothing |
| Cart.UpdateQuantityIdempotent | src/context/CartContext.tsx:65-73 | applying the same update twice is the same as applying it once |
| Cart.UpdateQuantityKeepsUnique | src/context/CartContext.tsx:65-73 | updating a quantity preserves uniqueness of product ids |
| Cart.UpdateThenRemove | src/context/CartContext.tsx:67-71 | an update touches only the target id's lines: after removing that id, the cart is what it was before the update |
| Cart.UpdateQuantityCount | src/context/CartContext.tsx:65-73 | if ids are unique, the item count swaps the old quantity for the clamped one |
| Cart.ClearCart | src/context/CartContext.tsx:75 | the cleared cart has no ids and an item count of 0 |
| Cart.TotalItems | src/components/SiteHeader.tsx:19 | the left-to-right loop gives `ItemCount`, the sum of all line quantities |
| Cart.ItemCount | src/components/SiteHeader.tsx:19 | the header's badge count, the sum of all line quantities; its properties are stated by ItemCountBounds, ItemCountAppend and the count lemmas of each operation |
| Cart.ItemCountBounds | src/components/SiteHeader.tsx:19 | the badge count `ItemCount` is non-negative when every quantity is, and at least the number of lines when every quantity is at least 1 |
| Cart.ItemCountAppend | src/components/SiteHeader.tsx:19 | the item count of a concatenation is the sum of the item counts of its parts |
| Cart.UniqueOccurrences | src/context/CartContext.tsx:49-57 | in a cart with unique ids, a present product occupies exactly one line and an absent one none |
| Cart.TestScenario | src/context/CartContext.test.tsx:36-93 | the test file's scenario: a double add gives one line of quantity 2; an update to 0 gives quantity 1; remove gives the empty cart |
| Text.ToUpper | webhook-server/index.js:94 | keeps the length; leaves no lower-case ASCII letter; shifts each lower-case letter to upper case and keeps every other character |
| Text.FirstTruthy | webhook-server/index.js:50-53 | JavaScript short-circuit or: the first of the two that is present and non-empty, else none |
| Checkout.PriceIdOf | webhook-server/index.js:63-68 | a line item is skipped exactly when it has no price, or the price id is absent or empty |
| Options.Option.GetOr | webhook-server/index.js:64 | the `??` operator: the value when present, else the default |
| Checkout.StockOf | webhook-server/index.js:81 | a missing stock field reads as 0, a present one as its value |
| Checkout.QuantityOf | webhook-server/index.js:64 | a missing quantity reads as 1, a present one as its value |
| Checkout.NextStock | webhook-server/index.js:81-82 | the new stock is never negative and never below stock minus quantity; it is either 0 or exactly stock minus quantity |
| Checkout.UserIdOf | webhook-server/index.js:50-51 | the user id is `metadata.userId`, else `client_reference_id`, else none; it is never the empty string |
| Checkout.UserEmailOf | webhook-server/index.js:52-53 | the buyer email is `customer_details.email`, else `customer_email`, else none |
| Checkout.FindProductByPriceId | webhook-server/index.js:70-77 | returns none exactly when no product carries the price id; otherwise it returns a catalog product that carries it |
| Checkout.FindUnique | webhook-server/index.js:70-74 | when price ids are unique, the lookup returns the one product that carries the price id |
| Checkout.Resolve | webhook-server/index.js:62-97 | a resolution names a catalog product and stages a non-negative stock |
| Checkout.ResolveNone | webhook-server/index.js:65-77 | a line item resolves exactly when it has a usable price id that some catalog product carries |
| Checkout.ResolveLine | webhook-server/index.js:79-96 | a resolved line stages max(0, stock − quantity) with stock defaulting to 0 and quantity to 1; its title is the product title, else the provider's product name, else "Product"; its currency is upper-cased with default "eur" |
| Checkout.BuildOrder | webhook-server/index.js:99-111 | the order carries the session id, the resolved user id and email, and the given lines; its status is the payment status, else "paid"; its currency is the upper-cased session currency, else "EUR", with no lower-case letter |
| Reconcile.Stage | webhook-server/index.js:61-97 | the loop yields at most one order line per line item; stock is staged only for catalog products and is always non-negative |
| Reconcile.ApplyStock | webhook-server/index.js:84-87 | at commit a written product changes only its stock; every other product is untouched and no product is added or dropped |
| Reconcile.Reconcile | webhook-server/index.js:55-123 | an existing order for the session leaves the whole store unchanged. Otherwise: the ledger gains exactly that session's order and no recorded order changes; if a user id is known, the per-user history gains an identical copy under the same session id and nothing else; with no user id it is unchanged; products are neither added nor removed; a changed product differs only in a non-negative stock |
| Reconcile.ReconcileIdempotent | webhook-server/index.js:55-59 | reconciling the same session twice equals reconciling it once |
| Reconcile.StageAppend | webhook-server/index.js:61-97 | the loop over a + b concatenates order lines in line-item order; for the same product, b's staged write overrides a's |
| Reconcile.StageItems | webhook-server/index.js:61-97 | the order lines equal a front-to-back reference list holding one line per resolved line item |
| Reconcile.UnresolvedIgnored | webhook-server/index.js:65-77 | under snapshot reads, a line item that does not resolve changes neither the order lines nor the staged stock, wherever it appears |
| Reconcile.StageWritesDomain | webhook-server/index.js:70-87 | a product gets a stock write exactly when some line item resolves to it |
| Reconcile.StageWritesLast | webhook-server/index.js:79-87 | the staged stock is computed from the pre-transaction stock by the last line item that resolves to the product |
| Reconcile.ReconcileOrder | webhook-server/index.js:99-113 | for a new session, the recorded order is the session's order built over exactly the resolved lines |
| Reconcile.ReconcileUntouched | webhook-server/index.js:62-87 | for a new session, a product that no line item resolves to is unchanged |
| Reconcile.ReconcileResolved | webhook-server/index.js:62-87 | for a new session, a product that some line item resolves to changes only its stock, to the floored decrement by the last resolving line item |
| Reconcile.Step | webhook-server/index.js:84-96 | one loop iteration: an unresolved item leaves the state as it was; a resolved one appends its line after all earlier lines, stages its stock for its product and keeps every other staged write |
| Reconcile.StepJoin | webhook-server/index.js:84-96 | one loop step appends its order line after all earlier ones and lets its stock write replace an earlier write for the same product |
| Reconcile.ReconcileKeepsStockNonNegative | webhook-server/index.js:81-87 | a catalog whose stock is non-negative stays so |
| Reconcile.ReconcileNeverRaisesStock | webhook-server/index.js:81-82 | with non-negative quantities and stock, no product's stock rises |
| Reconcile.SameProductTwice | webhook-server/index.js:74-87 | if two line items resolve to the same product, its stock ends at the second item's decrement of the original stock, so the first decrement is lost |
| Reconcile.WidgetExample | webhook-server/index.js:55-122 | buying 2 units of a product with stock 10 leaves stock 8 and records a one-line EUR order with status "paid"; with no user id, no per-user copy is written |
| Reconcile.StockFloorExample | webhook-server/index.js:82 | buying 5 units of a product with stock 2 leaves stock 0 |
| Reconcile.DropPolicyExample | webhook-server/index.js:75-77 | with an unresolvable line item followed by a resolvable one, the order has one line and only the resolvable item's product changes |
| Reconcile.ReadsAfterWriteIff | webhook-server/index.js:62-87 | the loop as written queries the catalog after a staged write exactly when a line item with a usable price id follows a resolved one |
| Reconcile.ReconcileAsWritten | webhook-server/index.js:55-123 | as written, with the store's rule against reading after a write, the transaction fails exactly when a priced line item follows a resolved one; otherwise it commits what `Reconcile` describes |
| Reconcile.ReadAfterWriteExample | webhook-server/index.js:74-84 | a known item followed by an unknown priced item: as written no order is recorded, while the snapshot-read reconciliation records a one-line order and stock 8 |

## Left out

- Loading the cart from browser storage, syncing it back, and parsing its
  JSON (`CartContext.tsx:31-45`). This is browser I/O.
- The `useCart` guard outside a provider (`CartContext.tsx:85-91`). This is
  React context plumbing.
- Fetching the line items from the payment provider (`index.js:45-47`). It
  becomes the `lineItems` input.
- Signature verification, the HTTP server and process wiring
  (`index.js:1-42, 126-154`). These are network and vendor SDK code.
- Division of `unit_amount` and `amount_total` by 100 (`index.js:93, 99`).
  This is floating point. Amounts stay integer minor units.
- `createdAt` and `updatedAt` server timestamps (`index.js:86, 110`). These
  come from the store's clock and are not represented.
- Transaction mechanics: optimistic-concurrency retry, store unavailability,
  and atomic commit. The transaction is one atomic function.
- The store's server library refuses a read issued after a write inside one
  transaction. The loop does exactly that for any line item with a usable
  price id that comes after the first resolved one, whether or not it
  resolves. `Reconcile.Reconcile` follows snapshot-read semantics instead;
  `Reconcile.ReconcileAsWritten` models the refusal (see "## Findings").
- Product fields the handler neither reads nor writes (price, category, image,
  description). The model keeps only title, stock and price id.
- The cart line `price` is kept as an integer, not a JavaScript number.
- Cart.UpdateQuantity: the quantity is an integer. The source's quantity is a
  JavaScript number, and the cart page passes `Number(...)` of a number input
  (`src/app/cart/page.tsx:106-111`), which can be fractional, such as 1.5; the
  clamp `max(1, q)` keeps such a value, which the model cannot express.
- Cart.SetQuantity: the same integer-only quantity, for the same reason.
- `Number(productData.stock ?? 0)` applied to a non-numeric stock value. Stock
  is an integer or absent.
- Text.ToUpper: upper-cases ASCII letters only. JavaScript's `toUpperCase`
  follows full Unicode case mapping, which the model does not cover.
- Checkout.FindProductByPriceId: says only that *a* matching product is
  returned. The store's default order by document id fixes which one; the
  model leaves that choice open.
- All page components, the auth context, blob storage and the checkout API
  route. These are UI or thin calls to external services.

## Findings

| source | as written | input that shows it | evidently intended | confidence | as-written member | corrected member |
|---|---|---|---|---|---|---|
| webhook-server/index.js:62-87 | each loop iteration queries the catalog inside the transaction (line 74) after earlier iterations may have staged a stock write (line 84); the store's server library refuses a read after a write, so the transaction fails, the handler answers 500 and no order is recorded | a session whose line items are a product in the catalog followed by any other priced item, e.g. `[WidgetLine(2), UnknownLine()]` | all catalog reads happen before any write, so every session records its order with one line per resolved item | medium; not executed; rests on the store library's read-before-write rule | Reconcile.ReconcileAsWritten (counterexample Reconcile.ReadAfterWriteExample) | Reconcile.Reconcile (the order is recorded for every new session, per its ensures on `orders.Keys`) |
