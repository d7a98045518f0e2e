/** Data of the checkout-completed reconciliation: the catalog products, the
    payment session and its line items as the payment provider reports them,
    the order snapshot that gets recorded, and the store holding all three
    collections. Amounts are integer minor units (cents). */
module Checkout {
  import opened Options
  import opened Text

  type ProductId = string
  type SessionId = string
  type UserId = string
  type PriceId = string

  /** A catalog product document. Fields the reconciliation neither reads
      nor writes (price, category, image, ...) are not represented. */
  datatype Product = Product(
    title: Option<string>,
    stock: Option<int>,
    stripePriceId: Option<PriceId>)

  /** The provider's price object attached to a line item, with its product
      expanded to the product's display name. */
  datatype Price = Price(
    id: Option<PriceId>,
    productName: Option<string>,
    unitAmount: Option<int>,
    currency: Option<string>)

  datatype LineItem = LineItem(price: Option<Price>, quantity: Option<int>)

  /** The completed checkout session, reduced to the fields the handler
      reads. `metadataUserId` is `metadata.userId`, `customerDetailsEmail`
      is `customer_details.email`. */
  datatype Session = Session(
    id: SessionId,
    metadataUserId: Option<string>,
    clientReferenceId: Option<string>,
    customerDetailsEmail: Option<string>,
    customerEmail: Option<string>,
    amountTotal: Option<int>,
    currency: Option<string>,
    paymentStatus: Option<string>)

  datatype OrderItem = OrderItem(
    productId: ProductId,
    title: string,
    quantity: int,
    unitAmount: int,
    currency: string,
    stripePriceId: PriceId)

  datatype Order = Order(
    stripeSessionId: SessionId,
    userId: Option<UserId>,
    userEmail: Option<string>,
    items: seq<OrderItem>,
    totalAmount: int,
    currency: string,
    status: string)

  /** The three collections the transaction touches: the catalog, the global
      order ledger keyed by session id, and the per-user order histories
      keyed by (user id, session id). */
  datatype Store = Store(
    products: map<ProductId, Product>,
    orders: map<SessionId, Order>,
    userOrders: map<(UserId, SessionId), Order>)

  const DefaultTitle := "Product"
  const DefaultCurrency := "eur"
  const DefaultStatus := "paid"

  /** Stock as the handler reads it: a missing stock field counts as 0. */
  function StockOf(p: Product): (r: int)
    ensures p.stock.None? ==> r == 0
    ensures p.stock.Some? ==> r == p.stock.value
  {
    p.stock.GetOr(0)
  }

  /** The purchased quantity: a missing quantity counts as 1. */
  function QuantityOf(li: LineItem): (r: int)
    ensures li.quantity.None? ==> r == 1
    ensures li.quantity.Some? ==> r == li.quantity.value
  {
    li.quantity.GetOr(1)
  }

  /** The price id the handler looks up, or None when the line item has no
      price, the price has no id, or the id is the empty string (all falsy,
      so the handler skips the item). */
  function PriceIdOf(li: LineItem): (r: Option<PriceId>)
    ensures r.None? <==> li.price.None? || !Truthy(li.price.value.id)
    ensures r.Some? ==> r == li.price.value.id && r.value != ""
  {
    if li.price.Some? && Truthy(li.price.value.id) then li.price.value.id else None
  }

  /** New stock for a purchase of `quantity` units out of `current`. */
  function NextStock(current: int, quantity: int): (r: int)
    ensures r >= 0
    ensures r >= current - quantity
    ensures r == 0 || r == current - quantity
  {
    if current - quantity >= 0 then current - quantity else 0
  }

  /** The buyer's user id: `metadata.userId`, else `client_reference_id`,
      else none. An empty string counts as absent. */
  function UserIdOf(s: Session): (r: Option<UserId>)
    ensures r.Some? ==> r.value != ""
    ensures Truthy(s.metadataUserId) ==> r == s.metadataUserId
    ensures !Truthy(s.metadataUserId) && Truthy(s.clientReferenceId) ==> r == s.clientReferenceId
    ensures r.None? <==> !Truthy(s.metadataUserId) && !Truthy(s.clientReferenceId)
  {
    FirstTruthy(s.metadataUserId, s.clientReferenceId)
  }

  /** The buyer's email: `customer_details.email`, else `customer_email`,
      else none. */
  function UserEmailOf(s: Session): (r: Option<string>)
    ensures Truthy(s.customerDetailsEmail) ==> r == s.customerDetailsEmail
    ensures !Truthy(s.customerDetailsEmail) && Truthy(s.customerEmail) ==> r == s.customerEmail
    ensures r.None? <==> !Truthy(s.customerDetailsEmail) && !Truthy(s.customerEmail)
  {
    FirstTruthy(s.customerDetailsEmail, s.customerEmail)
  }

  predicate Matches(p: Product, priceId: PriceId) {
    p.stripePriceId == Some(priceId)
  }

  /** No two catalog products carry the same price id. */
  predicate UniquePriceIds(products: map<ProductId, Product>) {
    forall k1, k2 ::
      (k1 in products && k2 in products && k1 != k2 && products[k1].stripePriceId.Some?) ==>
        products[k1].stripePriceId != products[k2].stripePriceId
  }

  /** The catalog query `where stripePriceId == priceId, limit 1`: some
      product carrying that price id, or none. When several match, the store
      returns the one first in its default order (ascending document id);
      the model leaves that choice open. */
  ghost function FindProductByPriceId(products: map<ProductId, Product>, priceId: PriceId): (r: Option<ProductId>)
    ensures r.None? <==> forall k :: k in products ==> !Matches(products[k], priceId)
    ensures r.Some? ==> r.value in products && Matches(products[r.value], priceId)
  {
    if exists k :: k in products && Matches(products[k], priceId) then
      var k :| k in products && Matches(products[k], priceId);
      Some(k)
    else
      None
  }

  /** With unique price ids the query's answer is determined: it is the one
      product carrying the price id. */
  lemma FindUnique(products: map<ProductId, Product>, priceId: PriceId, k: ProductId)
    requires UniquePriceIds(products)
    requires k in products && Matches(products[k], priceId)
    ensures FindProductByPriceId(products, priceId) == Some(k)
  {
  }

  /** What one resolved line item contributes: the product it hit, its order
      line and the stock staged for that product. */
  datatype Resolution = Resolution(productId: ProductId, item: OrderItem, nextStock: int)

  /** One iteration of the line-item loop, reading the product from the
      pre-transaction `snapshot`. */
  ghost function Resolve(snapshot: map<ProductId, Product>, li: LineItem): (r: Option<Resolution>)
    ensures r.Some? ==> r.value.productId in snapshot && r.value.nextStock >= 0
  {
    match PriceIdOf(li)
    case None => None
    case Some(priceId) =>
      match FindProductByPriceId(snapshot, priceId)
      case None => None
      case Some(pid) =>
        var product := snapshot[pid];
        var price := li.price.value;
        var quantity := QuantityOf(li);
        var item := OrderItem(
          pid,
          product.title.GetOr(price.productName.GetOr(DefaultTitle)),
          quantity,
          price.unitAmount.GetOr(0),
          ToUpper(price.currency.GetOr(DefaultCurrency)),
          priceId);
        Some(Resolution(pid, item, NextStock(StockOf(product), quantity)))
  }

  /** A line item resolves exactly when it has a usable price id that some
      catalog product carries. */
  lemma ResolveNone(snapshot: map<ProductId, Product>, li: LineItem)
    ensures Resolve(snapshot, li).None? <==>
      PriceIdOf(li).None? || forall k :: k in snapshot ==> !Matches(snapshot[k], PriceIdOf(li).value)
  {
  }

  /** A resolved line item hits a product carrying its price id; the staged
      stock is the floored decrement of that product's stock; the order line
      snapshots the product, with the title falling back to the provider's
      product name and then to "Product", the quantity defaulting to 1 and the
      currency upper-cased with default "eur". */
  lemma ResolveLine(snapshot: map<ProductId, Product>, li: LineItem)
    requires Resolve(snapshot, li).Some?
    ensures
      var res := Resolve(snapshot, li).value;
      var pid := res.productId;
      var price := li.price.value;
      && PriceIdOf(li).Some?
      && pid in snapshot
      && Matches(snapshot[pid], PriceIdOf(li).value)
      && res.nextStock == NextStock(StockOf(snapshot[pid]), QuantityOf(li))
      && res.item.productId == pid
      && res.item.stripePriceId == PriceIdOf(li).value
      && res.item.quantity == QuantityOf(li)
      && res.item.title == snapshot[pid].title.GetOr(price.productName.GetOr(DefaultTitle))
      && res.item.unitAmount == price.unitAmount.GetOr(0)
      && res.item.currency == ToUpper(price.currency.GetOr(DefaultCurrency))
  {
  }

  /** True when `li` resolves to product `k` against `snapshot`. */
  ghost predicate ResolvesTo(snapshot: map<ProductId, Product>, li: LineItem, k: ProductId) {
    Resolve(snapshot, li).Some? && Resolve(snapshot, li).value.productId == k
  }

  /** The order snapshot built from the session and the accumulated lines. */
  function BuildOrder(s: Session, items: seq<OrderItem>): (o: Order)
    ensures o.stripeSessionId == s.id
    ensures o.items == items
    ensures o.userId == UserIdOf(s)
    ensures o.userEmail == UserEmailOf(s)
    ensures o.totalAmount == s.amountTotal.GetOr(0)
    ensures s.paymentStatus.Some? ==> o.status == s.paymentStatus.value
    ensures s.paymentStatus.None? ==> o.status == "paid"
    ensures s.currency.None? ==> o.currency == "EUR"
    ensures s.currency.Some? ==> o.currency == ToUpper(s.currency.value)
    ensures forall i :: 0 <= i < |o.currency| ==> !IsLower(o.currency[i])
  {
    DefaultCurrencyUpper();
    Order(
      s.id,
      UserIdOf(s),
      UserEmailOf(s),
      items,
      s.amountTotal.GetOr(0),
      ToUpper(s.currency.GetOr(DefaultCurrency)),
      s.paymentStatus.GetOr(DefaultStatus))
  }
}
