/** The shopping cart of the storefront: an ordered list of cart lines keyed
    by product id, with the four state transitions the cart context offers
    (add, remove, set quantity, clear) as pure functions over that list. */
module Cart {
  import opened Options

  /** One cart line. `price` is kept as an integer amount; the storefront
      never does arithmetic on it inside the cart operations. */
  datatype CartItem = CartItem(
    productId: string,
    title: string,
    price: int,
    currency: string,
    quantity: int,
    stripePriceId: string,
    image: Option<string>)

  type Cart = seq<CartItem>

  /** The set of product ids present in the cart. */
  function Ids(cart: Cart): set<string> {
    set x | x in cart :: x.productId
  }

  /** No product id occurs on two lines. */
  predicate UniqueIds(cart: Cart) {
    forall i, j :: 0 <= i < j < |cart| ==> cart[i].productId != cart[j].productId
  }

  /** Total number of units in the cart: the header's badge count, the sum of
      all line quantities. */
  function ItemCount(cart: Cart): int {
    if |cart| == 0 then 0 else cart[0].quantity + ItemCount(cart[1..])
  }

  /** Every line holds at least `min` units. */
  predicate QuantitiesAtLeast(cart: Cart, min: int) {
    forall i :: 0 <= i < |cart| ==> cart[i].quantity >= min
  }

  /** Sum of the quantities on the lines carrying product id `id`. */
  function QuantityOf(cart: Cart, id: string): int {
    if |cart| == 0 then 0
    else (if cart[0].productId == id then cart[0].quantity else 0) + QuantityOf(cart[1..], id)
  }

  /** Position of the first line for `id`, as `Array.prototype.find` scans. */
  function Find(cart: Cart, id: string): (r: Option<nat>)
    ensures r.None? <==> id !in Ids(cart)
    ensures r.Some? ==> r.value < |cart| && cart[r.value].productId == id
    ensures r.Some? ==> forall j :: 0 <= j < r.value ==> cart[j].productId != id
  {
    if |cart| == 0 then None
    else if cart[0].productId == id then Some(0)
    else
      assert Ids(cart) == {cart[0].productId} + Ids(cart[1..]) by {
        assert cart == [cart[0]] + cart[1..];
      }
      match Find(cart[1..], id)
      case None => None
      case Some(k) => Some(k + 1)
  }

  /** Every line for `item.productId` has `item.quantity` added; the others
      are kept as they are. */
  function MergeQuantity(cart: Cart, item: CartItem): (r: Cart)
    ensures |r| == |cart|
    ensures forall i :: 0 <= i < |cart| && cart[i].productId == item.productId ==>
      r[i] == cart[i].(quantity := cart[i].quantity + item.quantity)
    ensures forall i :: 0 <= i < |cart| && cart[i].productId != item.productId ==> r[i] == cart[i]
  {
    if |cart| == 0 then []
    else
      var head := if cart[0].productId == item.productId
        then cart[0].(quantity := cart[0].quantity + item.quantity)
        else cart[0];
      [head] + MergeQuantity(cart[1..], item)
  }

  /** `addItem`: a product already in the cart has its quantity increased by
      the added quantity; a new product is appended as the last line. */
  function AddItem(cart: Cart, item: CartItem): (r: Cart)
    ensures item.productId !in Ids(cart) ==> r == cart + [item]
    ensures item.productId in Ids(cart) ==> |r| == |cart|
    ensures item.productId in Ids(cart) ==> forall i :: 0 <= i < |cart| ==>
      && r[i].productId == cart[i].productId
      && (cart[i].productId == item.productId ==> r[i] == cart[i].(quantity := cart[i].quantity + item.quantity))
      && (cart[i].productId != item.productId ==> r[i] == cart[i])
  {
    if Find(cart, item.productId).Some? then
      MergeQuantity(cart, item)
    else
      cart + [item]
  }

  /** Every line for `id` gets quantity `max(1, quantity)`; the others are
      kept as they are. */
  function SetQuantity(cart: Cart, id: string, quantity: int): (r: Cart)
    ensures |r| == |cart|
    ensures forall i :: 0 <= i < |cart| && cart[i].productId == id ==>
      r[i] == cart[i].(quantity := Max(1, quantity))
    ensures forall i :: 0 <= i < |cart| && cart[i].productId != id ==> r[i] == cart[i]
  {
    if |cart| == 0 then []
    else
      var head := if cart[0].productId == id then cart[0].(quantity := Max(1, quantity)) else cart[0];
      [head] + SetQuantity(cart[1..], id, quantity)
  }

  function Max(a: int, b: int): int {
    if a >= b then a else b
  }

  /** `updateQuantity`: the quantity is clamped to at least 1, and only lines
      for `id` change. */
  function UpdateQuantity(cart: Cart, id: string, quantity: int): (r: Cart)
    ensures |r| == |cart|
    ensures Ids(r) == Ids(cart)
    ensures forall i :: 0 <= i < |r| ==> r[i].productId == cart[i].productId
    ensures forall i :: 0 <= i < |r| && r[i].productId == id ==> r[i].quantity >= 1
    ensures forall i :: 0 <= i < |r| && r[i].productId == id ==> r[i].quantity == Max(1, quantity)
    ensures forall i :: 0 <= i < |cart| && cart[i].productId == id ==>
      r[i] == cart[i].(quantity := Max(1, quantity))
    ensures forall i :: 0 <= i < |cart| && cart[i].productId != id ==> r[i] == cart[i]
  {
    SetQuantity(cart, id, quantity)
  }

  /** `removeItem`: keeps, in order, exactly the lines whose product id is not
      `id`. */
  function RemoveItem(cart: Cart, id: string): (r: Cart)
    ensures forall x :: x in r <==> x in cart && x.productId != id
    ensures |r| <= |cart|
  {
    if |cart| == 0 then []
    else
      (if cart[0].productId == id then [] else [cart[0]]) + RemoveItem(cart[1..], id)
  }

  /** `clearCart`: the empty cart. */
  function ClearCart(): (r: Cart)
    ensures Ids(r) == {}
    ensures ItemCount(r) == 0
  {
    []
  }

  /** The header's badge count: the line quantities added up from the first
      line to the last, starting at 0. */
  method TotalItems(cart: Cart) returns (n: int)
    ensures n == ItemCount(cart)
  {
    n := 0;
    var i := 0;
    while i < |cart|
      invariant 0 <= i <= |cart|
      invariant n == ItemCount(cart[..i])
    {
      ItemCountAppend(cart[..i], [cart[i]]);
      assert cart[..i + 1] == cart[..i] + [cart[i]];
      n := n + cart[i].quantity;
      i := i + 1;
    }
    assert cart[..i] == cart;
  }

  // ---------------------------------------------------------------------
  // Lemmas

  /** The badge count is never negative when no line is, and, as every
      quantity set through `UpdateQuantity` is at least 1, it is then at least
      the number of lines. */
  lemma {:induction false} ItemCountBounds(cart: Cart)
    ensures QuantitiesAtLeast(cart, 0) ==> ItemCount(cart) >= 0
    ensures QuantitiesAtLeast(cart, 1) ==> ItemCount(cart) >= |cart|
  {
    if |cart| > 0 {
      ItemCountBounds(cart[1..]);
      assert QuantitiesAtLeast(cart, 0) ==> QuantitiesAtLeast(cart[1..], 0);
      assert QuantitiesAtLeast(cart, 1) ==> QuantitiesAtLeast(cart[1..], 1);
    }
  }

  lemma {:induction false} ItemCountAppend(a: Cart, b: Cart)
    ensures ItemCount(a + b) == ItemCount(a) + ItemCount(b)
  {
    if |a| == 0 {
      assert a + b == b;
    } else {
      assert (a + b)[1..] == a[1..] + b;
      ItemCountAppend(a[1..], b);
    }
  }

  /** Number of lines carrying product id `id`. */
  function Occurrences(cart: Cart, id: string): nat {
    if |cart| == 0 then 0
    else (if cart[0].productId == id then 1 else 0) + Occurrences(cart[1..], id)
  }

  lemma {:induction false} AbsentOccurrences(cart: Cart, id: string)
    requires id !in Ids(cart)
    ensures Occurrences(cart, id) == 0
    ensures QuantityOf(cart, id) == 0
  {
    if |cart| > 0 {
      assert cart[0] in cart;
      assert Ids(cart[1..]) <= Ids(cart) by {
        forall x | x in cart[1..] ensures x in cart { }
      }
      AbsentOccurrences(cart[1..], id);
    }
  }

  lemma UniqueTail(cart: Cart)
    requires |cart| > 0 && UniqueIds(cart)
    ensures UniqueIds(cart[1..])
    ensures cart[0].productId !in Ids(cart[1..])
  {
  }

  /** In a cart with unique ids, a present product occupies exactly one line. */
  lemma {:induction false} UniqueOccurrences(cart: Cart, id: string)
    requires UniqueIds(cart)
    ensures Occurrences(cart, id) == (if id in Ids(cart) then 1 else 0)
  {
    if id !in Ids(cart) {
      AbsentOccurrences(cart, id);
    } else {
      UniqueTail(cart);
      assert cart == [cart[0]] + cart[1..];
      if cart[0].productId == id {
        AbsentOccurrences(cart[1..], id);
      } else {
        UniqueOccurrences(cart[1..], id);
      }
    }
  }

  lemma {:induction false} MergeCount(cart: Cart, item: CartItem)
    ensures ItemCount(MergeQuantity(cart, item))
      == ItemCount(cart) + item.quantity * Occurrences(cart, item.productId)
  {
    if |cart| > 0 {
      var id := item.productId;
      var n := Occurrences(cart[1..], id);
      MergeCount(cart[1..], item);
      var r := MergeQuantity(cart, item);
      assert r[1..] == MergeQuantity(cart[1..], item);
      assert ItemCount(r) == r[0].quantity + ItemCount(r[1..]);
      if cart[0].productId == id {
        OneMore(item.quantity, n);
      }
    }
  }

  lemma OneMore(q: int, n: int)
    ensures q * (1 + n) == q + q * n
  {
  }

  /** Adding to a cart with unique ids raises the badge count by exactly the
      added quantity, whether the product was new or already present. */
  lemma AddItemCount(cart: Cart, item: CartItem)
    requires UniqueIds(cart)
    ensures ItemCount(AddItem(cart, item)) == ItemCount(cart) + item.quantity
  {
    if item.productId in Ids(cart) {
      MergeCount(cart, item);
      UniqueOccurrences(cart, item.productId);
    } else {
      ItemCountAppend(cart, [item]);
      assert [item][1..] == [];
    }
  }

  /** Adding preserves uniqueness of product ids. */
  lemma AddItemKeepsUnique(cart: Cart, item: CartItem)
    requires UniqueIds(cart)
    ensures UniqueIds(AddItem(cart, item))
  {
  }

  /** After an add the product is in the cart, and the id set has grown by
      exactly that id. */
  lemma AddItemIds(cart: Cart, item: CartItem)
    ensures item.productId in Ids(AddItem(cart, item))
    ensures Ids(AddItem(cart, item)) == Ids(cart) + {item.productId}
  {
  }

  /** After a removal no line for the id is left, and the id set has lost
      exactly that id. */
  lemma RemoveItemIds(cart: Cart, id: string)
    ensures id !in Ids(RemoveItem(cart, id))
    ensures Ids(RemoveItem(cart, id)) == Ids(cart) - {id}
  {
  }

  /** On a single line removal keeps the line exactly when its id differs;
      with `RemoveItemAppend` this pins down the result line by line. */
  lemma RemoveItemSingle(x: CartItem, id: string)
    ensures RemoveItem([x], id) == if x.productId == id then [] else [x]
  {
    assert [x][1..] == [];
  }

  /** Removing the same product twice is the same as removing it once. */
  lemma RemoveItemIdempotent(cart: Cart, id: string)
    ensures RemoveItem(RemoveItem(cart, id), id) == RemoveItem(cart, id)
  {
    RemoveItemAbsent(RemoveItem(cart, id), id);
  }

  /** Removing an id that is not in the cart leaves the cart unchanged. */
  lemma {:induction false} RemoveItemAbsent(cart: Cart, id: string)
    requires id !in Ids(cart)
    ensures RemoveItem(cart, id) == cart
  {
    if |cart| > 0 {
      assert cart[0] in cart;
      assert Ids(cart[1..]) <= Ids(cart) by {
        forall x | x in cart[1..] ensures x in cart { }
      }
      RemoveItemAbsent(cart[1..], id);
      assert cart == [cart[0]] + cart[1..];
    }
  }

  /** Removal filters each part of a cart independently: the kept lines stay
      in their original relative order. */
  lemma {:induction false} RemoveItemAppend(a: Cart, b: Cart, id: string)
    ensures RemoveItem(a + b, id) == RemoveItem(a, id) + RemoveItem(b, id)
  {
    if |a| == 0 {
      assert a + b == b;
    } else {
      assert (a + b)[1..] == a[1..] + b;
      assert (a + b)[0] == a[0];
      RemoveItemAppend(a[1..], b, id);
    }
  }

  /** Removal drops exactly the quantity held on the removed product's lines. */
  lemma {:induction false} RemoveItemCount(cart: Cart, id: string)
    ensures ItemCount(RemoveItem(cart, id)) == ItemCount(cart) - QuantityOf(cart, id)
  {
    if |cart| > 0 {
      RemoveItemCount(cart[1..], id);
      var head: Cart := if cart[0].productId == id then [] else [cart[0]];
      ItemCountAppend(head, RemoveItem(cart[1..], id));
    }
  }

  /** Removal preserves uniqueness of product ids. */
  lemma {:induction false} RemoveItemKeepsUnique(cart: Cart, id: string)
    requires UniqueIds(cart)
    ensures UniqueIds(RemoveItem(cart, id))
  {
    if |cart| > 0 {
      UniqueTail(cart);
      RemoveItemKeepsUnique(cart[1..], id);
      var rest := RemoveItem(cart[1..], id);
      if cart[0].productId != id {
        var r := [cart[0]] + rest;
        forall i, j | 0 <= i < j < |r| ensures r[i].productId != r[j].productId {
          if i == 0 {
            assert r[j] in rest;
          } else {
            assert r[i] == rest[i - 1] && r[j] == rest[j - 1];
          }
        }
      } else {
        assert RemoveItem(cart, id) == rest;
      }
    }
  }

  /** Adding a product and then removing it is the same as just removing it:
      the other lines are untouched by either step. */
  lemma AddThenRemove(cart: Cart, item: CartItem)
    ensures RemoveItem(AddItem(cart, item), item.productId) == RemoveItem(cart, item.productId)
  {
    var id := item.productId;
    if id in Ids(cart) {
      RemoveSameOutside(AddItem(cart, item), cart, id);
    } else {
      RemoveItemAppend(cart, [item], id);
      assert RemoveItem([item], id) == [];
    }
  }

  /** Two carts of equal length that agree on every line not for `id` are
      equal once `id` is removed. */
  lemma {:induction false} RemoveSameOutside(a: Cart, b: Cart, id: string)
    requires |a| == |b|
    requires forall i :: 0 <= i < |a| ==> a[i].productId == b[i].productId
    requires forall i :: 0 <= i < |a| && a[i].productId != id ==> a[i] == b[i]
    ensures RemoveItem(a, id) == RemoveItem(b, id)
  {
    if |a| > 0 {
      RemoveSameOutside(a[1..], b[1..], id);
    }
  }

  /** Setting a quantity for an id that is not in the cart changes nothing. */
  lemma UpdateQuantityAbsent(cart: Cart, id: string, quantity: int)
    requires id !in Ids(cart)
    ensures UpdateQuantity(cart, id, quantity) == cart
  {
  }

  /** Setting the same quantity twice is the same as setting it once. */
  lemma UpdateQuantityIdempotent(cart: Cart, id: string, quantity: int)
    ensures UpdateQuantity(UpdateQuantity(cart, id, quantity), id, quantity)
      == UpdateQuantity(cart, id, quantity)
  {
  }

  /** Setting a quantity preserves uniqueness of product ids. */
  lemma UpdateQuantityKeepsUnique(cart: Cart, id: string, quantity: int)
    requires UniqueIds(cart)
    ensures UniqueIds(UpdateQuantity(cart, id, quantity))
  {
  }

  /** Setting a quantity only touches the lines for `id`: once those are
      removed, the cart is what it was. */
  lemma UpdateThenRemove(cart: Cart, id: string, quantity: int)
    ensures RemoveItem(UpdateQuantity(cart, id, quantity), id) == RemoveItem(cart, id)
  {
    RemoveSameOutside(UpdateQuantity(cart, id, quantity), cart, id);
  }

  lemma {:induction false} SetQuantityCount(cart: Cart, id: string, quantity: int)
    ensures ItemCount(SetQuantity(cart, id, quantity))
      == ItemCount(cart) - QuantityOf(cart, id) + Max(1, quantity) * Occurrences(cart, id)
  {
    if |cart| > 0 {
      var n := Occurrences(cart[1..], id);
      SetQuantityCount(cart[1..], id, quantity);
      var r := SetQuantity(cart, id, quantity);
      assert r[1..] == SetQuantity(cart[1..], id, quantity);
      assert ItemCount(r) == r[0].quantity + ItemCount(r[1..]);
      if cart[0].productId == id {
        OneMore(Max(1, quantity), n);
      }
    }
  }

  /** In a cart with unique ids, setting the quantity of a present product
      replaces its old quantity by the clamped one in the badge count. */
  lemma UpdateQuantityCount(cart: Cart, id: string, quantity: int)
    requires UniqueIds(cart) && id in Ids(cart)
    ensures ItemCount(UpdateQuantity(cart, id, quantity))
      == ItemCount(cart) - QuantityOf(cart, id) + Max(1, quantity)
  {
    SetQuantityCount(cart, id, quantity);
    UniqueOccurrences(cart, id);
  }

  /** The scenario of the cart context's own tests: adding the same line
      twice to an empty cart yields one line of quantity 2; setting its
      quantity to 0 yields 1; removing it or clearing yields the empty cart. */
  lemma TestScenario(item: CartItem)
    requires item.quantity == 1
    ensures |AddItem([], item)| == 1 && AddItem([], item)[0].quantity == 1
    ensures |AddItem(AddItem([], item), item)| == 1
    ensures AddItem(AddItem([], item), item)[0].quantity == 2
    ensures UpdateQuantity(AddItem([], item), item.productId, 0)[0].quantity == 1
    ensures RemoveItem(AddItem([], item), item.productId) == []
  {
  }
}
