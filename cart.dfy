/**
  The cart store's pure side: the new cart each handler computes from the
  previous one, the two aggregates read from it, and the invariant the
  handlers keep (one item per product id, every quantity at least 1).
 */
module Cart {
  import opened Catalog

  datatype CartItem = CartItem(product: Product, quantity: int)

  type Cart = seq<CartItem>

  /** Some item of the cart holds the product with that id. */
  predicate HasId(cart: Cart, id: string) {
    exists i :: 0 <= i < |cart| && cart[i].product.id == id
  }

  predicate UniqueIds(cart: Cart) {
    forall i, j :: 0 <= i < j < |cart| ==> cart[i].product.id != cart[j].product.id
  }

  predicate PositiveQuantities(cart: Cart) {
    forall i :: 0 <= i < |cart| ==> cart[i].quantity >= 1
  }

  /** The cart invariant: at most one item per product id, no quantity below 1. */
  predicate Valid(cart: Cart) {
    UniqueIds(cart) && PositiveQuantities(cart)
  }

  /** One more of every item holding the product with that id. */
  function IncrementWhere(cart: Cart, id: string): (r: Cart)
    ensures |r| == |cart|
  {
    seq(|cart|, i requires 0 <= i < |cart| =>
      if cart[i].product.id == id then cart[i].(quantity := cart[i].quantity + 1) else cart[i])
  }

  /** Quantity `q` on every item holding the product with that id. */
  function SetQuantityWhere(cart: Cart, id: string, q: int): (r: Cart)
    ensures |r| == |cart|
  {
    seq(|cart|, i requires 0 <= i < |cart| =>
      if cart[i].product.id == id then cart[i].(quantity := q) else cart[i])
  }

  /** Adding a product: one more of its item when it is in the cart, else a new item of quantity 1 at the end. */
  function AddToCart(cart: Cart, p: Product): (r: Cart)
    ensures |r| == if HasId(cart, p.id) then |cart| else |cart| + 1
    ensures forall i :: 0 <= i < |cart| ==> r[i].product == cart[i].product
    ensures HasId(r, p.id)
  {
    if HasId(cart, p.id) then
      var r := IncrementWhere(cart, p.id);
      var k :| 0 <= k < |cart| && cart[k].product.id == p.id;
      assert r[k].product.id == p.id;
      r
    else
      var r := cart + [CartItem(p, 1)];
      assert r[|cart|].product.id == p.id;
      r
  }

  /** The ids in the cart after an add are the earlier ones and the added product's. */
  lemma AddIds(cart: Cart, p: Product, id: string)
    ensures HasId(AddToCart(cart, p), id) <==> HasId(cart, id) || id == p.id
  {
    var r := AddToCart(cart, p);
    if !HasId(cart, p.id) {
      AddNew(cart, p);
      if HasId(r, id) && id != p.id {
        var i :| 0 <= i < |r| && r[i].product.id == id;
        assert i < |cart| && cart[i] == r[i];
      }
    }
    if HasId(cart, id) {
      var i :| 0 <= i < |cart| && cart[i].product.id == id;
      assert r[i].product.id == id;
    }
  }

  /** Adding keeps the cart invariant. */
  lemma AddValid(cart: Cart, p: Product)
    requires Valid(cart)
    ensures Valid(AddToCart(cart, p))
  {
    var r := AddToCart(cart, p);
    if !HasId(cart, p.id) {
      assert r == cart + [CartItem(p, 1)];
      assert forall i :: 0 <= i < |cart| ==> r[i] == cart[i] && r[i].product.id != p.id;
    }
  }

  /** Removing a product: the items holding other products, in their order. */
  function RemoveFromCart(cart: Cart, id: string): (r: Cart)
    ensures forall x :: x in r <==> x in cart && x.product.id != id
    ensures |r| <= |cart|
  {
    if cart == [] then []
    else
      var rest := RemoveFromCart(cart[1..], id);
      assert forall x :: x in cart <==> x == cart[0] || x in cart[1..];
      if cart[0].product.id == id then rest else [cart[0]] + rest
  }

  /** After removal no item has that id. */
  lemma RemoveDropsId(cart: Cart, id: string)
    ensures !HasId(RemoveFromCart(cart, id), id)
  {
    var r := RemoveFromCart(cart, id);
    forall i | 0 <= i < |r| ensures r[i].product.id != id {
      assert r[i] in r;
    }
  }

  /** Removing an id that is not in the cart changes nothing. */
  lemma {:induction false} RemoveAbsent(cart: Cart, id: string)
    requires !HasId(cart, id)
    ensures RemoveFromCart(cart, id) == cart
    decreases |cart|
  {
    if cart != [] {
      assert !HasId(cart[1..], id) by {
        forall i | 0 <= i < |cart[1..]| ensures cart[1..][i].product.id != id {
          assert cart[1..][i] == cart[i + 1];
        }
      }
      RemoveAbsent(cart[1..], id);
      assert cart[0].product.id != id;
      assert cart == [cart[0]] + cart[1..];
    }
  }

  /** Removing keeps the cart invariant. */
  lemma {:induction false} RemoveValid(cart: Cart, id: string)
    requires Valid(cart)
    ensures Valid(RemoveFromCart(cart, id))
    decreases |cart|
  {
    if cart != [] {
      var tail := cart[1..];
      assert Valid(tail) by {
        forall i | 0 <= i < |tail| ensures tail[i] == cart[i + 1] { }
      }
      RemoveValid(tail, id);
      var rest := RemoveFromCart(tail, id);
      if cart[0].product.id != id {
        var r := [cart[0]] + rest;
        forall j | 0 < j < |r| ensures r[0].product.id != r[j].product.id {
          assert r[j] in rest;
          assert r[j] in tail;
          var t :| 0 <= t < |tail| && tail[t] == r[j];
          assert cart[t + 1] == r[j];
        }
      }
    }
  }

  /** Setting a quantity: zero or less removes the item, any other quantity is set as given. */
  function UpdateQuantity(cart: Cart, id: string, q: int): (r: Cart)
    ensures q <= 0 ==> r == RemoveFromCart(cart, id)
    ensures q > 0 ==> |r| == |cart| && forall i :: 0 <= i < |r| ==> r[i].product == cart[i].product
  {
    if q <= 0 then RemoveFromCart(cart, id) else SetQuantityWhere(cart, id, q)
  }

  /** Updating keeps the cart invariant. */
  lemma UpdateValid(cart: Cart, id: string, q: int)
    requires Valid(cart)
    ensures Valid(UpdateQuantity(cart, id, q))
  {
    if q <= 0 {
      RemoveValid(cart, id);
    }
  }

  /** The quantity the cart's "-" button asks for: one less, but never below 1. */
  function DecrementRequest(quantity: int): (q: int)
    ensures q >= 1
    ensures quantity > 1 ==> q == quantity - 1
  {
    if quantity - 1 > 1 then quantity - 1 else 1
  }

  /** The quantity the cart's "+" button asks for. */
  function IncrementRequest(quantity: int): int {
    quantity + 1
  }

  function Amount(item: CartItem): int {
    item.product.prix * item.quantity
  }

  /** The cart total: the sum of price times quantity over the items. */
  function Total(cart: Cart): int {
    if cart == [] then 0 else Total(cart[..|cart| - 1]) + Amount(cart[|cart| - 1])
  }

  /** The number of articles: the sum of the quantities. */
  function CartCount(cart: Cart): int {
    if cart == [] then 0 else CartCount(cart[..|cart| - 1]) + cart[|cart| - 1].quantity
  }

  // ---- Lemmas: the handlers on a valid cart ----

  /** Adding a product already in the cart adds one to that item alone. */
  lemma AddExisting(cart: Cart, p: Product, k: nat)
    requires UniqueIds(cart) && k < |cart| && cart[k].product.id == p.id
    ensures AddToCart(cart, p) == cart[k := cart[k].(quantity := cart[k].quantity + 1)]
  {
    var r := AddToCart(cart, p);
    assert forall i :: 0 <= i < |cart| && i != k ==> cart[i].product.id != p.id;
  }

  /** Adding a product not in the cart appends it with quantity 1 and keeps the earlier items. */
  lemma AddNew(cart: Cart, p: Product)
    requires !HasId(cart, p.id)
    ensures AddToCart(cart, p) == cart + [CartItem(p, 1)]
    ensures AddToCart(cart, p)[..|cart|] == cart
  {
  }

  /** `n` successive adds of one product to a valid cart without it. */
  function AddTimes(cart: Cart, p: Product, n: nat): Cart
  {
    if n == 0 then cart else AddToCart(AddTimes(cart, p, n - 1), p)
  }

  /** `n >= 1` adds of a product not yet in the cart leave one item for it, with quantity `n`, at the end. */
  lemma {:induction false} RepeatedAdd(cart: Cart, p: Product, n: nat)
    requires Valid(cart) && !HasId(cart, p.id) && n >= 1
    ensures AddTimes(cart, p, n) == cart + [CartItem(p, n)]
  {
    if n == 1 {
      AddNew(cart, p);
    } else {
      RepeatedAdd(cart, p, n - 1);
      var prev := cart + [CartItem(p, n - 1)];
      assert forall i :: 0 <= i < |cart| ==> prev[i] == cart[i];
      assert UniqueIds(prev);
      AddExisting(prev, p, |cart|);
      assert prev[|cart| := CartItem(p, n)] == cart + [CartItem(p, n)];
    }
  }

  lemma UniqueIdsTail(cart: Cart)
    requires UniqueIds(cart) && cart != []
    ensures UniqueIds(cart[1..])
    ensures forall i :: 0 <= i < |cart[1..]| ==> cart[1..][i].product.id != cart[0].product.id
  {
    forall i, j | 0 <= i < j < |cart[1..]|
      ensures cart[1..][i].product.id != cart[1..][j].product.id
    {
      assert cart[1..][i] == cart[i + 1] && cart[1..][j] == cart[j + 1];
    }
    forall i | 0 <= i < |cart[1..]|
      ensures cart[1..][i].product.id != cart[0].product.id
    {
      assert cart[1..][i] == cart[i + 1];
    }
  }

  /** Removal of a product present at index `k` of a cart with unique ids drops exactly that item. */
  lemma {:induction false} RemoveAt(cart: Cart, id: string, k: nat)
    requires UniqueIds(cart) && k < |cart| && cart[k].product.id == id
    ensures RemoveFromCart(cart, id) == cart[..k] + cart[k + 1..]
    decreases k
  {
    var tail := cart[1..];
    UniqueIdsTail(cart);
    if k == 0 {
      assert !HasId(tail, id);
      RemoveAbsent(tail, id);
      assert RemoveFromCart(cart, id) == RemoveFromCart(tail, id);
    } else {
      RemoveAt(tail, id, k - 1);
      assert cart[0].product.id != id;
      assert RemoveFromCart(cart, id) == [cart[0]] + RemoveFromCart(tail, id);
      assert tail[..k - 1] == cart[1..k];
      assert tail[k..] == cart[k + 1..];
      assert [cart[0]] + cart[1..k] == cart[..k];
    }
  }

  /** Removal distributes over concatenation: the kept items stay in their relative order. */
  lemma {:induction false} RemoveAppend(a: Cart, b: Cart, id: string)
    ensures RemoveFromCart(a + b, id) == RemoveFromCart(a, id) + RemoveFromCart(b, id)
    decreases |a|
  {
    if a != [] {
      assert (a + b)[1..] == a[1..] + b;
      RemoveAppend(a[1..], b, id);
    } else {
      assert a + b == b;
    }
  }

  /** A positive quantity on a product present at index `k` replaces that item's quantity alone. */
  lemma UpdateAt(cart: Cart, id: string, q: int, k: nat)
    requires UniqueIds(cart) && k < |cart| && cart[k].product.id == id && q > 0
    ensures UpdateQuantity(cart, id, q) == cart[k := cart[k].(quantity := q)]
  {
    assert forall i :: 0 <= i < |cart| && i != k ==> cart[i].product.id != id;
  }

  /** Updating a product that is not in the cart changes nothing. */
  lemma UpdateAbsent(cart: Cart, id: string, q: int)
    requires !HasId(cart, id)
    ensures UpdateQuantity(cart, id, q) == cart
  {
    if q > 0 {
      var r := UpdateQuantity(cart, id, q);
      assert forall i :: 0 <= i < |cart| ==> r[i] == cart[i];
    } else {
      RemoveAbsent(cart, id);
    }
  }

  /** The "-" button never removes an item: it sets `max(1, q - 1)` on it. */
  lemma DecrementKeepsItem(cart: Cart, k: nat)
    requires Valid(cart) && k < |cart|
    ensures var r := UpdateQuantity(cart, cart[k].product.id, DecrementRequest(cart[k].quantity));
      |r| == |cart| && r[k].product == cart[k].product
      && r[k].quantity == if cart[k].quantity > 1 then cart[k].quantity - 1 else 1
  {
    UpdateAt(cart, cart[k].product.id, DecrementRequest(cart[k].quantity), k);
  }

  /** The "+" button on an item has the same effect on the cart as adding its product again. */
  lemma IncrementIsAdd(cart: Cart, k: nat)
    requires Valid(cart) && k < |cart|
    ensures UpdateQuantity(cart, cart[k].product.id, IncrementRequest(cart[k].quantity))
         == AddToCart(cart, cart[k].product)
  {
    UpdateAt(cart, cart[k].product.id, IncrementRequest(cart[k].quantity), k);
    AddExisting(cart, cart[k].product, k);
  }

  // ---- Lemmas: the aggregates ----

  lemma {:induction false} TotalAppend(a: Cart, b: Cart)
    ensures Total(a + b) == Total(a) + Total(b)
    decreases |b|
  {
    if b == [] {
      assert a + b == a;
    } else {
      var b' := b[..|b| - 1];
      assert (a + b)[..|a + b| - 1] == a + b';
      TotalAppend(a, b');
    }
  }

  lemma {:induction false} CartCountAppend(a: Cart, b: Cart)
    ensures CartCount(a + b) == CartCount(a) + CartCount(b)
    decreases |b|
  {
    if b == [] {
      assert a + b == a;
    } else {
      var b' := b[..|b| - 1];
      assert (a + b)[..|a + b| - 1] == a + b';
      CartCountAppend(a, b');
    }
  }

  /** Replacing one item changes the total by the difference of the two items' amounts. */
  lemma TotalReplace(cart: Cart, k: nat, item: CartItem)
    requires k < |cart|
    ensures Total(cart[k := item]) == Total(cart) - Amount(cart[k]) + Amount(item)
    ensures CartCount(cart[k := item]) == CartCount(cart) - cart[k].quantity + item.quantity
  {
    var pre, post := cart[..k], cart[k + 1..];
    assert cart == pre + [cart[k]] + post;
    assert cart[k := item] == pre + [item] + post;
    TotalAppend(pre + [cart[k]], post);
    TotalAppend(pre, [cart[k]]);
    TotalAppend(pre + [item], post);
    TotalAppend(pre, [item]);
    CartCountAppend(pre + [cart[k]], post);
    CartCountAppend(pre, [cart[k]]);
    CartCountAppend(pre + [item], post);
    CartCountAppend(pre, [item]);
  }

  /** One more of the item at `k` adds its price to the total and 1 to the count. */
  lemma OneMoreAggregates(cart: Cart, k: nat)
    requires k < |cart|
    ensures Total(cart[k := cart[k].(quantity := cart[k].quantity + 1)]) == Total(cart) + cart[k].product.prix
    ensures CartCount(cart[k := cart[k].(quantity := cart[k].quantity + 1)]) == CartCount(cart) + 1
  {
    TotalReplace(cart, k, cart[k].(quantity := cart[k].quantity + 1));
    AmountOneMore(cart[k]);
  }

  /** Adding a product already present raises the total by the price of the stored item and the count by 1. */
  lemma AddExistingAggregates(cart: Cart, p: Product, k: nat)
    requires UniqueIds(cart) && k < |cart| && cart[k].product.id == p.id
    ensures Total(AddToCart(cart, p)) == Total(cart) + cart[k].product.prix
    ensures CartCount(AddToCart(cart, p)) == CartCount(cart) + 1
  {
    AddExisting(cart, p, k);
    OneMoreAggregates(cart, k);
  }

  lemma AmountOneMore(item: CartItem)
    ensures Amount(item.(quantity := item.quantity + 1)) == Amount(item) + item.product.prix
  {
    var prix, q := item.product.prix, item.quantity;
    assert prix * (q + 1) == prix * q + prix;
  }

  /** Adding a new product raises the total by its price and the count by 1. */
  lemma AddNewAggregates(cart: Cart, p: Product)
    requires !HasId(cart, p.id)
    ensures Total(AddToCart(cart, p)) == Total(cart) + p.prix
    ensures CartCount(AddToCart(cart, p)) == CartCount(cart) + 1
  {
    AddNew(cart, p);
    TotalAppend(cart, [CartItem(p, 1)]);
    CartCountAppend(cart, [CartItem(p, 1)]);
  }

  /** Removing the item at `k` takes its amount off the total and its quantity off the count. */
  lemma RemoveAggregates(cart: Cart, k: nat)
    requires UniqueIds(cart) && k < |cart|
    ensures Total(RemoveFromCart(cart, cart[k].product.id)) == Total(cart) - Amount(cart[k])
    ensures CartCount(RemoveFromCart(cart, cart[k].product.id)) == CartCount(cart) - cart[k].quantity
  {
    RemoveAt(cart, cart[k].product.id, k);
    assert cart == cart[..k] + [cart[k]] + cart[k + 1..];
    TotalAppend(cart[..k] + [cart[k]], cart[k + 1..]);
    TotalAppend(cart[..k], [cart[k]]);
    TotalAppend(cart[..k], cart[k + 1..]);
    CartCountAppend(cart[..k] + [cart[k]], cart[k + 1..]);
    CartCountAppend(cart[..k], [cart[k]]);
    CartCountAppend(cart[..k], cart[k + 1..]);
  }

  /** Setting a positive quantity on the item at `k` replaces its amount in the total and its quantity in the count. */
  lemma UpdateAggregates(cart: Cart, k: nat, q: int)
    requires UniqueIds(cart) && k < |cart| && q > 0
    ensures Total(UpdateQuantity(cart, cart[k].product.id, q))
         == Total(cart) - Amount(cart[k]) + cart[k].product.prix * q
    ensures CartCount(UpdateQuantity(cart, cart[k].product.id, q)) == CartCount(cart) - cart[k].quantity + q
  {
    UpdateAt(cart, cart[k].product.id, q, k);
    TotalReplace(cart, k, cart[k].(quantity := q));
  }

  /** On a valid cart the count is at least the number of items, so the badge shows exactly when the cart is not empty. */
  lemma {:induction false} CartCountBounds(cart: Cart)
    requires PositiveQuantities(cart)
    ensures CartCount(cart) >= |cart|
    ensures CartCount(cart) > 0 <==> |cart| > 0
    decreases |cart|
  {
    if cart != [] {
      CartCountBounds(cart[..|cart| - 1]);
    }
  }

  /** `n` adds of a new product raise the total by `n` times its price. */
  lemma RepeatedAddTotal(cart: Cart, p: Product, n: nat)
    requires Valid(cart) && !HasId(cart, p.id) && n >= 1
    ensures Total(AddTimes(cart, p, n)) == Total(cart) + n * p.prix
    ensures CartCount(AddTimes(cart, p, n)) == CartCount(cart) + n
  {
    RepeatedAdd(cart, p, n);
    TotalAppend(cart, [CartItem(p, n)]);
    CartCountAppend(cart, [CartItem(p, n)]);
  }
}
