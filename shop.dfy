/**
  The storefront component's state: the selected category, the cart, whether
  the cart panel is open, and the client's contact details, replaced step by
  step by the event handlers. `saved` stands for the cart as last written to
  local storage, which happens after every change of the cart.
 */
module Shop {
  import opened Wrappers
  import opened Catalog
  import Cart
  import CatalogView
  import opened Checkout

  class ShopContent {
    /** The catalog the page was rendered with. */
    const products: seq<Product>
    var selectedCategory: string
    var cart: Cart.Cart
    var isCartOpen: bool
    var clientInfo: ClientInfo
    var saved: Cart.Cart

    /** The cart keeps one item per product id and no quantity below 1, and storage mirrors it. */
    ghost predicate Valid()
      reads this
    {
      Cart.Valid(cart) && saved == cart
    }

    /** The state on first render: every category, an empty closed cart, empty client fields. */
    constructor (products: seq<Product>)
      ensures Valid()
      ensures this.products == products
      ensures selectedCategory == CatalogView.AllCategories
      ensures cart == [] && saved == [] && !isCartOpen
      ensures clientInfo == EmptyClientInfo
    {
      this.products := products;
      selectedCategory := CatalogView.AllCategories;
      cart := [];
      isCartOpen := false;
      clientInfo := EmptyClientInfo;
      saved := [];
    }

    /** Adding a product: merges it into the cart, saves the cart, and opens the cart panel. */
    method AddToCart(p: Product)
      requires Valid()
      modifies this
      ensures Valid()
      ensures cart == Cart.AddToCart(old(cart), p)
      ensures isCartOpen
      ensures selectedCategory == old(selectedCategory) && clientInfo == old(clientInfo)
    {
      Cart.AddValid(cart, p);
      cart := Cart.AddToCart(cart, p);
      saved := cart;
      isCartOpen := true;
    }

    /** Removing a product: drops its item and saves the cart. */
    method RemoveFromCart(id: string)
      requires Valid()
      modifies this
      ensures Valid()
      ensures cart == Cart.RemoveFromCart(old(cart), id)
      ensures isCartOpen == old(isCartOpen)
      ensures selectedCategory == old(selectedCategory) && clientInfo == old(clientInfo)
    {
      Cart.RemoveValid(cart, id);
      cart := Cart.RemoveFromCart(cart, id);
      saved := cart;
    }

    /** Setting a quantity: removes the item for zero or less, else sets it; saves the cart. */
    method UpdateQuantity(id: string, quantity: int)
      requires Valid()
      modifies this
      ensures Valid()
      ensures cart == Cart.UpdateQuantity(old(cart), id, quantity)
      ensures quantity <= 0 ==> cart == Cart.RemoveFromCart(old(cart), id)
      ensures isCartOpen == old(isCartOpen)
      ensures selectedCategory == old(selectedCategory) && clientInfo == old(clientInfo)
    {
      if quantity <= 0 {
        RemoveFromCart(id);
        return;
      }
      Cart.UpdateValid(cart, id, quantity);
      cart := Cart.UpdateQuantity(cart, id, quantity);
      saved := cart;
    }

    /** Editing the client details: replaces the supplied fields. */
    method UpdateClientInfo(patch: ClientInfoPatch)
      requires Valid()
      modifies this
      ensures Valid()
      ensures clientInfo == Checkout.UpdateClientInfo(old(clientInfo), patch)
      ensures cart == old(cart) && isCartOpen == old(isCartOpen) && selectedCategory == old(selectedCategory)
    {
      clientInfo := Checkout.UpdateClientInfo(clientInfo, patch);
    }

    /** A category button (or "Toutes", which selects the sentinel). */
    method SelectCategory(category: string)
      requires Valid()
      modifies this
      ensures Valid()
      ensures selectedCategory == category
      ensures cart == old(cart) && isCartOpen == old(isCartOpen) && clientInfo == old(clientInfo)
    {
      selectedCategory := category;
    }

    /** The cart button, or the panel's close button and overlay. */
    method SetCartOpen(open: bool)
      requires Valid()
      modifies this
      ensures Valid()
      ensures isCartOpen == open
      ensures cart == old(cart) && selectedCategory == old(selectedCategory) && clientInfo == old(clientInfo)
    {
      isCartOpen := open;
    }

    /** The total shown in the cart panel. */
    function Total(): int
      reads this
    {
      Cart.Total(cart)
    }

    /** The badge on the cart button; with no quantity below 1 it shows exactly when the cart has items. */
    function CartCount(): (c: int)
      reads this
      ensures Cart.PositiveQuantities(cart) ==> c >= |cart| && (c > 0 <==> |cart| > 0)
    {
      if Cart.PositiveQuantities(cart) then
        Cart.CartCountBounds(cart);
        Cart.CartCount(cart)
      else
        Cart.CartCount(cart)
    }

    /** The products in the grid: the whole catalog for the sentinel, else only products of the selected category. */
    function FilteredProducts(): (ps: seq<Product>)
      reads this
      ensures selectedCategory == CatalogView.AllCategories ==> ps == products
      ensures selectedCategory != CatalogView.AllCategories ==> forall p :: p in ps <==> p in products && p.categorie == selectedCategory
    {
      CatalogView.FilteredProducts(products, selectedCategory)
    }

    /** The category buttons. */
    function Categories(): seq<string>
    {
      CatalogView.Categories(products)
    }

    /** Pressing the checkout button: the WhatsApp link to open, or nothing while the
        button is hidden (panel closed or cart empty) or disabled (a client field empty). */
    method WhatsAppCheckout() returns (url: Option<string>)
      ensures url.Some? <==> CheckoutVisible(cart, isCartOpen) && CheckoutEnabled(clientInfo)
      ensures url.Some? ==> url.value == WhatsAppUrl(cart, clientInfo)
    {
      if isCartOpen && |cart| > 0 && clientInfo.nomComplet != "" && clientInfo.localisation != "" {
        url := Some(WhatsAppUrl(cart, clientInfo));
      } else {
        url := None;
      }
    }
  }
}
