/** The cart state manager of src/hooks/useCart.tsx: the cart held in memory, its copy in
    local storage, and the three operations that change both. Catalog and stock replies are
    parameters (None stands for a failed or missing reply); the notification an operation
    would show is its returned Outcome. */
module UseCart {
  import opened Types
  import opened CartSteps
  import CartProperties

  class CartProvider {
    /** The cart as the shopper sees it. */
    var cart: seq<Product>
    /** The snapshot under the cart's storage key; None while nothing was written. */
    var stored: Option<seq<Product>>

    /** Initial hydration: the stored snapshot if there is one, the empty cart otherwise. */
    constructor (snapshot: Option<seq<Product>>)
      ensures cart == (if snapshot.Some? then snapshot.value else [])
      ensures stored == snapshot
    {
      if snapshot.Some? {
        cart := snapshot.value;
      } else {
        cart := [];
      }
      stored := snapshot;
    }

    /** Overwrites the snapshot with the whole cart. */
    method UpdateStoredCart(updated: seq<Product>)
      modifies this`stored
      ensures stored == Some(updated)
    {
      stored := Some(updated);
    }

    /** The scan behind `cart.find`, recording the index of the first match in `productIndex`. */
    method FindProduct(productId: int) returns (productIndex: int)
      ensures productIndex == FirstIndex(cart, productId)
      ensures 0 <= productIndex <==> InCart(cart, productId)
    {
      productIndex := -1;
      var i := 0;
      while i < |cart| && productIndex < 0
        invariant 0 <= i <= |cart|
        invariant -1 <= productIndex < i
        invariant productIndex < 0 ==> forall j :: 0 <= j < i ==> cart[j].id != productId
        invariant 0 <= productIndex ==> cart[productIndex].id == productId
        invariant forall j :: 0 <= j < productIndex ==> cart[j].id != productId
      {
        if cart[i].id == productId {
          productIndex := i;
        }
        i := i + 1;
      }
    }

    /** Lines 58-69 of addProductToCart: fetch the catalog entry and append it with quantity 1. */
    method AppendFromCatalog(product: Option<ProductDisplay>) returns (r: Outcome)
      modifies this
      ensures var s := AppendStep(old(cart), product);
        cart == s.cart && r == s.outcome && stored == (if s.persisted then Some(cart) else old(stored))
    {
      if product.None? {
        return AddFailed;
      }
      var updatedCart := cart + [WithAmount(product.value, 1)];
      cart := updatedCart;
      UpdateStoredCart(updatedCart);
      r := Ok;
    }

    method AddProductToCart(productId: int, product: Option<ProductDisplay>, stock: Option<Stock>)
      returns (r: Outcome)
      modifies this
      ensures var s := AddStep(old(cart), productId, product, stock);
        cart == s.cart && r == s.outcome && stored == (if s.persisted then Some(cart) else old(stored))
      ensures old(WellFormed(cart)) && CatalogAgrees(productId, product) ==> WellFormed(cart)
    {
      ghost var before := cart;
      var productIndex := FindProduct(productId);
      if 0 <= productIndex {
        r := UpdateProductAmount(productId, cart[productIndex].amount + 1, stock, product);
      } else {
        r := AppendFromCatalog(product);
      }
      if WellFormed(before) && CatalogAgrees(productId, product) {
        CartProperties.AddPreservesWellFormed(before, productId, product, stock);
      }
    }

    method RemoveProductFromCart(productId: int) returns (r: Outcome)
      modifies this
      ensures var s := RemoveStep(old(cart), productId);
        cart == s.cart && r == s.outcome && stored == (if s.persisted then Some(cart) else old(stored))
      ensures old(WellFormed(cart)) ==> WellFormed(cart)
    {
      ghost var before := cart;
      var productIndex := FindProduct(productId);
      if 0 <= productIndex {
        var updatedCart := Without(cart, productId);
        cart := updatedCart;
        UpdateStoredCart(updatedCart);
        r := Ok;
      } else {
        r := RemoveFailed;
      }
      if WellFormed(before) {
        CartProperties.RemovePreservesWellFormed(before, productId);
      }
    }

    method UpdateProductAmount(productId: int, amount: int,
                               stock: Option<Stock>, product: Option<ProductDisplay>)
      returns (r: Outcome)
      modifies this
      ensures var s := UpdateStep(old(cart), productId, amount, stock, product);
        cart == s.cart && r == s.outcome && stored == (if s.persisted then Some(cart) else old(stored))
      ensures old(WellFormed(cart)) && CatalogAgrees(productId, product) ==> WellFormed(cart)
    {
      ghost var before := cart;
      if WellFormed(before) && CatalogAgrees(productId, product) {
        CartProperties.UpdatePreservesWellFormed(before, productId, amount, stock, product);
      }
      if amount <= 0 {
        return Ok;
      }
      if stock.None? {
        return UpdateFailed;
      }
      if amount > stock.value.amount {
        return OutOfStock;
      }
      var productIndex := FindProduct(productId);
      if 0 <= productIndex {
        // `splice` on a copy: the same item with the new quantity, at the same index
        var updatedCart := cart[productIndex := cart[productIndex].(amount := amount)];
        cart := updatedCart;
        UpdateStoredCart(updatedCart);
        r := Ok;
      } else {
        r := AppendFromCatalog(product);
      }
    }
  }

  /** A shopper's session: add a shoe, raise it to 3, fail to raise it past the stock,
      remove it, then restart from what storage holds. */
  method Scenario()
  {
    var shoe := ProductDisplay(7, "Shoe", 99.9, "x");
    var provider := new CartProvider(None);
    assert provider.cart == [];

    var r := provider.AddProductToCart(7, Some(shoe), None);
    assert r == Ok && provider.cart == [Product(7, "Shoe", 99.9, "x", 1)];

    r := provider.UpdateProductAmount(7, 3, Some(Stock(7, 5)), None);
    assert r == Ok && provider.cart == [Product(7, "Shoe", 99.9, "x", 3)];

    r := provider.UpdateProductAmount(7, 10, Some(Stock(7, 5)), None);
    assert r == OutOfStock && provider.cart == [Product(7, "Shoe", 99.9, "x", 3)];
    assert provider.stored == Some(provider.cart);

    var restarted := new CartProvider(provider.stored);
    assert restarted.cart == provider.cart;

    ghost var three := provider.cart;
    r := provider.RemoveProductFromCart(7);
    assert Without(three[1..], 7) == [];
    assert r == Ok && provider.cart == [];
    r := provider.RemoveProductFromCart(7);
    assert r == RemoveFailed && provider.cart == [] && provider.stored == Some([]);
  }
}
