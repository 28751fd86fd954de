/** The cart operations of src/hooks/useCart.tsx as pure transitions on the cart sequence.
    Each transition says what the cart becomes, which notification (if any) the shopper sees,
    and whether the whole cart is written back to storage. The class in module UseCart
    implements these step by step and is proved against them. */
module CartSteps {
  import opened Types

  /** The notification an operation ends with; Ok means that none is shown. */
  datatype Outcome = Ok | AddFailed | RemoveFailed | UpdateFailed | OutOfStock

  /** The cart after an operation, its outcome, and whether storage was rewritten. */
  datatype Step = Step(cart: seq<Product>, outcome: Outcome, persisted: bool)

  /** A successful mutation: the new cart is also written to storage. */
  function Saved(cart: seq<Product>): Step
  {
    Step(cart, Ok, true)
  }

  predicate InCart(cart: seq<Product>, id: int)
  {
    exists i :: 0 <= i < |cart| && cart[i].id == id
  }

  /** At most one item per product id. */
  predicate UniqueIds(cart: seq<Product>)
  {
    forall i, j :: 0 <= i < j < |cart| ==> cart[i].id != cart[j].id
  }

  /** The cart's invariant: ids are unique and every quantity is at least 1. */
  predicate WellFormed(cart: seq<Product>)
  {
    UniqueIds(cart) && forall i :: 0 <= i < |cart| ==> cart[i].amount >= 1
  }

  /** The catalog's reply, when there is one, describes the product that was asked for. */
  predicate CatalogAgrees(id: int, product: Option<ProductDisplay>)
  {
    product.Some? ==> product.value.id == id
  }

  /** `cart.find(({ id }) => id === productId)`: the index of the first item with this id,
      or -1 when there is none. */
  function FirstIndex(cart: seq<Product>, id: int): (k: int)
    ensures -1 <= k < |cart|
    ensures 0 <= k ==> cart[k].id == id
    ensures forall j :: 0 <= j < |cart| && (k < 0 || j < k) ==> cart[j].id != id
  {
    if cart == [] then -1
    else if cart[0].id == id then 0
    else
      var k := FirstIndex(cart[1..], id);
      if k < 0 then -1 else k + 1
  }

  /** `cart.filter(({ id }) => id !== productId)`. */
  function Without(cart: seq<Product>, id: int): seq<Product>
  {
    if cart == [] then []
    else (if cart[0].id == id then [] else [cart[0]]) + Without(cart[1..], id)
  }

  /** How many items carry this id. */
  function Count(cart: seq<Product>, id: int): nat
  {
    if cart == [] then 0
    else (if cart[0].id == id then 1 else 0) + Count(cart[1..], id)
  }

  /** The second half of addProductToCart: fetch the catalog entry and append it with
      quantity 1, or report that the addition failed. */
  function AppendStep(cart: seq<Product>, product: Option<ProductDisplay>): Step
  {
    match product
    case None => Step(cart, AddFailed, false)
    case Some(p) => Saved(cart + [WithAmount(p, 1)])
  }

  /** updateProductAmount: ignore non-positive amounts, check the stock, then replace the
      item's quantity in place or, for a product not in the cart, fall through to adding it. */
  function UpdateStep(cart: seq<Product>, id: int, amount: int,
                      stock: Option<Stock>, product: Option<ProductDisplay>): Step
  {
    if amount <= 0 then Step(cart, Ok, false)
    else if stock.None? then Step(cart, UpdateFailed, false)
    else if amount > stock.value.amount then Step(cart, OutOfStock, false)
    else
      var k := FirstIndex(cart, id);
      if 0 <= k then Saved(cart[k := cart[k].(amount := amount)])
      else AppendStep(cart, product)
  }

  /** addProductToCart: one more of a product already in the cart goes through the
      quantity update; a new product is fetched and appended. */
  function AddStep(cart: seq<Product>, id: int,
                   product: Option<ProductDisplay>, stock: Option<Stock>): Step
  {
    var k := FirstIndex(cart, id);
    if 0 <= k then UpdateStep(cart, id, cart[k].amount + 1, stock, product)
    else AppendStep(cart, product)
  }

  /** removeProductFromCart: drop every item with this id, or report that it is not there. */
  function RemoveStep(cart: seq<Product>, id: int): Step
  {
    if 0 <= FirstIndex(cart, id) then Saved(Without(cart, id))
    else Step(cart, RemoveFailed, false)
  }
}
