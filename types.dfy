/** The records the cart works with (src/types.ts). */
module Types {

  datatype Option<+T> = None | Some(value: T)

  /** A catalog entry as the store serves it: a cart item without its quantity.
      The price is a number the cart copies and never computes with. */
  datatype ProductDisplay = ProductDisplay(id: int, title: string, price: real, image: string)

  /** A cart item: a catalog entry together with the quantity the shopper wants. */
  datatype Product = Product(id: int, title: string, price: real, image: string, amount: int)

  /** The stock service's reply: how many units of a product are available. */
  datatype Stock = Stock(id: int, amount: int)

  /** `{ ...product, amount }`: the catalog entry's fields plus a quantity. */
  function WithAmount(p: ProductDisplay, amount: int): Product
  {
    Product(p.id, p.title, p.price, p.image, amount)
  }
}
