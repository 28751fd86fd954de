# Shopping-cart state manager, modelled in Dafny

This project models the cart of a small storefront client. The cart is an ordered list of
products, each with a quantity. Three operations change it: add a product, remove a
product, and set a product's quantity. Adding and setting a quantity consult the remote
catalog and stock services. After every successful change the whole cart is written to
local storage, and on start-up the cart is read back from there. The storefront page also
derives a map from product id to quantity, which it shows as a badge on each product.

Files:

- `types.dfy` (module `Types`): the product records of `src/types.ts` and an `Option` type.
- `cart_steps.dfy` (module `CartSteps`): each operation as a pure transition on the cart
  sequence. A `Step` holds the new cart, the `Outcome` and whether storage was rewritten.
  The `Outcome` is the notification the operation ends with, and `Ok` means none is shown.
  Also here: the first-match search, the removal filter and the cart invariant `WellFormed`
  (ids are unique and every quantity is at least 1).
- `cart_properties.dfy` (module `CartProperties`): what the operations promise, proved
  about those transitions.
- `use_cart.dfy` (module `UseCart`): the state manager as a class, `CartProvider`. Its
  fields are `cart` and `stored`; `stored` stands for the storage key and is `None` until
  something is written. Each method works step by step, as the source does: it scans for
  the first match with a loop, then appends, filters or replaces the entry at that index,
  then writes storage. Each method is proved to end in the state its transition gives, and
  to keep the invariant. `Scenario` is a client: add a product, change its quantity, hit
  the stock limit, restart from storage, then remove the product twice.
- `home.dfy` (module `Home`): the badge map, a left fold over the cart, and its lookup,
  which defaults to 0.

The catalog and stock replies are parameters of the operations. `None` stands for a network
failure or a not-found reply. Nested calls get the same replies. For example, adding a
product that is already in the cart calls the quantity update with the stock reply it was
given. Setting the quantity of a product that is not in the cart falls through to adding
it. The model keeps that behaviour: the requested quantity is dropped and the new item has
quantity 1.

A newly added item copies every field of the catalog reply, including its id. This
is what `{ ...product, amount: 1 }` does. So adding and updating keep ids unique only when
the catalog describes the product that was asked for (`CatalogAgrees`). The
invariant-preservation lemmas and method contracts say exactly that.

## Model

| member | source | states |
|---|---|---|
| `UseCart.CartProvider.constructor` | src/hooks/useCart.tsx:32-40 | the initial cart is the stored snapshot when one exists and the empty cart otherwise; storage is left as found |
| `UseCart.CartProvider.UpdateStoredCart` | src/hooks/useCart.tsx:42-44 | storage afterwards holds exactly the given cart |
| `UseCart.CartProvider.FindProduct` | src/hooks/useCart.tsx:105-112 | the scan's recorded index is the first index whose id matches, or -1; it is non-negative exactly when the product is in the cart |
| `UseCart.CartProvider.AppendFromCatalog` | src/hooks/useCart.tsx:58-69 | with a catalog reply, the cart gains the entry with quantity 1 and is persisted; without one, nothing changes and the outcome is "addition failed" |
| `UseCart.CartProvider.AddProductToCart` | src/hooks/useCart.tsx:46-70 | the new cart, outcome and storage are those of the add transition; storage is rewritten only on success; the invariant is kept when the catalog agrees |
| `UseCart.CartProvider.RemoveProductFromCart` | src/hooks/useCart.tsx:72-89 | the new cart, outcome and storage are those of the remove transition; the invariant is kept |
| `UseCart.CartProvider.UpdateProductAmount` | src/hooks/useCart.tsx:91-131 | the new cart, outcome and storage are those of the update transition, including the guards and the fall-through to adding; the invariant is kept when the catalog agrees |
| `CartSteps.FirstIndex` | src/hooks/useCart.tsx:106-112 | the result is -1 or an index holding the id, and no earlier index holds it (none at all when -1) |
| `CartProperties.WithoutMembers` | src/hooks/useCart.tsx:77 | an item survives the removal filter exactly when it was in the cart and has another id |
| `CartProperties.WithoutConcat` | src/hooks/useCart.tsx:77 | the filter distributes over concatenation, so survivors keep their relative order |
| `CartProperties.WithoutLength` | src/hooks/useCart.tsx:77 | the filter shortens the cart by the number of items with the id |
| `CartProperties.CountUnique` | src/hooks/useCart.tsx:74-77 | with unique ids, a product occurs once if present and not at all otherwise |
| `CartProperties.WithoutWellFormed` | src/hooks/useCart.tsx:77 | the filter keeps ids unique and quantities positive |
| `CartProperties.WithoutDropsAll` | src/hooks/useCart.tsx:77 | no item with the id is left after the filter |
| `CartProperties.AddNewAppends` | src/hooks/useCart.tsx:58-62 | adding an absent product with a catalog reply appends one item, the reply's fields with quantity 1, at the end; earlier items are unchanged and in order; storage is written |
| `CartProperties.AddCatalogFailure` | src/hooks/useCart.tsx:58-69 | adding an absent product when the catalog fails leaves the cart, reports "addition failed" and writes nothing |
| `CartProperties.AddExistingDelegates` | src/hooks/useCart.tsx:48-55 | adding a present product is the quantity update to the first match's quantity plus one |
| `CartProperties.AddExistingIncrements` | src/hooks/useCart.tsx:48-55 | in a well-formed cart, adding a present product raises its quantity by one and changes nothing else if the stock allows; otherwise the cart is unchanged and the outcome is "out of stock" |
| `CartProperties.UpdateIgnoresNonPositive` | src/hooks/useCart.tsx:95 | a quantity of zero or less changes nothing, notifies nothing and writes nothing |
| `CartProperties.UpdateGuards` | src/hooks/useCart.tsx:98-103 | a failed stock query gives "update failed" and a quantity above the stock gives "out of stock"; both leave the cart and storage unchanged |
| `CartProperties.UpdateInPlace` | src/hooks/useCart.tsx:105-122 | within stock, the first match is replaced at its index by the same item with the new quantity; the length and all other indices are unchanged; storage is written |
| `CartProperties.UpdateAbsentAddsOne` | src/hooks/useCart.tsx:126 | within stock, an absent product is appended with quantity 1 whatever quantity was asked; without a catalog reply the addition fails and nothing changes |
| `CartProperties.RemovePresent` | src/hooks/useCart.tsx:74-81 | removing a present product leaves exactly the items with other ids, in order; the length drops by the number of matches; storage is written |
| `CartProperties.RemoveShortensByOne` | src/hooks/useCart.tsx:74-81 | in a well-formed cart, removing a present product shortens it by exactly one |
| `CartProperties.RemoveAbsent` | src/hooks/useCart.tsx:84-88 | removing an absent product changes nothing, reports "removal failed" and writes nothing |
| `CartProperties.RemoveTwice` | src/hooks/useCart.tsx:72-89 | a second removal of the same product is a failing no-op on the first removal's result |
| `CartProperties.OperationsAreAtomic` | src/hooks/useCart.tsx:46-131 | for all three operations, with storage writes succeeding, any reported failure leaves the cart unchanged, and storage is rewritten only on success |
| `CartProperties.AppendWellFormed` | src/hooks/useCart.tsx:59-62 | appending a catalog entry whose id is not yet in the cart keeps the invariant |
| `CartProperties.UpdatePreservesWellFormed` | src/hooks/useCart.tsx:91-131 | the quantity update keeps ids unique and quantities at least 1, when the catalog agrees |
| `CartProperties.AddPreservesWellFormed` | src/hooks/useCart.tsx:46-70 | adding keeps ids unique and quantities at least 1, when the catalog agrees |
| `CartProperties.RemovePreservesWellFormed` | src/hooks/useCart.tsx:72-89 | removing keeps ids unique and quantities at least 1 |
| `Home.ReduceKeys` | src/pages/Home/index.tsx:46-51 | the fold's keys are the starting map's keys plus the ids of the items |
| `Home.ReduceKeepsOthers` | src/pages/Home/index.tsx:47-50 | a key that no item carries keeps its value through the fold |
| `Home.ReduceLastWins` | src/pages/Home/index.tsx:47-50 | the last item with an id decides that id's value |
| `Home.BadgeKeys` | src/pages/Home/index.tsx:46-51 | the badge map's key set is exactly the set of ids in the cart |
| `Home.BadgeLastOccurrence` | src/pages/Home/index.tsx:46-51 | an id that occurs more than once shows the quantity of its last occurrence |
| `Home.BadgeOfItem` | src/pages/Home/index.tsx:46-51 | with unique ids, every item's badge shows its quantity |
| `Home.BadgeOfAbsent` | src/pages/Home/index.tsx:67 | a product not in the cart shows 0 |

## Left out

- React wiring is not modelled: the context, the provider element and the `useCart` hook (src/hooks/useCart.tsx:29,133-151). It is framework plumbing.
- Notifications are not modelled. Each operation returns the kind of message it would show as an `Outcome`.
- Requests to the `products/` and `stock/` endpoints are not modelled. Their replies are parameters, and `None` stands for any failure. The stock reply's own id is not read, as in the source.
- JSON encoding and local storage are not modelled. Storage is an optional list, and encoding is taken to round-trip.
- A malformed snapshot is not modelled. `src/hooks/useCart.tsx:35-36` calls `JSON.parse` without a guard, so one would throw during hydration.
- Storage writes are assumed to succeed. In the source the write runs inside each operation's `try`, after the cart in memory has been replaced (src/hooks/useCart.tsx:64-65,79-80,121-122). A throwing write (a full quota, say) therefore leaves the new cart in memory, keeps the old snapshot and shows the operation's failure message. The method contracts do not cover that case.
- CartProperties.OperationsAreAtomic: holds only when storage writes succeed. With a throwing write, the source reports a failure after the cart has changed.
- The model does not capture interleaving across `await` points. It also does not capture the inner calls that are not awaited (src/hooks/useCart.tsx:51,126). Operations run one after another.
- JavaScript numbers are modelled as unbounded integers. Fractional, NaN and infinite ids or quantities are not modelled. Prices are reals that are only copied.
- `src/App.tsx` is not modelled (routing, header, styles, notification container). The rest of the storefront page is not modelled either: product loading, price formatting and rendering.
