/** What the cart operations of src/hooks/useCart.tsx promise, proved about the
    transitions of module CartSteps. */
module CartProperties {
  import opened Types
  import opened CartSteps

  /** An operation either succeeds and writes the cart to storage, or leaves the cart as it was. */
  predicate Atomic(before: seq<Product>, s: Step)
  {
    && (s.outcome != Ok ==> s.cart == before && !s.persisted)
    && (!s.persisted ==> s.cart == before)
  }

  // ----- the filter used by removal -----

  /** Filtering keeps exactly the items with another id. */
  lemma {:induction false} WithoutMembers(cart: seq<Product>, id: int, x: Product)
    ensures x in Without(cart, id) <==> x in cart && x.id != id
  {
    if cart != [] {
      WithoutMembers(cart[1..], id, x);
      assert cart == [cart[0]] + cart[1..];
    }
  }

  /** Filtering distributes over concatenation, so survivors keep their relative order. */
  lemma {:induction false} WithoutConcat(a: seq<Product>, b: seq<Product>, id: int)
    ensures Without(a + b, id) == Without(a, id) + Without(b, id)
  {
    if a == [] {
      assert a + b == b;
    } else {
      assert (a + b)[1..] == a[1..] + b;
      WithoutConcat(a[1..], b, id);
    }
  }

  /** Filtering removes exactly as many items as carry the id. */
  lemma {:induction false} WithoutLength(cart: seq<Product>, id: int)
    ensures |Without(cart, id)| == |cart| - Count(cart, id)
  {
    if cart != [] {
      WithoutLength(cart[1..], id);
    }
  }

  /** In a cart with unique ids, a product that is present occurs exactly once. */
  lemma {:induction false} CountUnique(cart: seq<Product>, id: int)
    requires UniqueIds(cart)
    ensures Count(cart, id) == if InCart(cart, id) then 1 else 0
  {
    if cart != [] {
      assert UniqueIds(cart[1..]) by {
        forall i, j | 0 <= i < j < |cart[1..]| ensures cart[1..][i].id != cart[1..][j].id {
          assert cart[1..][i] == cart[i + 1] && cart[1..][j] == cart[j + 1];
        }
      }
      CountUnique(cart[1..], id);
      if cart[0].id == id {
        assert !InCart(cart[1..], id) by {
          forall i | 0 <= i < |cart[1..]| ensures cart[1..][i].id != id {
            assert cart[1..][i] == cart[i + 1];
          }
        }
      } else {
        assert InCart(cart, id) == InCart(cart[1..], id) by {
          if InCart(cart, id) {
            var i :| 0 <= i < |cart| && cart[i].id == id;
            assert cart[1..][i - 1] == cart[i];
          }
          if InCart(cart[1..], id) {
            var i :| 0 <= i < |cart[1..]| && cart[1..][i].id == id;
            assert cart[i + 1] == cart[1..][i];
          }
        }
      }
    }
  }

  /** Filtering keeps the cart's invariant. */
  lemma {:induction false} WithoutWellFormed(cart: seq<Product>, id: int)
    requires WellFormed(cart)
    ensures WellFormed(Without(cart, id))
  {
    if cart != [] {
      var rest := cart[1..];
      assert WellFormed(rest) by {
        forall i, j | 0 <= i < j < |rest| ensures rest[i].id != rest[j].id {
          assert rest[i] == cart[i + 1] && rest[j] == cart[j + 1];
        }
        forall i | 0 <= i < |rest| ensures rest[i].amount >= 1 {
          assert rest[i] == cart[i + 1];
        }
      }
      WithoutWellFormed(rest, id);
      var tail := Without(rest, id);
      if cart[0].id != id {
        var r := [cart[0]] + tail;
        forall j | 0 < j < |r| ensures r[0].id != r[j].id {
          assert r[j] == tail[j - 1];
          WithoutMembers(rest, id, tail[j - 1]);
          var m :| 0 <= m < |rest| && rest[m] == tail[j - 1];
          assert rest[m] == cart[m + 1];
        }
        assert forall i, j :: 0 < i < j < |r| ==> r[i] == tail[i - 1] && r[j] == tail[j - 1];
      }
    }
  }

  /** After the filter no item carries the id. */
  lemma WithoutDropsAll(cart: seq<Product>, id: int)
    ensures !InCart(Without(cart, id), id)
  {
    var r := Without(cart, id);
    forall i | 0 <= i < |r| ensures r[i].id != id {
      WithoutMembers(cart, id, r[i]);
    }
  }

  // ----- addProductToCart -----

  /** Adding a product not yet in the cart, with the catalog answering, appends exactly one
      item: the catalog entry with quantity 1, after all earlier items, which are unchanged. */
  lemma AddNewAppends(cart: seq<Product>, id: int, p: ProductDisplay, stock: Option<Stock>)
    requires !InCart(cart, id)
    ensures var s := AddStep(cart, id, Some(p), stock);
      && |s.cart| == |cart| + 1 && s.cart[..|cart|] == cart
      && s.cart[|cart|] == Product(p.id, p.title, p.price, p.image, 1)
      && s.outcome == Ok && s.persisted
  {
    var s := AddStep(cart, id, Some(p), stock);
    assert s.cart == cart + [WithAmount(p, 1)];
  }

  /** Adding a product not in the cart when the catalog fails changes nothing. */
  lemma AddCatalogFailure(cart: seq<Product>, id: int, stock: Option<Stock>)
    requires !InCart(cart, id)
    ensures AddStep(cart, id, None, stock) == Step(cart, AddFailed, false)
  {
  }

  /** Adding a product already in the cart is the quantity update to one more than the
      first matching item's quantity, stock check included. */
  lemma AddExistingDelegates(cart: seq<Product>, id: int, k: int,
                             product: Option<ProductDisplay>, stock: Option<Stock>)
    requires 0 <= k < |cart| && cart[k].id == id
    requires forall j :: 0 <= j < k ==> cart[j].id != id
    ensures AddStep(cart, id, product, stock) == UpdateStep(cart, id, cart[k].amount + 1, stock, product)
  {
  }

  /** In a well-formed cart, adding a product that is present raises its quantity by one
      when the stock allows it, and reports insufficient stock otherwise. */
  lemma AddExistingIncrements(cart: seq<Product>, id: int, k: int,
                              product: Option<ProductDisplay>, st: Stock)
    requires WellFormed(cart)
    requires 0 <= k < |cart| && cart[k].id == id
    ensures var s := AddStep(cart, id, product, Some(st));
      if cart[k].amount + 1 <= st.amount then
        && s.cart == cart[k := cart[k].(amount := cart[k].amount + 1)]
        && s.outcome == Ok && s.persisted
      else s == Step(cart, OutOfStock, false)
  {
    assert FirstIndex(cart, id) == k;
  }

  // ----- updateProductAmount -----

  /** A quantity of zero or less is silently ignored. */
  lemma UpdateIgnoresNonPositive(cart: seq<Product>, id: int, amount: int,
                                 stock: Option<Stock>, product: Option<ProductDisplay>)
    requires amount <= 0
    ensures UpdateStep(cart, id, amount, stock, product) == Step(cart, Ok, false)
  {
  }

  /** A failed stock query, or a quantity above the stock, leaves the cart unchanged. */
  lemma UpdateGuards(cart: seq<Product>, id: int, amount: int,
                     stock: Option<Stock>, product: Option<ProductDisplay>)
    requires amount > 0
    ensures stock.None? ==> UpdateStep(cart, id, amount, stock, product) == Step(cart, UpdateFailed, false)
    ensures stock.Some? && amount > stock.value.amount ==>
      UpdateStep(cart, id, amount, stock, product) == Step(cart, OutOfStock, false)
  {
  }

  /** Within stock, the first item with the id is replaced at the same index by the same
      item carrying the new quantity; length and every other index are unchanged. */
  lemma UpdateInPlace(cart: seq<Product>, id: int, amount: int, st: Stock,
                      product: Option<ProductDisplay>, k: int)
    requires 0 < amount <= st.amount
    requires 0 <= k < |cart| && cart[k].id == id
    requires forall j :: 0 <= j < k ==> cart[j].id != id
    ensures var s := UpdateStep(cart, id, amount, Some(st), product);
      && |s.cart| == |cart|
      && s.cart[k] == Product(id, cart[k].title, cart[k].price, cart[k].image, amount)
      && (forall j :: 0 <= j < |cart| && j != k ==> s.cart[j] == cart[j])
      && s.outcome == Ok && s.persisted
  {
    assert FirstIndex(cart, id) == k;
  }

  /** Within stock, a product not in the cart is added instead, with quantity 1 whatever
      quantity was asked for; without a catalog entry the addition fails. */
  lemma UpdateAbsentAddsOne(cart: seq<Product>, id: int, amount: int, st: Stock,
                            product: Option<ProductDisplay>)
    requires 0 < amount <= st.amount
    requires !InCart(cart, id)
    ensures var s := UpdateStep(cart, id, amount, Some(st), product);
      match product
      case None => s == Step(cart, AddFailed, false)
      case Some(p) =>
        && s.cart == cart + [WithAmount(p, 1)] && s.cart[|cart|].amount == 1
        && s.outcome == Ok && s.persisted
  {
    assert FirstIndex(cart, id) == -1;
  }

  // ----- removeProductFromCart -----

  /** Removing a product that is present filters it out: the survivors are exactly the
      items with another id, in their old order, and the length drops by the number of matches. */
  lemma RemovePresent(cart: seq<Product>, id: int)
    requires InCart(cart, id)
    ensures var s := RemoveStep(cart, id);
      && s.cart == Without(cart, id)
      && |s.cart| == |cart| - Count(cart, id)
      && (forall x :: x in s.cart <==> x in cart && x.id != id)
      && !InCart(s.cart, id)
      && s.outcome == Ok && s.persisted
  {
    WithoutLength(cart, id);
    forall x ensures x in Without(cart, id) <==> x in cart && x.id != id {
      WithoutMembers(cart, id, x);
    }
    WithoutDropsAll(cart, id);
  }

  /** In a well-formed cart, removing a present product shortens the cart by exactly one. */
  lemma RemoveShortensByOne(cart: seq<Product>, id: int)
    requires WellFormed(cart) && InCart(cart, id)
    ensures |RemoveStep(cart, id).cart| == |cart| - 1
  {
    WithoutLength(cart, id);
    CountUnique(cart, id);
  }

  /** Removing a product that is absent changes nothing and reports the failure. */
  lemma RemoveAbsent(cart: seq<Product>, id: int)
    requires !InCart(cart, id)
    ensures RemoveStep(cart, id) == Step(cart, RemoveFailed, false)
  {
  }

  /** A second removal of the same product changes nothing. */
  lemma RemoveTwice(cart: seq<Product>, id: int)
    ensures var first := RemoveStep(cart, id);
      RemoveStep(first.cart, id) == Step(first.cart, RemoveFailed, false)
  {
    WithoutDropsAll(cart, id);
  }

  // ----- persistence and invariants -----

  /** Every operation either succeeds and persists, or leaves the cart as it was. */
  lemma OperationsAreAtomic(cart: seq<Product>, id: int, amount: int,
                            product: Option<ProductDisplay>, stock: Option<Stock>)
    ensures Atomic(cart, AddStep(cart, id, product, stock))
    ensures Atomic(cart, UpdateStep(cart, id, amount, stock, product))
    ensures Atomic(cart, RemoveStep(cart, id))
  {
  }

  lemma AppendWellFormed(cart: seq<Product>, p: ProductDisplay)
    requires WellFormed(cart) && !InCart(cart, p.id)
    ensures WellFormed(cart + [WithAmount(p, 1)])
  {
    var r := cart + [WithAmount(p, 1)];
    assert forall i :: 0 <= i < |cart| ==> r[i] == cart[i];
  }

  /** A quantity update keeps ids unique and quantities positive. */
  lemma UpdatePreservesWellFormed(cart: seq<Product>, id: int, amount: int,
                                  stock: Option<Stock>, product: Option<ProductDisplay>)
    requires WellFormed(cart) && CatalogAgrees(id, product)
    ensures WellFormed(UpdateStep(cart, id, amount, stock, product).cart)
  {
    var k := FirstIndex(cart, id);
    if 0 < amount && stock.Some? && amount <= stock.value.amount {
      if 0 <= k {
        var r := cart[k := cart[k].(amount := amount)];
        assert forall i :: 0 <= i < |r| ==> r[i].id == cart[i].id;
      } else if product.Some? {
        AppendWellFormed(cart, product.value);
      }
    }
  }

  /** Adding keeps ids unique and quantities positive. */
  lemma AddPreservesWellFormed(cart: seq<Product>, id: int,
                               product: Option<ProductDisplay>, stock: Option<Stock>)
    requires WellFormed(cart) && CatalogAgrees(id, product)
    ensures WellFormed(AddStep(cart, id, product, stock).cart)
  {
    var k := FirstIndex(cart, id);
    if 0 <= k {
      UpdatePreservesWellFormed(cart, id, cart[k].amount + 1, stock, product);
    } else if product.Some? {
      AppendWellFormed(cart, product.value);
    }
  }

  /** Removing keeps ids unique and quantities positive. */
  lemma RemovePreservesWellFormed(cart: seq<Product>, id: int)
    requires WellFormed(cart)
    ensures WellFormed(RemoveStep(cart, id).cart)
  {
    WithoutWellFormed(cart, id);
  }
}
