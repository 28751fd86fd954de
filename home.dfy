/** The quantity badges of src/pages/Home/index.tsx: a map from product id to the quantity
    in the cart, built by folding over the cart, and its lookup with a default of 0. */
module Home {
  import opened Types
  import opened CartSteps

  function Ids(items: seq<Product>): set<int>
  {
    set p | p in items :: p.id
  }

  /** One reduce step per item, from the left: the accumulator with the item's id
      mapped to its quantity (a later item overrides an earlier one). */
  function Reduce(acc: map<int, int>, items: seq<Product>): map<int, int>
    decreases |items|
  {
    if items == [] then acc
    else Reduce(acc[items[0].id := items[0].amount], items[1..])
  }

  /** `cartItemsAmount`: the reduce started from the empty map. */
  function CartItemsAmount(cart: seq<Product>): map<int, int>
  {
    Reduce(map[], cart)
  }

  /** `cartItemsAmount[id] || 0`: a missing key (or a quantity of 0) shows as 0. */
  function BadgeAmount(amounts: map<int, int>, id: int): int
  {
    if id in amounts && amounts[id] != 0 then amounts[id] else 0
  }

  /** The fold's keys are the accumulator's plus the ids of the items. */
  lemma {:induction false} ReduceKeys(acc: map<int, int>, items: seq<Product>)
    ensures Reduce(acc, items).Keys == acc.Keys + Ids(items)
    decreases |items|
  {
    if items != [] {
      ReduceKeys(acc[items[0].id := items[0].amount], items[1..]);
      assert items == [items[0]] + items[1..];
      assert Ids(items) == {items[0].id} + Ids(items[1..]);
    }
  }

  /** A key no item carries keeps its accumulated value. */
  lemma {:induction false} ReduceKeepsOthers(acc: map<int, int>, items: seq<Product>, id: int)
    requires id in acc && id !in Ids(items)
    ensures id in Reduce(acc, items) && Reduce(acc, items)[id] == acc[id]
    decreases |items|
  {
    if items != [] {
      assert items[0] in items;
      assert Ids(items[1..]) <= Ids(items) by {
        forall x | x in Ids(items[1..]) ensures x in Ids(items) {
          var p :| p in items[1..] && p.id == x;
          assert p in items;
        }
      }
      ReduceKeepsOthers(acc[items[0].id := items[0].amount], items[1..], id);
    }
  }

  /** The last item with a given id decides its entry. */
  lemma {:induction false} ReduceLastWins(acc: map<int, int>, items: seq<Product>, i: int)
    requires 0 <= i < |items|
    requires forall j :: i < j < |items| ==> items[j].id != items[i].id
    ensures items[i].id in Reduce(acc, items) && Reduce(acc, items)[items[i].id] == items[i].amount
    decreases |items|
  {
    var next := acc[items[0].id := items[0].amount];
    if i == 0 {
      forall p | p in items[1..] ensures p.id != items[0].id {
        var j :| 0 <= j < |items[1..]| && items[1..][j] == p;
        assert items[j + 1] == p;
      }
      ReduceKeepsOthers(next, items[1..], items[0].id);
    } else {
      ReduceLastWins(next, items[1..], i - 1);
      assert items[1..][i - 1] == items[i];
    }
  }

  /** The badge map holds exactly the ids in the cart. */
  lemma BadgeKeys(cart: seq<Product>)
    ensures CartItemsAmount(cart).Keys == Ids(cart)
  {
    ReduceKeys(map[], cart);
  }

  /** If an id occurs more than once, the quantity of its last occurrence is the one shown. */
  lemma BadgeLastOccurrence(cart: seq<Product>, i: int)
    requires 0 <= i < |cart|
    requires forall j :: i < j < |cart| ==> cart[j].id != cart[i].id
    ensures BadgeAmount(CartItemsAmount(cart), cart[i].id) == cart[i].amount
  {
    ReduceLastWins(map[], cart, i);
  }

  /** In a cart with unique ids, every item's badge shows its quantity. */
  lemma BadgeOfItem(cart: seq<Product>, i: int)
    requires UniqueIds(cart) && 0 <= i < |cart|
    ensures BadgeAmount(CartItemsAmount(cart), cart[i].id) == cart[i].amount
  {
    BadgeLastOccurrence(cart, i);
  }

  /** A product that is not in the cart shows 0. */
  lemma BadgeOfAbsent(cart: seq<Product>, id: int)
    requires !InCart(cart, id)
    ensures BadgeAmount(CartItemsAmount(cart), id) == 0
  {
    BadgeKeys(cart);
    forall p | p in cart ensures p.id != id {
      var j :| 0 <= j < |cart| && cart[j] == p;
    }
  }
}
