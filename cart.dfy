/**
 * src/contexts/CartContext.jsx: the cart, an insertion-ordered list of items
 * told apart by `id`, the four operations that replace the list, and the two
 * sums recomputed from it.
 */
module Cart {
  import opened Wrappers
  import opened Js

  /**
   * One entry of the cart: the book's fields as addToCart's callers pass them,
   * plus the quantity. Prices are whole pesos.
   */
  datatype CartItem = CartItem(id: Value, title: string, author: string, price: int, image: string, quantity: int)

  /** `items.find(item => item.id === id)` finds something. */
  predicate HasId(items: seq<CartItem>, id: Value)
  {
    exists i :: 0 <= i < |items| && StrictEquals(items[i].id, id)
  }

  /**
   * The invariant the operations keep: every id is one JSON can carry (not
   * NaN), no two entries share an id, and every quantity is at least 1.
   */
  predicate WellFormed(items: seq<CartItem>)
  {
    && (forall i :: 0 <= i < |items| ==> !items[i].id.NaN? && items[i].quantity >= 1)
    && (forall i, j :: 0 <= i < j < |items| ==> items[i].id != items[j].id)
  }

  /** addToCart's new list: the matching entry gains one, or the book is appended with quantity 1. */
  function Added(items: seq<CartItem>, book: CartItem): (r: seq<CartItem>)
    ensures HasId(items, book.id) ==> |r| == |items|
    ensures !HasId(items, book.id) ==> r == items + [book.(quantity := 1)]
  {
    if HasId(items, book.id) then
      seq(|items|, i requires 0 <= i < |items| =>
            if StrictEquals(items[i].id, book.id) then items[i].(quantity := items[i].quantity + 1) else items[i])
    else
      items + [book.(quantity := 1)]
  }

  /** removeFromCart's new list: the entries whose id is not `id`, in their order. */
  function Removed(items: seq<CartItem>, id: Value): (r: seq<CartItem>)
    ensures |r| <= |items|
  {
    if items == [] then []
    else (if StrictEquals(items[0].id, id) then [] else [items[0]]) + Removed(items[1..], id)
  }

  /** The map in updateQuantity: the matching entry takes quantity q. */
  function Requantified(items: seq<CartItem>, id: Value, q: int): (r: seq<CartItem>)
    ensures |r| == |items|
  {
    seq(|items|, i requires 0 <= i < |items| =>
          if StrictEquals(items[i].id, id) then items[i].(quantity := q) else items[i])
  }

  /** updateQuantity's new list: a quantity of 0 or less removes the entry. */
  function Updated(items: seq<CartItem>, id: Value, q: int): (r: seq<CartItem>)
    ensures q <= 0 ==> r == Removed(items, id)
    ensures q > 0 ==> r == Requantified(items, id, q)
  {
    if q <= 0 then Removed(items, id) else Requantified(items, id, q)
  }

  /** `items.reduce((sum, item) => sum + f(item), 0)`. */
  function Sum(items: seq<CartItem>, f: CartItem -> int): int
  {
    if items == [] then 0 else f(items[0]) + Sum(items[1..], f)
  }

  function LineAmount(item: CartItem): int
  {
    item.price * item.quantity
  }

  function Quantity(item: CartItem): int
  {
    item.quantity
  }

  /** cartTotal. */
  function Total(items: seq<CartItem>): int
  {
    Sum(items, LineAmount)
  }

  /** cartItemCount. */
  function Count(items: seq<CartItem>): int
  {
    Sum(items, Quantity)
  }

  lemma {:induction false} SumAppend(a: seq<CartItem>, b: seq<CartItem>, f: CartItem -> int)
    ensures Sum(a + b, f) == Sum(a, f) + Sum(b, f)
  {
    if a != [] {
      assert (a + b)[1..] == a[1..] + b;
      SumAppend(a[1..], b, f);
    } else {
      assert a + b == b;
    }
  }

  /** Replacing one entry changes a sum by the difference of the two terms. */
  lemma SumReplace(items: seq<CartItem>, k: nat, x: CartItem, f: CartItem -> int)
    requires k < |items|
    ensures Sum(items[k := x], f) == Sum(items, f) - f(items[k]) + f(x)
  {
    var before, after := items[..k], items[k + 1..];
    assert items == before + ([items[k]] + after);
    assert items[k := x] == before + ([x] + after);
    SumAppend(before, [items[k]] + after, f);
    SumAppend(before, [x] + after, f);
    assert ([items[k]] + after)[1..] == after;
    assert ([x] + after)[1..] == after;
  }

  /** Dropping one entry takes its term out of a sum. */
  lemma SumDelete(items: seq<CartItem>, k: nat, f: CartItem -> int)
    requires k < |items|
    ensures Sum(items[..k] + items[k + 1..], f) == Sum(items, f) - f(items[k])
  {
    var before, after := items[..k], items[k + 1..];
    assert items == before + ([items[k]] + after);
    SumAppend(before, [items[k]] + after, f);
    SumAppend(before, after, f);
    assert ([items[k]] + after)[1..] == after;
  }

  /** In a well-formed cart, an entry matches an id exactly when it is the entry with that id. */
  lemma MatchesOnlyAt(items: seq<CartItem>, k: nat, id: Value, i: nat)
    requires WellFormed(items) && k < |items| && StrictEquals(items[k].id, id) && i < |items|
    ensures StrictEquals(items[i].id, id) <==> i == k
  {
    if i < k {
      assert items[i].id != items[k].id;
    } else if k < i {
      assert items[k].id != items[i].id;
    }
  }

  /** Adding a book whose id is not in the cart appends one entry with quantity 1. */
  lemma AddNewAppends(items: seq<CartItem>, book: CartItem)
    requires !HasId(items, book.id)
    ensures Added(items, book) == items + [book.(quantity := 1)]
    ensures |Added(items, book)| == |items| + 1 && Added(items, book)[..|items|] == items
    ensures Added(items, book)[|items|].quantity == 1
  {
    assert (items + [book.(quantity := 1)])[..|items|] == items;
  }

  /** Adding a book whose id is in the cart raises that entry's quantity by one and changes nothing else. */
  lemma AddPresentIncrements(items: seq<CartItem>, book: CartItem, k: nat)
    requires WellFormed(items) && k < |items| && StrictEquals(items[k].id, book.id)
    ensures Added(items, book) == items[k := items[k].(quantity := items[k].quantity + 1)]
  {
    assert HasId(items, book.id);
    var r := Added(items, book);
    forall i | 0 <= i < |items|
      ensures r[i] == items[k := items[k].(quantity := items[k].quantity + 1)][i]
    {
      MatchesOnlyAt(items, k, book.id, i);
    }
  }

  /** Adding keeps the cart well formed, provided the book's id is one JSON can carry. */
  lemma AddedWellFormed(items: seq<CartItem>, book: CartItem)
    requires WellFormed(items) && !book.id.NaN?
    ensures WellFormed(Added(items, book))
  {
    if k :| 0 <= k < |items| && StrictEquals(items[k].id, book.id) {
      AddPresentIncrements(items, book, k);
    } else {
      var r := Added(items, book);
      forall i, j | 0 <= i < j < |r|
        ensures r[i].id != r[j].id
      {
        if j == |items| {
          assert !StrictEquals(items[i].id, book.id);
        }
      }
    }
  }

  /** Removing an id the cart does not hold changes nothing. */
  lemma {:induction false} RemoveAbsent(items: seq<CartItem>, id: Value)
    requires !HasId(items, id)
    ensures Removed(items, id) == items
  {
    if items != [] {
      assert !StrictEquals(items[0].id, id);
      forall i | 0 <= i < |items[1..]|
        ensures !StrictEquals(items[1..][i].id, id)
      {
        assert items[1..][i] == items[i + 1];
      }
      RemoveAbsent(items[1..], id);
      assert [items[0]] + items[1..] == items;
    }
  }

  /** A well-formed cart without its first entry is well formed. */
  lemma WellFormedTail(items: seq<CartItem>)
    requires WellFormed(items) && items != []
    ensures WellFormed(items[1..])
  {
    forall i, j | 0 <= i < j < |items[1..]|
      ensures items[1..][i].id != items[1..][j].id
    {
      assert items[1..][i] == items[i + 1] && items[1..][j] == items[j + 1];
    }
  }

  /** removeFromCart keeps exactly the entries whose id is not the removed one. */
  lemma {:induction false} RemovedContents(items: seq<CartItem>, id: Value, x: CartItem)
    ensures x in Removed(items, id) <==> x in items && !StrictEquals(x.id, id)
  {
    if items != [] {
      RemovedContents(items[1..], id, x);
      assert items == [items[0]] + items[1..];
    }
  }

  /** Removal works piece by piece. */
  lemma {:induction false} RemovedAppend(a: seq<CartItem>, b: seq<CartItem>, id: Value)
    ensures Removed(a + b, id) == Removed(a, id) + Removed(b, id)
  {
    if a != [] {
      assert (a + b)[1..] == a[1..] + b;
      RemovedAppend(a[1..], b, id);
    } else {
      assert a + b == b;
    }
  }

  /** Removing the id of the one matching entry between two parts that hold no match keeps the two parts. */
  lemma RemoveBetween(before: seq<CartItem>, x: CartItem, after: seq<CartItem>, id: Value)
    requires !HasId(before, id) && StrictEquals(x.id, id) && !HasId(after, id)
    ensures Removed(before + [x] + after, id) == before + after
  {
    RemoveAbsent(before, id);
    RemoveAbsent(after, id);
    RemovedAppend(before + [x], after, id);
    RemovedAppend(before, [x], id);
    assert Removed([x], id) == [];
  }

  /** Removing the id of entry k deletes exactly that entry and keeps the others in order. */
  lemma RemoveDeletes(items: seq<CartItem>, id: Value, k: nat)
    requires WellFormed(items) && k < |items| && StrictEquals(items[k].id, id)
    ensures Removed(items, id) == items[..k] + items[k + 1..]
  {
    var before, after := items[..k], items[k + 1..];
    forall i | 0 <= i < |before|
      ensures !StrictEquals(before[i].id, id)
    {
      MatchesOnlyAt(items, k, id, i);
    }
    forall i | 0 <= i < |after|
      ensures !StrictEquals(after[i].id, id)
    {
      MatchesOnlyAt(items, k, id, k + 1 + i);
    }
    assert items == before + [items[k]] + after;
    RemoveBetween(before, items[k], after, id);
  }

  /** Removing keeps the cart well formed. */
  lemma RemovedWellFormed(items: seq<CartItem>, id: Value)
    requires WellFormed(items)
    ensures WellFormed(Removed(items, id))
  {
    if k :| 0 <= k < |items| && StrictEquals(items[k].id, id) {
      RemoveDeletes(items, id, k);
      var r := items[..k] + items[k + 1..];
      forall i, j | 0 <= i < j < |r|
        ensures r[i].id != r[j].id
      {
        var i' := if i < k then i else i + 1;
        var j' := if j < k then j else j + 1;
        assert r[i] == items[i'] && r[j] == items[j'];
      }
    } else {
      RemoveAbsent(items, id);
    }
  }

  /** Setting the quantity of an id the cart does not hold changes nothing. */
  lemma RequantifyAbsent(items: seq<CartItem>, id: Value, q: int)
    requires !HasId(items, id)
    ensures Requantified(items, id, q) == items
  {
  }

  /** Setting the quantity of entry k's id changes that entry's quantity and nothing else. */
  lemma RequantifySets(items: seq<CartItem>, id: Value, q: int, k: nat)
    requires WellFormed(items) && k < |items| && StrictEquals(items[k].id, id)
    ensures Requantified(items, id, q) == items[k := items[k].(quantity := q)]
  {
    var r := Requantified(items, id, q);
    forall i | 0 <= i < |items|
      ensures r[i] == items[k := items[k].(quantity := q)][i]
    {
      MatchesOnlyAt(items, k, id, i);
    }
  }

  /** Updating keeps the cart well formed. */
  lemma UpdatedWellFormed(items: seq<CartItem>, id: Value, q: int)
    requires WellFormed(items)
    ensures WellFormed(Updated(items, id, q))
  {
    if q <= 0 {
      RemovedWellFormed(items, id);
    } else if k :| 0 <= k < |items| && StrictEquals(items[k].id, id) {
      RequantifySets(items, id, q, k);
    }
  }

  /** The cart page's minus button on an entry of quantity 1 removes it: the same as removeFromCart. */
  lemma DecrementFromOneRemoves(items: seq<CartItem>, k: nat)
    requires WellFormed(items) && k < |items| && items[k].quantity == 1
    ensures Updated(items, items[k].id, items[k].quantity - 1) == Removed(items, items[k].id)
    ensures Updated(items, items[k].id, items[k].quantity - 1) == items[..k] + items[k + 1..]
  {
    RemoveDeletes(items, items[k].id, k);
  }

  /** Re-adding the book of entry k raises the total by that entry's price and the count by one. */
  lemma TotalAfterAddExisting(items: seq<CartItem>, book: CartItem, k: nat)
    requires WellFormed(items) && k < |items| && StrictEquals(items[k].id, book.id)
    ensures Total(Added(items, book)) == Total(items) + items[k].price
    ensures Count(Added(items, book)) == Count(items) + 1
  {
    AddPresentIncrements(items, book, k);
    var x := items[k].(quantity := items[k].quantity + 1);
    SumReplace(items, k, x, LineAmount);
    SumReplace(items, k, x, Quantity);
  }

  /** Adding a new book raises the total by its price and the count by one. */
  lemma TotalAfterAddNew(items: seq<CartItem>, book: CartItem)
    requires !HasId(items, book.id)
    ensures Total(Added(items, book)) == Total(items) + book.price
    ensures Count(Added(items, book)) == Count(items) + 1
  {
    SumAppend(items, [book.(quantity := 1)], LineAmount);
    SumAppend(items, [book.(quantity := 1)], Quantity);
  }

  /** Removing entry k takes its line amount out of the total and its quantity out of the count. */
  lemma TotalAfterRemove(items: seq<CartItem>, k: nat)
    requires WellFormed(items) && k < |items|
    ensures Total(Removed(items, items[k].id)) == Total(items) - items[k].price * items[k].quantity
    ensures Count(Removed(items, items[k].id)) == Count(items) - items[k].quantity
  {
    RemoveDeletes(items, items[k].id, k);
    SumDelete(items, k, LineAmount);
    SumDelete(items, k, Quantity);
  }

  /** Setting entry k's quantity to q > 0 replaces its line amount and its quantity in the sums. */
  lemma TotalAfterUpdate(items: seq<CartItem>, k: nat, q: int)
    requires WellFormed(items) && k < |items| && q > 0
    ensures Total(Updated(items, items[k].id, q)) == Total(items) - items[k].price * items[k].quantity + items[k].price * q
    ensures Count(Updated(items, items[k].id, q)) == Count(items) - items[k].quantity + q
  {
    RequantifySets(items, items[k].id, q, k);
    SumReplace(items, k, items[k].(quantity := q), LineAmount);
    SumReplace(items, k, items[k].(quantity := q), Quantity);
  }

  /** In a well-formed cart the count is at least the number of entries. */
  lemma {:induction false} CountAtLeastLength(items: seq<CartItem>)
    requires WellFormed(items)
    ensures Count(items) >= |items|
  {
    if items != [] {
      WellFormedTail(items);
      CountAtLeastLength(items[1..]);
    }
  }

  /** The cart provider's state. */
  class CartStore {
    var items: seq<CartItem>

    predicate Valid()
      reads this
    {
      WellFormed(items)
    }

    /** The list read back from storage, or the empty list when nothing was saved. */
    constructor (saved: Option<seq<CartItem>>)
      ensures items == (if saved.Some? then saved.value else [])
      ensures Valid() <==> saved.None? || WellFormed(saved.value)
      ensures saved.None? ==> CartTotal() == 0 && CartItemCount() == 0
    {
      items := if saved.Some? then saved.value else [];
    }

    function CartTotal(): int
      reads this
    {
      Total(items)
    }

    /** cartItemCount; in a valid cart every entry counts at least once. */
    function CartItemCount(): (r: int)
      reads this
      ensures Valid() ==> r >= |items|
    {
      assert Valid() ==> Count(items) >= |items| by {
        if Valid() {
          CountAtLeastLength(items);
        }
      }
      Count(items)
    }

    method AddToCart(book: CartItem)
      modifies this
      ensures items == Added(old(items), book)
      ensures old(Valid()) && !book.id.NaN? ==> Valid()
    {
      if Valid() && !book.id.NaN? {
        AddedWellFormed(items, book);
      }
      items := Added(items, book);
    }

    method RemoveFromCart(id: Value)
      modifies this
      ensures items == Removed(old(items), id)
      ensures old(Valid()) ==> Valid()
    {
      if Valid() {
        RemovedWellFormed(items, id);
      }
      items := Removed(items, id);
    }

    method UpdateQuantity(id: Value, quantity: int)
      modifies this
      ensures items == Updated(old(items), id, quantity)
      ensures old(Valid()) ==> Valid()
    {
      if Valid() {
        UpdatedWellFormed(items, id, quantity);
      }
      if quantity <= 0 {
        RemoveFromCart(id);
        return;
      }
      items := Requantified(items, id, quantity);
    }

    method ClearCart()
      modifies this
      ensures items == [] && Valid()
      ensures CartTotal() == 0 && CartItemCount() == 0
    {
      items := [];
    }
  }
}
