/**
 * src/pages/CheckoutPage.jsx: the membership-balance gate, the shortfall
 * warning, the order summary and the confirmation step.
 */
module Checkout {
  import opened Wrappers
  import opened Cart
  import opened Auth

  /** `user?.balance || 0`: a missing user, or a balance of 0, counts as 0. */
  function Balance(user: Option<User>): (r: int)
    ensures user.None? ==> r == 0
    ensures user.Some? ==> r == user.value.balance
  {
    if user.Some? && user.value.balance != 0 then user.value.balance else 0
  }

  /** The Confirm button's `disabled`. */
  predicate ConfirmDisabled(items: seq<CartItem>, user: Option<User>)
  {
    Total(items) > Balance(user)
  }

  /** One line of the order summary: title, quantity and price times quantity. */
  datatype SummaryLine = SummaryLine(title: string, quantity: int, amount: int)

  function SummaryLines(items: seq<CartItem>): (r: seq<SummaryLine>)
    ensures |r| == |items|
    ensures forall i :: 0 <= i < |items| ==>
              r[i] == SummaryLine(items[i].title, items[i].quantity, items[i].price * items[i].quantity)
  {
    seq(|items|, i requires 0 <= i < |items| =>
          SummaryLine(items[i].title, items[i].quantity, items[i].price * items[i].quantity))
  }

  function LinesTotal(lines: seq<SummaryLine>): int
  {
    if lines == [] then 0 else lines[0].amount + LinesTotal(lines[1..])
  }

  /** The summary's lines add up to the total it shows. */
  lemma {:induction false} LinesAddUpToTotal(items: seq<CartItem>)
    ensures LinesTotal(SummaryLines(items)) == Total(items)
  {
    if items != [] {
      LinesAddUpToTotal(items[1..]);
      assert SummaryLines(items)[1..] == SummaryLines(items[1..]);
    }
  }

  /** What the page renders. */
  datatype CheckoutView =
    | Confirmation
    | CheckoutForm(lines: seq<SummaryLine>, total: int, available: int, shortfall: Option<int>, confirmDisabled: bool)

  function View(orderConfirmed: bool, items: seq<CartItem>, user: Option<User>): (v: CheckoutView)
    ensures orderConfirmed <==> v.Confirmation?
    ensures v.CheckoutForm? ==> v.lines == SummaryLines(items) && v.total == Total(items)
    ensures v.CheckoutForm? ==> (v.shortfall.Some? <==> v.confirmDisabled)
    ensures v.CheckoutForm? ==> (v.confirmDisabled <==> Total(items) > Balance(user))
    ensures v.CheckoutForm? && v.shortfall.Some? ==>
              v.shortfall.value > 0 && v.shortfall.value == Total(items) - Balance(user)
  {
    if orderConfirmed then Confirmation
    else
      var total := Total(items);
      var available := Balance(user);
      var disabled := total > available;
      CheckoutForm(SummaryLines(items), total, available,
                   if disabled then Some(total - available) else None, disabled)
  }

  /** A total equal to the balance is allowed. */
  lemma GateBoundary(items: seq<CartItem>, user: Option<User>)
    requires Total(items) == Balance(user)
    ensures !ConfirmDisabled(items, user)
  {
  }

  /** Adding a book to a cart whose total already equals the balance disables confirmation, unless the book is free. */
  lemma AddAtBalanceDisables(items: seq<CartItem>, book: CartItem, user: Option<User>)
    requires Total(items) == Balance(user) && !HasId(items, book.id) && book.price > 0
    ensures ConfirmDisabled(Added(items, book), user)
  {
    TotalAfterAddNew(items, book);
  }

  /** Without a user the order can be confirmed only for a total of 0 or less. */
  lemma NoUserGate(items: seq<CartItem>)
    ensures ConfirmDisabled(items, None) <==> Total(items) > 0
  {
  }

  /** The checkout page's state, over the cart and auth providers it reads. */
  class CheckoutPage {
    var orderConfirmed: bool
    const cart: CartStore
    const auth: AuthStore

    constructor (cart: CartStore, auth: AuthStore)
      ensures this.cart == cart && this.auth == auth
      ensures !orderConfirmed
    {
      this.cart := cart;
      this.auth := auth;
      orderConfirmed := false;
    }

    function Render(): CheckoutView
      reads this, cart, auth
    {
      View(orderConfirmed, cart.items, auth.user)
    }

    /**
     * handleSubmit, with the timer's callback taken as one step: the order is
     * confirmed and the cart emptied. Nothing is charged: the balance stays.
     */
    method HandleSubmit()
      modifies this, cart
      ensures orderConfirmed && cart.items == []
      ensures auth.user == old(auth.user)
      ensures Render() == Confirmation
    {
      orderConfirmed := true;
      cart.ClearCart();
    }
  }
}
