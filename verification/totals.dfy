/**
 The cart's money figures (`totalAmount`, `discount`, `finalAmount` in
 SharjeelE-commerceStore.js). Amounts are exact reals; the rate is
 exactly one tenth.
 */
module Totals {
  import opened Catalog
  import opened ShoppingCart

  /** A discount applies only to subtotals strictly above this amount. */
  const Threshold: real := 100.0

  /** The share of the subtotal taken off. */
  const Rate: real := 0.1

  /** What one line costs: unit price times quantity. */
  function LineTotal(l: Line): real
  {
    l.product.price * l.quantity as real
  }

  /**
   The subtotal, accumulated from the first line to the last as
   `cart.reduce((total, item) => total + item.price * item.quantity, 0)` does.
   */
  function Subtotal(cart: Cart): (r: real)
    ensures (forall i :: 0 <= i < |cart| ==> cart[i].product.price >= 0.0 && cart[i].quantity >= 0) ==> r >= 0.0
    decreases |cart|
  {
    if |cart| == 0 then
      0.0
    else
      var n := |cart| - 1;
      assert forall i | 0 <= i < n :: cart[..n][i] == cart[i];
      Subtotal(cart[..n]) + LineTotal(cart[n])
  }

  /** The discount taken off a subtotal: nothing up to 100, a tenth above it. */
  function Discount(subtotal: real): (r: real)
    ensures subtotal <= Threshold ==> r == 0.0
    ensures subtotal > Threshold ==> r == subtotal / 10.0
  {
    if subtotal > Threshold then subtotal * Rate else 0.0
  }

  /** The amount to pay: the subtotal up to 100, nine tenths of it above. */
  function FinalAmount(subtotal: real): (r: real)
    ensures subtotal <= Threshold ==> r == subtotal
    ensures subtotal > Threshold ==> r == subtotal * 9.0 / 10.0
  {
    subtotal - Discount(subtotal)
  }

  /** The sum of line totals, taken from the front: an independent reading of the subtotal. */
  function SumOfLines(cart: Cart): real
    decreases |cart|
  {
    if |cart| == 0 then 0.0 else LineTotal(cart[0]) + SumOfLines(cart[1..])
  }

  /** The subtotal of two carts laid end to end is the sum of their subtotals. */
  lemma {:induction false} SubtotalAppend(a: Cart, b: Cart)
    ensures Subtotal(a + b) == Subtotal(a) + Subtotal(b)
    decreases |b|
  {
    if |b| == 0 {
      assert a + b == a;
    } else {
      var n := |b| - 1;
      assert (a + b)[..|a + b| - 1] == a + b[..n];
      SubtotalAppend(a, b[..n]);
    }
  }

  /** The accumulated subtotal is the sum over all lines of price times quantity. */
  lemma {:induction false} SubtotalIsSumOfLines(cart: Cart)
    ensures Subtotal(cart) == SumOfLines(cart)
    decreases |cart|
  {
    if |cart| > 0 {
      assert cart == [cart[0]] + cart[1..];
      SubtotalAppend([cart[0]], cart[1..]);
      assert [cart[0]][..0] == [];
      SubtotalIsSumOfLines(cart[1..]);
    }
  }

  /** The empty cart costs nothing. */
  lemma EmptyCartTotalsZero()
    ensures Subtotal(Empty) == 0.0 && Discount(Subtotal(Empty)) == 0.0 && FinalAmount(Subtotal(Empty)) == 0.0
  {
  }

  /** Adding a product not yet in the cart raises the subtotal by its price. */
  lemma SubtotalAfterAddNew(cart: Cart, p: Product)
    requires !HasId(cart, p.id)
    ensures Subtotal(AddToCart(cart, p)) == Subtotal(cart) + p.price
  {
    var r := AddToCart(cart, p);
    assert r[..|r| - 1] == cart;
  }

  /** Replacing one line changes the subtotal by the difference of the two line totals. */
  lemma SubtotalUpdate(cart: Cart, k: int, l: Line)
    requires 0 <= k < |cart|
    ensures Subtotal(cart[k := l]) == Subtotal(cart) - LineTotal(cart[k]) + LineTotal(l)
  {
    assert cart == (cart[..k] + [cart[k]]) + cart[k + 1..];
    assert cart[k := l] == (cart[..k] + [l]) + cart[k + 1..];
    SubtotalAppend(cart[..k] + [cart[k]], cart[k + 1..]);
    SubtotalAppend(cart[..k] + [l], cart[k + 1..]);
    SubtotalAppend(cart[..k], [cart[k]]);
    SubtotalAppend(cart[..k], [l]);
    assert [cart[k]][..0] == [] && [l][..0] == [];
  }

  /**
   Re-adding a product raises the subtotal by the price its line was first
   added with, which need not be the price of the record passed in.
   */
  lemma SubtotalAfterAddExisting(cart: Cart, p: Product, k: int)
    requires Valid(cart)
    requires 0 <= k < |cart| && cart[k].Id() == p.id
    ensures Subtotal(AddToCart(cart, p)) == Subtotal(cart) + cart[k].product.price
  {
    AddExistingIncrementsOne(cart, p, k);
    SubtotalAfterBump(cart, k);
  }

  /** One more unit on line `k` raises the subtotal by that line's price. */
  lemma SubtotalAfterBump(cart: Cart, k: int)
    requires 0 <= k < |cart|
    ensures Subtotal(cart[k := cart[k].(quantity := cart[k].quantity + 1)]) == Subtotal(cart) + cart[k].product.price
  {
    var l := cart[k].(quantity := cart[k].quantity + 1);
    SubtotalUpdate(cart, k, l);
    var price, q := cart[k].product.price, cart[k].quantity as real;
    assert l.quantity as real == q + 1.0;
    assert price * (q + 1.0) == price * q + price;
  }

  /** Removing a product from a valid cart lowers the subtotal by its line's total. */
  lemma SubtotalAfterRemove(cart: Cart, id: int, k: int)
    requires Valid(cart)
    requires 0 <= k < |cart| && cart[k].Id() == id
    ensures Subtotal(RemoveFromCart(cart, id)) == Subtotal(cart) - LineTotal(cart[k])
  {
    RemoveDropsOneLine(cart, id, k);
    assert cart == (cart[..k] + [cart[k]]) + cart[k + 1..];
    SubtotalAppend(cart[..k] + [cart[k]], cart[k + 1..]);
    SubtotalAppend(cart[..k], [cart[k]]);
    SubtotalAppend(cart[..k], cart[k + 1..]);
    assert [cart[k]][..0] == [];
  }

  /** The discount line is shown (a positive discount) exactly for subtotals above 100. */
  lemma DiscountShownIffAboveThreshold(subtotal: real)
    ensures Discount(subtotal) > 0.0 <==> subtotal > Threshold
  {
  }

  /** For a non-negative subtotal the amount to pay lies between 0 and the subtotal. */
  lemma FinalAmountBounds(subtotal: real)
    requires subtotal >= 0.0
    ensures 0.0 <= FinalAmount(subtotal) <= subtotal
    ensures subtotal > Threshold ==> FinalAmount(subtotal) > 90.0
  {
  }

  /** Crossing the threshold can lower the amount to pay: 100 costs 100, 110 costs 99. */
  lemma FinalAmountNotMonotone()
    ensures FinalAmount(100.0) == 100.0 && FinalAmount(110.0) == 99.0
  {
  }

  /** A subtotal of 150 gets 15 off and costs 135. */
  lemma DiscountExample()
    ensures Discount(150.0) == 15.0 && FinalAmount(150.0) == 135.0
  {
  }

  /** Adding a 200 phone twice gives one line of two: 400, 40 off, 360 to pay. */
  lemma PhoneScenario()
    ensures var phone := Product(2, "Phone X", 200.0, "", "mobiles");
            var cart := AddToCart(AddToCart(Empty, phone), phone);
            && cart == [Line(phone, 2)]
            && Subtotal(cart) == 400.0
            && Discount(Subtotal(cart)) == 40.0
            && FinalAmount(Subtotal(cart)) == 360.0
  {
    var phone := Product(2, "Phone X", 200.0, "", "mobiles");
    AddTwiceGivesOneLine(Empty, phone);
    assert [Line(phone, 2)][..0] == [];
  }
}
