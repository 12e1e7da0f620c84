/**
 The shopping cart: an ordered sequence of lines, each a product record
 together with the quantity added (`addToCart`, `removeFromCart` and the
 cart badge in SharjeelE-commerceStore.js).
 */
module ShoppingCart {
  import opened Catalog
  import opened Seqs

  /**
   A cart line. The source spreads the product's fields into the line
   object next to `quantity`; here the product is kept as one field.
   */
  datatype Line = Line(product: Product, quantity: int)
  {
    function Id(): int
    {
      product.id
    }
  }

  type Cart = seq<Line>

  datatype Option<T> = None | Some(value: T)

  /** Some line of `cart` is for product `id`. */
  predicate HasId(cart: Cart, id: int)
  {
    exists i :: 0 <= i < |cart| && cart[i].Id() == id
  }

  /** No two lines are for the same product. */
  predicate UniqueIds(cart: Cart)
  {
    forall i, j :: 0 <= i < j < |cart| ==> cart[i].Id() != cart[j].Id()
  }

  /** The cart invariant: one line per product, each with quantity at least 1. */
  predicate Valid(cart: Cart)
  {
    UniqueIds(cart) && forall i :: 0 <= i < |cart| ==> cart[i].quantity >= 1
  }

  /** The cart the screen starts with. */
  const Empty: Cart := []

  lemma EmptyIsValid()
    ensures Valid(Empty)
    ensures forall id :: !HasId(Empty, id)
  {
  }

  /** The model of `cart.find(item => item.id === id)`: the first line for `id`, if any. */
  function Find(cart: Cart, id: int): (r: Option<Line>)
    ensures r.None? <==> !HasId(cart, id)
    ensures r.Some? ==> exists k :: 0 <= k < |cart| && cart[k] == r.value && cart[k].Id() == id && !HasId(cart[..k], id)
    decreases |cart|
  {
    if |cart| == 0 then
      None
    else if cart[0].Id() == id then
      assert cart[..0] == [];
      Some(cart[0])
    else
      var r := Find(cart[1..], id);
      if r.Some? then
        assert exists k :: 0 <= k < |cart| && cart[k] == r.value && cart[k].Id() == id && !HasId(cart[..k], id) by {
          var k :| 0 <= k < |cart[1..]| && cart[1..][k] == r.value && cart[1..][k].Id() == id && !HasId(cart[1..][..k], id);
          assert cart[..k + 1] == [cart[0]] + cart[1..][..k];
          var prefix := cart[..k + 1];
          assert forall i | 0 < i < |prefix| :: prefix[i] == cart[1..][..k][i - 1];
        }
        r
      else
        assert forall i | 0 < i < |cart| :: cart[i] == cart[1..][i - 1];
        r
  }

  /** The line after re-adding product `id`: its quantity goes up by one, all else stays. */
  function Bump(l: Line, id: int): Line
  {
    if l.Id() == id then l.(quantity := l.quantity + 1) else l
  }

  /**
   The `cart.map(...)` update of an existing product: every line keeps its
   product, lines for other ids are unchanged, and each line for `id` gains
   one unit.
   */
  function IncrementMatching(cart: Cart, id: int): (r: Cart)
    ensures |r| == |cart|
    ensures forall i :: 0 <= i < |cart| ==> r[i].product == cart[i].product
    ensures forall i :: 0 <= i < |cart| && cart[i].Id() != id ==> r[i] == cart[i]
    ensures forall i :: 0 <= i < |cart| && cart[i].Id() == id ==> r[i].quantity == cart[i].quantity + 1
  {
    seq(|cart|, i requires 0 <= i < |cart| => Bump(cart[i], id))
  }

  /**
   The model of `addToCart(product)`. If a line for the product exists,
   every line for it gains one unit and keeps the product fields it was
   first added with; otherwise a new line with quantity 1 is appended.
   */
  function AddToCart(cart: Cart, p: Product): (r: Cart)
    ensures HasId(cart, p.id) ==>
              && |r| == |cart|
              && (forall i :: 0 <= i < |cart| ==> r[i].product == cart[i].product)
              && (forall i :: 0 <= i < |cart| && cart[i].Id() != p.id ==> r[i] == cart[i])
              && (forall i :: 0 <= i < |cart| && cart[i].Id() == p.id ==> r[i].quantity == cart[i].quantity + 1)
    ensures !HasId(cart, p.id) ==>
              && |r| == |cart| + 1
              && r[..|cart|] == cart
              && r[|cart|] == Line(p, 1)
    ensures forall id :: HasId(r, id) <==> HasId(cart, id) || id == p.id
  {
    match Find(cart, p.id)
    case Some(_) =>
      var r := IncrementMatching(cart, p.id);
      assert forall i | 0 <= i < |cart| :: r[i].Id() == cart[i].Id();
      r
    case None =>
      var r := cart + [Line(p, 1)];
      assert forall i | 0 <= i < |cart| :: r[i] == cart[i];
      assert r[|cart|].Id() == p.id;
      r
  }

  /** In a valid cart, re-adding a product changes exactly its one line, by one unit. */
  lemma AddExistingIncrementsOne(cart: Cart, p: Product, k: int)
    requires Valid(cart)
    requires 0 <= k < |cart| && cart[k].Id() == p.id
    ensures AddToCart(cart, p) == cart[k := cart[k].(quantity := cart[k].quantity + 1)]
  {
    var r := AddToCart(cart, p);
    var expected := cart[k := cart[k].(quantity := cart[k].quantity + 1)];
    forall i | 0 <= i < |cart|
      ensures r[i] == expected[i]
    {
      if i != k {
        assert cart[i].Id() != p.id by {
          if i < k {
            assert cart[i].Id() != cart[k].Id();
          } else {
            assert cart[k].Id() != cart[i].Id();
          }
        }
      }
    }
  }

  /** Adding a product twice to a cart without it gives one line of quantity 2. */
  lemma AddTwiceGivesOneLine(cart: Cart, p: Product)
    requires !HasId(cart, p.id)
    ensures AddToCart(AddToCart(cart, p), p) == cart + [Line(p, 2)]
  {
    var once := cart + [Line(p, 1)];
    assert Find(cart, p.id).None?;
    assert once[|cart|].Id() == p.id;
    assert Find(once, p.id).Some?;
    var twice := IncrementMatching(once, p.id);
    forall i | 0 <= i < |cart|
      ensures twice[i] == cart[i]
    {
      assert once[i] == cart[i];
    }
    assert twice == cart + [Line(p, 2)];
  }

  /** Adding keeps the cart invariant. */
  lemma AddPreservesValid(cart: Cart, p: Product)
    requires Valid(cart)
    ensures Valid(AddToCart(cart, p))
  {
    var r := AddToCart(cart, p);
    if !HasId(cart, p.id) {
      forall i, j | 0 <= i < j < |r|
        ensures r[i].Id() != r[j].Id()
      {
        if j == |cart| {
          assert r[i] == cart[i];
        } else {
          assert r[i] == cart[i] && r[j] == cart[j];
        }
      }
    }
  }

  /** The model of `removeFromCart(id)`: `cart.filter(item => item.id !== id)`. */
  function RemoveFromCart(cart: Cart, id: int): (r: Cart)
    ensures forall l :: l in r <==> l in cart && l.Id() != id
    ensures !HasId(r, id)
    ensures !HasId(cart, id) ==> r == cart
    decreases |cart|
  {
    if |cart| == 0 then
      []
    else
      var rest := RemoveFromCart(cart[1..], id);
      assert forall l :: l in cart <==> l == cart[0] || l in cart[1..];
      assert forall i | 0 < i < |cart| :: cart[i] == cart[1..][i - 1];
      if cart[0].Id() != id then
        var r := [cart[0]] + rest;
        assert r[1..] == rest;
        assert forall i | 0 < i < |r| :: r[i] == rest[i - 1];
        assert !HasId(cart, id) ==> r == [cart[0]] + cart[1..];
        r
      else
        rest
  }

  /** Removing keeps the remaining lines in their original relative order. */
  lemma {:induction false} RemoveKeepsOrder(cart: Cart, id: int)
    ensures SubsequenceOf(RemoveFromCart(cart, id), cart)
    decreases |cart|
  {
    if |cart| > 0 {
      RemoveKeepsOrder(cart[1..], id);
      var rest := RemoveFromCart(cart[1..], id);
      if cart[0].Id() != id {
        assert ([cart[0]] + rest)[1..] == rest;
      }
    }
  }

  /** Removing splits over concatenation. */
  lemma {:induction false} RemoveAppend(a: Cart, b: Cart, id: int)
    ensures RemoveFromCart(a + b, id) == RemoveFromCart(a, id) + RemoveFromCart(b, id)
    decreases |a|
  {
    if |a| > 0 {
      assert (a + b)[1..] == a[1..] + b;
      RemoveAppend(a[1..], b, id);
    } else {
      assert a + b == b;
    }
  }

  /** Removing twice is removing once. */
  lemma RemoveIdempotent(cart: Cart, id: int)
    ensures RemoveFromCart(RemoveFromCart(cart, id), id) == RemoveFromCart(cart, id)
  {
  }

  /** The tail of a valid cart is valid. */
  lemma ValidTail(cart: Cart)
    requires Valid(cart) && |cart| > 0
    ensures Valid(cart[1..])
    ensures !HasId(cart[1..], cart[0].Id())
  {
    var tail := cart[1..];
    assert forall i | 0 <= i < |tail| :: tail[i] == cart[i + 1];
  }

  /** Any subsequence of a valid cart is valid. */
  lemma {:induction false} SubsequenceKeepsValid(r: Cart, cart: Cart)
    requires Valid(cart)
    requires SubsequenceOf(r, cart)
    ensures Valid(r)
    decreases |cart|
  {
    if |r| > 0 {
      ValidTail(cart);
      if r[0] == cart[0] && SubsequenceOf(r[1..], cart[1..]) {
        SubsequenceKeepsValid(r[1..], cart[1..]);
        SubsequenceBounds(r[1..], cart[1..]);
        var rest := r[1..];
        assert forall i | 0 < i < |r| :: r[i] == rest[i - 1];
        forall j | 0 < j < |r|
          ensures r[0].Id() != r[j].Id()
        {
          assert rest[j - 1] in cart[1..];
        }
      } else {
        SubsequenceKeepsValid(r, cart[1..]);
      }
    }
  }

  /** Removing keeps the cart invariant. */
  lemma RemovePreservesValid(cart: Cart, id: int)
    requires Valid(cart)
    ensures Valid(RemoveFromCart(cart, id))
  {
    RemoveKeepsOrder(cart, id);
    SubsequenceKeepsValid(RemoveFromCart(cart, id), cart);
  }

  /** In a valid cart, the line at `k` is the only one for its product. */
  lemma OnlyLineForId(cart: Cart, k: int)
    requires Valid(cart)
    requires 0 <= k < |cart|
    ensures !HasId(cart[..k], cart[k].Id())
    ensures !HasId(cart[k + 1..], cart[k].Id())
  {
    var before := cart[..k];
    var after := cart[k + 1..];
    assert forall i | 0 <= i < |before| :: before[i] == cart[i];
    assert forall i | 0 <= i < |after| :: after[i] == cart[k + 1 + i];
  }

  /** Removing an id that occurs only at position `k` deletes just that line. */
  lemma RemoveSplitAt(cart: Cart, id: int, k: int)
    requires 0 <= k < |cart| && cart[k].Id() == id
    requires !HasId(cart[..k], id) && !HasId(cart[k + 1..], id)
    ensures RemoveFromCart(cart, id) == cart[..k] + cart[k + 1..]
  {
    var before, after := cart[..k], cart[k + 1..];
    var line := [cart[k]];
    assert cart == before + (line + after);
    RemoveAppend(before, line + after, id);
    RemoveAppend(line, after, id);
    assert RemoveFromCart(line, id) == [];
  }

  /** In a valid cart, removing a present product deletes exactly its line. */
  lemma RemoveDropsOneLine(cart: Cart, id: int, k: int)
    requires Valid(cart)
    requires 0 <= k < |cart| && cart[k].Id() == id
    ensures RemoveFromCart(cart, id) == cart[..k] + cart[k + 1..]
  {
    OnlyLineForId(cart, k);
    RemoveSplitAt(cart, id, k);
  }

  /** Removing a product that was just added as new gives back the cart. */
  lemma RemoveUndoesAddNew(cart: Cart, p: Product)
    requires !HasId(cart, p.id)
    ensures RemoveFromCart(AddToCart(cart, p), p.id) == cart
  {
    assert AddToCart(cart, p) == cart + [Line(p, 1)];
    RemoveAppend(cart, [Line(p, 1)], p.id);
    assert RemoveFromCart([Line(p, 1)], p.id) == [];
  }

  /** Removing a product erases every trace of adding it before. */
  lemma {:induction false} RemoveAfterAdd(cart: Cart, p: Product)
    ensures RemoveFromCart(AddToCart(cart, p), p.id) == RemoveFromCart(cart, p.id)
  {
    if HasId(cart, p.id) {
      RemoveIgnoresBump(cart, p.id);
    } else {
      RemoveUndoesAddNew(cart, p);
    }
  }

  lemma {:induction false} RemoveIgnoresBump(cart: Cart, id: int)
    ensures RemoveFromCart(IncrementMatching(cart, id), id) == RemoveFromCart(cart, id)
    decreases |cart|
  {
    if |cart| > 0 {
      var bumped := IncrementMatching(cart, id);
      assert bumped[1..] == IncrementMatching(cart[1..], id);
      RemoveIgnoresBump(cart[1..], id);
    }
  }

  /** The product ids of the cart's lines. */
  function Ids(cart: Cart): set<int>
  {
    set i | 0 <= i < |cart| :: cart[i].Id()
  }

  /**
   The number the cart badge shows (`cart.length`), or none when the cart
   is empty. In a valid cart that number is the count of distinct products.
   */
  function Badge(cart: Cart): (r: Option<nat>)
    ensures r.None? <==> Ids(cart) == {}
    ensures Valid(cart) && r.Some? ==> r.value == |Ids(cart)|
  {
    DistinctIdsCount(cart);
    if |cart| > 0 then
      assert cart[0].Id() in Ids(cart);
      Some(|cart|)
    else
      None
  }

  /** The ids of a non-empty cart: its first line's id and the ids of the rest. */
  lemma IdsCons(cart: Cart)
    requires |cart| > 0
    ensures Ids(cart) == {cart[0].Id()} + Ids(cart[1..])
    ensures cart[0].Id() in Ids(cart[1..]) <==> HasId(cart[1..], cart[0].Id())
  {
    var tail := cart[1..];
    assert forall i | 0 <= i < |tail| :: tail[i] == cart[i + 1];
    assert forall i | 0 < i < |cart| :: cart[i] == tail[i - 1];
  }

  /** A valid cart has as many lines as distinct product ids. */
  lemma {:induction false} DistinctIdsCount(cart: Cart)
    ensures Valid(cart) ==> |Ids(cart)| == |cart|
    decreases |cart|
  {
    if |cart| > 0 && Valid(cart) {
      ValidTail(cart);
      DistinctIdsCount(cart[1..]);
      IdsCons(cart);
    }
  }

  /** The total number of units in the cart. */
  function Units(cart: Cart): int
    decreases |cart|
  {
    if |cart| == 0 then 0 else cart[0].quantity + Units(cart[1..])
  }

  /** Re-adding a product leaves the badge as it is, and adding a new one raises it by one. */
  lemma BadgeAfterAdd(cart: Cart, p: Product)
    ensures HasId(cart, p.id) ==> Badge(AddToCart(cart, p)) == Badge(cart)
    ensures !HasId(cart, p.id) ==> Badge(AddToCart(cart, p)) == Some(|cart| + 1)
  {
  }

  /** The badge is not the unit count: two units of one product show 1. */
  lemma BadgeIsNotUnitCount()
    ensures var c := AddToCart(AddToCart(Empty, Product(2, "Phone X", 200.0, "", "mobiles")), Product(2, "Phone X", 200.0, "", "mobiles"));
            Badge(c) == Some(1) && Units(c) == 2
  {
    AddTwiceGivesOneLine(Empty, Product(2, "Phone X", 200.0, "", "mobiles"));
  }
}
