/**
 The screen's state after the catalog has loaded, and the user events
 that change it: typing a search, tapping a category chip, adding a
 product and removing a cart line.
 */
module Store {
  import opened Catalog
  import opened ShoppingCart
  import opened Seqs

  datatype State = State(products: seq<Product>, searchQuery: string, selectedCategory: string, cart: Cart)

  datatype Event =
    | Search(query: string)
    | ChooseCategory(categoryId: string)
    | Add(product: Product)
    | Remove(productId: int)

  /** The products listed on screen for a state. */
  function VisibleProducts(s: State): seq<Product>
  {
    Visible(s.products, s.selectedCategory, s.searchQuery)
  }

  /**
   The state once `products` has been fetched: empty search, the "All"
   wildcard and an empty cart. Every product is listed.
   */
  function Init(products: seq<Product>): (s: State)
    ensures s.products == products
    ensures Valid(s.cart) && Badge(s.cart).None?
    ensures VisibleProducts(s) == products
  {
    InitialFilterShowsAll(products);
    State(products, "", AllCategory, Empty)
  }

  /**
   One user event. Typing changes only the query, a chip tap only the
   category, and the cart events only the cart: an added product is then
   in the cart (as a new line only if it was absent), a removed one is not.
   */
  function Step(s: State, e: Event): (r: State)
    ensures r.products == s.products
    ensures e.Search? ==> r.searchQuery == e.query
    ensures !e.Search? ==> r.searchQuery == s.searchQuery
    ensures e.ChooseCategory? ==> r.selectedCategory == e.categoryId
    ensures !e.ChooseCategory? ==> r.selectedCategory == s.selectedCategory
    ensures e.Search? || e.ChooseCategory? ==> r.cart == s.cart
    ensures e.Add? ==> HasId(r.cart, e.product.id)
    ensures e.Add? ==> |r.cart| == |s.cart| + (if HasId(s.cart, e.product.id) then 0 else 1)
    ensures e.Remove? ==> !HasId(r.cart, e.productId)
    ensures e.Remove? ==> forall l :: l in r.cart <==> l in s.cart && l.Id() != e.productId
  {
    match e
    case Search(q) => s.(searchQuery := q)
    case ChooseCategory(c) => s.(selectedCategory := c)
    case Add(p) => s.(cart := AddToCart(s.cart, p))
    case Remove(id) => s.(cart := RemoveFromCart(s.cart, id))
  }

  /** A run of user events, applied in order. */
  function Run(s: State, es: seq<Event>): State
    decreases |es|
  {
    if |es| == 0 then s else Run(Step(s, es[0]), es[1..])
  }

  /** Every event keeps the cart invariant. */
  lemma StepKeepsCartValid(s: State, e: Event)
    requires Valid(s.cart)
    ensures Valid(Step(s, e).cart)
    ensures Step(s, e).products == s.products
  {
    match e
    case Add(p) => AddPreservesValid(s.cart, p);
    case Remove(id) => RemovePreservesValid(s.cart, id);
    case _ =>
  }

  /** Every state reached from a loaded catalog has a valid cart and the same catalog. */
  lemma {:induction false} RunKeepsCartValid(s: State, es: seq<Event>)
    requires Valid(s.cart)
    ensures Valid(Run(s, es).cart)
    ensures Run(s, es).products == s.products
    decreases |es|
  {
    if |es| > 0 {
      StepKeepsCartValid(s, es[0]);
      RunKeepsCartValid(Step(s, es[0]), es[1..]);
    }
  }

  /** Some chip of the screen selects `id`. */
  predicate IsChipId(id: string)
  {
    exists i :: 0 <= i < |Categories| && Categories[i].id == id
  }

  /** The category events of `es` all come from chip taps. */
  predicate ChipsOnly(es: seq<Event>)
  {
    forall i :: 0 <= i < |es| && es[i].ChooseCategory? ==> IsChipId(es[i].categoryId)
  }

  /** No chip selects the wildcard. */
  lemma NoChipIsWildcard(id: string)
    requires IsChipId(id)
    ensures id != AllCategory
  {
  }

  /**
   Once a chip has been tapped the wildcard never comes back: whatever
   the user does next, the list stays restricted to one category id.
   */
  lemma {:induction false} WildcardNeverReturns(s: State, es: seq<Event>)
    requires s.selectedCategory != AllCategory
    requires ChipsOnly(es)
    ensures Run(s, es).selectedCategory != AllCategory
    decreases |es|
  {
    if |es| > 0 {
      if es[0].ChooseCategory? {
        NoChipIsWildcard(es[0].categoryId);
      }
      assert ChipsOnly(es[1..]) by {
        assert forall i | 0 <= i < |es| - 1 :: es[1..][i] == es[i + 1];
      }
      WildcardNeverReturns(Step(s, es[0]), es[1..]);
    }
  }

  /** What the screen lists is always drawn from the catalog, in catalog order. */
  lemma {:induction false} ListedProductsComeFromCatalog(products: seq<Product>, es: seq<Event>)
    ensures SubsequenceOf(VisibleProducts(Run(Init(products), es)), products)
  {
    RunKeepsCartValid(Init(products), es);
  }
}
