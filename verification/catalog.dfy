/**
 The product catalog and the search/category filter the store screen
 shows (`filteredProducts` in SharjeelE-commerceStore.js).
 */
module Catalog {
  import opened Text
  import opened Seqs

  /** A catalog record as the product endpoint delivers it. */
  datatype Product = Product(id: int, title: string, price: real, image: string, category: string)

  /** A category chip of the screen: the id it selects, its label and its icon name. */
  datatype Category = Category(id: string, name: string, icon: string)

  /**
   The category value the screen starts with. It is the only value the
   filter treats as "every category"; no chip ever selects it.
   */
  const AllCategory: string := "All"

  /** The chips, in screen order. The first is labelled "All" but selects the id "all". */
  const Categories: seq<Category> := [
    Category("all", "All", "apps"),
    Category("electronics", "Electronics", "tv"),
    Category("clothes", "Clothes", "shopping-bag"),
    Category("mobiles", "Mobiles", "phone")
  ]

  /**
   The filter's test for one product: the category matches (or is the
   wildcard) and the lower-cased title contains the lower-cased query.
   */
  predicate Keeps(p: Product, category: string, query: string)
    ensures Keeps(p, category, query) <==>
              (category == AllCategory || p.category == category)
              && exists i :: OccursAt(ToLower(p.title), ToLower(query), i)
  {
    (category == AllCategory || p.category == category)
    && Includes(ToLower(p.title), ToLower(query))
  }

  /**
   The products the screen lists, in catalog order. Every occurrence of a
   kept record is listed, so a record that appears twice in the catalog
   is listed twice.
   */
  function Visible(products: seq<Product>, category: string, query: string): (r: seq<Product>)
    ensures SubsequenceOf(r, products)
    ensures forall p :: p in r <==> p in products && Keeps(p, category, query)
    decreases |products|
  {
    if |products| == 0 then
      []
    else
      var rest := Visible(products[1..], category, query);
      assert forall p :: p in products <==> p == products[0] || p in products[1..];
      if Keeps(products[0], category, query) then
        var r := [products[0]] + rest;
        assert r[1..] == rest;
        r
      else
        rest
  }

  /**
   The filter keeps every occurrence of a kept record: each record is
   listed as often as it occurs in the catalog, or not at all.
   */
  lemma {:induction false} VisibleKeepsEveryOccurrence(products: seq<Product>, category: string, query: string)
    ensures forall p :: multiset(Visible(products, category, query))[p]
                        == (if Keeps(p, category, query) then multiset(products)[p] else 0)
    decreases |products|
  {
    if |products| > 0 {
      VisibleKeepsEveryOccurrence(products[1..], category, query);
      assert products == [products[0]] + products[1..];
      assert multiset(products) == multiset([products[0]]) + multiset(products[1..]);
    }
  }

  /** With an empty query, only the category decides. */
  lemma EmptyQueryFiltersOnCategory(p: Product, category: string)
    ensures Keeps(p, category, "") <==> (category == AllCategory || p.category == category)
  {
    IncludesEmpty(ToLower(p.title));
  }

  /** The initial filter (wildcard category, empty query) shows the whole catalog. */
  lemma {:induction false} InitialFilterShowsAll(products: seq<Product>)
    ensures Visible(products, AllCategory, "") == products
    decreases |products|
  {
    if |products| > 0 {
      EmptyQueryFiltersOnCategory(products[0], AllCategory);
      InitialFilterShowsAll(products[1..]);
      assert products == [products[0]] + products[1..];
    }
  }

  /** The search ignores case: a query and its lower-cased form list the same products. */
  lemma {:induction false} SearchIgnoresCase(products: seq<Product>, category: string, query: string)
    ensures Visible(products, category, query) == Visible(products, category, ToLower(query))
    decreases |products|
  {
    ToLowerIdempotent(query);
    if |products| > 0 {
      SearchIgnoresCase(products[1..], category, query);
    }
  }

  /** Filtering an already filtered list with the same criteria changes nothing. */
  lemma {:induction false} VisibleIdempotent(products: seq<Product>, category: string, query: string)
    ensures Visible(Visible(products, category, query), category, query) == Visible(products, category, query)
    decreases |products|
  {
    if |products| > 0 {
      VisibleIdempotent(products[1..], category, query);
      var rest := Visible(products[1..], category, query);
      if Keeps(products[0], category, query) {
        assert ([products[0]] + rest)[1..] == rest;
      }
    }
  }

  /**
   As written, the "All" chip selects "all", which is compared with the
   product's category literally: a catalog of clothes shows nothing.
   */
  lemma AllChipHidesCatalog()
    ensures Categories[0].name == "All"
    ensures Visible([Product(1, "Red Shirt", 20.0, "", "clothes")], Categories[0].id, "") == []
  {
  }

  /** Any product not literally in category "all" is hidden by the "All" chip. */
  lemma AllChipHidesEveryRealCategory(products: seq<Product>, query: string, p: Product)
    requires p.category != Categories[0].id
    ensures p !in Visible(products, Categories[0].id, query)
  {
  }

  /**
   The evidently intended filter: the chip id "all" is a wildcard just as
   the initial "All" is.
   */
  function VisibleIntended(products: seq<Product>, category: string, query: string): (r: seq<Product>)
    ensures SubsequenceOf(r, products)
    ensures category != Categories[0].id ==> r == Visible(products, category, query)
  {
    Visible(products, if category == Categories[0].id then AllCategory else category, query)
  }

  /** With the intended filter, tapping "All" with an empty query lists the whole catalog. */
  lemma AllChipShowsCatalogWhenIntended(products: seq<Product>)
    ensures VisibleIntended(products, Categories[0].id, "") == products
  {
    InitialFilterShowsAll(products);
  }

  /** With the intended filter, the "all" chip filters as the initial "All" does, for every query. */
  lemma AllChipActsAsInitialWhenIntended(products: seq<Product>, query: string)
    ensures VisibleIntended(products, Categories[0].id, query) == Visible(products, AllCategory, query)
  {
  }

  /** With the intended filter, every chip id except "all" filters exactly as written. */
  lemma IntendedAgreesOnRealCategories(products: seq<Product>, query: string, i: int)
    requires 1 <= i < |Categories|
    ensures VisibleIntended(products, Categories[i].id, query) == Visible(products, Categories[i].id, query)
  {
    assert Categories[i].id != Categories[0].id by {
      assert Categories[i].id[0] != Categories[0].id[0];
    }
  }

  /** A shirt and a phone, filtered on "clothes" with no query: only the shirt is listed. */
  lemma ClothesScenario()
    ensures Visible([Product(1, "Red Shirt", 20.0, "", "clothes"), Product(2, "Phone X", 200.0, "", "mobiles")], "clothes", "")
            == [Product(1, "Red Shirt", 20.0, "", "clothes")]
  {
    var shirt := Product(1, "Red Shirt", 20.0, "", "clothes");
    var phone := Product(2, "Phone X", 200.0, "", "mobiles");
    EmptyQueryFiltersOnCategory(shirt, "clothes");
    EmptyQueryFiltersOnCategory(phone, "clothes");
    assert [shirt, phone][1..] == [phone];
  }
}
