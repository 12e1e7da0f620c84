# Storefront cart and catalog filter, modelled in Dafny

This project models the state logic of a single-screen mobile storefront
(`SharjeelE-commerceStore.js`). Once the catalog has been fetched, the screen
lists the products that pass a category and search filter. It keeps a
shopping cart of product lines with quantities, and it shows a cart badge,
the subtotal, a 10% discount above 100, and the amount to pay.

Modules:

- `Text` (text.dfy): ASCII lower-casing (`toLowerCase`) and substring search (`includes`).
- `Seqs` (seqs.dfy): order-preserving subsequences. This is the shape of every `filter` result.
- `Catalog` (catalog.dfy): the product record, the category chips, and the filter behind `filteredProducts`.
- `ShoppingCart` (cart.dfy): cart lines, `find`, `addToCart`, `removeFromCart`, the cart invariant and the badge.
- `Totals` (totals.dfy): `totalAmount`, `discount` and `finalAmount`, over exact reals.
- `Store` (store.dfy): the screen state after loading, the user events that change it, and the invariants every run of events keeps.

Prices are exact `real`s, and the discount rate is exactly one tenth.
Product ids and quantities are unbounded `int`s. A cart line holds the product
record plus a quantity. The source spreads the product's fields into the line
object; here the product is kept as one field. A re-added product keeps the
fields of its first addition, its price included.

Three behaviours of the code are worth stating up front:

- The "All" chip selects the id `'all'`. The filter treats only the exact string `'All'` as a wildcard, so the chip lists only products whose category is literally `'all'` (see Findings).
- `map` bumps every line with the product's id, and `filter` drops every such line. The model does the same. Under `ShoppingCart.Valid`, `ShoppingCart.AddExistingIncrementsOne` and `ShoppingCart.RemoveDropsOneLine` show that exactly one line is touched.
- Prices are never checked. Only the non-negativity clause of `Totals.Subtotal` assumes that they are non-negative.

## Model

| member | source | states |
|---|---|---|
| Text.ToLowerIdempotent | SharjeelE-commerceStore.js:54 | lower-casing an already lower-cased title or query changes nothing |
| Text.ToLower | SharjeelE-commerceStore.js:54 | lower-casing keeps the length and leaves no upper-case letter. Every other character stays where it was, and each of `A`..`Z` becomes its lower-case partner |
| Text.Includes | SharjeelE-commerceStore.js:54 | `includes` is true exactly when the query occurs at some position of the title |
| Text.IncludesEmpty | SharjeelE-commerceStore.js:54 | every title includes the empty query |
| Catalog.Keeps | SharjeelE-commerceStore.js:53-54 | a product passes the test exactly when its category matches or the category is the initial "All", and the lower-cased query occurs at some position of the lower-cased title |
| Catalog.Visible | SharjeelE-commerceStore.js:51-55 | the listed products are an order-preserving subsequence of the catalog; a product is listed iff it is in the catalog, its category matches (or the category is the initial "All"), and its lower-cased title contains the lower-cased query. |
| Catalog.VisibleKeepsEveryOccurrence | SharjeelE-commerceStore.js:51-55 | each kept record is listed as many times as it occurs in the catalog, and a record that is not kept is never listed |
| Catalog.EmptyQueryFiltersOnCategory | SharjeelE-commerceStore.js:53-54 | with an empty query, only the category decides whether a product is kept |
| Catalog.InitialFilterShowsAll | SharjeelE-commerceStore.js:51-55 | category "All" with an empty query lists the whole catalog, unchanged and in order |
| Catalog.SearchIgnoresCase | SharjeelE-commerceStore.js:54 | a query and its lower-cased form list the same products |
| Catalog.VisibleIdempotent | SharjeelE-commerceStore.js:51-55 | filtering the listed products again with the same criteria changes nothing |
| Catalog.AllChipHidesCatalog | SharjeelE-commerceStore.js:29-34 | the chip labelled "All" selects "all", and with it a catalog holding only a shirt in "clothes" lists nothing |
| Catalog.AllChipHidesEveryRealCategory | SharjeelE-commerceStore.js:53 | under the "All" chip, every product whose category is not literally "all" is hidden |
| Catalog.VisibleIntended | SharjeelE-commerceStore.js:51-55 | the corrected filter is still a subsequence of the catalog, and it agrees with the as-written filter for every category other than "all" |
| Catalog.AllChipShowsCatalogWhenIntended | SharjeelE-commerceStore.js:30 | with the corrected filter, the "All" chip and an empty query list the whole catalog |
| Catalog.AllChipActsAsInitialWhenIntended | SharjeelE-commerceStore.js:22-30 | with the corrected filter, the "All" chip filters exactly as the initial "All" does, for every query |
| Catalog.IntendedAgreesOnRealCategories | SharjeelE-commerceStore.js:31-33 | the electronics, clothes and mobiles chips filter the same under both filters |
| Catalog.ClothesScenario | SharjeelE-commerceStore.js:51-55 | with a shirt and a phone in the catalog, the clothes category and no query list only the shirt |
| ShoppingCart.EmptyIsValid | SharjeelE-commerceStore.js:18 | the initial empty cart meets the invariant: unique ids, and every quantity at least 1 |
| ShoppingCart.Find | SharjeelE-commerceStore.js:58 | `find` returns nothing iff no line has the id; otherwise it returns the first line with that id |
| ShoppingCart.IncrementMatching | SharjeelE-commerceStore.js:61-63 | the `map` keeps the length and every line's product fields, leaves lines for other ids unchanged, and gives each line for the id one more unit |
| ShoppingCart.AddToCart | SharjeelE-commerceStore.js:57-68 | for a present id: same length and product fields, other lines unchanged, each line with the id gains one unit; for an absent id: the old cart followed by one new line of quantity 1. Either way the cart then holds exactly its old ids plus the product's |
| ShoppingCart.AddExistingIncrementsOne | SharjeelE-commerceStore.js:59-64 | in a valid cart, re-adding a product is the cart with exactly that one line's quantity raised by 1 |
| ShoppingCart.AddTwiceGivesOneLine | SharjeelE-commerceStore.js:57-68 | adding a new product twice yields one line of quantity 2, never two lines |
| ShoppingCart.AddPreservesValid | SharjeelE-commerceStore.js:57-68 | adding keeps ids unique and quantities at least 1 |
| ShoppingCart.RemoveFromCart | SharjeelE-commerceStore.js:70-72 | the result holds exactly the lines whose id differs; no line with the id is left; it is a no-op when the id is absent |
| ShoppingCart.RemoveKeepsOrder | SharjeelE-commerceStore.js:71 | the remaining lines are an order-preserving subsequence of the cart |
| ShoppingCart.RemoveAppend | SharjeelE-commerceStore.js:71 | removal splits over concatenation of carts |
| ShoppingCart.RemoveIdempotent | SharjeelE-commerceStore.js:70-72 | removing twice equals removing once |
| ShoppingCart.SubsequenceKeepsValid | SharjeelE-commerceStore.js:71 | any order-preserving subsequence of a valid cart is valid |
| ShoppingCart.RemovePreservesValid | SharjeelE-commerceStore.js:70-72 | removal keeps ids unique and quantities at least 1 |
| ShoppingCart.RemoveDropsOneLine | SharjeelE-commerceStore.js:70-72 | in a valid cart, removing a present id deletes exactly its line and keeps the rest in order |
| ShoppingCart.RemoveUndoesAddNew | SharjeelE-commerceStore.js:65-72 | removing a product just added as new gives back the original cart |
| ShoppingCart.RemoveAfterAdd | SharjeelE-commerceStore.js:57-72 | removing an id after adding that product is the same as removing it without the add |
| ShoppingCart.Badge | SharjeelE-commerceStore.js:133-135 | the badge is hidden exactly when the cart holds no product id; in a valid cart the number it shows is the number of distinct product ids |
| ShoppingCart.DistinctIdsCount | SharjeelE-commerceStore.js:133-135 | a valid cart has exactly as many lines (`cart.length`) as distinct product ids |
| ShoppingCart.BadgeAfterAdd | SharjeelE-commerceStore.js:133-135 | re-adding a product leaves the badge unchanged; adding a new one raises it by one |
| ShoppingCart.BadgeIsNotUnitCount | SharjeelE-commerceStore.js:133-135 | two units of one product show a badge of 1, not 2 |
| Totals.Subtotal | SharjeelE-commerceStore.js:74 | the `reduce` over the cart; with non-negative prices and quantities the subtotal is non-negative |
| Totals.SubtotalAppend | SharjeelE-commerceStore.js:74 | the subtotal of two carts laid end to end is the sum of their subtotals |
| Totals.SubtotalIsSumOfLines | SharjeelE-commerceStore.js:74 | the left-to-right `reduce` equals the sum over lines of price times quantity |
| Totals.SubtotalUpdate | SharjeelE-commerceStore.js:74 | replacing one line changes the subtotal by the difference of the two line totals |
| Totals.SubtotalAfterAddNew | SharjeelE-commerceStore.js:74 | adding a product not in the cart raises the subtotal by its price |
| Totals.SubtotalAfterAddExisting | SharjeelE-commerceStore.js:74 | re-adding a product raises the subtotal by the price stored in its line |
| Totals.SubtotalAfterRemove | SharjeelE-commerceStore.js:74 | removing a product lowers the subtotal by its line's total |
| Totals.EmptyCartTotalsZero | SharjeelE-commerceStore.js:74-76 | for the empty cart, subtotal, discount and final amount are all 0 |
| Totals.Discount | SharjeelE-commerceStore.js:75 | at or below 100 there is no discount; above 100 the discount is exactly subtotal/10 |
| Totals.FinalAmount | SharjeelE-commerceStore.js:76 | at or below 100 the amount to pay is the subtotal; above 100 it is 9/10 of the subtotal |
| Totals.DiscountShownIffAboveThreshold | SharjeelE-commerceStore.js:75 | the discount is positive exactly when the subtotal is strictly above 100 |
| Totals.FinalAmountBounds | SharjeelE-commerceStore.js:76 | for a non-negative subtotal, 0 <= final <= subtotal, and above the threshold the final amount exceeds 90 |
| Totals.FinalAmountNotMonotone | SharjeelE-commerceStore.js:75-76 | crossing the threshold can lower the amount to pay: 100 costs 100, and 110 costs 99 |
| Totals.DiscountExample | SharjeelE-commerceStore.js:75-76 | a subtotal of 150 gets 15 off and costs 135 |
| Totals.PhoneScenario | SharjeelE-commerceStore.js:57-76 | adding a 200 phone twice gives one line of quantity 2, a subtotal of 400, a discount of 40, and 360 to pay |
| Store.Init | SharjeelE-commerceStore.js:18-25 | the initial state has a valid, empty cart with no badge and lists every loaded product |
| Store.Step | SharjeelE-commerceStore.js:57-72 | the add and remove handlers (lines 57-72), the chip tap (line 103) and the search box (line 146): typing changes only the query and a chip tap only the category; the catalog never changes; after an add the product is in the cart, as a new line only if it was absent; after a remove no line has the id and every other line is kept |
| Store.StepKeepsCartValid | SharjeelE-commerceStore.js:57-72 | every user event keeps the cart invariant and the catalog |
| Store.RunKeepsCartValid | SharjeelE-commerceStore.js:57-72 | every run of events from a valid cart ends in a valid cart with the same catalog |
| Store.NoChipIsWildcard | SharjeelE-commerceStore.js:29-34 | no chip id equals the initial wildcard "All" |
| Store.WildcardNeverReturns | SharjeelE-commerceStore.js:103 | once a chip has been tapped, no run of chip taps and other events brings back the "All" wildcard |
| Store.ListedProductsComeFromCatalog | SharjeelE-commerceStore.js:51-55 | after any run of events, the listed products are an order-preserving subsequence of the catalog |

## Left out

- The catalog fetch, the `loading` and `error` flags and their effect hook (lines 36-49 and 110-124) are network I/O. The fetched product list is a parameter of `Store.Init`.
- Rendering, modals, navigation flags (`modalVisible`, `checkoutVisible`, `aboutVisible`, `selectedProduct`) and the style sheet are presentation only.
- `toFixed(2)` formatting and IEEE-754 arithmetic on prices and on the `0.1` factor are not modelled. Amounts are exact reals.
- The "Proceed to Payment" alert and the payment-method buttons have no behaviour.
- Text.ToLower: only ASCII letters are lower-cased. The Unicode case mappings of `toLowerCase` are not modelled.
- Product ids and quantities are unbounded integers. JavaScript number precision beyond 2^53 is not modelled. Ids are compared as integers, so a string id never meets a numeric one.
- React state batching is not modelled. Each event is applied to the state left by the one before it, so two taps that would read the same stale `cart` are not represented.
- A product record that itself carries a `quantity` field would be overwritten by the spread on line 66. Products here have no such field.

## Findings

| source | as written | input that shows it | evidently intended | confidence | as-written member | corrected member |
|---|---|---|---|---|---|---|
| SharjeelE-commerceStore.js:30 | the chip labelled "All" selects the id `'all'`, and line 53 only treats the exact string `'All'` as a wildcard | the "All" chip with a catalog of one "Red Shirt" in category "clothes" lists nothing | tapping "All" lists every category again, as the initial state does | high; not executed | Catalog.AllChipHidesCatalog | Catalog.VisibleIntended |

`Catalog.Visible` is the filter exactly as written. `Store.VisibleProducts`
uses it, so the store model shows the screen's real behaviour. By
`Store.WildcardNeverReturns`, once a chip has been tapped the wildcard
category `'All'` never comes back. `Catalog.VisibleIntended` maps the chip id
`'all'` to the wildcard. `Catalog.AllChipShowsCatalogWhenIntended` proves that
it then lists the whole catalog, `Catalog.AllChipActsAsInitialWhenIntended`
that for every query it filters as the initial state does, and `Catalog.IntendedAgreesOnRealCategories`
proves that nothing else changes.
