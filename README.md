# Storefront demo: cart, catalog, listing, cart page and login, in Dafny

This project models the sequential logic of a small storefront front end written in JavaScript
(`assets/js/main.js`, `products.js`, `cart.js`, `login.js`) and proves properties of that model.

- **Cart store.** `Cart` in `main.js` is a mutable, insertion-ordered list of line items.
  - `addItem` merges a product into an existing line or appends a new one.
  - `removeItem` filters by strict (`===`) id equality.
  - `updateQuantity` clamps the quantity to at least 1.
  - `getTotal` and the display count are left folds.
  - `save` writes the whole list to storage.
  - In the model: the class `CartStore.Cart`, over a `Storage.Store` object that holds the
    already-parsed `localStorage` values. The pure transitions live in `CartModel`, together
    with the lemmas that show they keep ids distinct and quantities at least 1.
- **Catalog.** `Products` in `main.js` models as `Catalog.Products`, whose `data` is an
  `array<Product>`. `getAll` hands out that array itself, so sorting what it returns reorders
  the catalog. The queries are functions on `data[..]`:
  - exact category match;
  - `parseInt` id lookup, with `parseInt` following section 19.2.5 of ECMA-262;
  - case-insensitive substring search.
- **Products page** (`products.js`, module `ProductsPage`):
  - which products the page shows on load;
  - the category and price filters;
  - the star string;
  - the add-to-cart button;
  - the sort control, which reorders arrays in place: `reverse` is the swap loop of section
    23.1.3.26 of ECMA-262, and `sort` is a stable insertion sort;
- **Cart page** (`cart.js`, module `CartPage`):
  - order-summary arithmetic (free shipping strictly above 100, 8% tax);
  - the rows;
  - the quantity and remove buttons. Ids are typed `Id = NumId(int) | StrId(string)`, so the
    handlers' comparison of the string `data-id` with numeric ids shows up (see Findings);
  - the empty-cart guard of checkout.
- **Login page** (`login.js`, module `LoginPage`). The regular expression
  `^[^\s@]+@[^\s@]+\.[^\s@]+$` becomes a matcher with one state per position in the pattern.
  The matcher is proved to accept exactly the strings of the pattern's language. That language
  is stated directly with split indices. `handleLogin` is gated on the matcher.

Money is an exact `real` and ratings are `nat` tenths of a star (4.8 is 48).
`Wrappers` (Option) and `Seqs` (Filter and subsequence facts) are helpers.

Four behaviours of the code worth knowing:
- `search('')` returns the whole catalog (`main.js:233`). `''.includes` is true, so every product
  matches.
- A price of exactly 100 is in the `'100-250'` bucket (`products.js:125`).
- A line item copies every field of the product, rating and reviews included, because the spread
  `{...product, quantity: 1}` (`main.js:20`) copies them all.
- `init` (`main.js:11`) has no fallback for corrupt stored data. Only an absent key, or stored text that parses
  to a falsy value (`null`, `false`, `0`, `""`), gives the empty cart; `save` never writes such
  text.

## Model

| member | source | states |
|---|---|---|
| CartModel.AtLeastOne | assets/js/main.js:36 | `Math.max(1, q)` is at least 1 and at least q, and is one of the two |
| CartModel.Find | assets/js/main.js:16 | the index found is the first item whose id strictly equals the value (`Matches`, the `===` test); None says no item matches |
| CartModel.TextIdNeverFound | assets/js/main.js:34 | a string id never finds an item, because item ids are numbers and `===` does not convert |
| CartModel.Added | assets/js/main.js:15-21 | an id already present: only the first matching item changes, it gains one unit, and the length stays the same; a new id: exactly `items + [LineItem(p, 1)]`, the item keeping the whole product |
| CartModel.Removed | assets/js/main.js:27-28 | keeps exactly the items whose id is not strictly equal to x (`KeepsItem`, the `!==` test); an absent id leaves the list unchanged |
| Seqs.Filter | assets/js/main.js:28 | `Array.prototype.filter`: an element is in the result exactly when it is in the input and passes the test; the result is no longer than the input; when every element passes, the result is the input |
| Seqs.FilterMultiset | assets/js/main.js:28 | `filter` keeps every copy of an element that passes the test and no copy of one that fails |
| CartModel.RemovedKeepsOrder | assets/js/main.js:28 | what is kept is an order-preserving subsequence of the old list |
| CartModel.RemovedOnlyMatch | assets/js/main.js:28 | when only item k holds the id, removal deletes exactly item k |
| CartModel.Updated | assets/js/main.js:33-36 | only the first strictly matching item changes, and it gets `Math.max(1, q)`; others, length and order unchanged; no match changes nothing |
| CartModel.LineSubtotal | assets/js/main.js:43 | `price * quantity` of one line: never negative for a non-negative price and quantity, 0 for no units, the unit price for one |
| CartModel.Total | assets/js/main.js:42-44 | left fold of `price * quantity`; non-negative prices and quantities give a non-negative total |
| CartModel.Count | assets/js/main.js:50-52 | the sum of quantities is at least the number of lines when every quantity is positive |
| CartModel.AddedKeepsIdsUnique | assets/js/main.js:15-21 | pairwise distinct ids stay distinct after adding |
| CartModel.UpdatedKeepsIdsUnique | assets/js/main.js:33-36 | pairwise distinct ids stay distinct after a quantity update |
| CartModel.FilterKeepsIdsUnique | assets/js/main.js:28 | filtering a list with distinct ids keeps them distinct |
| CartModel.RemovedKeepsIdsUnique | assets/js/main.js:27-28 | pairwise distinct ids stay distinct after removal |
| CartModel.AddedKeepsQuantitiesPositive | assets/js/main.js:15-21 | all quantities stay at least 1 after adding |
| CartModel.UpdatedKeepsQuantitiesPositive | assets/js/main.js:33-36 | all quantities stay at least 1 after an update, whatever q is |
| CartModel.RemovedKeepsQuantitiesPositive | assets/js/main.js:27-28 | all quantities stay at least 1 after removal |
| CartModel.RemovedUniqueIsDeletion | assets/js/main.js:27-28 | with distinct ids, removing a present id deletes exactly the one item at its index |
| CartModel.TotalConcat | assets/js/main.js:42-44 | the total of a concatenation is the sum of the totals |
| CartModel.CountConcat | assets/js/main.js:50-52 | the count of a concatenation is the sum of the counts |
| CartModel.ReplaceAt | assets/js/main.js:42-44 | replacing one item changes the total by the difference of the two row subtotals and the count by the difference of the two quantities |
| CartModel.OneMoreUnit | assets/js/main.js:18 | one more unit raises a row subtotal by exactly the unit price |
| CartModel.AddedTotals | assets/js/main.js:15-21 | adding raises the count by 1 and the total by one unit price: the existing line's price on a merge, the product's price on an append |
| CartModel.UpdatedTotals | assets/js/main.js:33-36 | an update changes the total and the count by the change of the one matched row |
| CartModel.RemovedTotals | assets/js/main.js:27-28 | with distinct ids, removing a present id subtracts exactly that row's subtotal and quantity |
| CartStore.Cart.constructor | assets/js/main.js:7-8 | a new cart holds no items and is bound to its storage |
| CartStore.Cart.Init | assets/js/main.js:10-11 | an absent stored cart gives `[]`; otherwise the stored list is adopted as it is |
| CartStore.Cart.Save | assets/js/main.js:46-48 | the stored copy becomes exactly the current list |
| CartStore.Cart.AddItem | assets/js/main.js:15-23 | the new items are `Added(old items, p)`, the stored copy equals them, distinct ids are preserved, and the count rises by 1 |
| CartStore.Cart.RemoveItem | assets/js/main.js:27-29 | the new items are `Removed(old items, x)` and the copy is saved even when nothing matched; distinct ids are preserved |
| CartStore.Cart.UpdateQuantity | assets/js/main.js:33-40 | the new items are `Updated(old items, x, q)`; saved exactly when an item matched, and with no match neither items nor storage change |
| CartStore.AddThenReload | assets/js/main.js:10-23 | after `addItem`, a cart loaded later from the same storage holds exactly the items the old cart holds |
| CartStore.RemoveThenReload | assets/js/main.js:10-31 | after `removeItem`, which always saves, a reloaded cart holds exactly the old cart's items |
| CartStore.UpdateThenReload | assets/js/main.js:10-40 | after `updateQuantity` with a match, a reloaded cart holds exactly the old cart's items; with no match nothing was written, so the reload sees what storage held before, or `[]` |
| Catalog.SeedData | assets/js/main.js:143-216 | the eight seed products |
| Catalog.SeedIdsUnique | assets/js/main.js:143-216 | the seed ids are pairwise distinct |
| Catalog.CategoryQuery | assets/js/main.js:222-224 | exactly the products whose category equals the argument, in catalog order; each matching product keeps exactly its number of copies, and no other product appears |
| Catalog.FirstWithId | assets/js/main.js:227 | the first product carrying id n, or None exactly when no product has it |
| Catalog.IdQuery | assets/js/main.js:226-228 | a text that parses to no number finds nothing; otherwise the first product with the parsed id |
| Catalog.IdQueryOfOwnId | assets/js/main.js:226-228 | with distinct ids, looking up the decimal text of a product's id finds that product |
| Catalog.SearchQuery | assets/js/main.js:230-236 | exactly the products whose lowercased name or category contains the lowercased query (`MatchesQuery`), in catalog order; each matching product keeps exactly its number of copies |
| Catalog.SearchEmptyKeepsAll | assets/js/main.js:230-236 | an empty query returns the whole catalog |
| Catalog.SearchIgnoresCase | assets/js/main.js:231 | the query's letter case does not change the result |
| Catalog.Products.constructor | assets/js/main.js:142-216 | the catalog array is fresh and holds the seed data |
| Catalog.Products.GetAll | assets/js/main.js:218-220 | returns the shared array itself, not a copy |
| Catalog.Products.GetByCategory | assets/js/main.js:222-224 | a fresh array holding the category query of the current data |
| Catalog.Products.GetById | assets/js/main.js:226-228 | the id query of the current data |
| Catalog.Products.Search | assets/js/main.js:230-236 | a fresh array holding the search query of the current data |
| Text.LowerChar | assets/js/main.js:231 | ASCII capitals map to their lower-case letter, everything else is unchanged, and no capital remains |
| Text.Lower | assets/js/main.js:231 | lower-cases character by character and keeps the length |
| Text.LowerIdempotent | assets/js/main.js:231-234 | lower-casing twice is lower-casing once |
| Text.Includes | assets/js/main.js:233-234 | `includes`: the empty string and every prefix of the text are included, and nothing longer than the text is |
| Text.IncludesIffOccurs | assets/js/main.js:233-234 | `includes` holds exactly when the text occurs at some index |
| Text.IncludesEmpty | assets/js/main.js:233 | every string includes the empty string |
| Text.NatToDecimal | assets/js/main.js:227 | the decimal text of n is non-empty, all digits, and has no leading zero |
| Text.IntToDecimal | assets/js/products.js:85 | `${product.id}` as written into a `data-id` attribute (also at cart.js:84-89): never empty, and `ParseIntOfDecimal` reads it back as the id |
| Text.DigitPrefix | assets/js/main.js:227 | the longest prefix made of digits: a prefix, all digits, and the next character is not a digit |
| Text.TrimStart | assets/js/main.js:227 | what remains does not start with white space |
| Text.TrimStartDropsWhitespace | assets/js/main.js:227 | the result is a suffix of the input, and every character before it is white space: exactly the leading white space is dropped |
| Text.ParseInt | assets/js/main.js:227 | after the leading white space: nothing left, or a first character that is neither a digit nor a sign, gives NaN; a first digit 1-9 gives a number, never negative; a leading `0` gives no negative number; a leading `-` gives no positive number |
| Text.DecimalDigits | assets/js/main.js:227 | the digits of the decimal text are the whole text and denote n |
| Text.MagnitudeOfDecimal | assets/js/main.js:227 | the magnitude read from the decimal text of n is n |
| Text.ParseIntOfDecimal | assets/js/main.js:227 | `parseInt(String(n)) == n` for every integer n |
| Text.ParseIntStopsAtNonDigit | assets/js/main.js:227 | `parseInt('12px')` is 12 |
| Text.ParseIntNegative | assets/js/main.js:227 | `parseInt(' -7')` is -7 |
| Text.ParseIntHex | assets/js/main.js:227 | `parseInt('0x1A')` is 26 |
| Text.ParseIntNaN | assets/js/main.js:227 | `parseInt` of `'abc'`, `''` and `'-'` is NaN |
| ProductsPage.InitialProducts | assets/js/products.js:26-34 | a truthy (`Truthy`: present and non-empty) search parameter gives the search of the whole catalog; otherwise a truthy category gives that category; otherwise the whole catalog; always a subsequence of the catalog; with a search or category parameter, each product passing the test keeps exactly its number of copies |
| ProductsPage.SearchOverridesCategory | assets/js/products.js:28-34 | with a search parameter, the category parameter makes no difference |
| ProductsPage.InPriceRange | assets/js/products.js:122-131 | a range value the switch does not list keeps every product |
| ProductsPage.PriceRangeBoundaries | assets/js/products.js:124-128 | 100 is only in '100-250'; 250 is in both '100-250' and '250-500'; 1000 is in '500-1000' but not '1000+' |
| ProductsPage.PriceRangesCoverAndOverlap | assets/js/products.js:124-128 | every price is in some range, and two different ranges share a price only at 250 or 500 |
| ProductsPage.ApplyFilters | assets/js/products.js:107-135 | an order-preserving subsequence of the whole current catalog holding exactly the products that pass the category test (`CategoryAllowed`) and the selected range; with no filter, the whole catalog; each product passing both tests keeps exactly its number of copies, and failing ones none |
| ProductsPage.ApplyFiltersIsOnePass | assets/js/products.js:111-132 | the two filter steps equal one filter by the conjunction of the category test and the price test |
| ProductsPage.Stars | assets/js/products.js:72 | floor(rating) full stars, then one half star exactly when the tenths digit is at least 5, and never an extra full star |
| ProductsPage.StarExamples | assets/js/products.js:72 | 4.3 gives four stars; 4.5 gives four stars and a half |
| ProductsPage.ProductCard | assets/js/products.js:71-90 | `createProductCard`: the card keeps its product and its `Stars` string, and `parseInt` of its button's `data-id` gives back the product's id |
| ProductsPage.RenderProducts | assets/js/products.js:47-55 | the empty message exactly for no products; otherwise one card per product in order, its button carrying the decimal id |
| ProductsPage.OnAddToCartClick | assets/js/products.js:58-66 | a found product is added and saved; no match changes nothing; on a card of a catalog with distinct ids, the card's own product is added |
| ProductsPage.SortKeyOf | assets/js/products.js:151-162 | a comparator exactly for 'price-low', 'price-high' and 'rating'; 'newest' and unknown values have none |
| ProductsPage.Rank | assets/js/products.js:153-162 | the key each comparator orders by; the rating key is never positive, so a higher rating ranks first |
| ProductsPage.Comparator | assets/js/products.js:153-162 | each comparator as written is the difference of the two products' ranks: negative exactly when the first ranks lower, zero exactly when they tie |
| ProductsPage.Insert | assets/js/products.js:153-162 | inserting one product lengthens the sequence by one |
| ProductsPage.InsertPermutes | assets/js/products.js:153-162 | insertion adds exactly the one product to the multiset |
| ProductsPage.InsertKeepsOrder | assets/js/products.js:153-162 | insertion into an ordered sequence keeps it ordered |
| ProductsPage.SortBy | assets/js/products.js:153-162 | same length, a permutation of the input, and ordered by the comparator's rank |
| ProductsPage.InsertOfRank | assets/js/products.js:153-162 | insertion keeps the equal-rank products in their order, putting the new one first among them |
| ProductsPage.SortIsStable | assets/js/products.js:153-162 | products of equal rank keep their relative order |
| ProductsPage.Reversed | assets/js/products.js:165 | reversal keeps the length |
| ProductsPage.ReversedTwice | assets/js/products.js:163-166 | reversing twice restores the order |
| ProductsPage.ReversedMultiset | assets/js/products.js:165 | reversal is a permutation |
| ProductsPage.SortedProducts | assets/js/products.js:151-167 | always a permutation; 'price-low' gives non-decreasing prices, 'price-high' non-increasing prices, 'rating' non-increasing ratings, 'newest' the reversal, and any other value the input unchanged |
| ProductsPage.ReverseInPlace | assets/js/products.js:165 | the array ends holding the reversal of what it held |
| ProductsPage.SortInPlace | assets/js/products.js:153-167 | the array ends holding `SortedProducts` of what it held |
| ProductsPage.OnSortChange | assets/js/products.js:141-169 | with a category parameter, a fresh filtered array is sorted and the catalog is untouched; without one, the catalog's own array is reordered and shown |
| ProductsPage.NewestTwiceRestoresCatalog | assets/js/products.js:142-165 | two 'newest' events without a category parameter give the catalog back its original order |
| CartPage.Shipping | assets/js/cart.js:102 | 0 exactly when the subtotal is above 100, and 9.99 otherwise |
| CartPage.Summarize | assets/js/cart.js:100-106 | count is the sum of quantities and subtotal is `getTotal`; shipping follows `Shipping`, tax is 8% of the subtotal, and the total is subtotal + shipping + tax; so the total is subtotal × 1.08 above 100 and subtotal × 1.08 + 9.99 otherwise |
| CartPage.SummaryExamples | assets/js/cart.js:101-104 | a subtotal of 25 pays 9.99 shipping and 2.00 tax, 36.99 in all; 150 ships free with 12.00 tax, 162.00 in all |
| CartPage.ThresholdLowersTotal | assets/js/cart.js:102-104 | a subtotal of 100 costs more in total than one of 101 |
| CartPage.RenderCart | assets/js/cart.js:21-35 | the empty state exactly for an empty cart; otherwise one row per item carrying its decimal id and subtotal `price * quantity`, plus the summary |
| CartPage.QuantityRequest | assets/js/cart.js:45-51 | increase asks for one more; decrease asks for one fewer exactly when the quantity is above 1; other actions ask nothing; a request from a positive quantity is at least 1 |
| CartPage.AfterQuantityButton | assets/js/cart.js:42-51 | the length is kept; no match or an unknown action changes nothing; on a match only the found item changes, keeping its product: increase gives one more unit, decrease one fewer above 1 and nothing at 1 |
| CartPage.QuantityControl | assets/js/cart.js:42-51 | the items become `AfterQuantityButton` of the old items; storage changes only when the items do, and then holds them |
| CartPage.OnQuantityButtonAsWritten | assets/js/cart.js:38-54 | as written, with the string `data-id`, neither the items nor storage change |
| CartPage.OnRemoveButtonAsWritten | assets/js/cart.js:58-64 | as written, nothing is removed, but storage is rewritten |
| CartPage.DatasetIdChangesNothing | assets/js/cart.js:40-42 | for every cart, string id and action, the quantity buttons and removal leave the items as they are |
| CartPage.OnQuantityButton | assets/js/cart.js:38-54 | with the id read by `parseInt`: a text that is not a number changes nothing; otherwise the items become `AfterQuantityButton` for that id, and storage changes only when the items do, and then holds them |
| CartPage.OnRemoveButton | assets/js/cart.js:58-64 | with the id read by `parseInt`: a text that is not a number changes nothing; otherwise `Removed` for that id, saved |
| CartPage.DatasetId | assets/js/cart.js:40 | `parseInt` of the `data-id` text: NaN exactly when `parseInt` gives NaN, and otherwise always a numeric id, the parsed value |
| CartPage.RowIdFindsRow | assets/js/cart.js:84-89 | with distinct ids, the `data-id` of row k parses back to the id of item k, and finding it gives k |
| CartPage.FindDistinct | assets/js/cart.js:42 | with distinct ids, finding item k's id gives index k |
| CartPage.ButtonsActOnTheirRow | assets/js/cart.js:38-54 | with parsed ids, the buttons of row k change only item k: increase adds one, decrease removes one only above 1, anything else changes nothing; ids stay distinct and quantities at least 1 |
| CartPage.RemoveActsOnItsRow | assets/js/cart.js:58-62 | with parsed ids, row k's remove button deletes exactly item k |
| CartPage.HandleCheckout | assets/js/cart.js:114-121 | the empty-cart notice exactly when the cart is empty |
| LoginPage.IsValidEmail | assets/js/login.js:53-56 | the matcher accepts exactly the strings with a non-empty `[^\s@]` local part, `@`, a non-empty host, `.`, and a non-empty last part |
| LoginPage.RunAccepts | assets/js/login.js:54 | from every state, the matcher ends accepting exactly when the rest of the input is in that state's language |
| LoginPage.StepAccepts | assets/js/login.js:54 | each step of the matcher keeps exactly the accepted rests |
| LoginPage.StartIsPattern | assets/js/login.js:54 | the start state's language is the pattern's language |
| LoginPage.AcceptedEmailShape | assets/js/login.js:54 | an accepted address has exactly one `@`, not in first place, a dot after it with a character on each side, and no white space |
| LoginPage.EmailExamples | assets/js/login.js:54 | `a@b.c` is accepted; `a@b`, `a@.c` and the empty string are rejected |
| LoginPage.HandleLogin | assets/js/login.js:22-50 | a rejected address returns before any storage write; an accepted one stores the address and `isLoggedIn = 'true'` |

## Left out

- DOM and presentation are not modelled: HTML templates, `innerHTML`, listener wiring, display
  toggling, the page title, the injected style blocks and the create-account `alert`. A card or a
  cart row keeps only its product or item, its `data-id` and its numbers.
- `showNotification`, `alert`, redirects and timers are omitted. The login `setTimeout` is played
  as immediate, and the checkout timer is dropped. `HandleCheckout` only says which notice
  appears.
- `localStorage` holds already-parsed values. `JSON.parse` and `JSON.stringify` are left out, and
  so are the exception `init` raises on corrupt data and stored values that are truthy but not
  arrays.
- `URLSearchParams` and the DOM's checked boxes and selected radio button are inputs to the
  functions.
- `updateCartCount` writes the count into every `#cart-count` element. Only the number is
  modelled (`CartStore.Cart.ItemCount`).
- `toLocaleString`, `toFixed` rounding and the `$` formatting are left out. Money is exact, so the
  model has no IEEE rounding.
- Text.Lower: only ASCII letters are lower-cased. `toLowerCase` covers all of Unicode.
- Strings are sequences of Unicode scalar values, not UTF-16 code units.
- Text.ParseInt: decimal and `0x` only. Numbers past the exact range of a double, and `-0`, are
  not distinguished.
- ProductsPage.SortBy: `Array.prototype.sort` is modelled as a stable insertion sort. The
  engine's algorithm differs, but any stable sort gives the same result.
- `Search`, `SmoothScroll` and `BackToTop` in `main.js` are outside this model.
- CartStore.Cart.GetTotal and `CartStore.Cart.ItemCount` only read `Total` and `Count`,
  whose contracts and lemmas carry the properties.

## Findings

| source | as written | input that shows it | evidently intended | confidence | as-written member | corrected member |
|---|---|---|---|---|---|---|
| assets/js/cart.js:40-61 | The handlers pass the string `btn.dataset.id` to `Cart.items.find(i => i.id === productId)`, to `updateQuantity` and to `removeItem`. All of them compare it with the numeric ids stored with `===`, which never holds between a string and a number. | a cart holding product 1, then a click on "+" or "Delete" in its row (`data-id="1"`) | the row's own item changes: one more unit, one fewer above 1, or removal, as `getById` does by calling `parseInt` first | not executed | CartPage.OnQuantityButtonAsWritten, CartPage.OnRemoveButtonAsWritten, CartPage.DatasetIdChangesNothing | CartPage.OnQuantityButton, CartPage.OnRemoveButton, CartPage.ButtonsActOnTheirRow, CartPage.RemoveActsOnItsRow |
