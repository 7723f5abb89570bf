/** The product listing page, `products.js`: which products are shown first, the category and
    price filters, the star string on each card, the add-to-cart button, and the sort control,
    which sorts or reverses an array in place — the catalog's own array when no category
    parameter is present. */
module ProductsPage {
  import opened Wrappers
  import opened Seqs
  import opened Text
  import opened Catalog
  import opened CartModel
  import opened CartStore

  /** A URL parameter takes effect only when it is truthy: present and not empty. */
  predicate Truthy(param: Option<string>) {
    param.Some? && param.value != ""
  }

  // ---- what the page shows on load --------------------------------------------------------

  /** The load handler: start from `getAll()`, narrow to a `category` parameter, and then, when
      a `search` parameter is present, replace that with a search of the whole catalog. */
  function InitialProducts(catalog: Products, categoryParam: Option<string>, searchParam: Option<string>)
    : (r: seq<Product>)
    reads catalog.data
    ensures IsSubsequence(r, catalog.data[..])
    ensures Truthy(searchParam) ==>
              forall p :: p in r <==> p in catalog.data[..] && MatchesQuery(p, searchParam.value)
    ensures !Truthy(searchParam) && Truthy(categoryParam) ==>
              forall p :: p in r <==> p in catalog.data[..] && p.category == categoryParam.value
    ensures !Truthy(searchParam) && !Truthy(categoryParam) ==> r == catalog.data[..]
    ensures Truthy(searchParam) ==>
              forall p :: multiset(r)[p] == if MatchesQuery(p, searchParam.value) then multiset(catalog.data[..])[p] else 0
    ensures !Truthy(searchParam) && Truthy(categoryParam) ==>
              forall p :: multiset(r)[p] == if p.category == categoryParam.value then multiset(catalog.data[..])[p] else 0
  {
    var all := catalog.data[..];
    var products := if Truthy(categoryParam) then CategoryQuery(all, categoryParam.value) else all;
    SubsequenceReflexive(all);
    if Truthy(searchParam) then SearchQuery(all, searchParam.value) else products
  }

  /** A search parameter discards any category parameter. */
  lemma SearchOverridesCategory(catalog: Products, category: Option<string>, search: Option<string>)
    requires Truthy(search)
    ensures InitialProducts(catalog, category, search) == InitialProducts(catalog, None, search)
  {
  }

  // ---- filters ----------------------------------------------------------------------------

  /** The values of the price radio buttons. */
  const PriceRanges: set<string> := {"0-100", "100-250", "250-500", "500-1000", "1000+"}

  /** The `switch (priceRange)` of `applyFilters`; a value it does not list keeps every product. */
  function InPriceRange(range: string, price: real): (r: bool)
    ensures range !in PriceRanges ==> r
  {
    if range == "0-100" then price < 100.0
    else if range == "100-250" then 100.0 <= price <= 250.0
    else if range == "250-500" then 250.0 <= price <= 500.0
    else if range == "500-1000" then 500.0 <= price <= 1000.0
    else if range == "1000+" then price > 1000.0
    else true
  }

  /** The boundaries as the code draws them: 100 belongs only to "100-250", 250 to both
      "100-250" and "250-500", and 1000 to "500-1000" but not to "1000+". */
  lemma PriceRangeBoundaries()
    ensures !InPriceRange("0-100", 100.0) && InPriceRange("100-250", 100.0)
    ensures !InPriceRange("250-500", 100.0) && !InPriceRange("500-1000", 100.0) && !InPriceRange("1000+", 100.0)
    ensures InPriceRange("100-250", 250.0) && InPriceRange("250-500", 250.0)
    ensures InPriceRange("500-1000", 1000.0) && !InPriceRange("1000+", 1000.0)
  {
  }

  /** The five ranges leave no price out, and two different ranges share a price only at
      the inclusive boundaries 250 and 500. */
  lemma PriceRangesCoverAndOverlap(price: real)
    ensures exists range :: range in PriceRanges && InPriceRange(range, price)
    ensures forall a, b :: (a in PriceRanges && b in PriceRanges && a != b
              && InPriceRange(a, price) && InPriceRange(b, price)) ==> price == 250.0 || price == 500.0
  {
    if price < 100.0 {
      assert InPriceRange("0-100", price);
    } else if price <= 250.0 {
      assert InPriceRange("100-250", price);
    } else if price <= 500.0 {
      assert InPriceRange("250-500", price);
    } else if price <= 1000.0 {
      assert InPriceRange("500-1000", price);
    } else {
      assert InPriceRange("1000+", price);
    }
  }

  /** The category test: with no box checked there is no restriction; otherwise the product's
      category must be one of the checked values. */
  predicate CategoryAllowed(checked: seq<string>, category: string) {
    |checked| == 0 || category in checked
  }

  function CategoryTest(checked: seq<string>): Product -> bool {
    (p: Product) => p.category in checked
  }

  function PriceTest(range: string): Product -> bool {
    (p: Product) => InPriceRange(range, p.price)
  }

  /** `applyFilters`: the whole catalog (whatever order it is in now, and regardless of the URL
      parameters), narrowed by the checked categories and then by the selected price range. */
  function ApplyFilters(catalog: Products, checked: seq<string>, selectedPrice: Option<string>)
    : (r: seq<Product>)
    reads catalog.data
    ensures IsSubsequence(r, catalog.data[..])
    ensures forall p :: p in r <==> (p in catalog.data[..] && CategoryAllowed(checked, p.category)
                                   && (selectedPrice.None? || InPriceRange(selectedPrice.value, p.price)))
    ensures |checked| == 0 && selectedPrice.None? ==> r == catalog.data[..]
    ensures forall p :: multiset(r)[p] ==
              if CategoryAllowed(checked, p.category) && (selectedPrice.None? || InPriceRange(selectedPrice.value, p.price))
              then multiset(catalog.data[..])[p] else 0
  {
    var all := catalog.data[..];
    var products := if |checked| > 0 then Filter(all, CategoryTest(checked)) else all;
    var r := if selectedPrice.Some? then Filter(products, PriceTest(selectedPrice.value)) else products;
    assert IsSubsequence(r, all) by {
      SubsequenceReflexive(all);
      SubsequenceReflexive(products);
      if |checked| > 0 {
        FilterIsSubsequence(all, CategoryTest(checked));
      }
      if selectedPrice.Some? {
        FilterIsSubsequence(products, PriceTest(selectedPrice.value));
      }
      SubsequenceTransitive(r, products, all);
    }
    assert forall p :: multiset(r)[p] ==
             if CategoryAllowed(checked, p.category) && (selectedPrice.None? || InPriceRange(selectedPrice.value, p.price))
             then multiset(all)[p] else 0 by {
      if |checked| > 0 {
        FilterMultisets(all, CategoryTest(checked));
      }
      if selectedPrice.Some? {
        FilterMultisets(products, PriceTest(selectedPrice.value));
      }
    }
    r
  }

  /** The two narrowing steps of `applyFilters` are one pass over the catalog that keeps, in
      catalog order, exactly the products passing both tests. */
  lemma ApplyFiltersIsOnePass(catalog: Products, checked: seq<string>, selectedPrice: Option<string>)
    ensures ApplyFilters(catalog, checked, selectedPrice)
         == Filter(catalog.data[..], (p: Product) => CategoryAllowed(checked, p.category)
                   && (selectedPrice.None? || InPriceRange(selectedPrice.value, p.price)))
  {
    var all := catalog.data[..];
    var both := (p: Product) => CategoryAllowed(checked, p.category)
                  && (selectedPrice.None? || InPriceRange(selectedPrice.value, p.price));
    assert ApplyFilters(catalog, checked, selectedPrice) == Filter(all, both) by {
      if |checked| > 0 && selectedPrice.Some? {
        FilterFilter(all, CategoryTest(checked), PriceTest(selectedPrice.value), both);
      } else if |checked| > 0 {
        FilterCongruent(all, CategoryTest(checked), both);
      } else if selectedPrice.Some? {
        FilterCongruent(all, PriceTest(selectedPrice.value), both);
      } else {
        assert forall i :: 0 <= i < |all| ==> both(all[i]);
      }
    }
  }

  // ---- product cards ----------------------------------------------------------------------

  const FullStar: char := '\U{2605}'
  const HalfStar: char := '\U{00BD}'

  /** The star string of a card: `'★'.repeat(Math.floor(rating)) + (rating % 1 >= 0.5 ? '½' : '')`,
      with the rating in tenths. */
  function Stars(rating: nat): (r: string)
    ensures var full := |r| - (if HalfStar in r then 1 else 0);
            && full * 10 <= rating < full * 10 + 10
            && (forall i :: 0 <= i < full ==> r[i] == FullStar)
            && (HalfStar in r <==> rating % 10 >= 5)
            && (HalfStar in r ==> r[|r| - 1] == HalfStar)
  {
    var full := seq(rating / 10, _ => FullStar);
    assert HalfStar !in full;
    full + if rating % 10 >= 5 then [HalfStar] else []
  }

  lemma StarExamples()
    ensures Stars(43) == [FullStar, FullStar, FullStar, FullStar]
    ensures Stars(45) == [FullStar, FullStar, FullStar, FullStar, HalfStar]
  {
    assert seq(4, _ => FullStar) == [FullStar, FullStar, FullStar, FullStar];
  }

  /** What a card carries besides markup: its product, its stars and the `data-id` of its
      add-to-cart button. */
  datatype Card = Card(product: Product, stars: string, dataId: string)

  function ProductCard(p: Product): (c: Card)
    ensures c.product == p && c.stars == Stars(p.rating)
    ensures ParseInt(c.dataId) == Some(p.id)
  {
    ParseIntOfDecimal(p.id);
    Card(p, Stars(p.rating), IntToDecimal(p.id))
  }

  /** `renderProducts`: the empty-results message, or one card per product in order. */
  datatype Grid = NoProducts | Cards(cards: seq<Card>)

  function RenderProducts(products: seq<Product>): (g: Grid)
    ensures g.NoProducts? <==> products == []
    ensures g.Cards? ==> |g.cards| == |products|
                         && forall i :: 0 <= i < |products| ==> g.cards[i] == ProductCard(products[i])
  {
    if |products| == 0 then NoProducts else Cards(seq(|products|, i requires 0 <= i < |products| => ProductCard(products[i])))
  }

  /** The add-to-cart button: `Products.getById(btn.dataset.id)` and, when found, `Cart.addItem`.
      On a card of a catalog with distinct ids the button adds that card's product. */
  method OnAddToCartClick(catalog: Products, cart: Cart, dataId: string)
    modifies cart`items, cart.store`cart
    ensures IdQuery(catalog.data[..], dataId).Some? ==>
              cart.items == Added(old(cart.items), IdQuery(catalog.data[..], dataId).value)
              && cart.store.cart == Some(cart.items)
    ensures IdQuery(catalog.data[..], dataId).None? ==>
              cart.items == old(cart.items) && cart.store.cart == old(cart.store.cart)
    ensures forall p :: (DistinctProductIds(catalog.data[..]) && p in catalog.data[..]
              && dataId == ProductCard(p).dataId) ==> cart.items == Added(old(cart.items), p)
  {
    var product := catalog.GetById(dataId);
    if product.Some? {
      cart.AddItem(product.value);
    }
    forall p | DistinctProductIds(catalog.data[..]) && p in catalog.data[..] && dataId == ProductCard(p).dataId
      ensures IdQuery(catalog.data[..], dataId) == Some(p)
    {
      IdQueryOfOwnId(catalog.data[..], p);
    }
  }

  // ---- sorting ----------------------------------------------------------------------------

  /** The three sort values that call `sort` with a comparator. */
  datatype SortKey = PriceLow | PriceHigh | ByRating

  function SortKeyOf(sortValue: string): (r: Option<SortKey>)
    ensures r.Some? <==> sortValue == "price-low" || sortValue == "price-high" || sortValue == "rating"
    ensures sortValue == "newest" ==> r.None?
  {
    if sortValue == "price-low" then Some(PriceLow)
    else if sortValue == "price-high" then Some(PriceHigh)
    else if sortValue == "rating" then Some(ByRating)
    else None
  }

  /** Each comparator (`a.price - b.price`, `b.price - a.price`, `b.rating - a.rating`) is the
      difference of the ranks of its two arguments, so sorting with it orders by rank. */
  function Rank(k: SortKey, p: Product): (r: real)
    ensures k == ByRating ==> r <= 0.0
  {
    match k
    case PriceLow => p.price
    case PriceHigh => -p.price
    case ByRating => -(p.rating as real)
  }

  /** The comparators as written; `sort` puts `a` before `b` when the result is negative. */
  function Comparator(k: SortKey, a: Product, b: Product): (r: real)
    ensures r == Rank(k, a) - Rank(k, b)
    ensures r < 0.0 <==> Rank(k, a) < Rank(k, b)
    ensures r == 0.0 <==> Rank(k, a) == Rank(k, b)
  {
    match k
    case PriceLow => a.price - b.price
    case PriceHigh => b.price - a.price
    case ByRating => (b.rating as real) - (a.rating as real)
  }

  ghost predicate Ordered(k: SortKey, s: seq<Product>) {
    forall i, j :: 0 <= i < j < |s| ==> Rank(k, s[i]) <= Rank(k, s[j])
  }

  /** Place `x` before the first element it does not rank after. */
  function Insert(k: SortKey, x: Product, s: seq<Product>): (r: seq<Product>)
    ensures |r| == |s| + 1
  {
    if s == [] || Rank(k, x) <= Rank(k, s[0]) then [x] + s else [s[0]] + Insert(k, x, s[1..])
  }

  lemma {:induction false} InsertPermutes(k: SortKey, x: Product, s: seq<Product>)
    ensures multiset(Insert(k, x, s)) == multiset(s) + multiset{x}
    decreases |s|
  {
    if s != [] && Rank(k, x) > Rank(k, s[0]) {
      InsertPermutes(k, x, s[1..]);
      assert s == [s[0]] + s[1..];
    }
  }

  lemma {:induction false} InsertKeepsOrder(k: SortKey, x: Product, s: seq<Product>)
    requires Ordered(k, s)
    ensures Ordered(k, Insert(k, x, s))
    decreases |s|
  {
    if s != [] && Rank(k, x) > Rank(k, s[0]) {
      var rest := Insert(k, x, s[1..]);
      InsertKeepsOrder(k, x, s[1..]);
      InsertPermutes(k, x, s[1..]);
      RankBoundOfPermutation(k, Rank(k, s[0]), rest, s[1..], x);
      OrderedCons(k, s[0], rest);
    }
  }

  /** An ordered sequence stays ordered when it is preceded by a product ranking no later than any
      of its elements. */
  lemma OrderedCons(k: SortKey, y: Product, r: seq<Product>)
    requires Ordered(k, r) && forall j :: 0 <= j < |r| ==> Rank(k, y) <= Rank(k, r[j])
    ensures Ordered(k, [y] + r)
  {
    var t := [y] + r;
    forall i, j | 0 <= i < j < |t| ensures Rank(k, t[i]) <= Rank(k, t[j]) {
      assert t[j] == r[j - 1];
      if i > 0 {
        assert t[i] == r[i - 1];
      }
    }
  }

  /** A lower bound on the ranks of `t` and of `x` bounds every rank of a permutation of `t + [x]`. */
  lemma RankBoundOfPermutation(k: SortKey, b: real, r: seq<Product>, t: seq<Product>, x: Product)
    requires multiset(r) == multiset(t) + multiset{x}
    requires b <= Rank(k, x) && forall i :: 0 <= i < |t| ==> b <= Rank(k, t[i])
    ensures forall j :: 0 <= j < |r| ==> b <= Rank(k, r[j])
  {
    forall j | 0 <= j < |r| ensures b <= Rank(k, r[j]) {
      assert r[j] in multiset(t) + multiset{x};
      if r[j] != x {
        assert r[j] in t;
      }
    }
  }

  /** The stable sort `Array.prototype.sort` performs with a comparator, as insertion sort. */
  function SortBy(k: SortKey, s: seq<Product>): (r: seq<Product>)
    ensures |r| == |s|
    ensures multiset(r) == multiset(s)
    ensures Ordered(k, r)
  {
    if s == [] then []
    else
      var rest := SortBy(k, s[1..]);
      InsertPermutes(k, s[0], rest);
      InsertKeepsOrder(k, s[0], rest);
      assert s == [s[0]] + s[1..];
      Insert(k, s[0], rest)
  }

  /** The products of one rank, in order. */
  function OfRank(k: SortKey, s: seq<Product>, v: real): seq<Product> {
    Filter(s, (p: Product) => Rank(k, p) == v)
  }

  lemma {:induction false} InsertOfRank(k: SortKey, x: Product, s: seq<Product>, v: real)
    ensures OfRank(k, Insert(k, x, s), v) == (if Rank(k, x) == v then [x] else []) + OfRank(k, s, v)
    decreases |s|
  {
    if s != [] && Rank(k, x) > Rank(k, s[0]) {
      InsertOfRank(k, x, s[1..], v);
    }
  }

  /** Stability: products that rank equally keep their relative order. */
  lemma {:induction false} SortIsStable(k: SortKey, s: seq<Product>, v: real)
    ensures OfRank(k, SortBy(k, s), v) == OfRank(k, s, v)
    decreases |s|
  {
    if s != [] {
      SortIsStable(k, s[1..], v);
      InsertOfRank(k, s[0], SortBy(k, s[1..]), v);
    }
  }

  /** `reverse`. */
  function Reversed(s: seq<Product>): (r: seq<Product>)
    ensures |r| == |s|
  {
    seq(|s|, i requires 0 <= i < |s| => s[|s| - 1 - i])
  }

  /** Reversing twice restores the order. */
  lemma ReversedTwice(s: seq<Product>)
    ensures Reversed(Reversed(s)) == s
  {
  }

  /** The order the sort control leaves an array in, for each value of the select. */
  function SortedProducts(s: seq<Product>, sortValue: string): (r: seq<Product>)
    ensures multiset(r) == multiset(s)
    ensures sortValue == "price-low" ==> forall i, j :: 0 <= i < j < |r| ==> r[i].price <= r[j].price
    ensures sortValue == "price-high" ==> forall i, j :: 0 <= i < j < |r| ==> r[i].price >= r[j].price
    ensures sortValue == "rating" ==> forall i, j :: 0 <= i < j < |r| ==> r[i].rating >= r[j].rating
    ensures sortValue == "newest" ==> |r| == |s| && forall i :: 0 <= i < |s| ==> r[i] == s[|s| - 1 - i]
    ensures sortValue !in {"price-low", "price-high", "rating", "newest"} ==> r == s
  {
    match SortKeyOf(sortValue)
    case Some(k) =>
      var r := SortBy(k, s);
      assert forall i, j :: 0 <= i < j < |r| ==> Rank(k, r[i]) <= Rank(k, r[j]);
      r
    case None =>
      if sortValue == "newest" then
        var r := Reversed(s);
        assert multiset(r) == multiset(s) by {
          ReversedMultiset(s);
        }
        r
      else s
  }

  lemma {:induction false} ReversedMultiset(s: seq<Product>)
    ensures multiset(Reversed(s)) == multiset(s)
    decreases |s|
  {
    if s != [] {
      var n := |s| - 1;
      ReversedMultiset(s[..n]);
      assert Reversed(s) == [s[n]] + Reversed(s[..n]);
      assert s == s[..n] + [s[n]];
    }
  }

  /** `Array.prototype.reverse` as section 23.1.3.26 of ECMA-262 states it: swap the elements at
      `lower` and `len - 1 - lower` while `lower` is below the middle. */
  method ReverseInPlace(a: array<Product>)
    modifies a
    ensures a[..] == Reversed(old(a[..]))
  {
    var len := a.Length;
    var lower := 0;
    while lower != len / 2
      invariant 0 <= lower <= len / 2
      invariant forall i :: 0 <= i < lower ==> a[i] == old(a[len - 1 - i]) && a[len - 1 - i] == old(a[i])
      invariant forall i :: lower <= i < len - lower ==> a[i] == old(a[i])
    {
      var upper := len - 1 - lower;
      a[lower], a[upper] := a[upper], a[lower];
      lower := lower + 1;
    }
  }

  /** The sort control on one array: `sort` with the selected comparator or `reverse`, both in
      place; any other value leaves the array alone. */
  method SortInPlace(a: array<Product>, sortValue: string)
    modifies a
    ensures a[..] == SortedProducts(old(a[..]), sortValue)
  {
    match SortKeyOf(sortValue)
    case Some(k) =>
      var sorted := SortBy(k, a[..]);
      forall i | 0 <= i < a.Length {
        a[i] := sorted[i];
      }
    case None =>
      if sortValue == "newest" {
        ReverseInPlace(a);
      }
  }

  /** The `change` handler of `setupSort`. With a category parameter it sorts a fresh filtered
      array; without one, `getAll()` is the catalog's own array, which is sorted in place, so
      the new order is what every later query of the catalog sees. */
  method OnSortChange(catalog: Products, categoryParam: Option<string>, sortValue: string)
    returns (shown: seq<Product>)
    modifies catalog.data
    ensures Truthy(categoryParam) ==>
              catalog.data[..] == old(catalog.data[..])
              && shown == SortedProducts(CategoryQuery(old(catalog.data[..]), categoryParam.value), sortValue)
    ensures !Truthy(categoryParam) ==>
              catalog.data[..] == SortedProducts(old(catalog.data[..]), sortValue) && shown == catalog.data[..]
  {
    var products := catalog.GetAll();
    if Truthy(categoryParam) {
      products := catalog.GetByCategory(categoryParam.value);
    }
    SortInPlace(products, sortValue);
    shown := products[..];
  }

  /** Choosing "newest" on two successive change events, without a category parameter, puts
      the catalog back in its original order. */
  method NewestTwiceRestoresCatalog(catalog: Products)
    modifies catalog.data
    ensures catalog.data[..] == old(catalog.data[..])
  {
    var first := OnSortChange(catalog, None, "newest");
    var second := OnSortChange(catalog, None, "newest");
    ReversedTwice(old(catalog.data[..]));
    assert SortedProducts(old(catalog.data[..]), "newest") == Reversed(old(catalog.data[..]));
  }
}
