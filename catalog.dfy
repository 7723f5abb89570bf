/** The product catalog of `main.js` (`Products`): a fixed array of product records and its
    read-only queries. The array itself is shared: `getAll` hands out the array, not a copy. */
module Catalog {
  import opened Wrappers
  import opened Seqs
  import opened Text

  /** One product record. `price` is in dollars, held exactly; `rating` is in tenths of a star
      (a rating of 4.8 is 48). */
  datatype Product = Product(
    id: int, name: string, category: string, price: real, image: string, rating: nat, reviews: nat)

  /** The eight demo products, in seed order. */
  function SeedData(): (r: seq<Product>)
    ensures |r| == 8
  {
    [ Product(1, "Apple MacBook Pro 14\"", "laptops", 1999.0,
        "https://images.unsplash.com/photo-1496181133206-80ce9b88a853?w=400", 48, 1250),
      Product(2, "Samsung Galaxy Watch 5", "smartwatches", 299.0,
        "https://images.unsplash.com/photo-1523275335684-37898b6baf30?w=400", 45, 890),
      Product(3, "Philips Hue LED Strip", "lighting", 79.0,
        "https://images.unsplash.com/photo-1558618666-fcd25c85cd64?w=400", 43, 456),
      Product(4, "Modern Sofa Set", "home", 899.0,
        "https://images.unsplash.com/photo-1556909114-44e3e70034e2?w=400", 46, 234),
      Product(5, "Sony WH-1000XM5 Headphones", "audio", 349.0,
        "https://images.unsplash.com/photo-1505740420928-5e560c06d30e?w=400", 47, 2100),
      Product(6, "Canon EOS R6 Camera", "cameras", 2499.0,
        "https://images.unsplash.com/photo-1516035069371-29a1b244cc32?w=400", 49, 567),
      Product(7, "PlayStation 5 Console", "gaming", 499.0,
        "https://images.unsplash.com/photo-1606144042614-b2417e99c4e3?w=400", 48, 3450),
      Product(8, "Fitbit Charge 5", "wearables", 149.0,
        "https://images.unsplash.com/photo-1575311373937-040b8e1fd5b6?w=400", 44, 1890) ]
  }

  predicate DistinctProductIds(data: seq<Product>) {
    forall i, j :: 0 <= i < j < |data| ==> data[i].id != data[j].id
  }

  lemma SeedIdsUnique()
    ensures DistinctProductIds(SeedData())
  {
  }

  /** `getByCategory`: the products whose category equals `category` exactly, in catalog order. */
  function CategoryQuery(data: seq<Product>, category: string): (r: seq<Product>)
    ensures forall p :: p in r <==> p in data && p.category == category
    ensures IsSubsequence(r, data)
    ensures forall p :: multiset(r)[p] == if p.category == category then multiset(data)[p] else 0
  {
    var f := (p: Product) => p.category == category;
    FilterIsSubsequence(data, f);
    FilterMultisets(data, f);
    Filter(data, f)
  }

  /** `find(product => product.id === n)`: the first product with id `n`. */
  function FirstWithId(data: seq<Product>, n: int): (r: Option<Product>)
    ensures r.Some? ==> exists i :: 0 <= i < |data| && data[i] == r.value
                          && r.value.id == n && forall j :: 0 <= j < i ==> data[j].id != n
    ensures r.None? <==> forall p :: p in data ==> p.id != n
  {
    if data == [] then None
    else if data[0].id == n then Some(data[0])
    else
      var r := FirstWithId(data[1..], n);
      assert r.Some? ==> exists i :: 0 <= i < |data| && data[i] == r.value
                            && r.value.id == n && forall j :: 0 <= j < i ==> data[j].id != n by {
        if r.Some? {
          var i :| 0 <= i < |data[1..]| && data[1..][i] == r.value
                   && r.value.id == n && forall j :: 0 <= j < i ==> data[1..][j].id != n;
          assert data[i + 1] == r.value;
          assert forall j :: 0 <= j < i + 1 ==> data[j].id != n by {
            forall j | 0 <= j < i + 1 ensures data[j].id != n {
              if j > 0 {
                assert data[j] == data[1..][j - 1];
              }
            }
          }
        }
      }
      r
  }

  /** `getById(id)`: the first product whose id equals `parseInt(id)`; a text that does not start
      with a number (`NaN`) finds nothing. */
  function IdQuery(data: seq<Product>, id: string): (r: Option<Product>)
    ensures ParseInt(id).None? ==> r.None?
    ensures ParseInt(id).Some? ==> r == FirstWithId(data, ParseInt(id).value)
  {
    match ParseInt(id)
    case None => None
    case Some(n) => FirstWithId(data, n)
  }

  /** In a catalog with distinct ids, looking up the decimal text of a product's id (what a card's
      `data-id` holds) finds that very product. */
  lemma IdQueryOfOwnId(data: seq<Product>, p: Product)
    requires DistinctProductIds(data) && p in data
    ensures IdQuery(data, IntToDecimal(p.id)) == Some(p)
  {
    ParseIntOfDecimal(p.id);
    var r := FirstWithId(data, p.id);
    var i :| 0 <= i < |data| && data[i] == r.value && r.value.id == p.id;
    var k :| 0 <= k < |data| && data[k] == p;
    assert i == k;
  }

  /** The case-insensitive test of `search`: the lowercased query occurs in the lowercased name
      or the lowercased category. */
  predicate MatchesQuery(p: Product, query: string) {
    Includes(Lower(p.name), Lower(query)) || Includes(Lower(p.category), Lower(query))
  }

  /** `search(query)`: the products matching `query`, in catalog order. */
  function SearchQuery(data: seq<Product>, query: string): (r: seq<Product>)
    ensures forall p :: p in r <==> p in data && MatchesQuery(p, query)
    ensures IsSubsequence(r, data)
    ensures forall p :: multiset(r)[p] == if MatchesQuery(p, query) then multiset(data)[p] else 0
  {
    var f := (p: Product) => MatchesQuery(p, query);
    FilterIsSubsequence(data, f);
    FilterMultisets(data, f);
    Filter(data, f)
  }

  /** An empty query occurs in every name, so `search('')` returns the whole catalog. */
  lemma SearchEmptyKeepsAll(data: seq<Product>)
    ensures SearchQuery(data, "") == data
  {
    forall i | 0 <= i < |data| ensures MatchesQuery(data[i], "") {
      IncludesEmpty(Lower(data[i].name));
    }
  }

  /** The query's letter case does not matter. */
  lemma SearchIgnoresCase(data: seq<Product>, query: string)
    ensures SearchQuery(data, query) == SearchQuery(data, Lower(query))
  {
    LowerIdempotent(query);
    FilterCongruent(data, (p: Product) => MatchesQuery(p, query), (p: Product) => MatchesQuery(p, Lower(query)));
  }

  /** The `Products` object; `data` is the one array every page reads and `setupSort` sorts. */
  class Products {
    const data: array<Product>

    constructor()
      ensures fresh(data) && data[..] == SeedData()
    {
      var seed := SeedData();
      data := new Product[|seed|](i requires 0 <= i < |seed| => seed[i]);
    }

    /** `getAll`: the shared array itself, not a copy. */
    method GetAll() returns (a: array<Product>)
      ensures a == data
    {
      a := data;
    }

    /** `getByCategory`: a new array. */
    method GetByCategory(category: string) returns (a: array<Product>)
      ensures fresh(a) && a[..] == CategoryQuery(data[..], category)
    {
      var r := CategoryQuery(data[..], category);
      a := new Product[|r|](i requires 0 <= i < |r| => r[i]);
    }

    method GetById(id: string) returns (r: Option<Product>)
      ensures r == IdQuery(data[..], id)
    {
      r := IdQuery(data[..], id);
    }

    /** `search`: a new array. */
    method Search(query: string) returns (a: array<Product>)
      ensures fresh(a) && a[..] == SearchQuery(data[..], query)
    {
      var r := SearchQuery(data[..], query);
      a := new Product[|r|](i requires 0 <= i < |r| => r[i]);
    }
  }
}
