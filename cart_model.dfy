/** The line items of the cart in `main.js` and the pure transitions behind `Cart.addItem`,
    `removeItem` and `updateQuantity`, with the two folds `getTotal` and the cart count. */
module CartModel {
  import opened Wrappers
  import opened Seqs
  import opened Catalog

  /** A value compared with `===` against a line item's id: the numeric ids products carry, or
      the text of a `data-id` attribute. Strict equality never equates a string with a number,
      which is exactly when two values of this type built with different constructors differ. */
  datatype Id = NumId(n: int) | StrId(s: string)

  /** `{ ...product, quantity }`: the spread copies every field of the product, rating and
      reviews included. */
  datatype LineItem = LineItem(product: Product, quantity: int)

  /** `item.id === x`. */
  predicate Matches(item: LineItem, x: Id) {
    x == NumId(item.product.id)
  }

  /** `Math.max(1, q)`. */
  function AtLeastOne(q: int): (r: int)
    ensures r >= 1 && r >= q && (r == 1 || r == q)
  {
    if q < 1 then 1 else q
  }

  predicate UniqueIds(items: seq<LineItem>) {
    forall i, j :: 0 <= i < j < |items| ==> items[i].product.id != items[j].product.id
  }

  predicate QuantitiesPositive(items: seq<LineItem>) {
    forall i :: 0 <= i < |items| ==> items[i].quantity >= 1
  }

  /** `items.find(item => item.id === x)`, as the index of the first match. */
  function Find(items: seq<LineItem>, x: Id): (r: Option<nat>)
    ensures r.Some? ==> r.value < |items| && Matches(items[r.value], x)
                        && forall j :: 0 <= j < r.value ==> !Matches(items[j], x)
    ensures r.None? ==> forall j :: 0 <= j < |items| ==> !Matches(items[j], x)
  {
    if items == [] then None
    else if Matches(items[0], x) then Some(0)
    else match Find(items[1..], x)
      case None => None
      case Some(k) => Some(k + 1)
  }

  /** A text id never strictly equals the numeric id of a line item. */
  lemma TextIdNeverFound(items: seq<LineItem>, s: string)
    ensures Find(items, StrId(s)) == None
  {
  }

  /** `addItem(product)`: the first item with the product's id gets one more unit;
      when there is none, a new item with quantity 1 is appended. */
  function Added(items: seq<LineItem>, p: Product): (r: seq<LineItem>)
    ensures Find(items, NumId(p.id)).Some? ==>
              var k := Find(items, NumId(p.id)).value;
              |r| == |items| && r[k] == items[k].(quantity := items[k].quantity + 1)
              && forall j :: 0 <= j < |items| && j != k ==> r[j] == items[j]
    ensures Find(items, NumId(p.id)).None? ==> r == items + [LineItem(p, 1)]
  {
    if items == [] then [LineItem(p, 1)]
    else if items[0].product.id == p.id then [items[0].(quantity := items[0].quantity + 1)] + items[1..]
    else [items[0]] + Added(items[1..], p)
  }

  /** The test of `removeItem`'s filter: `item.id !== x`. */
  function KeepsItem(x: Id): LineItem -> bool {
    (it: LineItem) => !Matches(it, x)
  }

  /** `removeItem(x)`: keep, in order, the items whose id is not strictly equal to `x`. */
  function Removed(items: seq<LineItem>, x: Id): (r: seq<LineItem>)
    ensures forall it :: it in r <==> it in items && !Matches(it, x)
    ensures Find(items, x).None? ==> r == items
  {
    Filter(items, KeepsItem(x))
  }

  /** What `removeItem` keeps stays in its original order. */
  lemma RemovedKeepsOrder(items: seq<LineItem>, x: Id)
    ensures IsSubsequence(Removed(items, x), items)
  {
    FilterIsSubsequence(items, KeepsItem(x));
  }

  /** `updateQuantity(x, q)`: the first item whose id strictly equals `x` gets quantity
      `Math.max(1, q)`; without a match nothing changes. */
  function Updated(items: seq<LineItem>, x: Id, q: int): (r: seq<LineItem>)
    ensures |r| == |items|
    ensures Find(items, x).Some? ==>
              var k := Find(items, x).value;
              r[k] == items[k].(quantity := AtLeastOne(q))
              && forall j :: 0 <= j < |items| && j != k ==> r[j] == items[j]
    ensures Find(items, x).None? ==> r == items
  {
    if items == [] then []
    else if Matches(items[0], x) then [items[0].(quantity := AtLeastOne(q))] + items[1..]
    else [items[0]] + Updated(items[1..], x, q)
  }

  /** The row subtotal `price * quantity`. */
  function LineSubtotal(item: LineItem): (r: real)
    ensures item.product.price >= 0.0 && item.quantity >= 0 ==> r >= 0.0
    ensures item.quantity == 0 ==> r == 0.0
    ensures item.quantity == 1 ==> r == item.product.price
  {
    item.product.price * item.quantity as real
  }

  /** `getTotal`: `reduce((total, item) => total + price * quantity, 0)`, folded from the left. */
  function Total(items: seq<LineItem>): (r: real)
    ensures (forall i :: 0 <= i < |items| ==> items[i].product.price >= 0.0 && items[i].quantity >= 0)
            ==> r >= 0.0
  {
    if items == [] then 0.0 else Total(items[..|items| - 1]) + LineSubtotal(items[|items| - 1])
  }

  /** The cart count: `reduce((sum, item) => sum + item.quantity, 0)`. */
  function Count(items: seq<LineItem>): (r: int)
    ensures QuantitiesPositive(items) ==> r >= |items|
  {
    if items == [] then 0 else Count(items[..|items| - 1]) + items[|items| - 1].quantity
  }

  // ---- invariants the transitions keep ----------------------------------------------------

  /** Adding keeps line-item ids pairwise distinct. */
  lemma AddedKeepsIdsUnique(items: seq<LineItem>, p: Product)
    requires UniqueIds(items)
    ensures UniqueIds(Added(items, p))
  {
    var r := Added(items, p);
    if Find(items, NumId(p.id)).None? {
      assert r == items + [LineItem(p, 1)];
      forall i, j | 0 <= i < j < |r| ensures r[i].product.id != r[j].product.id {
        assert r[i] == items[i];
        if j < |items| {
          assert r[j] == items[j];
        } else {
          assert !Matches(items[i], NumId(p.id));
        }
      }
    } else {
      assert |r| == |items|;
      assert forall i :: 0 <= i < |r| ==> r[i].product.id == items[i].product.id;
      forall i, j | 0 <= i < j < |r| ensures r[i].product.id != r[j].product.id {
        assert items[i].product.id != items[j].product.id;
      }
    }
  }

  lemma UpdatedKeepsIdsUnique(items: seq<LineItem>, x: Id, q: int)
    requires UniqueIds(items)
    ensures UniqueIds(Updated(items, x, q))
  {
    var r := Updated(items, x, q);
    assert forall i :: 0 <= i < |r| ==> r[i].product.id == items[i].product.id;
  }

  /** Filtering keeps distinct ids distinct. */
  lemma {:induction false} FilterKeepsIdsUnique(items: seq<LineItem>, f: LineItem -> bool)
    requires UniqueIds(items)
    ensures UniqueIds(Filter(items, f))
    decreases |items|
  {
    if items != [] {
      FilterKeepsIdsUnique(items[1..], f);
      var rest := Filter(items[1..], f);
      forall j | 0 <= j < |rest| ensures rest[j].product.id != items[0].product.id {
        assert rest[j] in items[1..];
      }
    }
  }

  lemma RemovedKeepsIdsUnique(items: seq<LineItem>, x: Id)
    requires UniqueIds(items)
    ensures UniqueIds(Removed(items, x))
  {
    FilterKeepsIdsUnique(items, (it: LineItem) => !Matches(it, x));
  }

  lemma AddedKeepsQuantitiesPositive(items: seq<LineItem>, p: Product)
    requires QuantitiesPositive(items)
    ensures QuantitiesPositive(Added(items, p))
  {
  }

  lemma UpdatedKeepsQuantitiesPositive(items: seq<LineItem>, x: Id, q: int)
    requires QuantitiesPositive(items)
    ensures QuantitiesPositive(Updated(items, x, q))
  {
  }

  lemma RemovedKeepsQuantitiesPositive(items: seq<LineItem>, x: Id)
    requires QuantitiesPositive(items)
    ensures QuantitiesPositive(Removed(items, x))
  {
    var r := Removed(items, x);
    forall i | 0 <= i < |r| ensures r[i].quantity >= 1 {
      assert r[i] in items;
    }
  }

  /** When only item `k` holds the id, removing the id deletes exactly item `k`. */
  lemma RemovedOnlyMatch(items: seq<LineItem>, x: Id, k: nat)
    requires k < |items| && Matches(items[k], x)
    requires forall j :: 0 <= j < |items| && j != k ==> !Matches(items[j], x)
    ensures Removed(items, x) == items[..k] + items[k + 1..]
  {
    var before, after := items[..k], items[k + 1..];
    assert forall i :: 0 <= i < |before| ==> KeepsItem(x)(before[i]) by {
      forall i | 0 <= i < |before| ensures KeepsItem(x)(before[i]) {
        assert before[i] == items[i];
      }
    }
    assert forall i :: 0 <= i < |after| ==> KeepsItem(x)(after[i]) by {
      forall i | 0 <= i < |after| ensures KeepsItem(x)(after[i]) {
        assert after[i] == items[k + 1 + i];
      }
    }
    FilterDeletesOne(before, items[k], after, KeepsItem(x));
    assert items == before + ([items[k]] + after);
  }

  /** Removing a present id from a cart with distinct ids deletes exactly that one item. */
  lemma RemovedUniqueIsDeletion(items: seq<LineItem>, x: Id)
    requires UniqueIds(items) && Find(items, x).Some?
    ensures var k := Find(items, x).value; Removed(items, x) == items[..k] + items[k + 1..]
  {
    var k := Find(items, x).value;
    forall j | 0 <= j < |items| && j != k ensures !Matches(items[j], x) {
      assert items[j].product.id != items[k].product.id;
    }
    RemovedOnlyMatch(items, x, k);
  }

  // ---- totals and counts ------------------------------------------------------------------

  lemma {:induction false} TotalConcat(a: seq<LineItem>, b: seq<LineItem>)
    ensures Total(a + b) == Total(a) + Total(b)
    decreases |b|
  {
    if b == [] {
      assert a + b == a;
    } else {
      var n := |b| - 1;
      assert (a + b)[..|a + b| - 1] == a + b[..n];
      TotalConcat(a, b[..n]);
    }
  }

  lemma {:induction false} CountConcat(a: seq<LineItem>, b: seq<LineItem>)
    ensures Count(a + b) == Count(a) + Count(b)
    decreases |b|
  {
    if b == [] {
      assert a + b == a;
    } else {
      var n := |b| - 1;
      assert (a + b)[..|a + b| - 1] == a + b[..n];
      CountConcat(a, b[..n]);
    }
  }

  /** Replacing one item changes the total by the difference of the two row subtotals,
      and the count by the difference of the two quantities. */
  lemma ReplaceAt(items: seq<LineItem>, k: nat, y: LineItem)
    requires k < |items|
    ensures Total(items[k := y]) == Total(items) - LineSubtotal(items[k]) + LineSubtotal(y)
    ensures Count(items[k := y]) == Count(items) - items[k].quantity + y.quantity
  {
    assert items == items[..k] + [items[k]] + items[k + 1..];
    assert items[k := y] == items[..k] + [y] + items[k + 1..];
    TotalConcat(items[..k] + [items[k]], items[k + 1..]);
    TotalConcat(items[..k] + [y], items[k + 1..]);
    TotalConcat(items[..k], [items[k]]);
    TotalConcat(items[..k], [y]);
    CountConcat(items[..k] + [items[k]], items[k + 1..]);
    CountConcat(items[..k] + [y], items[k + 1..]);
    CountConcat(items[..k], [items[k]]);
    CountConcat(items[..k], [y]);
  }

  /** The unit price `addItem(p)` adds to the total: that of the line item already holding p's
      id (which keeps the fields it was added with), or p's own price for a new item. */
  function AddedPrice(items: seq<LineItem>, p: Product): real {
    match Find(items, NumId(p.id))
    case Some(k) => items[k].product.price
    case None => p.price
  }

  lemma OneMoreUnit(item: LineItem)
    ensures LineSubtotal(item.(quantity := item.quantity + 1)) == LineSubtotal(item) + item.product.price
  {
    var price, q := item.product.price, item.quantity as real;
    assert (item.quantity + 1) as real == q + 1.0;
    assert price * (q + 1.0) == price * q + price;
  }

  /** Adding a product raises the count by one and the total by one unit price, in both branches. */
  lemma AddedTotals(items: seq<LineItem>, p: Product)
    ensures Total(Added(items, p)) == Total(items) + AddedPrice(items, p)
    ensures Count(Added(items, p)) == Count(items) + 1
  {
    var r := Added(items, p);
    match Find(items, NumId(p.id))
    case None =>
      TotalConcat(items, [LineItem(p, 1)]);
      CountConcat(items, [LineItem(p, 1)]);
    case Some(k) =>
      var y := items[k].(quantity := items[k].quantity + 1);
      assert r == items[k := y];
      ReplaceAt(items, k, y);
      OneMoreUnit(items[k]);
  }

  /** Setting a quantity changes the count and the total by the change of that one row. */
  lemma UpdatedTotals(items: seq<LineItem>, x: Id, q: int)
    requires Find(items, x).Some?
    ensures var k := Find(items, x).value;
            && Count(Updated(items, x, q)) == Count(items) - items[k].quantity + AtLeastOne(q)
            && Total(Updated(items, x, q)) == Total(items) - LineSubtotal(items[k])
                 + LineSubtotal(items[k].(quantity := AtLeastOne(q)))
  {
    var k := Find(items, x).value;
    var y := items[k].(quantity := AtLeastOne(q));
    var r := Updated(items, x, q);
    assert r == items[k := y];
    ReplaceAt(items, k, y);
  }

  /** Removing a present id from a cart with distinct ids takes away exactly that row. */
  lemma RemovedTotals(items: seq<LineItem>, x: Id)
    requires UniqueIds(items) && Find(items, x).Some?
    ensures var k := Find(items, x).value;
            && Count(Removed(items, x)) == Count(items) - items[k].quantity
            && Total(Removed(items, x)) == Total(items) - LineSubtotal(items[k])
  {
    var k := Find(items, x).value;
    RemovedUniqueIsDeletion(items, x);
    AroundIndex(items, k);
  }

  /** The totals of a list are those of the list without row `k`, plus row `k`. */
  lemma AroundIndex(items: seq<LineItem>, k: nat)
    requires k < |items|
    ensures Total(items) == Total(items[..k] + items[k + 1..]) + LineSubtotal(items[k])
    ensures Count(items) == Count(items[..k] + items[k + 1..]) + items[k].quantity
  {
    SplitAt(items, k);
    AroundOne(items[..k], items[k], items[k + 1..]);
  }

  lemma SplitAt(items: seq<LineItem>, k: nat)
    requires k < |items|
    ensures items == items[..k] + [items[k]] + items[k + 1..]
  {
  }

  /** The totals of `a + [m] + b` are those of `a + b` plus the one row `m`. */
  lemma AroundOne(a: seq<LineItem>, m: LineItem, b: seq<LineItem>)
    ensures Total(a + [m] + b) == Total(a + b) + LineSubtotal(m)
    ensures Count(a + [m] + b) == Count(a + b) + m.quantity
  {
    TotalConcat(a + [m], b);
    TotalConcat(a, [m]);
    TotalConcat(a, b);
    CountConcat(a + [m], b);
    CountConcat(a, [m]);
    CountConcat(a, b);
  }
}
