/** The cart page, `cart.js`: the rows and the order summary, the quantity and remove buttons,
    and the empty-cart guard of checkout. */
module CartPage {
  import opened Wrappers
  import opened Text
  import opened CartModel
  import opened CartStore

  // ---- order summary ----------------------------------------------------------------------

  const FreeShippingAbove: real := 100.0
  const FlatShipping: real := 9.99
  const TaxRate: real := 0.08

  /** Free shipping strictly above 100; a subtotal of exactly 100 still pays 9.99. */
  function Shipping(subtotal: real): (r: real)
    ensures r == 0.0 <==> subtotal > 100.0
    ensures r == 0.0 || r == 9.99
  {
    if subtotal > FreeShippingAbove then 0.0 else FlatShipping
  }

  datatype OrderSummary = OrderSummary(itemCount: int, subtotal: real, shipping: real, tax: real, total: real)

  /** `updateSummary`: the count of units, `getTotal()` as subtotal, shipping, 8% tax on the
      subtotal, and their sum. */
  function Summarize(items: seq<LineItem>): (s: OrderSummary)
    ensures s.itemCount == Count(items) && s.subtotal == Total(items)
    ensures s.shipping == Shipping(s.subtotal) && s.tax == s.subtotal * 0.08
    ensures s.total == s.subtotal + s.shipping + s.tax
    ensures s.subtotal > 100.0 ==> s.total == s.subtotal * 1.08
    ensures s.subtotal <= 100.0 ==> s.total == s.subtotal * 1.08 + 9.99
  {
    var subtotal := Total(items);
    var shipping := Shipping(subtotal);
    var tax := subtotal * TaxRate;
    OrderSummary(Count(items), subtotal, shipping, tax, subtotal + shipping + tax)
  }

  /** The two worked examples: a subtotal of 25 pays shipping, one of 150 does not. */
  lemma SummaryExamples(shoes: Catalog.Product, socks: Catalog.Product, desk: Catalog.Product)
    requires shoes.price == 10.0 && socks.price == 5.0 && desk.price == 150.0
    ensures Summarize([LineItem(shoes, 2), LineItem(socks, 1)])
              == OrderSummary(3, 25.0, 9.99, 2.0, 36.99)
    ensures Summarize([LineItem(desk, 1)]) == OrderSummary(1, 150.0, 0.0, 12.0, 162.0)
  {
    var two := [LineItem(shoes, 2), LineItem(socks, 1)];
    assert two[..1] == [LineItem(shoes, 2)];
    assert [LineItem(shoes, 2)][..0] == [];
    assert Total([LineItem(shoes, 2)]) == 20.0;
    assert Total(two) == 25.0;
    assert Count([LineItem(shoes, 2)]) == 2;
    assert Count(two) == 3;
    assert [LineItem(desk, 1)][..0] == [];
    assert Total([LineItem(desk, 1)]) == 150.0;
  }

  /** Passing the free-shipping threshold lowers the total: 100 costs more than 101. */
  lemma ThresholdLowersTotal(a: seq<LineItem>, b: seq<LineItem>)
    requires Total(a) == 100.0 && Total(b) == 101.0
    ensures Summarize(a).total > Summarize(b).total
  {
  }

  // ---- rows -------------------------------------------------------------------------------

  /** One row of the cart: its item, the `data-id` of its buttons and its subtotal. */
  datatype CartRow = CartRow(item: LineItem, dataId: string, subtotal: real)

  /** `renderCart`: the empty-cart state, or one row per item followed by the summary. */
  datatype CartView = EmptyCart | Filled(rows: seq<CartRow>, summary: OrderSummary)

  function RenderCart(items: seq<LineItem>): (v: CartView)
    ensures v.EmptyCart? <==> items == []
    ensures v.Filled? ==> v.summary == Summarize(items) && |v.rows| == |items|
    ensures v.Filled? ==> forall i :: 0 <= i < |items| ==>
              v.rows[i] == CartRow(items[i], IntToDecimal(items[i].product.id), LineSubtotal(items[i]))
  {
    if |items| == 0 then EmptyCart
    else Filled(seq(|items|, i requires 0 <= i < |items| =>
                  CartRow(items[i], IntToDecimal(items[i].product.id), LineSubtotal(items[i]))),
                Summarize(items))
  }

  // ---- quantity and remove buttons --------------------------------------------------------

  /** The quantity the handler asks for: one more on "increase", one fewer on "decrease" only
      while the quantity is above 1, and nothing otherwise. */
  function QuantityRequest(quantity: int, action: string): (r: Option<int>)
    ensures action == "increase" ==> r == Some(quantity + 1)
    ensures action == "decrease" ==> (r.Some? <==> quantity > 1)
    ensures action == "decrease" && quantity > 1 ==> r == Some(quantity - 1)
    ensures r.Some? && quantity >= 1 ==> r.value >= 1
    ensures action != "increase" && action != "decrease" ==> r.None?
  {
    if action == "increase" then Some(quantity + 1)
    else if action == "decrease" && quantity > 1 then Some(quantity - 1)
    else None
  }

  /** The items after a quantity button whose handler looked the item up with `===` against `id`. */
  function AfterQuantityButton(items: seq<LineItem>, id: Id, action: string): (r: seq<LineItem>)
    ensures |r| == |items|
    ensures Find(items, id).None? ==> r == items
    ensures action != "increase" && action != "decrease" ==> r == items
    ensures Find(items, id).Some? ==>
              var k := Find(items, id).value;
              (forall j :: 0 <= j < |items| && j != k ==> r[j] == items[j])
              && r[k].product == items[k].product
              && (action == "increase" ==> r[k].quantity == AtLeastOne(items[k].quantity + 1))
              && (action == "decrease" && items[k].quantity > 1 ==> r[k].quantity == items[k].quantity - 1)
              && (action == "decrease" && items[k].quantity <= 1 ==> r == items)
  {
    match Find(items, id)
    case None => items
    case Some(k) =>
      match QuantityRequest(items[k].quantity, action)
      case None => items
      case Some(q) => Updated(items, id, q)
  }

  /** The body of the quantity-button handler for a given looked-up id: find the item; if found,
      ask `updateQuantity` for the new quantity. */
  method QuantityControl(cart: Cart, id: Id, action: string)
    modifies cart`items, cart.store`cart
    ensures cart.items == AfterQuantityButton(old(cart.items), id, action)
    ensures cart.items == old(cart.items) ==> cart.store.cart == old(cart.store.cart)
    ensures cart.items != old(cart.items) ==> cart.store.cart == Some(cart.items)
  {
    var found := Find(cart.items, id);
    if found.Some? {
      var request := QuantityRequest(cart.items[found.value].quantity, action);
      if request.Some? {
        cart.UpdateQuantity(id, request.value);
      }
    }
  }

  /** As written, the quantity handler compares the string `btn.dataset.id` with the numeric ids. */
  method OnQuantityButtonAsWritten(cart: Cart, dataId: string, action: string)
    modifies cart`items, cart.store`cart
    ensures cart.items == old(cart.items) && cart.store.cart == old(cart.store.cart)
  {
    TextIdNeverFound(cart.items, dataId);
    QuantityControl(cart, StrId(dataId), action);
  }

  /** As written, the remove handler passes the string `btn.dataset.id` to `removeItem`: nothing
      is removed, yet the cart is saved and the "removed" notice shown. */
  method OnRemoveButtonAsWritten(cart: Cart, dataId: string)
    modifies cart`items, cart.store`cart
    ensures cart.items == old(cart.items) && cart.store.cart == Some(cart.items)
  {
    TextIdNeverFound(cart.items, dataId);
    cart.RemoveItem(StrId(dataId));
  }

  /** With the string `data-id`, neither the quantity buttons nor the remove button change the cart. */
  lemma DatasetIdChangesNothing(items: seq<LineItem>, dataId: string, action: string)
    ensures AfterQuantityButton(items, StrId(dataId), action) == items
    ensures Removed(items, StrId(dataId)) == items
  {
    TextIdNeverFound(items, dataId);
  }

  /** The id the buttons evidently mean: `parseInt(btn.dataset.id)`, as `getById` reads it. */
  function DatasetId(dataId: string): (r: Option<Id>)
    ensures r.None? <==> ParseInt(dataId).None?
    ensures r.Some? ==> r.value.NumId? && r.value.n == ParseInt(dataId).value
  {
    match ParseInt(dataId)
    case None => None
    case Some(n) => Some(NumId(n))
  }

  /** The quantity button with the id read as a number. */
  method OnQuantityButton(cart: Cart, dataId: string, action: string)
    modifies cart`items, cart.store`cart
    ensures DatasetId(dataId).None? ==> cart.items == old(cart.items) && cart.store.cart == old(cart.store.cart)
    ensures DatasetId(dataId).Some? ==> cart.items == AfterQuantityButton(old(cart.items), DatasetId(dataId).value, action)
    ensures DatasetId(dataId).Some? && cart.items == old(cart.items) ==> cart.store.cart == old(cart.store.cart)
    ensures DatasetId(dataId).Some? && cart.items != old(cart.items) ==> cart.store.cart == Some(cart.items)
  {
    var id := DatasetId(dataId);
    if id.Some? {
      QuantityControl(cart, id.value, action);
    }
  }

  /** The remove button with the id read as a number. */
  method OnRemoveButton(cart: Cart, dataId: string)
    modifies cart`items, cart.store`cart
    ensures DatasetId(dataId).None? ==> cart.items == old(cart.items) && cart.store.cart == old(cart.store.cart)
    ensures DatasetId(dataId).Some? ==>
              cart.items == Removed(old(cart.items), DatasetId(dataId).value) && cart.store.cart == Some(cart.items)
  {
    var id := DatasetId(dataId);
    if id.Some? {
      cart.RemoveItem(id.value);
    }
  }

  /** In a cart with distinct ids, the `data-id` of row `k` designates item `k`. */
  lemma RowIdFindsRow(items: seq<LineItem>, k: nat)
    requires UniqueIds(items) && k < |items|
    ensures DatasetId(IntToDecimal(items[k].product.id)) == Some(NumId(items[k].product.id))
    ensures Find(items, NumId(items[k].product.id)) == Some(k)
  {
    ParseIntOfDecimal(items[k].product.id);
    FindDistinct(items, k);
  }

  lemma FindDistinct(items: seq<LineItem>, k: nat)
    requires UniqueIds(items) && k < |items|
    ensures Find(items, NumId(items[k].product.id)) == Some(k)
  {
    var x := NumId(items[k].product.id);
    assert Matches(items[k], x);
    var f := Find(items, x);
    assert !(k < f.value);
    assert items[f.value].product.id == items[k].product.id;
    assert !(f.value < k);
  }

  /** With the id read as a number, the buttons of row `k` act on item `k` only: "increase"
      adds a unit, "decrease" takes one away only above 1, and every quantity stays at least 1. */
  lemma ButtonsActOnTheirRow(items: seq<LineItem>, k: nat, action: string)
    requires UniqueIds(items) && QuantitiesPositive(items) && k < |items|
    ensures var id := DatasetId(IntToDecimal(items[k].product.id)).value;
            var r := AfterQuantityButton(items, id, action);
            && QuantitiesPositive(r) && UniqueIds(r) && |r| == |items|
            && (forall j :: 0 <= j < |items| && j != k ==> r[j] == items[j])
            && r[k].product == items[k].product
            && (action == "increase" ==> r[k].quantity == items[k].quantity + 1)
            && (action == "decrease" && items[k].quantity > 1 ==> r[k].quantity == items[k].quantity - 1)
            && (action != "increase" && (action != "decrease" || items[k].quantity == 1) ==> r == items)
  {
    RowIdFindsRow(items, k);
    var id := NumId(items[k].product.id);
    match QuantityRequest(items[k].quantity, action)
    case None =>
    case Some(q) =>
      UpdatedKeepsIdsUnique(items, id, q);
      UpdatedKeepsQuantitiesPositive(items, id, q);
  }

  /** With the id read as a number, the remove button of row `k` deletes exactly item `k`. */
  lemma RemoveActsOnItsRow(items: seq<LineItem>, k: nat)
    requires UniqueIds(items) && k < |items|
    ensures var id := DatasetId(IntToDecimal(items[k].product.id)).value;
            Removed(items, id) == items[..k] + items[k + 1..]
  {
    var id := NumId(items[k].product.id);
    RowIdFindsRow(items, k);
    assert DatasetId(IntToDecimal(items[k].product.id)).value == id;
    RemovedUniqueIsDeletion(items, id);
    assert Find(items, id).value == k;
  }

  // ---- checkout ---------------------------------------------------------------------------

  /** `handleCheckout`: an empty cart only gets the "Your cart is empty!" notice. */
  datatype CheckoutResult = EmptyCartNotice | RedirectNotice

  function HandleCheckout(items: seq<LineItem>): (r: CheckoutResult)
    ensures r == EmptyCartNotice <==> items == []
  {
    if |items| == 0 then EmptyCartNotice else RedirectNotice
  }
}
