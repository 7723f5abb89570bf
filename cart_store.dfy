/** The `Cart` object of `main.js`: an insertion-ordered list of line items, mirrored wholesale
    into storage after every change. */
module CartStore {
  import opened Wrappers
  import opened Catalog
  import opened CartModel
  import opened Storage

  class Cart {
    var items: seq<LineItem>
    const store: Store

    /** The object literal: `items: []`, before `init` runs. */
    constructor(store: Store)
      ensures items == [] && this.store == store
    {
      items := [];
      this.store := store;
    }

    /** `init`: `JSON.parse(localStorage.getItem('cart')) || []` — the stored list is adopted as
        it is, and an absent key gives the empty cart. */
    method Init()
      modifies this`items
      ensures store.cart.None? ==> items == []
      ensures store.cart.Some? ==> items == store.cart.value
    {
      match store.cart
      case None =>
        items := [];
      case Some(stored) =>
        items := stored;
    }

    /** `save`: the stored copy is overwritten with the whole list. */
    method Save()
      modifies store`cart
      ensures store.cart == Some(items)
    {
      store.cart := Some(items);
    }

    /** `addItem(product)`: one more unit of an item already holding the id, or a new item at the
        end; saved either way. */
    method AddItem(p: Product)
      modifies this`items, store`cart
      ensures items == Added(old(items), p)
      ensures store.cart == Some(items)
      ensures UniqueIds(old(items)) ==> UniqueIds(items)
      ensures Count(items) == Count(old(items)) + 1
    {
      var existing := Find(items, NumId(p.id));
      if existing.Some? {
        var k := existing.value;
        items := items[k := items[k].(quantity := items[k].quantity + 1)];
      } else {
        items := items + [LineItem(p, 1)];
      }
      assert items == Added(old(items), p);
      AddedTotals(old(items), p);
      if UniqueIds(old(items)) {
        AddedKeepsIdsUnique(old(items), p);
      }
      Save();
    }

    /** `removeItem(x)`: keep the items whose id is not strictly `x`; saved even when nothing
        matched. */
    method RemoveItem(x: Id)
      modifies this`items, store`cart
      ensures items == Removed(old(items), x)
      ensures store.cart == Some(items)
      ensures UniqueIds(old(items)) ==> UniqueIds(items)
    {
      items := Removed(items, x);
      if UniqueIds(old(items)) {
        RemovedKeepsIdsUnique(old(items), x);
      }
      Save();
    }

    /** `updateQuantity(x, q)`: the first item whose id is strictly `x` gets `Math.max(1, q)`;
        only then is the cart saved. */
    method UpdateQuantity(x: Id, q: int)
      modifies this`items, store`cart
      ensures items == Updated(old(items), x, q)
      ensures Find(old(items), x).Some? ==> store.cart == Some(items)
      ensures Find(old(items), x).None? ==> items == old(items) && store.cart == old(store.cart)
      ensures UniqueIds(old(items)) ==> UniqueIds(items)
    {
      var found := Find(items, x);
      if found.Some? {
        var k := found.value;
        items := items[k := items[k].(quantity := AtLeastOne(q))];
        assert items == Updated(old(items), x, q);
        if UniqueIds(old(items)) {
          UpdatedKeepsIdsUnique(old(items), x, q);
        }
        Save();
      }
    }

    /** `getTotal`. */
    function GetTotal(): real
      reads this
    {
      Total(items)
    }

    /** The number `updateCartCount` writes into every `#cart-count` element. */
    function ItemCount(): int
      reads this
    {
      Count(items)
    }
  }

  /** A later page load hydrates a new `Cart` from the same storage: after adding a product it
      sees exactly the items the old page held. */
  method AddThenReload(cart: Cart, p: Product) returns (reloaded: Cart)
    modifies cart`items, cart.store`cart
    ensures fresh(reloaded) && reloaded.store == cart.store
    ensures cart.items == Added(old(cart.items), p)
    ensures reloaded.items == cart.items
  {
    cart.AddItem(p);
    reloaded := new Cart(cart.store);
    reloaded.Init();
  }

  /** After removing an id, a reload sees exactly the items the old page held. */
  method RemoveThenReload(cart: Cart, x: Id) returns (reloaded: Cart)
    modifies cart`items, cart.store`cart
    ensures fresh(reloaded) && reloaded.store == cart.store
    ensures cart.items == Removed(old(cart.items), x)
    ensures reloaded.items == cart.items
  {
    cart.RemoveItem(x);
    reloaded := new Cart(cart.store);
    reloaded.Init();
  }

  /** After a quantity update that matched an item, a reload sees exactly the items the old page
      held; with no match `updateQuantity` writes nothing, and a reload sees what storage held
      before. */
  method UpdateThenReload(cart: Cart, x: Id, q: int) returns (reloaded: Cart)
    modifies cart`items, cart.store`cart
    ensures fresh(reloaded) && reloaded.store == cart.store
    ensures cart.items == Updated(old(cart.items), x, q)
    ensures Find(old(cart.items), x).Some? ==> reloaded.items == cart.items
    ensures Find(old(cart.items), x).None? ==>
              reloaded.items == (if old(cart.store.cart).Some? then old(cart.store.cart).value else [])
  {
    cart.UpdateQuantity(x, q);
    reloaded := new Cart(cart.store);
    reloaded.Init();
  }
}
