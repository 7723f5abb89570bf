/** The browser's `localStorage`, reduced to the keys the storefront uses. Values are held
    already parsed: `JSON.stringify`/`JSON.parse` are not modelled, so what is written is what is
    read back. `None` is a key that was never written. */
module Storage {
  import opened Wrappers
  import opened CartModel

  class Store {
    /** The `'cart'` key: the serialized line items. */
    var cart: Option<seq<LineItem>>
    /** The `'userEmail'` and `'isLoggedIn'` keys written by the login page. */
    var userEmail: Option<string>
    var isLoggedIn: Option<string>

    constructor(cart: Option<seq<LineItem>>, userEmail: Option<string>, isLoggedIn: Option<string>)
      ensures this.cart == cart && this.userEmail == userEmail && this.isLoggedIn == isLoggedIn
    {
      this.cart := cart;
      this.userEmail := userEmail;
      this.isLoggedIn := isLoggedIn;
    }
  }
}
