/**
 * The request handlers of backend/api.php and the session- and file-backed
 * handlers of backend/helpers.php, over explicit state: a `Session` object for
 * `$_SESSION` and a `Store` object for the orders and users files. A handler's
 * JSON response is its result: `Ok` for the success body, `Err` for the error
 * response.
 */
module Api {
  import opened Wrappers
  import opened Responses
  import opened Money
  import opened Catalog
  import opened Cart
  import opened Pricing
  import opened Ledger
  import opened Accounts
  import opened Identity

  /** How the database insert of saveOrder() turns out: a row id, or no database and the JSON file instead. */
  datatype DbInsert = Inserted(rowId: int) | Unavailable

  /** The data files: orders.json and users.json. */
  class Store {
    var orders: seq<Order>
    var users: seq<User>

    constructor (orders: seq<Order>, users: seq<User>)
      ensures this.orders == orders && this.users == users
    {
      this.orders := orders;
      this.users := users;
    }

    /**
     * saveOrder($order): with the database, the order gets its row id and the
     * file is untouched; without it, the order gets id count + 1 and is
     * appended to the file, the earlier orders left as they were.
     */
    method SaveOrder(order: Order, db: DbInsert) returns (saved: Order)
      modifies this`orders
      ensures db.Inserted? ==> saved == order.(id := Some(db.rowId)) && orders == old(orders)
      ensures db.Unavailable? ==> saved == Numbering(old(orders), order) && orders == old(orders) + [saved]
      ensures Numbered(old(orders)) ==> Numbered(orders)
    {
      match db
      case Inserted(rowId) =>
        saved := order.(id := Some(rowId));
      case Unavailable =>
        saved := order.(id := Some(|orders| + 1));
        if Numbered(orders) {
          AppendKeepsNumbered(orders, order);
        }
        orders := orders + [saved];
    }

    /** `$users[] = $user; saveUsers($users)`. */
    method AddUser(user: User)
      modifies this`users
      ensures users == old(users) + [user]
    {
      users := users + [user];
    }
  }

  /** The checkout request's fields, each possibly absent. */
  datatype CheckoutPayload = CheckoutPayload(
    customerName: Option<string>,
    email: Option<string>,
    phone: Option<string>,
    currency: Option<string>)

  /** The order checkout builds from the cart totals: no id yet, 'Guest' and '' for missing contact fields. */
  function OrderFrom(t: Totals, p: CheckoutPayload): (o: Order)
    ensures o.id.None?
    ensures o.currency == t.currency && o.items == t.items
    ensures o.subtotal == t.subtotal && o.shipping == t.shipping && o.total == t.total
    ensures o.customerName == p.customerName.GetOr("Guest")
    ensures o.email == p.email.GetOr("") && o.phone == p.phone.GetOr("")
  {
    Order(None, p.customerName.GetOr("Guest"), p.email.GetOr(""), p.phone.GetOr(""),
          t.currency, t.items, t.subtotal, t.shipping, t.total)
  }

  /** The session: cart, saved id lists, the admin flag and the logged-in customer. */
  class Session {
    var cart: seq<CartLine>
    var wishlist: seq<int>
    var compare: seq<int>
    var admin: bool
    var customerId: Option<int>

    /** One cart line per product, and the id lists free of repeats. */
    ghost predicate Valid()
      reads this
    {
      Keyed(cart) && Distinct(wishlist) && Distinct(compare)
    }

    /** A fresh session: `$_SESSION['cart'] ?? []` and so on. */
    constructor ()
      ensures Valid()
      ensures cart == [] && wishlist == [] && compare == [] && !admin && customerId.None?
    {
      cart := [];
      wishlist := [];
      compare := [];
      admin := false;
      customerId := None;
    }

    /**
     * addToCart($productId, $quantity): at the first catalogue product with
     * that id, add max(1, quantity) to its line and answer with the AUD
     * totals; with no such product, "Product not found" and the cart as it was.
     */
    method AddToCart(catalog: seq<Product>, productId: int, quantity: int, cfg: Config) returns (r: Result<Totals>)
      requires Valid()
      modifies this`cart
      ensures Valid()
      ensures (exists k :: 0 <= k < |catalog| && catalog[k].id == productId) ==>
        cart == AddLine(old(cart), productId, quantity) && r == Ok(CartTotalsOf(cart, catalog, cfg, "AUD"))
      ensures (forall k :: 0 <= k < |catalog| ==> catalog[k].id != productId) ==>
        cart == old(cart) && r == Err(ProductNotFound)
    {
      var i := 0;
      while i < |catalog|
        invariant 0 <= i <= |catalog|
        invariant forall j :: 0 <= j < i ==> catalog[j].id != productId
      {
        if catalog[i].id == productId {
          AddLineQuantities(cart, productId, quantity);
          cart := AddLine(cart, productId, quantity);
          var t := CartTotals(cart, catalog, cfg, "AUD");
          return Ok(t);
        }
        i := i + 1;
      }
      r := Err(ProductNotFound);
    }

    /** removeFromCart($productId): unset the line, whether or not it was there, and answer with the AUD totals. */
    method RemoveFromCart(catalog: seq<Product>, productId: int, cfg: Config) returns (t: Totals)
      requires Valid()
      modifies this`cart
      ensures Valid()
      ensures cart == RemoveLine(old(cart), productId)
      ensures t == CartTotalsOf(cart, catalog, cfg, "AUD")
    {
      RemoveLineFacts(cart, productId);
      cart := RemoveLine(cart, productId);
      t := CartTotals(cart, catalog, cfg, "AUD");
    }

    /** saveWishlist($ids). */
    method SaveWishlist(ids: seq<int>)
      requires Valid()
      modifies this`wishlist
      ensures Valid()
      ensures wishlist == Unique(ids)
    {
      wishlist := Unique(ids);
    }

    /** saveCompare($ids). */
    method SaveCompare(ids: seq<int>)
      requires Valid()
      modifies this`compare
      ensures Valid()
      ensures compare == Unique(ids)
    {
      compare := Unique(ids);
    }

    /** wishlistItems($currency). */
    method WishlistItems(catalog: seq<Product>, cfg: Config, currency: string) returns (l: Listing)
      ensures l == Listing(currency, ListItemsOf(wishlist, catalog, RateTable(cfg.rates), currency))
    {
      l := ListItems(wishlist, catalog, cfg, currency);
    }

    /** compareItems($currency). */
    method CompareItems(catalog: seq<Product>, cfg: Config, currency: string) returns (l: Listing)
      ensures l == Listing(currency, ListItemsOf(compare, catalog, RateTable(cfg.rates), currency))
    {
      l := ListItems(compare, catalog, cfg, currency);
    }

    /**
     * checkout($payload): refuse a cart whose totals have no items, touching
     * nothing; otherwise build the order from the totals, save it, empty the
     * cart, and answer with the order as built, without the saved id.
     */
    method Checkout(catalog: seq<Product>, cfg: Config, payload: CheckoutPayload, store: Store, db: DbInsert)
      returns (r: Result<Order>)
      requires Valid()
      modifies this`cart, store`orders
      ensures Valid()
      ensures var t := CartTotalsOf(old(cart), catalog, cfg, payload.currency.GetOr("AUD"));
        t.items == [] ==> r == Err(CartEmpty) && cart == old(cart) && store.orders == old(store.orders)
      ensures var t := CartTotalsOf(old(cart), catalog, cfg, payload.currency.GetOr("AUD"));
        t.items != [] ==>
          && r == Ok(OrderFrom(t, payload))
          && cart == []
          && store.orders == (if db.Unavailable? then old(store.orders) + [Numbering(old(store.orders), r.value)] else old(store.orders))
    {
      var totals := CartTotals(cart, catalog, cfg, payload.currency.GetOr("AUD"));
      if totals.items == [] {
        return Err(CartEmpty);
      }
      var order := OrderFrom(totals, payload);
      var _ := store.SaveOrder(order, db);
      cart := [];
      r := Ok(order);
    }

    /** adminLogin($payload): set the admin flag when requireAdmin() holds; otherwise "Invalid credentials". */
    method AdminLogin(configured: Option<AdminCredentials>, payload: AdminPayload) returns (r: Result<()>)
      requires Valid()
      modifies this`admin
      ensures Valid()
      ensures RequireAdmin(configured, payload) ==> admin && r == Ok(())
      ensures !RequireAdmin(configured, payload) ==> admin == old(admin) && r == Err(InvalidCredentials)
    {
      if RequireAdmin(configured, payload) {
        admin := true;
        return Ok(());
      }
      r := Err(InvalidCredentials);
    }

    /** adminOrders(): "Unauthorized" without the admin flag; otherwise the orders file as it stands. */
    method AdminOrders(store: Store) returns (r: Result<seq<Order>>)
      ensures admin ==> r == Ok(store.orders)
      ensures !admin ==> r == Err(Unauthorized)
    {
      if !admin {
        return Err(Unauthorized);
      }
      r := Ok(store.orders);
    }

    /** customerRegister($payload): append the new user and log them in, or answer with the refusal. */
    method CustomerRegister(store: Store, payload: RegisterPayload, hash: string) returns (r: Result<PublicUser>)
      requires Valid()
      modifies store`users, this`customerId
      ensures Valid()
      ensures var reg := Register(old(store.users), payload, hash);
        reg.Err? ==> r == Err(reg.failure) && store.users == old(store.users) && customerId == old(customerId)
      ensures var reg := Register(old(store.users), payload, hash);
        reg.Ok? ==> r == Ok(Public(reg.value)) && store.users == old(store.users) + [reg.value] && customerId == Some(reg.value.id)
    {
      var reg := Register(store.users, payload, hash);
      if reg.Err? {
        return Err(reg.failure);
      }
      store.AddUser(reg.value);
      customerId := Some(reg.value.id);
      r := Ok(Public(reg.value));
    }

    /** customerLogin($payload): remember the user found, or answer "Invalid credentials". */
    method CustomerLogin(store: Store, payload: LoginPayload, verify: (string, string) -> bool) returns (r: Result<PublicUser>)
      requires Valid()
      modifies this`customerId
      ensures Valid()
      ensures var login := Login(store.users, payload, verify);
        login.Err? ==> r == Err(InvalidCredentials) && customerId == old(customerId)
      ensures var login := Login(store.users, payload, verify);
        login.Ok? ==> r == Ok(Public(login.value)) && customerId == Some(login.value.id)
    {
      var login := Login(store.users, payload, verify);
      if login.Err? {
        return Err(InvalidCredentials);
      }
      customerId := Some(login.value.id);
      r := Ok(Public(login.value));
    }

    /** customerOrders(): "Login required" without a current customer; otherwise their orders, newest first. */
    method CustomerOrders(store: Store) returns (r: Result<seq<Order>>)
      ensures var user := CurrentCustomer(store.users, customerId);
        user.None? ==> r == Err(LoginRequired)
      ensures var user := CurrentCustomer(store.users, customerId);
        user.Some? ==> r == Ok(AllOrders(store.orders, Some(user.value.email)))
    {
      var user := CurrentCustomer(store.users, customerId);
      if user.None? {
        return Err(LoginRequired);
      }
      r := Ok(AllOrders(store.orders, Some(user.value.email)));
    }
  }
}
