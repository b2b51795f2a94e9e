/**
 * The state of the storefront's root component in `App.tsx` and the
 * effects that keep it persisted and synchronised.  The component's state
 * (`user`, `cart`, `wishlist`, `allProducts`) becomes the fields of class
 * `App`; `localStorage` is the map `store`; each debounced push is an
 * armed `Timer` holding the snapshot it will send; the network calls the
 * component starts are appended to `requests`.  Every method is one
 * event (a user action, a push notification, a resolved fetch, a timer
 * firing) and leaves the state that React reaches once the effects that
 * event triggers have run.
 */
module Storefront {
  import opened Types
  import Cart
  import Wishlist
  import Catalog
  import Sync

  /**
   * What `localStorage` holds under a key once parsed: `Blank` is the
   * empty text, which every read skips as falsy before parsing, and
   * `Unparsable` is text `JSON.parse` rejects.
   */
  datatype Stored =
    | UserEntry(user: User)
    | CartEntry(lines: seq<CartLine>)
    | WishlistEntry(ids: seq<string>)
    | Blank
    | Unparsable

  /** A call to the remote cart/wishlist store. */
  datatype Request =
    | SaveCart(userId: string, lines: seq<CartLine>)
    | SaveWishlist(userId: string, ids: seq<string>)
    | FetchCart(userId: string)
    | FetchWishlist(userId: string)

  /** An armed debounce timer: the user id and the snapshot its callback will send. */
  datatype Timer<T> = Timer(userId: string, payload: T)

  /** What a start-up read of a stored collection gives. */
  datatype Restored<T> = Absent | Parsed(value: T) | Corrupt

  const UserKey: string := "user"
  const CartKey: string := "cart"
  const WishlistKey: string := "wishlist"

  /** The guard of the sync and pull effects: signed in, with a non-empty id. */
  predicate Active(user: Option<User>) {
    user.Some? && user.value.id != ""
  }

  /** `user?.id`, the dependency of the sync and pull effects. */
  function UserId(user: Option<User>): Option<string> {
    match user
    case None => None
    case Some(u) => Some(u.id)
  }

  /** The timer a sync effect leaves behind when it runs for `user` and `payload`. */
  function Arm<T>(user: Option<User>, payload: T): Option<Timer<T>> {
    if Active(user) then Some(Timer(user.value.id, payload)) else None
  }

  /** The fetches the two login effects start, cart first, when `user?.id` has become that of `user`. */
  function Pulls(user: Option<User>): seq<Request> {
    if Active(user) then [FetchCart(user.value.id), FetchWishlist(user.value.id)] else []
  }

  /** The `useState` initialiser for `user`: a missing, empty or unparsable entry gives `null`. */
  function SavedUser(saved: map<string, Stored>): Option<User> {
    if UserKey in saved && saved[UserKey].UserEntry? then Some(saved[UserKey].user) else None
  }

  /** The mount effect's read of the cart: a missing or empty entry is skipped, one that does not parse throws. */
  function SavedCart(saved: map<string, Stored>): Restored<seq<CartLine>> {
    if CartKey !in saved || saved[CartKey].Blank? then Absent
    else if saved[CartKey].CartEntry? then Parsed(saved[CartKey].lines)
    else Corrupt
  }

  /** The mount effect's read of the wishlist, skipped or throwing as the cart's is. */
  function SavedWishlist(saved: map<string, Stored>): Restored<seq<string>> {
    if WishlistKey !in saved || saved[WishlistKey].Blank? then Absent
    else if saved[WishlistKey].WishlistEntry? then Parsed(saved[WishlistKey].ids)
    else Corrupt
  }

  function OrEmpty<T>(r: Restored<seq<T>>): seq<T> {
    if r.Parsed? then r.value else []
  }

  /**
   * The store after the write-through effects: `cart` and `wishlist`
   * written, `user` written or removed, every other key as in `base`.
   */
  function Persist(base: map<string, Stored>, user: Option<User>, cart: seq<CartLine>, wishlist: seq<string>): (m: map<string, Stored>)
    ensures CartKey in m && m[CartKey] == CartEntry(cart)
    ensures WishlistKey in m && m[WishlistKey] == WishlistEntry(wishlist)
    ensures user.Some? ==> UserKey in m && m[UserKey] == UserEntry(user.value)
    ensures user.None? ==> UserKey !in m
    ensures forall key :: key != UserKey && key != CartKey && key != WishlistKey ==>
      (key in m <==> key in base) && (key in m ==> m[key] == base[key])
  {
    var withUser := if user.Some? then base[UserKey := UserEntry(user.value)] else base - {UserKey};
    withUser[CartKey := CartEntry(cart)][WishlistKey := WishlistEntry(wishlist)]
  }

  /**
   * What the write-through effects leave is what the next start-up reads
   * back: the user, the cart and the wishlist, none of them corrupt.
   */
  lemma PersistReadsBack(base: map<string, Stored>, user: Option<User>, cart: seq<CartLine>, wishlist: seq<string>)
    ensures var m := Persist(base, user, cart, wishlist);
      SavedUser(m) == user && SavedCart(m) == Parsed(cart) && SavedWishlist(m) == Parsed(wishlist)
  {
  }

  /** An empty entry reads as a missing one, for each of the three keys. */
  lemma BlankReadsAsAbsent(saved: map<string, Stored>)
    ensures SavedUser(saved[UserKey := Blank]) == SavedUser(saved - {UserKey}) == None
    ensures SavedCart(saved[CartKey := Blank]) == SavedCart(saved - {CartKey}) == Absent
    ensures SavedWishlist(saved[WishlistKey := Blank]) == SavedWishlist(saved - {WishlistKey}) == Absent
  {
  }

  class App {
    var user: Option<User>
    var cart: seq<CartLine>
    var wishlist: seq<string>
    var products: seq<Product>
    var store: map<string, Stored>
    var cartTimer: Option<Timer<seq<CartLine>>>
    var wishlistTimer: Option<Timer<seq<string>>>
    var requests: seq<Request>

    /**
     * Write-through: the store mirrors the cart, the wishlist and the user.
     * An armed timer belongs to the signed-in user and holds the current
     * collection, so whatever fires sends the latest state.
     */
    ghost predicate Valid()
      reads this
    {
      && CartKey in store && store[CartKey] == CartEntry(cart)
      && WishlistKey in store && store[WishlistKey] == WishlistEntry(wishlist)
      && (user.Some? ==> UserKey in store && store[UserKey] == UserEntry(user.value))
      && (user.None? ==> UserKey !in store)
      && (cartTimer.Some? ==> cartTimer == Arm(user, cart))
      && (wishlistTimer.Some? ==> wishlistTimer == Arm(user, wishlist))
    }

    /** The state of the first render, before any effect has run. */
    ghost predicate Initial()
      reads this
    {
      && user == SavedUser(store) && cart == [] && wishlist == [] && products == []
      && cartTimer.None? && wishlistTimer.None? && requests == []
    }

    /** The first render: the `useState` initialisers, reading the user back from `saved`. */
    constructor (saved: map<string, Stored>)
      ensures store == saved && Initial()
    {
      user := SavedUser(saved);
      cart, wishlist, products := [], [], [];
      store := saved;
      cartTimer, wishlistTimer := None, None;
      requests := [];
    }

    /**
     * The mount effects, in declaration order: the stored cart and
     * wishlist are read back (an unparsable one throws, which `ok == false`
     * stands for), written through, then the user effect runs (clearing
     * both collections when nobody is signed in), the sync timers are armed
     * and, for a signed-in user, the cart and wishlist are fetched.
     */
    method Mount() returns (ok: bool)
      requires Initial()
      modifies this
      ensures ok <==> SavedCart(old(store)) != Corrupt && SavedWishlist(old(store)) != Corrupt
      ensures !ok ==> unchanged(this)
      ensures ok ==> Valid() && user == old(user) && products == []
      ensures ok ==> cart == (if user.None? then [] else OrEmpty(SavedCart(old(store))))
      ensures ok ==> wishlist == (if user.None? then [] else OrEmpty(SavedWishlist(old(store))))
      ensures ok ==> store == Persist(old(store), user, cart, wishlist)
      ensures ok ==> cartTimer == Arm(user, cart) && wishlistTimer == Arm(user, wishlist)
      ensures ok ==> requests == Pulls(user)
    {
      var savedCart, savedWishlist := SavedCart(store), SavedWishlist(store);
      if savedCart.Corrupt? || savedWishlist.Corrupt? {
        return false;
      }
      cart := OrEmpty(savedCart);
      wishlist := OrEmpty(savedWishlist);
      if user.None? {
        cart, wishlist := [], [];
      }
      store := Persist(store, user, cart, wishlist);
      cartTimer := Arm(user, cart);
      wishlistTimer := Arm(user, wishlist);
      requests := Pulls(user);
      ok := true;
    }

    /** Everything but the cart, its store entry and its timer is as before; the cart's timer is re-armed. */
    twostate predicate CartCommitted(newCart: seq<CartLine>)
      reads this
    {
      && cart == newCart
      && store == old(store)[CartKey := CartEntry(newCart)]
      && cartTimer == Arm(user, newCart)
      && user == old(user) && wishlist == old(wishlist) && products == old(products)
      && wishlistTimer == old(wishlistTimer) && requests == old(requests)
    }

    /** Everything but the wishlist, its store entry and its timer is as before; the wishlist's timer is re-armed. */
    twostate predicate WishlistCommitted(newWishlist: seq<string>)
      reads this
    {
      && wishlist == newWishlist
      && store == old(store)[WishlistKey := WishlistEntry(newWishlist)]
      && wishlistTimer == Arm(user, newWishlist)
      && user == old(user) && cart == old(cart) && products == old(products)
      && cartTimer == old(cartTimer) && requests == old(requests)
    }

    /** Only the catalog changes. */
    twostate predicate CatalogCommitted(newProducts: seq<Product>)
      reads this
    {
      && products == newProducts
      && user == old(user) && cart == old(cart) && wishlist == old(wishlist) && store == old(store)
      && cartTimer == old(cartTimer) && wishlistTimer == old(wishlistTimer) && requests == old(requests)
    }

    /** `setCart` followed by its effects: write-through and re-arming the cart's debounce timer. */
    method CommitCart(newCart: seq<CartLine>)
      requires Valid()
      modifies this
      ensures Valid() && CartCommitted(newCart)
    {
      cart := newCart;
      store := store[CartKey := CartEntry(newCart)];
      cartTimer := Arm(user, newCart);
    }

    /** `setWishlist` followed by its effects. */
    method CommitWishlist(newWishlist: seq<string>)
      requires Valid()
      modifies this
      ensures Valid() && WishlistCommitted(newWishlist)
    {
      wishlist := newWishlist;
      store := store[WishlistKey := WishlistEntry(newWishlist)];
      wishlistTimer := Arm(user, newWishlist);
    }

    // -------------------------------------------------------------------
    // User actions on the cart and the wishlist

    method AddToCart(productId: string, size: string, quantity: int, isGift: bool)
      requires Valid()
      modifies this
      ensures Valid() && CartCommitted(Cart.AddToCart(old(cart), productId, size, quantity, isGift))
    {
      CommitCart(Cart.AddToCart(cart, productId, size, quantity, isGift));
    }

    method UpdateCartItem(productId: string, size: string, quantity: int, isGift: bool)
      requires Valid()
      modifies this
      ensures Valid() && CartCommitted(Cart.UpdateCartItem(old(cart), productId, size, quantity, isGift))
    {
      CommitCart(Cart.UpdateCartItem(cart, productId, size, quantity, isGift));
    }

    method UpdateCartItemSize(productId: string, oldSize: string, newSize: string, isGift: bool)
      requires Valid()
      modifies this
      ensures Valid() && CartCommitted(Cart.UpdateCartItemSize(old(cart), productId, oldSize, newSize, isGift))
    {
      CommitCart(Cart.UpdateCartItemSize(cart, productId, oldSize, newSize, isGift));
    }

    method RemoveFromCart(productId: string, size: string, isGift: bool)
      requires Valid()
      modifies this
      ensures Valid() && CartCommitted(Cart.RemoveFromCart(old(cart), productId, size, isGift))
    {
      CommitCart(Cart.RemoveFromCart(cart, productId, size, isGift));
    }

    /** `clearCart`: the cart becomes empty, and so does its stored copy. */
    method ClearCart()
      requires Valid()
      modifies this
      ensures Valid() && CartCommitted([])
    {
      CommitCart([]);
    }

    method ToggleWishlist(productId: string)
      requires Valid()
      modifies this
      ensures Valid() && WishlistCommitted(Wishlist.Toggle(old(wishlist), productId))
    {
      CommitWishlist(Wishlist.Toggle(wishlist, productId));
    }

    // -------------------------------------------------------------------
    // Session

    /**
     * `setUser(u)` and its effects.  Setting `null` over `null` changes
     * nothing (React skips the update).  Otherwise the user is persisted,
     * or on sign-out removed from the store while the cart and the wishlist
     * are emptied.  When `user?.id` changes, the pending pushes are
     * cancelled and re-armed for the new user, if active, and the remote
     * cart and wishlist of an active new user are fetched.
     */
    method SetUser(u: Option<User>)
      requires Valid()
      modifies this
      ensures Valid()
      ensures old(user).None? && u.None? ==> unchanged(this)
      ensures user == u && products == old(products)
      ensures u.Some? ==> cart == old(cart) && wishlist == old(wishlist)
      ensures u.None? ==> UserKey !in store
      ensures u.None? && old(user).Some? ==> cart == [] && wishlist == []
      ensures store == Persist(old(store), u, cart, wishlist)
      ensures UserId(u) != UserId(old(user)) ==>
        && requests == old(requests) + Pulls(u)
        && cartTimer == Arm(u, cart) && wishlistTimer == Arm(u, wishlist)
      ensures UserId(u) == UserId(old(user)) ==>
        requests == old(requests) && cartTimer == old(cartTimer) && wishlistTimer == old(wishlistTimer)
    {
      if u.None? && user.None? {
        assert store == Persist(store, u, cart, wishlist);
        return;
      }
      var idChanged := UserId(u) != UserId(user);
      user := u;
      if u.None? {
        cart, wishlist := [], [];
      }
      store := Persist(store, user, cart, wishlist);
      if idChanged {
        cartTimer := Arm(user, cart);
        wishlistTimer := Arm(user, wishlist);
        requests := requests + Pulls(user);
      }
    }

    // -------------------------------------------------------------------
    // Remote sync

    /** The cart's debounce timer fires: the snapshot it holds, the current cart, is sent once. */
    method CartTimerFires()
      requires Valid()
      modifies this
      ensures Valid() && cartTimer.None?
      ensures old(cartTimer).Some? ==> Active(user) && requests == old(requests) + [SaveCart(user.value.id, cart)]
      ensures old(cartTimer).None? ==> requests == old(requests)
      ensures user == old(user) && cart == old(cart) && wishlist == old(wishlist) && products == old(products)
      ensures store == old(store) && wishlistTimer == old(wishlistTimer)
    {
      if cartTimer.Some? {
        requests := requests + [SaveCart(cartTimer.value.userId, cartTimer.value.payload)];
        cartTimer := None;
      }
    }

    /** The wishlist's debounce timer fires. */
    method WishlistTimerFires()
      requires Valid()
      modifies this
      ensures Valid() && wishlistTimer.None?
      ensures old(wishlistTimer).Some? ==> Active(user) && requests == old(requests) + [SaveWishlist(user.value.id, wishlist)]
      ensures old(wishlistTimer).None? ==> requests == old(requests)
      ensures user == old(user) && cart == old(cart) && wishlist == old(wishlist) && products == old(products)
      ensures store == old(store) && cartTimer == old(cartTimer)
    {
      if wishlistTimer.Some? {
        requests := requests + [SaveWishlist(wishlistTimer.value.userId, wishlistTimer.value.payload)];
        wishlistTimer := None;
      }
    }

    /**
     * A `fetchCart` started at login settles.  The merge rule decides; when
     * it keeps the local cart, React sees the same state and nothing else
     * happens.  The response is applied whoever is signed in by then.
     */
    method CartPullSettled(fetched: Fetched<seq<CartLine>>)
      requires Valid()
      modifies this
      ensures Valid()
      ensures cart == Sync.MergeOnLogin(old(cart), fetched)
      ensures cart == old(cart) ==> unchanged(this)
      ensures cart != old(cart) ==> CartCommitted(cart)
    {
      var merged := Sync.MergeOnLogin(cart, fetched);
      if merged != cart {
        CommitCart(merged);
      }
    }

    /** A `fetchWishlist` started at login settles. */
    method WishlistPullSettled(fetched: Fetched<seq<string>>)
      requires Valid()
      modifies this
      ensures Valid()
      ensures wishlist == Sync.MergeOnLogin(old(wishlist), fetched)
      ensures wishlist == old(wishlist) ==> unchanged(this)
      ensures wishlist != old(wishlist) ==> WishlistCommitted(wishlist)
    {
      var merged := Sync.MergeOnLogin(wishlist, fetched);
      if merged != wishlist {
        CommitWishlist(merged);
      }
    }

    // -------------------------------------------------------------------
    // Catalog

    /** `loadProducts` settles. */
    method ProductsLoaded(fetched: Fetched<seq<Product>>)
      requires Valid()
      modifies this
      ensures Valid() && CatalogCommitted(Catalog.BulkLoad(fetched))
    {
      products := Catalog.BulkLoad(fetched);
    }

    method OnProductCreated(record: Product)
      requires Valid()
      modifies this
      ensures Valid() && CatalogCommitted(Catalog.ProductCreated(old(products), record))
    {
      products := Catalog.ProductCreated(products, record);
    }

    method OnProductUpdated(record: Product)
      requires Valid()
      modifies this
      ensures Valid() && CatalogCommitted(Catalog.ProductUpdated(old(products), record))
    {
      products := Catalog.ProductUpdated(products, record);
    }

    method OnProductDeleted(productId: string)
      requires Valid()
      modifies this
      ensures Valid() && CatalogCommitted(Catalog.ProductDeleted(old(products), productId))
    {
      products := Catalog.ProductDeleted(products, productId);
    }

    method OnStockUpdated(productId: string, size: string, newStock: int)
      requires Valid()
      modifies this
      ensures Valid() && CatalogCommitted(Catalog.StockUpdated(old(products), productId, size, newStock))
    {
      products := Catalog.StockUpdated(products, productId, size, newStock);
    }
  }

  // ---------------------------------------------------------------------
  // Scenarios

  /**
   * Three adds in a burst, then the timer fires: exactly one push goes
   * out and it carries the cart after the third add.  When the key was
   * new, that cart has one line of it, holding all three units.
   */
  method BurstSendsOnePush(app: App, productId: string, size: string)
    requires app.Valid() && Active(app.user)
    modifies app
    ensures app.Valid() && app.cartTimer.None? && app.user == old(app.user)
    ensures app.cart ==
      Cart.AddToCart(Cart.AddToCart(Cart.AddToCart(old(app.cart), productId, size, 1, false), productId, size, 1, false), productId, size, 1, false)
    ensures app.requests == old(app.requests) + [SaveCart(app.user.value.id, app.cart)]
    ensures !Cart.HasKey(old(app.cart), Cart.Key(productId, size, false)) ==>
      Cart.Count(app.cart, Cart.Key(productId, size, false)) == 1 &&
      Cart.Quantity(app.cart, Cart.Key(productId, size, false)) == 3
  {
    ghost var start := app.cart;
    app.AddToCart(productId, size, 1, false);
    app.AddToCart(productId, size, 1, false);
    app.AddToCart(productId, size, 1, false);
    app.CartTimerFires();
    if !Cart.HasKey(start, Cart.Key(productId, size, false)) {
      Cart.AddRepeatedFromAbsent(start, productId, size, false, [1, 1, 1]);
      assert Cart.AddAll(start, productId, size, false, [1, 1, 1]) == app.cart by {
        assert [1, 1, 1][1..] == [1, 1] && [1, 1][1..] == [1] && [1][1..] == [];
      }
      assert Cart.Sum([1, 1, 1]) == 3 by {
        assert [1, 1, 1][1..] == [1, 1] && [1, 1][1..] == [1] && [1][1..] == [];
      }
    }
  }

  /**
   * Signing out, then a cart fetch from the earlier login settling: the
   * just-emptied cart takes the remote lines, although nobody is signed
   * in any more.
   */
  method PullAfterLogoutRefillsCart(app: App, remote: seq<CartLine>)
    requires app.Valid() && Active(app.user) && FetchCart(app.user.value.id) in app.requests && remote != []
    modifies app
    ensures app.Valid() && app.user.None? && app.cart == remote && app.wishlist == []
    ensures app.store[CartKey] == CartEntry(remote)
  {
    app.SetUser(None);
    app.CartPullSettled(Received(Some(remote)));
  }
}
