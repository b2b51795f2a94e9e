# Storefront cart, wishlist and catalog state engine

This project models the client-side state engine of the storefront's root component, `App.tsx`, in Dafny. The engine covers:

- the cart of line items, keyed by product, size and gift flag;
- the wishlist of product ids;
- the catalog cache, which is loaded in bulk and then patched by push notifications;
- the session rules around them: write-through to the browser's local store, debounced pushes to the remote store, merge-on-login pulls, and clearing on logout.

Modules:

- `Types` (`types.dfy`): the data. The fields of a cart line, a product and a user that JavaScript may leave `undefined` are `Option`s. Comparing two `None`s gives `true`, as `undefined === undefined` does.
- `Cart` (`cart.dfy`): `addToCart`, `updateCartItem`, `updateCartItemSize` and `removeFromCart`. Each is a function from the old list of lines to the new one. The lemmas cover key uniqueness, quantity totals per key, order and the remove/add round trip.
- `Wishlist` (`wishlist.dfy`): `toggleWishlist` and its lemmas.
- `Catalog` (`catalog.dfy`): the bulk load with its `DUMMY_PRODUCTS` fallback (constants.tsx:15-37), and the `product_created`, `product_updated`, `product_deleted` and `stock_updated` handlers. The lemmas cover replay, commutation and "nothing else changes".
- `SeqFacts` (`seqs.dfy`): two identities about concatenation, used as single proof steps by the list filters.
- `Sync` (`sync.dfy`): the merge-on-login rule. The local collection is kept unless it is empty and the fetch returned a non-empty list.
- `Storefront` (`storefront.dfy`): class `App`, whose fields are the component's state.
  - The fields are `user`, `cart`, `wishlist` and `products`, plus `store` (the local store as a key→value map), one armed debounce `Timer` per collection, and `requests`, the log of calls made to the remote store.
  - Each method is one event: a user action, a push notification, a settled fetch or a timer firing.
  - Each method's contract gives the state once the effects that event triggers have run. `Valid()` states the write-through invariant, and that an armed timer holds the current collection for the signed-in user.

The code behaves as follows in these cases, which a reader of the interface might not expect:

- **Anonymous reload drops the cart.** The logout effect (App.tsx:133-140) also runs on mount. When nobody is signed in, it empties the cart and wishlist just read back from the local store. So a reload does not give an anonymous session back its cart. `Storefront.App.Mount` states this.
- **Corrupt stored data crashes on mount.** An unparsable stored user degrades to `null` (App.tsx:46-53). An unparsable stored cart or wishlist throws from the mount effect (App.tsx:118-123), because there is no `try` there. `Mount` returns `ok == false` for that case.
- **Replayed creates are not absorbed.** A replayed `product_created` adds a second copy (`Catalog.ProductCreatedReplayDuplicates`). Update, delete and stock changes are idempotent.
- **Late pull responses are applied after logout.** A pull response is applied whoever is signed in when it arrives. A cart fetched at login that settles after logout refills the emptied cart (`Storefront.PullAfterLogoutRefillsCart`).
- **Updates without an `_id` match unkeyed entries.** An update whose record has no `_id` matches every entry without one (`Catalog.UpdateWithoutIdHitsUnkeyed`).
- **Renaming a size can create duplicate keys.** `updateCartItemSize` can produce two lines with one key, and does not merge them (`Cart.UpdateCartItemSizeUniqueIff`).
- **Quantities are not checked for positivity.** `updateCartItem` accepts any quantity (`Cart.UpdateCartItemAllowsNonPositive`).

## Model

| member | source | states |
|---|---|---|
| `Cart.GiftFlag` | App.tsx:192 | the key's gift flag is true exactly when the line's flag is present and true; a missing flag counts as false |
| `Cart.FindIndex` | App.tsx:192 | no index exactly when no line has the key; otherwise the first line with the key |
| `Cart.IncrementMatching` | App.tsx:194 | same length; each line with the key has its quantity raised by the amount, every other line is unchanged |
| `Cart.AddToCart` | App.tsx:190-197 | if a line with the key exists: same length, matching lines grow by `quantity`, the rest is unchanged; otherwise exactly the new line `{productId, quantity, size, isGift}` is appended at the end |
| `Cart.AddToCartCounts` | App.tsx:190-197 | from at most one line with the key, the result has exactly one, its total grown by `quantity`; every other key keeps its line count and total |
| `Cart.AddToCartKeepsUniqueKeys` | App.tsx:190-197 | a cart without duplicate keys stays without them |
| `Cart.AddToCartKeepsPositive` | App.tsx:190-197 | with a positive added quantity, all quantities stay positive |
| `Cart.AddRepeated` | App.tsx:190-197 | a sequence of adds under one key leaves one line of that key (if any add happened) whose total grew by the sum; other keys untouched |
| `Cart.AddRepeatedFromAbsent` | App.tsx:190-197 | n ≥ 1 adds of a key absent from the cart leave exactly one line of it, holding the sum of the quantities |
| `Cart.UniqueKeysAtMostOne` | App.tsx:190-197 | a cart without duplicate keys has at most one line per key |
| `Cart.UpdateCartItem` | App.tsx:200-207 | same length and order; matching lines get exactly the given quantity and nothing else; other lines unchanged |
| `Cart.UpdateCartItemKeepsKeys` | App.tsx:200-207 | every line keeps its key, so uniqueness of keys is preserved |
| `Cart.UpdateCartItemTotals` | App.tsx:200-207 | every key keeps its line count; the updated key's total is its count times the new quantity, others keep theirs |
| `Cart.UpdateCartItemAllowsNonPositive` | App.tsx:200-207 | a zero or negative quantity is stored as given: no positivity check |
| `Cart.UpdateCartItemSize` | App.tsx:209-216 | same length and order; lines with the old key get the new size and nothing else; other lines unchanged |
| `Cart.UpdateCartItemSizeUniqueIff` | App.tsx:209-216 | for a duplicate-free cart and a real rename, the result is duplicate-free iff the old key or the new key had no line |
| `Cart.UpdateCartItemSizeCanDuplicate` | App.tsx:209-216 | a concrete duplicate-free cart whose rename yields two lines with one key |
| `Cart.RemoveFromCart` | App.tsx:218-220 | no kept line has the key; every kept line was in the cart; every non-matching line is kept; length drops by the number of matches; no match leaves the cart unchanged |
| `Cart.RemoveDistributes` | App.tsx:218-220 | removal commutes with concatenation, so kept lines stay in their original order |
| `Cart.RemoveDeletesOneLine` | App.tsx:218-220 | in a duplicate-free cart, removing line i's key gives exactly the cart without position i |
| `Cart.RemoveCounts` | App.tsx:218-220 | no line of the key remains; every other key keeps its line count and total |
| `Cart.RemoveKeepsUniqueKeys` | App.tsx:218-220 | a duplicate-free cart stays duplicate-free |
| `Cart.RemoveThenAdd` | App.tsx:190-220 | remove then add of one key appends one fresh line: the key has one line holding just the new quantity |
| `Wishlist.RemoveAll` | App.tsx:227 | the id no longer occurs, every other id keeps its multiplicity, nothing new appears; an absent id leaves the list unchanged |
| `Wishlist.Toggle` | App.tsx:226-228 | membership of the id flips; other ids keep their multiplicity; a present id is filtered out, an absent one appended at the end |
| `Wishlist.RemoveAllDistributes` | App.tsx:227 | the filter commutes with concatenation (order preserved) |
| `Wishlist.ToggleTwice` | App.tsx:226-228 | two toggles restore the id's membership and the other ids; an absent id gives the list back exactly, a present one ends once at the end |
| `Wishlist.ToggleKeepsNoDuplicates` | App.tsx:226-228 | a wishlist without repeated ids stays so |
| `Catalog.BulkLoad` | App.tsx:59-72 | never empty; a successful non-empty fetch is taken as is; failure, null or empty gives the placeholder list |
| `Catalog.Normalize` | App.tsx:76 | `id` becomes the record's `_id`, every other field unchanged |
| `Catalog.ProductCreated` | App.tsx:75-78 | one longer; the first entry is the record with `id` set to its `_id`; the rest is the old list |
| `Catalog.ProductUpdated` | App.tsx:80-83 | same length; entries matching the normalised record on `_id` or `id` become it; other entries unchanged |
| `Catalog.ProductDeleted` | App.tsx:85-87 | no remaining entry carries the id under either name; every entry not carrying it remains; nothing new; the length drops by exactly the number of entries carrying the id; no match leaves the list unchanged |
| `Catalog.ProductDeletedDistributes` | App.tsx:85-87 | the filter commutes with concatenation, so survivors keep their order and their number of copies |
| `Catalog.SetStock` | App.tsx:92-98 | the size's stock is the new value; the size set grows by that size at most; other sizes and all other fields unchanged |
| `Catalog.StockUpdated` | App.tsx:89-102 | same length; entries carrying the id get the stock change; other entries unchanged |
| `Catalog.ProductUpdatedIdempotent` | App.tsx:80-83 | replaying an update is absorbed |
| `Catalog.ProductDeletedIdempotent` | App.tsx:85-87 | replaying a delete is absorbed |
| `Catalog.StockUpdatedIdempotent` | App.tsx:89-102 | replaying a stock change is absorbed |
| `Catalog.ProductCreatedReplayDuplicates` | App.tsx:75-78 | replaying a create lists the record twice |
| `Catalog.StockUpdatesCommute` | App.tsx:89-102 | stock changes to two different sizes commute |
| `Catalog.CreatedThenDeleted` | App.tsx:75-87 | creating a record and deleting its `_id` equals deleting that id alone |
| `Catalog.UpdateWithoutIdHitsUnkeyed` | App.tsx:80-83 | an update lacking `_id` replaces the placeholder, which has none |
| `Catalog.StockExample` | App.tsx:89-102 | sizes `{S: 5, M: 3}` with stock of S set to 2 become `{S: 2, M: 3}`, all else identical |
| `Sync.MergeOnLogin` | App.tsx:163-188 | the result is the local or the remote list; it differs from local iff local is empty and the fetch returned a non-empty list; failure keeps local |
| `Sync.MergeIdempotent` | App.tsx:163-188 | applying one pull result twice equals applying it once |
| `Sync.LocalNonEmptyWins` | App.tsx:163-188 | a non-empty local collection is never replaced |
| `Sync.MergeEmptyOnlyIfBothEmpty` | App.tsx:163-188 | the merged collection is empty iff local was empty and the fetch gave nothing usable |
| `Storefront.Persist` | App.tsx:125-140 | cart and wishlist are written, the user written or removed, every other key untouched |
| `Storefront.PersistReadsBack` | App.tsx:118-140 | what the write-through effects store, the start-up reads (`SavedUser` of App.tsx:46-53, `SavedCart`, `SavedWishlist`) give back unchanged: the user, and the cart and wishlist as parsed values |
| `Storefront.BlankReadsAsAbsent` | App.tsx:119-122 | an empty stored text reads as a missing entry for the cart and the wishlist (skipped) and for the user (null, App.tsx:49) |
| `Storefront.App.constructor` | App.tsx:46-57 | user read back from the store; empty cart, wishlist and catalog; nothing armed or requested |
| `Storefront.App.Mount` | App.tsx:117-188 | fails iff the stored cart or wishlist, as read by `SavedCart` / `SavedWishlist` (missing or empty skipped), is unparsable; otherwise restores them for a signed-in user and empties them for an anonymous one, writes through, arms both timers for an active user and requests its cart and wishlist fetches (`Pulls`) |
| `Storefront.App.CommitCart` | App.tsx:125-150 | the new cart is written through and its timer re-armed; nothing else changes |
| `Storefront.App.CommitWishlist` | App.tsx:129-160 | the new wishlist is written through and its timer re-armed; nothing else changes |
| `Storefront.App.AddToCart` | App.tsx:190-198 | the cart becomes `Cart.AddToCart` of the old one, written through and re-armed |
| `Storefront.App.UpdateCartItem` | App.tsx:200-207 | the cart becomes `Cart.UpdateCartItem` of the old one, written through and re-armed |
| `Storefront.App.UpdateCartItemSize` | App.tsx:209-216 | the cart becomes `Cart.UpdateCartItemSize` of the old one, written through and re-armed |
| `Storefront.App.RemoveFromCart` | App.tsx:218-220 | the cart becomes `Cart.RemoveFromCart` of the old one, written through and re-armed |
| `Storefront.App.ClearCart` | App.tsx:222-224 | the cart and its stored copy become empty |
| `Storefront.App.ToggleWishlist` | App.tsx:226-228 | the wishlist becomes `Wishlist.Toggle` of the old one, written through and re-armed |
| `Storefront.App.SetUser` | App.tsx:133-188 | null over null changes nothing; sign-in persists the user; sign-out removes the stored user and empties cart and wishlist; an id change re-arms both timers for the new user and requests its pulls |
| `Storefront.App.CartTimerFires` | App.tsx:143-150 | an armed timer sends exactly one push, of the current cart for the signed-in user, and is disarmed |
| `Storefront.App.WishlistTimerFires` | App.tsx:152-160 | an armed timer sends exactly one push, of the current wishlist, and is disarmed |
| `Storefront.App.CartPullSettled` | App.tsx:162-174 | the cart becomes the merge of the old cart with the fetch result; an unchanged cart leaves the whole state unchanged |
| `Storefront.App.WishlistPullSettled` | App.tsx:176-188 | the wishlist becomes the merge of the old wishlist with the fetch result; an unchanged wishlist leaves the whole state unchanged |
| `Storefront.App.ProductsLoaded` | App.tsx:59-72 | only the catalog changes, to the bulk-load result |
| `Storefront.App.OnProductCreated` | App.tsx:75-78 | only the catalog changes, by the create handler |
| `Storefront.App.OnProductUpdated` | App.tsx:80-83 | only the catalog changes, by the update handler |
| `Storefront.App.OnProductDeleted` | App.tsx:85-87 | only the catalog changes, by the delete handler |
| `Storefront.App.OnStockUpdated` | App.tsx:89-102 | only the catalog changes, by the stock handler |
| `Storefront.BurstSendsOnePush` | App.tsx:143-150 | three adds and a timer firing send exactly one push carrying the cart after the third add; a new key ends with one line of quantity 3 |
| `Storefront.PullAfterLogoutRefillsCart` | App.tsx:133-174 | after sign-out, a late cart pull with lines refills the cart and its stored copy while nobody is signed in |

## Left out

- Rendering and routing are left out because they are UI: `HashRouter`, `Routes`, `ScrollToTop`, the JSX tree, and the `isAdmin` flag (App.tsx:37-43, App.tsx:230-276).
- The admin catalog editor is left out. It replaces `allProducts` wholesale (App.tsx:256), and its page is not part of this model.
- Socket subscription and teardown are left out (App.tsx:75-114). Each handler is modelled only by the state change it applies. The `order_created` handler is left out because its body is empty.
- Network I/O is left out:
  - the results of `fetchProducts`, `fetchCart` and `fetchWishlist` are method parameters (`Fetched`);
  - the calls that are started are appended to `requests`;
  - `saveCart` and `saveWishlist` failures are caught and logged without retry, so no state change follows them; logging is not modelled.
- Time is not modelled. The 2000 ms debounce delay is absent, and "the timer fires" is an event. The model keeps what the delay implies: one armed snapshot per collection, replaced by every change and cancelled when the user id goes away.
- JSON serialisation is not modelled; the store holds parsed values. Empty text is the value `Blank`, which every read skips as it skips a missing key (App.tsx:49, App.tsx:120, App.tsx:122). An entry of the wrong kind counts as unparsable.
- React scheduling is not modelled:
  - intermediate renders and the order in which effects interleave inside one event are not modelled; each method gives the settled state;
  - every signed-in user passed to `SetUser` is treated as a new object, as the login pages create it;
  - updaters that return the previous state are treated as no change.
- `Storefront.App.Mount`: when a stored collection is unparsable, the state is left unchanged. This stands for the crash; what React then shows is not modelled.
- Default arguments are not modelled: `quantity = 1` and `isGift = false` of `addToCart`, and `isGift = false` of `updateCartItem`, `updateCartItemSize` and `removeFromCart` (App.tsx:190, App.tsx:200, App.tsx:209, App.tsx:218). Every caller passes all arguments explicitly.
- Numbers are whole numbers. Quantities, stock counts and prices are `int`, where JavaScript uses floating point.
- Data fields are collapsed:
  - product fields beyond id, `_id`, sku, name, category, tags, prices, images, description and sizes, including the extra fields of the placeholder in constants.tsx;
  - user fields beyond id, name, email and phone.
- `types.ts` declarations for orders, coupons, finance and gifts are left out because no logic in the core uses them.
- `test-db.js` is not part of this model.
