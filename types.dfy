/**
 * The plain data the storefront's client state is made of: cart lines,
 * catalog records and the signed-in user, shaped after `types.ts` and the
 * cart's element type in `App.tsx`.  Values that JavaScript may leave
 * `undefined` are `Option`s, so that comparing two of them with `===`
 * becomes Dafny's structural equality (two `None`s are equal, as two
 * `undefined`s are).
 */
module Types {

  datatype Option<+T> = None | Some(value: T)

  /**
   * How a call to a remote collaborator ends: the promise is rejected
   * (`Failed`), or it resolves to a value that may be `null`/`undefined`
   * (`Received(None)`).
   */
  datatype Fetched<+T> = Failed | Received(data: Option<T>)

  /** One line of the cart.  `isGift` is optional in the source; a line
      restored from storage or fetched from the server may lack it. */
  datatype CartLine = CartLine(productId: string, quantity: int, size: string, isGift: Option<bool>)

  /**
   * A catalog record.  `id` is the client-side key and `altId` the remote
   * store's `_id`; either may be missing on a record that arrives from
   * outside.  `sizes` maps a size name to its stock count.  Prices are
   * whole numbers here.
   */
  datatype Product = Product(
    id: Option<string>,
    altId: Option<string>,
    sku: string,
    name: string,
    category: seq<string>,
    tags: seq<string>,
    actualPrice: int,
    offerPrice: int,
    images: seq<string>,
    description: string,
    sizes: map<string, int>)

  /** The signed-in user; only `id` takes part in the state engine. */
  datatype User = User(id: string, name: string, email: string, phone: string)
}
