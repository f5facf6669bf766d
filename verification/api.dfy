/** The shapes the storefront client reads from the backend. */
module Api {
  import opened Common
  import opened Tables
  import opened CartRoutes

  /** A product as the client sees it; `storeId` is absent for a product without a store. */
  datatype Product = Product(
    id: int, storeId: Option<int>, name: string, description: string, price: int,
    imageUrl: Option<string>, category: string, sizes: string)

  /** `p.store_id ?? 1`: the pages file a product without a store under store 1. */
  function StoreOf(p: Product): (id: int)
    ensures p.storeId.Some? ==> id == p.storeId.value
    ensures p.storeId.None? ==> id == 1
  {
    match p.storeId
    case Some(id) => id
    case None => 1
  }

  datatype Store = Store(id: int, name: string, imageUrl: Option<string>, description: string)

  /** One line of the cart listing as the client reads it. */
  datatype CartItem = CartItem(
    id: int, productId: int, size: string, quantity: int, name: string, price: int, imageUrl: Option<string>)

  /** An order is read back exactly as its row was stored. */
  type Order = OrderRow

  /** The client's view of a line of GET /cart/:userId. */
  function ItemOf(line: CartLine): (i: CartItem)
    ensures i.id == line.row.id && i.quantity == line.row.quantity && i.price == line.price
  {
    CartItem(line.row.id, line.row.productId, line.row.size, line.row.quantity, line.name, line.price, line.imageUrl)
  }

  function ItemsOf(lines: seq<CartLine>): (r: seq<CartItem>)
    ensures |r| == |lines|
    ensures forall k :: 0 <= k < |r| ==> r[k] == ItemOf(lines[k])
  {
    seq(|lines|, k requires 0 <= k < |lines| => ItemOf(lines[k]))
  }
}
