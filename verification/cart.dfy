/** The cart routes: GET /cart/:userId (the user's rows joined with their products),
    POST /cart/:userId (append a row) and DELETE /cart/:userId/:itemId (owner-scoped). */
module CartRoutes {
  import opened Common
  import opened Seqs
  import opened Tables
  import opened Schema
  import opened ProductRoutes

  /** A row of the cart listing: the cart row's columns and the product's display columns. */
  datatype CartLine = CartLine(
    row: CartRow, name: string, description: Option<string>, price: int,
    imageUrl: Option<string>, category: string, sizes: Option<string>)

  function Joined(row: CartRow, p: ProductRow): CartLine
  {
    CartLine(row, p.name, p.description, p.price, p.imageUrl, p.category, p.sizes)
  }

  /** The listing contribution of one cart row: nothing unless it belongs to the user and
      its product exists. */
  function LineOf(row: CartRow, products: seq<ProductRow>, userId: string): seq<CartLine>
  {
    if row.userId == userId && FindProduct(products, row.productId).Some?
    then [Joined(row, FindProduct(products, row.productId).value)]
    else []
  }

  /** The rows the join keeps for a user: the user's own rows whose product exists. */
  function Listed(products: seq<ProductRow>, userId: string): CartRow -> bool
  {
    (c: CartRow) => c.userId == userId && FindProduct(products, c.productId).Some?
  }

  /** The cart rows behind the lines of a listing, in its order. */
  function RowsOf(lines: seq<CartLine>): seq<CartRow>
  {
    seq(|lines|, k requires 0 <= k < |lines| => lines[k].row)
  }

  /** The inner join of `cart_items` with `products`, restricted to one user, in cart order:
      every line is one of the user's rows with its product's columns. `ListCartOnce`
      shows that each row the join keeps is listed exactly once. */
  function ListCart(cart: seq<CartRow>, products: seq<ProductRow>, userId: string): (r: seq<CartLine>)
    ensures |r| <= |cart|
    ensures forall k :: 0 <= k < |r| ==>
      && r[k].row in cart && r[k].row.userId == userId
      && FindProduct(products, r[k].row.productId).Some?
      && r[k] == Joined(r[k].row, FindProduct(products, r[k].row.productId).value)
  {
    if cart == [] then []
    else ListCart(cart[..|cart| - 1], products, userId) + LineOf(cart[|cart| - 1], products, userId)
  }

  /** The join lists each of the user's rows whose product exists exactly once, and no
      other row. The query has no `ORDER BY`, so only the rows listed, counted with
      multiplicity, are promised, not their order. */
  lemma {:induction false} ListCartOnce(cart: seq<CartRow>, products: seq<ProductRow>, userId: string)
    ensures multiset(RowsOf(ListCart(cart, products, userId))) == multiset(Filter(cart, Listed(products, userId)))
  {
    if cart != [] {
      ListCartOnce(cart[..|cart| - 1], products, userId);
      ListedOnce(cart, products, userId, ListCart(cart[..|cart| - 1], products, userId));
    }
  }

  /** One step of the join: the rows listed for a cart are those listed for all of it but
      its last row, and that row when the join keeps it. */
  lemma ListedOnce(cart: seq<CartRow>, products: seq<ProductRow>, userId: string, prev: seq<CartLine>)
    requires cart != []
    requires multiset(RowsOf(prev)) == multiset(Filter(cart[..|cart| - 1], Listed(products, userId)))
    ensures multiset(RowsOf(prev + LineOf(cart[|cart| - 1], products, userId)))
         == multiset(Filter(cart, Listed(products, userId)))
  {
    var last := cart[|cart| - 1];
    var line := LineOf(last, products, userId);
    var kept: seq<CartRow> := if Listed(products, userId)(last) then [last] else [];
    assert RowsOf(line) == kept;
    RowsOfAppend(prev, line);
    assert Filter(cart, Listed(products, userId)) == Filter(cart[..|cart| - 1], Listed(products, userId)) + kept;
  }

  lemma RowsOfAppend(a: seq<CartLine>, b: seq<CartLine>)
    ensures RowsOf(a + b) == RowsOf(a) + RowsOf(b)
  {
  }

  /** The join drops none of the user's rows whose product exists. */
  lemma {:induction false} ListCartComplete(cart: seq<CartRow>, products: seq<ProductRow>, userId: string, c: CartRow)
    requires c in cart && c.userId == userId && FindProduct(products, c.productId).Some?
    ensures exists k :: 0 <= k < |ListCart(cart, products, userId)| && ListCart(cart, products, userId)[k].row == c
  {
    var init, last := cart[..|cart| - 1], cart[|cart| - 1];
    var prev := ListCart(init, products, userId);
    var r := ListCart(cart, products, userId);
    assert r == prev + LineOf(last, products, userId);
    if c == last {
      var line := Joined(last, FindProduct(products, last.productId).value);
      assert LineOf(last, products, userId) == [line];
      assert r[|prev|] == line;
    } else {
      InInit(cart, c);
      ListCartComplete(init, products, userId, c);
      var k :| 0 <= k < |prev| && prev[k].row == c;
      assert r[k] == prev[k];
    }
  }

  /** The listing depends only on the user's own rows. */
  lemma {:induction false} ListCartOfOthers(cart: seq<CartRow>, products: seq<ProductRow>, userId: string)
    requires forall k :: 0 <= k < |cart| ==> cart[k].userId != userId
    ensures ListCart(cart, products, userId) == []
  {
    if cart != [] {
      ListCartOfOthers(cart[..|cart| - 1], products, userId);
    }
  }

  /** The body of POST /cart/:userId. A missing `product_id` or `size` is represented by its
      falsy value, 0 or "", since the handler treats the two alike; `quantity` is `None`
      when absent. */
  datatype AddBody = AddBody(productId: int, size: string, quantity: Option<int>)

  predicate AddAccepted(body: AddBody)
  {
    body.productId != 0 && body.size != ""
  }

  /** The row the INSERT writes; an absent quantity takes the default of 1. */
  function NewCartRow(id: int, userId: string, body: AddBody, at: nat): (c: CartRow)
    ensures body.quantity.None? ==> c.quantity == DefaultQuantity
    ensures body.quantity.Some? ==> c.quantity == body.quantity.value
  {
    CartRow(id, userId, body.productId, body.size,
            match body.quantity case Some(q) => q case None => DefaultQuantity, at)
  }

  /** POST /cart/:userId. Neither the product nor the size is checked against the catalog,
      and a repeated add appends a second row instead of merging quantities. */
  method AddItem(db: Db, userId: string, body: AddBody) returns (reply: Reply)
    requires db.Valid()
    modifies db`cart, db`nextCartId
    ensures db.Valid()
    ensures reply == (if AddAccepted(body) then Created else BadRequest)
    ensures !AddAccepted(body) ==> unchanged(db)
    ensures AddAccepted(body) ==>
      && db.cart == old(db.cart) + [NewCartRow(old(db.nextCartId), userId, body, old(db.clock))]
      && db.nextCartId == old(db.nextCartId) + 1
  {
    if body.productId == 0 || body.size == "" {
      return BadRequest;
    }
    var row := NewCartRow(db.nextCartId, userId, body, db.clock);
    AppendKeepsIds(db.cart, (c: CartRow) => c.id, db.nextCartId, row);
    AppendKeepsTimes(db.cart, (c: CartRow) => c.createdAt, db.clock, row);
    db.cart, db.nextCartId := db.cart + [row], db.nextCartId + 1;
    reply := Created;
  }

  /** The rows `DELETE ... WHERE id = ? AND user_id = ?` does not match. */
  function Unmatched(itemId: int, userId: string): CartRow -> bool
  {
    (c: CartRow) => !(c.id == itemId && c.userId == userId)
  }

  predicate HasItem(cart: seq<CartRow>, itemId: int, userId: string)
  {
    exists c :: c in cart && c.id == itemId && c.userId == userId
  }

  /** DELETE /cart/:userId/:itemId. A row is removed only when both its id and its owner
      match; otherwise the reply is 404 and the table is as it was. */
  method DeleteItem(db: Db, userId: string, itemId: int) returns (reply: Reply)
    requires db.Valid()
    modifies db`cart
    ensures db.Valid()
    ensures reply == (if HasItem(old(db.cart), itemId, userId) then Ok else NotFound)
    ensures db.cart == Filter(old(db.cart), Unmatched(itemId, userId))
    ensures reply == NotFound ==> db.cart == old(db.cart)
  {
    var found := HasItem(db.cart, itemId, userId);
    db.cart := Filter(db.cart, Unmatched(itemId, userId));
    ghost var kept := db.cart;
    assert forall c :: c in kept ==> c in old(db.cart);
    FilterKeepsTable(old(db.cart), (c: CartRow) => c.id, (c: CartRow) => c.createdAt,
                     Unmatched(itemId, userId), db.nextCartId, db.clock);
    if !found {
      FilterKeepsAll(old(db.cart), Unmatched(itemId, userId));
      reply := NotFound;
    } else {
      reply := Ok;
    }
  }

  /** With unique ids, a successful delete removes exactly one row. */
  lemma {:induction false} DeleteRemovesOne(cart: seq<CartRow>, itemId: int, userId: string)
    requires Ascending(cart, (c: CartRow) => c.id)
    requires HasItem(cart, itemId, userId)
    ensures |Filter(cart, Unmatched(itemId, userId))| == |cart| - 1
  {
    var keep := Unmatched(itemId, userId);
    var init, last := cart[..|cart| - 1], cart[|cart| - 1];
    if !keep(last) {
      forall k | 0 <= k < |init| ensures keep(init[k]) {
        assert init[k] == cart[k];
      }
      FilterKeepsAll(init, keep);
    } else {
      var c :| c in cart && c.id == itemId && c.userId == userId;
      assert cart == init + [last];
      assert c in init;
      forall i, j | 0 <= i < j < |init| ensures init[i].id < init[j].id {
        assert init[i] == cart[i] && init[j] == cart[j];
      }
      DeleteRemovesOne(init, itemId, userId);
    }
  }
}
