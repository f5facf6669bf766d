/** The order routes: GET /orders/:userId (the user's orders, newest first) and
    POST /orders/:userId, the checkout, which inserts a pending order and then empties
    the user's cart. */
module OrderRoutes {
  import opened Common
  import opened Seqs
  import opened Tables
  import opened Schema
  import opened ProductRoutes
  import opened CartRoutes

  /** The body of POST /orders/:userId. `total` is `None` when it is null or absent;
      `items` keeps its JSON form because the handler tests its truthiness and its type. */
  datatype OrderBody = OrderBody(
    userName: Option<string>, userPhone: Option<string>, userAddress: Option<string>,
    items: JsValue, total: Option<int>)

  /** The handler's guard: truthy items and a total that is neither null nor undefined. */
  predicate Accepted(body: OrderBody)
  {
    Truthy(body.items) && body.total.Some?
  }

  /** The `items` column: a string is stored as sent, anything else as its JSON text
      (`stringify` stands for `JSON.stringify`). */
  function ItemsText(items: JsValue, stringify: JsValue -> string): (t: string)
    ensures items.Str? ==> t == items.s
    ensures !items.Str? ==> t == stringify(items)
  {
    if items.Str? then items.s else stringify(items)
  }

  /** The row the checkout INSERT writes. */
  function NewOrder(id: int, userId: string, body: OrderBody, stringify: JsValue -> string, at: nat): (o: OrderRow)
    requires body.total.Some?
    ensures o.userId == userId && o.status == PendingStatus && o.total == body.total.value
    ensures o.userName == NullIfEmpty(body.userName) && o.userPhone == NullIfEmpty(body.userPhone)
    ensures o.userAddress == NullIfEmpty(body.userAddress)
    ensures o.items == ItemsText(body.items, stringify)
  {
    OrderRow(id, userId, NullIfEmpty(body.userName), NullIfEmpty(body.userPhone),
             NullIfEmpty(body.userAddress), ItemsText(body.items, stringify), body.total.value,
             PendingStatus, at)
  }

  /** The rows `DELETE FROM cart_items WHERE user_id = ?` keeps. */
  function NotOwnedBy(userId: string): CartRow -> bool
  {
    (c: CartRow) => c.userId != userId
  }

  /** The cart table after the checkout's clear. */
  function ClearCart(cart: seq<CartRow>, userId: string): (r: seq<CartRow>)
    ensures forall c :: c in r <==> c in cart && c.userId != userId
  {
    Filter(cart, NotOwnedBy(userId))
  }

  /** POST /orders/:userId. A rejected body leaves the database as it was. An accepted one
      inserts one pending order holding the client's total verbatim, then deletes every
      cart row of the user, whatever the order's items were; no other table changes. */
  method CreateOrder(db: Db, userId: string, body: OrderBody, stringify: JsValue -> string) returns (reply: Reply)
    requires db.Valid()
    modifies db`orders, db`nextOrderId, db`cart, db`journal
    ensures db.Valid()
    ensures reply == (if Accepted(body) then Created else BadRequest)
    ensures !Accepted(body) ==> unchanged(db)
    ensures Accepted(body) ==>
      && db.orders == old(db.orders) + [NewOrder(old(db.nextOrderId), userId, body, stringify, old(db.clock))]
      && db.nextOrderId == old(db.nextOrderId) + 1
      && db.cart == ClearCart(old(db.cart), userId)
      && db.journal == old(db.journal) + [OrderInserted(old(db.nextOrderId), userId), CartCleared(userId)]
  {
    if !Truthy(body.items) || body.total.None? {
      return BadRequest;
    }
    PlaceOrder(db, userId, body, stringify);
    reply := Created;
  }

  /** The two writes of an accepted checkout: the INSERT of the order, then the DELETE of
      the user's cart rows. */
  method PlaceOrder(db: Db, userId: string, body: OrderBody, stringify: JsValue -> string)
    requires db.Valid() && body.total.Some?
    modifies db`orders, db`nextOrderId, db`cart, db`journal
    ensures db.Valid()
    ensures db.orders == old(db.orders) + [NewOrder(old(db.nextOrderId), userId, body, stringify, old(db.clock))]
    ensures db.nextOrderId == old(db.nextOrderId) + 1
    ensures db.cart == ClearCart(old(db.cart), userId)
    ensures db.journal == old(db.journal) + [OrderInserted(old(db.nextOrderId), userId), CartCleared(userId)]
  {
    var order := NewOrder(db.nextOrderId, userId, body, stringify, db.clock);
    InsertOrder(db, order);
    ClearUserCart(db, userId);
  }

  /** The checkout's INSERT: the order gets the next id and the current time. */
  method InsertOrder(db: Db, order: OrderRow)
    requires db.Valid()
    requires order.id == db.nextOrderId && order.createdAt == db.clock && order.status == PendingStatus
    modifies db`orders, db`nextOrderId, db`journal
    ensures db.Valid()
    ensures db.orders == old(db.orders) + [order] && db.nextOrderId == old(db.nextOrderId) + 1
    ensures db.journal == old(db.journal) + [OrderInserted(order.id, order.userId)]
  {
    var orders', journal' := db.orders + [order], db.journal + [OrderInserted(order.id, order.userId)];
    AppendKeepsIds(db.orders, (o: OrderRow) => o.id, db.nextOrderId, order);
    AppendKeepsTimes(db.orders, (o: OrderRow) => o.createdAt, db.clock, order);
    assert orders'[|db.orders|] == order;
    forall k | 0 <= k < |journal'| && journal'[k].OrderInserted?
      ensures HasOrder(orders', journal'[k].orderId, journal'[k].userId)
    {
      if k < |db.journal| {
        assert journal'[k] == db.journal[k];
        var i :| 0 <= i < |db.orders| && db.orders[i].id == db.journal[k].orderId && db.orders[i].userId == db.journal[k].userId;
        assert orders'[i] == db.orders[i];
      }
    }
    forall k | 0 <= k < |journal'| && journal'[k].CartCleared?
      ensures k > 0 && journal'[k - 1].OrderInserted? && journal'[k - 1].userId == journal'[k].userId
    {
      assert journal'[k] == db.journal[k] && journal'[k - 1] == db.journal[k - 1];
    }
    db.orders, db.journal := orders', journal';
    db.nextOrderId := db.nextOrderId + 1;
  }

  /** The checkout's DELETE of the user's cart rows, which follows the insert of the order. */
  method ClearUserCart(db: Db, userId: string)
    requires db.Valid()
    requires |db.journal| > 0 && db.journal[|db.journal| - 1].OrderInserted?
    requires db.journal[|db.journal| - 1].userId == userId
    modifies db`cart, db`journal
    ensures db.Valid()
    ensures db.cart == ClearCart(old(db.cart), userId)
    ensures db.journal == old(db.journal) + [CartCleared(userId)]
  {
    FilterKeepsTable(db.cart, (c: CartRow) => c.id, (c: CartRow) => c.createdAt,
                     NotOwnedBy(userId), db.nextCartId, db.clock);
    var journal' := db.journal + [CartCleared(userId)];
    forall k | 0 <= k < |journal'| && journal'[k].OrderInserted?
      ensures HasOrder(db.orders, journal'[k].orderId, journal'[k].userId)
    {
      assert journal'[k] == db.journal[k];
    }
    forall k | 0 <= k < |journal'| && journal'[k].CartCleared?
      ensures k > 0 && journal'[k - 1].OrderInserted? && journal'[k - 1].userId == journal'[k].userId
    {
      assert journal'[k - 1] == db.journal[k - 1];
      if k < |db.journal| {
        assert journal'[k] == db.journal[k];
      }
    }
    db.cart := ClearCart(db.cart, userId);
    db.journal := journal';
  }

  /** The rows `WHERE user_id = ?` selects from the orders table. */
  function PlacedBy(userId: string): OrderRow -> bool
  {
    (o: OrderRow) => o.userId == userId
  }

  function OrdersOf(orders: seq<OrderRow>, userId: string): (r: seq<OrderRow>)
    ensures forall o :: o in r <==> o in orders && o.userId == userId
  {
    Filter(orders, PlacedBy(userId))
  }

  /** GET /orders/:userId, `ORDER BY created_at DESC`: exactly the user's orders, the newest
      first. Among orders with equal times the query promises no order; the model lists
      the later-inserted one first. */
  function ListOrders(orders: seq<OrderRow>, userId: string): (r: seq<OrderRow>)
    requires NonDecreasing(orders, (o: OrderRow) => o.createdAt)
    ensures multiset(r) == multiset(OrdersOf(orders, userId))
    ensures forall o :: o in r <==> o in orders && o.userId == userId
    ensures forall i, j :: 0 <= i < j < |r| ==> r[i].createdAt >= r[j].createdAt
  {
    var mine := OrdersOf(orders, userId);
    ReverseMultiset(mine);
    FilterKeepsNonDecreasing(orders, (o: OrderRow) => o.createdAt, PlacedBy(userId));
    assert forall o :: o in Reverse(mine) <==> o in multiset(Reverse(mine));
    Reverse(mine)
  }

  /** What `ORDER BY created_at DESC` may return for a user: exactly the user's orders, in
      any order that puts no order before a newer one. `ListOrders` is one such listing. */
  predicate OrdersListing(r: seq<OrderRow>, orders: seq<OrderRow>, userId: string)
  {
    && multiset(r) == multiset(OrdersOf(orders, userId))
    && forall i, j :: 0 <= i < j < |r| ==> r[i].createdAt >= r[j].createdAt
  }

  /** The route's own listing is one the query may return. */
  lemma ListOrdersIsListing(orders: seq<OrderRow>, userId: string)
    requires NonDecreasing(orders, (o: OrderRow) => o.createdAt)
    ensures OrdersListing(ListOrders(orders, userId), orders, userId)
  {
  }

  /** A new order joins its user's orders and no one else's. */
  lemma OrdersOfAppend(orders: seq<OrderRow>, o: OrderRow)
    ensures multiset(OrdersOf(orders + [o], o.userId)) == multiset(OrdersOf(orders, o.userId)) + multiset{o}
  {
    FilterAppend(orders, [o], PlacedBy(o.userId));
    assert Filter([o], PlacedBy(o.userId)) == [o] by {
      assert [o][..0] == [];
    }
  }

  /** After a checkout whose time is later than the user's earlier orders, every listing
      of the user's orders starts with the new order, followed by a listing of the orders
      placed before. */
  lemma NewOrderListedFirst(orders: seq<OrderRow>, o: OrderRow, r: seq<OrderRow>)
    requires forall x :: x in orders && x.userId == o.userId ==> x.createdAt < o.createdAt
    requires OrdersListing(r, orders + [o], o.userId)
    ensures r != [] && r[0] == o
    ensures OrdersListing(r[1..], orders, o.userId)
  {
    OrdersOfAppend(orders, o);
    NewestListedFirst(OrdersOf(orders, o.userId), o, r);
    var rest := r[1..];
    forall i, j | 0 <= i < j < |rest|
      ensures rest[i].createdAt >= rest[j].createdAt
    {
      assert rest[i] == r[i + 1] && rest[j] == r[j + 1];
    }
  }

  /** A listing by non-increasing time of older orders and one newer order starts with the
      newer one. */
  lemma NewestListedFirst(mine: seq<OrderRow>, o: OrderRow, r: seq<OrderRow>)
    requires forall x :: x in mine ==> x.createdAt < o.createdAt
    requires multiset(r) == multiset(mine) + multiset{o}
    requires forall i, j :: 0 <= i < j < |r| ==> r[i].createdAt >= r[j].createdAt
    ensures r != [] && r[0] == o && multiset(r[1..]) == multiset(mine)
  {
    assert o in multiset(r);
    var j :| 0 <= j < |r| && r[j] == o;
    assert r[0].createdAt >= o.createdAt;
    assert r[0] !in mine;
    assert r[0] in multiset(r);
    assert r == [r[0]] + r[1..];
    calc {
      multiset(r[1..]);
      multiset(r) - multiset{o};
      multiset(mine);
    }
  }

  /** Once the checkout has cleared the cart, the user's cart listing is empty. */
  lemma CheckoutEmptiesCart(cart: seq<CartRow>, products: seq<ProductRow>, userId: string)
    ensures ListCart(ClearCart(cart, userId), products, userId) == []
  {
    var r := ClearCart(cart, userId);
    assert forall k :: 0 <= k < |r| ==> r[k] in r;
    ListCartOfOthers(r, products, userId);
  }

  /** The checkout's clear does not touch another user's cart listing. */
  lemma {:induction false} CheckoutSparesOthers(cart: seq<CartRow>, products: seq<ProductRow>, userId: string, other: string)
    requires other != userId
    ensures ListCart(ClearCart(cart, userId), products, other) == ListCart(cart, products, other)
  {
    if cart != [] {
      var init, last := cart[..|cart| - 1], cart[|cart| - 1];
      CheckoutSparesOthers(init, products, userId, other);
      var f := ClearCart(init, userId);
      if last.userId != userId {
        assert ClearCart(cart, userId) == f + [last];
        assert (f + [last])[..|f|] == f;
      } else {
        assert ClearCart(cart, userId) == f + [];
        assert f + [] == f;
      }
    }
  }

  /** A second clear finds nothing left to delete. */
  lemma ClearCartIdempotent(cart: seq<CartRow>, userId: string)
    ensures ClearCart(ClearCart(cart, userId), userId) == ClearCart(cart, userId)
  {
    var r := ClearCart(cart, userId);
    assert forall k :: 0 <= k < |r| ==> r[k] in r;
    FilterKeepsAll(r, NotOwnedBy(userId));
  }
}
