/** The backend's SQLite database, held in memory: one sequence of rows per table in
    insertion (rowid) order, the AUTOINCREMENT counter of each table, and the clock that
    fills `created_at` columns. */
module Tables {
  import opened Common
  import opened Seqs

  /** A `products` row. `storeId` is the optional `store_id` column the store routes use. */
  datatype ProductRow = ProductRow(
    id: int, storeId: Option<int>, name: string, description: Option<string>, price: int,
    imageUrl: Option<string>, category: string, sizes: Option<string>, createdAt: nat)

  datatype StoreRow = StoreRow(
    id: int, name: string, imageUrl: Option<string>, description: Option<string>)

  datatype CartRow = CartRow(
    id: int, userId: string, productId: int, size: string, quantity: int, createdAt: nat)

  datatype OrderRow = OrderRow(
    id: int, userId: string, userName: Option<string>, userPhone: Option<string>,
    userAddress: Option<string>, items: string, total: int, status: string, createdAt: nat)

  datatype ReviewRow = ReviewRow(
    id: int, userId: string, userName: string, rating: int, text: string, createdAt: nat)

  datatype CommentRow = CommentRow(
    id: int, reviewId: int, userId: string, userName: string, text: string, createdAt: nat)

  /** The writes of the checkout, in the order they reach the database. */
  datatype Write = OrderInserted(orderId: int, userId: string) | CartCleared(userId: string)

  /** The rows' keys strictly increase along the table (ids are unique and in rowid order). */
  predicate Ascending<R(!new)>(rows: seq<R>, key: R -> int)
  {
    forall i, j :: 0 <= i < j < |rows| ==> key(rows[i]) < key(rows[j])
  }

  /** The rows' keys never decrease along the table. */
  predicate NonDecreasing<R(!new)>(rows: seq<R>, key: R -> int)
  {
    forall i, j :: 0 <= i < j < |rows| ==> key(rows[i]) <= key(rows[j])
  }

  /** Every key lies strictly below `bound`. */
  predicate Below<R(!new)>(rows: seq<R>, key: R -> int, bound: int)
  {
    forall i :: 0 <= i < |rows| ==> key(rows[i]) < bound
  }

  /** Every key lies at or below `bound`. */
  predicate AtMost<R(!new)>(rows: seq<R>, key: R -> int, bound: int)
  {
    forall i :: 0 <= i < |rows| ==> key(rows[i]) <= bound
  }

  /** A table whose ids ascend and stay below the next id to hand out. */
  predicate IdsOk<R(!new)>(rows: seq<R>, id: R -> int, next: int)
  {
    Ascending(rows, id) && Below(rows, id, next)
  }

  /** A table whose creation times never decrease and never pass the clock. */
  predicate TimesOk<R(!new)>(rows: seq<R>, at: R -> int, clock: int)
  {
    NonDecreasing(rows, at) && AtMost(rows, at, clock)
  }

  /** The status every order is created with. No route changes an order's status. */
  const PendingStatus: string := "pending"

  predicate AllPending(orders: seq<OrderRow>)
  {
    forall k :: 0 <= k < |orders| ==> orders[k].status == PendingStatus
  }

  /** The orders table holds an order with this id for this user. */
  predicate HasOrder(orders: seq<OrderRow>, id: int, userId: string)
  {
    exists i :: 0 <= i < |orders| && orders[i].id == id && orders[i].userId == userId
  }

  /** Every cart clear in the journal comes right after the insert of an order for the
      same user, and every inserted order is still in the orders table. */
  predicate JournalOk(journal: seq<Write>, orders: seq<OrderRow>)
  {
    && (forall k :: 0 <= k < |journal| && journal[k].CartCleared? ==>
          k > 0 && journal[k - 1].OrderInserted? && journal[k - 1].userId == journal[k].userId)
    && (forall k :: 0 <= k < |journal| && journal[k].OrderInserted? ==>
          HasOrder(orders, journal[k].orderId, journal[k].userId))
  }

  /** A filter of a table keeps its keys ascending. */
  lemma {:induction false} FilterKeepsAscending<R(!new)>(rows: seq<R>, key: R -> int, keep: R -> bool)
    requires Ascending(rows, key)
    ensures Ascending(Filter(rows, keep), key)
  {
    if rows != [] {
      var init, last := rows[..|rows| - 1], rows[|rows| - 1];
      FilterKeepsAscending(init, key, keep);
      forall x | x in Filter(init, keep) ensures key(x) < key(last) {
        var i :| 0 <= i < |init| && init[i] == x;
        assert rows[i] == x;
      }
    }
  }

  /** A filter of a table keeps its keys non-decreasing. */
  lemma {:induction false} FilterKeepsNonDecreasing<R(!new)>(rows: seq<R>, key: R -> int, keep: R -> bool)
    requires NonDecreasing(rows, key)
    ensures NonDecreasing(Filter(rows, keep), key)
  {
    if rows != [] {
      var init, last := rows[..|rows| - 1], rows[|rows| - 1];
      FilterKeepsNonDecreasing(init, key, keep);
      forall x | x in Filter(init, keep) ensures key(x) <= key(last) {
        var i :| 0 <= i < |init| && init[i] == x;
        assert rows[i] == x;
      }
    }
  }

  /** Deleting rows (`DELETE ... WHERE`) leaves a table with its ids and times in order. */
  lemma FilterKeepsTable<R(!new)>(rows: seq<R>, id: R -> int, at: R -> int, keep: R -> bool, next: int, clock: int)
    requires IdsOk(rows, id, next) && TimesOk(rows, at, clock)
    ensures IdsOk(Filter(rows, keep), id, next) && TimesOk(Filter(rows, keep), at, clock)
  {
    FilterKeepsAscending(rows, id, keep);
    FilterKeepsNonDecreasing(rows, at, keep);
    var f := Filter(rows, keep);
    forall k | 0 <= k < |f| ensures id(f[k]) < next && at(f[k]) <= clock {
      assert f[k] in rows;
    }
  }

  /** An INSERT appends a row with the next id, which keeps the ids ascending. */
  lemma AppendKeepsIds<R(!new)>(rows: seq<R>, id: R -> int, next: int, row: R)
    requires IdsOk(rows, id, next) && id(row) == next
    ensures IdsOk(rows + [row], id, next + 1)
  {
    var rows' := rows + [row];
    assert forall i :: 0 <= i < |rows| ==> rows'[i] == rows[i];
  }

  /** An INSERT stamps its row with the current time, which keeps the times in order. */
  lemma AppendKeepsTimes<R(!new)>(rows: seq<R>, at: R -> int, clock: int, row: R)
    requires TimesOk(rows, at, clock) && at(row) == clock
    ensures TimesOk(rows + [row], at, clock)
  {
    var rows' := rows + [row];
    assert forall i :: 0 <= i < |rows| ==> rows'[i] == rows[i];
  }

  class Db {
    var products: seq<ProductRow>
    var stores: seq<StoreRow>
    var cart: seq<CartRow>
    var orders: seq<OrderRow>
    var reviews: seq<ReviewRow>
    var comments: seq<CommentRow>

    var nextProductId: int
    var nextStoreId: int
    var nextCartId: int
    var nextOrderId: int
    var nextReviewId: int
    var nextCommentId: int

    /** The value CURRENT_TIMESTAMP gives now. */
    var clock: nat

    ghost var journal: seq<Write>

    /** Each table's rows are in id and time order, below its counter and the clock. */
    ghost predicate ProductsOk()
      reads this`products, this`nextProductId, this`clock
    {
      IdsOk(products, (p: ProductRow) => p.id, nextProductId)
      && TimesOk(products, (p: ProductRow) => p.createdAt, clock)
    }

    ghost predicate StoresOk()
      reads this`stores, this`nextStoreId
    {
      IdsOk(stores, (s: StoreRow) => s.id, nextStoreId)
    }

    ghost predicate CartOk()
      reads this`cart, this`nextCartId, this`clock
    {
      IdsOk(cart, (c: CartRow) => c.id, nextCartId) && TimesOk(cart, (c: CartRow) => c.createdAt, clock)
    }

    /** The orders table is also consistent with the journal, and every order is pending. */
    ghost predicate OrdersOk()
      reads this`orders, this`nextOrderId, this`clock, this`journal
    {
      && IdsOk(orders, (o: OrderRow) => o.id, nextOrderId)
      && TimesOk(orders, (o: OrderRow) => o.createdAt, clock)
      && JournalOk(journal, orders)
      && AllPending(orders)
    }

    ghost predicate ReviewsOk()
      reads this`reviews, this`nextReviewId, this`clock
    {
      IdsOk(reviews, (r: ReviewRow) => r.id, nextReviewId) && TimesOk(reviews, (r: ReviewRow) => r.createdAt, clock)
    }

    ghost predicate CommentsOk()
      reads this`comments, this`nextCommentId, this`clock
    {
      IdsOk(comments, (c: CommentRow) => c.id, nextCommentId)
      && TimesOk(comments, (c: CommentRow) => c.createdAt, clock)
    }

    ghost predicate Valid()
      reads this
    {
      ProductsOk() && StoresOk() && CartOk() && OrdersOk() && ReviewsOk() && CommentsOk()
    }

    /** A new, empty database file: every table exists and holds no rows. */
    constructor ()
      ensures Valid()
      ensures products == [] && stores == [] && cart == [] && orders == []
      ensures reviews == [] && comments == [] && journal == []
      ensures nextProductId == 1 && nextStoreId == 1 && nextCartId == 1
      ensures nextOrderId == 1 && nextReviewId == 1 && nextCommentId == 1
      ensures clock == 0
    {
      products, stores, cart, orders, reviews, comments := [], [], [], [], [], [];
      nextProductId, nextStoreId, nextCartId := 1, 1, 1;
      nextOrderId, nextReviewId, nextCommentId := 1, 1, 1;
      clock := 0;
      journal := [];
    }

    /** Time passes between requests; timestamps never go backwards. */
    method Tick(elapsed: nat)
      requires Valid()
      modifies this`clock
      ensures Valid()
      ensures clock == old(clock) + elapsed
    {
      clock := clock + elapsed;
    }
  }
}
