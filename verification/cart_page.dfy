/** The cart page: the running total, what the page shows, and the refresh and remove
    actions. A request to the backend is represented by its outcome, given as a parameter. */
module CartPage {
  import opened Common
  import opened Api

  /** `items.reduce((sum, i) => sum + i.price * i.quantity, 0)`. */
  function Total(items: seq<CartItem>): (t: int)
    ensures items == [] ==> t == 0
  {
    if items == [] then 0
    else Total(items[..|items| - 1]) + items[|items| - 1].price * items[|items| - 1].quantity
  }

  /** The total of two lists read one after the other is the sum of their totals. */
  lemma {:induction false} TotalAppend(a: seq<CartItem>, b: seq<CartItem>)
    ensures Total(a + b) == Total(a) + Total(b)
    decreases |b|
  {
    if b == [] {
      assert a + b == a;
    } else {
      assert (a + b)[..|a + b| - 1] == a + b[..|b| - 1];
      TotalAppend(a, b[..|b| - 1]);
    }
  }

  /** A single line contributes its price times its quantity. */
  lemma {:induction false} TotalOfLine(item: CartItem)
    ensures Total([item]) == item.price * item.quantity
  {
    assert [item][..0] == [];
  }

  /** With no negative price or quantity the total is not negative either. */
  lemma {:induction false} TotalNonNegative(items: seq<CartItem>)
    requires forall k :: 0 <= k < |items| ==> items[k].price >= 0 && items[k].quantity >= 0
    ensures Total(items) >= 0
  {
    if items != [] {
      TotalNonNegative(items[..|items| - 1]);
    }
  }

  /** What the page renders. */
  datatype Screen = Loading | EmptyCart | Filled(items: seq<CartItem>, total: int)

  /** Only the filled cart offers the checkout button. */
  predicate OffersCheckout(s: Screen)
  {
    s.Filled?
  }

  function View(loading: bool, items: seq<CartItem>): (s: Screen)
    ensures loading ==> s == Loading
    ensures !loading && items == [] ==> s == EmptyCart && !OffersCheckout(s)
    ensures !loading && items != [] ==> OffersCheckout(s) && s.items == items && s.total == Total(items)
  {
    if loading then Loading
    else if |items| == 0 then EmptyCart
    else Filled(items, Total(items))
  }

  /** The page's state. */
  class CartScreen {
    var userId: string
    var items: seq<CartItem>
    var loading: bool

    /** A freshly mounted page: no items yet, loading. */
    constructor (userId: string)
      ensures this.userId == userId && items == [] && loading
    {
      this.userId := userId;
      items := [];
      loading := true;
    }

    /** `refresh`: reload the cart. `fetched` is the listing, `None` when the request fails;
        the page stops loading either way and reports a change only on success. */
    method Refresh(fetched: Option<seq<CartItem>>) returns (notified: bool)
      modifies this`items, this`loading
      ensures !loading
      ensures items == (if fetched.Some? then fetched.value else old(items))
      ensures notified <==> fetched.Some?
    {
      loading := true;
      if fetched.Some? {
        items := fetched.value;
      }
      loading := false;
      notified := fetched.Some?;
    }

    /** `remove(id)`: ask the backend to delete the line, then reload only if the delete
        succeeded. */
    method Remove(id: int, deleted: bool, fetched: Option<seq<CartItem>>) returns (deleteSentFor: int, reloaded: bool)
      modifies this`items, this`loading
      ensures deleteSentFor == id
      ensures reloaded <==> deleted
      ensures !deleted ==> items == old(items) && loading == old(loading)
      ensures deleted ==> !loading && items == (if fetched.Some? then fetched.value else old(items))
    {
      deleteSentFor := id;
      reloaded := false;
      if deleted {
        var _ := Refresh(fetched);
        reloaded := true;
      }
    }
  }
}
