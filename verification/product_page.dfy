/** The product page: which product it shows, the size buttons and their default, and
    the "add to cart" action. The catalog request and the cart request are represented
    by their outcomes, given as parameters. */
module ProductPage {
  import opened Common
  import opened Text
  import opened Tables
  import opened Schema
  import opened Api
  import opened CartRoutes

  /** No product before index `k` has the id. */
  predicate FirstWithId(list: seq<Product>, productId: int, k: int)
  {
    forall j :: 0 <= j < k && j < |list| ==> list[j].id != productId
  }

  /** `list.find((x) => x.id === productId) ?? null`. */
  function SelectProduct(list: seq<Product>, productId: int): (r: Option<Product>)
    ensures r.None? <==> forall k :: 0 <= k < |list| ==> list[k].id != productId
    ensures r.Some? ==> r.value.id == productId && exists k :: 0 <= k < |list| && list[k] == r.value && FirstWithId(list, productId, k)
  {
    if list == [] then None
    else if list[0].id == productId then
      assert FirstWithId(list, productId, 0);
      Some(list[0])
    else
      var r := SelectProduct(list[1..], productId);
      if r.Some? then
        var k :| 0 <= k < |list[1..]| && list[1..][k] == r.value && FirstWithId(list[1..], productId, k);
        assert list[k + 1] == r.value;
        assert FirstWithId(list, productId, k + 1) by {
          forall j | 0 <= j < k + 1 ensures list[j].id != productId {
            if j > 0 {
              assert list[j] == list[1..][j - 1];
            }
          }
        }
        r
      else
        assert forall k :: 1 <= k < |list| ==> list[k] == list[1..][k - 1];
        None
  }

  /** `sizes.split(",").map((s) => s.trim())`: one button per comma-separated segment, in
      order. */
  function SizeOptions(sizes: string): (r: seq<string>)
    ensures |r| == |Split(sizes, ',')| && |r| >= 1
    ensures forall k :: 0 <= k < |r| ==> r[k] == Trim(Split(sizes, ',')[k])
  {
    var parts := Split(sizes, ',');
    seq(|parts|, k requires 0 <= k < |parts| => Trim(parts[k]))
  }

  /** `sizes.split(",")[0]?.trim() || ""`: the first segment, trimmed. */
  function DefaultSize(sizes: string): (r: string)
    ensures r == SizeOptions(sizes)[0]
    ensures ',' !in r && Trim(r) == r
  {
    var parts := Split(sizes, ',');
    var first := parts[0];
    assert ',' !in first;
    TrimIdempotent(first);
    TrimAddsNothing(first, ',');
    assert SizeOptions(sizes)[0] == Trim(first);
    Trim(first)
  }

  /** The request the page sends: the product, the chosen size and the client's default
      quantity of 1. */
  function AddRequest(product: Product, size: string): (b: AddBody)
    ensures b.productId == product.id && b.size == size && b.quantity == Some(DefaultQuantity)
  {
    AddBody(product.id, size, Some(1))
  }

  /** The page's state. */
  class ProductScreen {
    const productId: int
    var product: Option<Product>
    var size: string
    var loading: bool
    var adding: bool

    constructor (productId: int)
      ensures this.productId == productId && product.None? && size == "" && loading && !adding
    {
      this.productId := productId;
      product := None;
      size := "";
      loading := true;
      adding := false;
    }

    /** The loading text is shown while loading and whenever no product was found. */
    predicate ShowsLoading()
      reads this
    {
      loading || product.None?
    }

    /** The catalog arrived: pick the product and, when there is one, its default size. */
    method Loaded(list: seq<Product>)
      modifies this`product, this`size, this`loading
      ensures product == SelectProduct(list, productId) && !loading
      ensures product.Some? ==> size == DefaultSize(product.value.sizes)
      ensures product.None? ==> size == old(size) && ShowsLoading()
    {
      var found := SelectProduct(list, productId);
      if found.Some? {
        size := DefaultSize(found.value.sizes);
      }
      product, loading := found, false;
    }

    /** A click on one of the size buttons. */
    method ChooseSize(s: string)
      requires product.Some? && s in SizeOptions(product.value.sizes)
      modifies this`size
      ensures size == s
    {
      size := s;
    }

    /** `handleAdd`: nothing without a product or a size; otherwise one add request, with
        `adding` set while it runs and cleared after, and the cart opened only when it
        succeeded. */
    method HandleAdd(succeeds: bool) returns (sent: Option<AddBody>, cartOpened: bool)
      modifies this`adding
      ensures sent.None? <==> product.None? || size == ""
      ensures sent.Some? ==> sent.value == AddRequest(product.value, size)
      ensures cartOpened <==> sent.Some? && succeeds
      ensures sent.None? ==> adding == old(adding)
      ensures sent.Some? ==> !adding
    {
      if product.None? || size == "" {
        return None, false;
      }
      adding := true;
      sent := Some(AddRequest(product.value, size));
      cartOpened := succeeds;
      adding := false;
    }
  }

  /** The backend accepts what the page sends exactly when the product id is not 0, and
      stores the line with quantity 1. */
  lemma AddFromPageAccepted(product: Product, size: string, id: int, userId: string, at: nat)
    requires size != ""
    ensures AddAccepted(AddRequest(product, size)) <==> product.id != 0
    ensures NewCartRow(id, userId, AddRequest(product, size), at).quantity == 1
    ensures NewCartRow(id, userId, AddRequest(product, size), at).size == size
  {
  }
}
