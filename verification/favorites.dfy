/** The favourites page: the catalog's products that are on the wishlist. */
module FavoritesPage {
  import opened Seqs
  import opened Api

  function Wished(ids: set<int>): Product -> bool
  {
    (p: Product) => p.id in ids
  }

  /** `products.filter((p) => wishlistIds.has(p.id))`: exactly the wished products, in
      catalog order. Each is drawn with its heart filled, since its id is on the list. */
  function Favorites(products: seq<Product>, ids: set<int>): (r: seq<Product>)
    ensures forall p :: p in r <==> p in products && p.id in ids
    ensures forall k :: 0 <= k < |r| ==> r[k].id in ids
  {
    Filter(products, Wished(ids))
  }

  lemma FavoritesInOrder(products: seq<Product>, ids: set<int>)
    ensures Subseq(Favorites(products, ids), products)
  {
    FilterIsSubseq(products, Wished(ids));
  }

  /** The ids of the catalog's products. */
  function CatalogIds(products: seq<Product>): (r: set<int>)
    ensures forall id :: id in r <==> exists k :: 0 <= k < |products| && products[k].id == id
  {
    set k | 0 <= k < |products| :: products[k].id
  }

  /** A wished id that names no product changes nothing: only the ids the catalog knows
      matter. */
  lemma UnknownIdsIgnored(products: seq<Product>, ids: set<int>)
    ensures Favorites(products, ids) == Favorites(products, ids * CatalogIds(products))
  {
    FilterAgree(products, Wished(ids), Wished(ids * CatalogIds(products)));
  }

  /** "В избранном пока пусто" is shown exactly when no product is wished. */
  predicate ShowsEmpty(products: seq<Product>, ids: set<int>)
  {
    |Favorites(products, ids)| == 0
  }

  lemma EmptyIffNothingWished(products: seq<Product>, ids: set<int>)
    ensures ShowsEmpty(products, ids) <==> ids * CatalogIds(products) == {}
  {
    var r := Favorites(products, ids);
    if r != [] {
      assert r[0] in r;
      assert r[0].id in ids * CatalogIds(products);
    }
    if ids * CatalogIds(products) != {} {
      var id :| id in ids * CatalogIds(products);
      var k :| 0 <= k < |products| && products[k].id == id;
      assert products[k] in r;
    }
  }
}
