/** GET /products and GET /products/:id: read-only queries of the products table. */
module ProductRoutes {
  import opened Common
  import opened Tables

  /** `SELECT * FROM products ORDER BY id`: the table in rowid order, which is id order. */
  function ListProducts(products: seq<ProductRow>): (r: seq<ProductRow>)
    requires Ascending(products, (p: ProductRow) => p.id)
    ensures multiset(r) == multiset(products)
    ensures forall i, j :: 0 <= i < j < |r| ==> r[i].id < r[j].id
  {
    products
  }

  /** `SELECT * FROM products WHERE id = ?`: the first row with that id, if any. */
  function FindProduct(products: seq<ProductRow>, id: int): (r: Option<ProductRow>)
    ensures r.Some? ==> r.value in products && r.value.id == id
    ensures r.None? <==> forall p :: p in products ==> p.id != id
    ensures r.Some? ==>
      exists i :: 0 <= i < |products| && products[i] == r.value && (forall j :: 0 <= j < i ==> products[j].id != id)
  {
    if products == [] then None
    else if products[0].id == id then Some(products[0])
    else FindProduct(products[1..], id)
  }

  /** GET /products/:id: the product, or 404 when no row has that id. */
  function GetProduct(products: seq<ProductRow>, id: int): (r: Option<ProductRow>)
    requires Ascending(products, (p: ProductRow) => p.id)
    ensures r.Some? <==> exists p :: p in products && p.id == id
    ensures r.Some? ==> r.value in products && r.value.id == id
    ensures r.Some? ==> forall p :: p in products && p.id == id ==> p == r.value
  {
    FindProduct(products, id)
  }
}
