/** The store routes: the public listings, and the create, partial update and delete of a
    store behind the shared-secret gate. The stores table and the products' optional
    `store_id` column are those the routes and the client interface use. */
module StoreRoutes {
  import opened Common
  import opened Text
  import opened Seqs
  import opened Tables
  import opened AdminRoutes

  /** GET /stores, `ORDER BY id`. */
  function ListStores(stores: seq<StoreRow>): (r: seq<StoreRow>)
    requires Ascending(stores, (s: StoreRow) => s.id)
    ensures multiset(r) == multiset(stores)
    ensures forall i, j :: 0 <= i < j < |r| ==> r[i].id < r[j].id
  {
    stores
  }

  /** The products `WHERE store_id = ?` selects; a product without a store matches no id. */
  function InStore(id: int): ProductRow -> bool
  {
    (p: ProductRow) => p.storeId == Some(id)
  }

  /** GET /stores/:id/products, `ORDER BY id`: exactly the store's products, ascending. */
  function StoreProducts(products: seq<ProductRow>, id: int): (r: seq<ProductRow>)
    requires Ascending(products, (p: ProductRow) => p.id)
    ensures forall p :: p in r <==> p in products && p.storeId == Some(id)
    ensures forall i, j :: 0 <= i < j < |r| ==> r[i].id < r[j].id
  {
    FilterKeepsAscending(products, (p: ProductRow) => p.id, InStore(id));
    Filter(products, InStore(id))
  }

  /** `v?.trim() || null`: absent stays absent, and a value that trims to "" becomes null. */
  function TrimOrNull(v: Option<string>): (r: Option<string>)
    ensures r.None? <==> v.None? || IsBlank(v.value)
    ensures r.Some? ==> r.value == Trim(v.value) && r.value != ""
  {
    match v
    case None => None
    case Some(s) => TrimmedOrNone(s)
  }

  /** The body of POST /stores; `name` keeps its JSON form because its type is checked. */
  datatype StoreBody = StoreBody(name: JsValue, imageUrl: Option<string>, description: Option<string>)

  /** `!name || typeof name !== "string"` rejects; so exactly a non-empty string passes.
      A name of white space only passes and is stored as "". */
  predicate NameAccepted(name: JsValue)
  {
    name.Str? && name.s != ""
  }

  lemma NameGuard(name: JsValue)
    ensures NameAccepted(name) <==> Truthy(name) && name.Str?
  {
  }

  /** The row the INSERT of POST /stores writes: the trimmed name, and the trimmed image and
      description, null when absent or blank. */
  function NewStore(id: int, body: StoreBody): StoreRow
    requires body.name.Str?
  {
    StoreRow(id, Trim(body.name.s), TrimOrNull(body.imageUrl), TrimOrNull(body.description))
  }

  /** POST /stores: 401 at the gate, 400 without a string name, otherwise one new store
      with the trimmed name, its id returned. */
  method CreateStore(db: Db, adminSecret: string, header: Option<string>, body: StoreBody) returns (reply: Reply)
    requires db.Valid()
    modifies db`stores, db`nextStoreId
    ensures db.Valid()
    ensures !Authorized(adminSecret, header) ==> reply == Unauthorized && unchanged(db)
    ensures Authorized(adminSecret, header) && !NameAccepted(body.name) ==> reply == BadRequest && unchanged(db)
    ensures Authorized(adminSecret, header) && NameAccepted(body.name) ==>
      && reply == CreatedId(old(db.nextStoreId))
      && db.stores == old(db.stores) + [NewStore(old(db.nextStoreId), body)]
      && db.nextStoreId == old(db.nextStoreId) + 1
  {
    if adminSecret != "" && header != Some(adminSecret) {
      return Unauthorized;
    }
    if !NameAccepted(body.name) {
      return BadRequest;
    }
    var id := db.nextStoreId;
    var row := NewStore(id, body);
    AppendKeepsIds(db.stores, (s: StoreRow) => s.id, id, row);
    db.stores, db.nextStoreId := db.stores + [row], id + 1;
    reply := CreatedId(id);
  }

  /** The body of PATCH /stores/:id; a field is `None` when it is null or absent. */
  datatype StorePatch = StorePatch(name: Option<string>, imageUrl: Option<string>, description: Option<string>)

  predicate NoFields(patch: StorePatch)
  {
    patch.name.None? && patch.imageUrl.None? && patch.description.None?
  }

  /** One `column = ?` clause of the UPDATE with its bound value. */
  datatype Assignment = SetName(name: string) | SetImageUrl(imageUrl: Option<string>) | SetDescription(description: Option<string>)

  /** One clause applied to a row. */
  function Step(s: StoreRow, a: Assignment): StoreRow
  {
    match a
    case SetName(n) => s.(name := n)
    case SetImageUrl(u) => s.(imageUrl := u)
    case SetDescription(d) => s.(description := d)
  }

  /** The UPDATE's SET list applied to a row, clause by clause; the id is never assigned. */
  function Apply(s: StoreRow, updates: seq<Assignment>): (r: StoreRow)
    ensures r.id == s.id
  {
    if updates == [] then s else Step(Apply(s, updates[..|updates| - 1]), updates[|updates| - 1])
  }

  lemma {:induction false} ApplyConcat(s: StoreRow, u: seq<Assignment>, v: seq<Assignment>)
    ensures Apply(s, u + v) == Apply(Apply(s, u), v)
    decreases |v|
  {
    if v == [] {
      assert u + v == u;
    } else {
      assert (u + v)[..|u + v| - 1] == u + v[..|v| - 1];
      ApplyConcat(s, u, v[..|v| - 1]);
    }
  }

  /** The row the PATCH promises: each supplied field replaced by its trimmed value (an
      image or description that trims to "" becomes null), every other column kept. */
  function Patched(s: StoreRow, patch: StorePatch): (r: StoreRow)
    ensures r.id == s.id
    ensures patch.name.None? ==> r.name == s.name
    ensures patch.imageUrl.None? ==> r.imageUrl == s.imageUrl
    ensures patch.description.None? ==> r.description == s.description
  {
    StoreRow(s.id,
             if patch.name.Some? then Trim(patch.name.value) else s.name,
             if patch.imageUrl.Some? then TrimOrNull(patch.imageUrl) else s.imageUrl,
             if patch.description.Some? then TrimOrNull(patch.description) else s.description)
  }

  /** The values the handler binds for the supplied fields: the trimmed name, and the
      image and description through `TrimOrNull`; `None` for a field not supplied. */
  datatype Bound = Bound(name: Option<string>, imageUrl: Option<Option<string>>, description: Option<Option<string>>)

  function BoundValues(patch: StorePatch): Bound
  {
    Bound(if patch.name.Some? then Some(Trim(patch.name.value)) else None,
          if patch.imageUrl.Some? then Some(TrimOrNull(patch.imageUrl)) else None,
          if patch.description.Some? then Some(TrimOrNull(patch.description)) else None)
  }

  /** The clause for each field: one when the field is supplied, none otherwise. */
  function NameClause(v: Bound): seq<Assignment>
  {
    if v.name.Some? then [SetName(v.name.value)] else []
  }

  function ImageClause(v: Bound): seq<Assignment>
  {
    if v.imageUrl.Some? then [SetImageUrl(v.imageUrl.value)] else []
  }

  function DescriptionClause(v: Bound): seq<Assignment>
  {
    if v.description.Some? then [SetDescription(v.description.value)] else []
  }

  /** The clause list the handler builds, in the order name, image, description. */
  function Clauses(v: Bound): seq<Assignment>
  {
    NameClause(v) + ImageClause(v) + DescriptionClause(v)
  }

  lemma ClausesEmpty(patch: StorePatch)
    ensures Clauses(BoundValues(patch)) == [] <==> NoFields(patch)
    ensures |Clauses(BoundValues(patch))| <= 3
  {
  }

  /** Applying a clause list of at most one clause. */
  lemma ApplyOne(s: StoreRow, u: seq<Assignment>)
    requires |u| <= 1
    ensures Apply(s, u) == if u == [] then s else Step(s, u[0])
  {
    if u != [] {
      assert u[..0] == [];
    }
  }

  /** The clauses the handler builds turn a row into the row the PATCH promises. */
  lemma ClausesPatch(s: StoreRow, patch: StorePatch)
    ensures Apply(s, Clauses(BoundValues(patch))) == Patched(s, patch)
  {
    var v := BoundValues(patch);
    var a, b, c := NameClause(v), ImageClause(v), DescriptionClause(v);
    ApplyConcat(s, a + b, c);
    ApplyConcat(s, a, b);
    ApplyOne(s, a);
    ApplyOne(Apply(s, a), b);
    ApplyOne(Apply(s, a + b), c);
  }

  /** The handler's pushes onto `updates`: one clause per supplied field. */
  method CollectUpdates(patch: StorePatch) returns (updates: seq<Assignment>)
    ensures updates == [] <==> NoFields(patch)
    ensures |updates| <= 3
    ensures forall s :: Apply(s, updates) == Patched(s, patch)
  {
    var v := BoundValues(patch);
    updates := [];
    if patch.name.Some? {
      updates := updates + [SetName(v.name.value)];
    }
    assert updates == NameClause(v);
    if patch.imageUrl.Some? {
      updates := updates + [SetImageUrl(v.imageUrl.value)];
    }
    assert updates == NameClause(v) + ImageClause(v);
    if patch.description.Some? {
      updates := updates + [SetDescription(v.description.value)];
    }
    assert updates == Clauses(v);
    ClausesEmpty(patch);
    forall s ensures Apply(s, updates) == Patched(s, patch) {
      ClausesPatch(s, patch);
    }
  }

  predicate HasStore(stores: seq<StoreRow>, id: int)
  {
    exists s :: s in stores && s.id == id
  }

  /** The stores table after `UPDATE stores SET ... WHERE id = ?`. */
  function UpdateRows(stores: seq<StoreRow>, id: int, updates: seq<Assignment>): (r: seq<StoreRow>)
    ensures |r| == |stores|
    ensures forall k :: 0 <= k < |r| ==> r[k].id == stores[k].id
  {
    seq(|stores|, k requires 0 <= k < |stores| => if stores[k].id == id then Apply(stores[k], updates) else stores[k])
  }

  /** PATCH /stores/:id: 401 at the gate, then 404 for an unknown store, then 400 when no
      field is supplied; otherwise the store's row becomes `Patched` and no other row
      changes. */
  method UpdateStore(db: Db, adminSecret: string, header: Option<string>, id: int, patch: StorePatch) returns (reply: Reply)
    requires db.Valid()
    modifies db`stores
    ensures db.Valid()
    ensures !Authorized(adminSecret, header) ==> reply == Unauthorized && unchanged(db)
    ensures Authorized(adminSecret, header) && !HasStore(old(db.stores), id) ==> reply == NotFound && unchanged(db)
    ensures Authorized(adminSecret, header) && HasStore(old(db.stores), id) && NoFields(patch) ==>
      reply == BadRequest && unchanged(db)
    ensures Authorized(adminSecret, header) && HasStore(old(db.stores), id) && !NoFields(patch) ==>
      && reply == Ok
      && |db.stores| == |old(db.stores)|
      && forall k :: 0 <= k < |db.stores| ==>
           db.stores[k] == (if old(db.stores)[k].id == id then Patched(old(db.stores)[k], patch) else old(db.stores)[k])
  {
    if adminSecret != "" && header != Some(adminSecret) {
      return Unauthorized;
    }
    if !HasStore(db.stores, id) {
      return NotFound;
    }
    var updates := CollectUpdates(patch);
    if |updates| == 0 {
      return BadRequest;
    }
    db.stores := UpdateRows(db.stores, id, updates);
    reply := Ok;
  }

  /** `SELECT id FROM stores WHERE id != ? ORDER BY id LIMIT 1`, read along the table. */
  function FirstOtherStore(stores: seq<StoreRow>, id: int): (r: Option<int>)
    ensures r.None? <==> forall s :: s in stores ==> s.id == id
    ensures r.Some? ==> r.value != id
    ensures r.Some? ==>
      exists i :: 0 <= i < |stores| && stores[i].id == r.value && (forall j :: 0 <= j < i ==> stores[j].id == id)
  {
    if stores == [] then None
    else if stores[0].id != id then Some(stores[0].id)
    else
      var r := FirstOtherStore(stores[1..], id);
      assert forall s :: s in stores ==> s == stores[0] || s in stores[1..];
      if r.Some? then
        var i :| 0 <= i < |stores[1..]| && stores[1..][i].id == r.value && (forall j :: 0 <= j < i ==> stores[1..][j].id == id);
        assert stores[i + 1].id == r.value;
        assert forall j :: 0 <= j < i + 1 ==> stores[j].id == id by {
          forall j | 0 < j < i + 1 ensures stores[j].id == id {
            assert stores[j] == stores[1..][j - 1];
          }
        }
        r
      else r
  }

  /** The store a deleted store's products move to: the lowest id of another store, or 1
      when there is no other store (`firstStore?.id ?? 1`). */
  function Fallback(stores: seq<StoreRow>, id: int): (r: int)
    requires Ascending(stores, (s: StoreRow) => s.id)
    ensures (exists s :: s in stores && s.id != id) ==>
      && r != id && HasStore(stores, r)
      && forall s :: s in stores && s.id != id ==> r <= s.id
    ensures (forall s :: s in stores ==> s.id == id) ==> r == 1
  {
    var first := FirstOtherStore(stores, id);
    if first.Some? then
      var i :| 0 <= i < |stores| && stores[i].id == first.value && (forall j :: 0 <= j < i ==> stores[j].id == id);
      assert stores[i] in stores;
      assert forall s :: s in stores && s.id != id ==> first.value <= s.id by {
        forall s | s in stores && s.id != id ensures first.value <= s.id {
          var j :| 0 <= j < |stores| && stores[j] == s;
          assert i <= j;
        }
      }
      first.value
    else 1
  }

  /** `UPDATE products SET store_id = ? WHERE store_id = ?`: products of store `from` move
      to store `to`; the table keeps every row, in place. */
  function Reassign(products: seq<ProductRow>, from: int, to: int): (r: seq<ProductRow>)
    ensures |r| == |products|
    ensures forall k :: 0 <= k < |r| ==> r[k] == products[k].(storeId := r[k].storeId)
    ensures forall k :: 0 <= k < |r| ==> products[k].storeId == Some(from) ==> r[k].storeId == Some(to)
    ensures forall k :: 0 <= k < |r| ==> products[k].storeId != Some(from) ==> r[k].storeId == products[k].storeId
  {
    seq(|products|, k requires 0 <= k < |products| =>
      if products[k].storeId == Some(from) then products[k].(storeId := Some(to)) else products[k])
  }

  /** The rows `DELETE FROM stores WHERE id = ?` keeps. */
  function NotStore(id: int): StoreRow -> bool
  {
    (s: StoreRow) => s.id != id
  }

  /** DELETE /stores/:id: 401 at the gate. Otherwise the store's products are moved to the
      fallback store first, then the store row is deleted; the reply is 404 when there was
      no such store, by which time the move has already happened. */
  method DeleteStore(db: Db, adminSecret: string, header: Option<string>, id: int) returns (reply: Reply)
    requires db.Valid()
    modifies db`products, db`stores
    ensures db.Valid()
    ensures !Authorized(adminSecret, header) ==> reply == Unauthorized && unchanged(db)
    ensures Authorized(adminSecret, header) ==>
      && db.products == Reassign(old(db.products), id, Fallback(old(db.stores), id))
      && db.stores == Filter(old(db.stores), NotStore(id))
      && reply == (if HasStore(old(db.stores), id) then Ok else NotFound)
  {
    if adminSecret != "" && header != Some(adminSecret) {
      return Unauthorized;
    }
    MoveProducts(db, id, Fallback(db.stores, id));
    var found := HasStore(db.stores, id);
    RemoveStoreRow(db, id);
    reply := if found then Ok else NotFound;
  }

  /** The move of the products (the first statement of the delete). */
  method MoveProducts(db: Db, from: int, to: int)
    requires db.Valid()
    modifies db`products
    ensures db.Valid()
    ensures db.products == Reassign(old(db.products), from, to)
  {
    var r := Reassign(db.products, from, to);
    assert forall k :: 0 <= k < |r| ==> r[k].id == db.products[k].id && r[k].createdAt == db.products[k].createdAt;
    db.products := r;
  }

  /** The delete of the store row (the second statement). */
  method RemoveStoreRow(db: Db, id: int)
    requires db.Valid()
    modifies db`stores
    ensures db.Valid()
    ensures db.stores == Filter(old(db.stores), NotStore(id))
  {
    FilterKeepsAscending(db.stores, (s: StoreRow) => s.id, NotStore(id));
    var r := Filter(db.stores, NotStore(id));
    assert forall k :: 0 <= k < |r| ==> r[k] in db.stores;
    db.stores := r;
  }

  /** Deleting a store removes no product: the same ids remain, in the same places. */
  lemma DeleteKeepsProducts(products: seq<ProductRow>, stores: seq<StoreRow>, id: int)
    requires Ascending(stores, (s: StoreRow) => s.id)
    ensures var r := Reassign(products, id, Fallback(stores, id));
      |r| == |products| && forall k :: 0 <= k < |r| ==> r[k].id == products[k].id && r[k].name == products[k].name
  {
  }

  /** When another store exists, a delete keeps every product's store reference pointing at
      a store that is still there, provided all references were valid before. */
  lemma DeleteKeepsReferences(products: seq<ProductRow>, stores: seq<StoreRow>, id: int)
    requires Ascending(stores, (s: StoreRow) => s.id)
    requires forall p :: p in products && p.storeId.Some? ==> HasStore(stores, p.storeId.value)
    requires exists s :: s in stores && s.id != id
    ensures forall p :: p in Reassign(products, id, Fallback(stores, id)) && p.storeId.Some? ==>
      HasStore(Filter(stores, NotStore(id)), p.storeId.value)
  {
    var to := Fallback(stores, id);
    var r := Reassign(products, id, to);
    var kept := Filter(stores, NotStore(id));
    forall p | p in r && p.storeId.Some? ensures HasStore(kept, p.storeId.value) {
      var k :| 0 <= k < |r| && r[k] == p;
      if products[k].storeId == Some(id) {
        var s :| s in stores && s.id == to;
        assert s in kept;
      } else {
        assert products[k] in products;
        var s :| s in stores && s.id == p.storeId.value;
        assert s in kept;
      }
    }
  }

  /** Deleting the only store leaves its products pointing at store 1, which no longer
      exists when the deleted store was store 1 itself. */
  lemma DeleteOnlyStoreDangles(products: seq<ProductRow>, s: StoreRow)
    requires s.id == 1
    requires exists p :: p in products && p.storeId == Some(1)
    ensures exists p :: p in Reassign(products, 1, Fallback([s], 1)) && p.storeId == Some(1)
    ensures !HasStore(Filter([s], NotStore(1)), 1)
  {
    var p :| p in products && p.storeId == Some(1);
    var k :| 0 <= k < |products| && products[k] == p;
    assert Reassign(products, 1, Fallback([s], 1))[k].storeId == Some(1);
  }
}
