/** Database initialisation: the tables are created if they do not exist (every table of
    the model always exists, so that step changes nothing), then five demo products are
    inserted, but only into an empty products table. */
module Schema {
  import opened Common
  import opened Tables

  /** Column defaults used by the handlers. */
  const DefaultQuantity: int := 1
  const DefaultRating: int := 5

  /** The columns a seed row supplies: name, description, price, image, category, sizes. */
  datatype SeedEntry = SeedEntry(
    name: string, description: string, price: int, imageUrl: string, category: string, sizes: string)

  function SeedData(): (r: seq<SeedEntry>)
    ensures |r| == 5
    ensures forall i :: 0 <= i < |r| ==> r[i].price > 0
  {
    [ SeedEntry("Essential Tee", "Базовая хлопковая футболка премиум качества", 2990,
        "https://images.unsplash.com/photo-1521572163474-6864f9cf17ab?w=400", "tee", "S,M,L,XL"),
      SeedEntry("Oversized Hoodie", "Оверсайз худи из мягкого флиса", 5990,
        "https://images.unsplash.com/photo-1556821840-3a63f95609a7?w=400", "hoodie", "S,M,L,XL"),
      SeedEntry("Cargo Pants", "Широкие карго с множеством карманов", 4990,
        "https://images.unsplash.com/photo-1624378439575-d8705ad7ae80?w=400", "pants", "S,M,L,XL"),
      SeedEntry("Minimal Jacket", "Минималистичная ветровка", 7990,
        "https://images.unsplash.com/photo-1591047139829-d91aecb6caea?w=400", "jacket", "S,M,L,XL"),
      SeedEntry("Black Cap", "Чёрная кепка с вышивкой ZΞN", 1990,
        "https://images.unsplash.com/photo-1588850561407-ed78c282e89b?w=400", "accessories", "One size") ]
  }

  /** The row the seed INSERT writes for one entry: no store, the given id and timestamp. */
  function SeedRow(e: SeedEntry, id: int, at: nat): ProductRow
  {
    ProductRow(id, None, e.name, Some(e.description), e.price, Some(e.imageUrl), e.category, Some(e.sizes), at)
  }

  /** The rows seeding writes for `entries`, with ids counting up from `firstId`. */
  function SeedRows(entries: seq<SeedEntry>, firstId: int, at: nat): (r: seq<ProductRow>)
    ensures |r| == |entries|
    ensures forall i :: 0 <= i < |r| ==> r[i].id == firstId + i && r[i].createdAt == at
    ensures forall i :: 0 <= i < |r| ==> r[i].price == entries[i].price && r[i].storeId.None?
  {
    seq(|entries|, i requires 0 <= i < |entries| => SeedRow(entries[i], firstId + i, at))
  }

  /** Seeded rows form a well-formed table: ids ascend below the next id, and every row
      carries the same timestamp. */
  lemma SeedRowsOk(entries: seq<SeedEntry>, first: int, at: nat)
    ensures IdsOk(SeedRows(entries, first, at), (p: ProductRow) => p.id, first + |entries|)
    ensures TimesOk(SeedRows(entries, first, at), (p: ProductRow) => p.createdAt, at)
  {
  }

  /** Startup. Seeds the demo products exactly when the products table is empty;
      otherwise, and for every other table, nothing changes. */
  method Initialise(db: Db)
    requires db.Valid()
    modifies db`products, db`nextProductId
    ensures db.Valid()
    ensures old(db.products) == [] ==>
      db.products == SeedRows(SeedData(), old(db.nextProductId), db.clock) && db.nextProductId == old(db.nextProductId) + 5
    ensures old(db.products) != [] ==> unchanged(db)
  {
    if |db.products| == 0 {
      Seed(db, SeedData());
    }
  }

  /** The seed INSERTs, one row per entry, into the empty products table. */
  method Seed(db: Db, entries: seq<SeedEntry>)
    requires db.Valid() && db.products == []
    modifies db`products, db`nextProductId
    ensures db.Valid()
    ensures db.products == SeedRows(entries, old(db.nextProductId), db.clock)
    ensures db.nextProductId == old(db.nextProductId) + |entries|
  {
    ghost var first := db.nextProductId;
    for i := 0 to |entries|
      invariant db.products == SeedRows(entries, first, db.clock)[..i]
      invariant db.nextProductId == first + i
    {
      db.products := db.products + [SeedRow(entries[i], db.nextProductId, db.clock)];
      db.nextProductId := db.nextProductId + 1;
    }
    assert SeedRows(entries, first, db.clock)[..|entries|] == SeedRows(entries, first, db.clock);
    SeedRowsOk(entries, first, db.clock);
  }
}
