/** The catalog of one store or one category, narrowed by the search box. */
module StoreCatalog {
  import opened Text
  import opened Seqs
  import opened Api
  import opened Categories

  /** What the catalog was opened for: a store (by id) or a category. */
  datatype Selection = ByStore(id: int, name: string) | ByCategory(category: string, name: string)

  /** The first filter: a store keeps the products filed under it (store 1 for a product
      without a store); a category keeps the products of exactly that category. */
  function Selects(sel: Selection): Product -> bool
  {
    (p: Product) => match sel
      case ByStore(id, _) => StoreOf(p) == id
      case ByCategory(category, _) => p.category == category
  }

  /** `search.trim().toLowerCase()`. */
  function Query(search: string): string
  {
    ToLower(Trim(search))
  }

  /** The search filter: the lowercased name, or a non-empty lowercased description,
      contains the query. */
  function Matches(q: string): Product -> bool
  {
    (p: Product) => Contains(ToLower(p.name), q) || (p.description != "" && Contains(ToLower(p.description), q))
  }

  /** The `filtered` list: the selection's products, then, unless the search is blank,
      those that match it; in catalog order. */
  function Filtered(products: seq<Product>, sel: Selection, search: string): (r: seq<Product>)
    ensures IsBlank(search) ==> r == Filter(products, Selects(sel))
    ensures forall p :: p in r <==>
      p in products && Selects(sel)(p) && (IsBlank(search) || Matches(Query(search))(p))
  {
    TrimEmptyIffBlank(search);
    var list := Filter(products, Selects(sel));
    if Trim(search) != "" then Filter(list, Matches(Query(search))) else list
  }

  /** The list keeps the catalog's order: it is a subsequence of `products`. */
  lemma FilteredInOrder(products: seq<Product>, sel: Selection, search: string)
    ensures Subseq(Filtered(products, sel, search), products)
  {
    var list := Filter(products, Selects(sel));
    FilterIsSubseq(products, Selects(sel));
    if !IsBlank(search) {
      TrimEmptyIffBlank(search);
      FilterIsSubseq(list, Matches(Query(search)));
      SubseqTrans(Filtered(products, sel, search), list, products);
    }
  }

  /** A search only narrows: the list with a query is a subsequence of the list without
      one. */
  lemma SearchNarrows(products: seq<Product>, sel: Selection, search: string)
    ensures Subseq(Filtered(products, sel, search), Filtered(products, sel, ""))
  {
    var list := Filter(products, Selects(sel));
    assert IsBlank("");
    if IsBlank(search) {
      SubseqRefl(list);
    } else {
      TrimEmptyIffBlank(search);
      FilterIsSubseq(list, Matches(Query(search)));
    }
  }

  /** "Ничего не найдено" is shown exactly when the list is empty. */
  predicate ShowsNothingFound(products: seq<Product>, sel: Selection, search: string)
  {
    |Filtered(products, sel, search)| == 0
  }

  /** The back button names the store, or the category by its label. */
  function BackLabel(sel: Selection): (r: string)
    ensures sel.ByStore? ==> r == sel.name
    ensures sel.ByCategory? ==> r == Label(sel.category)
  {
    match sel
    case ByStore(_, name) => name
    case ByCategory(category, _) => Label(category)
  }
}
