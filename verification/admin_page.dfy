/** The admin page: the product form (fill for editing, reset, submit), the stores tab's
    split of the catalog around the edited store, the per-store counts, and the store
    forms. Each request is represented by its outcome (and, on failure, its error text),
    given as parameters. */
module AdminPage {
  import opened Common
  import opened Text
  import opened Seqs
  import opened Tables
  import opened Api
  import opened StoreRoutes

  const DefaultCategory: string := "tee"
  const DefaultSizes: string := "S,M,L,XL"
  const DefaultStore: int := 1

  const MissingFields: string := "Укажите название и цену"
  const ProductUpdated: string := "Товар обновлён"
  const ProductAdded: string := "Товар добавлен"
  const StoreUpdated: string := "Магазин обновлён"
  const StoreCreated: string := "Магазин создан"
  const ErrorPrefix: string := "Ошибка: "

  /** `String(n)` for an integer. */
  function ShowInt(n: int): (s: string)
    ensures n >= 0 ==> s == ShowNat(n)
  {
    if n < 0 then "-" + ShowNat(-n) else ShowNat(n)
  }

  /** `Number(price.replace(/\s/g, "")) || 0`: the input without white space read as a
      number, 0 when it is not one. */
  function NormalisePrice(input: string): (n: int)
    ensures n >= 0
    ensures NumberOf(RemoveSpaces(input)).None? ==> n == 0
    ensures NumberOf(RemoveSpaces(input)).Some? ==> n == NumberOf(RemoveSpaces(input)).value
  {
    match NumberOf(RemoveSpaces(input))
    case Some(v) => v
    case None => 0
  }

  /** The price a product is edited with is read back as the same price. */
  lemma PriceRoundTrip(price: nat)
    ensures NormalisePrice(ShowInt(price)) == price
  {
    var s := ShowNat(price);
    RemoveSpacesNoSpace(s);
    TrimNoSpace(s);
    ShowNatRoundTrip(price);
    assert !IsBlank(s) by {
      assert !IsSpace(s[0]);
    }
  }

  /** The body of the create and update product requests. */
  datatype ProductData = ProductData(
    storeId: int, name: string, description: Option<string>, price: int,
    imageUrl: Option<string>, category: string, sizes: Option<string>)

  datatype ProductRequest = CreateProduct(data: ProductData) | UpdateProduct(id: int, data: ProductData)

  /** `editingId` is truthy: set, and not 0. */
  predicate Selected(id: Option<int>)
  {
    id.Some? && id.value != 0
  }

  /** The product form of the products tab, with the shared `editingId`, `message` and
      `submitting` of the page. */
  class ProductsForm {
    var editingId: Option<int>
    var name: string
    var description: string
    var price: string
    var imageUrl: string
    var category: string
    var storeId: int
    var sizes: string
    var message: string
    var submitting: bool

    /** The form as `cancelEdit` leaves it. */
    predicate Cleared()
      reads this
    {
      && editingId.None? && name == "" && description == "" && price == "" && imageUrl == ""
      && storeId == DefaultStore && category == DefaultCategory && sizes == DefaultSizes
    }

    constructor ()
      ensures Cleared() && message == "" && !submitting
    {
      editingId := None;
      name, description, price, imageUrl := "", "", "", "";
      storeId, category, sizes := DefaultStore, DefaultCategory, DefaultSizes;
      message, submitting := "", false;
    }

    /** `startEdit(p)`: the form holds the product, with store 1, "tee" and "S,M,L,XL"
        standing in for a missing store, category and sizes. */
    method StartEdit(p: Product)
      modifies this`editingId, this`name, this`description, this`price, this`imageUrl,
        this`storeId, this`category, this`sizes
      ensures editingId == Some(p.id) && name == p.name && description == p.description
      ensures price == ShowInt(p.price)
      ensures imageUrl == (if p.imageUrl.Some? then p.imageUrl.value else "")
      ensures storeId == StoreOf(p)
      ensures category == (if p.category == "" then DefaultCategory else p.category)
      ensures sizes == (if p.sizes == "" then DefaultSizes else p.sizes)
    {
      editingId := Some(p.id);
      name := p.name;
      description := p.description;
      price := ShowInt(p.price);
      imageUrl := match p.imageUrl case Some(u) => u case None => "";
      storeId := StoreOf(p);
      category := if p.category == "" then DefaultCategory else p.category;
      sizes := if p.sizes == "" then DefaultSizes else p.sizes;
    }

    /** `cancelEdit`. */
    method CancelEdit()
      modifies this`editingId, this`name, this`description, this`price, this`imageUrl,
        this`storeId, this`category, this`sizes
      ensures Cleared()
    {
      editingId := None;
      name, description, price, imageUrl := "", "", "", "";
      storeId, category, sizes := DefaultStore, DefaultCategory, DefaultSizes;
    }

    /** The request body built from the form: trimmed texts, an empty optional text left
        out, and the normalised price. */
    function Data(): (d: ProductData)
      reads this
      ensures d.name == Trim(name) && d.price == NormalisePrice(price)
      ensures d.description == TrimmedOrNone(description) && d.imageUrl == TrimmedOrNone(imageUrl)
      ensures d.sizes == TrimmedOrNone(sizes) && d.storeId == storeId && d.category == category
    {
      ProductData(storeId, Trim(name), TrimmedOrNone(description), NormalisePrice(price),
                  TrimmedOrNone(imageUrl), category, TrimmedOrNone(sizes))
    }

    /** The request the form sends: an update while a product is being edited, a create
        otherwise. */
    function Request(): (r: ProductRequest)
      reads this
      ensures r.data == Data()
      ensures r.UpdateProduct? <==> Selected(editingId)
      ensures r.UpdateProduct? ==> r.id == editingId.value
    {
      if Selected(editingId) then UpdateProduct(editingId.value, Data()) else CreateProduct(Data())
    }

    /** `handleSubmit`. A blank name or price only sets the message; otherwise the form
        is sent. */
    method HandleSubmit(succeeds: bool, error: string) returns (sent: Option<ProductRequest>, refreshed: bool)
      modifies this
      ensures old(Trim(name) == "" || Trim(price) == "") ==>
        && sent.None? && !refreshed && message == MissingFields
        && unchanged(this`editingId, this`name, this`description, this`price, this`imageUrl,
                     this`storeId, this`category, this`sizes, this`submitting)
      ensures old(Trim(name) != "" && Trim(price) != "") ==>
        && sent == Some(old(Request())) && !submitting && refreshed == succeeds
        && message == Outcome(succeeds, if old(Selected(editingId)) then ProductUpdated else ProductAdded, error)
        && (succeeds ==> Cleared())
        && (!succeeds ==> unchanged(this`editingId, this`name, this`description, this`price, this`imageUrl,
                                    this`storeId, this`category, this`sizes))
    {
      if Trim(name) == "" || Trim(price) == "" {
        message := MissingFields;
        return None, false;
      }
      var request := Request();
      Settle(succeeds, error, request.UpdateProduct?);
      sent, refreshed := Some(request), succeeds;
    }

    /** After the request of a complete form: on success the form is reset, on failure it
        keeps its values; the message tells which, and the page is no longer busy. */
    method Settle(succeeds: bool, error: string, update: bool)
      modifies this
      ensures !submitting && message == Outcome(succeeds, if update then ProductUpdated else ProductAdded, error)
      ensures succeeds ==> Cleared()
      ensures !succeeds ==> unchanged(this`editingId, this`name, this`description, this`price, this`imageUrl,
                                      this`storeId, this`category, this`sizes)
    {
      if succeeds {
        CancelEdit();
      }
      message := Outcome(succeeds, if update then ProductUpdated else ProductAdded, error);
      submitting := false;
    }
  }

  /** A product filed under the store (store 1 when it has none), and its negation. */
  function Filed(id: int): Product -> bool
  {
    (p: Product) => StoreOf(p) == id
  }

  function NotFiled(id: int): Product -> bool
  {
    (p: Product) => StoreOf(p) != id
  }

  /** `storeProducts`: the edited store's products; none while no store is edited. */
  function StoreProductsOf(products: seq<Product>, editing: Option<int>): (r: seq<Product>)
    ensures forall p :: p in r <==> p in products && Selected(editing) && StoreOf(p) == editing.value
  {
    if Selected(editing) then Filter(products, Filed(editing.value)) else []
  }

  /** `otherProducts`: the products the edited store could take over; all of them while
      no store is edited. */
  function OtherProductsOf(products: seq<Product>, editing: Option<int>): (r: seq<Product>)
    ensures forall p :: p in r <==> p in products && !(Selected(editing) && StoreOf(p) == editing.value)
  {
    if Selected(editing) then Filter(products, NotFiled(editing.value)) else products
  }

  /** The two lists split the catalog: each product is in exactly one of them, once. */
  lemma StoresTabPartition(products: seq<Product>, editing: Option<int>)
    ensures multiset(StoreProductsOf(products, editing)) + multiset(OtherProductsOf(products, editing)) == multiset(products)
  {
    if Selected(editing) {
      FilterPartition(products, Filed(editing.value), NotFiled(editing.value));
    }
  }

  /** The count shown beside a store: the products filed under it. */
  function ProductCount(products: seq<Product>, storeId: int): (n: nat)
    ensures n <= |products|
    ensures n > 0 <==> exists p :: p in products && StoreOf(p) == storeId
  {
    var r := Filter(products, Filed(storeId));
    assert r != [] ==> r[0] in r;
    |r|
  }

  /** A product without a store counts for store 1. */
  lemma UnfiledCountsForStoreOne(products: seq<Product>, k: int)
    requires 0 <= k < |products| && products[k].storeId.None?
    ensures ProductCount(products, DefaultStore) > 0
  {
    assert products[k] in products;
  }

  /** A store's count is the length of its list in the editor. */
  lemma CountMatchesEditor(products: seq<Product>, storeId: int)
    requires storeId != 0
    ensures ProductCount(products, storeId) == |StoreProductsOf(products, Some(storeId))|
  {
  }

  /** The request bodies of the store forms. */
  datatype StoreRequest = UpdateStore(id: int, patch: StorePatch) | CreateStore(body: StoreBody)

  /** The message a request leaves: its own on success, the error after the prefix on
      failure. */
  function Outcome(succeeds: bool, done: string, error: string): string
  {
    if succeeds then done else ErrorPrefix + error
  }

  /** The create the new-store form sends. */
  function AddRequest(name: string, image: string, desc: string): StoreRequest
  {
    CreateStore(StoreBody(Str(Trim(name)), TrimmedOrNone(image), TrimmedOrNone(desc)))
  }

  /** The store forms of the stores tab. */
  class StoresForm {
    var editingStoreId: Option<int>
    var storeName: string
    var storeImage: string
    var storeDesc: string
    var newStoreName: string
    var newStoreImage: string
    var newStoreDesc: string
    var message: string
    var submitting: bool

    /** `startEditStore(s)`: the editor opens on the store, with an absent image and an
        empty description shown as empty fields. */
    method StartEditStore(s: Store)
      modifies this`editingStoreId, this`storeName, this`storeImage, this`storeDesc
      ensures editingStoreId == Some(s.id) && storeName == s.name && storeDesc == s.description
      ensures storeImage == (if s.imageUrl.Some? then s.imageUrl.value else "")
    {
      editingStoreId := Some(s.id);
      storeName := s.name;
      storeImage := match s.imageUrl case Some(u) => u case None => "";
      storeDesc := s.description;
    }

    /** The fields the store editor sends: the trimmed name, and the image and description
        when they are not blank. */
    function Patch(): (p: StorePatch)
      reads this`storeName, this`storeImage, this`storeDesc
      ensures p.name == Some(Trim(storeName))
      ensures p.imageUrl == TrimmedOrNone(storeImage) && p.description == TrimmedOrNone(storeDesc)
    {
      StorePatch(Some(Trim(storeName)), TrimmedOrNone(storeImage), TrimmedOrNone(storeDesc))
    }

    /** `handleSaveStore`: nothing while no store is edited or while the name is blank;
        otherwise one update carrying the trimmed name and the non-empty trimmed image and
        description. */
    method HandleSaveStore(succeeds: bool, error: string) returns (sent: Option<StoreRequest>, refreshed: bool)
      modifies this`message, this`submitting
      ensures old(!Selected(editingStoreId) || Trim(storeName) == "") ==>
        sent.None? && !refreshed && message == old(message) && submitting == old(submitting)
      ensures old(Selected(editingStoreId) && Trim(storeName) != "") ==>
        && sent == Some(old(UpdateStore(editingStoreId.value, Patch())))
        && !submitting && refreshed == succeeds
        && message == Outcome(succeeds, StoreUpdated, error)
    {
      if !Selected(editingStoreId) || Trim(storeName) == "" {
        return None, false;
      }
      var request := UpdateStore(editingStoreId.value, Patch());
      Report(succeeds, StoreUpdated, error);
      sent, refreshed := Some(request), succeeds;
    }

    /** The end of a store request: the outcome is reported and the form is no longer busy. */
    method Report(succeeds: bool, done: string, error: string)
      modifies this`message, this`submitting
      ensures !submitting && message == Outcome(succeeds, done, error)
    {
      message, submitting := Outcome(succeeds, done, error), false;
    }

    /** `handleAddStore`: nothing while the new name is blank; otherwise one create, after
        which a success empties the three fields. */
    method HandleAddStore(succeeds: bool, error: string) returns (sent: Option<StoreRequest>, refreshed: bool)
      modifies this`newStoreName, this`newStoreImage, this`newStoreDesc, this`message, this`submitting
      ensures Trim(old(newStoreName)) == "" ==>
        sent.None? && !refreshed && unchanged(this)
      ensures Trim(old(newStoreName)) != "" ==>
        && sent == Some(old(AddRequest(newStoreName, newStoreImage, newStoreDesc)))
        && !submitting && refreshed == succeeds && message == Outcome(succeeds, StoreCreated, error)
        && (succeeds ==> newStoreName == "" && newStoreImage == "" && newStoreDesc == "")
        && (!succeeds ==> newStoreName == old(newStoreName) && newStoreImage == old(newStoreImage) && newStoreDesc == old(newStoreDesc))
    {
      var request := AddRequest(newStoreName, newStoreImage, newStoreDesc);
      if Trim(newStoreName) == "" {
        return None, false;
      }
      SettleAdd(succeeds, error);
      sent, refreshed := Some(request), succeeds;
    }

    /** The end of `handleAddStore`: a success empties the three fields; either way the
        outcome is reported and the form is no longer busy. */
    method SettleAdd(succeeds: bool, error: string)
      modifies this`newStoreName, this`newStoreImage, this`newStoreDesc, this`message, this`submitting
      ensures !submitting && message == Outcome(succeeds, StoreCreated, error)
      ensures succeeds ==> newStoreName == "" && newStoreImage == "" && newStoreDesc == ""
      ensures !succeeds ==> unchanged(this`newStoreName, this`newStoreImage, this`newStoreDesc)
    {
      if succeeds {
        newStoreName, newStoreImage, newStoreDesc := "", "", "";
      }
      message, submitting := Outcome(succeeds, StoreCreated, error), false;
    }
  }

  /** What the store form sends is accepted by the backend's create, which stores the name
      and the optional texts exactly as the form trimmed them. */
  lemma CreatedStoreMatchesForm(newName: string, newImage: string, newDesc: string)
    requires !IsBlank(newName)
    ensures NameAccepted(Str(Trim(newName)))
    ensures Trim(Trim(newName)) == Trim(newName)
    ensures TrimOrNull(TrimmedOrNone(newImage)) == TrimmedOrNone(newImage)
    ensures TrimOrNull(TrimmedOrNone(newDesc)) == TrimmedOrNone(newDesc)
  {
    TrimEmptyIffBlank(newName);
    TrimIdempotent(newName);
    TrimIdempotent(newImage);
    TrimIdempotent(newDesc);
    TrimEmptyIffBlank(Trim(newImage));
    TrimEmptyIffBlank(Trim(newDesc));
  }

  /** Emptying the image field and saving does not clear the stored image: the form leaves
      the empty field out of the update, and the backend keeps a field it is not sent. */
  lemma SaveCannotClearImage(s: StoreRow, storeName: string, storeImage: string, storeDesc: string)
    requires IsBlank(storeImage)
    ensures Patched(s, StorePatch(Some(Trim(storeName)), TrimmedOrNone(storeImage), TrimmedOrNone(storeDesc))).imageUrl == s.imageUrl
  {
  }
}
