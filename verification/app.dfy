/** The storefront shell: which page is open, and which product the product page shows. */
module App {
  import opened Common

  datatype Page = CatalogPage | CartPage | ProductPage | CheckoutPage

  /** A page the main area renders; the product page carries the product it is for. */
  datatype View = CatalogView | CartView | ProductView(productId: int) | CheckoutView

  class Navigation {
    var page: Page
    var productId: Option<int>

    constructor ()
      ensures page == CatalogPage && productId.None?
    {
      page := CatalogPage;
      productId := None;
    }

    /** The pages the main area renders. The product page needs a product id that is set
        and not 0; every other page renders whenever it is open. */
    function Rendered(): (r: set<View>)
      reads this
      ensures |r| <= 1
      ensures CatalogView in r <==> page == CatalogPage
      ensures CartView in r <==> page == CartPage
      ensures CheckoutView in r <==> page == CheckoutPage
      ensures forall id :: ProductView(id) in r <==> page == ProductPage && productId == Some(id) && id != 0
    {
      match page
      case CatalogPage => {CatalogView}
      case CartPage => {CartView}
      case CheckoutPage => {CheckoutView}
      case ProductPage =>
        if productId.Some? && productId.value != 0 then {ProductView(productId.value)} else {}
    }

    /** `openProduct(id)`. */
    method OpenProduct(id: int)
      modifies this
      ensures page == ProductPage && productId == Some(id)
      ensures id != 0 ==> Rendered() == {ProductView(id)}
    {
      productId := Some(id);
      page := ProductPage;
    }

    /** `openCart`: only the page changes. */
    method OpenCart()
      modifies this`page
      ensures page == CartPage && Rendered() == {CartView}
    {
      page := CartPage;
    }

    /** `openCatalog`: back to the catalog, forgetting the product. */
    method OpenCatalog()
      modifies this
      ensures page == CatalogPage && productId.None? && Rendered() == {CatalogView}
    {
      page := CatalogPage;
      productId := None;
    }

    /** `openCheckout`: only the page changes. */
    method OpenCheckout()
      modifies this`page
      ensures page == CheckoutPage && Rendered() == {CheckoutView}
    {
      page := CheckoutPage;
    }
  }
}
