# ZEN-Store storefront, modelled in Dafny

ZEN-Store is a clothing storefront that runs as a Telegram web app. It has two parts.

The Express backend keeps products, stores, cart rows, orders, reviews and review comments
in SQLite. It serves them through small route handlers:
- product lookup;
- a cart per user;
- a checkout that turns the cart into a pending order and empties the cart;
- reviews with comments;
- store administration behind a shared secret.

The React frontend shows the catalog, product pages, the cart, the checkout, the order
history, a wishlist with a favourites page, the settings, and an admin page.

This project models both halves.

**Backend.** The database is the class `Tables.Db`.
- It holds one sequence of rows per table, in rowid order.
- It holds the AUTOINCREMENT counter of each table.
- It holds a clock that fills `created_at`.
- A ghost journal records the checkout's two writes in the order they happen.

`Db.Valid` is kept by every handler. It says:
- ids ascend and stay below their counter;
- timestamps never decrease and never pass the clock;
- every order is pending;
- every cart clear in the journal directly follows the insert of an order for the same user.

Each writing route is a module-level method that takes the database `db: Db`. Its contract gives:
- the reply (200, 201 with or without an id, 400, 401 or 404);
- the new contents of exactly the tables it touches (the `modifies` frame names only those fields).

Read-only queries are functions on the table sequences. Their contracts state what SQL promises: which rows, in which order.

**Frontend.**
- Pure derivations are functions with lemmas: totals, filters, labels, the settings merge, the wishlist toggle, size parsing and price normalisation.
- Page state that handlers update step by step is a class whose methods update its fields: the App navigation, the cart and checkout pages, the product page, the wishlist hook and the admin forms.
- Each network request is a parameter giving its outcome.
- `JSON.parse` and `JSON.stringify` are parameters as well.

Several lemmas tie the two halves together:
- what the checkout page sends is accepted, and is stored with the total it displayed;
- the history page adds a stored order's lines back up to that total;
- the product page's add request passes the cart route's guard;
- the admin store form's values survive the store route's trimming.

The module layout is one module per source file, plus shared helpers:
- `Common`: `Option`, the JSON value type with JavaScript truthiness, `Reply`.
- `Text`: JavaScript's white-space `trim`, lower-casing, `split`, and reading decimal digits as a number.
- `Seqs`: `filter` and subsequences.
- `Tables`: the row types and the database class.

## Model

| member | source | states |
|---|---|---|
| AdminRoutes.Verify | backend/src/routes/admin.ts:5-15 | 200 with no secret configured; with a secret, 200 exactly for an equal header and 401 for an absent or different one |
| AdminRoutes.VerifyMatchesWriteGate | backend/src/routes/admin.ts:8-13 | verify succeeds iff the store routes' gate `ADMIN_SECRET && secret !== ADMIN_SECRET` lets the request through |
| ProductRoutes.ListProducts | backend/src/routes/products.ts:7-10 | the listing holds every product once and is strictly ascending by id |
| ProductRoutes.FindProduct | backend/src/routes/products.ts:12-17 | finds a row with that id iff one exists; the row found is the first with that id |
| ProductRoutes.GetProduct | backend/src/routes/products.ts:12-17 | with unique ids: a product iff one has the id, and then the only one; `None` is the 404 |
| CartRoutes.ListCart | backend/src/routes/cart.ts:7-18 | every line is one of the user's cart rows whose product exists, joined with that product's columns |
| CartRoutes.ListCartOnce | backend/src/routes/cart.ts:11-14 | the rows behind the listing are, as a multiset, exactly the user's rows whose product exists: each listed once, the order not promised |
| CartRoutes.ListCartComplete | backend/src/routes/cart.ts:11-14 | the inner join keeps every one of the user's rows whose product exists |
| CartRoutes.ListCartOfOthers | backend/src/routes/cart.ts:14 | a cart holding no row of the user lists nothing for the user |
| CartRoutes.NewCartRow | backend/src/routes/cart.ts:22-27 | an absent quantity is stored as 1, a given one verbatim |
| CartRoutes.AddItem | backend/src/routes/cart.ts:20-29 | 400 and no change without a product id or a size; otherwise exactly one appended row with the next id, so a repeated add makes a second row; product and size are not checked |
| CartRoutes.DeleteItem | backend/src/routes/cart.ts:31-36 | removes exactly the rows matching both id and owner; 404 with the table unchanged when there is none, 200 otherwise |
| CartRoutes.DeleteRemovesOne | backend/src/routes/cart.ts:33 | with unique ids a successful delete removes exactly one row |
| OrderRoutes.ItemsText | backend/src/routes/orders.ts:17 | string items are stored as sent, anything else as its serialisation |
| OrderRoutes.NewOrder | backend/src/routes/orders.ts:18-20 | the new row is the path user's, pending, carries the client's total verbatim, and stores an empty or absent name, phone or address as null |
| OrderRoutes.ClearCart | backend/src/routes/orders.ts:23 | exactly the other users' cart rows remain |
| OrderRoutes.CreateOrder | backend/src/routes/orders.ts:12-26 | 400 and no change for falsy items or a null/undefined total (an empty array and a total of 0 pass); otherwise one pending order appended, then the user's cart cleared, in that order in the journal, and nothing else changes |
| OrderRoutes.PlaceOrder | backend/src/routes/orders.ts:18-23 | the insert of the order followed by the delete of the user's cart rows, keeping the database invariant |
| OrderRoutes.InsertOrder | backend/src/routes/orders.ts:18-20 | one order appended with the next id; the journal records the insert |
| OrderRoutes.ClearUserCart | backend/src/routes/orders.ts:23 | the user's cart rows are deleted after the insert; the journal records the clear right after it |
| OrderRoutes.OrdersOf | backend/src/routes/orders.ts:8 | exactly the orders of the user |
| OrderRoutes.ListOrders | backend/src/routes/orders.ts:6-10 | exactly the user's orders, each once, with `created_at` non-increasing |
| OrderRoutes.ListOrdersIsListing | backend/src/routes/orders.ts:8 | the route's listing is one that `ORDER BY created_at DESC` may return |
| OrderRoutes.OrdersOfAppend | backend/src/routes/orders.ts:8 | a new order joins exactly its user's orders |
| OrderRoutes.NewestListedFirst | backend/src/routes/orders.ts:8 | in a time-ordered listing of older orders and one strictly newer order, the newer one comes first |
| OrderRoutes.NewOrderListedFirst | backend/src/routes/orders.ts:8 | after a checkout strictly later than the user's earlier orders, every listing the query may return starts with the new order, followed by a listing of the earlier orders |
| OrderRoutes.CheckoutEmptiesCart | backend/src/routes/orders.ts:23 | after the checkout's clear the user's cart listing is empty |
| OrderRoutes.CheckoutSparesOthers | backend/src/routes/orders.ts:23 | the clear leaves every other user's cart listing unchanged |
| OrderRoutes.ClearCartIdempotent | backend/src/routes/orders.ts:23 | a second clear changes nothing |
| StoreRoutes.ListStores | backend/src/routes/stores.ts:9-12 | every store once, strictly ascending by id |
| StoreRoutes.StoreProducts | backend/src/routes/stores.ts:14-20 | exactly the products whose `store_id` is the id, ascending by id |
| StoreRoutes.TrimOrNull | backend/src/routes/stores.ts:32-33 | absent or blank becomes null; otherwise the trimmed, non-empty text |
| StoreRoutes.NameGuard | backend/src/routes/stores.ts:28 | the name guard passes exactly a truthy string |
| StoreRoutes.CreateStore | backend/src/routes/stores.ts:22-41 | 401 at the gate and 400 without a string name, both with no change; otherwise one store appended with the trimmed name, trimmed-or-null image and description, and its new id returned |
| StoreRoutes.Apply | backend/src/routes/stores.ts:60 | the SET list never changes a row's id |
| StoreRoutes.ApplyConcat | backend/src/routes/stores.ts:60 | applying two clause lists in turn is applying their concatenation |
| StoreRoutes.Patched | backend/src/routes/stores.ts:54-56 | the row keeps its id and every column that was not supplied |
| StoreRoutes.ClausesEmpty | backend/src/routes/stores.ts:54-57 | the handler builds no clause iff no field is supplied, and at most three |
| StoreRoutes.ApplyOne | backend/src/routes/stores.ts:60 | a list of at most one clause applies that clause |
| StoreRoutes.ClausesPatch | backend/src/routes/stores.ts:54-60 | the clauses built, applied to any row, give the patched row |
| StoreRoutes.CollectUpdates | backend/src/routes/stores.ts:52-56 | one clause per supplied field; empty iff nothing is supplied; applying them gives `Patched` |
| StoreRoutes.UpdateRows | backend/src/routes/stores.ts:60 | the table keeps its length and every row's id |
| StoreRoutes.UpdateStore | backend/src/routes/stores.ts:43-66 | 401 at the gate, then 404 for an unknown id, then 400 with no field, each with no change; otherwise the store's row becomes the patched row and no other row changes |
| StoreRoutes.FirstOtherStore | backend/src/routes/stores.ts:74 | the first store id along the table that differs from the deleted one; none iff every store has that id |
| StoreRoutes.Fallback | backend/src/routes/stores.ts:74-75 | the lowest id of another existing store, or 1 when there is none |
| StoreRoutes.Reassign | backend/src/routes/stores.ts:76 | every product keeps its place and all its other columns; those of the deleted store move to the target, the others keep their store |
| StoreRoutes.DeleteStore | backend/src/routes/stores.ts:68-80 | 401 and no change at the gate; otherwise the products are moved to the fallback store, the store row is removed, and the reply is 404 when there was no such store even though the move has run |
| StoreRoutes.MoveProducts | backend/src/routes/stores.ts:76 | the products table becomes the reassigned table, keeping the database invariant |
| StoreRoutes.RemoveStoreRow | backend/src/routes/stores.ts:77 | exactly the rows with other ids remain |
| StoreRoutes.DeleteKeepsProducts | backend/src/routes/stores.ts:76 | a store delete removes no product: same count, same ids and names in the same places |
| StoreRoutes.DeleteKeepsReferences | backend/src/routes/stores.ts:74-77 | when another store exists, every product's store reference still names an existing store afterwards |
| StoreRoutes.DeleteOnlyStoreDangles | backend/src/routes/stores.ts:75-77 | deleting store 1 when it is the only store leaves its products pointing at store 1, which no longer exists |
| ReviewRoutes.AuthorName | backend/src/routes/reviews.ts:27 | a missing or empty name is stored as "Гость", any other verbatim |
| ReviewRoutes.StoredRating | backend/src/routes/reviews.ts:28-29 | the rating is in [1, 5]; `Number(rating)` NaN or 0 becomes 5; below 1 becomes 1, above 5 becomes 5, otherwise kept |
| ReviewRoutes.StoredRatingOfArrays | backend/src/routes/reviews.ts:28-29 | `[3]` is stored as 3, `[-4]` as 1, `[]` and `[1, 2]` as 5 |
| ReviewRoutes.StoredRatingStable | backend/src/routes/reviews.ts:28-29 | a stored rating sent again is stored unchanged |
| ReviewRoutes.AddReview | backend/src/routes/reviews.ts:24-39 | 400 and no change without user id or text; otherwise one review appended with the clamped rating and the author name, its id returned |
| ReviewRoutes.AddComment | backend/src/routes/reviews.ts:41-52 | 400 and no change without user id or text; otherwise one comment appended without checking that its review exists, its id returned |
| ReviewRoutes.CommentsOf | backend/src/routes/reviews.ts:14-20 | exactly the comments naming that review |
| ReviewRoutes.CommentsOfSnoc | backend/src/routes/reviews.ts:15-18 | one more comment extends only its own review's list |
| ReviewRoutes.GroupComments | backend/src/routes/reviews.ts:14-19 | the map sends every review id with comments to exactly its comments in order; ids without comments are absent |
| ReviewRoutes.ListReviews | backend/src/routes/reviews.ts:6-22 | every review once, newest first, each with exactly its comments in ascending time, [] when it has none |
| ReviewRoutes.OrphanCommentsHidden | backend/src/routes/reviews.ts:20 | a comment whose review does not exist appears under no listed review |
| Schema.SeedData | backend/src/db/schema.ts:69-75 | five demo products, each with a positive price |
| Schema.SeedRows | backend/src/db/schema.ts:64-79 | one row per entry, ids counting up from the next id, no store, the entry's price |
| Schema.SeedRowsOk | backend/src/db/schema.ts:77-79 | seeded rows have ascending ids below the new counter and equal timestamps |
| Schema.Initialise | backend/src/db/schema.ts:61-80 | seeds exactly the five demo products when the products table is empty; otherwise nothing changes |
| Schema.Seed | backend/src/db/schema.ts:77-79 | the loop inserts the entries in order with consecutive ids |
| Tables.Db.constructor | backend/src/db/schema.ts:7-59 | a new database file: every table exists, empty, counters at 1, invariant established |
| Tables.Db.Tick | backend/src/db/schema.ts:16 | time moves forward and the invariant is kept |
| Api.StoreOf | frontend/src/pages/StoreCatalog.tsx:29 | a product without a store counts as store 1 |
| Api.ItemOf | backend/src/routes/cart.ts:11 | a cart line as the client reads it keeps its row id, quantity and product price |
| Api.ItemsOf | backend/src/routes/cart.ts:17 | the client's cart list is the listing, line for line |
| Common.NullIfEmpty | backend/src/routes/orders.ts:20 | `s || null`: null exactly for an absent or empty string |
| Text.TrimmedOrNone | frontend/src/pages/Checkout.tsx:30-32 | `s.trim() || undefined`: none iff the text is blank, otherwise the non-empty trimmed text |
| Text.TrimEmptyIffBlank | frontend/src/pages/StoreCatalog.tsx:33 | a text trims to "" iff it is all white space |
| Text.TrimIdempotent | frontend/src/pages/ProductPage.tsx:21 | trimming twice is trimming once |
| Text.ToLower | frontend/src/pages/StoreCatalog.tsx:34 | lower-casing keeps the length and maps each character |
| Text.Split | frontend/src/pages/ProductPage.tsx:47 | at least one segment, none containing the separator |
| Text.SplitJoin | frontend/src/pages/ProductPage.tsx:47 | the segments joined by the separator give back the text |
| Text.RemoveSpaces | frontend/src/pages/Admin.tsx:231 | exactly the non-white-space characters remain |
| Text.NumberOf | frontend/src/pages/Admin.tsx:231 | a blank text reads as 0; any other text is a number exactly when, trimmed, it is all digits, and then it reads as their decimal value; a number read is never negative |
| Text.NumberValue | backend/src/routes/reviews.ts:28 | `Number(v)`: undefined and objects are NaN, null is 0, booleans 1 or 0, numbers themselves, strings as `NumberOf`; `[]` is 0, an array of two or more is NaN, `[null]` and `[undefined]` are 0, `[true]` and `[{}]` NaN |
| Text.SingletonReadsAsElement | backend/src/routes/reviews.ts:28 | a one-element array of a number, string, null or array reads as its element |
| Text.DigitsReadAsValue | frontend/src/pages/Admin.tsx:231 | a non-empty digit string reads as its decimal value |
| Text.ShownNatReadsBack | frontend/src/pages/Admin.tsx:231 | `Number(String(n))` is `n` for every natural `n` |
| Text.ShowNatRoundTrip | frontend/src/pages/Admin.tsx:200 | a price written in decimal reads back as the same number |
| CartPage.Total | frontend/src/pages/Cart.tsx:39 | the empty cart totals 0 |
| CartPage.TotalAppend | frontend/src/pages/Cart.tsx:39 | the total of two lists in turn is the sum of their totals |
| CartPage.TotalOfLine | frontend/src/pages/Cart.tsx:39 | one line contributes its price times its quantity |
| CartPage.TotalNonNegative | frontend/src/pages/Cart.tsx:39 | no negative price or quantity gives a total that is not negative |
| CartPage.View | frontend/src/pages/Cart.tsx:41-95 | loading text while loading; an empty cart shows the empty state without the checkout button; otherwise the items, their total and the checkout button |
| CartPage.CartScreen.constructor | frontend/src/pages/Cart.tsx:12-13 | no items, loading |
| CartPage.CartScreen.Refresh | frontend/src/pages/Cart.tsx:15-24 | loading ends on either outcome; the items are replaced and the change reported only on success |
| CartPage.CartScreen.Remove | frontend/src/pages/Cart.tsx:30-37 | the delete is sent for that id; the list is reloaded only when the delete succeeded |
| CheckoutPage.BuildRequest | frontend/src/pages/Checkout.tsx:22-35 | nothing is sent for a blank phone; otherwise trimmed phone, trimmed name and address or undefined, and exactly the displayed items and total |
| CheckoutPage.CheckoutForm.constructor | frontend/src/pages/Checkout.tsx:11-16 | empty fields, not submitting |
| CheckoutPage.CheckoutForm.HandleSubmit | frontend/src/pages/Checkout.tsx:24-42 | sends the built request; `submitting` is set during the request and cleared after it on either outcome; `onDone` is called only after a success |
| CheckoutPage.CheckoutAccepted | frontend/src/pages/Checkout.tsx:29-35 | every request the page sends passes the order route's guard, even for an empty cart, and is stored pending with the displayed total and the trimmed contact fields |
| HistoryPage.Pending | frontend/src/pages/History.tsx:33 | exactly the orders with status "pending" |
| HistoryPage.Completed | frontend/src/pages/History.tsx:34 | exactly the orders with status "completed" |
| HistoryPage.GroupsWithinList | frontend/src/pages/History.tsx:33-34 | both groups keep the list's order and together hold no more orders than it |
| HistoryPage.UnknownStatusesShowNothing | frontend/src/pages/History.tsx:33-70 | orders of any other status show in no group, and the empty message is not shown for them |
| HistoryPage.BackendOrdersArePending | frontend/src/pages/History.tsx:33-34 | a list of pending orders, which is all the backend ever stores, lands entirely in the first group |
| HistoryPage.StatusLabel | frontend/src/pages/History.tsx:97 | "В обработке" exactly for "pending", "Доставлено" otherwise |
| HistoryPage.NumberOr | frontend/src/pages/History.tsx:92 | a falsy value gives the fallback; any other value is read by `Number`, so a non-zero number gives itself and a digit string its value |
| HistoryPage.LineOf | frontend/src/pages/History.tsx:92 | a truthy name or quantity is shown as itself, a falsy name as "Товар" and a falsy quantity as 1; the amount is (price or 0) × (quantity or 1), NaN when either operand is not a number |
| HistoryPage.CardOf | frontend/src/pages/History.tsx:78-94 | unparseable items give no lines; a parsed value that is not an array fails to render, and so does an array with an element that is null or undefined or whose truthy name or quantity is an object (or an array holding one), which React refuses as a child; any other array gives one line per element in order |
| HistoryPage.BareNumberRenders | frontend/src/pages/History.tsx:90-94 | an element with no name or quantity, such as `3`, renders as a line |
| HistoryPage.ObjectNameFailsToRender | frontend/src/pages/History.tsx:92 | an element whose name is an object makes the card fail to render |
| HistoryPage.NestedObjectFailsToRender | frontend/src/pages/History.tsx:92 | a quantity that is an array holding an object makes the card fail to render |
| HistoryPage.NullLineFailsToRender | frontend/src/pages/History.tsx:92 | a null element makes the card fail to render, even after a line that renders |
| HistoryPage.CheckoutCardRenders | frontend/src/pages/History.tsx:90-94 | the card of an order the checkout placed renders one line per item |
| HistoryPage.LinesOf | frontend/src/pages/History.tsx:90-94 | one line per element, in order |
| HistoryPage.LineAmount | frontend/src/pages/History.tsx:92 | a line the checkout wrote shows its price times its quantity |
| HistoryPage.LinesTotalSnoc | frontend/src/pages/History.tsx:92 | one more line adds its amount to the card's sum |
| HistoryPage.LinesOfSnoc | frontend/src/pages/History.tsx:90 | the lines of a longer array extend the lines of its prefix |
| HistoryPage.HistoryMatchesCheckout | frontend/src/pages/History.tsx:90-96 | the lines of an order placed by the checkout add up to its stored total when no quantity is 0 |
| HistoryPage.LinesAddUp | frontend/src/pages/History.tsx:92 | lines whose amounts are the cart lines' price times quantity add up to the cart's total |
| ProductPage.SelectProduct | frontend/src/pages/ProductPage.tsx:19 | the first product with that id, or none iff no product has it |
| ProductPage.SizeOptions | frontend/src/pages/ProductPage.tsx:47 | one trimmed option per comma-separated segment, in order |
| ProductPage.DefaultSize | frontend/src/pages/ProductPage.tsx:21 | the default is the first size option, which holds no comma and is already trimmed |
| ProductPage.AddRequest | frontend/src/pages/ProductPage.tsx:30 | the product's id and the selected size, with the default quantity of 1 |
| ProductPage.ProductScreen.constructor | frontend/src/pages/ProductPage.tsx:12-15 | no product, no size, loading, not adding |
| ProductPage.ProductScreen.Loaded | frontend/src/pages/ProductPage.tsx:18-23 | the product is the one selected; its default size is chosen; without a product the loading text stays |
| ProductPage.ProductScreen.ChooseSize | frontend/src/pages/ProductPage.tsx:72 | the clicked option becomes the size |
| ProductPage.ProductScreen.HandleAdd | frontend/src/pages/ProductPage.tsx:26-37 | nothing without a product or a size; otherwise the add request is sent, `adding` ends cleared, and the cart opens only after a success |
| ProductPage.AddFromPageAccepted | frontend/src/pages/ProductPage.tsx:30 | the cart route accepts the page's request iff the product id is not 0, and stores it with quantity 1 and the size |
| StoreCatalog.Filtered | frontend/src/pages/StoreCatalog.tsx:26-42 | a product is listed iff it is in the selected store (store 1 when missing) or category and, unless the search is blank, its lowered name or description contains the lowered trimmed query |
| StoreCatalog.FilteredInOrder | frontend/src/pages/StoreCatalog.tsx:26-42 | the list is a subsequence of the catalog |
| StoreCatalog.SearchNarrows | frontend/src/pages/StoreCatalog.tsx:33-40 | the list with a query is a subsequence of the list without one |
| StoreCatalog.BackLabel | frontend/src/pages/StoreCatalog.tsx:47 | the back button names the store, or the category by its label |
| FavoritesPage.Favorites | frontend/src/pages/Favorites.tsx:19-39 | exactly the catalog products whose id is wished, each drawn as wished |
| FavoritesPage.FavoritesInOrder | frontend/src/pages/Favorites.tsx:19 | in catalog order |
| FavoritesPage.CatalogIds | frontend/src/pages/Favorites.tsx:19 | exactly the ids of the catalog's products |
| FavoritesPage.UnknownIdsIgnored | frontend/src/pages/Favorites.tsx:19 | wished ids naming no product change nothing |
| FavoritesPage.EmptyIffNothingWished | frontend/src/pages/Favorites.tsx:27 | the empty message shows iff no catalog product is wished |
| Wishlist.StorageKey | frontend/src/hooks/useWishlist.ts:3-6 | the key is "zen-wishlist-" followed by the user id |
| Wishlist.StorageKeyInjective | frontend/src/hooks/useWishlist.ts:6 | two users never share a key |
| Wishlist.NumbersIn | frontend/src/hooks/useWishlist.ts:13 | exactly the numbers of the stored array |
| Wishlist.InitialIds | frontend/src/hooks/useWishlist.ts:8-17 | empty for missing, empty or unparseable storage and for a non-array; otherwise the array's numbers |
| Wishlist.Toggled | frontend/src/hooks/useWishlist.ts:29-32 | the id's membership flips; every other id keeps its membership |
| Wishlist.ToggleTwice | frontend/src/hooks/useWishlist.ts:29-32 | toggling twice restores the set |
| Wishlist.TogglesCommute | frontend/src/hooks/useWishlist.ts:27-34 | toggles of two ids commute |
| Wishlist.WishlistState.constructor | frontend/src/hooks/useWishlist.ts:8-17 | the state starts at the loaded set |
| Wishlist.WishlistState.Toggle | frontend/src/hooks/useWishlist.ts:27-39 | the state becomes the toggled copy, so `has` flips for that id |
| Categories.Label | frontend/src/utils/categories.ts:10-12 | a known key gives its label, any other category itself |
| Categories.LabelsAreNotKeys | frontend/src/utils/categories.ts:1-8 | no label is a key |
| Categories.LabelIdempotent | frontend/src/utils/categories.ts:1-12 | labelling twice is labelling once |
| Settings.OrElse | frontend/src/context/SettingsContext.tsx:26 | a stored field wins over the default |
| Settings.Load | frontend/src/context/SettingsContext.tsx:21-30 | the defaults for missing or unparseable storage; otherwise each stored field overrides its default and each absent field keeps it |
| Settings.SaveLoadRoundTrip | frontend/src/context/SettingsContext.tsx:21-36 | settings saved and loaded come back unchanged |
| Settings.EmptyObjectIsDefault | frontend/src/context/SettingsContext.tsx:15-26 | an empty stored object gives the defaults ru, light, RUB |
| Settings.SetLang | frontend/src/context/SettingsContext.tsx:63 | only the language changes |
| Settings.SetTheme | frontend/src/context/SettingsContext.tsx:64 | only the theme changes |
| Settings.SetCurrency | frontend/src/context/SettingsContext.tsx:65 | only the currency changes |
| Settings.SettersIndependent | frontend/src/context/SettingsContext.tsx:63-65 | setters of different fields commute; a second call of one setter overrides the first |
| Settings.UseSettings | frontend/src/context/SettingsContext.tsx:82-86 | throws iff there is no provider; otherwise the provider's settings |
| AdminPage.ShowInt | frontend/src/pages/Admin.tsx:200 | `String(n)` of a non-negative price is its decimal digits |
| AdminPage.NormalisePrice | frontend/src/pages/Admin.tsx:231 | the input without white space read as a number, 0 when it is not one |
| AdminPage.PriceRoundTrip | frontend/src/pages/Admin.tsx:200-231 | a price put in the form by `startEdit` is sent back unchanged |
| AdminPage.ProductsForm.constructor | frontend/src/pages/Admin.tsx:188-194 | the form starts cleared: store 1, "tee", "S,M,L,XL" |
| AdminPage.ProductsForm.StartEdit | frontend/src/pages/Admin.tsx:196-205 | the form holds the product, with store 1, "tee" and "S,M,L,XL" for a missing store, category and sizes |
| AdminPage.ProductsForm.CancelEdit | frontend/src/pages/Admin.tsx:207-216 | the form is cleared to its defaults |
| AdminPage.ProductsForm.Data | frontend/src/pages/Admin.tsx:227-235 | trimmed name, normalised price, optional texts trimmed or left out |
| AdminPage.ProductsForm.Request | frontend/src/pages/Admin.tsx:236-244 | an update of the edited product iff one is edited, a create otherwise |
| AdminPage.ProductsForm.HandleSubmit | frontend/src/pages/Admin.tsx:218-251 | a blank name or price only sets the message; otherwise the request is sent, a success resets the form, a failure keeps it, and the message tells which |
| AdminPage.ProductsForm.Settle | frontend/src/pages/Admin.tsx:236-250 | reset on success, kept on failure, message set, no longer busy |
| AdminPage.StoreProductsOf | frontend/src/pages/Admin.tsx:353 | the edited store's products (store 1 when missing); none while no store is edited |
| AdminPage.OtherProductsOf | frontend/src/pages/Admin.tsx:354 | the products of other stores; all while no store is edited |
| AdminPage.StoresTabPartition | frontend/src/pages/Admin.tsx:353-354 | the two lists partition the catalog as multisets |
| AdminPage.ProductCount | frontend/src/pages/Admin.tsx:517 | positive iff some product is filed under the store |
| AdminPage.UnfiledCountsForStoreOne | frontend/src/pages/Admin.tsx:517 | a product without a store counts for store 1 |
| AdminPage.CountMatchesEditor | frontend/src/pages/Admin.tsx:353-517 | a store's count is the length of its list in the editor |
| AdminPage.StoresForm.StartEditStore | frontend/src/pages/Admin.tsx:372-377 | the editor holds the store, with an absent image shown empty |
| AdminPage.StoresForm.Patch | frontend/src/pages/Admin.tsx:384 | trimmed name; image and description trimmed or left out |
| AdminPage.StoresForm.HandleSaveStore | frontend/src/pages/Admin.tsx:379-392 | nothing while no store is edited or the name is blank; otherwise the update is sent and the outcome reported |
| AdminPage.StoresForm.Report | frontend/src/pages/Admin.tsx:385-390 | message set to the outcome, no longer busy |
| AdminPage.StoresForm.HandleAddStore | frontend/src/pages/Admin.tsx:394-410 | nothing for a blank name; otherwise the create is sent and a success empties the three fields |
| AdminPage.StoresForm.SettleAdd | frontend/src/pages/Admin.tsx:400-408 | a success empties the fields, a failure keeps them; message set, no longer busy |
| AdminPage.CreatedStoreMatchesForm | frontend/src/pages/Admin.tsx:399 | the store route accepts the form's create and stores the name, image and description exactly as the form trimmed them |
| AdminPage.SaveCannotClearImage | frontend/src/pages/Admin.tsx:384 | emptying the image field and saving keeps the stored image |
| App.Navigation.constructor | frontend/src/App.tsx:12-13 | the catalog page, no product |
| App.Navigation.Rendered | frontend/src/App.tsx:39-48 | at most one page renders; the product page only with a set, non-zero product id |
| App.Navigation.OpenProduct | frontend/src/App.tsx:15-18 | the product page for that id |
| App.Navigation.OpenCart | frontend/src/App.tsx:20 | only the page changes, to the cart |
| App.Navigation.OpenCatalog | frontend/src/App.tsx:21-24 | the catalog page, with the product id cleared |
| App.Navigation.OpenCheckout | frontend/src/App.tsx:25 | only the page changes, to the checkout |

## Left out

- Express wiring, the Telegram bot, `localStorage` reads and writes, and network requests are not modelled. Each request a page makes is a parameter giving its outcome.
- `JSON.parse` and `JSON.stringify` are parameters. The parser's outcome is a datatype; the serialiser is an uninterpreted function.
- Floating point is not modelled: `formatPrice` (currency rates and `Math.round`), fractional prices and ratings. Every number is an integer.
- The store carousel, presentation-only components, the login screen (`handleLogin`), product and store deletion from the admin page (`handleDelete`, `handleDeleteStore`), assigning products to a store from the editor, and the product form modal are not modelled.
- The history page's loading state and `formatDate` are not modelled.
- `parseInt` of a path id is an integer; the NaN a non-numeric id gives is not modelled.
- `Number()` on a string is modelled for decimal digits only (`Text.NumberOf`); signs, decimals, exponents and hex read as NaN.
- AdminPage.ShowInt: a negative price is written with a leading minus, but `NormalisePrice` does not read it back, because `Text.NumberOf` reads only digits.
- AdminPage.NormalisePrice: a negative or fractional price input gives 0 here, where JavaScript would give the number.
- Text.ToLower: lower-cases only ASCII and Russian capital letters. Other scripts are left as they are.
- The 500 replies that the store routes send when SQLite throws are not modelled. The in-memory tables never fail.
- `CREATE TABLE IF NOT EXISTS` is not an operation here. Every table always exists, so a second initialisation can only differ by seeding.
- Foreign keys are not enforced, as SQLite leaves them by default. A cart row or comment may name a missing product or review.
- The stores table and `products.store_id` are not in the schema file; they are modelled as the store routes and the client's `Product` type use them.
- OrderRoutes.ListOrders: promises only what `ORDER BY created_at DESC` promises (the user's orders, times non-increasing). Among equal times the model's order is one of several allowed.
- Categories.Label: the lookup in `CATEGORY_LABELS` also finds the members every object inherits from `Object.prototype` (`constructor`, `toString`, `valueOf`, `hasOwnProperty`, `isPrototypeOf`, `propertyIsEnumerable`, `toLocaleString`, `__proto__` and the `__defineGetter__` family). For those keys the source returns that member, which is not nullish, instead of the category. The model returns the category for them as well, and so does `StoreCatalog.BackLabel`, which is built on it.
- ReviewRoutes.ListReviews: the order among reviews or comments with equal times is the model's choice, which SQL does not promise.
- CartRoutes.NewCartRow: an explicit `"quantity": null` is stored as NULL by the route (the default applies only to an absent field, and the column is nullable); the model's body has no null quantity, so `None` always stands for an absent one and gives 1.
- The store editor's effect that refills the name, image and description fields whenever `editingStore` changes (as when the store list is reloaded while the editor is open, which overwrites unsaved edits) is not modelled; the fields are filled only when `AdminPage.StoresForm.StartEditStore` opens the editor.
- Wishlist.NumbersIn: non-numeric elements of the stored array are dropped. `has` can never match them, but the real set would keep them.
- Settings.Load: a stored field outside its enumeration (say `lang: "de"`) is not modelled. Such a value would be kept by the spread.
- StoreRoutes.UpdateStore: a supplied `name` that is not a string (`String(name)`) is not modelled; the patch's name is a string.
- A handler's request body fields are modelled with the types the handlers test them at. Absent or falsy values become `None`, 0 or "" where the handler treats them alike.
