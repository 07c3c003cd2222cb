# Aarmaan Clothing Store — a verified model of the storefront core

This project models the logic of the Aarmaan Clothing Store, a React storefront
backed by an Express/Mongoose server, and proves properties of that model.

On the client it covers three parts:
- the shopping cart kept in local storage: restoring it (including migration from
  the legacy per-product format), adding, removing, resetting and writing back;
- the pages that drive the cart: the cart line card, the product page with its
  size, quantity and slides, the cart page and checkout with their totals and
  shipping rule;
- the wishlist, the admin order list, the dashboard, the settings form, the
  change-password form, the admin route guard and the category carousel.

On the server it covers the product, homepage, category, order, settings and user
routes and the two authentication middlewares.

Collections are modelled as in-memory sequences held by classes whose methods
are the route handlers. JavaScript objects are ordered association lists
(`Table`). Money and quantities are integers.

Several things outside the code become parameters:
- `JSON.parse` and `parseFloat` readings;
- bcrypt hashing and comparison;
- JWT signing and verification;
- fresh ids and the clock;
- the server's answers to the client.

Modules, one per file:
- `Js`: JSON values, truthiness, `trim`, ASCII `toLowerCase`, `includes`, `parseInt`, and the key order of `Object.keys`.
- `Table`: ordered tables with distinct keys.
- `Models`: the stored records.
- `CartStore`: `client/src/cartContext.js`.
- `CartProductCard`, `ProductDetails`, `CartPage`, `Checkout`: the cart's callers.
- `Wishlist`, `SettingsForm`, `OrdersAdmin`, `AdminHome`, `ChangePassword`, `ProtectedRoute`, `CategoriesCarousel`: the remaining client files.
- `ProductsRoute`, `HomepageRoute`, `CategoriesRoute`, `OrdersRoute`, `SettingsRoute`, `UsersRoute`, `Auth`: the server.

## Model

| member | source | states |
|---|---|---|
| CartStore.Cart.Load | client/src/cartContext.js:9-55 | the restored cart is `LoadEntries` of what local storage holds; keys are distinct and the count is the sum of the quantities |
| CartStore.MigrateLegacy | client/src/cartContext.js:14-30 | the migration loop yields exactly the legacy conversion of the members, with the count equal to the sum of their quantities |
| CartStore.RestoreItems | client/src/cartContext.js:33-47 | the cleaning loop yields exactly the cleaned lines, with the count equal to the sum of their quantities |
| CartStore.LegacyMigrated | client/src/cartContext.js:17-26 | each legacy product with a numeric quantity becomes the line `<id>_no-size` holding that product, size "" and that quantity |
| CartStore.LoadedIdsOk | client/src/cartContext.js:33-47 | every restored line's product id is non-blank and neither "undefined" nor "items" |
| CartStore.LoadDistinct | client/src/cartContext.js:9-55 | a restored cart never holds two lines under one key |
| CartStore.UnrecognisedIsEmpty | client/src/cartContext.js:14-50 | a value in neither format (including a legacy object whose count is 0 or not a number) restores to the empty cart |
| CartStore.CleanItemJson | client/src/cartContext.js:37-42 | a written line with an acceptable id is restored unchanged |
| CartStore.PersistRoundTrip | client/src/cartContext.js:57-69 | writing the cart back and restoring it gives the same lines, in the same order, when every id passes the restore check |
| CartStore.BlankIdDropped | client/src/cartContext.js:37-73 | a white-space id passes the add check but its line is dropped on the next restore |
| CartStore.Cart.AddItem | client/src/cartContext.js:71-147 | the new lines are `AddEntries` of the old ones; the count is again the sum of the quantities and the keys stay distinct |
| CartStore.Cart.AddParsed | client/src/cartContext.js:87-139 | the add once the amount has parsed: the new lines are `AddCount` of the old ones, and the count is recomputed |
| CartStore.Cart.RemoveItem | client/src/cartContext.js:149-176 | the new lines are `RemoveEntries` of the old ones, and the count is recomputed |
| CartStore.Cart.Reset | client/src/cartContext.js:178-188 | the cart is empty with count 0 |
| CartStore.Cart.Recount | client/src/cartContext.js:136-139 | the lines are unchanged and the count becomes their quantity sum |
| CartStore.AddNoops | client/src/cartContext.js:73-120 | an invalid id, an unparsable amount, or a non-positive amount for a product not yet in the cart leaves the cart unchanged |
| CartStore.AddKeepsOtherLines | client/src/cartContext.js:87-133 | an add changes no line except the one for that product and size |
| CartStore.AddNeverStoresNonPositive | client/src/cartContext.js:90-126 | a line an add writes always holds a positive quantity |
| CartStore.AddRemovesEmptied | client/src/cartContext.js:90-104 | whatever the stock, an add that takes an existing line to zero or below is the removal of that line, which is then gone |
| CartStore.AddRespectsStock | client/src/cartContext.js:108-126 | with a known stock and a positive amount, an add never writes a quantity above the stock, and one that would exceed it (without emptying the line) leaves the cart unchanged |
| CartStore.AddWrites | client/src/cartContext.js:100-133 | an accepted add of a new product writes a line holding the amount, and of an existing line raises it to the old quantity plus the amount; a null stock never refuses, a known one refuses only an increase above it |
| CartStore.NullStockNeverLimits | client/src/cartContext.js:100-133 | with a null stock the line ends with exactly the old quantity plus the amount, or is removed when that is not positive |
| CartStore.DecreaseIgnoresStock | client/src/cartContext.js:100-116 | a decrease that leaves a positive quantity is applied whatever the stock |
| CartStore.AddTotal | client/src/cartContext.js:136-139 | the piece count after an add moves by exactly the change of the one line it touches |
| CartStore.CoherentPreserved | client/src/cartContext.js:87-166 | adds and removes keep every line under the key of its own product and size |
| CartStore.LegacyCoherent | client/src/cartContext.js:20-25 | migrated lines sit under the key `add(id, n, '')` updates |
| CartStore.RemoveSpec | client/src/cartContext.js:157-166 | remove deletes exactly the product's line in that size; a missing line leaves the cart unchanged |
| CartStore.ItemKeyInjective | client/src/cartContext.js:87 | for product ids without '_', the key determines the product and the size (with "" and "no-size" the same) |
| CartStore.ItemKeyCollisions | client/src/cartContext.js:87 | with '_' in an id, two different lines share a key; sizes "" and "no-size" share one |
| Js.ParseInt | client/src/cartContext.js:79-84 | `null` and `undefined` do not parse, and a number parses to itself (its exponent form above 1e21 is not modelled) |
| Js.ParseIntNumeral | client/src/cartContext.js:41 | a string of decimal digits parses to its value |
| Js.OwnEntries | client/src/cartContext.js:35 | an object's keys are its members in order; an array's keys are its indexes written in decimal |
| Js.Utf16Length | client/src/Admin/ChangePassword.js:38 | `length` counts one unit per character of the Basic Multilingual Plane and two for any other, so it lies between the character count and twice it |
| Js.ToLower | client/src/Admin/OrdersComp.js:115 | lower-casing keeps the length and lowers each letter in place |
| Models.FindSize | client/src/pages/ProductDetails.js:39 | the first size entry with that size, or none exactly when no entry has it |
| CartPage.Dedup | client/src/pages/Cart.js:25 | the deduplicated ids hold no repeats, the same ids as before, and appear in the order of their first occurrence |
| CartProductCard.Increase | client/src/components/CartProductCard.js:10-14 | plus adds one piece with the card's stock exactly when the count is below the stock, and the button is disabled otherwise |
| CartProductCard.IncreaseWithinStock | client/src/components/CartProductCard.js:10-50 | pressing plus never takes the line above the stock on the card |
| CartProductCard.DecreaseAtOneRemoves | client/src/components/CartProductCard.js:17-19 | minus on a line holding one piece removes that line and nothing else |
| CartProductCard.DeleteRemovesLine | client/src/components/CartProductCard.js:59 | delete removes exactly that line |
| CartProductCard.SizeLabelAgreesWithKey | client/src/components/CartProductCard.js:29 | the size label shows exactly for sizes that are not "" and do not map to the "no-size" key |
| ProductDetails.SelectedSizeStock | client/src/pages/ProductDetails.js:37-41 | the stock is 0 with no size selected or none found, and otherwise the stock of the first entry for that size |
| ProductDetails.MaxQuantity | client/src/pages/ProductDetails.js:71-77 | a sized product allows the selected size's stock (0 without a selection); an unsized one allows its own stock |
| ProductDetails.ClickSize | client/src/pages/ProductDetails.js:52-55 | only a size in stock can be chosen; choosing resets the quantity to 1 |
| ProductDetails.QuantityStaysInRange | client/src/pages/ProductDetails.js:32-245 | the initial view and every quantity control keep the quantity between 1 and the maximum (or 1) |
| ProductDetails.ClampsKeepBounds | client/src/pages/ProductDetails.js:236-244 | `max(1, q - 1)` and `min(max, q + 1)` stay in 1..max |
| ProductDetails.ClickAddToCart | client/src/pages/ProductDetails.js:265-275 | a sized product without a size alerts; a maximum of 0 alerts; otherwise it adds (id, quantity, size, maximum) |
| ProductDetails.PageAddWithinStock | client/src/pages/ProductDetails.js:265-275 | an add from the page adds at least one piece and never takes the line above the page's maximum |
| ProductDetails.SlidesCycle | client/src/pages/ProductDetails.js:62-68 | the next and previous arrows keep the slide in range and undo each other |
| CartPage.CartProductIds | client/src/pages/Cart.js:21-25 | the ids fetched are exactly the non-blank ids other than "undefined", each once |
| CartPage.ProductsRequest | client/src/pages/Cart.js:21-34 | no request is made exactly when no line has an id to send |
| CartPage.SubtotalPerLine | client/src/pages/Cart.js:64-74 | with distinct product ids, the subtotal is the sum over lines of price times quantity, counting 0 for a missing product or a non-positive quantity |
| CartPage.SubtotalNonNegative | client/src/pages/Cart.js:64-74 | non-negative prices give a non-negative subtotal |
| CartPage.StockForSize | client/src/pages/Cart.js:124-130 | a sized product gives the stock of the first entry for the line's size (0 for none); an unsized one gives its own stock |
| CartPage.EmptyViewIffNoLines | client/src/pages/Cart.js:103 | when every line holds a positive quantity, the empty view shows exactly for a cart without lines |
| CartPage.EmptyViewWithLines | client/src/pages/Cart.js:103 | a restored line of quantity 0 makes the page show the empty view over a non-empty cart |
| Checkout.ChargedFee | client/src/pages/CheckoutPage.js:80 | the fee charged is the stored fee, or 250 for a missing fee or a fee of 0 |
| Checkout.ShippingCost | client/src/pages/CheckoutPage.js:80 | shipping is 0 exactly when a threshold is set and reached, and otherwise the charged fee |
| Checkout.CheckoutTotalIsSubtotal | client/src/pages/CheckoutPage.js:124-129 | while every line holds a positive quantity, the checkout total equals the cart page's subtotal |
| Checkout.TotalsDifferOnNonPositiveLine | client/src/pages/CheckoutPage.js:124-129 | a line with a negative quantity lowers the checkout total but not the cart subtotal |
| Checkout.OrderLines | client/src/pages/CheckoutPage.js:84-88 | one order line per cart line, in order, with its product id, quantity and size |
| Checkout.OrderPiecesAreCartCount | client/src/pages/CheckoutPage.js:84-88 | the order carries exactly the cart's piece count |
| Checkout.Payload | client/src/pages/CheckoutPage.js:82-90 | the body carries the customer, the order lines, and the total plus shipping |
| Checkout.ChargedIsDisplayed | client/src/pages/CheckoutPage.js:332-335 | the amount sent is the total the page shows |
| Checkout.Submit | client/src/pages/CheckoutPage.js:73-120 | an invalid form only alerts; otherwise the payload is sent, and the order counts as placed only when the server accepts it |
| Checkout.CartAfter | client/src/pages/CheckoutPage.js:100-111 | an accepted order empties the cart; any other outcome keeps it as it was |
| Checkout.SubmitThenCart | client/src/pages/CheckoutPage.js:100-111 | after a submission the cart is empty exactly when it was empty or the form was valid and the server accepted the order |
| Checkout.LabelAsWrittenMisstatesZeroFee | client/src/pages/CheckoutPage.js:322-326 | as written, a fee of 0 is labelled "Rs. 0" while 250 is charged |
| Checkout.ShippingLabelFor | client/src/pages/CheckoutPage.js:322-326 | corrected: the label shows FREE exactly when shipping is 0, and otherwise the amount charged |
| Checkout.LabelAsWrittenRightForNonZeroFee | client/src/pages/CheckoutPage.js:322-326 | for any fee other than 0, the label as written is the corrected one |
| Checkout.NoticeAsWrittenMisstatesZeroFee | client/src/pages/Cart.js:187-190 | as written, without a threshold a fee of 0 is announced as a charge of 0 while checkout charges 250 |
| Checkout.DeliveryNoticeFor | client/src/pages/Cart.js:175-190 | corrected: "free delivery" exactly when shipping is 0; the remainder is positive and reaches the threshold; the standard charge is the fee charged |
| Checkout.NoticeAsWrittenAgreesElsewhere | client/src/pages/Cart.js:175-190 | with a threshold set, or a non-zero fee, the notice as written is the corrected one |
| Checkout.PagesAgreeOnFreeDelivery | client/src/pages/Cart.js:175-179 | while every line holds a positive quantity, the cart page and checkout offer free delivery for the same carts |
| Wishlist.WishlistStore.Load | client/src/wishlistContext.js:6-16 | the loading loop yields `LoadEntries` of what local storage holds, with distinct keys |
| Wishlist.LoadKeepsExactly | client/src/wishlistContext.js:9-15 | load keeps exactly the entries whose key is not blank and not "undefined", with their values |
| Wishlist.AddSpec | client/src/wishlistContext.js:37-46 | add stores `true` under the id and changes no other entry |
| Wishlist.RemoveSpec | client/src/wishlistContext.js:48-59 | remove deletes the id only |
| Wishlist.InvalidIdIgnored | client/src/wishlistContext.js:23-67 | on an invalid id the operations change nothing and membership is false |
| Wishlist.ToggleFlips | client/src/wishlistContext.js:23-67 | toggle flips the id's membership and leaves the other ids alone |
| Wishlist.ToggleTwice | client/src/wishlistContext.js:23-67 | two toggles restore membership, and from an absent id they restore the wishlist |
| Wishlist.OperationsKeepDistinct | client/src/wishlistContext.js:23-59 | add, remove and toggle keep the keys distinct |
| Wishlist.WishlistStore.Add | client/src/wishlistContext.js:37-46 | the new entries are `AddEntries` of the old ones |
| Wishlist.WishlistStore.Remove | client/src/wishlistContext.js:48-59 | the new entries are `RemoveEntries` of the old ones |
| Wishlist.WishlistStore.Toggle | client/src/wishlistContext.js:23-35 | the new entries are `ToggleEntries` of the old ones |
| SettingsRoute.PutSettings | server/routes/settings.js:26-55 | 400 exactly when either check fails; otherwise the threshold is stored, and the fee is replaced when sent and kept when not |
| SettingsRoute.ThresholdChecks | server/routes/settings.js:31-33 | a body without a threshold is rejected; thresholds of 0 and null are accepted |
| SettingsRoute.FeeChecks | server/routes/settings.js:36-47 | an omitted fee is kept and a null one stored as null; a negative or non-numeric fee is rejected |
| SettingsRoute.PutKeepsSane | server/routes/settings.js:31-55 | accepted writes keep the stored values null or non-negative |
| SettingsRoute.SettingsStore.Get | server/routes/settings.js:8-23 | the stored document is returned, or the defaults (no threshold, fee 250) are stored and returned |
| SettingsRoute.SettingsStore.Put | server/routes/settings.js:26-62 | the answer is `PutSettings` of the stored document; a 400 leaves it unchanged, and otherwise the answer becomes the stored document |
| SettingsForm.FromSettings | client/src/Admin/SettingsComp.js:27-61 | the form holds the stored threshold and fee, with null kept as null |
| SettingsForm.ThresholdChange | client/src/Admin/SettingsComp.js:76-82 | an empty input gives null, any other input its reading, and an unreadable input NaN; the fee is unchanged |
| SettingsForm.FeeChange | client/src/Admin/SettingsComp.js:84-90 | an empty input gives 0 and any other input its reading (NaN when unreadable); the threshold is unchanged |
| SettingsForm.EnableFreeDelivery | client/src/Admin/SettingsComp.js:92-104 | on sets the threshold to 2500 and off to null; the fee is unchanged |
| SettingsForm.ToggleShowsItsState | client/src/Admin/SettingsComp.js:150 | the toggle shows the state just chosen, and clearing the threshold unchecks it |
| SettingsForm.Sent | client/src/Admin/SettingsComp.js:50-53 | a number is sent as itself, and NaN and null as null |
| SettingsForm.SaveAcceptedUnlessNegative | client/src/Admin/SettingsComp.js:50-53 | a save is accepted exactly when neither field is a negative number |
| SettingsForm.SaveRoundTrip | client/src/Admin/SettingsComp.js:50-61 | a saved form is read back as it was |
| SettingsForm.ClearedFeeCharges250 | client/src/Admin/SettingsComp.js:84-90 | clearing the fee input saves a fee of 0, which checkout charges as 250 |
| SettingsForm.EnableThenSave | client/src/Admin/SettingsComp.js:92-104 | enabling free delivery and saving stores the 2500 threshold |
| OrdersRoute.OrderStore.Create | server/routes/orders.js:9-41 | the order stored is the request as given, with status Pending, the fresh id and the clock's time; only the order collection changes |
| OrdersRoute.OrderStore.UpdateStatus | server/routes/orders.js:86-99 | the orders become `SetStatus` of the old ones, and the answer is the updated order or null |
| OrdersRoute.SetStatusSpec | server/routes/orders.js:89-93 | only the identified order's status changes; an unknown id changes nothing; ids stay distinct |
| OrdersRoute.SortedNewestFirst | server/routes/orders.js:57 | the sort puts later orders first |
| OrdersRoute.SortNewestFirst | server/routes/orders.js:57 | the sort is a permutation of the stored orders |
| OrdersRoute.PopulateLine | server/routes/orders.js:64-70 | a line keeps its product id and quantity and takes the title or "Unknown Product"; no size is listed |
| OrdersRoute.PopulateOrder | server/routes/orders.js:73 | a listed order keeps every stored field and has one populated line per stored line |
| OrdersRoute.ListOrdersSpec | server/routes/orders.js:55-82 | one entry per stored order, each its populated form, newest first |
| OrdersAdmin.FilterSpec | client/src/Admin/OrdersComp.js:104-120 | the filtered list keeps, in list order, exactly the orders with that status ("All": any) whose lower-cased id contains the search text (blank: any) |
| OrdersAdmin.NoFilterShowsAll | client/src/Admin/OrdersComp.js:104-120 | "All" with a blank search shows every order |
| OrdersAdmin.NextStatus | client/src/Admin/OrdersComp.js:141 | Pending becomes Delivered and any other status Pending |
| OrdersAdmin.ToggleTwice | client/src/Admin/OrdersComp.js:141 | toggling twice restores a status in the enum |
| OrdersAdmin.MergeUpdate | client/src/Admin/OrdersComp.js:156-158 | the order with the returned id takes the new status; every other field and every other order stays |
| OrdersAdmin.ToggleReachesList | client/src/Admin/OrdersComp.js:138-169 | after a toggle of a stored order, the list shows its new status and nothing else changes |
| OrdersAdmin.DetailOf | client/src/Admin/OrdersComp.js:60-68 | a detail line keeps the listed fields and takes the title ("Unknown Product" for an unknown product or an empty title) and the price (0 for an unknown product) |
| OrdersAdmin.OrderDetails | client/src/Admin/OrdersComp.js:39-77 | one detail line per order line, in order; an order without lines shows none |
| AdminHome.Render | client/src/Admin/AdminHome.js:10-21 | the three named sections select their view, and any other value the dashboard |
| AdminHome.Back | client/src/Admin/AdminHome.js:13-17 | every back action leads to the dashboard |
| AdminHome.DashboardCounts | client/src/Admin/AdminHome.js:56-57 | the counts over the listed orders are the counts over the stored ones; delivered plus pending is at most the number of orders, and equal while every status is in the enum |
| ProductsRoute.FileFilter | server/routes/products.js:9-16 | exactly the four image types are accepted |
| ProductsRoute.ParseListField | server/routes/products.js:78-143 | an absent or empty field is the empty list; otherwise it is the parser's reading |
| ProductsRoute.KeptImagesInRange | server/routes/products.js:152 | with every index in range, the kept images are exactly the indexed ones, in index order, repeats included |
| ProductsRoute.KeptImagesSkipsOutOfRange | server/routes/products.js:152 | an out-of-range index contributes nothing |
| ProductsRoute.ProductStore.Add | server/routes/products.js:72-121 | 400 for unreadable sizes; 500 with nothing stored for a missing required field; otherwise the product is appended with stock 0 and featured once when `homepage` is "true" |
| ProductsRoute.ProductStore.Edit | server/routes/products.js:124-195 | 400 for unreadable sizes or indexes, then 404 for an unknown product, then 500 for a price that does not cast to a number, each with nothing written and the homepage untouched; otherwise the fields sent are replaced, the images become the kept ones then the uploads, and the product is featured exactly when `homepage` is "true" |
| ProductsRoute.ProductStore.Delete | server/routes/products.js:198-212 | 404 for an unknown product; otherwise the product and its homepage entry are removed |
| ProductsRoute.ProductsByIds | server/routes/products.js:215-234 | 400 exactly when `ids` is not a non-empty array; otherwise the stored products with those ids |
| ProductsRoute.IdArrayAnswered | server/routes/products.js:218-222 | a non-empty id list is answered with the products having those ids, and an empty one is rejected |
| HomepageRoute.HomepageStore.Add | server/routes/homepageProducts.js:16-31 | 400 with nothing changed for an id already featured; otherwise exactly one entry is appended; ids stay unique |
| HomepageRoute.HomepageStore.Delete | server/routes/homepageProducts.js:34-47 | 404 for an id not featured; otherwise its entry is removed |
| HomepageRoute.RemoveAppended | server/routes/homepageProducts.js:25-37 | deleting a just-added id restores the collection |
| CategoriesRoute.CategoryStore.Add | server/routes/categories.js:16-32 | 400 unless both fields are given; 500 for a name in use; otherwise exactly one category is appended |
| CategoriesRoute.CategoryStore.Edit | server/routes/categories.js:35-53 | 404 for an unknown id; the fields sent replace the stored ones without the add check; 500 when the name belongs to another category |
| CategoriesRoute.CategoryStore.Delete | server/routes/categories.js:56-69 | 404 for an unknown id; otherwise the category is gone; ids and names stay unique |
| Auth.TokenOf | server/routes/auth.js:6-10 | no header or a header without a space gives no token; a token never holds a space |
| Auth.BearerRoundTrip | server/routes/auth.js:7 | `Bearer <t>` yields `t` for any `t` without a space |
| Auth.DoubleSpaceGivesEmptyToken | server/routes/auth.js:7-10 | two spaces yield the empty token, which goes on to verification |
| Auth.AuthenticateToken | server/routes/auth.js:5-24 | 401 exactly without a token, 403 exactly for a failed verification, 404 exactly for a verified token without a known user, and on with the token's user otherwise |
| Auth.AuthenticateAdmin | server/routes/auth.js:27-50 | only admins go on |
| Auth.AdminIsStricter | server/routes/auth.js:27-50 | the admin check admits a subset of the token check, for the same user, and differs only by refusing non-admins |
| Auth.Request.Authenticate | server/routes/auth.js:12-49 | `req.user` is set exactly when the request goes on, to that user |
| UsersRoute.UserStore.Register | server/routes/users.js:14-42 | 400 for a missing field or a username or email in use, with nothing stored; otherwise one user with the hashed password and `isAdmin` only for a literal true; ids, usernames and emails stay unique |
| UsersRoute.AdminFlag | server/routes/users.js:34 | the stored flag is true exactly for a literal `true` |
| UsersRoute.Login | server/routes/users.js:45-78 | 400 exactly for a missing field; 401 exactly for an unknown email or a wrong password; otherwise a token signed for the user found by email |
| UsersRoute.LoginFailuresAlike | server/routes/users.js:53-61 | an unknown email and a wrong password give the same answer |
| UsersRoute.UserStore.ChangePassword | server/routes/users.js:99-130 | 400 for a missing field, then 404, then 401 with nothing changed; otherwise the password becomes the hash of the new one |
| UsersRoute.ReplaceKeepsUnique | server/routes/users.js:118-124 | changing a password keeps ids, usernames and emails unique |
| UsersRoute.NewPasswordLogsIn | server/routes/users.js:45-124 | in a store with unique ids, usernames and emails, after a change the user logs in with the new password exactly when the comparison accepts it against its hash |
| ChangePassword.Check | client/src/Admin/ChangePassword.js:33-48 | a mismatch is reported first, then a length below 6 UTF-16 code units, then a missing token; the request is sent exactly when none applies |
| ChangePassword.AstralCharactersCountTwice | client/src/Admin/ChangePassword.js:38 | three emoji count as six code units and pass the length check, three letters do not |
| ChangePassword.ChangePasswordForm.Submit | client/src/Admin/ChangePassword.js:27-88 | messages are cleared first; a refused submit sends nothing and keeps the fields; a success clears all three fields |
| ChangePassword.ShortPasswordNeverSent | client/src/Admin/ChangePassword.js:33-41 | a new password under six code units is never sent |
| ProtectedRoute.Guard | client/src/components/ProtectedRoute.js:6-21 | exactly one outcome: no user goes to /login, a non-admin to /, and an admin sees the page |
| CategoriesCarousel.ItemsPerSlide | client/src/components/Categories.js:20-27 | 1 up to 576 pixels, 2 up to 768, 3 above |
| CategoriesCarousel.ColumnsAreWhole | client/src/components/Categories.js:55 | 12 divided by the slide size is a whole column count |
| CategoriesCarousel.Chunk | client/src/components/Categories.js:41-44 | the chunking loop yields `Chunks` of the list |
| CategoriesCarousel.ChunksFlatten | client/src/components/Categories.js:41-44 | the slides, read in order, are the category list |
| CategoriesCarousel.ChunkSizes | client/src/components/Categories.js:41-44 | every slide but the last is full and the last holds 1..n; the slide count is ceil(len / n), 0 for an empty list |
| CategoriesCarousel.ControlsWhenOverflowing | client/src/components/Categories.js:84 | the arrows show exactly when there are more categories than one slide holds |

## Left out

- Legacy cart values that are not JSON numbers are dropped by `CartStore.LegacyEntries`. The source stores them as they are and adds them to `count` with `+=`, which can concatenate strings.
- A stored line whose `size` is truthy but not a string restores with size "" in the model. The source keeps the raw value.
- `ParseInt` models decimal `parseInt` for numbers and strings. Hexadecimal prefixes and arrays are not modelled. Fractional numbers do not arise because numbers are integers. A number of magnitude 1e21 or more parses to itself in the model, while JavaScript's `parseInt` reads only the leading digits of its exponent form (`parseInt(1e21)` is 1); no cart amount reaches that size.
- Product ids are strings throughout. The source's `typeof productId !== 'string'` branch is not modelled, since every caller passes a string.
- Keys such as `__proto__` are not modelled, nor is the placement of integer-like keys in `Object.keys` order. `Js.OwnEntries` models the decimal keys of arrays.
- `JSON.parse` errors on the cart load give the empty cart through `LoadEntries(None)`. For the wishlist, a parse error throws out of the initialiser, so the model only takes well-formed values.
- Writing the wishlist back to local storage is not modelled; it is I/O only.
- Toasts, console logging, `fetch`, local storage, navigation, `setTimeout` and resize listeners are I/O and timing. They appear only as the parameters and results they produce.
- bcrypt and jsonwebtoken are function parameters. No property of the cryptography is assumed.
- Upload buffers and the base64 data-URL conversion of images are not modelled; images are opaque byte sequences.
- The `imageURL` of a known product in the orders listing is undefined, because products have no `img` field. The model states this; the admin page's image display is not modelled.
- `toLocaleString` formatting is out, as are floating-point prices and Unicode case mapping. `ToLower` maps ASCII letters only.
- Concurrency is out: `Promise.all`, interleaved requests, and races between the homepage check and its write.
- Mongoose casting, ObjectId validation and the ordering of ties in the `createdAt` sort are out. The model sorts stably by insertion.
- A `CastError` for a malformed id becomes "not found" in the model rather than a 500.
- `server/models/User.js` is not part of this model. The `User` record is the set of fields the routes use.
- The settings page shows a missing threshold or fee as `''`; that display is not modelled.
- `sizes` or kept-index values that parse to something other than an array are not modelled. The parser parameter returns a list or None.
- A failing save of a user (500) is not modelled. Neither are the GET routes that only read a collection (`/`, `/me`, `/admin`, `/total-orders`).
- HomepageRoute.HomepageStore.Add: `productID` is always a string in the model. In the source, a body without `productID` queries `findOne({productID: undefined})`, which matches any entry, so the route answers 400 whenever the collection is non-empty; no client posts such a body.
- Order creation performs no stock check and no stock decrement in the source, and the model adds neither.
- ProductsRoute.ProductStore.Add: the schema validators are reduced to the presence of the required fields and a `price` that casts to a number. Which sent values Mongoose casts is left to the form's `PriceField`, not modelled.

## Findings

| source | as written | input that shows it | evidently intended | confidence | as-written member | corrected member |
|---|---|---|---|---|---|---|
| client/src/pages/CheckoutPage.js:322-326 | the shipping line prints `deliveryFee?.toLocaleString() \|\| '250'`, so a stored fee of 0 prints "Rs. 0" | threshold null, delivery fee 0: the label reads Rs. 0 while line 80 charges 250 and line 333 adds 250 to the total | the label shows the fee actually charged (`deliveryFee \|\| 250`) | not executed | Checkout.LabelAsWrittenMisstatesZeroFee | Checkout.ShippingLabelFor |
| client/src/pages/Cart.js:187-190 | the notice prints `deliveryFee?.toLocaleString()` with no fallback | threshold null, delivery fee 0: "Standard delivery charge of Rs. 0" while checkout charges 250 (a missing fee prints nothing) | the notice announces the fee checkout charges | not executed | Checkout.NoticeAsWrittenMisstatesZeroFee | Checkout.DeliveryNoticeFor |
