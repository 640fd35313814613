# E-commerce backend handlers in Dafny

This project models the business logic of a small Express/Mongoose
e-commerce backend: users, products, categories, carts, orders and reviews,
and the HTTP handlers that change them. Each MongoDB collection is a
`map<Id, Record>` held in one `Db` value (`store.dfy`). Each handler is a
pure function from the database and the request to a `Step`: the reply
(`Ok(status, value)` or `Fail(status, message)`, using the source's own
status codes and messages) and the database afterwards.

The modules follow the source's files:

- `user_model`, `product_model`, `category_model`, `cart_model`,
  `order_model` and `review_model` model the Mongoose schemas. Each holds
  the record datatype, its path validators and defaults, and its unique
  indexes as predicates over the collection.
- `order_controller`, `cart_controller`, `review_controller`,
  `product_controller`, `category_controller` and `auth_controller` model
  the handlers.
- `role_middleware` models the `isAdmin` check.
- `base` and `text` hold shared helpers:
  - `Option`, the reply type and JavaScript truthiness (`TruthyText`,
    `TruthyNum`);
  - `findOne` as the least matching id;
  - the `trim`/`lowercase` setters.

Mongoose behaviour that decides outcomes is written out:

- The `trim` and `lowercase` setters run on construction, on updates and on
  query filters.
- Strict mode drops fields the schema does not have. This affects the
  order's `status`, the product's `image` and the category's `description`.
- Validators run on save, and update validators run before the query.
- The category pre-save hook derives the slug.
- The unique indexes are modelled.

bcrypt, jsonwebtoken and slugify are parameters of the functions that use
them:

- a hash is the string `hashed`;
- password comparison is `matches`;
- token signing is `sign`;
- token verification is `verify`;
- `slugify` is `slugify`.

Fresh document ids are parameters that the collection does not yet hold.
`createdAt` is a supplied natural number. Prices are integers (cents).

## Model

| member | source | states |
|---|---|---|
| `UserModel.ParseRole` | model/user.js:29-33 | exactly "admin", "customer" and "employer" name a role, and parsing inverts the role's name |
| `UserModel.IsEmailMatchesPattern` | model/user.js:19 | the email check holds iff the string has no white space, an '@' with a character before it, and after it a '.' with a character on each side |
| `UserModel.ValidUser` | model/user.js:3-42 | the path validators a save runs: name 2 to 50 characters, a non-empty email matching the pattern, a stored password of at least 6 characters |
| `Text.Trim` | model/user.js:5-11 | the `trim` setter cuts only white space from both ends and leaves none at either end |
| `Text.TrimIdempotent` | model/category.js:6-13 | trimming a trimmed string changes nothing, so a trimmed name used as a filter finds itself |
| `ProductModel.WithStock` | model/product.js:26-31 | a valid product stays valid under a new stock exactly when the stock is not negative |
| `ProductModel.ValidProduct` | model/product.js:3-56 | the path validators a save runs: name 2 to 100 characters, description at least 10, price and stock at least 0, rating 0 to 5, totalReviews at least 0 |
| `CategoryModel.PreSave` | model/category.js:27-31 | the pre-save hook recomputes the slug from the name only when the name was modified, and otherwise leaves the document as it is |
| `CategoryModel.ValidCategory` | model/category.js:6-13 | the name validators: 2 to 50 characters |
| `CategoryModel.SlugSetterForm` | model/category.js:15-20 | every slug the setters produce is lower case with no white space at either end |
| `CategoryModel.SlugFormFixed` | model/category.js:15-20 | a slug already in that form passes through the setters unchanged |
| `CartModel.CartOf` | model/cart.js:6-10 | finds a cart owned by the user, and finds none exactly when the user owns no cart |
| `CartModel.CartOfUnique` | model/cart.js:6-10 | with one cart per user, the cart found is the user's only cart |
| `CartModel.LineOf` | model/cart.js:34-36 | finds the first line of the product, and none exactly when no line holds it |
| `CartModel.AddItem` | model/cart.js:33-47 | an existing product's line grows by `qty` with the length unchanged; a new product is appended as one line; other lines are unchanged; one line per product and quantities of at least 1 are kept; `qty` defaults to 1 |
| `CartModel.RemoveAt` | controller/cart.js:118 | splicing removes exactly one line and keeps the others in order |
| `CartModel.SetQuantity` | controller/cart.js:197 | the line's quantity is overwritten and no other line changes |
| `CartModel.AddItemTotal` | model/cart.js:33-47 | adding `qty` of a product raises the cart total by the price times `qty` |
| `CartModel.RemoveAtTotal` | controller/cart.js:118 | removing a line lowers the total by that line's subtotal |
| `CartModel.SetQuantityTotal` | controller/cart.js:197 | overwriting a quantity changes the total by the price times the difference |
| `OrderModel.EnumRoundTrips` | model/order.js:38-54 | every payment method, payment status and order status parses back from its name |
| `OrderModel.BuildAddress` | model/order.js:56-62 | a shipping address is accepted exactly when all five fields are present and non-empty once trimmed |
| `OrderModel.ValidOrder` | model/order.js:12-36 | the numeric path validators: each item's quantity at least 1 and price at least 0, and a total of at least 0 |
| `OrderModel.ItemsTotalNonNegative` | model/order.js:19-36 | items with quantity at least 1 and price at least 0 have a total of at least 0 |
| `OrderController.PlaceLinesSpec` | controller/order.js:31-49 | the loop prices each line at its loaded price, freezes its item and lowers the stock of its product's one populated document, which lines of the same product share; it completes iff no line fails on the documents the earlier lines left, and then its writes, items and total are those of the whole cart; otherwise the writes of the lines before the first failing line remain |
| `OrderController.PlaceLinesReserves` | controller/order.js:46-48 | wherever the loop completes, the corrected reservation of the same cart succeeds with the same stock writes; over a valid catalog, wherever the reservation succeeds the loop completes |
| `OrderController.ApplyLinesStock` | controller/order.js:46-48 | with one line per product, each line's product ends at its loaded stock minus the quantity, and other products are untouched |
| `OrderController.CreateOrder` | controller/order.js:7-81 | missing address or payment method gives 400; no cart or an empty cart gives 400 "Cart is empty"; 400 replies change nothing; success adds exactly one order; carts never change |
| `OrderController.DeleteOneByUserId` | controller/order.js:65 | the `{ userId }` filter names no cart path, so every cart is kept and every user still finds the cart they had |
| `OrderController.SaveOrder` | controller/order.js:51-80 | after the loop, the order is stored exactly when the payment method and address parse and the built order passes its validators; it is then the order of the priced items with both statuses at their defaults, and only the orders change; any failure answers 500 and writes nothing more |
| `OrderController.CreateOrderOk` | controller/order.js:7-81 | `createOrder` succeeds exactly when the request is complete, the cart is non-empty, no line's product is gone or would drop below 0 in stock as the earlier lines' saves left it, the payment method is in the enum, the address is complete and the drafted order passes its validators |
| `OrderController.CreateOrderOkLikePlaceOrder` | controller/order.js:7-81 | over a valid catalog, the written handler and the corrected one succeed on exactly the same requests |
| `OrderController.CreateOrderSnapshot` | controller/order.js:31-62 | a created order has one item per cart line in cart order, with product, quantity and price at that moment; its total is the cart total and the item sum; both statuses are at their defaults |
| `OrderController.ItemsMatchTotal` | controller/order.js:34-44 | the frozen items sum to the cart total |
| `OrderController.CreateOrderStock` | controller/order.js:46-48 | for carts that keep one line per product, a successful order lowers each ordered product's stock by exactly the quantity, with no sufficiency check, and leaves other products alone |
| `OrderController.CartSurvivesOrder` | controller/order.js:65 | after a successful order the caller's cart is still there with its lines |
| `OrderController.PartialDecrement` | controller/order.js:46-48 | a two-line cart whose second line exceeds stock fails with 500 and creates no order, but the first product's stock has already been lowered |
| `OrderController.SharedDocumentOverdraw` | controller/order.js:31-49 | two lines of one product, each in stock alone but not together (5 in stock, 3 and 3): 500, no order, and the stock left lowered by the first line; the corrected handler refuses and writes nothing |
| `OrderController.BadPaymentMethodAfterStock` | controller/order.js:46-62 | for any valid non-empty cart with enough stock on every line, a payment method outside the enum fails the order save with 500, no order is stored, and every line's product has already lost the line's quantity |
| `OrderController.Reserve` | controller/order.js:46-48 | the corrected stock reservation keeps the product ids, leaves products not in the cart alone and keeps stock non-negative |
| `OrderController.ReserveDistinct` | controller/order.js:46-48 | reservation succeeds iff every line has enough stock, and then lowers each product by exactly the line's quantity |
| `OrderController.PlaceOrder` | controller/order.js:7-81 | the corrected handler writes nothing on any failure; it succeeds exactly when the request is complete, the cart non-empty and resolved, the payment method and address valid, the drafted order valid and the stock reservation possible; success adds the order and deletes the caller's cart |
| `OrderController.PlaceOrderSucceeds` | controller/order.js:7-81 | a complete request over a valid cart from a valid catalog with enough stock on every line is placed: the stored order is the cart's draft with the cart total, each line's product loses exactly its quantity, and the cart is deleted |
| `OrderController.Checkout` | controller/order.js:46-65 | 400 iff the order fails its validators; 400 "Insufficient stock" iff it is valid but a line lacks stock; success iff both pass, and then stock, order and cart deletion are written together |
| `OrderController.PlaceOrderClearsCart` | controller/order.js:64-65 | after the corrected handler succeeds the caller has no cart |
| `OrderController.PlaceOrderAtomicOnShortage` | controller/order.js:46-48 | with the corrected handler, one line short of stock gives 400 and the database unchanged |
| `OrderController.DraftValid` | model/order.js:12-36 | an order drafted from a cart with positive quantities at the prices of a valid catalog passes the item and total validators |
| `OrderController.CreateOrderReserves` | controller/order.js:46-48 | wherever the written handler succeeds, reserving the caller's cart succeeds with exactly the stock the handler wrote |
| `OrderController.PlaceOrderAgrees` | controller/order.js:7-81 | wherever the written handler succeeds, the corrected one gives the same reply and stock and differs only by the deleted cart |
| `OrderController.UpdateOrderStatus` | controller/order.js:83-152 | 400 iff neither status is supplied or a supplied one is outside its enum; 404 iff valid but the id is unknown; success iff valid and the id is known, and it sets only the supplied statuses and keeps every other field |
| `OrderController.InsertNewestFirst` | controller/order.js:159-161 | insertion keeps the listing newest first and adds exactly the one id |
| `OrderController.ListNewestFirst` | controller/order.js:159-161 | lists every selected order exactly once, newest first |
| `OrderController.GetUserOrders` | controller/order.js:154-185 | lists the caller's orders, each once and newest first; 404 iff the caller has none |
| `OrderController.GetAllOrders` | controller/order.js:187-217 | lists every order once, newest first; 404 iff there are none |
| `CartController.AddToCart` | controller/cart.js:6-81 | 400 for a missing field, 400 for quantity ≤ 0, 404 for an unknown product, 400 when stock is below the requested quantity; success iff none of these, and then in the user's cart, created if absent, the line is merged or appended, as `addItem` would |
| `CartController.AddToCartKeepsInvariants` | model/cart.js:6-24 | adding keeps one cart per user, one line per product and positive quantities |
| `CartController.AddToCartTotal` | controller/cart.js:54-63 | the cart total rises by the price times the quantity added |
| `CartController.MergedQuantityExceedsStock` | controller/cart.js:36-41 | the stock check ignores what is already in the cart: stock 5 with 4 in the cart still accepts 3 more |
| `CartController.RemoveFromCart` | controller/cart.js:84-137 | 400 without a product id; 404 without a cart; 404 when no line holds the product; success iff the id, the cart and the line are all present, and then the product's line is spliced out |
| `CartController.RemoveFromCartDropsLine` | controller/cart.js:107-118 | removal drops exactly one line, leaves no line for the product, keeps every other line, and lowers the total by the line's subtotal |
| `CartController.RemoveFromCartAsWritten` | controller/cart.js:98-105 | the written `{ userId }` filter finds no cart, so every request with a product id gets 404 "Cart not found" |
| `CartController.UpdateCart` | controller/cart.js:139-216 | the request and product checks in source order, with only an absent quantity counting as missing; then 404 iff the caller has no cart, 404 iff no line holds the product; success iff every check passes, and it overwrites that line's quantity |
| `CartController.UpdateCartAsWritten` | controller/cart.js:176-184 | after the request and product checks, the written lookup always answers 404 "Cart not found" |
| `CartController.UpdateCartOverwrites` | controller/cart.js:186-197 | the line holds exactly the requested quantity, which is within stock, and the cart invariants hold |
| `CartController.GetCart` | controller/cart.js:218-254 | 404 iff the caller has no cart; 500 iff a line's product is gone; success iff neither, with the total Σ price × quantity and the item count the number of lines |
| `CartController.GetCartAsWritten` | controller/cart.js:223-230 | the written lookup always answers 404 "Cart not found" |
| `CartController.LookupAsWrittenMissesCart` | controller/cart.js:98-230 | for any caller whose cart holds the product and any quantity the stock covers, the intended remove, update and read succeed, and the written ones answer 404 |
| `CartController.AddThenGetCart` | controller/cart.js:54-63 | after an add, the read cart total is higher by the price times the quantity, with the same number of lines or one more |
| `ReviewModel.ValidReview` | model/review.js:17-29 | the path validators: rating 1 to 5 and a trimmed comment of at most 500 characters |
| `ReviewController.StoredComment` | model/review.js:25-29 | the stored comment is "" when none is given, otherwise the trimmed comment |
| `ReviewController.CreateReview` | controller/review.js:7-87 | the checks run in source order (fields, rating range, product, purchase, duplicate, save), so the first failing check decides the reply; success iff every check passes; failures change nothing; success adds exactly one review |
| `ReviewController.CreateReviewKeepsInvariants` | model/review.js:18-35 | a created review passes the validators and comes from a buyer, and (user, product) pairs stay unique |
| `ReviewController.SecondReviewRefused` | controller/review.js:49-60 | once a review is stored, the same user's second review of the product gets 400 |
| `ProductController.CreateProduct` | controller/product.js:5-53 | 400 for a falsy name, price or category, which includes price 0; 400 for a negative price; 500 iff the built document fails the schema validators; success otherwise, storing trimmed fields with stock 0, rating 0 and totalReviews 0 as defaults |
| `ProductController.CreateWithoutDescriptionFails` | controller/product.js:25-37 | the default description "" fails the validators, so the request ends in 500 |
| `ProductController.BuildPatch` | controller/product.js:78-85 | name and description are set only when truthy; price, stock and category as supplied |
| `ProductController.PatchValid` | controller/product.js:75-86 | `runValidators` checks only the paths the update sets, each against its schema bounds |
| `ProductController.ApplyPatch` | controller/product.js:76-87 | the supplied fields are replaced and every other field is kept |
| `ProductController.PatchKeepsValid` | model/product.js:5-55 | a patch the update validators accept keeps a valid product valid, and the empty patch changes nothing |
| `ProductController.UpdateProduct` | controller/product.js:55-110 | 400 iff the price is negative; 500 iff the patch is invalid; 404 iff the id is unknown; success iff none of these, and then the patch is applied |
| `ProductController.UpdateProductKeepsValid` | controller/product.js:81-83 | updates keep the catalog valid, and a price or stock of 0 is applied |
| `ProductController.GetProductById` | controller/product.js:141-177 | 200 with the product iff the id is known, otherwise 404 |
| `ProductController.DeleteProduct` | controller/product.js:179-215 | removes exactly that product and answers with it; an unknown id gives 404 and no change |
| `ProductController.CreateGetDelete` | controller/product.js:25-204 | a created product reads back unchanged; after deletion it is not found and the catalog is as before |
| `ProductController.GetAllProducts` | controller/product.js:113-139 | answers every product id; 404 iff there are none |
| `CategoryController.CategoryNamed` | controller/category.js:18 | finds a category with the trimmed name, and none exactly when no category has it |
| `CategoryController.CreateCategory` | controller/category.js:5-49 | 400 iff the name is falsy; 409 iff the name is taken; 500 iff the name is out of bounds or the slug is taken; success iff none of these, storing the trimmed name with the hook's slug |
| `CategoryController.CreateCategoryKeepsInvariants` | model/category.js:6-31 | creation keeps names unique, trimmed and within bounds, and slugs unique and normalised |
| `CategoryController.UpdateCategory` | controller/category.js:52-110 | 409 iff the name is held by another category, so the category's own name is allowed; then 500 iff a truthy name is out of bounds; then 404 iff the id is unknown; success iff none of these, setting only a truthy name and leaving the slug unchanged |
| `CategoryController.UpdateCategoryKeepsInvariants` | controller/category.js:65-87 | renames keep the category invariants, and renaming to the current name succeeds unchanged |
| `CategoryController.GetCategoryBySlug` | controller/category.js:142-178 | 400 iff the slug is falsy; 404 iff no category has the normalised slug; otherwise returns a stored category with that slug |
| `CategoryController.SlugLookupFindsCategory` | controller/category.js:155-161 | looking a category up by its own slug finds exactly it |
| `CategoryController.DeleteCategory` | controller/category.js:181-217 | removes exactly that category and answers with it; an unknown id gives 404 and no change |
| `CategoryController.DeleteFreesName` | controller/category.js:17-24 | after a delete the invariants hold, and creating the same name is no longer refused as a duplicate |
| `CategoryController.GetAllCategories` | controller/category.js:113-139 | answers every category id; 404 iff there are none |
| `AuthController.UserByEmail` | controller/auth.js:23 | finds a user with the normalised email, and none exactly when no user has it |
| `AuthController.NewUser` | controller/auth.js:36-42 | builds the user with trimmed name, normalised email, the hash, the supplied role or "customer" (an unknown role fails), and the supplied address or `{}` |
| `AuthController.Register` | controller/auth.js:10-65 | 400 iff name, email or password is falsy; 409 iff the email is registered; success adds exactly the new user and answers it without its password |
| `AuthController.RegisterKeepsInvariants` | model/user.js:13-26 | registration keeps emails unique and every user valid |
| `AuthController.ShortPasswordRegisters` | model/user.js:22-26 | a one-character password registers, because the length validator sees the 60-character hash |
| `AuthController.RegisterChecked` | controller/auth.js:146-151 | the corrected registration refuses a password shorter than 6 with 400, and otherwise behaves as `register` |
| `AuthController.Login` | controller/auth.js:67-124 | 400 iff a field is falsy; 401 iff the email is unknown or the password does not match; success iff both fields are truthy, the email is known and the password matches, answering the user without its password and the token signed over id and email |
| `AuthController.LoginHidesWhichCheckFailed` | controller/auth.js:80-96 | an unknown email and a wrong password get identical replies |
| `AuthController.ResetPassword` | controller/auth.js:126-194 | in order: 400 missing, 400 mismatch, 400 shorter than 6, 401 bad token, 404 unknown user; success replaces only that user's password |
| `AuthController.ResetChecksBeforeToken` | controller/auth.js:132-162 | a failing request check decides the reply whatever the token, verifier, hash or store |
| `AuthController.ResetKeepsInvariants` | controller/auth.js:173-179 | a reset with a bcrypt-length hash never fails the save and keeps emails unique and users valid |
| `AuthController.SessionTokenResetsPassword` | controller/auth.js:98-102 | the token `login` issues is accepted by `resetPassword` and resets its user's password |
| `AuthController.ResetByToken` | controller/auth.js:164-179 | a token accepted for a stored user, matching passwords of at least 6 characters and a bcrypt-length hash: the reset succeeds and stores that hash |
| `RoleMiddleware.IsAdmin` | middleware/role.js:3-41 | 401 iff unauthenticated; 404 iff the token's id names no stored user; 403 iff that user is not an admin; proceeds iff the stored user is an admin |
| `RoleMiddleware.DecisionFromStore` | middleware/role.js:14-31 | the decision depends only on the token's id and the stored users, never on a role carried in the token |
| `RoleMiddleware.DemotionTakesEffect` | middleware/role.js:24-29 | once the stored role is not admin, an old token is refused with 403 |
| `RoleMiddleware.SelfRegisteredAdmin` | controller/auth.js:40 | a caller who registers with role "admin" passes the admin check |

## Left out

- `forgotPassword`: it signs a token and sends mail through nodemailer. It is I/O, with no decision beyond a 400 and a 404 lookup.
- middleware/auth.js: it is a call to `jwt.verify`. Its result is the `claims` parameter of `IsAdmin`. The handlers take the caller's id as a parameter.
- `getProductReviews`: as routed (routes/review.js:8 registers the literal path `/productId`), `req.params.productId` is undefined, so every request is answered 400. A request that did carry a product id would reach the undefined variable `id` and end in 500. Its average rating is floating point.
- Routes and server start-up (routes/*.js, main.js), and the browser script: wiring and DOM only.
- `timestamps` and the generic 500 catch blocks for database errors are not modelled. Of `populate`, the model keeps what the order loop depends on: one loaded document per product, shared by all lines of that product.
  - Malformed ids that make `findById` throw are not modelled.
  - Collection order in the list handlers is not modelled. `GetAllProducts` and `GetAllCategories` answer the set of ids.
- The `!id` checks on route parameters are not modelled: Express never passes an empty route parameter to these handlers.
- Request values of the wrong JSON type are not modelled. This covers string quantities, fractional ratings and quantities, and `null` fields. A `null` field is treated as absent.
- Prices are integer cents rather than JavaScript numbers.
- Lengths count characters, not UTF-16 code units.
- `lowercase` maps ASCII letters only.
- Concurrency is not modelled: the check-then-act races between requests are outside a sequential model.
- OrderController.CreateOrder: its failure after a partial write is stated through `PlaceLinesSpec` and the finding lemmas, not in its own contract.
- CartController.AddToCart: product ids are `nat` values compared by equality. The merge test at controller/cart.js:54 compares the stored id's string form with the request's string, while `findById` at :27 also accepts upper-case hex. A request spelling a stored product's id in upper case would find the product, miss its line and append a second line for it. The model assumes ids arrive in canonical lower-case hex.
- CartController.AddToCartKeepsInvariants: one line per product is proved under that same canonical-id assumption; an upper-case spelling of a stored id would add a duplicate line.
- The cart handlers: the cart schema names its paths `user` and `product`, while `removeFromCart`, `updateCart` and `getCart` filter on `userId` and `productId`. The intended handlers are modelled, and so is the `userId` lookup (the `...AsWritten` functions). The `productId` line lookup behind that cart lookup is never reached and is not modelled.
- `getCart` (controller/cart.js:218) is not registered by routes/cart.js, which routes only `/add`, `/remove` and `/update`. `CartController.GetCart` and `CartController.GetCartAsWritten` model the handler as written, but no request reaches it.
- A query filter on a path the schema lacks is taken to match no document. This is Mongoose 7 behaviour and later. Under Mongoose 6's `strictQuery` the filter would be dropped and would match the first cart.

## Findings

| source | as written | input that shows it | evidently intended | confidence | as-written member | corrected member |
|---|---|---|---|---|---|---|
| controller/order.js:65 | `deleteOne({ userId })` on a schema whose owner path is `user` | any successful order: the cart is still there afterwards | the caller's cart is deleted once the order is stored | not executed; high | `OrderController.CartSurvivesOrder` | `OrderController.PlaceOrderClearsCart` |
| controller/order.js:46-48 | each line's stock is lowered and saved before the next line and the order are checked | a cart whose first line is in stock and whose second is not: 500, no order, first stock lowered | every check first, then all writes together | not executed; high | `OrderController.PartialDecrement` | `OrderController.PlaceOrderAtomicOnShortage` |
| controller/cart.js:98 | `findOne({ userId })` on a schema whose owner path is `user`; the same at lines 177 and 223 | a user whose cart holds product p removes p: 404 "Cart not found" | look the cart up by `user`, the line by `product` | not executed; high | `CartController.LookupAsWrittenMissesCart` | `CartController.RemoveFromCartDropsLine` |
| model/user.js:25 | `minlength: 6` is checked on the stored bcrypt hash | register with password "a": 201 | passwords shorter than 6 are refused, as `resetPassword` does | not executed; medium | `AuthController.ShortPasswordRegisters` | `AuthController.RegisterChecked` |
