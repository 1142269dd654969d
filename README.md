# Local e-commerce backend — a Dafny model of its request handlers

The service is an Express/Mongoose backend for a local marketplace. Shoppers keep a cart and check out into orders. Business owners publish products, shops and promotions. Editors write blog posts with slugs. Two authentication middlewares turn a bearer token into a user id and role, and a role gate admits or rejects a request.

This project models each handler as the decision it makes over the stored data:
- the status code and message it answers with on each error path;
- the record it writes, or the collection after the write.

Each handler then gets lemmas about those decisions. Examples:
- a cart holds at most one line per product, with positive quantities;
- an order's total is the sum of the priced lines;
- stored shop, category and blog-slug names stay unique;
- a slug is the maximal lower-case alphanumeric runs of the title joined by single dashes, and slugging is idempotent;
- a matching post at a given index is listed on the page that index falls in;
- the optional middleware identifies exactly the requests the strict one admits;
- a registered user can log in.

The modules follow the source's files:
- `Common` holds what the handlers share:
  - the JavaScript notions: truthiness, `String.prototype.trim`, and the owner-or-admin check;
  - three handler shapes, generic over the document type: lookup by id, the owner-gated delete, and the "my documents" listing.
- `Cart`: cartController.ts. `CartStore` is a class whose `carts` map the handlers update in place.
- `Orders`: orderController.ts. `OrderStore` is a class holding the orders and reading the carts and product prices.
- `Products`, `Promotions`, `Categories` and `Shops`: the local controllers.
- `DistShops`: the compiled shop controller. Its schema (src/models/Shop.ts) adds a required owner, and the handlers neither trim nor check the e-mail.
- `Blog`: the blog controller. `BlogStore.GetPostBySlug` increments the view counter in place.
- `Registry`: the in-memory account list of authController.ts, as a class with a `users` sequence.
- `Authentication`: auth.ts and optionalAuth.ts. `Request` is a class holding the fields the middlewares write.
- `Authorization`: the role gate.

The outside world enters as parameters:
- The image upload outcome is `Upload`: no file, uploaded with a URL, or the upload failed.
- `parseFloat`, `parseInt` and `new Date(...)` are functions answering `None` for NaN or Invalid Date.
- Mongoose's own Number and Date casts, which an update goes through instead of `parseFloat`, are separate function parameters of the same kind.
- The clock is a `now` parameter.
- Token signing and verification, and password hashing and comparison, are function parameters.
- Each new document's id is an input.

Stored collections are maps from id to record, or sequences where order matters. Money is an integer number of minor units.

Two behaviours of the Mongoose 7 update path are modelled:
- A field absent from an update body keeps its stored value.
- A required field updated to an empty string fails schema validation. So does an enum field given a value outside its enum. Either one lands in the handler's generic 500 answer.

## Model

| member | source | states |
|---|---|---|
| Common.Trim | local-ecommerce-bn/src/controllers/categoryController.ts:57-58 | the result is the infix of the input that starts after its leading whitespace, only whitespace follows it, and neither of its ends is whitespace |
| Common.TrimEmptyIffBlank | local-ecommerce-bn/src/controllers/categoryController.ts:38 | `s.trim()` is empty exactly when every character of `s` is whitespace, the test behind every "name is required" guard |
| Common.TrimIdempotent | local-ecommerce-bn/src/controllers/categoryController.ts:57 | trimming a trimmed string changes nothing, so stored names are their own trim |
| Common.TrimmedOrEmpty | local-ecommerce-bn/src/controllers/categoryController.ts:58 | `description?.trim() \|\| ''` is the trimmed text when one was sent; the result has nothing left for `trim()` to remove, and is empty exactly when the field was absent or blank |
| Common.OwnerOrAdminCharacterization | local-ecommerce-bn/src/controllers/productController.ts:154-156 | the ownership check admits a caller exactly when they own the record or are an admin |
| Common.FindById | local-ecommerce-bn/src/controllers/productController.ts:46-56 | the stored document for a known id, 404 with the handler's message otherwise; the same shape is getProductById here and getPromotionById (promotionController.ts:60-72), getShopById (shopController.ts:47-57 and the compiled shopController.js:27-38) and getCategoryById (categoryController.ts:14-24) |
| Common.DeleteOwned | local-ecommerce-bn/src/controllers/promotionController.ts:209-228 | 404 for an unknown id, then 403 for a non-owner non-admin; otherwise only that document is removed; the same shape is deletePromotion here and the compiled deleteShop (shopController.js:93-110) and deletePost (blogController.ts:128-147) |
| Common.ListOwned | local-ecommerce-bn/src/controllers/productController.ts:21-44 | 401 without a user, 403 unless business owner or admin; otherwise exactly the documents the caller owns; the same shape is getMyProducts here and getMyPromotions (promotionController.ts:20-42) |
| Cart.FindLine | local-ecommerce-bn/src/controllers/cartController.ts:34 | the loop returns the first line holding the product, or -1 exactly when no line holds it |
| Cart.AddLineEffect | local-ecommerce-bn/src/controllers/cartController.ts:34-40 | adding raises that product's total quantity by the amount added and leaves every other product's quantity as it was |
| Cart.AddLineValid | local-ecommerce-bn/src/models/Cart.ts:13-16 | adding a positive quantity keeps one line per product with every quantity at least 1 |
| Cart.AddTwiceMerges | local-ecommerce-bn/src/controllers/cartController.ts:34-39 | adding the same product twice yields one line with the summed quantity, not two lines |
| Cart.SetLineEffect | local-ecommerce-bn/src/controllers/cartController.ts:68-74 | setting a line's quantity makes that product's quantity exactly the new value and changes no other product |
| Cart.RemoveProductOrder | local-ecommerce-bn/src/controllers/cartController.ts:95 | removal keeps the other lines in their original order (a subsequence without the product) |
| Cart.RemoveProductQuantity | local-ecommerce-bn/src/controllers/cartController.ts:95 | after removal the product's quantity is 0 and every other product's quantity is unchanged |
| Cart.RemoveProductValid | local-ecommerce-bn/src/controllers/cartController.ts:95 | removal preserves the one-line-per-product and positive-quantity invariant |
| Cart.CartStore.GetCart | local-ecommerce-bn/src/controllers/cartController.ts:4-18 | a user with no cart gets a new empty cart stored for them; an existing cart is returned unchanged |
| Cart.CartStore.AddToCart | local-ecommerce-bn/src/controllers/cartController.ts:20-51 | 400 for a missing product or quantity below 1, with nothing stored; otherwise the cart becomes the merged-or-appended line list, with the invariant kept |
| Cart.CartStore.UpdateCartItem | local-ecommerce-bn/src/controllers/cartController.ts:53-82 | 400 for a bad quantity, then 404 for no cart or no such line; otherwise exactly that line's quantity is replaced |
| Cart.CartStore.RemoveFromCart | local-ecommerce-bn/src/controllers/cartController.ts:84-103 | 404 without a cart; otherwise every line of the product is filtered out and the rest is kept |
| Cart.CartStore.ClearCart | local-ecommerce-bn/src/controllers/cartController.ts:105-122 | 404 without a cart; otherwise the user's cart becomes empty and other users' carts are untouched |
| Orders.ParseStatus | local-ecommerce-bn/src/models/Order.ts:40-44 | exactly the five status names parse, and each parses to the status that prints as it |
| Orders.TotalBounds | local-ecommerce-bn/src/controllers/orderController.ts:22-34 | with non-negative prices and quantities of at least 1, the order total is non-negative and at least the price of every line |
| Orders.PrepareOrderItems | local-ecommerce-bn/src/controllers/orderController.ts:22-34 | the loop builds one snapshot per cart line, with the line's quantity and the product's current price, and the running total of those lines; a line whose product is gone fails |
| Orders.OrderStore.CreateOrder | local-ecommerce-bn/src/controllers/orderController.ts:5-61 | 400 without an address or payment method, 400 for a missing or empty cart, exactly 500 for a vanished product, an incomplete address or a line the schema refuses, each with nothing stored; success exactly when none of these holds, and then one pending order with the priced items and their total is stored and the cart is emptied |
| Orders.OrderStore.OrdersOf | local-ecommerce-bn/src/controllers/orderController.ts:63-76 | exactly the caller's orders |
| Orders.OrderStore.GetOrder | local-ecommerce-bn/src/controllers/orderController.ts:78-94 | 404 unless the order exists and belongs to the caller |
| Orders.OrderStore.UpdateOrderStatus | local-ecommerce-bn/src/controllers/orderController.ts:96-124 | 400 for a status outside the enum and 404 for an unknown order; otherwise only that order's status changes |
| Products.CreateProduct | local-ecommerce-bn/src/controllers/productController.ts:58-133 | 400 for a missing field, then 401 without a user, then 400 for an unparseable price, exactly 500 for a stock that parses to NaN; otherwise a product owned by the caller with the trimmed name and description, the sent category, seller and location, the parsed price, the parsed stock (0 when none was sent), an original price only when it parses to a non-zero value, a shop only when a non-blank one was sent, and an image only for a successful upload with a URL |
| Products.UpdateProduct | local-ecommerce-bn/src/controllers/productController.ts:135-239 | 401, 404, 403 for a non-owner non-admin, exactly 400 for missing fields or an unparseable price, 500 for a NaN stock; otherwise the merged record: owner kept, every sent text replaces the stored one, stock, original price, shop and image kept when nothing new is supplied and replaced by the new value when one is |
| Products.DeleteProduct | local-ecommerce-bn/src/controllers/productController.ts:241-269 | 401, 404, 403 for a non-owner non-admin; otherwise only that product is removed |
| Promotions.ParseDiscountType | src/models/Promotion.ts:22 | exactly "percentage" and "fixed" parse |
| Promotions.ActivePromotions | local-ecommerce-bn/src/controllers/promotionController.ts:44-58 | a promotion is listed exactly when it is active and the current time lies in its start-to-end window |
| Promotions.ActiveWindow | local-ecommerce-bn/src/controllers/promotionController.ts:47-51 | a listed promotion has started and has not ended, and an inactive one is never listed |
| Promotions.CreatePromotion | local-ecommerce-bn/src/controllers/promotionController.ts:74-175 | the 401 and 400 guards in source order (fields, positive discount, percentage at most 100, "Invalid date format" for an unparseable date, end after start), then 500 when the schema refuses what passed them; success exactly when every guard passes, and then a record owned by the caller with trimmed texts, the parsed discount and dates, and the sent optional fields |
| Promotions.SavePromotion | local-ecommerce-bn/src/controllers/promotionController.ts:126-158 | the save succeeds exactly when the discount type is in the enumeration and the trimmed title, description and location are not empty (500 otherwise), and the record holds exactly the values handed to it |
| Promotions.CreatedPromotionValid | local-ecommerce-bn/src/controllers/promotionController.ts:94-113 | a created promotion has a positive discount, at most 100 when a percentage, and starts before it ends; while active inside that window it is listed by the active-promotions query |
| Promotions.HundredPercentAccepted | local-ecommerce-bn/src/controllers/promotionController.ts:99-101 | a percentage of exactly 100 passes the discount guards |
| Promotions.ApplyUpdate | local-ecommerce-bn/src/controllers/promotionController.ts:192-201 | the update is written exactly when no required text is emptied, a sent discount type is in the enumeration and sent numbers and dates cast (500 otherwise); each sent field replaces the stored one through Mongoose's casts, each absent one is kept, and the owner never changes |
| Promotions.UpdatePromotion | local-ecommerce-bn/src/controllers/promotionController.ts:177-207 | 404, 403 for a non-owner non-admin, 500 for a failed upload, 500 when the schema refuses the update; success exactly when none of these holds, and then the stored record with the update applied |
| Promotions.EmptyUpdateKeepsPromotion | local-ecommerce-bn/src/controllers/promotionController.ts:192-201 | an owner's update that sends nothing and no file gives back the stored promotion unchanged |
| Promotions.UpdateSkipsCreateRules | local-ecommerce-bn/src/controllers/promotionController.ts:197-201 | an update accepts an end date before the start and a percentage above 100, both of which create refuses |
| Shops.ValidEmailMatchesPattern | local-ecommerce-bn/src/controllers/shopController.ts:75-76 | the executable e-mail check accepts exactly the strings in the language of `^[^\s@]+@[^\s@]+\.[^\s@]+$` |
| Shops.ValidEmailTrimmed | local-ecommerce-bn/src/controllers/shopController.ts:76-96 | an address that passes the check has no surrounding whitespace, so the stored `email.trim()` is the checked address |
| Shops.Normalize | local-ecommerce-bn/src/controllers/shopController.ts:91-101 | the stored shop holds the trimmed name, location and telephone, the e-mail as checked, and the trimmed description defaulting to empty |
| Shops.CreateShop | local-ecommerce-bn/src/controllers/shopController.ts:59-125 | 400 for a missing field, 400 for a bad e-mail, exactly 500 for a name, location or telephone blank after trimming, 400 for a taken name; success exactly when none of these holds, and then the shop with trimmed texts, the checked e-mail and the uploaded image if any |
| Shops.UpdateShop | local-ecommerce-bn/src/controllers/shopController.ts:127-216 | 401, 404, 400 for missing fields or a bad e-mail, exactly 500 for a field blank after trimming, 400 for a name another shop holds; success exactly when none of these holds, and then the shop with trimmed texts and the checked e-mail, the image kept unless a new one uploaded |
| Shops.WritesAreNormalized | local-ecommerce-bn/src/controllers/shopController.ts:91-101 | every shop a create or update writes has non-empty trimmed name, location and telephone, a trimmed description and an e-mail matching the pattern |
| Shops.ResubmitKeepsShop | local-ecommerce-bn/src/controllers/shopController.ts:127-216 | sending a stored, normalized shop's own fields back without a file leaves it unchanged |
| Shops.WritesKeepNamesUnique | local-ecommerce-bn/src/models/Shop.ts:13 | a successful create or update keeps shop names unique |
| Shops.DeleteShop | local-ecommerce-bn/src/controllers/shopController.ts:218-228 | 404 for an unknown id; otherwise only that shop is removed, with no ownership check |
| Shops.GetMyShops | local-ecommerce-bn/src/controllers/shopController.ts:19-45 | 401, 403 for a customer, 401 for an unknown user; otherwise exactly the shops whose e-mail is the user's |
| DistShops.ChooseImage | dist/controllers/shopController.js:75-81 | the uploaded URL when a file was uploaded, the body's or stored image otherwise; no image at all exactly when the upload failed |
| DistShops.CreateShop | dist/controllers/shopController.js:40-61 | 400 for a missing field, 500 for a failed upload, 500 when there is no user, 400 "Shop already exists" for a taken name; success exactly when none of these holds, and then a shop owned by the caller with name, location, telephone, e-mail and description as sent and the image chosen from the upload or the body |
| DistShops.UpdateShop | dist/controllers/shopController.js:63-91 | 404, 403 for a non-owner, 500 for a failed upload or an emptied required field, 400 for a name another shop holds; success exactly when none of these holds, and then each sent field replaces the stored one, absent ones are kept, the image is chosen as on create, and the owner is kept |
| DistShops.EmptyUpdateKeepsShop | dist/controllers/shopController.js:63-91 | an owner's update that sends nothing and no file gives back the stored shop unchanged |
| DistShops.WritesKeepNamesUnique | src/models/Shop.ts:13-21 | a successful create or update keeps shop names unique |
| DistShops.GetMyShops | dist/controllers/shopController.js:4-15 | exactly the shops the caller owns |
| Categories.CreateCategory | local-ecommerce-bn/src/controllers/categoryController.ts:26-86 | 401, 400 for a blank name, 400 for a taken trimmed name; success exactly when none of these holds, and then the trimmed name and description, and an image that is present exactly when an upload succeeded with a URL and is then that URL |
| Categories.UpdateCategory | local-ecommerce-bn/src/controllers/categoryController.ts:88-166 | 401, 404, 400 for a blank name, 400 "Category name already exists" for a trimmed name another category holds; success exactly when none of these holds, and then the trimmed values, the image kept unless a new one uploaded |
| Categories.WritesKeepNamesUnique | local-ecommerce-bn/src/models/Category.ts:9-13 | a successful create or update keeps category names unique |
| Categories.StoredNameIsTrimmed | local-ecommerce-bn/src/controllers/categoryController.ts:57 | a created category's name is non-empty and its own trim |
| Categories.DeleteCategory | local-ecommerce-bn/src/controllers/categoryController.ts:168-191 | 401, 404; otherwise only that category is removed |
| Blog.ParseStatus | src/models/BlogPost.ts:24 | exactly "draft" and "published" parse, each to the status that prints as it |
| Blog.CollapseIsJoinedWords | src/controllers/blogController.ts:62 | `replace(/[^a-z0-9]+/g, '-')` gives the maximal alphanumeric runs joined by single dashes, with one dash before them for a leading separator run and one after them for a trailing one |
| Blog.TrimDashes | src/controllers/blogController.ts:62 | removing one leading and one trailing dash never lengthens the text, and leaves a slug as it is |
| Blog.Slug | src/controllers/blogController.ts:62 | the result has the slug shape (only `[a-z0-9-]`, no two dashes in a row, no dash at either end) and keeps the title's lower-cased alphanumerics in order |
| Blog.SlugIsJoinedWords | src/controllers/blogController.ts:62 | the slug is exactly the maximal alphanumeric runs of the lower-cased title joined by single dashes |
| Blog.SlugEmptyIff | src/controllers/blogController.ts:62 | the slug is empty exactly when the title has no ASCII letter or digit |
| Blog.SlugIdempotent | src/controllers/blogController.ts:105 | slugging a slug gives it back, so re-deriving a post's slug from its own slug changes nothing |
| Blog.Matching | src/controllers/blogController.ts:10-12 | a post is selected exactly when it has the requested category (if any) and the requested status, published when none is requested |
| Blog.CeilDiv | src/controllers/blogController.ts:22 | `Math.ceil(total / limit)` is the least page count whose pages hold every item |
| Blog.PageSlice | src/controllers/blogController.ts:17-18 | the page holds the items from position skip onward, at most limit of them |
| Blog.ListPosts | src/controllers/blogController.ts:5-26 | defaults page 1 and limit 10; 500 when the skip `(page - 1) * limit` is negative; otherwise the page of matching posts, the total and the page count |
| Blog.EveryPostOnItsPage | src/controllers/blogController.ts:17-22 | with a positive limit, the matching post at index q * limit + m (m below the limit) is entry m of page q + 1, and that page is within the page count |
| Blog.CreatePost | src/controllers/blogController.ts:46-83 | 400 for missing fields, 400 without an image, 500 for a failed upload, exactly 500 for a status outside the enumeration, no author, an empty image URL or an empty slug, 400 for a taken slug; success exactly when none of these holds, and then a post by the caller with the sent texts, the image URL, the title's slug, published and dated now exactly when the status sent is published, and no views |
| Blog.PublishedAtAfterUpdate | src/controllers/blogController.ts:117 | a draft updated to published is dated now; a published post never has its date moved, and an update that does not send published never touches the date |
| Blog.UpdatePost | src/controllers/blogController.ts:85-126 | 404, 403 for a non-author non-admin, 500 for a failed upload, exactly 500 for an emptied required field, a status outside the enumeration, an empty image or slug, or a slug another post has; success exactly when none of these holds, and then each sent text replaces the stored one, the slug is re-derived from a new title, the image replaced by a new upload, and author and views kept |
| Blog.CreateKeepsConsistent | src/models/BlogPost.ts:16-27 | a successful create keeps slugs unique and well-formed, and published posts dated |
| Blog.UpdateKeepsConsistent | src/controllers/blogController.ts:100-119 | a successful update keeps slugs unique and well-formed, and published posts dated |
| Blog.BlogStore.GetPostBySlug | src/controllers/blogController.ts:28-44 | 404 for an unknown slug; otherwise the post with that slug is returned with its view count raised by one, nothing else changes, and the store stays consistent |
| Registry.UserRegistry.FindByEmail | src/controllers/authController.ts:14 | the first user with exactly that e-mail, or -1 exactly when there is none |
| Registry.UserRegistry.Register | src/controllers/authController.ts:9-39 | 400 and no change for a known e-mail; otherwise exactly one user is appended with the password hash, a token for the new id is answered, and e-mails stay distinct |
| Registry.UserRegistry.Login | src/controllers/authController.ts:41-67 | succeeds exactly when a user has that e-mail and the password matches its hash; an unknown e-mail and a wrong password give the same 400 |
| Registry.RegisterThenLogin | src/controllers/authController.ts:20-57 | in any valid registry that does not know the e-mail, a user who registers logs in with the same password and gets the same session |
| Registry.RegisterTwice | src/controllers/authController.ts:14-17 | in any valid registry, a second registration with the e-mail of the first is refused, whatever the passwords, names and ids |
| Authentication.ExtractToken | local-ecommerce-bn/src/middleware/auth.ts:6-7 | a token is never empty and contains no space |
| Authentication.ExtractTokenIsSecondField | local-ecommerce-bn/src/middleware/auth.ts:7 | the token is exactly the second field of the header split on spaces, when that field exists and is non-empty |
| Authentication.Authenticate | local-ecommerce-bn/src/middleware/auth.ts:5-41 | 401 without a token, 403 when verification fails, 403 for a vanished user; otherwise the token's user id and the stored role |
| Authentication.OptionalIdentity | local-ecommerce-bn/src/middleware/optionalAuth.ts:5-37 | an identity is produced only for a user that exists, with that user's stored record |
| Authentication.OptionalAgreesWithStrict | local-ecommerce-bn/src/middleware/optionalAuth.ts:9-28 | the optional middleware identifies exactly the requests the strict one admits, with the same identity |
| Authentication.Request.AuthenticateToken | local-ecommerce-bn/src/middleware/auth.ts:5-41 | a rejection sends its status and does not call next; success sets userId and userRole and calls next once |
| Authentication.Request.OptionalAuthenticateToken | local-ecommerce-bn/src/middleware/optionalAuth.ts:5-37 | next is called exactly once on every path, and the three request fields are all set or all null |
| Authorization.Authorize | dist/middleware/authorize.js:4-12 | next exactly when a role is present and permitted; otherwise 403 "Access denied. Insufficient permissions." |
| Authorization.AuthorizeDeniesByDefault | dist/middleware/authorize.js:7-8 | an empty role list admits nobody, and an anonymous request passes no gate |
| Authorization.AuthorizeMonotone | dist/middleware/authorize.js:4-12 | permitting more roles never turns an admitted request away |
| Authorization.AuthorizeAsWritten | src/middleware/authorize.ts:4-13 | the TypeScript gate calls next for every request |
| Authorization.AsWrittenAdmitsOutsiders | src/middleware/authorize.ts:7-11 | the TypeScript gate admits a customer to an admin-only route and an anonymous request anywhere, where the intended gate refuses both |

## Left out

- Listing handlers that return a whole collection are not modelled as separate members: getAllProducts, getAllPromotions, getAllShops (both controllers) and getAllCategories. Their sorting and `populate` are left out too.
- Persistence is abstracted. MongoDB is a map from id to record, or an ordered sequence where order matters. Behaviour not modelled:
  - sorting by `createdAt` or `publishedAt` (the order of the input sequence stands for it);
  - `populate` beyond the price and name lookups the handlers use;
  - an ObjectId cast error on a malformed id, which the source answers with 500. Ids are compared as plain values.
- Races between a handler's lookup and its write are not modelled: the "... not found after update" answers and a unique index hit by a concurrent write. Checkout is one atomic step in the model, unlike the source's separate create and clear.
- Cloudinary uploads, bcrypt, JWT signing and verification, `Date.now()` and the clock are parameters. Their own failures are the `UploadFailed` and `None` cases.
- Number parsing and JavaScript doubles are not modelled:
  - `parseFloat`, `parseInt` and `new Date` are parameters;
  - prices are integers in minor units;
  - a discount is a real number.
- Blog.Lower: lower-cases ASCII capitals only. `toLowerCase` also maps other letters, and two of them (U+0130 and U+212A) map into ASCII letters the slug keeps.
- Blog.ListPosts: page and limit arrive as integers. `Number()` of a non-numeric or fractional query string is not modelled.
- Cart.CartStore.AddToCart: quantities are integers. A quantity sent as a JSON string, which `+=` would concatenate, is not modelled.
- Promotions.UpdatePromotion: `isActive` is a boolean. The string a multipart form sends, and its cast by Mongoose, are not modelled.
- Registry.UserRegistry.Register: the body fields are present strings. A missing field, and a hashing or signing error that the source answers with 500, are not modelled. The new id is an input and is not required to be fresh.
- Authentication.Authenticate: a malformed id inside a valid token, which makes `findById` throw and gives 403 "Invalid or expired token", counts here as an unknown user ("Invalid token").
- Route wiring is not part of this model: which middleware guards which route, and in what order. The routes disagree on the order-status gate. local-ecommerce-bn/src/routes/order.ts:121 has no role gate; src/routes/order.ts:16 admits business owners.
- The product schema is not part of this model, so schema-level rejections of products are not modelled.
- The product controller's upload code (productController.ts:87-97) is reduced to its outcome: `UploadedImage`.
- Logging and the error text in 500 bodies are left out. Every 500 is modelled by its code and the handler's message.
- Orders.CheckoutScenario is a worked example rather than a property: it runs two additions to a cart and a checkout on concrete values and asserts the resulting line and total. It states nothing beyond the handlers' own contracts.

## Findings

| source | as written | input that shows it | evidently intended | confidence | as-written member | corrected member |
|---|---|---|---|---|---|---|
| src/middleware/authorize.ts:7-11 | the branch for a missing or unpermitted role is empty, so `next()` runs for every request | a request with role `customer` on a route guarded by `authorize('admin')`, or with no role at all | answer 403 "Access denied. Insufficient permissions." as the compiled gate dist/middleware/authorize.js:7-8 does | not executed | Authorization.AsWrittenAdmitsOutsiders | Authorization.Authorize |
