/** Product handlers (productController.ts): the create and update guard chains,
    the record they build, the ownership gate on update and delete, and the
    owner-scoped listing.  The product collection is a map from id to record;
    `parseFloat` and `parseInt` are parameters that answer `None` for NaN. */
module Products {
  import opened Common

  /** The messages these handlers answer with. */
  const BadPrice := "Invalid price value"
  const MissingFields := "Name, price, category, seller, and location are required"
  const ProductNotFound := "Product not found"
  const NotYourProductToDelete := "You can only delete your own products"
  const NotYourProductToUpdate := "You can only update your own products"

  /** A stored product.  Money is in minor units. */
  datatype Product = Product(
    name: string,
    description: string,
    price: int,
    originalPrice: Option<int>,
    category: Id,
    shop: Option<Id>,
    image: Option<string>,
    stock: int,
    seller: string,
    location: string,
    owner: Id)

  /** The multipart body: every field arrives as an optional string. */
  datatype ProductInput = ProductInput(
    name: Option<string>,
    description: Option<string>,
    price: Option<string>,
    originalPrice: Option<string>,
    category: Option<string>,
    shop: Option<string>,
    stock: Option<string>,
    seller: Option<string>,
    location: Option<string>)

  /** `!name || !price || !category || !seller || !location` is false. */
  predicate HasRequiredFields(input: ProductInput) {
    Truthy(input.name) && Truthy(input.price) && Truthy(input.category)
    && Truthy(input.seller) && Truthy(input.location)
  }

  /** The original price is kept only when given, numeric and non-zero
      (`originalPriceNum && !isNaN(originalPriceNum)`). */
  function OriginalPriceOf(input: ProductInput, parseFloat: string -> Option<int>): (r: Option<int>)
    ensures r.Some? <==> Truthy(input.originalPrice) && parseFloat(input.originalPrice.value).Some?
                         && parseFloat(input.originalPrice.value).value != 0
    ensures r.Some? ==> r == parseFloat(input.originalPrice.value)
  {
    if Truthy(input.originalPrice) then
      match parseFloat(input.originalPrice.value)
      case Some(v) => if v != 0 then Some(v) else None
      case None => None
    else None
  }

  /** The shop reference is kept, untrimmed, only when it is not blank (`shop && shop.trim()`). */
  function ShopOf(input: ProductInput): (r: Option<Id>)
    ensures r.Some? <==> NotBlank(input.shop)
    ensures r.Some? ==> r == input.shop
  {
    if NotBlank(input.shop) then input.shop else None
  }

  /** The stock number: `stock ? parseInt(stock, 10) : fallback`; `None` is NaN. */
  function StockOf(input: ProductInput, parseInt: string -> Option<int>, fallback: int): (r: Option<int>)
    ensures !Truthy(input.stock) ==> r == Some(fallback)
    ensures Truthy(input.stock) ==> r == parseInt(input.stock.value)
  {
    if Truthy(input.stock) then parseInt(input.stock.value) else Some(fallback)
  }

  /** The image URL an upload yields: a failed upload is swallowed and an empty URL is dropped. */
  function UploadedImage(upload: Upload): (r: Option<string>)
    ensures r.Some? <==> upload.Uploaded? && upload.url != ""
    ensures r.Some? ==> r.value == upload.url
  {
    if upload.Uploaded? && upload.url != "" then Some(upload.url) else None
  }

  /** createProduct.  The required-field check (400) comes before the authentication check
      (401), then an unparsable price is 400.  A NaN stock is refused by the database's
      number cast, which the handler reports as 500. */
  function CreateProduct(caller: Caller, input: ProductInput, upload: Upload,
                         parseFloat: string -> Option<int>, parseInt: string -> Option<int>): (r: Result<Product>)
    ensures !HasRequiredFields(input) ==> r == Err(400, MissingFields)
    ensures HasRequiredFields(input) && caller.userId.None? ==> r == Err(401, UserAuthRequired)
    ensures HasRequiredFields(input) && caller.userId.Some? && parseFloat(input.price.value).None? ==>
              r == Err(400, BadPrice)
    ensures (&& HasRequiredFields(input) && caller.userId.Some? && parseFloat(input.price.value).Some?
             && StockOf(input, parseInt, 0).None?) ==> r == Err(500, ServerError)
    ensures r.Ok? <==> HasRequiredFields(input) && caller.userId.Some? && parseFloat(input.price.value).Some?
                       && StockOf(input, parseInt, 0).Some?
    ensures r.Ok? ==>
              && r.value.owner == caller.userId.value
              && r.value.name == Trim(input.name.value)
              && r.value.description == TrimmedOrEmpty(input.description)
              && r.value.category == input.category.value
              && r.value.seller == Trim(input.seller.value)
              && r.value.location == Trim(input.location.value)
              && Some(r.value.price) == parseFloat(input.price.value)
              && Some(r.value.stock) == StockOf(input, parseInt, 0)
              && (!Truthy(input.stock) ==> r.value.stock == 0)
              && r.value.originalPrice == OriginalPriceOf(input, parseFloat)
              && (r.value.originalPrice.Some? ==> r.value.originalPrice.value != 0)
              && r.value.shop == ShopOf(input)
              && (r.value.shop.Some? ==> NotBlank(input.shop))
              && r.value.image == UploadedImage(upload)
              && (r.value.image.Some? <==> upload.Uploaded? && upload.url != "")
  {
    if !HasRequiredFields(input) then
      Err(400, MissingFields)
    else if caller.userId.None? then
      Err(401, UserAuthRequired)
    else
      match parseFloat(input.price.value)
      case None => Err(400, BadPrice)
      case Some(price) =>
        match StockOf(input, parseInt, 0)
        case None => Err(500, ServerError)
        case Some(stock) =>
          Ok(Product(
            name := Trim(input.name.value),
            description := TrimmedOrEmpty(input.description),
            price := price,
            originalPrice := OriginalPriceOf(input, parseFloat),
            category := input.category.value,
            shop := ShopOf(input),
            image := UploadedImage(upload),
            stock := stock,
            seller := Trim(input.seller.value),
            location := Trim(input.location.value),
            owner := caller.userId.value))
  }

  /** updateProduct.  401 without a user, 404 for an unknown id, 403 unless admin or owner,
      and only then the field checks of create.  The record is merged into the stored one:
      the owner never changes, stock falls back to the stored stock, and the original price,
      shop and image are overwritten only when a new value is supplied. */
  function UpdateProduct(caller: Caller, products: map<Id, Product>, id: Id, input: ProductInput, upload: Upload,
                         parseFloat: string -> Option<int>, parseInt: string -> Option<int>): (r: Result<Product>)
    ensures caller.userId.None? ==> r == Err(401, UserAuthRequired)
    ensures caller.userId.Some? && id !in products ==> r == Err(404, ProductNotFound)
    ensures caller.userId.Some? && id in products && !OwnerOrAdmin(caller, products[id].owner) ==>
              r == Err(403, NotYourProductToUpdate)
    ensures caller.userId.Some? && id in products && OwnerOrAdmin(caller, products[id].owner) && !HasRequiredFields(input) ==>
              r == Err(400, MissingFields)
    ensures (&& caller.userId.Some? && id in products && OwnerOrAdmin(caller, products[id].owner)
             && HasRequiredFields(input) && parseFloat(input.price.value).None?) ==> r == Err(400, BadPrice)
    ensures (&& caller.userId.Some? && id in products && OwnerOrAdmin(caller, products[id].owner)
             && HasRequiredFields(input) && parseFloat(input.price.value).Some?
             && StockOf(input, parseInt, products[id].stock).None?) ==> r == Err(500, ServerError)
    ensures r.Ok? <==> caller.userId.Some? && id in products && OwnerOrAdmin(caller, products[id].owner)
                       && HasRequiredFields(input) && parseFloat(input.price.value).Some?
                       && StockOf(input, parseInt, products[id].stock).Some?
    ensures r.Ok? ==>
              var stored := products[id];
              && r.value.owner == stored.owner
              && r.value.name == Trim(input.name.value)
              && r.value.description == TrimmedOrEmpty(input.description)
              && r.value.category == input.category.value
              && r.value.seller == Trim(input.seller.value)
              && r.value.location == Trim(input.location.value)
              && Some(r.value.price) == parseFloat(input.price.value)
              && Some(r.value.stock) == StockOf(input, parseInt, stored.stock)
              && (!Truthy(input.stock) ==> r.value.stock == stored.stock)
              && (UploadedImage(upload).None? ==> r.value.image == stored.image)
              && (UploadedImage(upload).Some? ==> r.value.image == UploadedImage(upload))
              && (OriginalPriceOf(input, parseFloat).None? ==> r.value.originalPrice == stored.originalPrice)
              && (OriginalPriceOf(input, parseFloat).Some? ==> r.value.originalPrice == OriginalPriceOf(input, parseFloat))
              && (ShopOf(input).None? ==> r.value.shop == stored.shop)
              && (ShopOf(input).Some? ==> r.value.shop == ShopOf(input))
  {
    if caller.userId.None? then
      Err(401, UserAuthRequired)
    else if id !in products then
      Err(404, ProductNotFound)
    else
      var stored := products[id];
      if !OwnerOrAdmin(caller, stored.owner) then
        Err(403, NotYourProductToUpdate)
      else if !HasRequiredFields(input) then
        Err(400, MissingFields)
      else
        match parseFloat(input.price.value)
        case None => Err(400, BadPrice)
        case Some(price) =>
          match StockOf(input, parseInt, stored.stock)
          case None => Err(500, ServerError)
          case Some(stock) =>
            var originalPrice := OriginalPriceOf(input, parseFloat);
            var shop := ShopOf(input);
            var image := UploadedImage(upload);
            Ok(stored.(
              name := Trim(input.name.value),
              description := TrimmedOrEmpty(input.description),
              price := price,
              category := input.category.value,
              seller := Trim(input.seller.value),
              location := Trim(input.location.value),
              stock := stock,
              originalPrice := if originalPrice.Some? then originalPrice else stored.originalPrice,
              shop := if shop.Some? then shop else stored.shop,
              image := if image.Some? then image else stored.image))
  }

  /** deleteProduct: 401, 404, 403 in that order; otherwise the product is gone and
      nothing else changes. */
  function DeleteProduct(caller: Caller, products: map<Id, Product>, id: Id): (r: Result<map<Id, Product>>)
    ensures caller.userId.None? ==> r == Err(401, UserAuthRequired)
    ensures caller.userId.Some? && id !in products ==> r == Err(404, ProductNotFound)
    ensures caller.userId.Some? && id in products && !OwnerOrAdmin(caller, products[id].owner) ==>
              r == Err(403, NotYourProductToDelete)
    ensures r.Ok? <==> caller.userId.Some? && id in products && OwnerOrAdmin(caller, products[id].owner)
    ensures r.Ok? ==> r.value.Keys == products.Keys - {id}
                      && forall k :: k in r.value ==> r.value[k] == products[k]
  {
    if caller.userId.None? then Err(401, UserAuthRequired)
    else if id !in products then Err(404, ProductNotFound)
    else if !OwnerOrAdmin(caller, products[id].owner) then Err(403, NotYourProductToDelete)
    else Ok(products - {id})
  }
}
