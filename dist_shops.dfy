/** Shop handlers of the compiled deployment (dist/controllers/shopController.js over a Shop
    schema with an owner): no trimming and no e-mail check, an image taken from the upload,
    else from the body; an upload that throws reaches the catch-all; ownership gates on
    update and delete; the owner-scoped listing. */
module DistShops {
  import opened Common

  /** The messages these handlers answer with. */
  const MissingFields := "Name, location, telephone, and email are required"
  const ShopExists := "Shop already exists"
  const NameExists := "Shop name already exists"
  const ShopNotFound := "Shop not found"
  const NotYourShop := "You can only update your own shops"

  datatype Shop = Shop(
    name: string,
    description: Option<string>,
    location: string,
    telephone: string,
    email: string,
    image: string,
    owner: Id)

  /** The JSON or multipart body; `image` may carry a URL directly. */
  datatype ShopInput = ShopInput(
    name: Option<string>,
    description: Option<string>,
    location: Option<string>,
    telephone: Option<string>,
    email: Option<string>,
    image: Option<string>)

  predicate HasRequiredFields(input: ShopInput) {
    Truthy(input.name) && Truthy(input.location) && Truthy(input.telephone) && Truthy(input.email)
  }

  predicate NameTaken(shops: map<Id, Shop>, name: string, except: Option<Id>) {
    exists k :: k in shops && Some(k) != except && shops[k].name == name
  }

  ghost predicate UniqueNames(shops: map<Id, Shop>) {
    forall a, b :: a in shops && b in shops && a != b ==> shops[a].name != shops[b].name
  }

  /** The image precedence of both handlers: an uploaded file, else a truthy `image` field
      of the body, else `fallback` (empty on create, the stored image on update).  `None`
      when the upload throws. */
  function ChooseImage(upload: Upload, bodyImage: Option<string>, fallback: string): (r: Option<string>)
    ensures r.None? <==> upload.UploadFailed?
    ensures upload.Uploaded? ==> r == Some(upload.url)
    ensures upload.NoFile? && Truthy(bodyImage) ==> r == bodyImage
    ensures upload.NoFile? && !Truthy(bodyImage) ==> r == Some(fallback)
  {
    match upload
    case UploadFailed => None
    case Uploaded(url) => Some(url)
    case NoFile => if Truthy(bodyImage) then bodyImage else Some(fallback)
  }

  /** createShop.  400 for a missing field; an upload that throws is 500; without a user the
      schema's required owner is missing (500); a name already in use trips the unique index
      (400).  Fields are stored as sent. */
  function CreateShop(caller: Caller, shops: map<Id, Shop>, input: ShopInput, upload: Upload): (r: Result<Shop>)
    ensures !HasRequiredFields(input) ==> r == Err(400, MissingFields)
    ensures HasRequiredFields(input) && upload.UploadFailed? ==> r == Err(500, ServerError)
    ensures HasRequiredFields(input) && !upload.UploadFailed? && caller.userId.None? ==> r == Err(500, ServerError)
    ensures r.Ok? <==> HasRequiredFields(input) && !upload.UploadFailed? && caller.userId.Some?
                       && !NameTaken(shops, input.name.value, None)
    ensures r.Ok? ==> && r.value.owner == caller.userId.value
                      && r.value.name == input.name.value && r.value.email == input.email.value
                      && r.value.location == input.location.value && r.value.telephone == input.telephone.value
                      && r.value.description == input.description
                      && Some(r.value.image) == ChooseImage(upload, input.image, "")
    ensures (&& HasRequiredFields(input) && !upload.UploadFailed? && caller.userId.Some?
             && NameTaken(shops, input.name.value, None)) ==> r == Err(400, ShopExists)
  {
    if !HasRequiredFields(input) then
      Err(400, MissingFields)
    else
      match ChooseImage(upload, input.image, "")
      case None => Err(500, ServerError)
      case Some(image) =>
        if caller.userId.None? then Err(500, ServerError)
        else if NameTaken(shops, input.name.value, None) then Err(400, ShopExists)
        else Ok(Shop(input.name.value, input.description, input.location.value, input.telephone.value,
                     input.email.value, image, caller.userId.value))
  }

  /** A required field the body sends as an empty string, which the `required` rule of the
      schema refuses when `runValidators` is on. */
  predicate EmptiesRequired(input: ShopInput) {
    input.name == Some("") || input.location == Some("") || input.telephone == Some("") || input.email == Some("")
  }

  /** The name an update leaves on the shop: the sent one, or the stored one. */
  function NameAfter(stored: Shop, input: ShopInput): string {
    if input.name.Some? then input.name.value else stored.name
  }

  /** updateShop.  404 for an unknown id, 403 unless admin or owner; an upload that throws is
      500; fields absent from the body keep their stored values, a required field sent empty
      fails validation (500), and a name used by another shop is 400.  The owner never changes. */
  function UpdateShop(caller: Caller, shops: map<Id, Shop>, id: Id, input: ShopInput, upload: Upload): (r: Result<Shop>)
    ensures id !in shops ==> r == Err(404, ShopNotFound)
    ensures id in shops && !OwnerOrAdmin(caller, shops[id].owner) ==> r == Err(403, NotYourShop)
    ensures id in shops && OwnerOrAdmin(caller, shops[id].owner) && upload.UploadFailed? ==> r == Err(500, ServerError)
    ensures (&& id in shops && OwnerOrAdmin(caller, shops[id].owner) && !upload.UploadFailed?
             && EmptiesRequired(input)) ==> r == Err(500, ServerError)
    ensures (&& id in shops && OwnerOrAdmin(caller, shops[id].owner) && !upload.UploadFailed?
             && !EmptiesRequired(input) && NameTaken(shops, NameAfter(shops[id], input), Some(id))) ==>
              r == Err(400, NameExists)
    ensures r.Ok? <==> && id in shops && OwnerOrAdmin(caller, shops[id].owner) && !upload.UploadFailed?
                       && !EmptiesRequired(input) && !NameTaken(shops, NameAfter(shops[id], input), Some(id))
    ensures r.Ok? ==>
              var stored := shops[id];
              && r.value.owner == stored.owner
              && Some(r.value.image) == ChooseImage(upload, input.image, stored.image)
              && r.value.name == NameAfter(stored, input)
              && (input.name.Some? ==> r.value.name == input.name.value)
              && r.value.location == (if input.location.Some? then input.location.value else stored.location)
              && r.value.telephone == (if input.telephone.Some? then input.telephone.value else stored.telephone)
              && r.value.email == (if input.email.Some? then input.email.value else stored.email)
              && r.value.description == (if input.description.Some? then input.description else stored.description)
  {
    if id !in shops then
      Err(404, ShopNotFound)
    else
      var stored := shops[id];
      if !OwnerOrAdmin(caller, stored.owner) then
        Err(403, NotYourShop)
      else
        match ChooseImage(upload, input.image, stored.image)
        case None => Err(500, ServerError)
        case Some(image) =>
          if EmptiesRequired(input) then
            Err(500, ServerError)
          else
            var shop := Shop(
              name := NameAfter(stored, input),
              description := if input.description.Some? then input.description else stored.description,
              location := if input.location.Some? then input.location.value else stored.location,
              telephone := if input.telephone.Some? then input.telephone.value else stored.telephone,
              email := if input.email.Some? then input.email.value else stored.email,
              image := image,
              owner := stored.owner);
            if NameTaken(shops, shop.name, Some(id)) then Err(400, NameExists) else Ok(shop)
  }

  /** An update by the owner or an admin that sends no field and no file succeeds and leaves
      the shop as it was, as long as names are unique. */
  lemma EmptyUpdateKeepsShop(caller: Caller, shops: map<Id, Shop>, id: Id)
    requires id in shops && OwnerOrAdmin(caller, shops[id].owner) && UniqueNames(shops)
    ensures UpdateShop(caller, shops, id, ShopInput(None, None, None, None, None, None), NoFile) == Ok(shops[id])
  {
  }

  /** Stored results of create and update keep shop names unique. */
  lemma WritesKeepNamesUnique(caller: Caller, shops: map<Id, Shop>, id: Id, input: ShopInput, upload: Upload)
    requires UniqueNames(shops)
    ensures id !in shops && CreateShop(caller, shops, input, upload).Ok? ==>
              UniqueNames(shops[id := CreateShop(caller, shops, input, upload).value])
    ensures UpdateShop(caller, shops, id, input, upload).Ok? ==>
              UniqueNames(shops[id := UpdateShop(caller, shops, id, input, upload).value])
  {
  }

  /** getMyShops: no role check; the shops owned by the caller, none when there is no caller. */
  function GetMyShops(caller: Caller, shops: map<Id, Shop>): (r: map<Id, Shop>)
    ensures forall k :: k in r <==> k in shops && caller.userId == Some(shops[k].owner)
    ensures forall k :: k in r ==> r[k] == shops[k]
    ensures caller.userId.None? ==> r == map[]
  {
    map k | k in shops && caller.userId == Some(shops[k].owner) :: shops[k]
  }
}
