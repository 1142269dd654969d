/** Promotion handlers (promotionController.ts over the Promotion schema): the create
    validation chain, the read-time "active" filter, the owner-scoped listing, and the
    ownership gate on update and delete.  `parseFloat`, `new Date(...)` and the schema casts are parameters
    answering `None` for NaN and Invalid Date; dates are milliseconds since the epoch. */
module Promotions {
  import opened Common

  /** The messages these handlers answer with. */
  const MissingFields := "All required fields must be provided"
  const NotPositive := "Discount value must be a positive number"
  const EndNotAfterStart := "End date must be after start date"
  const BadDate := "Invalid date format"
  const OverHundredPercent := "Percentage discount cannot exceed 100%"
  const PromotionNotFound := "Promotion not found"
  const NotYourPromotion := "You can only update your own promotions"

  datatype DiscountType = Percentage | Fixed

  /** A stored promotion; `isActive` defaults to true, category, terms and banner are optional. */
  datatype Promotion = Promotion(
    title: string,
    description: string,
    discountType: DiscountType,
    discountValue: real,
    bannerImage: Option<string>,
    location: string,
    startDate: int,
    endDate: int,
    shop: Id,
    category: Option<Id>,
    isActive: bool,
    terms: Option<string>,
    owner: Id)

  /** The body of create and update; `isActive` is only read by update. */
  datatype PromotionInput = PromotionInput(
    title: Option<string>,
    description: Option<string>,
    discountType: Option<string>,
    discountValue: Option<string>,
    location: Option<string>,
    startDate: Option<string>,
    endDate: Option<string>,
    shop: Option<string>,
    category: Option<string>,
    isActive: Option<bool>,
    terms: Option<string>)

  /** The schema enumeration of discount types. */
  function ParseDiscountType(s: string): (r: Option<DiscountType>)
    ensures r == Some(Percentage) <==> s == "percentage"
    ensures r == Some(Fixed) <==> s == "fixed"
  {
    if s == "percentage" then Some(Percentage) else if s == "fixed" then Some(Fixed) else None
  }

  /** All eight required fields are truthy. */
  predicate HasRequiredFields(input: PromotionInput) {
    Truthy(input.title) && Truthy(input.description) && Truthy(input.discountType) && Truthy(input.discountValue)
    && Truthy(input.location) && Truthy(input.startDate) && Truthy(input.endDate) && Truthy(input.shop)
  }

  /** The promotions the active listing returns at `now`: flagged active, with both window
      bounds inclusive. */
  predicate IsActive(p: Promotion, now: int) {
    p.isActive && p.startDate <= now && now <= p.endDate
  }

  /** getActivePromotions: the stored promotions, in order, filtered at read time. */
  function ActivePromotions(promotions: seq<Promotion>, now: int): (r: seq<Promotion>)
    ensures forall p :: p in r <==> p in promotions && IsActive(p, now)
    ensures |r| <= |promotions|
  {
    if promotions == [] then []
    else (if IsActive(promotions[0], now) then [promotions[0]] else []) + ActivePromotions(promotions[1..], now)
  }

  /** An ended or not yet started promotion is never listed as active, whatever its flag;
      a flagged promotion whose window contains `now` always is. */
  lemma ActiveWindow(promotions: seq<Promotion>, p: Promotion, now: int)
    requires p in promotions
    ensures p.endDate < now ==> p !in ActivePromotions(promotions, now)
    ensures now < p.startDate ==> p !in ActivePromotions(promotions, now)
    ensures !p.isActive ==> p !in ActivePromotions(promotions, now)
    ensures p.isActive && p.startDate <= now <= p.endDate ==> p in ActivePromotions(promotions, now)
  {
  }

  /** The discount checks of create: `parseFloat` gives a positive number, and a percentage
      is at most 100. */
  predicate DiscountAccepted(input: PromotionInput, parseFloat: string -> Option<real>)
    requires HasRequiredFields(input)
  {
    var v := parseFloat(input.discountValue.value);
    v.Some? && v.value > 0.0 && !(input.discountType.value == "percentage" && v.value > 100.0)
  }

  /** The date checks of create: both dates parse and the end is strictly after the start. */
  predicate WindowAccepted(input: PromotionInput, parseDate: string -> Option<int>)
    requires HasRequiredFields(input)
  {
    var start := parseDate(input.startDate.value);
    var end := parseDate(input.endDate.value);
    start.Some? && end.Some? && start.value < end.value
  }

  /** What the schema demands of the record create saves: a discount type of the enumeration,
      and a title, description and location that do not trim to nothing. */
  predicate SchemaAccepts(input: PromotionInput)
    requires HasRequiredFields(input)
  {
    ParseDiscountType(input.discountType.value).Some?
    && NotBlank(input.title) && NotBlank(input.description) && NotBlank(input.location)
  }

  /** The save step of create once its checks pass: the record built from the trimmed texts
      and the parsed values, or the 500 of the schema rule it breaks. */
  function SavePromotion(owner: Id, input: PromotionInput, value: real, start: int, end: int,
                         upload: Upload): (r: Result<Promotion>)
    requires HasRequiredFields(input)
    ensures r.Ok? <==> SchemaAccepts(input)
    ensures r.Err? ==> r == Err(500, ServerError)
    ensures r.Ok? ==>
              && r.value.owner == owner
              && r.value.title == Trim(input.title.value)
              && r.value.description == Trim(input.description.value)
              && r.value.location == Trim(input.location.value)
              && Some(r.value.discountType) == ParseDiscountType(input.discountType.value)
              && r.value.discountValue == value
              && r.value.startDate == start && r.value.endDate == end
              && r.value.isActive
              && r.value.shop == input.shop.value
              && (r.value.category.Some? <==> NotBlank(input.category))
              && (r.value.category.Some? ==> r.value.category == input.category)
              && (r.value.terms.Some? <==> NotBlank(input.terms))
              && (r.value.terms.Some? ==> r.value.terms.value == Trim(input.terms.value))
              && (r.value.bannerImage.Some? <==> upload.Uploaded? && upload.url != "")
              && (r.value.bannerImage.Some? ==> r.value.bannerImage.value == upload.url)
  {
    var discountType := ParseDiscountType(input.discountType.value);
    var title := Trim(input.title.value);
    var description := Trim(input.description.value);
    var location := Trim(input.location.value);
    if discountType.None? || title == "" || description == "" || location == "" then
      Err(500, ServerError)
    else
      Ok(Promotion(
        title := title,
        description := description,
        discountType := discountType.value,
        discountValue := value,
        bannerImage := if upload.Uploaded? && upload.url != "" then Some(upload.url) else None,
        location := location,
        startDate := start,
        endDate := end,
        shop := input.shop.value,
        category := if NotBlank(input.category) then input.category else None,
        isActive := true,
        terms := if NotBlank(input.terms) then Some(Trim(input.terms.value)) else None,
        owner := owner))
  }

  /** createPromotion.  401 without a user before anything else; 400 for a missing field, a
      discount that is NaN or not positive, a percentage above 100, an unparsable date, or an
      end not after the start.  A discount type outside the schema enumeration, or a title,
      description or location that trims to nothing, fails schema validation on save (500).
      A failed banner upload is swallowed. */
  function CreatePromotion(caller: Caller, input: PromotionInput, upload: Upload,
                           parseFloat: string -> Option<real>, parseDate: string -> Option<int>): (r: Result<Promotion>)
    ensures caller.userId.None? ==> r == Err(401, UserAuthRequired)
    ensures caller.userId.Some? && !HasRequiredFields(input) ==> r == Err(400, MissingFields)
    ensures caller.userId.Some? && HasRequiredFields(input)
            && (parseFloat(input.discountValue.value).None? || parseFloat(input.discountValue.value).value <= 0.0) ==>
              r == Err(400, NotPositive)
    ensures (&& caller.userId.Some? && HasRequiredFields(input)
             && parseFloat(input.discountValue.value).Some?
             && input.discountType.value == "percentage"
             && parseFloat(input.discountValue.value).value > 100.0) ==>
              r == Err(400, OverHundredPercent)
    ensures (&& caller.userId.Some? && HasRequiredFields(input) && DiscountAccepted(input, parseFloat)
             && (parseDate(input.startDate.value).None? || parseDate(input.endDate.value).None?)) ==>
              r == Err(400, BadDate)
    ensures (&& caller.userId.Some? && HasRequiredFields(input) && DiscountAccepted(input, parseFloat)
             && parseDate(input.startDate.value).Some? && parseDate(input.endDate.value).Some?
             && parseDate(input.endDate.value).value <= parseDate(input.startDate.value).value) ==>
              r == Err(400, EndNotAfterStart)
    ensures (&& caller.userId.Some? && HasRequiredFields(input) && DiscountAccepted(input, parseFloat)
             && WindowAccepted(input, parseDate) && !SchemaAccepts(input)) ==>
              r == Err(500, ServerError)
    ensures r.Ok? <==> && caller.userId.Some? && HasRequiredFields(input) && DiscountAccepted(input, parseFloat)
                       && WindowAccepted(input, parseDate) && SchemaAccepts(input)
    ensures r.Ok? ==>
              && r.value.owner == caller.userId.value
              && r.value.title == Trim(input.title.value)
              && r.value.description == Trim(input.description.value)
              && r.value.location == Trim(input.location.value)
              && Some(r.value.discountType) == ParseDiscountType(input.discountType.value)
              && Some(r.value.discountValue) == parseFloat(input.discountValue.value)
              && Some(r.value.startDate) == parseDate(input.startDate.value)
              && Some(r.value.endDate) == parseDate(input.endDate.value)
              && r.value.isActive
              && r.value.shop == input.shop.value
              && (r.value.category.Some? <==> NotBlank(input.category))
              && (r.value.category.Some? ==> r.value.category == input.category)
              && (r.value.terms.Some? <==> NotBlank(input.terms))
              && (r.value.terms.Some? ==> r.value.terms.value == Trim(input.terms.value))
              && (r.value.bannerImage.Some? <==> upload.Uploaded? && upload.url != "")
              && (r.value.bannerImage.Some? ==> r.value.bannerImage.value == upload.url)
  {
    if caller.userId.None? then
      Err(401, UserAuthRequired)
    else if !HasRequiredFields(input) then
      Err(400, MissingFields)
    else
      var value := parseFloat(input.discountValue.value);
      if value.None? || value.value <= 0.0 then
        Err(400, NotPositive)
      else if input.discountType.value == "percentage" && value.value > 100.0 then
        Err(400, OverHundredPercent)
      else
        var start := parseDate(input.startDate.value);
        var end := parseDate(input.endDate.value);
        if start.None? || end.None? then
          Err(400, BadDate)
        else if end.value <= start.value then
          Err(400, EndNotAfterStart)
        else
          SavePromotion(caller.userId.value, input, value.value, start.value, end.value, upload)
  }

  /** What create stores respects its own rules: a positive discount, at most 100 for a
      percentage, and a window that ends after it starts; and the new promotion is listed as
      active at every instant of that window. */
  lemma {:induction false} CreatedPromotionValid(caller: Caller, input: PromotionInput, upload: Upload,
                                                 parseFloat: string -> Option<real>,
                                                 parseDate: string -> Option<int>,
                                                 others: seq<Promotion>, now: int)
    requires CreatePromotion(caller, input, upload, parseFloat, parseDate).Ok?
    ensures var p := CreatePromotion(caller, input, upload, parseFloat, parseDate).value;
            && p.discountValue > 0.0
            && (p.discountType == Percentage ==> p.discountValue <= 100.0)
            && p.startDate < p.endDate
            && (p.startDate <= now <= p.endDate ==> p in ActivePromotions(others + [p], now))
  {
    var p := CreatePromotion(caller, input, upload, parseFloat, parseDate).value;
    assert DiscountAccepted(input, parseFloat) && WindowAccepted(input, parseDate);
    assert p.discountType == Percentage ==> input.discountType.value == "percentage";
    if p.startDate <= now <= p.endDate {
      assert p in others + [p];
    }
  }

  /** A percentage of exactly 100 passes create's discount checks: the cap is inclusive. */
  lemma HundredPercentAccepted(input: PromotionInput, parseFloat: string -> Option<real>)
    requires HasRequiredFields(input) && input.discountType.value == "percentage"
    requires parseFloat(input.discountValue.value) == Some(100.0)
    ensures DiscountAccepted(input, parseFloat)
  {
  }

  /** What the schema casts of updatePromotion (`runValidators` on `findByIdAndUpdate`) accept
      of the fields a body sends: a required text is not empty, the discount type is in the
      enumeration, and the number and dates cast.  Fields the body leaves out are not cast. */
  predicate SentFieldsCast(input: PromotionInput, castNumber: string -> Option<real>,
                           castDate: string -> Option<int>)
  {
    && input.title != Some("") && input.description != Some("")
    && input.location != Some("") && input.shop != Some("")
    && (input.discountType.Some? ==> ParseDiscountType(input.discountType.value).Some?)
    && (input.discountValue.Some? ==> castNumber(input.discountValue.value).Some?)
    && (input.startDate.Some? ==> castDate(input.startDate.value).Some?)
    && (input.endDate.Some? ==> castDate(input.endDate.value).Some?)
  }

  /** The write of updatePromotion once the gates pass: every field the body sends replaces
      the stored one after its schema cast, every field it leaves out keeps its stored value,
      a file's URL replaces the banner, and a sent field that does not cast is 500. */
  function ApplyUpdate(stored: Promotion, input: PromotionInput, upload: Upload,
                       castNumber: string -> Option<real>, castDate: string -> Option<int>): (r: Result<Promotion>)
    requires !upload.UploadFailed?
    ensures r.Ok? <==> SentFieldsCast(input, castNumber, castDate)
    ensures r.Err? ==> r == Err(500, ServerError)
    ensures r.Ok? ==>
              && r.value.owner == stored.owner
              && (upload.NoFile? ==> r.value.bannerImage == stored.bannerImage)
              && (upload.Uploaded? ==> r.value.bannerImage == Some(upload.url))
              && r.value.title == (if input.title.Some? then input.title.value else stored.title)
              && r.value.description == (if input.description.Some? then input.description.value else stored.description)
              && r.value.location == (if input.location.Some? then input.location.value else stored.location)
              && r.value.shop == (if input.shop.Some? then input.shop.value else stored.shop)
              && (input.discountType.None? ==> r.value.discountType == stored.discountType)
              && (input.discountType.Some? ==> Some(r.value.discountType) == ParseDiscountType(input.discountType.value))
              && (input.discountValue.None? ==> r.value.discountValue == stored.discountValue)
              && (input.discountValue.Some? ==> Some(r.value.discountValue) == castNumber(input.discountValue.value))
              && (input.startDate.None? ==> r.value.startDate == stored.startDate)
              && (input.startDate.Some? ==> Some(r.value.startDate) == castDate(input.startDate.value))
              && (input.endDate.None? ==> r.value.endDate == stored.endDate)
              && (input.endDate.Some? ==> Some(r.value.endDate) == castDate(input.endDate.value))
              && r.value.category == (if input.category.Some? then input.category else stored.category)
              && r.value.isActive == (if input.isActive.Some? then input.isActive.value else stored.isActive)
              && r.value.terms == (if input.terms.Some? then input.terms else stored.terms)
  {
    if !SentFieldsCast(input, castNumber, castDate) then
      Err(500, ServerError)
    else
      Ok(Promotion(
        title := if input.title.Some? then input.title.value else stored.title,
        description := if input.description.Some? then input.description.value else stored.description,
        discountType := if input.discountType.Some? then ParseDiscountType(input.discountType.value).value
                        else stored.discountType,
        discountValue := if input.discountValue.Some? then castNumber(input.discountValue.value).value
                         else stored.discountValue,
        bannerImage := if upload.Uploaded? then Some(upload.url) else stored.bannerImage,
        location := if input.location.Some? then input.location.value else stored.location,
        startDate := if input.startDate.Some? then castDate(input.startDate.value).value else stored.startDate,
        endDate := if input.endDate.Some? then castDate(input.endDate.value).value else stored.endDate,
        shop := if input.shop.Some? then input.shop.value else stored.shop,
        category := if input.category.Some? then input.category else stored.category,
        isActive := if input.isActive.Some? then input.isActive.value else stored.isActive,
        terms := if input.terms.Some? then input.terms else stored.terms,
        owner := stored.owner))
  }

  /** updatePromotion.  404 for an unknown id, 403 unless admin or owner; an upload that
      throws reaches the catch-all (500).  Then the write: the sent fields are stored as sent,
      cast by the schema.  `castNumber` and `castDate` are Mongoose's Number and Date casts,
      not create's `parseFloat` ("12abc" casts to nothing).  None of create's discount or
      date rules is applied again. */
  function UpdatePromotion(caller: Caller, promotions: map<Id, Promotion>, id: Id, input: PromotionInput,
                           upload: Upload, castNumber: string -> Option<real>,
                           castDate: string -> Option<int>): (r: Result<Promotion>)
    ensures id !in promotions ==> r == Err(404, PromotionNotFound)
    ensures id in promotions && !OwnerOrAdmin(caller, promotions[id].owner) ==> r == Err(403, NotYourPromotion)
    ensures id in promotions && OwnerOrAdmin(caller, promotions[id].owner) && upload.UploadFailed? ==>
              r == Err(500, ServerError)
    ensures (&& id in promotions && OwnerOrAdmin(caller, promotions[id].owner)
             && !SentFieldsCast(input, castNumber, castDate)) ==> r == Err(500, ServerError)
    ensures r.Ok? <==> && id in promotions && OwnerOrAdmin(caller, promotions[id].owner)
                       && !upload.UploadFailed? && SentFieldsCast(input, castNumber, castDate)
    ensures (&& id in promotions && OwnerOrAdmin(caller, promotions[id].owner) && !upload.UploadFailed?) ==>
              r == ApplyUpdate(promotions[id], input, upload, castNumber, castDate)
  {
    if id !in promotions then
      Err(404, PromotionNotFound)
    else
      var stored := promotions[id];
      if !OwnerOrAdmin(caller, stored.owner) then
        Err(403, NotYourPromotion)
      else if upload.UploadFailed? then
        Err(500, ServerError)
      else
        ApplyUpdate(stored, input, upload, castNumber, castDate)
  }

  /** An update by the owner or an admin that sends no field and no file succeeds and leaves
      the promotion as it was. */
  lemma EmptyUpdateKeepsPromotion(caller: Caller, promotions: map<Id, Promotion>, id: Id,
                                  castNumber: string -> Option<real>, castDate: string -> Option<int>)
    requires id in promotions && OwnerOrAdmin(caller, promotions[id].owner)
    ensures UpdatePromotion(caller, promotions, id,
                            PromotionInput(None, None, None, None, None, None, None, None, None, None, None),
                            NoFile, castNumber, castDate) == Ok(promotions[id])
  {
  }

  /** The update path does not re-check the window: an owner can move the end date before
      the start date, and set a percentage above 100, on a promotion create had accepted. */
  lemma UpdateSkipsCreateRules(caller: Caller, stored: Promotion, id: Id, castNumber: string -> Option<real>,
                               castDate: string -> Option<int>)
    requires caller.userId == Some(stored.owner)
    requires stored.startDate < stored.endDate && stored.discountType == Percentage
    requires castDate("yesterday") == Some(stored.startDate - 1)
    requires castNumber("500") == Some(500.0)
    ensures var r := UpdatePromotion(caller, map[id := stored], id,
                                     PromotionInput(None, None, None, Some("500"), None, None, Some("yesterday"),
                                                    None, None, None, None),
                                     NoFile, castNumber, castDate);
            r.Ok? && r.value.endDate < r.value.startDate && r.value.discountValue > 100.0
            && r.value.discountType == Percentage
  {
  }
}
