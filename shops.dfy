/** Shop handlers of the storefront service (shopController.ts over its Shop schema, which
    has no owner field): required-field and e-mail checks, a banner upload whose failure is
    tolerated, trimming, the unique shop name, and the listing of the shops whose contact
    e-mail is the caller's. */
module Shops {
  import opened Common

  /** The messages these handlers answer with. */
  const BadEmail := "Invalid email format"
  const MissingFields := "Name, location, telephone, and email are required"
  const NameExists := "Shop name already exists"
  const ShopNotFound := "Shop not found"
  const UserNotFound := "User not found"

  datatype Shop = Shop(
    name: string,
    description: string,
    location: string,
    telephone: string,
    email: string,
    image: Option<string>)

  datatype ShopInput = ShopInput(
    name: Option<string>,
    description: Option<string>,
    location: Option<string>,
    telephone: Option<string>,
    email: Option<string>)

  /** `!name || !location || !telephone || !email` is false. */
  predicate HasRequiredFields(input: ShopInput) {
    Truthy(input.name) && Truthy(input.location) && Truthy(input.telephone) && Truthy(input.email)
  }

  /** One character of the class `[^\s@]`. */
  predicate Plain(c: char) {
    c != '@' && !IsWhitespace(c)
  }

  ghost predicate PlainRun(t: string) {
    forall k :: 0 <= k < |t| ==> Plain(t[k])
  }

  /** The language of `/^[^\s@]+@[^\s@]+\.[^\s@]+$/`, segment by segment: a non-empty plain
      run, `@`, a non-empty plain run, a dot, and a non-empty plain run. */
  ghost predicate MatchesEmailPattern(s: string) {
    exists i, j :: 0 < i && i + 1 < j && j + 1 < |s|
                   && s[i] == '@' && s[j] == '.'
                   && PlainRun(s[..i]) && PlainRun(s[i + 1..j]) && PlainRun(s[j + 1..])
  }

  /** The regular expression test, decided directly: no whitespace anywhere, exactly one `@`
      with something before it, and a dot strictly inside the part after it. */
  predicate ValidEmail(s: string) {
    var at := IndexOfChar(s, '@');
    && (forall k :: 0 <= k < |s| ==> !IsWhitespace(s[k]))
    && 0 < at < |s|
    && (forall k :: at < k < |s| ==> s[k] != '@')
    && (exists j :: at + 1 < j < |s| - 1 && s[j] == '.')
  }

  /** The direct test accepts exactly the strings the pattern matches. */
  lemma ValidEmailMatchesPattern(s: string)
    ensures ValidEmail(s) <==> MatchesEmailPattern(s)
  {
    if ValidEmail(s) { ValidEmailIsPattern(s); }
    if MatchesEmailPattern(s) { PatternIsValidEmail(s); }
  }

  lemma ValidEmailIsPattern(s: string)
    requires ValidEmail(s)
    ensures MatchesEmailPattern(s)
  {
    var at := IndexOfChar(s, '@');
    var j :| at + 1 < j < |s| - 1 && s[j] == '.';
    var local, domain, suffix := s[..at], s[at + 1..j], s[j + 1..];
    forall k | 0 <= k < |local| ensures Plain(local[k]) { assert local[k] == s[k]; }
    forall k | 0 <= k < |domain| ensures Plain(domain[k]) { assert domain[k] == s[at + 1 + k]; }
    forall k | 0 <= k < |suffix| ensures Plain(suffix[k]) { assert suffix[k] == s[j + 1 + k]; }
    assert PlainRun(local) && PlainRun(domain) && PlainRun(suffix);
  }

  lemma PatternIsValidEmail(s: string)
    requires MatchesEmailPattern(s)
    ensures ValidEmail(s)
  {
    var i, j :| 0 < i && i + 1 < j && j + 1 < |s| && s[i] == '@' && s[j] == '.'
                && PlainRun(s[..i]) && PlainRun(s[i + 1..j]) && PlainRun(s[j + 1..]);
    var local, domain, suffix := s[..i], s[i + 1..j], s[j + 1..];
    forall k | 0 <= k < |s| && k != i ensures Plain(s[k]) {
      if k < i { assert local[k] == s[k]; }
      else if k < j { assert domain[k - i - 1] == s[k]; }
      else if k > j { assert suffix[k - j - 1] == s[k]; }
    }
    assert IndexOfChar(s, '@') == i;
  }

  /** An address that passes the test has nothing for `trim()` to remove, so the stored
      e-mail is the one that was checked. */
  lemma ValidEmailTrimmed(s: string)
    requires ValidEmail(s)
    ensures Trim(s) == s
  {
    TrimNoOp(s);
  }

  /** Some other shop than `except` already carries `name` (the unique index on name). */
  predicate NameTaken(shops: map<Id, Shop>, name: string, except: Option<Id>) {
    exists k :: k in shops && Some(k) != except && shops[k].name == name
  }

  /** The invariant the unique index keeps: no two shops share a name. */
  ghost predicate UniqueNames(shops: map<Id, Shop>) {
    forall a, b :: a in shops && b in shops && a != b ==> shops[a].name != shops[b].name
  }

  /** The record of create and update: every field trimmed, a missing description stored as
      empty.  `None` when a required field trims to nothing (schema `required`, 500). */
  function Normalize(input: ShopInput, image: Option<string>): (r: Option<Shop>)
    requires HasRequiredFields(input)
    ensures r.Some? <==> NotBlank(input.name) && NotBlank(input.location) && NotBlank(input.telephone)
                         && NotBlank(input.email)
    ensures r.Some? ==> && r.value.name == Trim(input.name.value)
                        && r.value.location == Trim(input.location.value)
                        && r.value.telephone == Trim(input.telephone.value)
                        && r.value.email == Trim(input.email.value)
                        && r.value.description == TrimmedOrEmpty(input.description)
                        && r.value.image == image
  {
    var shop := Shop(Trim(input.name.value), TrimmedOrEmpty(input.description), Trim(input.location.value),
                     Trim(input.telephone.value), Trim(input.email.value), image);
    if shop.name == "" || shop.location == "" || shop.telephone == "" || shop.email == "" then None
    else Some(shop)
  }

  /** The required texts of a body that passed the field and e-mail checks still hold
      something once trimmed (the e-mail always does). */
  predicate FilledAfterTrim(input: ShopInput)
    requires HasRequiredFields(input)
  {
    NotBlank(input.name) && NotBlank(input.location) && NotBlank(input.telephone)
  }

  /** createShop.  No authentication is read.  400 for a missing field, then 400 when the
      e-mail fails the pattern; a failed upload is swallowed; 500 when a required field is
      blank after trimming; 400 when another shop already has the trimmed name. */
  function CreateShop(shops: map<Id, Shop>, input: ShopInput, upload: Upload): (r: Result<Shop>)
    ensures !HasRequiredFields(input) ==> r == Err(400, MissingFields)
    ensures HasRequiredFields(input) && !MatchesEmailPattern(input.email.value) ==> r == Err(400, BadEmail)
    ensures (&& HasRequiredFields(input) && MatchesEmailPattern(input.email.value)
             && !FilledAfterTrim(input)) ==> r == Err(500, ServerError)
    ensures (&& HasRequiredFields(input) && MatchesEmailPattern(input.email.value) && FilledAfterTrim(input)
             && NameTaken(shops, Trim(input.name.value), None)) ==> r == Err(400, NameExists)
    ensures r.Ok? <==> && HasRequiredFields(input) && MatchesEmailPattern(input.email.value)
                       && FilledAfterTrim(input) && !NameTaken(shops, Trim(input.name.value), None)
    ensures r.Ok? ==> && r.value.name == Trim(input.name.value)
                      && r.value.location == Trim(input.location.value)
                      && r.value.telephone == Trim(input.telephone.value)
                      && r.value.email == input.email.value
                      && r.value.description == TrimmedOrEmpty(input.description)
                      && (r.value.image.Some? <==> upload.Uploaded? && upload.url != "")
                      && (r.value.image.Some? ==> r.value.image.value == upload.url)
  {
    if !HasRequiredFields(input) then
      Err(400, MissingFields)
    else
      ValidEmailMatchesPattern(input.email.value);
      if !ValidEmail(input.email.value) then
        Err(400, BadEmail)
      else
        ValidEmailTrimmed(input.email.value);
        var image := if upload.Uploaded? && upload.url != "" then Some(upload.url) else None;
        match Normalize(input, image)
        case None => Err(500, ServerError)
        case Some(shop) =>
          if NameTaken(shops, shop.name, None) then Err(400, NameExists) else Ok(shop)
  }

  /** updateShop.  401 without a user, 404 for an unknown id, then create's field and e-mail
      checks.  Any user may update any shop.  The image becomes a successfully uploaded URL;
      without a file, or when the upload fails, the stored image stays. */
  function UpdateShop(caller: Caller, shops: map<Id, Shop>, id: Id, input: ShopInput, upload: Upload): (r: Result<Shop>)
    ensures caller.userId.None? ==> r == Err(401, UserAuthRequired)
    ensures caller.userId.Some? && id !in shops ==> r == Err(404, ShopNotFound)
    ensures caller.userId.Some? && id in shops && !HasRequiredFields(input) ==> r == Err(400, MissingFields)
    ensures caller.userId.Some? && id in shops && HasRequiredFields(input) && !MatchesEmailPattern(input.email.value) ==>
              r == Err(400, BadEmail)
    ensures (&& caller.userId.Some? && id in shops && HasRequiredFields(input)
             && MatchesEmailPattern(input.email.value) && !FilledAfterTrim(input)) ==> r == Err(500, ServerError)
    ensures (&& caller.userId.Some? && id in shops && HasRequiredFields(input)
             && MatchesEmailPattern(input.email.value) && FilledAfterTrim(input)
             && NameTaken(shops, Trim(input.name.value), Some(id))) ==> r == Err(400, NameExists)
    ensures r.Ok? <==> && caller.userId.Some? && id in shops && HasRequiredFields(input)
                       && MatchesEmailPattern(input.email.value) && FilledAfterTrim(input)
                       && !NameTaken(shops, Trim(input.name.value), Some(id))
    ensures r.Ok? ==> && r.value.name == Trim(input.name.value)
                      && r.value.location == Trim(input.location.value)
                      && r.value.telephone == Trim(input.telephone.value)
                      && r.value.email == input.email.value
                      && r.value.description == TrimmedOrEmpty(input.description)
                      && (upload.Uploaded? && upload.url != "" ==> r.value.image == Some(upload.url))
                      && (!(upload.Uploaded? && upload.url != "") ==> r.value.image == shops[id].image)
  {
    if caller.userId.None? then
      Err(401, UserAuthRequired)
    else if id !in shops then
      Err(404, ShopNotFound)
    else if !HasRequiredFields(input) then
      Err(400, MissingFields)
    else
      ValidEmailMatchesPattern(input.email.value);
      if !ValidEmail(input.email.value) then
        Err(400, BadEmail)
      else
        ValidEmailTrimmed(input.email.value);
        var image := if upload.Uploaded? && upload.url != "" then Some(upload.url) else shops[id].image;
        match Normalize(input, image)
        case None => Err(500, ServerError)
        case Some(shop) =>
          if NameTaken(shops, shop.name, Some(id)) then Err(400, NameExists) else Ok(shop)
  }

  /** Storing what create returns under a fresh id, or what update returns under its id,
      keeps shop names unique. */
  lemma WritesKeepNamesUnique(shops: map<Id, Shop>, input: ShopInput, upload: Upload, caller: Caller, id: Id)
    requires UniqueNames(shops)
    ensures id !in shops && CreateShop(shops, input, upload).Ok? ==>
              UniqueNames(shops[id := CreateShop(shops, input, upload).value])
    ensures UpdateShop(caller, shops, id, input, upload).Ok? ==>
              UniqueNames(shops[id := UpdateShop(caller, shops, id, input, upload).value])
  {
  }

  /** The shape of every record create and update store: trimmed, non-empty required texts,
      a trimmed description and an e-mail that passes the pattern. */
  ghost predicate Normalized(shop: Shop) {
    && shop.name != "" && Trim(shop.name) == shop.name
    && shop.location != "" && Trim(shop.location) == shop.location
    && shop.telephone != "" && Trim(shop.telephone) == shop.telephone
    && Trim(shop.description) == shop.description
    && MatchesEmailPattern(shop.email)
  }

  /** Create and update only ever store normalized records. */
  lemma WritesAreNormalized(shops: map<Id, Shop>, input: ShopInput, upload: Upload, caller: Caller, id: Id)
    ensures CreateShop(shops, input, upload).Ok? ==> Normalized(CreateShop(shops, input, upload).value)
    ensures UpdateShop(caller, shops, id, input, upload).Ok? ==>
              Normalized(UpdateShop(caller, shops, id, input, upload).value)
  {
    var c := CreateShop(shops, input, upload);
    if c.Ok? { NormalizedFromInput(input, c.value); }
    var u := UpdateShop(caller, shops, id, input, upload);
    if u.Ok? { NormalizedFromInput(input, u.value); }
  }

  /** A record whose texts are the trimmed fields of a body that passed the checks is
      normalized. */
  lemma NormalizedFromInput(input: ShopInput, shop: Shop)
    requires HasRequiredFields(input) && MatchesEmailPattern(input.email.value) && FilledAfterTrim(input)
    requires && shop.name == Trim(input.name.value) && shop.location == Trim(input.location.value)
             && shop.telephone == Trim(input.telephone.value) && shop.email == input.email.value
             && shop.description == TrimmedOrEmpty(input.description)
    ensures Normalized(shop)
  {
    TrimIdempotent(input.name.value);
    TrimIdempotent(input.location.value);
    TrimIdempotent(input.telephone.value);
    if input.description.Some? { TrimIdempotent(input.description.value); }
  }

  /** Sending a stored shop's own fields back, without a file, succeeds and changes nothing:
      update is the identity on what it stores. */
  lemma ResubmitKeepsShop(caller: Caller, shops: map<Id, Shop>, id: Id)
    requires caller.userId.Some? && id in shops && UniqueNames(shops) && Normalized(shops[id])
    ensures var s := shops[id];
            UpdateShop(caller, shops, id,
                       ShopInput(Some(s.name), Some(s.description), Some(s.location), Some(s.telephone), Some(s.email)),
                       NoFile) == Ok(s)
  {
    var s := shops[id];
    var input := ShopInput(Some(s.name), Some(s.description), Some(s.location), Some(s.telephone), Some(s.email));
    assert s.email != "" by { PatternNonEmpty(s.email); }
    assert HasRequiredFields(input);
    assert FilledAfterTrim(input);
    assert !NameTaken(shops, s.name, Some(id));
    var r := UpdateShop(caller, shops, id, input, NoFile);
    assert r.Ok?;
    assert r.value == s;
  }

  /** Every address the pattern matches has at least five characters. */
  lemma PatternNonEmpty(s: string)
    requires MatchesEmailPattern(s)
    ensures s != ""
  {
  }

  /** deleteShop: no authentication is read; 404 for an unknown id, otherwise that shop alone
      is removed. */
  function DeleteShop(shops: map<Id, Shop>, id: Id): (r: Result<map<Id, Shop>>)
    ensures r.Ok? <==> id in shops
    ensures r.Err? ==> r == Err(404, ShopNotFound)
    ensures r.Ok? ==> r.value.Keys == shops.Keys - {id} && forall k :: k in r.value ==> r.value[k] == shops[k]
  {
    if id in shops then Ok(shops - {id}) else Err(404, ShopNotFound)
  }

  /** getMyShops: 401 without a user, 403 unless business owner or admin, 401 when the user
      record is gone; otherwise the shops whose e-mail is the user's (`users` maps a user id
      to its e-mail). */
  function GetMyShops(caller: Caller, users: map<Id, string>, shops: map<Id, Shop>): (r: Result<map<Id, Shop>>)
    ensures caller.userId.None? ==> r == Err(401, AuthRequired)
    ensures caller.userId.Some? && !ManagerRole(caller.userRole) ==> r == Err(403, AccessDenied)
    ensures caller.userId.Some? && ManagerRole(caller.userRole) && caller.userId.value !in users ==>
              r == Err(401, UserNotFound)
    ensures r.Ok? <==> caller.userId.Some? && ManagerRole(caller.userRole) && caller.userId.value in users
    ensures r.Ok? ==> forall k :: k in r.value <==> k in shops && shops[k].email == users[caller.userId.value]
    ensures r.Ok? ==> forall k :: k in r.value ==> r.value[k] == shops[k]
  {
    if caller.userId.None? then Err(401, AuthRequired)
    else if !ManagerRole(caller.userRole) then Err(403, AccessDenied)
    else if caller.userId.value !in users then Err(401, UserNotFound)
    else
      var email := users[caller.userId.value];
      Ok(map k | k in shops && shops[k].email == email :: shops[k])
  }
}
