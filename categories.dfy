/** Category handlers (categoryController.ts over the Category schema): an authenticated
    caller creates, updates or deletes; the name must not be blank, is stored trimmed and is
    unique; a failed image upload is tolerated. */
module Categories {
  import opened Common

  datatype Category = Category(name: string, description: string, image: Option<string>)

  /** Some category other than `except` already carries `name` (the unique index). */
  predicate NameTaken(categories: map<Id, Category>, name: string, except: Option<Id>) {
    exists k :: k in categories && Some(k) != except && categories[k].name == name
  }

  ghost predicate UniqueNames(categories: map<Id, Category>) {
    forall a, b :: a in categories && b in categories && a != b ==> categories[a].name != categories[b].name
  }

  /** createCategory: 401 without a user, 400 for a missing or blank name, 400 when the
      trimmed name is taken; otherwise the trimmed name, the trimmed description or empty,
      and the image of a successful upload. */
  function CreateCategory(caller: Caller, categories: map<Id, Category>, name: Option<string>,
                          description: Option<string>, upload: Upload): (r: Result<Category>)
    ensures caller.userId.None? ==> r == Err(401, "User authentication required")
    ensures caller.userId.Some? && !NotBlank(name) ==> r == Err(400, "Category name is required")
    ensures caller.userId.Some? && NotBlank(name) && NameTaken(categories, Trim(name.value), None) ==>
              r == Err(400, "Category name already exists")
    ensures r.Ok? <==> caller.userId.Some? && NotBlank(name) && !NameTaken(categories, Trim(name.value), None)
    ensures r.Ok? ==> && r.value.name == Trim(name.value) && r.value.name != ""
                      && r.value.description == TrimmedOrEmpty(description)
                      && (r.value.image.Some? <==> upload.Uploaded? && upload.url != "")
                      && (r.value.image.Some? ==> r.value.image.value == upload.url)
  {
    if caller.userId.None? then
      Err(401, "User authentication required")
    else if !NotBlank(name) then
      Err(400, "Category name is required")
    else
      var trimmed := Trim(name.value);
      if NameTaken(categories, trimmed, None) then
        Err(400, "Category name already exists")
      else
        Ok(Category(trimmed, TrimmedOrEmpty(description),
                    if upload.Uploaded? && upload.url != "" then Some(upload.url) else None))
  }

  /** updateCategory: 401, 404, then the blank-name check; the image becomes a successfully
      uploaded URL or stays; a name another category carries is 400. */
  function UpdateCategory(caller: Caller, categories: map<Id, Category>, id: Id, name: Option<string>,
                          description: Option<string>, upload: Upload): (r: Result<Category>)
    ensures caller.userId.None? ==> r == Err(401, "User authentication required")
    ensures caller.userId.Some? && id !in categories ==> r == Err(404, "Category not found")
    ensures caller.userId.Some? && id in categories && !NotBlank(name) ==> r == Err(400, "Category name is required")
    ensures caller.userId.Some? && id in categories && NotBlank(name) && NameTaken(categories, Trim(name.value), Some(id)) ==>
              r == Err(400, "Category name already exists")
    ensures r.Ok? <==> caller.userId.Some? && id in categories && NotBlank(name)
                       && !NameTaken(categories, Trim(name.value), Some(id))
    ensures r.Ok? ==> && r.value.name == Trim(name.value)
                      && r.value.description == TrimmedOrEmpty(description)
                      && (upload.Uploaded? && upload.url != "" ==> r.value.image == Some(upload.url))
                      && (!(upload.Uploaded? && upload.url != "") ==> r.value.image == categories[id].image)
  {
    if caller.userId.None? then
      Err(401, "User authentication required")
    else if id !in categories then
      Err(404, "Category not found")
    else if !NotBlank(name) then
      Err(400, "Category name is required")
    else
      var trimmed := Trim(name.value);
      if NameTaken(categories, trimmed, Some(id)) then
        Err(400, "Category name already exists")
      else
        Ok(Category(trimmed, TrimmedOrEmpty(description),
                    if upload.Uploaded? && upload.url != "" then Some(upload.url) else categories[id].image))
  }

  /** Every stored name is non-blank and trimmed, and names stay unique, across create and
      update. */
  lemma WritesKeepNamesUnique(caller: Caller, categories: map<Id, Category>, id: Id, name: Option<string>,
                              description: Option<string>, upload: Upload)
    requires UniqueNames(categories)
    ensures id !in categories && CreateCategory(caller, categories, name, description, upload).Ok? ==>
              UniqueNames(categories[id := CreateCategory(caller, categories, name, description, upload).value])
    ensures UpdateCategory(caller, categories, id, name, description, upload).Ok? ==>
              UniqueNames(categories[id := UpdateCategory(caller, categories, id, name, description, upload).value])
  {
  }

  /** A stored name is its own trim, so a second update with the same name is accepted
      unchanged. */
  lemma StoredNameIsTrimmed(caller: Caller, categories: map<Id, Category>, name: Option<string>,
                            description: Option<string>, upload: Upload)
    requires CreateCategory(caller, categories, name, description, upload).Ok?
    ensures var c := CreateCategory(caller, categories, name, description, upload).value;
            Trim(c.name) == c.name && c.name != ""
  {
    TrimIdempotent(name.value);
  }

  /** deleteCategory: 401 without a user, 404 for an unknown id; otherwise that category
      alone is removed.  No ownership or role check. */
  function DeleteCategory(caller: Caller, categories: map<Id, Category>, id: Id): (r: Result<map<Id, Category>>)
    ensures caller.userId.None? ==> r == Err(401, "User authentication required")
    ensures caller.userId.Some? && id !in categories ==> r == Err(404, "Category not found")
    ensures r.Ok? <==> caller.userId.Some? && id in categories
    ensures r.Ok? ==> r.value.Keys == categories.Keys - {id}
                      && forall k :: k in r.value ==> r.value[k] == categories[k]
  {
    if caller.userId.None? then Err(401, "User authentication required")
    else if id !in categories then Err(404, "Category not found")
    else Ok(categories - {id})
  }
}
