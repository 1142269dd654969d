/** Shared vocabulary of the backend model: optional values, handler outcomes
    (an HTTP status code with its JSON message), roles, the request context the
    authentication middleware leaves behind, upload outcomes, and the JavaScript
    string primitives the handlers rely on (truthiness and `String.prototype.trim`). */
module Common {

  datatype Option<+T> = None | Some(value: T)

  /** A handler either answers with a value (2xx) or with `res.status(code).json({message})`. */
  datatype Result<+T> = Ok(value: T) | Err(code: int, message: string)

  /** Database identifiers (ObjectIds compared through `toString()`) */
  type Id = string

  /** The stored role of a user */
  datatype Role = Admin | BusinessOwner | Customer

  /** `req.userId` and `req.userRole` as the authentication middleware leaves them;
      `None` stands for `null`/`undefined`. */
  datatype Caller = Caller(userId: Option<Id>, userRole: Option<Role>)

  /** What came of the multipart image field: no file, an upload that returned a URL,
      or an upload that threw. */
  datatype Upload = NoFile | Uploaded(url: string) | UploadFailed

  /** JavaScript truthiness of an optional string field of a request body:
      `undefined` and `""` are falsy. */
  predicate Truthy(o: Option<string>) {
    o.Some? && o.value != ""
  }

  /** JavaScript truthiness of a string (an upload URL, an image field). */
  predicate NonEmpty(s: string) {
    s != ""
  }

  /** The characters matched by `\s` and removed by `trim()`: the ECMAScript
      WhiteSpace and LineTerminator code points. */
  predicate IsWhitespace(c: char) {
    var n := c as int;
    n == 0x09 || n == 0x0A || n == 0x0B || n == 0x0C || n == 0x0D || n == 0x20
    || n == 0xA0 || n == 0x1680 || (0x2000 <= n <= 0x200A)
    || n == 0x2028 || n == 0x2029 || n == 0x202F || n == 0x205F || n == 0x3000 || n == 0xFEFF
  }

  ghost predicate AllWhitespace(s: string) {
    forall i :: 0 <= i < |s| ==> IsWhitespace(s[i])
  }

  /** Drops the leading whitespace. */
  function TrimStart(s: string): (r: string)
    ensures |r| <= |s| && r == s[|s| - |r|..]
    ensures r == [] || !IsWhitespace(r[0])
    ensures AllWhitespace(s[..|s| - |r|])
  {
    if |s| > 0 && IsWhitespace(s[0]) then
      var r := TrimStart(s[1..]);
      SuffixSlices(s, 1, |s| - 1 - |r|);
      WhitespaceRunPrepend(s, |s| - |r|);
      r
    else s
  }

  /** Drops the trailing whitespace. */
  function TrimEnd(s: string): (r: string)
    ensures |r| <= |s| && r == s[..|r|]
    ensures r == [] || !IsWhitespace(r[|r| - 1])
    ensures AllWhitespace(s[|r|..])
  {
    if |s| > 0 && IsWhitespace(s[|s| - 1]) then
      var r := TrimEnd(s[..|s| - 1]);
      PrefixSlices(s, |r|, |s| - 1);
      WhitespaceRunAppend(s, |r|);
      r
    else s
  }

  /** Slicing the suffix `s[i..]` at `n` slices `s` at `i + n`. */
  lemma SuffixSlices(s: string, i: nat, n: nat)
    requires i + n <= |s|
    ensures s[i..][..n] == s[i..i + n] && s[i..][n..] == s[i + n..]
  {
  }

  /** Slicing the prefix `s[..m]` at `n` slices `s` at `n`. */
  lemma PrefixSlices(s: string, n: nat, m: nat)
    requires n <= m <= |s|
    ensures s[..m][..n] == s[..n] && s[..m][n..] == s[n..m]
  {
  }

  /** A whitespace run after a whitespace first character extends to the start. */
  lemma WhitespaceRunPrepend(s: string, hi: nat)
    requires 1 <= hi <= |s| && IsWhitespace(s[0]) && AllWhitespace(s[1..hi])
    ensures AllWhitespace(s[..hi])
  {
    forall k | 0 < k < hi ensures IsWhitespace(s[..hi][k]) {
      assert s[..hi][k] == s[1..hi][k - 1];
    }
  }

  /** A whitespace run before a whitespace last character extends to the end. */
  lemma WhitespaceRunAppend(s: string, lo: nat)
    requires lo < |s| && IsWhitespace(s[|s| - 1]) && AllWhitespace(s[lo..|s| - 1])
    ensures AllWhitespace(s[lo..])
  {
    forall k | 0 <= k < |s| - 1 - lo ensures IsWhitespace(s[lo..][k]) {
      assert s[lo..][k] == s[lo..|s| - 1][k];
    }
  }

  /** Where the text left by `s.trim()` starts in `s`: after the leading whitespace. */
  function TrimOffset(s: string): (i: nat)
    ensures i <= |s|
  {
    |s| - |TrimStart(s)|
  }

  /** `s.trim()`: the infix of `s` that starts at `TrimOffset(s)` with only whitespace
      before and after it, and nothing at either of its ends is whitespace. */
  function Trim(s: string): (r: string)
    ensures TrimOffset(s) + |r| <= |s| && r == s[TrimOffset(s)..TrimOffset(s) + |r|]
    ensures AllWhitespace(s[..TrimOffset(s)]) && AllWhitespace(s[TrimOffset(s) + |r|..])
    ensures r == [] || (!IsWhitespace(r[0]) && !IsWhitespace(r[|r| - 1]))
  {
    var a := TrimStart(s);
    var r := TrimEnd(a);
    SuffixSlices(s, |s| - |a|, |r|);
    r
  }

  /** A string is blank after trimming exactly when it is all whitespace. */
  lemma {:induction false} TrimEmptyIffBlank(s: string)
    ensures Trim(s) == [] <==> AllWhitespace(s)
  {
    var r := Trim(s);
    var i := TrimOffset(s);
    if r == [] {
      var a := TrimStart(s);
      assert a[|r|..] == a;
      assert s[..i] == s;
    } else {
      assert r[0] == s[i];
    }
  }

  /** Trimming twice is trimming once. */
  lemma TrimIdempotent(s: string)
    ensures Trim(Trim(s)) == Trim(s)
  {
    var r := Trim(s);
    TrimNoOp(r);
  }

  /** A string with no whitespace at either end is its own trim. */
  lemma TrimNoOp(r: string)
    requires r == [] || (!IsWhitespace(r[0]) && !IsWhitespace(r[|r| - 1]))
    ensures Trim(r) == r
  {
    assert TrimStart(r) == r;
  }

  /** `s.indexOf(c)`, with `|s|` standing for -1: the first position holding `c`. */
  function IndexOfChar(s: string, c: char): (r: nat)
    ensures r <= |s|
    ensures r < |s| ==> s[r] == c
    ensures forall k :: 0 <= k < r ==> s[k] != c
  {
    if s == [] then 0 else if s[0] == c then 0 else 1 + IndexOfChar(s[1..], c)
  }

  /** `x && x.trim()` on an optional body field: present and not blank. */
  predicate NotBlank(o: Option<string>) {
    o.Some? && Trim(o.value) != ""
  }

  /** `x?.trim() || ''`: the trimmed field, or the empty string when absent.  What it gives
      has nothing for `trim()` to remove, and is empty exactly when the field is absent or
      blank. */
  function TrimmedOrEmpty(o: Option<string>): (r: string)
    ensures o.Some? ==> r == Trim(o.value)
    ensures Trim(r) == r
    ensures r == "" <==> !NotBlank(o)
  {
    if o.Some? then TrimIdempotent(o.value); Trim(o.value) else ""
  }

  /** The ownership gate shared by the update and delete handlers:
      `userRole !== 'admin' && owner.toString() !== userId` answers 403. */
  predicate OwnerOrAdmin(caller: Caller, owner: Id) {
    caller.userRole == Some(Admin) || caller.userId == Some(owner)
  }

  /** Admins pass every ownership gate, the recorded owner passes its own, and
      nobody else passes. */
  lemma OwnerOrAdminCharacterization(caller: Caller, owner: Id)
    ensures caller.userRole == Some(Admin) ==> OwnerOrAdmin(caller, owner)
    ensures caller.userId == Some(owner) ==> OwnerOrAdmin(caller, owner)
    ensures caller.userRole != Some(Admin) && caller.userId != Some(owner) ==> !OwnerOrAdmin(caller, owner)
    ensures caller.userId.None? && caller.userRole != Some(Admin) ==> !OwnerOrAdmin(caller, owner)
  {
  }

  /** The role test of the `.../my` listing handlers:
      `userRole !== 'business_owner' && userRole !== 'admin'` answers 403. */
  predicate ManagerRole(role: Option<Role>) {
    role == Some(BusinessOwner) || role == Some(Admin)
  }

  /** Messages several handlers answer with. */
  const ServerError := "Server error"
  const UserAuthRequired := "User authentication required"
  const AuthRequired := "Authentication required"
  const AccessDenied := "Access denied"

  // ---------------------------------------------------------------------------
  // The handler shapes several collections share; `notFound` and `forbidden` are the
  // messages each handler answers with, `owner` reads the document's owner field.

  /** `findById(id)` answered with 404 when no document has that id. */
  function FindById<T>(docs: map<Id, T>, id: Id, notFound: string): (r: Result<T>)
    ensures r.Ok? <==> id in docs
    ensures r.Ok? ==> r.value == docs[id]
    ensures r.Err? ==> r == Err(404, notFound)
  {
    if id in docs then Ok(docs[id]) else Err(404, notFound)
  }

  /** The delete handlers without an authentication check of their own: 404 for an unknown
      id, then 403 unless the caller owns the document or is an admin; otherwise that
      document alone is removed. */
  function DeleteOwned<T>(caller: Caller, docs: map<Id, T>, id: Id, owner: T -> Id,
                          notFound: string, forbidden: string): (r: Result<map<Id, T>>)
    ensures id !in docs ==> r == Err(404, notFound)
    ensures id in docs && !OwnerOrAdmin(caller, owner(docs[id])) ==> r == Err(403, forbidden)
    ensures r.Ok? <==> id in docs && OwnerOrAdmin(caller, owner(docs[id]))
    ensures r.Ok? ==> r.value.Keys == docs.Keys - {id} && forall k :: k in r.value ==> r.value[k] == docs[k]
  {
    if id !in docs then Err(404, notFound)
    else if !OwnerOrAdmin(caller, owner(docs[id])) then Err(403, forbidden)
    else Ok(docs - {id})
  }

  /** The `.../my` listings: 401 without a user, 403 unless business owner or admin,
      otherwise exactly the documents the caller owns. */
  function ListOwned<T>(caller: Caller, docs: map<Id, T>, owner: T -> Id): (r: Result<map<Id, T>>)
    ensures caller.userId.None? ==> r == Err(401, AuthRequired)
    ensures caller.userId.Some? && !ManagerRole(caller.userRole) ==> r == Err(403, AccessDenied)
    ensures r.Ok? <==> caller.userId.Some? && ManagerRole(caller.userRole)
    ensures r.Ok? ==> forall k :: k in r.value <==> k in docs && owner(docs[k]) == caller.userId.value
    ensures r.Ok? ==> forall k :: k in r.value ==> r.value[k] == docs[k]
  {
    if caller.userId.None? then Err(401, AuthRequired)
    else if !ManagerRole(caller.userRole) then Err(403, AccessDenied)
    else Ok(map k | k in docs && owner(docs[k]) == caller.userId.value :: docs[k])
  }
}
