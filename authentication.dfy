/** The two authentication middlewares of the storefront service (auth.ts and
    optionalAuth.ts): the bearer token is read from the Authorization header, verified, and
    resolved against the user table; the strict one rejects, the optional one degrades to an
    anonymous request.  Token verification is a parameter answering the user id the token
    carries, or `None` when it throws. */
module Authentication {
  import opened Common

  /** The stored user record the middlewares read (the role is taken from here). */
  datatype UserRecord = UserRecord(email: string, name: string, role: Role)

  /** The fields of `header.split(' ')`. */
  function Split(s: string): (r: seq<string>)
    ensures |r| >= 1
    ensures forall k :: 0 <= k < |r| ==> ' ' !in r[k]
    decreases |s|
  {
    var i := IndexOfChar(s, ' ');
    if i == |s| then [s] else [s[..i]] + Split(s[i + 1..])
  }

  /** `authHeader && authHeader.split(' ')[1]`, with an empty result counted as no token:
      the text between the first space and the next space or the end.  The first word is
      never checked. */
  function ExtractToken(header: Option<string>): (r: Option<string>)
    ensures r.Some? ==> r.value != "" && ' ' !in r.value
  {
    if header.None? then None
    else
      var h := header.value;
      var i := IndexOfChar(h, ' ');
      if i == |h| then None
      else
        var rest := h[i + 1..];
        var token := rest[..IndexOfChar(rest, ' ')];
        if token == "" then None else Some(token)
  }

  /** The first field of a split runs up to the first space; there are more fields exactly
      when there is a space, and they are the fields of the text after it. */
  lemma SplitHead(s: string)
    ensures Split(s)[0] == s[..IndexOfChar(s, ' ')]
    ensures |Split(s)| > 1 <==> IndexOfChar(s, ' ') < |s|
    ensures IndexOfChar(s, ' ') < |s| ==> Split(s)[1..] == Split(s[IndexOfChar(s, ' ') + 1..])
  {
  }

  /** The token is exactly the second field of the split header, when there is one and it
      is not empty. */
  lemma ExtractTokenIsSecondField(header: Option<string>)
    ensures header.None? ==> ExtractToken(header).None?
    ensures header.Some? ==>
              var fields := Split(header.value);
              ExtractToken(header) == if |fields| > 1 && fields[1] != "" then Some(fields[1]) else None
  {
    if header.Some? {
      var h := header.value;
      SplitHead(h);
      var i := IndexOfChar(h, ' ');
      if i < |h| {
        var rest := h[i + 1..];
        SplitHead(rest);
        assert Split(h)[1] == Split(h)[1..][0] == Split(rest)[0];
      }
    }
  }

  /** Who the request is from, once authenticated. */
  datatype Identity = Identity(userId: Id, role: Role)

  /** authenticateToken's decision: 401 without a token, 403 when verification throws, 403
      when the token's user no longer exists; otherwise the user id from the token and the
      role from the stored record. */
  function Authenticate(header: Option<string>, verify: string -> Option<Id>, users: map<Id, UserRecord>): (r: Result<Identity>)
    ensures ExtractToken(header).None? ==> r == Err(401, "Authentication required")
    ensures ExtractToken(header).Some? && verify(ExtractToken(header).value).None? ==>
              r == Err(403, "Invalid or expired token")
    ensures r.Err? ==> r.code == 401 || r.code == 403
    ensures r.Ok? <==> ExtractToken(header).Some? && verify(ExtractToken(header).value).Some?
                       && verify(ExtractToken(header).value).value in users
    ensures r.Ok? ==> && r.value.userId == verify(ExtractToken(header).value).value
                      && r.value.role == users[r.value.userId].role
    ensures (&& ExtractToken(header).Some? && verify(ExtractToken(header).value).Some?
             && verify(ExtractToken(header).value).value !in users) ==> r == Err(403, "Invalid token")
  {
    match ExtractToken(header)
    case None => Err(401, "Authentication required")
    case Some(token) =>
      match verify(token)
      case None => Err(403, "Invalid or expired token")
      case Some(userId) =>
        if userId !in users then Err(403, "Invalid token") else Ok(Identity(userId, users[userId].role))
  }

  /** optionalAuthenticateToken's decision: the identity and record when every step
      succeeds, `None` (anonymous) otherwise. */
  function OptionalIdentity(header: Option<string>, verify: string -> Option<Id>, users: map<Id, UserRecord>):
    (r: Option<(Identity, UserRecord)>)
    ensures r.Some? ==> r.value.0.userId in users && r.value.1 == users[r.value.0.userId]
  {
    match ExtractToken(header)
    case None => None
    case Some(token) =>
      match verify(token)
      case None => None
      case Some(userId) =>
        if userId in users then Some((Identity(userId, users[userId].role), users[userId])) else None
  }

  /** The optional middleware identifies exactly the requests the strict one lets through,
      with the same identity; every request the strict one rejects becomes anonymous. */
  lemma OptionalAgreesWithStrict(header: Option<string>, verify: string -> Option<Id>, users: map<Id, UserRecord>)
    ensures OptionalIdentity(header, verify, users).Some? <==> Authenticate(header, verify, users).Ok?
    ensures Authenticate(header, verify, users).Ok? ==>
              OptionalIdentity(header, verify, users).value.0 == Authenticate(header, verify, users).value
  {
  }

  /** The request and response as the middlewares see them: the fields they write, the
      status sent (if any), and how often `next` was called. */
  class Request {
    var userId: Option<Id>
    var userRole: Option<Role>
    var user: Option<UserRecord>
    var response: Option<(int, string)>
    var nextCalls: nat

    constructor ()
      ensures userId.None? && userRole.None? && user.None? && response.None? && nextCalls == 0
    {
      userId, userRole, user, response, nextCalls := None, None, None, None, 0;
    }

    /** authenticateToken: on rejection the status and message are sent and `next` is not
        called; on success userId and userRole are set and `next` is called once. */
    method AuthenticateToken(header: Option<string>, verify: string -> Option<Id>, users: map<Id, UserRecord>)
      modifies this
      ensures user == old(user)
      ensures Authenticate(header, verify, users).Err? ==>
                var e := Authenticate(header, verify, users);
                && response == Some((e.code, e.message)) && nextCalls == old(nextCalls)
                && userId == old(userId) && userRole == old(userRole)
      ensures Authenticate(header, verify, users).Ok? ==>
                var who := Authenticate(header, verify, users).value;
                && userId == Some(who.userId) && userRole == Some(who.role)
                && users[who.userId].role == who.role
                && response == old(response) && nextCalls == old(nextCalls) + 1
    {
      var token := ExtractToken(header);
      if token.None? {
        response := Some((401, "Authentication required"));
        return;
      }
      var decoded := verify(token.value);
      if decoded.None? {
        response := Some((403, "Invalid or expired token"));
        return;
      }
      if decoded.value !in users {
        response := Some((403, "Invalid token"));
        return;
      }
      userId := decoded;
      userRole := Some(users[decoded.value].role);
      nextCalls := nextCalls + 1;
    }

    /** optionalAuthenticateToken: never answers; `next` is called once on every path, and the
        three fields are all set (from the token and the stored record) or all null. */
    method OptionalAuthenticateToken(header: Option<string>, verify: string -> Option<Id>, users: map<Id, UserRecord>)
      modifies this
      ensures response == old(response) && nextCalls == old(nextCalls) + 1
      ensures (userId.None? && userRole.None? && user.None?) || (userId.Some? && userRole.Some? && user.Some?)
      ensures OptionalIdentity(header, verify, users).None? ==> userId.None? && userRole.None? && user.None?
      ensures OptionalIdentity(header, verify, users).Some? ==>
                var (who, record) := OptionalIdentity(header, verify, users).value;
                userId == Some(who.userId) && userRole == Some(record.role) && user == Some(record)
    {
      var token := ExtractToken(header);
      if token.None? {
        userId, userRole, user := None, None, None;
        nextCalls := nextCalls + 1;
        return;
      }
      var decoded := verify(token.value);
      if decoded.Some? && decoded.value in users {
        var record := users[decoded.value];
        userId, userRole, user := decoded, Some(record.role), Some(record);
      } else {
        userId, userRole, user := None, None, None;
      }
      nextCalls := nextCalls + 1;
    }
  }
}
