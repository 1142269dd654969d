/** The in-memory account registry of authController.ts: a module-level array of users that
    register searches by e-mail and appends to, and that login searches.  Password hashing,
    its comparison and token signing are parameters; the user id (`Date.now().toString()`)
    is an input. */
module Registry {
  import opened Common

  /** A registered user; `password` holds the hash. */
  datatype User = User(id: Id, email: string, password: string, name: string)

  /** The user as the responses show it: no password field. */
  datatype PublicUser = PublicUser(id: Id, email: string, name: string)

  datatype Session = Session(token: string, user: PublicUser)

  function Public(u: User): PublicUser {
    PublicUser(u.id, u.email, u.name)
  }

  /** No two registered users share an e-mail. */
  ghost predicate DistinctEmails(users: seq<User>) {
    forall i, j :: 0 <= i < j < |users| ==> users[i].email != users[j].email
  }

  class UserRegistry {
    var users: seq<User>

    ghost predicate Valid()
      reads this
    {
      DistinctEmails(users)
    }

    constructor ()
      ensures Valid() && users == []
    {
      users := [];
    }

    /** `users.find(u => u.email === email)`: the first user with exactly this e-mail (no
        case folding or trimming), or -1. */
    method FindByEmail(email: string) returns (k: int)
      ensures -1 <= k < |users|
      ensures k == -1 <==> forall i :: 0 <= i < |users| ==> users[i].email != email
      ensures k >= 0 ==> users[k].email == email && forall i :: 0 <= i < k ==> users[i].email != email
    {
      k := 0;
      while k < |users|
        invariant 0 <= k <= |users|
        invariant forall i :: 0 <= i < k ==> users[i].email != email
      {
        if users[k].email == email {
          return;
        }
        k := k + 1;
      }
      k := -1;
    }

    /** register: 400 and no change when the e-mail is already registered; otherwise exactly
        one user is appended, holding the hash of the password, and the response carries a
        token for the new id and the public view of the user. */
    method Register(email: string, password: string, name: string, freshId: Id,
                    hash: string -> string, sign: Id -> string) returns (r: Result<Session>)
      requires Valid()
      modifies this
      ensures Valid()
      ensures (exists i :: 0 <= i < |old(users)| && old(users)[i].email == email) ==>
                r == Err(400, "User already exists") && users == old(users)
      ensures (forall i :: 0 <= i < |old(users)| ==> old(users)[i].email != email) ==>
                && users == old(users) + [User(freshId, email, hash(password), name)]
                && r == Ok(Session(sign(freshId), PublicUser(freshId, email, name)))
    {
      var k := FindByEmail(email);
      if k >= 0 {
        return Err(400, "User already exists");
      }
      var user := User(freshId, email, hash(password), name);
      users := users + [user];
      r := Ok(Session(sign(user.id), Public(user)));
    }

    /** login: an unknown e-mail and a wrong password give the same 400 answer; otherwise a
        token for the matched user's id and that user's public view.  Nothing changes. */
    method Login(email: string, password: string, matches: (string, string) -> bool, sign: Id -> string)
      returns (r: Result<Session>)
      requires Valid()
      ensures r.Err? ==> r == Err(400, "Invalid credentials")
      ensures r.Ok? <==> exists i :: 0 <= i < |users| && users[i].email == email && matches(password, users[i].password)
      ensures forall i :: 0 <= i < |users| && users[i].email == email && matches(password, users[i].password) ==>
                r == Ok(Session(sign(users[i].id), Public(users[i])))
    {
      var k := FindByEmail(email);
      if k < 0 {
        return Err(400, "Invalid credentials");
      }
      var user := users[k];
      if !matches(password, user.password) {
        return Err(400, "Invalid credentials");
      }
      r := Ok(Session(sign(user.id), Public(user)));
    }
  }

  /** In any registry where the e-mail is not yet known, a user who registers can then log
      in with the same password, provided the comparison accepts a password against its own
      hash, and receives the session registration answered. */
  method RegisterThenLogin(registry: UserRegistry, email: string, password: string, name: string, freshId: Id,
                           hash: string -> string, matches: (string, string) -> bool, sign: Id -> string)
    returns (registered: Result<Session>, loggedIn: Result<Session>)
    requires registry.Valid()
    requires forall i :: 0 <= i < |registry.users| ==> registry.users[i].email != email
    requires matches(password, hash(password))
    modifies registry
    ensures registry.Valid()
    ensures registered == Ok(Session(sign(freshId), PublicUser(freshId, email, name)))
    ensures loggedIn == registered
  {
    registered := registry.Register(email, password, name, freshId, hash, sign);
    var last := |registry.users| - 1;
    assert registry.users[last] == User(freshId, email, hash(password), name);
    loggedIn := registry.Login(email, password, matches, sign);
    assert registry.users[last].email == email && matches(password, registry.users[last].password);
  }

  /** In any registry, a second registration with an e-mail the first one used is refused,
      whatever the passwords, names and ids of the two. */
  method RegisterTwice(registry: UserRegistry, email: string, password: string, name: string, freshId: Id,
                       otherPassword: string, otherName: string, otherId: Id,
                       hash: string -> string, sign: Id -> string)
    returns (second: Result<Session>)
    requires registry.Valid()
    modifies registry
    ensures registry.Valid()
    ensures second == Err(400, "User already exists")
  {
    var first := registry.Register(email, password, name, freshId, hash, sign);
    var users := registry.users;
    if forall i :: 0 <= i < |old(registry.users)| ==> old(registry.users)[i].email != email {
      assert users[|users| - 1].email == email;
    }
    second := registry.Register(email, otherPassword, otherName, otherId, hash, sign);
  }
}
