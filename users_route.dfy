/** The user routes: register (behind the admin check), login, and change of
    password (behind the token check). Password hashing and comparison and
    token signing are parameters standing for bcrypt and jsonwebtoken. */
module UsersRoute {
  import opened Js
  import opened Models
  import opened Auth

  /** A body field is truthy: sent and not the empty string. */
  predicate Given(x: Option<string>) {
    x.Some? && x.value != ""
  }

  datatype Response =
    | BadRequest
    | InvalidCredentials
    | WrongPassword
    | NotFound
    | Registered
    | LoggedIn(token: string, user: User)
    | PasswordChanged

  /** `findOne({$or: [{username}, {email}]})` finds someone. */
  predicate InUse(users: seq<User>, username: string, email: string) {
    exists i :: 0 <= i < |users| && (users[i].username == username || users[i].email == email)
  }

  /** `findOne({email})`: the first user with that email. */
  function FindByEmail(users: seq<User>, email: string): (r: Option<User>)
    ensures r.None? <==> forall i :: 0 <= i < |users| ==> users[i].email != email
    ensures r.Some? ==> r.value in users && r.value.email == email
  {
    FindBy(users, (u: User) => u.email, email)
  }

  /** `/login`: 400 for a missing field; an unknown email and a wrong password
      both give the same 401; otherwise a token signed for the user. */
  function Login(users: seq<User>, email: Option<string>, password: Option<string>,
                 compare: (string, string) -> bool, sign: (string, bool) -> string): (r: Response)
    ensures r == BadRequest <==> !Given(email) || !Given(password)
    ensures r == InvalidCredentials <==>
              Given(email) && Given(password) &&
              (FindByEmail(users, email.value).None? ||
               !compare(password.value, FindByEmail(users, email.value).value.password))
    ensures r.LoggedIn? ==> FindByEmail(users, email.value) == Some(r.user) &&
                            compare(password.value, r.user.password) &&
                            r.token == sign(r.user.id, r.user.isAdmin)
    ensures r == BadRequest || r == InvalidCredentials || r.LoggedIn?
  {
    if !Given(email) || !Given(password) then BadRequest
    else match FindByEmail(users, email.value)
      case None => InvalidCredentials
      case Some(u) =>
        if !compare(password.value, u.password) then InvalidCredentials
        else LoggedIn(sign(u.id, u.isAdmin), u)
  }

  /** An unknown email and a wrong password cannot be told apart. */
  lemma LoginFailuresAlike(users: seq<User>, email: string, password: string,
                           compare: (string, string) -> bool, sign: (string, bool) -> string)
    requires email != "" && password != ""
    ensures FindByEmail(users, email).None? ==>
              Login(users, Some(email), Some(password), compare, sign) == InvalidCredentials
    ensures FindByEmail(users, email).Some? && !compare(password, FindByEmail(users, email).value.password) ==>
              Login(users, Some(email), Some(password), compare, sign) == InvalidCredentials
  {
  }

  /** `isAdmin === true ? true : false`. */
  function AdminFlag(isAdmin: Option<Json>): (r: bool)
    ensures r <==> isAdmin == Some(JBool(true))
  {
    isAdmin == Some(JBool(true))
  }

  function ReplacePassword(users: seq<User>, id: string, hashed: string): (r: seq<User>)
    ensures |r| == |users|
    ensures forall i :: 0 <= i < |users| ==> r[i] == if users[i].id == id then users[i].(password := hashed) else users[i]
  {
    seq(|users|, i requires 0 <= i < |users| => if users[i].id == id then users[i].(password := hashed) else users[i])
  }

  /** What the register route's in-use check keeps: no two users share an id,
      a username or an email. */
  predicate UniqueUsers(users: seq<User>) {
    forall i, j :: 0 <= i < j < |users| ==>
      users[i].id != users[j].id && users[i].username != users[j].username && users[i].email != users[j].email
  }

  /** Changing a password keeps ids, usernames and emails as they were. */
  lemma ReplaceKeepsUnique(users: seq<User>, id: string, hashed: string)
    requires UniqueUsers(users)
    ensures UniqueUsers(ReplacePassword(users, id, hashed))
  {
    var r := ReplacePassword(users, id, hashed);
    forall i, j | 0 <= i < j < |r|
      ensures r[i].id != r[j].id && r[i].username != r[j].username && r[i].email != r[j].email
    {
      assert r[i].id == users[i].id && r[i].username == users[i].username && r[i].email == users[i].email;
      assert r[j].id == users[j].id && r[j].username == users[j].username && r[j].email == users[j].email;
    }
  }

  class UserStore {
    var users: seq<User>

    ghost predicate Valid()
      reads this
    {
      UniqueUsers(users)
    }

    constructor ()
      ensures Valid() && users == []
    {
      users := [];
    }

    /** `/register`: 400 for a missing field before any lookup, 400 for a
        username or email in use, otherwise one new user with the hashed
        password and `isAdmin` set only by a literal `true`. */
    method Register(id: string, name: Option<string>, username: Option<string>, email: Option<string>,
                    password: Option<string>, isAdmin: Option<Json>, hash: string -> string)
      returns (r: Response)
      requires Valid()
      requires forall i :: 0 <= i < |users| ==> users[i].id != id
      modifies this
      ensures Valid()
      ensures r == BadRequest || r == Registered
      ensures r == BadRequest <==>
                !Given(name) || !Given(username) || !Given(email) || !Given(password) ||
                InUse(old(users), username.value, email.value)
      ensures r == BadRequest ==> users == old(users)
      ensures r == Registered ==>
                users == old(users) + [User(id, name.value, username.value, email.value, hash(password.value), AdminFlag(isAdmin))]
    {
      if !Given(name) || !Given(username) || !Given(email) || !Given(password) {
        return BadRequest;
      }
      if exists i :: 0 <= i < |users| && (users[i].username == username.value || users[i].email == email.value) {
        return BadRequest;
      }
      var u := User(id, name.value, username.value, email.value, hash(password.value), AdminFlag(isAdmin));
      users := users + [u];
      r := Registered;
    }

    /** `/change-password` for the authenticated user `me`: 400 for a missing
        field, 404 when the user is gone, 401 for a wrong current password
        (nothing changes), otherwise the stored password becomes the hash of
        the new one. */
    method ChangePassword(me: User, current: Option<string>, next: Option<string>,
                          compare: (string, string) -> bool, hash: string -> string)
      returns (r: Response)
      requires Valid()
      modifies this
      ensures Valid()
      ensures r == BadRequest <==> !Given(current) || !Given(next)
      ensures r == NotFound <==> r != BadRequest && FindUser(old(users), me.id).None?
      ensures r == WrongPassword <==>
                r != BadRequest && r != NotFound && !compare(current.value, FindUser(old(users), me.id).value.password)
      ensures r != PasswordChanged ==> users == old(users)
      ensures r == PasswordChanged ==> users == ReplacePassword(old(users), me.id, hash(next.value))
      ensures r == BadRequest || r == NotFound || r == WrongPassword || r == PasswordChanged
    {
      if !Given(current) || !Given(next) {
        return BadRequest;
      }
      var found := FindUser(users, me.id);
      if found.None? {
        return NotFound;
      }
      if !compare(current.value, found.value.password) {
        return WrongPassword;
      }
      ReplaceKeepsUnique(users, me.id, hash(next.value));
      users := ReplacePassword(users, me.id, hash(next.value));
      r := PasswordChanged;
    }
  }

  /** In a store the routes keep valid, after a change the user logs in with
      the new password exactly when the comparison accepts it against its
      hash. */
  lemma NewPasswordLogsIn(users: seq<User>, i: nat, next: string,
                          compare: (string, string) -> bool, hash: string -> string, sign: (string, bool) -> string)
    requires i < |users| && users[i].email != "" && next != ""
    requires UniqueUsers(users)
    ensures var after := ReplacePassword(users, users[i].id, hash(next));
            Login(after, Some(users[i].email), Some(next), compare, sign).LoggedIn? <==> compare(next, hash(next))
  {
    var after := ReplacePassword(users, users[i].id, hash(next));
    assert FindByEmail(after, users[i].email) == Some(after[i]) by {
      FirstEmail(after, i);
    }
  }

  lemma {:induction false} FirstEmail(users: seq<User>, i: nat)
    requires i < |users|
    requires forall j :: 0 <= j < i ==> users[j].email != users[i].email
    ensures FindByEmail(users, users[i].email) == Some(users[i])
  {
    if i > 0 {
      assert users[1..][i - 1] == users[i];
      FirstEmail(users[1..], i - 1);
    }
  }
}
