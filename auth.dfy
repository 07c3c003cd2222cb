/** The two authentication middlewares: the bearer token taken from the
    Authorization header, then the 401 / 403 / 404 / (admin only) 403 checks,
    and `req.user` set only when the request goes on. Token verification is a
    parameter standing for `jwt.verify` with the server's secret. */
module Auth {
  import opened Js
  import opened Models

  /** The index of the first space in `s`, if any. */
  function FirstSpace(s: string): (r: Option<nat>)
    ensures r.None? <==> ' ' !in s
    ensures r.Some? ==> r.value < |s| && s[r.value] == ' ' && ' ' !in s[..r.value]
  {
    if s == [] then None
    else if s[0] == ' ' then Some(0)
    else match FirstSpace(s[1..])
      case Some(i) =>
        assert s[..i + 1] == [s[0]] + s[1..][..i];
        Some(i + 1)
      case None => None
  }

  /** The text of `s` up to its first space. */
  function Field(s: string): (r: string)
    ensures r <= s && ' ' !in r
    ensures ' ' !in s ==> r == s
  {
    match FirstSpace(s)
    case Some(i) => s[..i]
    case None => s
  }

  /** `authHeader && authHeader.split(' ')[1]`: no header gives `undefined`, an
      empty header gives itself (`''`), a header without a space has no element
      1, and otherwise element 1 is the text between the first and the second
      space. */
  function TokenOf(header: Option<string>): (r: Option<string>)
    ensures header.None? ==> r.None?
    ensures header.Some? && header.value != "" && ' ' !in header.value ==> r.None?
    ensures r.Some? ==> ' ' !in r.value
  {
    if header.None? then None
    else if header.value == "" then Some("")
    else match FirstSpace(header.value)
      case Some(i) => Some(Field(header.value[i + 1..]))
      case None => None
  }

  /** The header the client sends, `Bearer ${token}`, yields that token
      whenever it holds no space. */
  lemma BearerRoundTrip(t: string)
    requires ' ' !in t
    ensures TokenOf(Some("Bearer " + t)) == Some(t)
  {
    var h := "Bearer " + t;
    BearerSpace(t);
    assert h[7..] == t;
  }

  /** The first space of a bearer header is the one after the scheme. */
  lemma BearerSpace(t: string)
    ensures FirstSpace("Bearer " + t) == Some(6)
  {
    var h := "Bearer " + t;
    assert h[..6] == "Bearer";
    assert h[6] == ' ';
  }

  /** Two spaces give the empty token, which is not `null` and goes on to
      verification. */
  lemma DoubleSpaceGivesEmptyToken()
    ensures TokenOf(Some("Bearer  abc")) == Some("")
  {
    var h := "Bearer  abc";
    BearerSpace(" abc");
    assert h == "Bearer " + " abc" && h[7..] == " abc";
    assert FirstSpace(" abc") == Some(0);
  }

  /** What `jwt.verify` reports: an error, or the payload with its `userId`
      (None when the payload has none; `findById(undefined)` then finds
      nothing). */
  datatype Verified = Invalid | Payload(userId: Option<string>)

  datatype Decision = Unauthorized | Forbidden | UserNotFound | NotAdmin | Next(user: User)

  function FindUser(users: seq<User>, id: string): (r: Option<User>)
    ensures r.None? <==> forall i :: 0 <= i < |users| ==> users[i].id != id
    ensures r.Some? ==> r.value in users && r.value.id == id
  {
    FindBy(users, (u: User) => u.id, id)
  }

  /** The looked-up user of a verified token. */
  function TokenUser(users: seq<User>, v: Verified): Option<User>
    requires v.Payload?
  {
    if v.userId.Some? then FindUser(users, v.userId.value) else None
  }

  /** `authenticateToken`: 401 without a token, 403 when verification fails,
      404 for an unknown user, otherwise on to the route with that user. */
  function AuthenticateToken(header: Option<string>, verify: string -> Verified, users: seq<User>): (r: Decision)
    ensures r == Unauthorized <==> TokenOf(header).None?
    ensures r == Forbidden <==> TokenOf(header).Some? && verify(TokenOf(header).value).Invalid?
    ensures r != NotAdmin
    ensures r == UserNotFound <==> TokenOf(header).Some? && verify(TokenOf(header).value).Payload? &&
                                   TokenUser(users, verify(TokenOf(header).value)).None?
    ensures TokenOf(header).Some? && verify(TokenOf(header).value).Payload? &&
            TokenUser(users, verify(TokenOf(header).value)).Some? ==>
              r == Next(TokenUser(users, verify(TokenOf(header).value)).value)
    ensures r.Next? ==> r.user in users &&
                        verify(TokenOf(header).value) == Payload(Some(r.user.id))
  {
    match TokenOf(header)
    case None => Unauthorized
    case Some(t) =>
      var v := verify(t);
      if v.Invalid? then Forbidden
      else match TokenUser(users, v)
        case None => UserNotFound
        case Some(u) => Next(u)
  }

  /** `authenticateAdmin`: the same checks, then 403 for a user who is not an
      admin. */
  function AuthenticateAdmin(header: Option<string>, verify: string -> Verified, users: seq<User>): (r: Decision)
    ensures r.Next? ==> r.user.isAdmin
  {
    var d := AuthenticateToken(header, verify, users);
    if d.Next? && !d.user.isAdmin then NotAdmin else d
  }

  /** The admin check admits a subset of the requests the token check admits,
      for the same user, and differs from it only by refusing non-admins. */
  lemma AdminIsStricter(header: Option<string>, verify: string -> Verified, users: seq<User>)
    ensures var a := AuthenticateAdmin(header, verify, users);
            var t := AuthenticateToken(header, verify, users);
            (a.Next? ==> t == a) &&
            (a == NotAdmin <==> t.Next? && !t.user.isAdmin) &&
            (a != NotAdmin ==> a == t)
  {
  }

  /** A request as the middleware sees it: the user attached to it. */
  class Request {
    var user: Option<User>

    constructor ()
      ensures user.None?
    {
      user := None;
    }

    /** Runs a middleware: `req.user` is set exactly when the request goes on,
        to the user it goes on with. */
    method Authenticate(admin: bool, header: Option<string>, verify: string -> Verified, users: seq<User>)
      returns (d: Decision)
      modifies this
      ensures d == (if admin then AuthenticateAdmin(header, verify, users) else AuthenticateToken(header, verify, users))
      ensures d.Next? ==> user == Some(d.user)
      ensures !d.Next? ==> user == old(user)
    {
      var token := TokenOf(header);
      if token.None? {
        return Unauthorized;
      }
      var v := verify(token.value);
      if v.Invalid? {
        return Forbidden;
      }
      var found := TokenUser(users, v);
      if found.None? {
        return UserNotFound;
      }
      if admin && !found.value.isAdmin {
        return NotAdmin;
      }
      user := found;
      d := Next(found.value);
    }
  }
}
