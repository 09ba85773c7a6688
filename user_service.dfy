/** The Spring `UserService`: registration with an encoded password, login that sets the
    `KAIRO` token cookie, logout, and account verification, over an in-memory user table.
    The password encoder, the authentication manager and the token generator are opaque
    functions; a failing repository call is an explicit flag. */
module UserService {
  import opened Common

  /** The fields of the `Users` entity the service reads or writes. */
  datatype User = User(id: Option<int>, username: string, password: string, role: string, verified: bool)

  datatype Response = Response(status: int, body: string)

  /** A servlet cookie: `value` None is Java `null`; `maxAge` -1 is the servlet default
      (a session cookie), 0 asks the browser to delete it. */
  datatype ServletCookie = ServletCookie(name: string, value: Option<string>, httpOnly: bool, path: string, maxAge: int)

  /** What `authenticationManager.authenticate(...)` does: returns an authenticated or an
      unauthenticated token, or throws. */
  datatype AuthOutcome = Authenticated | NotAuthenticated | AuthThrows

  const TokenCookieName := "KAIRO"

  /** The cookie loginUser adds for a token. */
  function TokenCookie(token: string): ServletCookie
  {
    ServletCookie(TokenCookieName, Some(token), true, "/", -1)
  }

  /** `deletion` removes `c` when it reaches a browser: same name and path, Max-Age 0
      (section 5.2.2 of RFC 6265). */
  predicate Removes(deletion: ServletCookie, c: ServletCookie)
  {
    deletion.name == c.name && deletion.path == c.path && deletion.maxAge == 0
  }

  /** The table after verifyUser on `id`: only that user's `verified` flag changes. */
  function Verify(users: map<int, User>, id: int): (r: map<int, User>)
    ensures r.Keys == users.Keys
    ensures id in users ==> r[id].verified && r[id] == users[id].(verified := true)
    ensures forall k :: k in users && k != id ==> r[k] == users[k]
  {
    if id in users then users[id := users[id].(verified := true)] else users
  }

  /** Verifying twice is verifying once. */
  lemma VerifyIdempotent(users: map<int, User>, id: int)
    ensures Verify(Verify(users, id), id) == Verify(users, id)
  {
    var once := Verify(users, id);
    var twice := Verify(once, id);
    assert twice.Keys == once.Keys;
    forall k | k in once
      ensures twice[k] == once[k]
    {
    }
  }

  class UserTable {
    var users: map<int, User>
    var nextId: int
    /** Cookies added to the current HTTP response. */
    var responseCookies: seq<ServletCookie>

    ghost predicate Valid()
      reads this
    {
      (forall k :: k in users ==> k < nextId) &&
      (forall k :: k in users ==> users[k].id == Some(k))
    }

    constructor ()
      ensures Valid() && users == map[] && responseCookies == []
    {
      users := map[];
      nextId := 1;
      responseCookies := [];
    }

    /** registerUser: the password is replaced by its encoding before the save; a new
        entity gets the next id, an entity with an id overwrites that row. */
    method RegisterUser(user: User, encode: string -> string, saveFails: bool) returns (r: Response)
      requires Valid()
      modifies this
      ensures Valid()
      ensures responseCookies == old(responseCookies)
      ensures saveFails ==> r == Response(500, "User Registration Failed") && users == old(users) && nextId == old(nextId)
      ensures !saveFails ==> r == Response(201, "User Registered Successfully")
      ensures !saveFails && user.id.None? ==>
        nextId == old(nextId) + 1 &&
        users == old(users)[old(nextId) := user.(id := Some(old(nextId)), password := encode(user.password))]
      ensures !saveFails && user.id.Some? ==>
        nextId == (if user.id.value >= old(nextId) then user.id.value + 1 else old(nextId)) &&
        users == old(users)[user.id.value := user.(password := encode(user.password))]
    {
      if saveFails {
        return Response(500, "User Registration Failed");
      }
      var stored := user.(password := encode(user.password));
      if stored.id.None? {
        stored := stored.(id := Some(nextId));
        users := users[nextId := stored];
        nextId := nextId + 1;
      } else {
        users := users[stored.id.value := stored];
        if stored.id.value >= nextId {
          nextId := stored.id.value + 1;
        }
      }
      return Response(201, "User Registered Successfully");
    }

    /** loginUser: on authentication adds exactly one `KAIRO` cookie carrying the token made
        from the role in the request body; both failures answer "Login Failed". */
    method LoginUser(user: User, authenticate: (string, string) -> AuthOutcome, generateToken: string -> string)
      returns (r: Response)
      modifies this
      ensures users == old(users) && nextId == old(nextId)
      ensures var outcome := authenticate(user.username, user.password);
        (outcome == Authenticated ==>
           r == Response(200, "Login Successful") &&
           responseCookies == old(responseCookies) + [TokenCookie(generateToken(user.role))]) &&
        (outcome == NotAuthenticated ==>
           r == Response(401, "Login Failed") && responseCookies == old(responseCookies)) &&
        (outcome == AuthThrows ==>
           r == Response(500, "Login Failed") && responseCookies == old(responseCookies))
    {
      var outcome := authenticate(user.username, user.password);
      if outcome == AuthThrows {
        return Response(500, "Login Failed");
      }
      if outcome == Authenticated {
        var jwtToken := generateToken(user.role);
        var jwtCookie := ServletCookie(TokenCookieName, Some(jwtToken), false, "", -1);
        jwtCookie := jwtCookie.(httpOnly := true);
        jwtCookie := jwtCookie.(path := "/");
        responseCookies := responseCookies + [jwtCookie];
        return Response(200, "Login Successful");
      }
      return Response(401, "Login Failed");
    }

    /** logout: builds the cookie that would remove any token cookie, but adds it to no
        response, so nothing changes. */
    method Logout() returns (body: string, built: ServletCookie)
      ensures body == "Logout Successful"
      ensures built.value.None? && built.httpOnly
      ensures forall token :: Removes(built, TokenCookie(token))
    {
      built := ServletCookie(TokenCookieName, None, false, "", -1);
      built := built.(httpOnly := true);
      built := built.(path := "/");
      built := built.(maxAge := 0);
      body := "Logout Successful";
    }

    /** verifyUser: an unknown id makes the lookup return null, and dereferencing it takes
        the exception path without saving. */
    method VerifyUser(userId: int, saveFails: bool) returns (r: Response)
      requires Valid()
      modifies this
      ensures Valid()
      ensures nextId == old(nextId) && responseCookies == old(responseCookies)
      ensures userId in old(users) && !saveFails ==>
        r == Response(200, "User Verified Successfully") && users == Verify(old(users), userId)
      ensures !(userId in old(users) && !saveFails) ==>
        r == Response(500, "User Verification Failed") && users == old(users)
    {
      if userId !in users {
        return Response(500, "User Verification Failed");
      }
      var user := users[userId];
      user := user.(verified := true);
      if saveFails {
        return Response(500, "User Verification Failed");
      }
      users := users[userId := user];
      return Response(200, "User Verified Successfully");
    }
  }
}
