/** The admin controller of the Next.js application: login, logout and registration
    against the Admin and Credentials collections, the dashboard statistics and the
    "is there any admin yet" query. Password hashing (bcrypt), password comparison and
    token signing (jsonwebtoken) are opaque functions passed in by the caller. */
module AdminControllers {
  import opened Common
  import opened Records

  /** An Admin document; it has no password field. */
  datatype Admin = Admin(
    id: nat, firstName: string, lastName: string, username: string, email: string,
    isVerified: bool, role: string)

  /** A Credentials document: the owning admin's id and the bcrypt hash. */
  datatype Credentials = Credentials(userId: nat, password: string)

  datatype Reply = Reply(status: int, message: string)

  datatype Cookie = Cookie(value: string, httpOnly: bool)

  datatype RegisterRequest = RegisterRequest(
    firstName: string, lastName: string, username: string, password: string, email: string)

  /** The claims handed to `jwt.sign` and its `expiresIn` option. */
  datatype SignRequest = SignRequest(claims: map<string, JsValue>, expiresIn: string)

  const SessionCookie := "NextSalesApp"
  const InvalidLogin := Reply(401, "Invalid username or password")
  const MissingSecret := Reply(500, "JWT_SECRET is not defined")
  const LoginOk := Reply(200, "Login successful")
  const LogoutOk := Reply(200, "Logout successful")
  const AlreadyExists := Reply(400, "Username or email already exists")
  const Registered := Reply(201, "Admin registered successfully")

  /** `Admin.findOne({username})`: the first admin with that username. */
  function FindByUsername(admins: seq<Admin>, username: string): (r: Option<Admin>)
    ensures r.Some? ==> r.value in admins && r.value.username == username
    ensures r.None? <==> forall i :: 0 <= i < |admins| ==> admins[i].username != username
  {
    if admins == [] then None
    else if admins[0].username == username then Some(admins[0])
    else FindByUsername(admins[1..], username)
  }

  /** `Credentials.findOne({userId})`: the first credentials record of that admin. */
  function FindCredentials(creds: seq<Credentials>, userId: nat): (r: Option<Credentials>)
    ensures r.Some? ==> r.value in creds && r.value.userId == userId
    ensures r.None? <==> forall k :: 0 <= k < |creds| ==> creds[k].userId != userId
  {
    if creds == [] then None
    else if creds[0].userId == userId then Some(creds[0])
    else FindCredentials(creds[1..], userId)
  }

  /** `Admin.findOne({$or: [{username}, {email}]})` finds something. */
  predicate Taken(admins: seq<Admin>, username: string, email: string)
  {
    exists i :: 0 <= i < |admins| && (admins[i].username == username || admins[i].email == email)
  }

  /** `!process.env.JWT_SECRET`: absent or empty. */
  predicate SecretSet(secret: Option<string>)
  {
    secret.Some? && secret.value != ""
  }

  /** The claims loginAdmin signs: the admin id and nothing else. */
  function LoginClaims(id: nat): map<string, JsValue>
  {
    map["id" := Num(id)]
  }

  /** The claims a session token must carry for the route gate to admit it. */
  function SessionClaims(a: Admin): map<string, JsValue>
  {
    map["id" := Num(a.id), "role" := Str(a.role), "isVerified" := Bool(a.isVerified)]
  }

  datatype LoginDecision = Rejected | NoSecret | Accepted(id: nat)

  /** The branch loginAdmin takes: the three lookups, then the secret check. */
  function DecideLogin(
    admins: seq<Admin>, creds: seq<Credentials>, username: string, password: string,
    compare: (string, string) -> bool, secret: Option<string>): (d: LoginDecision)
    ensures d != Rejected ==> PasswordMatches(admins, creds, username, password, compare)
    ensures d != Rejected ==> (d.Accepted? <==> SecretSet(secret))
  {
    match FindByUsername(admins, username)
    case None => Rejected
    case Some(a) =>
      match FindCredentials(creds, a.id)
      case None => Rejected
      case Some(c) =>
        if !compare(password, c.password) then Rejected
        else if !SecretSet(secret) then NoSecret
        else Accepted(a.id)
  }

  function LoginReply(d: LoginDecision): (r: Reply)
    ensures r.status == 200 <==> d.Accepted?
    ensures r.status == 401 <==> d == Rejected
  {
    match d
    case Rejected => InvalidLogin
    case NoSecret => MissingSecret
    case Accepted(_) => LoginOk
  }

  /** Every admin has a distinct id, username and email, and every credentials record
      belongs to a distinct admin id below the id counter. */
  predicate Accounts(admins: seq<Admin>, creds: seq<Credentials>, nextId: nat)
  {
    (forall i, j :: 0 <= i < j < |admins| ==>
       admins[i].id != admins[j].id && admins[i].username != admins[j].username &&
       admins[i].email != admins[j].email) &&
    (forall i :: 0 <= i < |admins| ==> admins[i].id < nextId) &&
    (forall k, l :: 0 <= k < l < |creds| ==> creds[k].userId != creds[l].userId) &&
    (forall k :: 0 <= k < |creds| ==> creds[k].userId < nextId)
  }

  /** Some admin has the username and a credentials record of that admin holds a hash
      that `compare` accepts for the password. */
  predicate PasswordMatches(
    admins: seq<Admin>, creds: seq<Credentials>, username: string, password: string,
    compare: (string, string) -> bool)
  {
    exists i, k :: 0 <= i < |admins| && 0 <= k < |creds| && admins[i].username == username &&
      creds[k].userId == admins[i].id && compare(password, creds[k].password)
  }

  /** With consistent accounts, login is accepted exactly when some admin has the
      username, its stored hash accepts the password and the secret is set. An unknown
      username, missing credentials and a wrong password all give the same 401, whether
      or not the secret is set; a correct password without a secret gives the 500. */
  lemma LoginAcceptedIff(
    admins: seq<Admin>, creds: seq<Credentials>, nextId: nat, username: string, password: string,
    compare: (string, string) -> bool, secret: Option<string>)
    requires Accounts(admins, creds, nextId)
    ensures var d := DecideLogin(admins, creds, username, password, compare, secret);
      (d.Accepted? <==> SecretSet(secret) && PasswordMatches(admins, creds, username, password, compare))
      && (d.Accepted? ==> exists i :: 0 <= i < |admins| && admins[i].username == username && admins[i].id == d.id)
      && (!PasswordMatches(admins, creds, username, password, compare) ==>
            d == Rejected && LoginReply(d) == InvalidLogin)
      && (PasswordMatches(admins, creds, username, password, compare) && !SecretSet(secret) ==>
            d == NoSecret && LoginReply(d) == MissingSecret)
  {
    var d := DecideLogin(admins, creds, username, password, compare, secret);
    if PasswordMatches(admins, creds, username, password, compare) {
      var i, k :| 0 <= i < |admins| && 0 <= k < |creds| && admins[i].username == username &&
          creds[k].userId == admins[i].id && compare(password, creds[k].password);
      var a := FindByUsername(admins, username).value;
      var j :| 0 <= j < |admins| && admins[j] == a;
      assert j == i;
      var c := FindCredentials(creds, a.id).value;
      var l :| 0 <= l < |creds| && creds[l] == c;
      assert l == k;
    }
    if d != Rejected {
      var a := FindByUsername(admins, username).value;
      var c := FindCredentials(creds, a.id).value;
      var i :| 0 <= i < |admins| && admins[i] == a;
      var k :| 0 <= k < |creds| && creds[k] == c;
      assert admins[i].username == username && creds[k].userId == admins[i].id;
    }
  }

  /** The new Admin document built from the request: defaults isVerified=false, role="viewer". */
  function NewAdmin(id: nat, req: RegisterRequest): Admin
  {
    Admin(id, req.firstName, req.lastName, req.username, req.email, false, "viewer")
  }

  /** Registering a fresh username and email keeps the accounts consistent. */
  lemma RegisterKeepsAccounts(
    admins: seq<Admin>, creds: seq<Credentials>, nextId: nat, req: RegisterRequest, hashed: string)
    requires Accounts(admins, creds, nextId)
    requires !Taken(admins, req.username, req.email)
    ensures Accounts(admins + [NewAdmin(nextId, req)], creds + [Credentials(nextId, hashed)], nextId + 1)
  {
    var a2 := admins + [NewAdmin(nextId, req)];
    forall i, j | 0 <= i < j < |a2|
      ensures a2[i].id != a2[j].id && a2[i].username != a2[j].username && a2[i].email != a2[j].email
    {
      if j == |admins| {
        assert a2[i] == admins[i];
      }
    }
  }

  /** After a successful registration the new admin can log in with the registered
      password, provided the secret is set and bcrypt accepts a password against its own
      hash. */
  lemma RegisteredAdminCanLogIn(
    admins: seq<Admin>, creds: seq<Credentials>, nextId: nat, req: RegisterRequest,
    hash: string -> string, compare: (string, string) -> bool, secret: Option<string>)
    requires Accounts(admins, creds, nextId)
    requires !Taken(admins, req.username, req.email)
    requires compare(req.password, hash(req.password))
    requires SecretSet(secret)
    ensures DecideLogin(admins + [NewAdmin(nextId, req)], creds + [Credentials(nextId, hash(req.password))],
                        req.username, req.password, compare, secret) == Accepted(nextId)
  {
    var a2 := admins + [NewAdmin(nextId, req)];
    var c2 := creds + [Credentials(nextId, hash(req.password))];
    RegisterKeepsAccounts(admins, creds, nextId, req, hash(req.password));
    LoginAcceptedIff(a2, c2, nextId + 1, req.username, req.password, compare, secret);
    assert a2[|admins|].username == req.username && c2[|creds|].userId == a2[|admins|].id;
    var d := DecideLogin(a2, c2, req.username, req.password, compare, secret);
    var i :| 0 <= i < |a2| && a2[i].username == req.username && a2[i].id == d.id;
    assert i == |admins|;
  }

  /** The statistics returned by getStatistics. */
  datatype Statistics = Statistics(totalCustomers: nat, totalProducts: nat, totalInvoices: nat, totalRevenue: real)

  /** The revenue an invoice contributes: nothing once cancelled. */
  function RevenueOf(inv: Invoice): real
  {
    if inv.isCancelled then 0.0 else inv.total
  }

  function IsActive(inv: Invoice): bool { !inv.isCancelled }

  /** Counts of customers, products and invoices (all of them), and the revenue of the
      non-cancelled invoices. */
  function GetStatistics(customers: nat, products: nat, invoices: seq<Invoice>): (r: Statistics)
    ensures r.totalInvoices == |invoices|
    ensures r.totalRevenue == SumR(Filter(invoices, IsActive), InvoiceTotal)
  {
    SumRGuarded(invoices, IsActive, InvoiceTotal, RevenueOf);
    Statistics(customers, products, |invoices|, SumR(invoices, RevenueOf))
  }

  datatype AdminCount = AdminCount(value: bool, status: int)

  /** getAdminCount: `value` is true (status 200) exactly when there is no admin at all. */
  function GetAdminCount(admins: seq<Admin>): (r: AdminCount)
    ensures r.value <==> |admins| == 0
    ensures r.status == (if r.value then 200 else 404)
  {
    if |admins| == 0 then AdminCount(true, 200) else AdminCount(false, 404)
  }

  /** The admin and credentials collections and the cookies of the current response. */
  class AdminStore {
    var admins: seq<Admin>
    var credentials: seq<Credentials>
    var nextId: nat
    var cookies: map<string, Cookie>

    ghost predicate Valid()
      reads this
    {
      Accounts(admins, credentials, nextId)
    }

    constructor ()
      ensures Valid() && admins == [] && credentials == [] && cookies == map[]
    {
      admins := [];
      credentials := [];
      nextId := 0;
      cookies := map[];
    }

    /** loginAdmin: on acceptance, signs `{id}` for one hour and sets the HttpOnly session
        cookie; every other path leaves the cookies alone. */
    method LoginAdmin(
      username: string, password: string, compare: (string, string) -> bool,
      secret: Option<string>, sign: (SignRequest, string) -> string)
      returns (reply: Reply)
      requires Valid()
      modifies this
      ensures Valid()
      ensures admins == old(admins) && credentials == old(credentials) && nextId == old(nextId)
      ensures var d := DecideLogin(old(admins), old(credentials), username, password, compare, secret);
        reply == LoginReply(d) &&
        (d.Accepted? ==>
           cookies == old(cookies)[SessionCookie := Cookie(sign(SignRequest(LoginClaims(d.id), "1h"), secret.value), true)]) &&
        (!d.Accepted? ==> cookies == old(cookies))
    {
      var admin := FindByUsername(admins, username);
      if admin.None? {
        return InvalidLogin;
      }
      var cred := FindCredentials(credentials, admin.value.id);
      if cred.None? {
        return InvalidLogin;
      }
      var isPasswordValid := compare(password, cred.value.password);
      if !isPasswordValid {
        return InvalidLogin;
      }
      if !SecretSet(secret) {
        return MissingSecret;
      }
      var token := sign(SignRequest(LoginClaims(admin.value.id), "1h"), secret.value);
      cookies := cookies[SessionCookie := Cookie(token, true)];
      return LoginOk;
    }

    /** logoutAdmin: deletes the session cookie, whether or not there was one. */
    method LogoutAdmin() returns (reply: Reply)
      requires Valid()
      modifies this
      ensures Valid()
      ensures admins == old(admins) && credentials == old(credentials) && nextId == old(nextId)
      ensures cookies == old(cookies) - {SessionCookie}
      ensures SessionCookie !in cookies
      ensures reply == LogoutOk
    {
      cookies := cookies - {SessionCookie};
      return LogoutOk;
    }

    /** registerAdmin: refuses a taken username or email; otherwise stores the admin
        (without password) and a credentials record holding only the hash. */
    method RegisterAdmin(req: RegisterRequest, hash: string -> string) returns (reply: Reply)
      requires Valid()
      modifies this
      ensures Valid()
      ensures cookies == old(cookies)
      ensures Taken(old(admins), req.username, req.email) ==>
        reply == AlreadyExists && admins == old(admins) && credentials == old(credentials) && nextId == old(nextId)
      ensures !Taken(old(admins), req.username, req.email) ==>
        reply == Registered &&
        admins == old(admins) + [NewAdmin(old(nextId), req)] &&
        credentials == old(credentials) + [Credentials(old(nextId), hash(req.password))] &&
        nextId == old(nextId) + 1
    {
      if Taken(admins, req.username, req.email) {
        return AlreadyExists;
      }
      var hashedPassword := hash(req.password);
      var newAdmin := NewAdmin(nextId, req);
      RegisterKeepsAccounts(admins, credentials, nextId, req, hashedPassword);
      admins := admins + [newAdmin];
      credentials := credentials + [Credentials(newAdmin.id, hashedPassword)];
      nextId := nextId + 1;
      return Registered;
    }
  }
}
