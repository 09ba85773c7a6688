/** The Next.js route-gating middleware. It reads the `NextSalesApp` cookie, decodes the
    payload segment of the compact JWS token (section 7.1 of RFC 7515) after mapping the
    base64url alphabet back to base64 (section 5 of RFC 4648), and never checks the
    signature or the expiry. The byte decoding and `JSON.parse` are one opaque function
    `decodePayload`, whose `None` stands for any exception it raises. */
module Middleware {
  import opened Common
  import AdminControllers

  type Claims = map<string, JsValue>

  /** Reading a property of the parsed payload: a missing key is `undefined`. */
  function Field(c: Claims, key: string): JsValue
  {
    if key in c then c[key] else Undefined
  }

  /** `payload.replace(/-/g, '+').replace(/_/g, '/')`. */
  function Base64UrlToBase64(s: string): (r: string)
    ensures |r| == |s|
    ensures forall i :: 0 <= i < |s| ==> r[i] == (if s[i] == '-' then '+' else if s[i] == '_' then '/' else s[i])
  {
    if s == [] then []
    else [if s[0] == '-' then '+' else if s[0] == '_' then '/' else s[0]] + Base64UrlToBase64(s[1..])
  }

  /** decodeJwt: exactly three dot-separated parts, then the middle one is decoded. */
  function DecodeJwt(token: string, decodePayload: string -> Option<Claims>): (r: Option<Claims>)
    ensures |Split(token, '.')| != 3 ==> r.None?
    ensures |Split(token, '.')| == 3 ==> r == decodePayload(Base64UrlToBase64(Split(token, '.')[1]))
  {
    var parts := Split(token, '.');
    if |parts| != 3 then None else decodePayload(Base64UrlToBase64(parts[1]))
  }

  datatype Decision = Redirect(target: string) | Forward(headers: map<string, string>)

  const ViewerRole := Str("viewer")

  /** The path prefixes a viewer may not open, as the middleware spells them. */
  const Editors: seq<string> := ["/newInvoice", "/recieved-invoice"]

  predicate EditorPath(editors: seq<string>, path: string)
  {
    exists i :: 0 <= i < |editors| && StartsWith(path, editors[i])
  }

  /** The forwarded headers: the request's headers with the two user headers set and every
      other header kept. */
  function ForwardedHeaders(headers: map<string, string>, id: JsValue, role: JsValue): (h: map<string, string>)
    ensures "x-user-id" in h && h["x-user-id"] == JsString(id)
    ensures "x-user-role" in h && h["x-user-role"] == JsString(role)
    ensures h.Keys == headers.Keys + {"x-user-id", "x-user-role"}
    ensures forall k :: k in headers && k != "x-user-id" && k != "x-user-role" ==> h[k] == headers[k]
  {
    headers["x-user-id" := JsString(id)]["x-user-role" := JsString(role)]
  }

  /** Building the forwarded headers by setting the two user headers on a copy of the
      request's headers, one after the other. */
  method UserHeaders(headers: map<string, string>, id: JsValue, role: JsValue) returns (h: map<string, string>)
    ensures h == ForwardedHeaders(headers, id, role)
  {
    h := headers;
    h := h["x-user-id" := JsString(id)];
    h := h["x-user-role" := JsString(role)];
  }

  /** The middleware's decision for a gated request; `editors` are the viewer-restricted
      prefixes (`Editors` in the application). */
  function Decide(
    editors: seq<string>, path: string, cookie: Option<string>, headers: map<string, string>,
    decodePayload: string -> Option<Claims>): Decision
  {
    if cookie.None? || cookie.value == "" then Redirect("/")
    else
      match DecodeJwt(cookie.value, decodePayload)
      case None => Redirect("/")
      case Some(c) =>
        var id := Field(c, "id");
        var role := Field(c, "role");
        var isVerified := Field(c, "isVerified");
        if !Truthy(id) || !Truthy(role) || isVerified == Undefined then Redirect("/")
        else if !Truthy(isVerified) then Redirect("/not-verified")
        else if EditorPath(editors, path) && role == ViewerRole then Redirect("/dashboard")
        else Forward(ForwardedHeaders(headers, id, role))
  }

  /** The claims of a usable token: an id, a role and a truthy verification flag. */
  predicate Admitted(editors: seq<string>, c: Claims, path: string)
  {
    Truthy(Field(c, "id")) && Truthy(Field(c, "role")) && Truthy(Field(c, "isVerified")) &&
    !(EditorPath(editors, path) && Field(c, "role") == ViewerRole)
  }

  /** The whole policy: a request is forwarded exactly when its cookie decodes to admitted
      claims, and then with the two user headers; every refusal is one of the three
      redirects, and an unverified account goes to "/not-verified" whatever its role and
      path. */
  lemma DecidePolicy(
    editors: seq<string>, path: string, cookie: Option<string>, headers: map<string, string>,
    decodePayload: string -> Option<Claims>)
    ensures var d := Decide(editors, path, cookie, headers, decodePayload);
      (d.Forward? <==>
        cookie.Some? && DecodeJwt(cookie.value, decodePayload).Some? &&
        Admitted(editors, DecodeJwt(cookie.value, decodePayload).value, path)) &&
      (d.Forward? ==>
        var c := DecodeJwt(cookie.value, decodePayload).value;
        d.headers == ForwardedHeaders(headers, Field(c, "id"), Field(c, "role"))) &&
      (d.Redirect? ==> d.target in {"/", "/not-verified", "/dashboard"}) &&
      (cookie.None? ==> d == Redirect("/")) &&
      (cookie.Some? && DecodeJwt(cookie.value, decodePayload).None? ==> d == Redirect("/")) &&
      (cookie.Some? && DecodeJwt(cookie.value, decodePayload).Some? ==>
        var c := DecodeJwt(cookie.value, decodePayload).value;
        ((!Truthy(Field(c, "id")) || !Truthy(Field(c, "role")) || Field(c, "isVerified") == Undefined) ==>
           d == Redirect("/")) &&
        ((Truthy(Field(c, "id")) && Truthy(Field(c, "role")) && Field(c, "isVerified") != Undefined &&
          !Truthy(Field(c, "isVerified"))) ==> d == Redirect("/not-verified")) &&
        ((Truthy(Field(c, "id")) && Truthy(Field(c, "role")) && Truthy(Field(c, "isVerified")) &&
          EditorPath(editors, path) && Field(c, "role") == ViewerRole) ==> d == Redirect("/dashboard")))
  {
    if cookie.Some? && cookie.value == "" {
      assert Split(cookie.value, '.') == [""];
    }
  }

  /** Only the middle segment matters: tokens with the same payload segment get the same
      decision, whatever their header and signature segments say. */
  lemma SignatureIgnored(
    path: string, t1: string, t2: string, headers: map<string, string>,
    decodePayload: string -> Option<Claims>)
    requires |Split(t1, '.')| == 3 && |Split(t2, '.')| == 3
    requires Split(t1, '.')[1] == Split(t2, '.')[1]
    ensures Decide(Editors, path, Some(t1), headers, decodePayload) == Decide(Editors, path, Some(t2), headers, decodePayload)
  {
    assert t1 != "" by { assert Split("", '.') == [""]; }
    assert t2 != "" by { assert Split("", '.') == [""]; }
  }

  /** A matcher entry: a fixed path, or a path with the `/:path*` suffix that also covers
      everything below it. */
  datatype Pattern = Exact(p: string) | Subtree(p: string)

  const Matcher: seq<Pattern> := [
    Exact("/dashboard"), Subtree("/dashboard"),
    Exact("/customers"), Subtree("/customers"),
    Exact("/invoices"), Subtree("/invoices"),
    Subtree("/newInvoices"),
    Exact("/products"), Subtree("/products"),
    Exact("/sales-report"), Subtree("/sales-report"),
    Subtree("/customerdata"),
    Exact("/newInvoice"),
    Exact("/top-sold"), Subtree("/top-sold"),
    Exact("/recieved-invoice")
  ]

  predicate MatchesPattern(pat: Pattern, path: string)
  {
    match pat
    case Exact(p) => path == p
    case Subtree(p) => path == p || StartsWith(path, p + "/")
  }

  predicate Gated(matcher: seq<Pattern>, path: string)
  {
    exists i :: 0 <= i < |matcher| && MatchesPattern(matcher[i], path)
  }

  /** What happens to a request: outside the matcher it passes untouched. */
  function Handle(
    matcher: seq<Pattern>, editors: seq<string>,
    path: string, cookie: Option<string>, headers: map<string, string>,
    decodePayload: string -> Option<Claims>): (d: Decision)
    ensures !Gated(matcher, path) ==> d == Forward(headers)
    ensures Gated(matcher, path) ==> d == Decide(editors, path, cookie, headers, decodePayload)
  {
    if Gated(matcher, path) then Decide(editors, path, cookie, headers, decodePayload) else Forward(headers)
  }

  /** The admin-requests page and paths below "/newInvoice" are outside the matcher, so
      they are served without any cookie. */
  lemma UngatedPaths(cookie: Option<string>, headers: map<string, string>, decodePayload: string -> Option<Claims>)
    ensures Handle(Matcher, Editors, "/admin-requests", cookie, headers, decodePayload) == Forward(headers)
    ensures Handle(Matcher, Editors, "/newInvoice/draft", cookie, headers, decodePayload) == Forward(headers)
    ensures Handle(Matcher, Editors, "/dashboard", None, headers, decodePayload) == Redirect("/")
  {
    assert MatchesPattern(Matcher[0], "/dashboard");
    var ks := [1, 1, 1, 1, 1, 1, 1, 1, 1, 1, 1, 1, 1, 1, 1, 1];
    assert Apart(Matcher, "/admin-requests", ks, 8);
    ApartIsOutside(Matcher, "/admin-requests", ks, 0);
    // "/newInvoices" parts from the draft path at its final 's'; "/newInvoice" is exact.
    ks := ks[6 := 11][12 := 0];
    assert Apart(Matcher, "/newInvoice/draft", ks, 8);
    ApartIsOutside(Matcher, "/newInvoice/draft", ks, 0);
  }

  /** A path that differs from `q` at position `k` neither equals `q` nor lies below it. */
  lemma NotPrefixAt(path: string, q: string, k: nat)
    requires k < |q| && k < |path| && path[k] != q[k]
    ensures path != q && !StartsWith(path, q + "/")
  {
    assert (q + "/")[k] == q[k];
  }

  /** Pattern `pat` is told apart from `path` at position `k`, where the two differ, or,
      for a fixed path, by its length. */
  predicate ApartAt(pat: Pattern, path: string, k: nat)
  {
    (k < |pat.p| && k < |path| && path[k] != pat.p[k]) || (pat.Exact? && |path| != |pat.p|)
  }

  /** Every pattern from index `from` on is told apart from `path` at its entry of `ks`. */
  predicate Apart(pats: seq<Pattern>, path: string, ks: seq<nat>, from: nat)
    decreases |pats| - from
  {
    from >= |pats| || (from < |ks| && ApartAt(pats[from], path, ks[from]) && Apart(pats, path, ks, from + 1))
  }

  /** A path told apart from every pattern from `from` on matches none of them. */
  lemma {:induction false} ApartIsOutside(pats: seq<Pattern>, path: string, ks: seq<nat>, from: nat)
    requires Apart(pats, path, ks, from)
    ensures forall i :: from <= i < |pats| ==> !MatchesPattern(pats[i], path)
    decreases |pats| - from
  {
    if from < |pats| {
      ApartIsOutside(pats, path, ks, from + 1);
      var k := ks[from];
      if k < |pats[from].p| && k < |path| && path[k] != pats[from].p[k] {
        NotPrefixAt(path, pats[from].p, k);
      }
    }
  }

  // ------------------------------------------------------------------
  // Login tokens meet the middleware. jwt.sign adds the registered claims
  // "iat" and "exp" to the claims it is given.
  // ------------------------------------------------------------------

  /** The payload a decoder recovers from a token signed over `signed`. */
  predicate IssuedFrom(c: Claims, signed: Claims)
  {
    c.Keys == signed.Keys + {"iat", "exp"} && forall k :: k in signed ==> c[k] == signed[k]
  }

  /** As written: the token loginAdmin issues carries no role and no verification flag, so
      every gated request made with it is sent back to the login page. */
  lemma LoginTokenAlwaysRejected(
    path: string, token: string, id: nat, headers: map<string, string>,
    decodePayload: string -> Option<Claims>)
    requires DecodeJwt(token, decodePayload).Some?
    requires IssuedFrom(DecodeJwt(token, decodePayload).value, AdminControllers.LoginClaims(id))
    ensures Decide(Editors, path, Some(token), headers, decodePayload) == Redirect("/")
  {
    var c := DecodeJwt(token, decodePayload).value;
    assert "role" !in c;
    assert token != "" by { assert Split("", '.') == [""]; }
  }

  /** Corrected: a token issued over AdminControllers.SessionClaims lets a verified admin
      through on every gated path, forwarding the admin's id and role. */
  lemma SessionTokenAdmitsVerifiedAdmin(
    path: string, token: string, a: AdminControllers.Admin, headers: map<string, string>,
    decodePayload: string -> Option<Claims>)
    requires DecodeJwt(token, decodePayload).Some?
    requires IssuedFrom(DecodeJwt(token, decodePayload).value, AdminControllers.SessionClaims(a))
    requires a.isVerified && a.role == "admin" && a.id > 0
    ensures Decide(Editors, path, Some(token), headers, decodePayload) ==
      Forward(ForwardedHeaders(headers, Num(a.id), Str("admin")))
  {
    var c := DecodeJwt(token, decodePayload).value;
    assert Field(c, "role") == Str("admin");
    assert token != "" by { assert Split("", '.') == [""]; }
  }

  // ------------------------------------------------------------------
  // The received-invoice editor lives at "/received-invoice"; the matcher
  // and the viewer check spell it "/recieved-invoice".
  // ------------------------------------------------------------------

  /** As written: "/received-invoice" is outside the matcher, so anyone, with or without a
      token and whatever the role, is served the page. */
  lemma ReceivedEditorUngated(cookie: Option<string>, headers: map<string, string>, decodePayload: string -> Option<Claims>)
    ensures Handle(Matcher, Editors, "/received-invoice", cookie, headers, decodePayload) == Forward(headers)
  {
    ReceivedPathOutsideMatcher();
  }

  lemma ReceivedPathOutsideMatcher()
    ensures !Gated(Matcher, "/received-invoice")
  {
    // "/recieved-invoice" parts from it at the swapped "ie".
    var ks := [1, 1, 1, 1, 1, 1, 1, 1, 1, 1, 1, 1, 1, 1, 1, 4];
    assert Apart(Matcher, "/received-invoice", ks, 8);
    ApartIsOutside(Matcher, "/received-invoice", ks, 0);
  }

  const MatcherCorrected: seq<Pattern> := Matcher + [Exact("/received-invoice")]
  const EditorsCorrected: seq<string> := ["/newInvoice", "/received-invoice"]

  /** Corrected: with the page's real path in the matcher and in the viewer check, a
      verified viewer is sent to the dashboard and a request without a token to "/". */
  lemma ReceivedEditorGatedCorrected(
    token: string, headers: map<string, string>, decodePayload: string -> Option<Claims>)
    requires DecodeJwt(token, decodePayload).Some?
    requires var c := DecodeJwt(token, decodePayload).value;
      Truthy(Field(c, "id")) && Field(c, "role") == ViewerRole && Field(c, "isVerified") == Bool(true)
    ensures Handle(MatcherCorrected, EditorsCorrected, "/received-invoice", Some(token), headers, decodePayload) == Redirect("/dashboard")
    ensures Handle(MatcherCorrected, EditorsCorrected, "/received-invoice", None, headers, decodePayload) == Redirect("/")
  {
    assert MatchesPattern(MatcherCorrected[|Matcher|], "/received-invoice");
    assert StartsWith("/received-invoice", EditorsCorrected[1]);
    assert token != "" by { assert Split("", '.') == [""]; }
  }
}
