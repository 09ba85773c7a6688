/** The admin sign-up page: the credential checks behind the submit button, the password
    strength meter, the form handlers and the admin-count check run when the page opens. */
module Signup {
  import opened Common
  import AdminControllers

  datatype FieldName = FirstName | LastName | Email | Username | Password | ConfirmPassword

  datatype Form = Form(
    firstName: string, lastName: string, email: string, username: string,
    password: string, confirmPassword: string)

  const EmptyForm := Form("", "", "", "", "", "")

  function Get(f: Form, name: FieldName): string
  {
    match name
    case FirstName => f.firstName
    case LastName => f.lastName
    case Email => f.email
    case Username => f.username
    case Password => f.password
    case ConfirmPassword => f.confirmPassword
  }

  /** The page's state; `redirect` records a scheduled navigation. */
  datatype Page = Page(form: Form, authError: string, successMessage: string, isOneAdmin: bool, redirect: Option<string>)

  const InitialPage := Page(EmptyForm, "", "", false, None)

  // ---------------- credential checks ----------------

  /** `/[a-z]/.test(s)` and friends: some character of the class occurs. */
  predicate HasLowercase(s: string) { exists i :: 0 <= i < |s| && IsLower(s[i]) }

  predicate HasUppercase(s: string) { exists i :: 0 <= i < |s| && IsUpper(s[i]) }

  predicate IsSpecial(c: char) { c in "!@#$%^&*" }

  predicate HasSpecialChar(s: string) { exists i :: 0 <= i < |s| && IsSpecial(s[i]) }

  /** `[^\s@]+`: non-empty, no white space and no '@'. */
  predicate Clean(s: string)
  {
    |s| > 0 && forall i :: 0 <= i < |s| ==> !IsSpace(s[i]) && s[i] != '@'
  }

  /** The reading of `/^[^\s@]+@[^\s@]+\.[^\s@]+$/`: three clean runs joined by '@' and '.'. */
  ghost predicate EmailShape(s: string)
  {
    exists a, d :: 0 < a < d < |s| && s[a] == '@' && s[d] == '.' &&
      Clean(s[..a]) && Clean(s[a + 1..d]) && Clean(s[d + 1..])
  }

  /** The first index of `c` in `s`. */
  function IndexOf(s: string, c: char): (r: Option<nat>)
    ensures r.Some? ==> r.value < |s| && s[r.value] == c && NoChar(s[..r.value], c)
    ensures r.None? ==> NoChar(s, c)
  {
    if s == [] then None
    else if s[0] == c then Some(0)
    else match IndexOf(s[1..], c)
      case None => None
      case Some(k) => assert s[..k + 1] == [s[0]] + s[1..][..k]; Some(k + 1)
  }

  lemma {:induction false} IndexOfOnly(s: string, c: char, a: nat)
    requires a < |s| && s[a] == c
    requires forall i :: 0 <= i < |s| && i != a ==> s[i] != c
    ensures IndexOf(s, c) == Some(a)
  {
    if s[0] != c {
      IndexOfOnly(s[1..], c, a - 1);
    }
  }

  /** validEmail, decided by one scan: no white space, exactly one '@' with something
      before it, and a '.' with something on both sides after the '@'. */
  predicate ValidEmail(s: string)
  {
    (forall i :: 0 <= i < |s| ==> !IsSpace(s[i])) &&
    match IndexOf(s, '@')
    case None => false
    case Some(a) =>
      0 < a && NoChar(s[a + 1..], '@') &&
      exists d :: a + 1 < d < |s| - 1 && s[d] == '.'
  }

  /** validEmail holds exactly for the strings the regular expression describes. */
  lemma ValidEmailIsShape(s: string)
    ensures ValidEmail(s) <==> EmailShape(s)
  {
    if ValidEmail(s) {
      ValidEmailHasShape(s);
    }
    if EmailShape(s) {
      var a, d :| 0 < a < d < |s| && s[a] == '@' && s[d] == '.' &&
        Clean(s[..a]) && Clean(s[a + 1..d]) && Clean(s[d + 1..]);
      ShapeIsValidEmail(s, a, d);
    }
  }

  lemma ValidEmailHasShape(s: string)
    requires ValidEmail(s)
    ensures EmailShape(s)
  {
    var a := IndexOf(s, '@').value;
    var d :| a + 1 < d < |s| - 1 && s[d] == '.';
    assert forall i :: a + 1 <= i < |s| ==> s[i] == s[a + 1..][i - a - 1];
    assert Clean(s[..a]);
    assert Clean(s[a + 1..d]);
    assert Clean(s[d + 1..]);
  }

  lemma ShapeIsValidEmail(s: string, a: nat, d: nat)
    requires 0 < a < d < |s| && s[a] == '@' && s[d] == '.'
    requires Clean(s[..a]) && Clean(s[a + 1..d]) && Clean(s[d + 1..])
    ensures ValidEmail(s)
  {
    forall i | 0 <= i < |s|
      ensures !IsSpace(s[i]) && (i != a ==> s[i] != '@')
    {
      if i < a {
        assert s[i] == s[..a][i];
      } else if a < i < d {
        assert s[i] == s[a + 1..d][i - a - 1];
      } else if d < i {
        assert s[i] == s[d + 1..][i - d - 1];
      }
    }
    IndexOfOnly(s, '@', a);
    assert |s[a + 1..d]| > 0 && |s[d + 1..]| > 0;
  }

  /** has8Chars measures the USERNAME, not the password, in UTF-16 code units. */
  predicate Has8Chars(f: Form) { JsLength(f.username) >= 8 }

  predicate PasswordMatch(f: Form) { f.password == f.confirmPassword }

  /** The submit button's `disabled` expression. */
  predicate SubmitDisabled(f: Form, isOneAdmin: bool)
  {
    !Has8Chars(f) || !HasLowercase(f.password) || !HasUppercase(f.password) ||
    !HasSpecialChar(f.password) || !PasswordMatch(f) || !ValidEmail(f.email) || isOneAdmin
  }

  /** A three-character password does not stop the submission: the length rule applies to
      the username. */
  lemma ShortPasswordCanSubmit()
    ensures !SubmitDisabled(Form("Ann", "Lee", "a@b.co", "annlee99", "aA!", "aA!"), false)
  {
    var f := Form("Ann", "Lee", "a@b.co", "annlee99", "aA!", "aA!");
    assert forall i :: 0 <= i < |f.username| ==> f.username[i] as int <= 0xFFFF;
    assert IsLower(f.password[0]) && IsUpper(f.password[1]) && IsSpecial(f.password[2]);
    var e := f.email;
    assert |e| == 6 && e[0] == 'a' && e[1] == '@' && e[2] == 'b' && e[3] == '.' && e[4] == 'c' && e[5] == 'o';
    IndexOfOnly(e, '@', 1);
    assert NoChar(e[2..], '@');
    assert e[3] == '.';
  }

  /** Four characters outside the Basic Multilingual Plane are eight code units, so a
      username of four emoji passes the length rule. */
  lemma EmojiUsernameHas8Chars(f: Form)
    requires f.username == ['\U{1F600}', '\U{1F600}', '\U{1F600}', '\U{1F600}']
    ensures |f.username| == 4 && Has8Chars(f)
  {
    var u := f.username;
    assert u[1..][1..][1..][1..] == [];
    assert JsLength(u) == 2 + JsLength(u[1..]);
    assert JsLength(u[1..]) == 2 + JsLength(u[1..][1..]);
    assert JsLength(u[1..][1..]) == 2 + JsLength(u[1..][1..][1..]);
    assert JsLength(u[1..][1..][1..]) == 2 + JsLength(u[1..][1..][1..][1..]);
  }

  // ---------------- strength meter ----------------

  function B(b: bool): nat { if b then 1 else 0 }

  /** getPasswordStrength: one point per satisfied criterion. */
  method PasswordStrength(password: string) returns (strength: nat)
    ensures strength == B(JsLength(password) >= 8) + B(HasLowercase(password)) + B(HasUppercase(password)) + B(HasSpecialChar(password))
    ensures strength <= 4
    ensures strength == 4 <==> JsLength(password) >= 8 && HasLowercase(password) && HasUppercase(password) && HasSpecialChar(password)
    ensures strength == 0 <==> JsLength(password) < 8 && !HasLowercase(password) && !HasUppercase(password) && !HasSpecialChar(password)
  {
    strength := 0;
    if JsLength(password) >= 8 { strength := strength + 1; }
    if HasLowercase(password) { strength := strength + 1; }
    if HasUppercase(password) { strength := strength + 1; }
    if HasSpecialChar(password) { strength := strength + 1; }
  }

  const Levels: seq<string> := ["Very Weak", "Weak", "Medium", "Strong", "Very Strong"]
  const Colours: seq<string> := ["bg-gray-200", "bg-blue-300", "bg-blue-400", "bg-blue-500", "bg-blue-600"]

  function StrengthLabel(strength: nat): (r: string)
  {
    if strength == 0 then "Very Weak"
    else if strength == 1 then "Weak"
    else if strength == 2 then "Medium"
    else if strength == 3 then "Strong"
    else "Very Strong"
  }

  function StrengthColour(strength: nat): (r: string)
  {
    if strength == 0 then "bg-gray-200"
    else if strength == 1 then "bg-blue-300"
    else if strength == 2 then "bg-blue-400"
    else if strength == 3 then "bg-blue-500"
    else "bg-blue-600"
  }

  /** Label and colour follow the ordered scale: score k (capped at 4) shows the k-th
      level, so a higher score never shows a lower level. */
  lemma StrengthScale(strength: nat)
    ensures var k := if strength < 4 then strength else 4;
      StrengthLabel(strength) == Levels[k] && StrengthColour(strength) == Colours[k]
  {
  }

  // ---------------- handlers ----------------

  function SetField(f: Form, name: FieldName, value: string): (r: Form)
    ensures Get(r, name) == value
    ensures forall other :: other != name ==> Get(r, other) == Get(f, other)
  {
    match name
    case FirstName => f.(firstName := value)
    case LastName => f.(lastName := value)
    case Email => f.(email := value)
    case Username => f.(username := value)
    case Password => f.(password := value)
    case ConfirmPassword => f.(confirmPassword := value)
  }

  /** handleChange: only the named field changes, and any error is cleared. */
  function HandleChange(p: Page, name: FieldName, value: string): (r: Page)
    ensures Get(r.form, name) == value && r.authError == ""
    ensures forall other :: other != name ==> Get(r.form, other) == Get(p.form, other)
    ensures r.successMessage == p.successMessage && r.isOneAdmin == p.isOneAdmin && r.redirect == p.redirect
  {
    p.(form := SetField(p.form, name, value), authError := "")
  }

  /** handleSubmit after the registration request answered `status` with `message`: the
      form is emptied whatever the answer. */
  function HandleSubmit(p: Page, status: int, message: string): (r: Page)
    ensures r.form == EmptyForm
    ensures status == 201 ==> r.successMessage == message && r.authError == "" && r.redirect == Some("/")
    ensures status != 201 ==> r.authError == message && r.successMessage == "" && r.redirect == p.redirect
  {
    if status == 201 then p.(successMessage := message, authError := "", redirect := Some("/"), form := EmptyForm)
    else p.(authError := message, successMessage := "", form := EmptyForm)
  }

  /** The request body handleSubmit sends: the form without confirmPassword. */
  function RegisterBody(f: Form): (r: AdminControllers.RegisterRequest)
    ensures r.firstName == f.firstName && r.lastName == f.lastName
    ensures r.username == f.username && r.password == f.password && r.email == f.email
  {
    AdminControllers.RegisterRequest(f.firstName, f.lastName, f.username, f.password, f.email)
  }

  /** The confirmation field never leaves the page. */
  lemma ConfirmationNotSent(f: Form, confirm: string)
    ensures RegisterBody(f.(confirmPassword := confirm)) == RegisterBody(f)
  {
  }

  // ---------------- the admin-count check ----------------

  /** The effect run when the page opens, given the `value` field of the count response's
      JSON body, read whatever the status (None when the body has no boolean `value`,
      which the page stores as a falsy `undefined`): it stores `value` as isOneAdmin, and
      always shows "Admin exists" and schedules a return to the login page. */
  function AdminCheck(p: Page, value: Option<bool>): (r: Page)
    ensures r.authError == "Admin exists. Please login to continue." && r.redirect == Some("/")
    ensures r.isOneAdmin <==> value == Some(true)
    ensures r.form == p.form
  {
    p.(isOneAdmin := value == Some(true), authError := "Admin exists. Please login to continue.", redirect := Some("/"))
  }

  /** As written: the count endpoint answers `value: true` exactly when there is NO admin,
      so on an empty system the button stays disabled for every form. */
  lemma NoAdminBlocksSignup(admins: seq<AdminControllers.Admin>, p: Page, f: Form)
    requires admins == []
    ensures var r := AdminCheck(p, Some(AdminControllers.GetAdminCount(admins).value));
      SubmitDisabled(f, r.isOneAdmin)
  {
  }

  /** Corrected: isOneAdmin means "some admin exists", the negation of `value`. */
  function AdminCheckCorrected(p: Page, value: Option<bool>): (r: Page)
    ensures r.isOneAdmin <==> value == Some(false)
    ensures r.authError == "Admin exists. Please login to continue." && r.redirect == Some("/")
  {
    p.(isOneAdmin := value == Some(false), authError := "Admin exists. Please login to continue.", redirect := Some("/"))
  }

  /** With the corrected check, the button is disabled by the admin check exactly when an
      admin already exists: the first admin can register, a second cannot. */
  lemma CorrectedCheckAllowsFirstAdmin(admins: seq<AdminControllers.Admin>, p: Page, f: Form)
    ensures var r := AdminCheckCorrected(p, Some(AdminControllers.GetAdminCount(admins).value));
      (|admins| == 0 ==> (SubmitDisabled(f, r.isOneAdmin) <==> SubmitDisabled(f, false))) &&
      (|admins| > 0 ==> SubmitDisabled(f, r.isOneAdmin))
  {
  }
}
