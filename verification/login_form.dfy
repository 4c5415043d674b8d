/** The sign-in / sign-up form: the three input rules, the order in which they
    are checked, the trimming of the submitted fields and what a finished
    request does to the form.

    The rules are the form's regular expressions read as plain predicates.
    JavaScript matches them on UTF-16 code units, which only matters for the
    password's length: a character outside the Basic Multilingual Plane
    counts twice there. */
module LoginForm {
  import opened Common
  import ClientApp
  import ApiClient
  import Entities
  import Accounts

  const UsernameError: string := "Username harus 3-20 karakter, hanya huruf, angka, dan _"
  const EmailError: string := "Email tidak valid"
  const PasswordError: string := "Password minimal 6 karakter, 1 huruf besar, dan 1 simbol unik"
  const RequestFailed: string := "Failed"
  /** The `TypeError` a browser built on V8 raises for `res.user.username`
      when the sign-in reply has no user. */
  const UserMissingError: string := "Cannot read properties of undefined (reading 'username')"

  // ---------------------------------------------------------------------------
  // Username: ^[a-zA-Z0-9_]{3,20}$
  // ---------------------------------------------------------------------------

  predicate UsernameRule(s: string) {
    3 <= |s| <= 20 && AllWordChars(s)
  }

  /** One pass over the input, as the regular expression engine makes it. */
  method CheckUsername(s: string) returns (ok: bool)
    ensures ok <==> UsernameRule(s)
  {
    if |s| < 3 || |s| > 20 {
      return false;
    }
    var i := 0;
    while i < |s|
      invariant 0 <= i <= |s|
      invariant forall j :: 0 <= j < i ==> IsWordChar(s[j])
    {
      if !IsWordChar(s[i]) {
        return false;
      }
      i := i + 1;
    }
    return true;
  }

  // ---------------------------------------------------------------------------
  // Password: ^(?=.*[A-Z])(?=.*[symbols]).{6,}$
  // ---------------------------------------------------------------------------

  /** The characters `.` does not match without the `s` flag. */
  predicate IsLineTerminator(c: char) {
    c == '\n' || c == '\r' || c == '\U{2028}' || c == '\U{2029}'
  }

  predicate IsUpper(c: char) {
    'A' <= c <= 'Z'
  }

  const Symbols: string := "!@#$%^&*()_+-=[]{};':\"\\|,.<>/?"

  predicate IsSymbol(c: char) {
    c in Symbols
  }

  /** UTF-16 code units of one character. */
  function Units(c: char): nat {
    if c as int >= 0x1_0000 then 2 else 1
  }

  /** JavaScript's `length` of a string. */
  function Utf16Length(s: string): nat {
    if |s| == 0 then 0 else Utf16Length(s[..|s| - 1]) + Units(s[|s| - 1])
  }

  predicate PasswordRule(p: string) {
    && Utf16Length(p) >= 6
    && (forall i :: 0 <= i < |p| ==> !IsLineTerminator(p[i]))
    && (exists i :: 0 <= i < |p| && IsUpper(p[i]))
    && (exists i :: 0 <= i < |p| && IsSymbol(p[i]))
  }

  /** One pass that counts code units and remembers whether a capital and a
      symbol have been seen; a line terminator ends the match at once. */
  method CheckPassword(p: string) returns (ok: bool)
    ensures ok <==> PasswordRule(p)
  {
    var units := 0;
    var upper := false;
    var symbol := false;
    var i := 0;
    while i < |p|
      invariant 0 <= i <= |p|
      invariant units == Utf16Length(p[..i])
      invariant forall j :: 0 <= j < i ==> !IsLineTerminator(p[j])
      invariant upper <==> exists j :: 0 <= j < i && IsUpper(p[j])
      invariant symbol <==> exists j :: 0 <= j < i && IsSymbol(p[j])
    {
      if IsLineTerminator(p[i]) {
        return false;
      }
      assert p[..i + 1][..i] == p[..i];
      units := units + Units(p[i]);
      upper := upper || IsUpper(p[i]);
      symbol := symbol || IsSymbol(p[i]);
      i := i + 1;
    }
    assert p[..|p|] == p;
    ok := units >= 6 && upper && symbol;
  }

  // ---------------------------------------------------------------------------
  // Email: ^[\w-.]+@([\w-]+\.)+[\w-]{2,}$
  // ---------------------------------------------------------------------------

  predicate IsLocalChar(c: char) {
    IsWordChar(c) || c == '-' || c == '.'
  }

  predicate IsLabelChar(c: char) {
    IsWordChar(c) || c == '-'
  }

  /** `[\w-.]+` */
  predicate LocalPart(l: string) {
    |l| >= 1 && forall i :: 0 <= i < |l| ==> IsLocalChar(l[i])
  }

  /** `[\w-]+` */
  predicate Label(x: string) {
    |x| >= 1 && forall i :: 0 <= i < |x| ==> IsLabelChar(x[i])
  }

  /** `[\w-]{2,}` */
  predicate TopLevel(x: string) {
    |x| >= 2 && forall i :: 0 <= i < |x| ==> IsLabelChar(x[i])
  }

  /** `([\w-]+\.)+[\w-]{2,}` as a grammar: a label and a dot, followed either
      by the final label or by another such domain. Any split point will do. */
  ghost predicate DomainGrammar(d: string)
    decreases |d|
  {
    exists i :: 0 < i < |d| && d[i] == '.' && Label(d[..i]) && (TopLevel(d[i + 1..]) || DomainGrammar(d[i + 1..]))
  }

  ghost predicate EmailGrammar(s: string) {
    exists a :: 0 <= a < |s| && s[a] == '@' && LocalPart(s[..a]) && DomainGrammar(s[a + 1..])
  }

  /** A deterministic reading of the domain: labels cannot contain a dot, so
      the only split worth trying is at the first dot. */
  function DomainOk(d: string): (ok: bool)
    ensures ok ==> |d| >= 4 && IsLabelChar(d[|d| - 1])
    decreases |d|
  {
    var i := IndexOf(d, '.');
    0 < i < |d| && Label(d[..i]) && (TopLevel(d[i + 1..]) || DomainOk(d[i + 1..]))
  }

  /** The same for the whole address: the local part cannot contain `@`. */
  function EmailOk(s: string): (ok: bool)
    ensures ok ==> |s| >= 6 && IsLocalChar(s[0]) && IsLabelChar(s[|s| - 1])
  {
    var a := IndexOf(s, '@');
    a < |s| && LocalPart(s[..a]) && DomainOk(s[a + 1..])
  }

  /** A separator placed right after a run of characters that exclude it is
      its first occurrence. */
  lemma FirstAfterRun(s: string, c: char, j: nat)
    requires j < |s| && s[j] == c && (c == '.' || c == '@')
    requires c == '.' ==> forall k :: 0 <= k < j ==> IsLabelChar(s[..j][k])
    requires c == '@' ==> forall k :: 0 <= k < j ==> IsLocalChar(s[..j][k])
    ensures IndexOf(s, c) == j
  {
    forall k | 0 <= k < j
      ensures s[k] != c
    {
      assert s[..j][k] == s[k];
    }
  }

  lemma {:induction false} DomainOkIffGrammar(d: string)
    ensures DomainOk(d) <==> DomainGrammar(d)
    decreases |d|
  {
    var i := IndexOf(d, '.');
    if i < |d| {
      DomainOkIffGrammar(d[i + 1..]);
    }
    if DomainGrammar(d) {
      var j :| 0 < j < |d| && d[j] == '.' && Label(d[..j]) && (TopLevel(d[j + 1..]) || DomainGrammar(d[j + 1..]));
      FirstAfterRun(d, '.', j);
    }
    if DomainOk(d) {
      assert 0 < i < |d| && d[i] == '.' && Label(d[..i]) && (TopLevel(d[i + 1..]) || DomainGrammar(d[i + 1..]));
    }
  }

  /** The deterministic check accepts exactly the language of the expression. */
  lemma EmailOkIffGrammar(s: string)
    ensures EmailOk(s) <==> EmailGrammar(s)
  {
    var a := IndexOf(s, '@');
    if EmailGrammar(s) {
      var b :| 0 <= b < |s| && s[b] == '@' && LocalPart(s[..b]) && DomainGrammar(s[b + 1..]);
      FirstAfterRun(s, '@', b);
      DomainOkIffGrammar(s[b + 1..]);
      assert EmailOk(s);
    }
    if EmailOk(s) {
      DomainOkIffGrammar(s[a + 1..]);
      assert 0 <= a < |s| && s[a] == '@' && LocalPart(s[..a]) && DomainGrammar(s[a + 1..]);
    }
  }

  // ---------------------------------------------------------------------------
  // String.prototype.trim
  // ---------------------------------------------------------------------------

  /** The white space and line terminators `trim` removes. */
  const JsSpaces: string :=
    "\t\U{000B}\U{000C} \U{00A0}\U{FEFF}\n\r\U{2028}\U{2029}\U{1680}\U{202F}\U{205F}\U{3000}"

  predicate IsJsSpace(c: char) {
    c in JsSpaces || '\U{2000}' <= c <= '\U{200A}'
  }

  /** Length of the leading run of white space. */
  function LeadingSpace(s: string): (k: nat)
    ensures k <= |s|
    ensures forall j :: 0 <= j < k ==> IsJsSpace(s[j])
    ensures k < |s| ==> !IsJsSpace(s[k])
  {
    if |s| == 0 || !IsJsSpace(s[0]) then 0 else 1 + LeadingSpace(s[1..])
  }

  /** Length of the trailing run of white space. */
  function TrailingSpace(s: string): (k: nat)
    ensures k <= |s|
    ensures forall j :: |s| - k <= j < |s| ==> IsJsSpace(s[j])
    ensures k < |s| ==> !IsJsSpace(s[|s| - 1 - k])
  {
    if |s| == 0 || !IsJsSpace(s[|s| - 1]) then 0 else 1 + TrailingSpace(s[..|s| - 1])
  }

  function Trim(s: string): (r: string)
    ensures |r| <= |s|
    ensures |r| > 0 ==> !IsJsSpace(r[0]) && !IsJsSpace(r[|r| - 1])
    ensures (|s| == 0 || (!IsJsSpace(s[0]) && !IsJsSpace(s[|s| - 1]))) ==> r == s
    ensures (forall i :: 0 <= i < |s| ==> IsJsSpace(s[i])) ==> r == []
  {
    var t := s[LeadingSpace(s)..];
    t[..|t| - TrailingSpace(t)]
  }

  /** No character a rule accepts at either end is white space. */
  lemma EdgeCharsAreNotSpace(c: char)
    requires IsLocalChar(c) || IsLabelChar(c)
    ensures !IsJsSpace(c)
  {
  }

  // ---------------------------------------------------------------------------
  // Submitting the form
  // ---------------------------------------------------------------------------

  /** The request the form sends once every rule passes. */
  datatype Request =
    | LoginRequest(username: string, password: string)
    | RegisterRequest(username: string, email: string, password: string)

  datatype Check = Refused(message: string) | Send(request: Request)

  /** `handleSubmit` up to the request: username, then (when signing up)
      email, then password; the first rule that fails names the error. The
      username and email are sent trimmed, the password as typed. */
  function Validate(isLogin: bool, username: string, email: string, password: string): (r: Check)
    ensures !UsernameRule(username) ==> r == Refused(UsernameError)
    ensures UsernameRule(username) && !isLogin && !EmailGrammar(email) ==> r == Refused(EmailError)
    ensures UsernameRule(username) && (isLogin || EmailGrammar(email)) && !PasswordRule(password) ==>
      r == Refused(PasswordError)
    ensures r.Send? <==> UsernameRule(username) && (isLogin || EmailGrammar(email)) && PasswordRule(password)
    ensures r.Send? && isLogin ==> r.request == LoginRequest(username, password)
    ensures r.Send? && !isLogin ==> r.request == RegisterRequest(username, email, password)
  {
    EmailOkIffGrammar(email);
    if !UsernameRule(username) then Refused(UsernameError)
    else if !isLogin && !EmailOk(email) then Refused(EmailError)
    else if !PasswordRule(password) then Refused(PasswordError)
    else
      EdgeCharsAreNotSpace(username[0]);
      EdgeCharsAreNotSpace(username[|username| - 1]);
      if isLogin then Send(LoginRequest(Trim(username), password))
      else
        EdgeCharsAreNotSpace(email[0]);
        EdgeCharsAreNotSpace(email[|email| - 1]);
        Send(RegisterRequest(Trim(username), Trim(email), password))
  }

  /** In sign-in mode the email field plays no part. */
  lemma SignInIgnoresEmail(username: string, email1: string, email2: string, password: string)
    ensures Validate(true, username, email1, password) == Validate(true, username, email2, password)
  {
  }

  datatype Form = Form(isLogin: bool, error: Option<string>)

  datatype Submitted = Submitted(form: Form, sent: Option<Request>, saved: Option<ClientApp.SavedLogin>, signedIn: Option<string>)

  /** `res.token` of what `login` resolved to. */
  function TokenOf(v: ApiClient.LoginValue): Option<string> {
    match v
    case Normalised(token, _) => token
    case PassedThrough(body) => body.token
  }

  /** `res.user` of what `login` resolved to. */
  function UserOf(v: ApiClient.LoginValue): Option<ClientApp.ClientUser> {
    match v
    case Normalised(_, user) => Some(user)
    case PassedThrough(body) => body.user
  }

  /** The whole of `handleSubmit`. A refused form shows the rule's message
      and sends nothing. A failed call shows its message or "Failed". A
      successful sign-up switches the form to sign-in mode. A successful
      sign-in first writes the token and the user to storage, each as text
      (so a missing token is stored as "undefined"), and then hands the
      user's name on; a reply without a user makes that step throw, after
      the writes. */
  function Submit(form: Form, username: string, email: string, password: string,
                  signIn: ApiClient.Outcome<ApiClient.LoginValue>, signUp: ApiClient.Outcome<()>): (r: Submitted)
    ensures Validate(form.isLogin, username, email, password).Refused? ==>
      && r.sent.None? && r.saved.None? && r.signedIn.None?
      && r.form == form.(error := Some(Validate(form.isLogin, username, email, password).message))
    ensures Validate(form.isLogin, username, email, password).Send? ==>
      r.sent == Some(Validate(form.isLogin, username, email, password).request)
    ensures r.sent.Some? && form.isLogin && signIn.Threw? ==>
      r.form == form.(error := Some(StringOr(Some(signIn.message), RequestFailed))) && r.saved.None? && r.signedIn.None?
    ensures r.sent.Some? && form.isLogin && signIn.Returned? ==>
      && r.saved == Some(ClientApp.SavedLogin(TokenOf(signIn.value).GetOr("undefined"), UserOf(signIn.value)))
      && (UserOf(signIn.value).None? ==> r.form == form.(error := Some(UserMissingError)) && r.signedIn.None?)
      && (UserOf(signIn.value).Some? ==>
            r.form == form.(error := None) && r.signedIn == Some(UserOf(signIn.value).value.username))
    ensures r.sent.Some? && !form.isLogin ==>
      && r.saved.None? && r.signedIn.None?
      && (signUp.Threw? ==> r.form == form.(error := Some(StringOr(Some(signUp.message), RequestFailed))))
      && (signUp.Returned? ==> r.form == Form(true, None))
    ensures r.signedIn.Some? ==> r.saved.Some? && r.saved.value.user.Some? && r.signedIn.value == r.saved.value.user.value.username
    ensures r.form.error.Some? ==> r.form.error.value != ""
  {
    match Validate(form.isLogin, username, email, password)
    case Refused(msg) => Submitted(form.(error := Some(msg)), None, None, None)
    case Send(request) =>
      if form.isLogin then
        match signIn
        case Threw(m) => Submitted(form.(error := Some(StringOr(Some(m), RequestFailed))), Some(request), None, None)
        case Returned(v) =>
          var saved := ClientApp.SavedLogin(TokenOf(v).GetOr("undefined"), UserOf(v));
          if saved.user.None? then Submitted(form.(error := Some(UserMissingError)), Some(request), Some(saved), None)
          else Submitted(form.(error := None), Some(request), Some(saved), Some(saved.user.value.username))
      else
        match signUp
        case Threw(m) => Submitted(form.(error := Some(StringOr(Some(m), RequestFailed))), Some(request), None, None)
        case Returned(_) => Submitted(Form(true, None), Some(request), None, None)
  }

  /** After a successful sign-up the very same fields sign in, without the
      email being checked again. */
  lemma SignUpThenSignIn(form: Form, username: string, email: string, password: string,
                         signIn: ApiClient.Outcome<ApiClient.LoginValue>)
    requires !form.isLogin
    requires UsernameRule(username) && EmailOk(email) && PasswordRule(password)
    ensures var next := Submit(form, username, email, password, signIn, ApiClient.Returned(())).form;
      && next.isLogin
      && Validate(next.isLogin, username, "", password) == Send(LoginRequest(username, password))
  {
    EmailOkIffGrammar(email);
  }

  /** A sign-in the server accepts with a payload stores the server's token
      and the normalised user, and hands on the server's name for the user,
      or the typed name when the payload has none. */
  lemma SignInSavesServerReply(form: Form, username: string, password: string, reply: ApiClient.Response<ApiClient.LoginBody>)
    requires form.isLogin && UsernameRule(username) && PasswordRule(password)
    requires reply.ok && reply.body.payload.Some?
    ensures var p := reply.body.payload.value;
      var r := Submit(form, username, "", password, ApiClient.Login(username, reply), ApiClient.Returned(()));
      && r.form.error.None?
      && r.saved.Some? && r.saved.value.token == p.token.GetOr("undefined")
      && r.saved.value.user.Some? && r.saved.value.user.value.id == p.id
      && r.saved.value.user.value.highScore == Some(p.highestScore.GetOr(0))
      && r.signedIn == Some(p.username.GetOr(username))
  {
  }

  /** A sign-in reply with neither a payload nor a user still overwrites the
      token slot, empties the saved user, and ends in the form's error. */
  lemma SignInWithoutUserClearsSavedUser(form: Form, username: string, password: string, reply: ApiClient.Response<ApiClient.LoginBody>)
    requires form.isLogin && UsernameRule(username) && PasswordRule(password)
    requires reply.ok && reply.body.payload.None? && reply.body.user.None?
    ensures var r := Submit(form, username, "", password, ApiClient.Login(username, reply), ApiClient.Returned(()));
      && r.saved == Some(ClientApp.SavedLogin(reply.body.token.GetOr("undefined"), None))
      && r.signedIn.None? && r.form.error == Some(UserMissingError)
  {
  }

  /** Sign-in from end to end: the form stores the server's token, the shell
      looks the name up, and the game screen will then submit scores exactly
      when that token is non-empty (a missing one is stored as the truthy
      text "undefined") and the stored user's id is not zero. */
  lemma SignInEnablesScoreSubmission(app: ClientApp.App, form: Form, username: string, password: string,
                                     reply: ApiClient.Response<ApiClient.LoginBody>, users: seq<Entities.User>)
    requires ClientApp.InSync(app) && app.screen == ClientApp.Screen.Login
    requires form.isLogin && UsernameRule(username) && PasswordRule(password)
    requires reply.ok && reply.body.payload.Some?
    ensures var p := reply.body.payload.value;
      var name := p.username.GetOr(username);
      var r := Submit(form, username, "", password, ApiClient.Login(username, reply), ApiClient.Returned(()));
      && r.saved.Some? && r.saved.value.user.Some?
      && (Accounts.UsernameExists(users, name) ==>
            var after := ApiClient.SignInAgainst(users, app, r.saved.value);
            ClientApp.SubmitsScore(after) <==>
              p.token.GetOr("undefined") != "" && users[Accounts.FindByUsername(users, name)].id != 0)
  {
    var r := Submit(form, username, "", password, ApiClient.Login(username, reply), ApiClient.Returned(()));
    SignInSavesServerReply(form, username, password, reply);
    ApiClient.SignInKeepsServerHighScore(users, app, r.saved.value);
  }
}
