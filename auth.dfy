/** Account rules of the authentication controller: password checking, login precedence between
    donor and case accounts, registration, first sign-in through Google, and the password-reset
    token lifecycle. */
module Auth {
  import opened Wrappers
  import opened Text
  import opened Seqs
  import opened Entities

  /** The password a Google-created account stores; it never matches a typed password. */
  const GoogleOAuthMarker := "GOOGLE_OAUTH_USER"
  /** The prefix of a BCrypt hash. */
  const BcryptPrefix := "$2a$"
  const DefaultAvatar := "/images/user-avatar-circle.svg"

  /** The hashing service: `HashPassword` and `VerifyPassword` (BCrypt), left abstract. */
  datatype PasswordService = PasswordService(hash: string -> string, verify: (string, string) -> bool)

  /** What BCrypt guarantees of a fresh hash: it carries the BCrypt prefix and verifies against the
      password it was made from. */
  predicate HashesVerify(ps: PasswordService, password: string) {
    StartsWith(ps.hash(password), BcryptPrefix) && ps.verify(password, ps.hash(password))
  }

  // ---------------------------------------------------------------------------------------------
  // Password check

  /** ValidatePassword: the Google marker never matches; a BCrypt hash is checked by the verifier;
      anything else is a legacy plaintext password compared exactly. */
  function ValidatePassword(ps: PasswordService, input: string, stored: string): (ok: bool)
    ensures stored == GoogleOAuthMarker ==> !ok
    ensures stored != GoogleOAuthMarker && StartsWith(stored, BcryptPrefix) ==> (ok <==> ps.verify(input, stored))
    ensures stored != GoogleOAuthMarker && !StartsWith(stored, BcryptPrefix) ==> (ok <==> input == stored)
  {
    if stored == GoogleOAuthMarker then false
    else if StartsWith(stored, BcryptPrefix) then ps.verify(input, stored)
    else input == stored
  }

  /** The marker is not a BCrypt hash, so a fresh hash is never mistaken for it. */
  lemma HashIsNotMarker(ps: PasswordService, password: string)
    requires HashesVerify(ps, password)
    ensures ps.hash(password) != GoogleOAuthMarker
    ensures ValidatePassword(ps, password, ps.hash(password))
  {
    assert GoogleOAuthMarker[1] != BcryptPrefix[1];
  }

  // ---------------------------------------------------------------------------------------------
  // Login

  /** The claims a sign-in issues. */
  datatype Principal = Principal(id: string, name: string, role: string, email: string)

  /** The result of a login attempt; Fault is the exception a case login with a null password raises. */
  datatype LoginOutcome = SignedIn(principal: Principal) | Rejected | Fault

  function FindUserByEmail(users: seq<User>, email: string): Option<nat> {
    FirstIndex(users, (u: User) => u.email == email)
  }

  function FindCaseLogin(logins: seq<CaseLogin>, email: string): Option<nat> {
    FirstIndex(logins, (c: CaseLogin) => c.email == email)
  }

  /** The name of the first case row with the id, or "個案" when there is none or it is null. */
  function CaseName(cases: seq<Case>, caseId: int): string {
    match FirstIndex(cases, (c: Case) => c.caseId == caseId)
    case None => "個案"
    case Some(i) => cases[i].name.GetOr("個案")
  }

  /** The first donor account with the e-mail accepts the password. */
  predicate UserAccepts(users: seq<User>, email: string, password: string, ps: PasswordService) {
    var i := FindUserByEmail(users, email);
    i.Some? && ValidatePassword(ps, password, users[i.value].password)
  }

  /** The first case login with the e-mail has a password and it accepts the typed one. */
  predicate CaseAccepts(logins: seq<CaseLogin>, email: string, password: string, ps: PasswordService) {
    var i := FindCaseLogin(logins, email);
    i.Some? && logins[i.value].password.Some? && ValidatePassword(ps, password, logins[i.value].password.value)
  }

  /** Login: a donor account is tried first and signs in with role User; only if it does not accept
      is a case login tried, with role Case; otherwise the attempt is rejected. */
  function Login(users: seq<User>, logins: seq<CaseLogin>, cases: seq<Case>, email: string, password: string,
                 ps: PasswordService): (r: LoginOutcome)
    ensures r.SignedIn? ==> r.principal.role == "User" || r.principal.role == "Case"
    ensures (r.SignedIn? && r.principal.role == "User") <==> UserAccepts(users, email, password, ps)
    ensures (r.SignedIn? && r.principal.role == "Case") <==>
            !UserAccepts(users, email, password, ps) && CaseAccepts(logins, email, password, ps)
    ensures r == Fault <==> !UserAccepts(users, email, password, ps) && FindCaseLogin(logins, email).Some? &&
                            logins[FindCaseLogin(logins, email).value].password.None?
    ensures r.SignedIn? ==> r.principal.email == email
  {
    var ui := FindUserByEmail(users, email);
    if ui.Some? && ValidatePassword(ps, password, users[ui.value].password) then
      var u := users[ui.value];
      SignedIn(Principal(IntToString(u.userId), u.name.GetOr("使用者"), "User", u.email))
    else
      var ci := FindCaseLogin(logins, email);
      if ci.None? then Rejected
      else
        var c := logins[ci.value];
        if c.password.None? then Fault
        else if ValidatePassword(ps, password, c.password.value) then
          SignedIn(Principal(IntToString(c.caseId), CaseName(cases, c.caseId), "Case", c.email))
        else Rejected
  }

  /** When the donor account accepts, the case tables play no part in the outcome. */
  lemma UserLoginIgnoresCases(users: seq<User>, logins: seq<CaseLogin>, cases: seq<Case>,
                              logins': seq<CaseLogin>, cases': seq<Case>, email: string, password: string,
                              ps: PasswordService)
    requires UserAccepts(users, email, password, ps)
    ensures Login(users, logins, cases, email, password, ps) == Login(users, logins', cases', email, password, ps)
  {
  }

  /** An account created through Google cannot sign in with any typed password; with no case login
      for the e-mail the attempt is rejected. */
  lemma GoogleAccountRejectsPasswords(users: seq<User>, logins: seq<CaseLogin>, cases: seq<Case>, email: string,
                                      password: string, ps: PasswordService)
    requires FindUserByEmail(users, email).Some?
    requires users[FindUserByEmail(users, email).value].password == GoogleOAuthMarker
    requires FindCaseLogin(logins, email).None?
    ensures Login(users, logins, cases, email, password, ps) == Rejected
  {
  }

  // ---------------------------------------------------------------------------------------------
  // Registration

  datatype RegisterForm = RegisterForm(
    name: string, email: string, password: string, phone: Option<string>, identityNumber: string)

  datatype RegisterOutcome = EmailTaken | IdentityTaken | Registered(user: User)

  predicate EmailInUse(users: seq<User>, email: string) {
    exists i :: 0 <= i < |users| && users[i].email == email
  }

  predicate IdentityInUse(users: seq<User>, identityNumber: string) {
    exists i :: 0 <= i < |users| && users[i].identityNumber == identityNumber
  }

  /** The row Register inserts; `userId` is the key the database assigns. */
  function NewUser(form: RegisterForm, userId: int, ps: PasswordService): (u: User)
    ensures u.password == ps.hash(form.password) && u.profileImage == Some(DefaultAvatar)
    ensures u.email == form.email && u.identityNumber == form.identityNumber && u.name == Some(form.name)
  {
    User(userId, form.identityNumber, form.email, ps.hash(form.password), form.phone, Some(form.name),
         Some(DefaultAvatar))
  }

  /** A freshly registered donor signs in with the password given at registration, as a User, under
      the new id and name. */
  lemma LoginAfterRegister(users: seq<User>, logins: seq<CaseLogin>, cases: seq<Case>, form: RegisterForm,
                           userId: int, ps: PasswordService)
    requires !EmailInUse(users, form.email)
    requires HashesVerify(ps, form.password)
    ensures Login(users + [NewUser(form, userId, ps)], logins, cases, form.email, form.password, ps) ==
            SignedIn(Principal(IntToString(userId), form.name, "User", form.email))
  {
    var users' := users + [NewUser(form, userId, ps)];
    assert users'[|users|].email == form.email;
    assert FindUserByEmail(users', form.email) == Some(|users|);
    HashIsNotMarker(ps, form.password);
  }

  // ---------------------------------------------------------------------------------------------
  // First sign-in through Google

  /** The claim types `ClaimTypes.Email` and `ClaimTypes.Name`. */
  const EmailClaim := "http://schemas.xmlsoap.org/ws/2005/05/identity/claims/emailaddress"
  const NameClaim := "http://schemas.xmlsoap.org/ws/2005/05/identity/claims/name"
  /** The claim types tried for a profile picture, in order. */
  const PictureClaims: seq<string> :=
    ["picture", "urn:google:profile:picture", "urn:google:picture", "profile_image", "image", "avatar"]

  /** `Principal.FindFirst(type)?.Value`, with claims keyed by type. */
  function FindFirst(claims: map<string, string>, claimType: string): Option<string> {
    if claimType in claims then Some(claims[claimType]) else None
  }

  /** The first picture claim present, in the order of PictureClaims. */
  function Picture(claims: map<string, string>): Option<string> {
    Coalesce(seq(|PictureClaims|, i requires 0 <= i < |PictureClaims| => FindFirst(claims, PictureClaims[i])))
  }

  /** The name stored for a new Google account: the claim or "Google 用戶", cut to 50 characters. */
  function GoogleUserName(name: Option<string>): (r: string)
    ensures |r| <= 50
    ensures name.None? ==> r == "Google 用戶"
    ensures name.Some? ==> StartsWith(name.value, r) && (|name.value| <= 50 <==> r == name.value)
    ensures name.Some? && |name.value| > 50 ==> |r| == 50
  {
    Truncate(name.GetOr("Google 用戶"), 50)
  }

  /** The picture stored for a new Google account: the claim cut to 255 characters, or the default
      avatar when there is none. */
  function GoogleProfileImage(picture: Option<string>): (r: string)
    ensures |r| <= 255 && r != ""
    ensures IsNullOrEmpty(picture) ==> r == DefaultAvatar
    ensures !IsNullOrEmpty(picture) ==> StartsWith(picture.value, r) && (|picture.value| <= 255 <==> r == picture.value)
    ensures !IsNullOrEmpty(picture) && |picture.value| > 255 ==> |r| == 255
  {
    if IsNullOrEmpty(picture) then DefaultAvatar else Truncate(picture.value, 255)
  }

  /** The e-mail stored for a new Google account: cut to 100 characters. */
  function GoogleEmail(email: string): (r: string)
    ensures |r| <= 100 && StartsWith(email, r)
    ensures |email| <= 100 <==> r == email
    ensures |email| > 100 ==> |r| == 100
  {
    Truncate(email, 100)
  }

  /** The account created at the first Google sign-in; `stamp` is the clock formatted yyyyMMddHHmmss. */
  function GoogleNewUser(claims: map<string, string>, email: string, userId: int, stamp: string): (u: User)
    ensures u.password == GoogleOAuthMarker && u.phone.None?
    ensures u.identityNumber == "TEMP" + stamp
    ensures u.name.Some? && |u.name.value| <= 50
    ensures u.profileImage.Some? && 0 < |u.profileImage.value| <= 255
    ensures |u.email| <= 100 && StartsWith(email, u.email)
    ensures u.name == Some(GoogleUserName(FindFirst(claims, NameClaim)))
    ensures u.profileImage == Some(GoogleProfileImage(Picture(claims)))
    ensures u.email == GoogleEmail(email)
    ensures FindFirst(claims, NameClaim).None? ==> u.name == Some("Google 用戶")
    ensures IsNullOrEmpty(Picture(claims)) ==> u.profileImage == Some(DefaultAvatar)
  {
    User(userId, "TEMP" + stamp, GoogleEmail(email), GoogleOAuthMarker, None,
         Some(GoogleUserName(FindFirst(claims, NameClaim))), Some(GoogleProfileImage(Picture(claims))))
  }

  datatype ExternalOutcome = AuthenticationFailed | NoEmail | ExternalSignedIn(principal: Principal)

  // ---------------------------------------------------------------------------------------------
  // Password reset

  /** A token can still be redeemed at `now`. */
  predicate Live(t: PasswordResetToken, now: Instant) {
    t.expiresAt > now && !t.isUsed
  }

  predicate HasLiveToken(tokens: seq<PasswordResetToken>, email: string, now: Instant) {
    exists i :: 0 <= i < |tokens| && tokens[i].email == email && Live(tokens[i], now)
  }

  predicate IsCaseEmail(logins: seq<CaseLogin>, email: string) {
    exists i :: 0 <= i < |logins| && logins[i].email == email
  }

  /** The token ForgotPassword issues at `now`; `guid` is the fresh random token text. */
  function ResetTokenFor(users: seq<User>, email: string, now: Instant, guid: string): PasswordResetToken {
    PasswordResetToken(email, guid, if EmailInUse(users, email) then "User" else "Case", now,
                       now + 15 * TicksPerMinute, false, None)
  }

  /** The token table after ForgotPassword: unchanged for an unknown e-mail or when a live token for
      it exists, otherwise extended by a fresh token. */
  function IssueToken(users: seq<User>, logins: seq<CaseLogin>, tokens: seq<PasswordResetToken>, email: string,
                      now: Instant, guid: string): (r: seq<PasswordResetToken>)
    ensures r == tokens || r == tokens + [ResetTokenFor(users, email, now, guid)]
    ensures r != tokens <==> (EmailInUse(users, email) || IsCaseEmail(logins, email)) && !HasLiveToken(tokens, email, now)
  {
    if !EmailInUse(users, email) && !IsCaseEmail(logins, email) then tokens
    else if HasLiveToken(tokens, email, now) then tokens
    else tokens + [ResetTokenFor(users, email, now, guid)]
  }

  /** No e-mail has two live tokens at `now`. */
  predicate AtMostOneLive(tokens: seq<PasswordResetToken>, now: Instant) {
    forall i, j :: 0 <= i < j < |tokens| && tokens[i].email == tokens[j].email ==>
      !(Live(tokens[i], now) && Live(tokens[j], now))
  }

  /** Issuing keeps each e-mail at no more than one live token. */
  lemma IssueTokenKeepsOneLive(users: seq<User>, logins: seq<CaseLogin>, tokens: seq<PasswordResetToken>,
                               email: string, now: Instant, guid: string)
    requires AtMostOneLive(tokens, now)
    ensures AtMostOneLive(IssueToken(users, logins, tokens, email, now, guid), now)
  {
    var r := IssueToken(users, logins, tokens, email, now, guid);
    if r != tokens {
      forall i, j | 0 <= i < j < |r| && r[i].email == r[j].email
        ensures !(Live(r[i], now) && Live(r[j], now))
      {
        if j == |tokens| {
          assert r[i] == tokens[i];
          assert !(tokens[i].email == email && Live(tokens[i], now));
        } else {
          assert r[i] == tokens[i] && r[j] == tokens[j];
        }
      }
    }
  }

  /** A fresh token is typed User exactly when a donor account has the e-mail, and, while unused, is
      redeemable exactly during the fifteen minutes after it was issued. */
  lemma ResetTokenLifetime(users: seq<User>, email: string, issued: Instant, guid: string, t: Instant)
    ensures ResetTokenFor(users, email, issued, guid).userType == "User" <==> EmailInUse(users, email)
    ensures Live(ResetTokenFor(users, email, issued, guid), t) <==> t < issued + 15 * TicksPerMinute
  {
  }

  /** The first token with the text that is live at `now`. */
  function LiveTokenIndex(tokens: seq<PasswordResetToken>, token: string, now: Instant): (r: Option<nat>)
    ensures r.Some? ==> r.value < |tokens| && tokens[r.value].token == token && Live(tokens[r.value], now)
    ensures r.None? <==> !exists i :: 0 <= i < |tokens| && tokens[i].token == token && Live(tokens[i], now)
  {
    FirstIndex(tokens, (t: PasswordResetToken) => t.token == token && Live(t, now))
  }

  /** The page ResetPassword (GET) answers with. */
  datatype ResetPage = RedirectToLogin | RedirectToForgotPassword | ResetForm(token: string)

  /** ResetPassword (GET): an empty token goes to login, a token that is not live to the request page,
      a live one to the form. */
  function ResetPasswordPage(tokens: seq<PasswordResetToken>, token: string, now: Instant): (r: ResetPage)
    ensures r.ResetForm? <==> token != "" && LiveTokenIndex(tokens, token, now).Some?
    ensures r.ResetForm? ==> r.token == token
    ensures r == RedirectToLogin <==> token == ""
  {
    if token == "" then RedirectToLogin
    else if LiveTokenIndex(tokens, token, now).None? then RedirectToForgotPassword
    else ResetForm(token)
  }

  /** The tables a password reset touches. */
  datatype Accounts = Accounts(users: seq<User>, logins: seq<CaseLogin>, tokens: seq<PasswordResetToken>)

  /** Replaces the password of the first donor account with the e-mail, if any. */
  function SetUserPassword(users: seq<User>, email: string, hash: string): (r: seq<User>)
    ensures |r| == |users|
    ensures forall i :: 0 <= i < |r| && Some(i) != FindUserByEmail(users, email) ==> r[i] == users[i]
    ensures FindUserByEmail(users, email).Some? ==>
              r[FindUserByEmail(users, email).value] == users[FindUserByEmail(users, email).value].(password := hash)
  {
    match FindUserByEmail(users, email)
    case None => users
    case Some(i) => users[i := users[i].(password := hash)]
  }

  /** Replaces the password of the first case login with the e-mail, if any. */
  function SetCasePassword(logins: seq<CaseLogin>, email: string, hash: string): (r: seq<CaseLogin>)
    ensures |r| == |logins|
    ensures forall i :: 0 <= i < |r| && Some(i) != FindCaseLogin(logins, email) ==> r[i] == logins[i]
    ensures FindCaseLogin(logins, email).Some? ==>
              r[FindCaseLogin(logins, email).value] == logins[FindCaseLogin(logins, email).value].(password := Some(hash))
  {
    match FindCaseLogin(logins, email)
    case None => logins
    case Some(i) => logins[i := logins[i].(password := Some(hash))]
  }

  /** ResetPassword (POST): with a live token, the password of the account its type and e-mail
      name is re-hashed and the token is marked used at `now`; otherwise nothing changes. */
  function Reset(a: Accounts, token: string, password: string, now: Instant, ps: PasswordService): (r: (Accounts, bool))
    ensures !r.1 <==> LiveTokenIndex(a.tokens, token, now).None?
    ensures !r.1 ==> r.0 == a
    ensures r.1 ==>
      var t := a.tokens[LiveTokenIndex(a.tokens, token, now).value];
      && r.0.users == (if t.userType == "User" then SetUserPassword(a.users, t.email, ps.hash(password)) else a.users)
      && r.0.logins == (if t.userType == "Case" then SetCasePassword(a.logins, t.email, ps.hash(password)) else a.logins)
  {
    match LiveTokenIndex(a.tokens, token, now)
    case None => (a, false)
    case Some(k) =>
      var t := a.tokens[k];
      var hash := ps.hash(password);
      var users := if t.userType == "User" then SetUserPassword(a.users, t.email, hash) else a.users;
      var logins := if t.userType == "Case" then SetCasePassword(a.logins, t.email, hash) else a.logins;
      (Accounts(users, logins, a.tokens[k := t.(isUsed := true, usedAt := Some(now))]), true)
  }

  /** No two tokens share their text. */
  predicate TokenTextsDistinct(tokens: seq<PasswordResetToken>) {
    forall i, j :: 0 <= i < j < |tokens| ==> tokens[i].token != tokens[j].token
  }

  /** A token redeems once: after a successful reset, the same token is rejected at any later time. */
  lemma ResetIsSingleUse(a: Accounts, token: string, password: string, password': string, now: Instant,
                         later: Instant, ps: PasswordService)
    requires TokenTextsDistinct(a.tokens)
    requires Reset(a, token, password, now, ps).1
    ensures !Reset(Reset(a, token, password, now, ps).0, token, password', later, ps).1
  {
    var k := LiveTokenIndex(a.tokens, token, now).value;
    var b := Reset(a, token, password, now, ps).0;
    assert b.tokens == a.tokens[k := a.tokens[k].(isUsed := true, usedAt := Some(now))];
    forall i | 0 <= i < |b.tokens| && b.tokens[i].token == token ensures !Live(b.tokens[i], later) {
      assert i == k;
    }
  }

  /** A reset never touches other tokens, and a donor token leaves case logins alone. */
  lemma ResetFrame(a: Accounts, token: string, password: string, now: Instant, ps: PasswordService)
    requires Reset(a, token, password, now, ps).1
    ensures var k := LiveTokenIndex(a.tokens, token, now).value;
            var b := Reset(a, token, password, now, ps).0;
            && |b.tokens| == |a.tokens|
            && (forall i :: 0 <= i < |a.tokens| && i != k ==> b.tokens[i] == a.tokens[i])
            && b.tokens[k].isUsed && b.tokens[k].usedAt == Some(now)
            && (a.tokens[k].userType == "User" ==> b.logins == a.logins)
            && (a.tokens[k].userType != "User" ==> b.users == a.users)
  {
  }

  /** After a donor resets the password, logging in with the new password succeeds. */
  lemma LoginAfterReset(a: Accounts, cases: seq<Case>, token: string, password: string, now: Instant,
                        ps: PasswordService)
    requires HashesVerify(ps, password)
    requires LiveTokenIndex(a.tokens, token, now).Some?
    requires a.tokens[LiveTokenIndex(a.tokens, token, now).value].userType == "User"
    requires EmailInUse(a.users, a.tokens[LiveTokenIndex(a.tokens, token, now).value].email)
    ensures var email := a.tokens[LiveTokenIndex(a.tokens, token, now).value].email;
            var b := Reset(a, token, password, now, ps).0;
            Login(b.users, b.logins, cases, email, password, ps).SignedIn?
  {
    var k := LiveTokenIndex(a.tokens, token, now).value;
    var email := a.tokens[k].email;
    var b := Reset(a, token, password, now, ps).0;
    var i := FindUserByEmail(a.users, email);
    assert i.Some? by {
      var j :| 0 <= j < |a.users| && a.users[j].email == email;
    }
    FirstIndexStable(a.users, b.users, i.value, (u: User) => u.email == email);
    HashIsNotMarker(ps, password);
    assert UserAccepts(b.users, email, password, ps);
  }

  /** After a case resets its password, its login accepts the new password, so logging in with it
      succeeds (as a donor first, should a donor account with the e-mail accept it too). */
  lemma LoginAfterCaseReset(a: Accounts, cases: seq<Case>, token: string, password: string, now: Instant,
                            ps: PasswordService)
    requires HashesVerify(ps, password)
    requires LiveTokenIndex(a.tokens, token, now).Some?
    requires a.tokens[LiveTokenIndex(a.tokens, token, now).value].userType == "Case"
    requires IsCaseEmail(a.logins, a.tokens[LiveTokenIndex(a.tokens, token, now).value].email)
    ensures var email := a.tokens[LiveTokenIndex(a.tokens, token, now).value].email;
            var b := Reset(a, token, password, now, ps).0;
            && CaseAccepts(b.logins, email, password, ps)
            && Login(b.users, b.logins, cases, email, password, ps).SignedIn?
  {
    var k := LiveTokenIndex(a.tokens, token, now).value;
    var email := a.tokens[k].email;
    var b := Reset(a, token, password, now, ps).0;
    var i := FindCaseLogin(a.logins, email);
    assert i.Some? by {
      var j :| 0 <= j < |a.logins| && a.logins[j].email == email;
    }
    FirstIndexStable(a.logins, b.logins, i.value, (c: CaseLogin) => c.email == email);
    HashIsNotMarker(ps, password);
    assert CaseAccepts(b.logins, email, password, ps);
  }

  // ---------------------------------------------------------------------------------------------
  // Controller

  /** The controller over the account tables; `passwords` is the hashing service. */
  class AuthController {
    var users: seq<User>
    var logins: seq<CaseLogin>
    var cases: seq<Case>
    var tokens: seq<PasswordResetToken>
    const passwords: PasswordService

    constructor (users: seq<User>, logins: seq<CaseLogin>, cases: seq<Case>, tokens: seq<PasswordResetToken>,
                 passwords: PasswordService)
      ensures this.users == users && this.logins == logins && this.cases == cases && this.tokens == tokens
      ensures this.passwords == passwords
    {
      this.users := users;
      this.logins := logins;
      this.cases := cases;
      this.tokens := tokens;
      this.passwords := passwords;
    }

    /** Login (POST): changes no table; the outcome is the one Login describes. */
    method SignIn(email: string, password: string) returns (outcome: LoginOutcome)
      ensures outcome == Login(users, logins, cases, email, password, passwords)
    {
      var ui := FindUserByEmail(users, email);
      if ui.Some? && ValidatePassword(passwords, password, users[ui.value].password) {
        var u := users[ui.value];
        return SignedIn(Principal(IntToString(u.userId), u.name.GetOr("使用者"), "User", u.email));
      }
      var ci := FindCaseLogin(logins, email);
      if ci.None? {
        return Rejected;
      }
      var c := logins[ci.value];
      if c.password.None? {
        return Fault;
      }
      if ValidatePassword(passwords, password, c.password.value) {
        return SignedIn(Principal(IntToString(c.caseId), CaseName(cases, c.caseId), "Case", c.email));
      }
      return Rejected;
    }

    /** Register (POST): a taken e-mail is reported before a taken identity number; on either, no
        row is added. Otherwise the new account is appended; `userId` is the key the database assigns. */
    method Register(form: RegisterForm, userId: int) returns (outcome: RegisterOutcome)
      modifies this
      ensures outcome == EmailTaken <==> EmailInUse(old(users), form.email)
      ensures outcome == IdentityTaken <==> !EmailInUse(old(users), form.email) && IdentityInUse(old(users), form.identityNumber)
      ensures outcome.Registered? ==> outcome.user == NewUser(form, userId, passwords) && users == old(users) + [outcome.user]
      ensures !outcome.Registered? ==> users == old(users)
      ensures logins == old(logins) && cases == old(cases) && tokens == old(tokens)
    {
      if FindUserByEmail(users, form.email).Some? {
        return EmailTaken;
      }
      if FirstIndex(users, (u: User) => u.identityNumber == form.identityNumber).Some? {
        return IdentityTaken;
      }
      var newUser := User(userId, form.identityNumber, form.email, passwords.hash(form.password), form.phone,
                          Some(form.name), Some(DefaultAvatar));
      users := users + [newUser];
      outcome := Registered(newUser);
    }

    /** ExternalLoginCallback: signs in the Google account with the e-mail claim, creating it on first
        sign-in. `userId` is the key the database assigns and `stamp` the clock as yyyyMMddHHmmss. */
    method ExternalLoginCallback(authenticated: bool, claims: map<string, string>, userId: int, stamp: string)
      returns (outcome: ExternalOutcome)
      modifies this
      ensures !authenticated ==> outcome == AuthenticationFailed && users == old(users)
      ensures authenticated && IsNullOrEmpty(FindFirst(claims, EmailClaim)) ==> outcome == NoEmail && users == old(users)
      ensures authenticated && !IsNullOrEmpty(FindFirst(claims, EmailClaim)) ==>
                var email := FindFirst(claims, EmailClaim).value;
                && outcome.ExternalSignedIn? && outcome.principal.role == "User"
                && (EmailInUse(old(users), email) ==> users == old(users))
                && (!EmailInUse(old(users), email) ==> users == old(users) + [GoogleNewUser(claims, email, userId, stamp)])
                && (EmailInUse(old(users), email) ==>
                      var u := old(users)[FindUserByEmail(old(users), email).value];
                      outcome.principal == Principal(IntToString(u.userId), u.name.GetOr("使用者"), "User", u.email))
                && (!EmailInUse(old(users), email) ==>
                      outcome.principal == Principal(IntToString(userId), GoogleUserName(FindFirst(claims, NameClaim)),
                                                     "User", GoogleEmail(email)))
      ensures logins == old(logins) && cases == old(cases) && tokens == old(tokens)
    {
      if !authenticated {
        return AuthenticationFailed;
      }
      var email := FindFirst(claims, EmailClaim);
      var name := FindFirst(claims, NameClaim);
      var picture := Picture(claims);
      if IsNullOrEmpty(email) {
        return NoEmail;
      }
      var existing := FindUserByEmail(users, email.value);
      var account: User;
      if existing.None? {
        var userName := name.GetOr("Google 用戶");
        if |userName| > 50 {
          userName := userName[..50];
        }
        var profileImageUrl := picture;
        if !IsNullOrEmpty(profileImageUrl) && |profileImageUrl.value| > 255 {
          profileImageUrl := Some(profileImageUrl.value[..255]);
        }
        if IsNullOrEmpty(profileImageUrl) {
          profileImageUrl := Some(DefaultAvatar);
        }
        var userEmail := email.value;
        if |userEmail| > 100 {
          userEmail := userEmail[..100];
        }
        account := User(userId, "TEMP" + stamp, userEmail, GoogleOAuthMarker, None, Some(userName), profileImageUrl);
        users := users + [account];
      } else {
        account := users[existing.value];
      }
      outcome := ExternalSignedIn(Principal(IntToString(account.userId), account.name.GetOr("使用者"), "User",
                                            account.email));
    }

    /** ForgotPassword (POST): issues a fifteen-minute token unless the e-mail is unknown or already
        has a live one; `guid` is the fresh token text. Sending the e-mail is not modelled. */
    method ForgotPassword(email: string, now: Instant, guid: string)
      modifies this
      ensures tokens == IssueToken(old(users), old(logins), old(tokens), email, now, guid)
      ensures users == old(users) && logins == old(logins) && cases == old(cases)
    {
      var isUser := FindUserByEmail(users, email).Some?;
      var isCase := FindCaseLogin(logins, email).Some?;
      if !isUser && !isCase {
        return;
      }
      var existing := FirstIndex(tokens, (t: PasswordResetToken) => t.email == email && t.expiresAt > now && !t.isUsed);
      if existing.Some? {
        return;
      }
      var token := PasswordResetToken(email, guid, if isUser then "User" else "Case", now,
                                      now + 15 * TicksPerMinute, false, None);
      tokens := tokens + [token];
    }

    /** ResetPassword (POST): redeems a live token; reports whether it was accepted. */
    method ResetPassword(token: string, password: string, now: Instant) returns (accepted: bool)
      modifies this
      ensures (Accounts(users, logins, tokens), accepted) == Reset(old(Accounts(users, logins, tokens)), token, password, now, passwords)
      ensures cases == old(cases)
    {
      var k := LiveTokenIndex(tokens, token, now);
      if k.None? {
        return false;
      }
      var resetToken := tokens[k.value];
      if resetToken.userType == "User" {
        var u := FindUserByEmail(users, resetToken.email);
        if u.Some? {
          users := users[u.value := users[u.value].(password := passwords.hash(password))];
        }
      } else if resetToken.userType == "Case" {
        var c := FindCaseLogin(logins, resetToken.email);
        if c.Some? {
          logins := logins[c.value := logins[c.value].(password := Some(passwords.hash(password)))];
        }
      }
      tokens := tokens[k.value := resetToken.(isUsed := true, usedAt := Some(now))];
      accepted := true;
    }
  }
}
