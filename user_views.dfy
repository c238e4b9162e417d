/**
 * The user app's views: registration of an inactive account with an emailed
 * confirmation link, confirmation by token, and password reset by email.
 *
 * The user table is a map from primary key to row held by an Accounts object.
 * The random token, the generated password, the request's host and whether
 * `send_mail` succeeds are inputs; a sent message is returned as a value.
 */
module UserViews {
  import opened Common
  import CatalogModels

  /** The same key the catalog's `owner` foreign key refers to. */
  type UserId = CatalogModels.UserId

  /**
   * The stored `password` field: a string assigned as is, or what
   * `set_password` stores. Hashed(p) stands for the hash of p; the hash
   * function itself is not modelled.
   */
  datatype Password = Plain(text: string) | Hashed(of: string)

  datatype User = User(email: string, password: Password, isActive: bool, token: Option<string>)

  datatype Mail = Mail(subject: string, body: string, recipients: seq<string>)

  /** `secrets.token_hex(16)`: 16 random bytes written as 32 lower-case hex digits. */
  const TokenLength: nat := 32
  const HexDigits: string := "0123456789abcdef"

  /** `generate_password(10)`. */
  const NewPasswordLength: nat := 10

  predicate IsHexToken(t: string) {
    |t| == TokenLength && forall i | 0 <= i < |t| :: t[i] in HexDigits
  }

  // ---------------------------------------------------------------------
  // The confirmation link

  const UrlScheme: string := "http://"
  const ConfirmPath: string := "/users/email-confirm/"

  function ConfirmPrefix(host: string): string {
    UrlScheme + host + ConfirmPath
  }

  /** `f"http://{host}/users/email-confirm/{token}/"`: the token sits between the prefix and the final slash. */
  function ConfirmationUrl(host: string, token: string): (url: string)
    ensures |url| == |ConfirmPrefix(host)| + |token| + 1
    ensures url[..|ConfirmPrefix(host)|] == ConfirmPrefix(host)
    ensures url[|ConfirmPrefix(host)|..|url| - 1] == token
    ensures url[|url| - 1] == '/'
  {
    ConfirmPrefix(host) + token + "/"
  }

  /** The token the `users/email-confirm/<token>/` route reads out of a link on `host`. */
  function TokenFromConfirmationUrl(host: string, url: string): (r: Option<string>)
    ensures r.Some? ==> r.value != [] && '/' !in r.value
  {
    var prefix := ConfirmPrefix(host);
    if |url| > |prefix| + 1 && url[..|prefix|] == prefix && url[|url| - 1] == '/'
       && '/' !in url[|prefix|..|url| - 1]
    then Some(url[|prefix|..|url| - 1])
    else None
  }

  /** The link carries the token: the route reads back exactly the token that was sent. */
  lemma ConfirmationUrlRoundTrip(host: string, token: string)
    requires IsHexToken(token)
    ensures TokenFromConfirmationUrl(host, ConfirmationUrl(host, token)) == Some(token)
  {
    assert '/' !in token by {
      assert forall i | 0 <= i < |token| :: token[i] != '/';
    }
  }

  /** Every link the route accepts is the link built for the token it reads. */
  lemma ConfirmationUrlIsTheOnlyLink(host: string, url: string)
    requires TokenFromConfirmationUrl(host, url).Some?
    ensures url == ConfirmationUrl(host, TokenFromConfirmationUrl(host, url).value)
  {
    var prefix := ConfirmPrefix(host);
    var token := TokenFromConfirmationUrl(host, url).value;
    assert url == url[..|prefix|] + url[|prefix|..|url| - 1] + [url[|url| - 1]];
  }

  function RegistrationMail(email: string, url: string): (m: Mail)
    ensures m.recipients == [email]
    ensures |m.body| >= |url| && m.body[|m.body| - |url|..] == url
  {
    Mail("Ларёк - подтверждение Email",
         "Привет, " + email + "! Для окончания регистрации в интернет-магазине Ларёк, перейди по ссылке - " + url,
         [email])
  }

  function ResetMail(email: string, password: string): (m: Mail)
    ensures m.recipients == [email]
    ensures |m.body| >= |password| && m.body[|m.body| - |password|..] == password
  {
    Mail("Ларёк - восстановление пароля",
         "Привет, " + email + "! Это твой новый пароль для входа в интернет-магазине Ларёк - " + password,
         [email])
  }

  // ---------------------------------------------------------------------
  // Registration

  /** The user table after registering `email` under the fresh key `id`. */
  function Registered(users: map<UserId, User>, id: UserId, email: string, password: string, token: string)
    : (r: map<UserId, User>)
    requires id !in users
    ensures r.Keys == users.Keys + {id}
    ensures !r[id].isActive && r[id].token == Some(token)
    ensures r[id].email == email && r[id].password == Hashed(password)
    ensures forall u | u in users :: r[u] == users[u]
  {
    users[id := User(email, Hashed(password), false, Some(token))]
  }

  // ---------------------------------------------------------------------
  // Confirmation by token

  /** A one-element set is the singleton of any of its members. */
  lemma SingletonIs<T>(s: set<T>, x: T)
    requires |s| == 1 && x in s
    ensures s == {x}
  {
    assert |s - {x}| == |s| - 1;
  }

  function TokenMatches(users: map<UserId, User>, token: string): (r: set<UserId>)
    ensures forall id :: id in r <==> id in users && users[id].token == Some(token)
  {
    set id | id in users && users[id].token == Some(token)
  }

  datatype VerifyOutcome = RedirectToLogin | NotFound | MultipleFound

  /** `get_object_or_404(User, token=token)`: no match is a 404, several are an uncaught error. */
  function VerifyResult(users: map<UserId, User>, token: string): (r: VerifyOutcome)
    ensures r == RedirectToLogin <==> exists id :: TokenMatches(users, token) == {id}
    ensures r == NotFound <==> forall id | id in users :: users[id].token != Some(token)
  {
    var matches := TokenMatches(users, token);
    if |matches| == 0 then NotFound
    else if |matches| == 1 then
      var id :| id in matches;
      SingletonIs(matches, id);
      RedirectToLogin
    else
      assert forall id :: matches != {id};
      MultipleFound
  }

  /** The user table after visiting the confirmation link of `token`. */
  function Verified(users: map<UserId, User>, token: string): (r: map<UserId, User>)
    ensures r.Keys == users.Keys
    ensures forall id | id in users :: r[id] == users[id].(isActive := r[id].isActive)
    ensures VerifyResult(users, token) == RedirectToLogin ==>
              forall id | id in users :: r[id].isActive == (users[id].isActive || users[id].token == Some(token))
    ensures VerifyResult(users, token) != RedirectToLogin ==> r == users
  {
    if VerifyResult(users, token) == RedirectToLogin then
      map id | id in users :: if users[id].token == Some(token) then users[id].(isActive := true) else users[id]
    else users
  }

  /** Confirming does not consume the token: the same users still match it. */
  lemma VerifyKeepsTokens(users: map<UserId, User>, token: string, other: string)
    ensures TokenMatches(Verified(users, token), other) == TokenMatches(users, other)
  {
  }

  /** Visiting the same link again changes nothing more and succeeds again. */
  lemma {:induction false} VerifyIsIdempotent(users: map<UserId, User>, token: string)
    ensures Verified(Verified(users, token), token) == Verified(users, token)
    ensures VerifyResult(Verified(users, token), token) == VerifyResult(users, token)
  {
    var once := Verified(users, token);
    VerifyKeepsTokens(users, token, token);
    assert VerifyResult(once, token) == VerifyResult(users, token);
    var twice := Verified(once, token);
    if VerifyResult(users, token) == RedirectToLogin {
      forall id | id in users ensures twice[id] == once[id] {
      }
    }
  }

  /** A freshly registered user whose token nobody else holds is activated by its link. */
  lemma {:induction false} RegisterThenVerify(users: map<UserId, User>, id: UserId, email: string,
                                             password: string, token: string)
    requires id !in users
    requires forall u | u in users :: users[u].token != Some(token)
    ensures var registered := Registered(users, id, email, password, token);
      && VerifyResult(registered, token) == RedirectToLogin
      && Verified(registered, token)[id].isActive
      && (forall u | u in users :: Verified(registered, token)[u] == users[u])
  {
    var registered := Registered(users, id, email, password, token);
    assert TokenMatches(registered, token) == {id};
  }

  // ---------------------------------------------------------------------
  // Password reset

  function EmailMatches(users: map<UserId, User>, email: string): (r: set<UserId>)
    ensures forall id :: id in r <==> id in users && users[id].email == email
  {
    set id | id in users && users[id].email == email
  }

  /**
   * The user table after a reset request for `email`: `User.objects.get`
   * finds a single user, whose password field ends up holding the hash.
   */
  function AfterReset(users: map<UserId, User>, email: string, newPassword: string): (r: map<UserId, User>)
    ensures r.Keys == users.Keys
    ensures forall id | id in users :: r[id] == users[id].(password := r[id].password)
    ensures |EmailMatches(users, email)| == 1 ==>
              forall id | id in users :: r[id].password == (if users[id].email == email then Hashed(newPassword) else users[id].password)
    ensures |EmailMatches(users, email)| != 1 ==> r == users
  {
    if |EmailMatches(users, email)| == 1 then
      map id | id in users :: if users[id].email == email then users[id].(password := Hashed(newPassword)) else users[id]
    else users
  }

  /** After a reset the password field holds the hash of the new password, never the password itself. */
  lemma {:induction false} ResetStoresOnlyTheHash(users: map<UserId, User>, email: string, newPassword: string, id: UserId)
    requires EmailMatches(users, email) == {id}
    ensures var r := AfterReset(users, email, newPassword);
      && r[id].password == Hashed(newPassword)
      && r[id].password != Plain(newPassword)
      && (forall u | u in users && u != id :: r[u] == users[u])
  {
    assert |EmailMatches(users, email)| == 1;
    assert id in users;
  }

  datatype ResetOutcome = RedirectToNewPassword(mail: Mail) | RedirectToEmailNotFound | FrameworkReset

  /** Where a POSTed reset request redirects to. */
  function ResetResult(users: map<UserId, User>, email: string, newPassword: string, mailOk: bool): (r: ResetOutcome)
    ensures r.RedirectToNewPassword? <==> mailOk && |EmailMatches(users, email)| == 1
    ensures r.RedirectToNewPassword? ==> r.mail == ResetMail(email, newPassword) && r.mail.recipients == [email]
    ensures !r.RedirectToNewPassword? ==> r == RedirectToEmailNotFound
  {
    if |EmailMatches(users, email)| == 1 && mailOk
    then RedirectToNewPassword(ResetMail(email, newPassword))
    else RedirectToEmailNotFound
  }

  // ---------------------------------------------------------------------
  // The user table the views work on

  datatype RegisterOutcome = RedirectToEmailConfirm(user: UserId, mail: Mail) | MailNotSent(user: UserId)

  class Accounts {
    var users: map<UserId, User>
    var nextId: UserId

    ghost predicate Valid()
      reads this
    {
      forall id | id in users :: id < nextId
    }

    constructor ()
      ensures Valid() && users == map[]
    {
      users := map[];
      nextId := 0;
    }

    /** UserCreateView.form_valid: save, deactivate, store the token, save, mail the link. */
    method Register(email: string, password: string, host: string, token: string, mailOk: bool)
      returns (outcome: RegisterOutcome)
      requires Valid() && IsHexToken(token)
      modifies this
      ensures Valid()
      ensures old(nextId) !in old(users) && nextId == old(nextId) + 1
      ensures users == Registered(old(users), old(nextId), email, password, token)
      ensures outcome == if mailOk
                         then RedirectToEmailConfirm(old(nextId), RegistrationMail(email, ConfirmationUrl(host, token)))
                         else MailNotSent(old(nextId))
    {
      // user = form.save()
      var id := nextId;
      var user := User(email, Hashed(password), true, None);
      users := users[id := user];
      nextId := nextId + 1;
      // user.is_active = False; user.token = token; user.save()
      user := user.(isActive := false);
      user := user.(token := Some(token));
      users := users[id := user];
      var url := ConfirmationUrl(host, token);
      if !mailOk {
        return MailNotSent(id);
      }
      return RedirectToEmailConfirm(id, RegistrationMail(email, url));
    }

    /** email_verification: activate the one user holding `token`. */
    method VerifyEmail(token: string) returns (outcome: VerifyOutcome)
      requires Valid()
      modifies this
      ensures Valid() && nextId == old(nextId)
      ensures outcome == VerifyResult(old(users), token)
      ensures users == Verified(old(users), token)
    {
      var matches := set id | id in users && users[id].token == Some(token);
      assert matches == TokenMatches(users, token);
      if |matches| != 1 {
        return if |matches| == 0 then NotFound else MultipleFound;
      }
      var id :| id in matches;
      SingletonIs(matches, id);
      var user := users[id];
      user := user.(isActive := true);
      users := users[id := user];
      return RedirectToLogin;
    }

    /** UserPasswordResetView.form_valid. */
    method ResetPassword(isPost: bool, email: string, newPassword: string, mailOk: bool)
      returns (outcome: ResetOutcome)
      requires Valid() && |newPassword| == NewPasswordLength
      modifies this
      ensures Valid() && nextId == old(nextId)
      ensures !isPost ==> outcome == FrameworkReset && users == old(users)
      ensures isPost ==> outcome == ResetResult(old(users), email, newPassword, mailOk)
      ensures isPost ==> users == AfterReset(old(users), email, newPassword)
    {
      if !isPost {
        return FrameworkReset;
      }
      // user = User.objects.get(email=email)
      var matches := set id | id in users && users[id].email == email;
      assert matches == EmailMatches(users, email);
      if |matches| != 1 {
        return RedirectToEmailNotFound;
      }
      var id :| id in matches;
      var user := users[id];
      // user.password = password; user.set_password(password); user.save()
      user := user.(password := Plain(newPassword));
      user := user.(password := Hashed(newPassword));
      users := users[id := user];
      SingletonIs(matches, id);
      if !mailOk {
        // send_mail raised: the new password is already saved
        return RedirectToEmailNotFound;
      }
      return RedirectToNewPassword(ResetMail(email, newPassword));
    }
  }
}
