/**
  The magic-link login of `lib/auth-utils.ts` and the route
  `app/api/auth/verify/route.ts` that consumes the link.

  The two in-memory records (tokens and users, both keyed by email) are a
  value passed in and returned. The clock is a whole number of milliseconds
  and the uuids are parameters. Session cookies are not modelled: the route
  reports the user a session is created for.
 */
module AuthUtils {
  import opened Strings

  datatype Role = Admin | Member

  datatype User = User(id: string, email: string, role: Role)

  datatype TokenEntry = TokenEntry(token: string, expires: int, userId: string)

  datatype Store = Store(tokens: map<string, TokenEntry>, users: map<string, User>)

  /** Fifteen minutes in milliseconds. */
  const TokenLifetime: int := 15 * 60 * 1000

  const InvalidLink: string := "Invalid verification link"
  const ExpiredLink: string := "Verification link has expired"
  const UserNotFound: string := "User not found"

  /** The role a new user gets: admin when the email mentions "admin" or "rowdy", case-sensitively. */
  function RoleFor(email: string): (r: Role)
    ensures r == Admin <==> Contains(email, "admin") || Contains(email, "rowdy")
  {
    if Contains(email, "admin") || Contains(email, "rowdy") then Admin else Member
  }

  datatype Issued = Issued(store: Store, token: string)

  /**
    `generateVerificationToken(email)`: the user is created on first use and
    kept afterwards, and the email's token is replaced by a fresh one valid
    for fifteen minutes.
   */
  function GenerateVerificationToken(store: Store, email: string, now: int, newUserId: string, newToken: string): (r: Issued)
    ensures email in r.store.users
    ensures email in store.users ==> r.store.users == store.users
    ensures email !in store.users ==> r.store.users == store.users[email := User(newUserId, email, RoleFor(email))]
    ensures r.store.tokens == store.tokens[email := TokenEntry(newToken, now + TokenLifetime, r.store.users[email].id)]
    ensures r.token == newToken
  {
    var users := if email in store.users then store.users else store.users[email := User(newUserId, email, RoleFor(email))];
    Issued(Store(store.tokens[email := TokenEntry(newToken, now + TokenLifetime, users[email].id)], users), newToken)
  }

  datatype Verification = Valid(user: User) | Invalid(error: string)

  datatype Checked = Checked(store: Store, result: Verification)

  /**
    `verifyToken(email, token)`. The checks run in order: a stored entry,
    the same token, not past the expiry (the comparison is strict, so the
    expiry instant itself still passes), a user. An expired entry is deleted;
    a successful check deletes the entry too, so a link works once.
   */
  function VerifyToken(store: Store, email: string, token: string, now: int): (r: Checked)
    ensures email !in store.tokens ==> r == Checked(store, Invalid(InvalidLink))
    ensures email in store.tokens && store.tokens[email].token != token ==> r == Checked(store, Invalid(InvalidLink))
    ensures email in store.tokens && store.tokens[email].token == token && now > store.tokens[email].expires ==>
      r == Checked(store.(tokens := store.tokens - {email}), Invalid(ExpiredLink))
    ensures email in store.tokens && store.tokens[email].token == token && now <= store.tokens[email].expires ==>
      if email in store.users then r == Checked(store.(tokens := store.tokens - {email}), Valid(store.users[email]))
      else r == Checked(store, Invalid(UserNotFound))
  {
    if email !in store.tokens then Checked(store, Invalid(InvalidLink))
    else if store.tokens[email].token != token then Checked(store, Invalid(InvalidLink))
    else if now > store.tokens[email].expires then Checked(store.(tokens := store.tokens - {email}), Invalid(ExpiredLink))
    else if email !in store.users then Checked(store, Invalid(UserNotFound))
    else Checked(store.(tokens := store.tokens - {email}), Valid(store.users[email]))
  }

  /** A link followed within fifteen minutes of being issued logs its user in. */
  lemma IssuedLinkVerifies(store: Store, email: string, issuedAt: int, newUserId: string, newToken: string, now: int)
    requires Consistent(store)
    requires now <= issuedAt + TokenLifetime
    ensures var issued := GenerateVerificationToken(store, email, issuedAt, newUserId, newToken);
      var checked := VerifyToken(issued.store, email, issued.token, now);
      checked.result.Valid? && checked.result.user.email == email
      && (email !in store.users ==> checked.result.user == User(newUserId, email, RoleFor(email)))
  {
  }

  /** The expiry instant is still in time; one millisecond later is not. */
  lemma ExpiryIsInclusive(store: Store, email: string, issuedAt: int, newUserId: string, newToken: string)
    ensures var issued := GenerateVerificationToken(store, email, issuedAt, newUserId, newToken);
      VerifyToken(issued.store, email, newToken, issuedAt + TokenLifetime).result.Valid?
      && VerifyToken(issued.store, email, newToken, issuedAt + TokenLifetime + 1).result == Invalid(ExpiredLink)
  {
  }

  /** A link works once: after a successful check the same link is invalid. */
  lemma SingleUse(store: Store, email: string, token: string, now: int, later: int)
    requires VerifyToken(store, email, token, now).result.Valid?
    ensures VerifyToken(VerifyToken(store, email, token, now).store, email, token, later).result == Invalid(InvalidLink)
  {
  }

  /** After an expired check the entry is gone, so a retry reads as an invalid link. */
  lemma ExpiredThenInvalid(store: Store, email: string, token: string, now: int, later: int)
    requires VerifyToken(store, email, token, now).result == Invalid(ExpiredLink)
    ensures VerifyToken(VerifyToken(store, email, token, now).store, email, token, later).result == Invalid(InvalidLink)
  {
  }

  /** A wrong token neither logs in nor uses up the stored one. */
  lemma WrongTokenKeepsEntry(store: Store, email: string, token: string, wrong: string, now: int)
    requires email in store.tokens && store.tokens[email].token == token && wrong != token
    ensures VerifyToken(store, email, wrong, now) == Checked(store, Invalid(InvalidLink))
  {
  }

  /** Every stored token belongs to a known user, and every user is filed under their own email. */
  predicate Consistent(store: Store) {
    (forall email :: email in store.tokens ==> email in store.users)
    && (forall email :: email in store.users ==> store.users[email].email == email)
  }

  /** Issuing and checking tokens keep the records consistent. */
  lemma ConsistentPreserved(store: Store, email: string, token: string, now: int, newUserId: string, newToken: string)
    requires Consistent(store)
    ensures Consistent(GenerateVerificationToken(store, email, now, newUserId, newToken).store)
    ensures Consistent(VerifyToken(store, email, token, now).store)
  {
  }

  /** So, starting from empty records, "User not found" is never the answer. */
  lemma UserAlwaysFound(store: Store, email: string, token: string, now: int)
    requires Consistent(store)
    ensures VerifyToken(store, email, token, now).result != Invalid(UserNotFound)
  {
  }

  /**
    How `new URL(path, base)` writes the query: a space becomes "%20" and the
    other characters of the query percent-encode set that can occur here
    become their escapes.
   */
  function EncodeQuery(s: string): (r: string)
    ensures ' ' !in r
    ensures (forall k :: 0 <= k < |s| ==> s[k] != ' ' && s[k] != '"' && s[k] != '<' && s[k] != '>' && s[k] != '\'') ==> r == s
  {
    if |s| == 0 then ""
    else
      var head :=
        if s[0] == ' ' then "%20"
        else if s[0] == '"' then "%22"
        else if s[0] == '<' then "%3C"
        else if s[0] == '>' then "%3E"
        else if s[0] == '\'' then "%27"
        else [s[0]];
      var rest := EncodeQuery(s[1..]);
      assert ' ' !in head;
      head + rest
  }

  datatype Response = Response(store: Store, location: string, session: Option<User>)

  const InvalidLinkLocation: string := "/?error=invalid_link"
  const SuccessLocation: string := "/?login=success"

  /**
    `GET /api/auth/verify?email=…&token=…`. A missing or empty parameter
    redirects without looking at the store; otherwise the check decides, and
    only a valid link creates a session.
   */
  function VerifyRoute(store: Store, email: Option<string>, token: Option<string>, now: int): (r: Response)
    ensures email.None? || token.None? || email == Some("") || token == Some("") ==>
      r == Response(store, InvalidLinkLocation, None)
    ensures email.Some? && token.Some? && email.value != "" && token.value != "" ==>
      var checked := VerifyToken(store, email.value, token.value, now);
      r.store == checked.store
      && (checked.result.Valid? ==> r.location == SuccessLocation && r.session == Some(checked.result.user))
      && (checked.result.Invalid? ==> r.location == "/?error=" + EncodeQuery(checked.result.error) && r.session.None?)
  {
    if email.None? || token.None? || email.value == "" || token.value == "" then
      Response(store, InvalidLinkLocation, None)
    else
      var checked := VerifyToken(store, email.value, token.value, now);
      match checked.result
      case Valid(user) => Response(checked.store, SuccessLocation, Some(user))
      case Invalid(error) => Response(checked.store, "/?error=" + EncodeQuery(error), None)
  }

  /** A session is created exactly when the redirect reports success. */
  lemma SessionIffSuccess(store: Store, email: Option<string>, token: Option<string>, now: int)
    ensures var r := VerifyRoute(store, email, token, now);
      r.session.Some? <==> r.location == SuccessLocation
  {
    var r := VerifyRoute(store, email, token, now);
    if r.session.None? {
      assert r.location[1] == '?';
      if r.location != InvalidLinkLocation {
        assert r.location[..8] == "/?error=";
        assert SuccessLocation[2] != r.location[2];
      } else {
        assert InvalidLinkLocation[2] != SuccessLocation[2];
      }
    }
  }

  /** An issued link followed in time logs in and redirects to the success page. */
  lemma IssuedLinkRedirectsToSuccess(store: Store, email: string, issuedAt: int, newUserId: string, newToken: string, now: int)
    requires Consistent(store)
    requires email != "" && newToken != "" && now <= issuedAt + TokenLifetime
    ensures var issued := GenerateVerificationToken(store, email, issuedAt, newUserId, newToken);
      var r := VerifyRoute(issued.store, Some(email), Some(issued.token), now);
      r.location == SuccessLocation && r.session.Some? && r.session.value.email == email
      && email !in r.store.tokens
  {
  }
}
