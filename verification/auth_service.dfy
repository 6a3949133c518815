/**
  The mock login service of `lib/auth-service.ts`: a verification code per
  email, the logged-in user, and the session copy of that user that
  survives a reload.

  `Math.random()` is the real `draw` in [0, 1), the uuids are parameters,
  and the session storage is the pair of its two entries; the user entry is
  kept as the record itself, so `JSON.stringify` and `JSON.parse` do not
  appear.
 */
module AuthService {
  import opened Strings
  import AuthUtils

  /** A piece of the email pattern `[^\s@]+`: non-empty, no whitespace, no "@". */
  predicate Part(x: string) {
    |x| > 0 && forall k :: 0 <= k < |x| ==> !IsWhitespace(x[k]) && x[k] != '@'
  }

  /** `s` matches `^[^\s@]+@[^\s@]+\.[^\s@]+$` with its "@" at `at` and the chosen "." at `dot`. */
  predicate EmailAt(s: string, at: int, dot: int) {
    0 <= at < dot < |s| && s[at] == '@' && s[dot] == '.'
    && Part(s[..at]) && Part(s[at + 1..dot]) && Part(s[dot + 1..])
  }

  /** The regular expression of `isValidEmail`. */
  ghost predicate EmailPattern(s: string) {
    exists at, dot :: EmailAt(s, at, dot)
  }

  /** A match has no whitespace, a single "@", and that "@" is not first. */
  lemma EmailAtFacts(s: string, at: int, dot: int)
    requires EmailAt(s, at, dot)
    ensures NoWhitespace(s)
    ensures forall k :: 0 <= k < |s| && s[k] == '@' ==> k == at
    ensures 0 < at && at + 1 < dot < |s| - 1
  {
    forall k | 0 <= k < |s|
      ensures !IsWhitespace(s[k]) && (s[k] == '@' ==> k == at)
    {
      if k < at {
        assert s[k] == s[..at][k];
      } else if at < k < dot {
        assert s[k] == s[at + 1..dot][k - at - 1];
      } else if dot < k {
        assert s[k] == s[dot + 1..][k - dot - 1];
      }
    }
  }

  /** A string with whitespace in it never matches. */
  lemma WhitespaceFails(s: string, k: nat)
    requires k < |s| && IsWhitespace(s[k])
    ensures !EmailPattern(s)
  {
    forall at, dot | EmailAt(s, at, dot)
      ensures NoWhitespace(s)
    {
      EmailAtFacts(s, at, dot);
    }
  }

  /** A string with two "@" never matches. */
  lemma TwoAtsFail(s: string, p: nat, q: nat)
    requires p < q < |s| && s[p] == '@' && s[q] == '@'
    ensures !EmailPattern(s)
  {
    forall at, dot | EmailAt(s, at, dot)
      ensures forall k :: 0 <= k < |s| && s[k] == '@' ==> k == at
    {
      EmailAtFacts(s, at, dot);
    }
  }

  /**
    `isValidEmail(email)`: one pass finds the only "@" and rejects
    whitespace, a second looks for a "." with a character on each side
    between it and the "@" and the end.
   */
  method IsValidEmail(email: string) returns (ok: bool)
    ensures ok <==> EmailPattern(email)
  {
    var at := -1;
    var i := 0;
    while i < |email|
      invariant 0 <= i <= |email|
      invariant -1 <= at < i
      invariant at >= 0 ==> email[at] == '@'
      invariant forall k :: 0 <= k < i ==> !IsWhitespace(email[k])
      invariant forall k :: 0 <= k < i && email[k] == '@' ==> k == at
    {
      if IsWhitespace(email[i]) {
        WhitespaceFails(email, i);
        return false;
      }
      if email[i] == '@' {
        if at >= 0 {
          TwoAtsFail(email, at, i);
          return false;
        }
        at := i;
      }
      i := i + 1;
    }
    if at <= 0 {
      return false;
    }
    var dot := at + 2;
    while dot < |email| - 1
      invariant at + 2 <= dot
      invariant forall k :: at + 2 <= k < dot && k < |email| - 1 ==> email[k] != '.'
    {
      if email[dot] == '.' {
        assert Part(email[..at]) by {
          forall k | 0 <= k < at ensures email[..at][k] == email[k] { }
        }
        assert Part(email[at + 1..dot]);
        assert Part(email[dot + 1..]);
        assert EmailAt(email, at, dot);
        return true;
      }
      dot := dot + 1;
    }
    return false;
  }

  /** Three strings the pattern accepts or refuses, and why the empty check adds nothing. */
  lemma EmailPatternExamples()
    ensures EmailPattern("a@b.c")
    ensures EmailPattern("first.last@mail.example.org")
    ensures !EmailPattern("")
  {
    assert EmailAt("a@b.c", 1, 3);
    var s := "first.last@mail.example.org";
    assert s[10] == '@' && s[15] == '.';
    assert Part(s[..10]) && Part(s[11..15]) && Part(s[16..]);
    assert EmailAt(s, 10, 15);
  }

  /**
    `generateVerificationCode()`: `Math.floor(100000 + draw * 900000)` written
    in decimal. The arithmetic is exact here.
   */
  function GenerateVerificationCode(draw: real): (code: string)
    requires 0.0 <= draw < 1.0
    ensures forall k :: 0 <= k < |code| ==> IsDigit(code[k])
    ensures DecimalValue(code) == (100000.0 + draw * 900000.0).Floor
  {
    NatToStringRoundTrip((100000.0 + draw * 900000.0).Floor as nat);
    NatToString((100000.0 + draw * 900000.0).Floor as nat)
  }

  /** A code is six decimal digits, without a leading zero, denoting a number in [100000, 999999]. */
  lemma {:induction false} CodeIsSixDigits(draw: real)
    requires 0.0 <= draw < 1.0
    ensures var code := GenerateVerificationCode(draw);
      |code| == 6 && (forall k :: 0 <= k < 6 ==> IsDigit(code[k]))
      && 100000 <= DecimalValue(code) <= 999999 && code[0] != '0'
  {
    var n := (100000.0 + draw * 900000.0).Floor;
    assert 100000 <= n <= 999999 by {
      assert draw * 900000.0 < 900000.0;
    }
    assert Pow10(5) == 100000 && Pow10(6) == 1000000;
    NatToStringLength(n as nat, 6);
    NatToStringRoundTrip(n as nat);
  }

  /**
    The service: the codes, the user in memory with its flag, and the two
    session-storage entries (`auth_user`, `auth_token`).
   */
  datatype Service = Service(
    codes: map<string, string>,
    currentUser: Option<AuthUtils.User>,
    isAuthenticated: bool,
    sessionUser: Option<AuthUtils.User>,
    sessionToken: Option<string>)

  /** A fresh service object in a tab whose session storage holds `sessionUser` and `sessionToken`. */
  function Fresh(sessionUser: Option<AuthUtils.User>, sessionToken: Option<string>): (s: Service)
    ensures s.codes == map[] && s.currentUser.None? && !s.isAuthenticated
    ensures s.sessionUser == sessionUser && s.sessionToken == sessionToken
  {
    Service(map[], None, false, sessionUser, sessionToken)
  }

  const InvalidEmailMessage: string := "Please enter a valid email address"
  const EmailSentMessage: string := "Verification email sent! Check your inbox."
  const InvalidCodeMessage: string := "Invalid verification code"
  const TokenPrefix: string := "email-login-token-"

  datatype Reply = Reply(success: bool, message: Option<string>, user: Option<AuthUtils.User>)

  /** A successful request records `code` as the email's code, replacing any earlier one. */
  function StoreCode(s: Service, email: string, code: string): (r: Service)
    ensures r.codes == s.codes[email := code]
    ensures r.currentUser == s.currentUser && r.isAuthenticated == s.isAuthenticated
    ensures r.sessionUser == s.sessionUser && r.sessionToken == s.sessionToken
  {
    s.(codes := s.codes[email := code])
  }

  /** `requestEmailLogin(email)` */
  method RequestEmailLogin(s: Service, email: string, draw: real) returns (r: Service, reply: Reply)
    requires 0.0 <= draw < 1.0
    ensures !EmailPattern(email) ==> r == s && reply == Reply(false, Some(InvalidEmailMessage), None)
    ensures EmailPattern(email) ==>
      r == StoreCode(s, email, GenerateVerificationCode(draw))
      && reply == Reply(true, Some(EmailSentMessage), None)
  {
    var valid := IsValidEmail(email);
    if email == "" || !valid {
      return s, Reply(false, Some(InvalidEmailMessage), None);
    }
    r := StoreCode(s, email, GenerateVerificationCode(draw));
    reply := Reply(true, Some(EmailSentMessage), None);
  }

  /** The user a login creates: a new id every time, the role by the same rule as the link login. */
  function NewUser(email: string, id: string): (u: AuthUtils.User)
    ensures u.id == id && u.email == email
    ensures u.role == AuthUtils.Admin <==> Contains(email, "admin") || Contains(email, "rowdy")
  {
    AuthUtils.User(id, email, AuthUtils.RoleFor(email))
  }

  /** Setting the user in memory and `saveSession(user)`, with `tokenId` the uuid of the mock token. */
  function LogIn(s: Service, user: AuthUtils.User, tokenId: string): (r: Service)
    ensures r.currentUser == Some(user) && r.isAuthenticated
    ensures r.sessionUser == Some(user) && r.sessionToken == Some(TokenPrefix + tokenId)
    ensures r.codes == s.codes
  {
    s.(currentUser := Some(user), isAuthenticated := true, sessionUser := Some(user), sessionToken := Some(TokenPrefix + tokenId))
  }

  /**
    `verifyEmailLogin(email, code)`. A missing code, a stored empty code and
    a different code all fail alike; success uses the code up.
   */
  function VerifyEmailLogin(s: Service, email: string, code: string, id: string, tokenId: string): (out: (Service, Reply))
    ensures email !in s.codes || s.codes[email] == "" || s.codes[email] != code ==>
      out == (s, Reply(false, Some(InvalidCodeMessage), None))
    ensures email in s.codes && s.codes[email] != "" && s.codes[email] == code ==>
      out.0.codes == s.codes - {email}
      && out.0.currentUser == Some(NewUser(email, id)) && out.0.isAuthenticated
      && out.1 == Reply(true, None, Some(NewUser(email, id)))
  {
    if email !in s.codes || s.codes[email] == "" || s.codes[email] != code then
      (s, Reply(false, Some(InvalidCodeMessage), None))
    else
      var user := NewUser(email, id);
      (LogIn(s.(codes := s.codes - {email}), user, tokenId), Reply(true, None, Some(user)))
  }

  /** `autoVerifyForDemo(email)`: any email at all is logged in, and the codes are not looked at. */
  function AutoVerifyForDemo(s: Service, email: string, id: string, tokenId: string): (out: (Service, Reply))
    ensures out.0 == LogIn(s, NewUser(email, id), tokenId)
    ensures out.1 == Reply(true, None, Some(NewUser(email, id)))
  {
    var user := NewUser(email, id);
    (LogIn(s, user, tokenId), Reply(true, None, Some(user)))
  }

  /** `logout()`: the user is forgotten in memory and in the session; the codes stay. */
  function Logout(s: Service): (r: Service)
    ensures r.currentUser.None? && !r.isAuthenticated && r.sessionUser.None? && r.sessionToken.None?
    ensures r.codes == s.codes
  {
    s.(currentUser := None, isAuthenticated := false, sessionUser := None, sessionToken := None)
  }

  /** Logging out twice is logging out once. */
  lemma LogoutIdempotent(s: Service)
    ensures Logout(Logout(s)) == Logout(s)
  {
  }

  /**
    `getCurrentUser()`: the user in memory, or else the session's user, which
    is then taken into memory.
   */
  function GetCurrentUser(s: Service): (out: (Service, Option<AuthUtils.User>))
    ensures s.currentUser.Some? ==> out == (s, s.currentUser)
    ensures s.currentUser.None? ==> out.1 == s.sessionUser
    ensures s.currentUser.None? && s.sessionUser.Some? ==>
      out.0 == s.(currentUser := s.sessionUser, isAuthenticated := true)
    ensures s.currentUser.None? && s.sessionUser.None? ==> out.0 == s
  {
    if s.currentUser.Some? then (s, s.currentUser)
    else if s.sessionUser.Some? then (s.(currentUser := s.sessionUser, isAuthenticated := true), s.sessionUser)
    else (s, None)
  }

  /** `isLoggedIn()` */
  function IsLoggedIn(s: Service): (out: (Service, bool))
    ensures out.1 <==> s.currentUser.Some? || s.sessionUser.Some?
    ensures out.1 ==> out.0.currentUser.Some?
    ensures !out.1 ==> out.0 == s
  {
    var (t, user) := GetCurrentUser(s);
    (t, user.Some?)
  }

  /** `isLoggedIn` holds exactly when `getCurrentUser` finds a user, in memory or in the session. */
  lemma IsLoggedInIffUser(s: Service)
    ensures IsLoggedIn(s).1 <==> GetCurrentUser(s).1.Some?
    ensures IsLoggedIn(s).1 <==> s.currentUser.Some? || s.sessionUser.Some?
    ensures IsLoggedIn(s).0 == GetCurrentUser(s).0
  {
  }

  /**
    The flag agrees with the user in memory, and a user in memory is the one
    in the session.
   */
  predicate Coherent(s: Service) {
    (s.isAuthenticated <==> s.currentUser.Some?)
    && (s.currentUser.Some? ==> s.sessionUser == s.currentUser)
  }

  /** Every operation keeps the service coherent, and a fresh one is coherent. */
  lemma CoherentPreserved(s: Service, email: string, code: string, id: string, tokenId: string)
    requires Coherent(s)
    ensures Coherent(StoreCode(s, email, code))
    ensures Coherent(VerifyEmailLogin(s, email, code, id, tokenId).0)
    ensures Coherent(AutoVerifyForDemo(s, email, id, tokenId).0)
    ensures Coherent(Logout(s))
    ensures Coherent(GetCurrentUser(s).0)
    ensures forall u, t :: Coherent(Fresh(u, t))
  {
  }

  /** After a logout nobody is logged in, and a reload does not bring the user back. */
  lemma LoggedOutStaysOut(s: Service)
    ensures !IsLoggedIn(Logout(s)).1
    ensures var r := Logout(s); !IsLoggedIn(Fresh(r.sessionUser, r.sessionToken)).1
  {
  }

  /**
    The code of a successful request logs its email in, once: the user has
    the role rule's role, a reload keeps them logged in, and the same code
    then fails.
   */
  lemma RequestedCodeLogsInOnce(s: Service, email: string, draw: real, id: string, tokenId: string, id2: string, tokenId2: string)
    requires 0.0 <= draw < 1.0
    ensures var code := GenerateVerificationCode(draw);
      var (t, reply) := VerifyEmailLogin(StoreCode(s, email, code), email, code, id, tokenId);
      reply.success && reply.user == Some(NewUser(email, id))
      && IsLoggedIn(t).1
      && GetCurrentUser(Fresh(t.sessionUser, t.sessionToken)).1 == Some(NewUser(email, id))
      && VerifyEmailLogin(t, email, code, id2, tokenId2) == (t, Reply(false, Some(InvalidCodeMessage), None))
  {
    CodeIsSixDigits(draw);
  }

  /** A wrong code changes nothing, and the right code still works afterwards. */
  lemma WrongCodeKeepsCode(s: Service, email: string, code: string, wrong: string, id: string, tokenId: string)
    requires email in s.codes && s.codes[email] == code && code != "" && wrong != code
    ensures VerifyEmailLogin(s, email, wrong, id, tokenId).0 == s
    ensures VerifyEmailLogin(VerifyEmailLogin(s, email, wrong, id, tokenId).0, email, code, id, tokenId).1.success
  {
  }
}
