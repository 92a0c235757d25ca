/**
 * The admin password check and the in-memory session tokens of server/index.js:
 * `ADMIN_PASSWORD`, the `SESSIONS` map, `requireAuth` and the login, verify and logout
 * routes. The clock and the random token suffix are parameters.
 */
module SessionGate {
  import opened Wrappers
  import opened Text

  const DefaultPassword := "JOsh"

  /** `process.env.ADMIN_PASSWORD || 'JOsh'`: an unset or empty variable falls back to the default. */
  function AdminPassword(env: Option<string>): (p: string)
    ensures p != ""
    ensures env.Some? && env.value != "" ==> p == env.value
  {
    if env.Some? && env.value != "" then env.value else DefaultPassword
  }

  /** `session-${Date.now()}-${suffix}`. */
  function TokenFor(now: nat, suffix: string): string {
    "session-" + Stamp(now, suffix)
  }

  /** Two logins get the same token only at the same clock reading with the same random suffix. */
  lemma TokensDistinct(n1: nat, s1: string, n2: nat, s2: string)
    requires TokenFor(n1, s1) == TokenFor(n2, s2)
    ensures n1 == n2 && s1 == s2
  {
    var prefix := "session-";
    assert Stamp(n1, s1) == TokenFor(n1, s1)[|prefix|..];
    assert Stamp(n2, s2) == TokenFor(n2, s2)[|prefix|..];
    StampInjective(n1, s1, n2, s2);
  }

  datatype LoginReply = LoggedIn(sessionId: string) | InvalidPassword

  datatype VerifyReply = Authenticated | NotAuthenticated

  class Gate {
    const password: string
    /** `SESSIONS`: token to creation time. */
    var tokens: map<string, nat>

    constructor (env: Option<string>)
      ensures password == AdminPassword(env)
      ensures tokens == map[]
    {
      password := AdminPassword(env);
      tokens := map[];
    }

    /** `requireAuth` and `/api/auth/verify`: a cookie that is present and names a live token. */
    predicate Authorized(cookie: string)
      reads this
    {
      cookie != "" && cookie in tokens
    }

    /** POST /api/auth/login with the body's `password` (`None` when absent or not a string). */
    method Login(attempt: Option<string>, now: nat, suffix: string) returns (r: LoginReply)
      modifies this
      ensures attempt == Some(password) ==> r == LoggedIn(TokenFor(now, suffix)) && tokens == old(tokens)[r.sessionId := now]
      ensures attempt == Some(password) ==> Authorized(r.sessionId)
      ensures attempt != Some(password) ==> r == InvalidPassword && tokens == old(tokens)
    {
      if attempt == Some(password) {
        var sessionId := TokenFor(now, suffix);
        tokens := tokens[sessionId := now];
        r := LoggedIn(sessionId);
      } else {
        r := InvalidPassword;
      }
    }

    /** GET /api/auth/verify. */
    method Verify(cookie: string) returns (r: VerifyReply)
      ensures r == Authenticated <==> Authorized(cookie)
    {
      if cookie != "" && cookie in tokens {
        r := Authenticated;
      } else {
        r := NotAuthenticated;
      }
    }

    /** POST /api/auth/logout: forgets the cookie's token, if any; every other token stays valid. */
    method Logout(cookie: string)
      modifies this
      ensures cookie != "" ==> tokens == old(tokens) - {cookie}
      ensures cookie == "" ==> tokens == old(tokens)
      ensures !Authorized(cookie)
      ensures forall c :: c != cookie ==> (Authorized(c) <==> old(Authorized(c)))
    {
      if cookie != "" {
        tokens := tokens - {cookie};
      }
    }
  }
}
