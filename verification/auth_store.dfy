/**
 * The authentication store: two flags, `isAuthenticated` and `isLoading`,
 * kept in step with the token that persistent storage holds under the key
 * "accessToken". Storage calls that fail are swallowed by the storage
 * wrapper: a failed write or delete leaves the map as it was, a failed
 * read yields no token.
 */
module AuthStore {
  import opened Wrappers

  const AccessTokenKey := "accessToken"

  /** The store's flags together with the persisted key -> token map. */
  datatype Auth = Auth(isAuthenticated: bool, isLoading: bool, tokens: map<string, string>)

  /** The state the store is created in, over whatever storage already holds. */
  function Initial(tokens: map<string, string>): (s: Auth)
    ensures !s.isAuthenticated && s.isLoading && s.tokens == tokens
  {
    Auth(false, true, tokens)
  }

  /** `getToken`: the stored token, or `null` when there is none or the read failed. */
  function ReadToken(tokens: map<string, string>, ok: bool): Option<string> {
    if ok && AccessTokenKey in tokens then Some(tokens[AccessTokenKey]) else None
  }

  /** `!!token`: a missing or empty token is falsy. */
  predicate Truthy(token: Option<string>) {
    token.Some? && token.value != ""
  }

  /** `login(token)`; `ok` is whether the storage write succeeded. */
  function AfterLogin(s: Auth, token: string, ok: bool): (r: Auth)
    ensures r.isAuthenticated && r.isLoading == s.isLoading
    ensures ok ==> r.tokens == s.tokens[AccessTokenKey := token]
    ensures !ok ==> r.tokens == s.tokens
  {
    Auth(true, s.isLoading, if ok then s.tokens[AccessTokenKey := token] else s.tokens)
  }

  /** `logout()`; `ok` is whether the storage delete succeeded. */
  function AfterLogout(s: Auth, ok: bool): (r: Auth)
    ensures !r.isAuthenticated && r.isLoading == s.isLoading
    ensures ok ==> AccessTokenKey !in r.tokens && r.tokens == s.tokens - {AccessTokenKey}
    ensures !ok ==> r.tokens == s.tokens
  {
    Auth(false, s.isLoading, if ok then s.tokens - {AccessTokenKey} else s.tokens)
  }

  /** `checkAuth()`; `ok` is whether the storage read succeeded. */
  function AfterCheckAuth(s: Auth, ok: bool): (r: Auth)
    ensures !r.isLoading && r.tokens == s.tokens
    ensures r.isAuthenticated <==> ok && AccessTokenKey in s.tokens && s.tokens[AccessTokenKey] != ""
  {
    Auth(Truthy(ReadToken(s.tokens, ok)), false, s.tokens)
  }

  /** After a successful login with a non-empty token, checking again finds the user logged in. */
  lemma LoginThenCheck(s: Auth, token: string)
    requires token != ""
    ensures AfterCheckAuth(AfterLogin(s, token, true), true).isAuthenticated
  {
  }

  /** After a successful logout, checking again finds the user logged out. */
  lemma LogoutThenCheck(s: Auth, ok: bool)
    ensures !AfterCheckAuth(AfterLogout(s, true), ok).isAuthenticated
  {
  }

  /** An empty token is stored and flags the user as logged in, yet the next check logs the user out. */
  lemma EmptyTokenLogin(s: Auth)
    ensures AfterLogin(s, "", true).isAuthenticated
    ensures !AfterCheckAuth(AfterLogin(s, "", true), true).isAuthenticated
  {
  }

  /** A check reads and changes nothing but the flags, so a second check agrees with the first. */
  lemma CheckAuthIdempotent(s: Auth, ok: bool)
    ensures AfterCheckAuth(AfterCheckAuth(s, ok), ok) == AfterCheckAuth(s, ok)
  {
  }

  /** The store object (a zustand store) and the storage it drives. */
  class Store {
    var isAuthenticated: bool
    var isLoading: bool
    var tokens: map<string, string>

    function State(): Auth
      reads this
    {
      Auth(isAuthenticated, isLoading, tokens)
    }

    constructor (tokens: map<string, string>)
      ensures State() == Initial(tokens)
    {
      isAuthenticated := false;
      isLoading := true;
      this.tokens := tokens;
    }

    method Login(token: string, ok: bool)
      modifies this
      ensures State() == AfterLogin(old(State()), token, ok)
    {
      if ok {
        tokens := tokens[AccessTokenKey := token];
      }
      isAuthenticated := true;
    }

    method Logout(ok: bool)
      modifies this
      ensures State() == AfterLogout(old(State()), ok)
    {
      if ok {
        tokens := tokens - {AccessTokenKey};
      }
      isAuthenticated := false;
    }

    method CheckAuth(ok: bool)
      modifies this
      ensures State() == AfterCheckAuth(old(State()), ok)
    {
      isLoading := true;
      var token := ReadToken(tokens, ok);
      isAuthenticated, isLoading := Truthy(token), false;
    }
  }
}
