/**
 * The credential store of app/hooks/useAuth.ts (`persistToken`, `readToken`)
 * and the guarded `readToken` of lib/fetcher.ts.
 *
 * The bearer token lives in `localStorage` under one fixed key and is
 * mirrored into an `auth-session` cookie. Every write to `document.cookie` is
 * recorded as a `CookieLine`, and its effect on the cookie jar follows the
 * storage model of RFC 6265: a `Max-Age` (section 5.2.2) of zero or less
 * expires, hence deletes, the cookie.
 */
module CredentialStore {
  import opened Wrappers
  import opened Text
  import opened JsValues

  const TokenStorageKey := "procrastiPlanner.authToken"
  const CookieName := "auth-session"
  /** 24 hours, in seconds. */
  const DefaultMaxAge := 60 * 60 * 24

  // ---------------------------------------------------------------------------
  // Cookies

  /** One assignment to `document.cookie`, split into the parts the client writes. */
  datatype CookieLine = CookieLine(name: string, value: string, path: string, maxAge: string, sameSite: string, secure: bool)

  /** The text assigned to `document.cookie` for a line. */
  function CookieText(c: CookieLine): string {
    c.name + "=" + c.value + "; path=" + c.path + "; max-age=" + c.maxAge + "; samesite=" + c.sameSite
    + (if c.secure then "; secure" else "")
  }

  /**
   * The Max-Age attribute of RFC 6265, section 5.2.2: an optional `-`
   * followed by digits gives a number of seconds; anything else makes the
   * browser ignore the attribute (`None`).
   */
  function MaxAgeSeconds(v: string): (r: Option<int>)
    ensures r.Some? ==> (v != [] && (IsDigit(v[0]) || v[0] == '-'))
  {
    if v != [] && AllDigits(v) then Some(DigitsValue(v))
    else if |v| >= 2 && v[0] == '-' && AllDigits(v[1..]) then var d: int := DigitsValue(v[1..]); Some(-d)
    else None
  }

  /** The attribute the client writes, `String(n)` for an integral `n`, is read back as `n`. */
  lemma MaxAgeOfDecimal(n: int)
    ensures MaxAgeSeconds(IntToString(n)) == Some(n)
  {
    if n >= 0 {
      NatToStringRoundTrip(n);
    } else {
      var s := IntToString(n);
      assert s[1..] == NatToString(-n);
      NatToStringRoundTrip(-n);
    }
  }

  /** A cookie in the browser's jar; `persistent` is false for a session cookie (no usable Max-Age). */
  datatype StoredCookie = StoredCookie(value: string, persistent: bool)

  /**
   * The jar after the browser processes one cookie line (RFC 6265, section
   * 5.3): the new cookie replaces any cookie of the same name, and one whose
   * Max-Age is zero or less is expired at once, which removes it. The jar is
   * keyed by name: every cookie written here has the origin's host and path `/`.
   */
  function StoreCookie(jar: map<string, StoredCookie>, c: CookieLine): (r: map<string, StoredCookie>)
    ensures forall k :: k in jar && k != c.name ==> k in r && r[k] == jar[k]
    ensures forall k :: k in r && k != c.name ==> k in jar
    ensures c.name in r <==> !(MaxAgeSeconds(c.maxAge).Some? && MaxAgeSeconds(c.maxAge).value <= 0)
    ensures c.name in r ==> r[c.name] == StoredCookie(c.value, MaxAgeSeconds(c.maxAge).Some?)
  {
    var age := MaxAgeSeconds(c.maxAge);
    if age.Some? && age.value <= 0 then jar - {c.name} else jar[c.name := StoredCookie(c.value, age.Some?)]
  }

  // ---------------------------------------------------------------------------
  // The browser environment and the two media

  /**
   * What the store sees of its surroundings: whether `window` exists, the
   * page's `location.protocol`, the browser's `encodeURIComponent` (left
   * abstract), and whether `localStorage` access throws (with the message of
   * the `Error` it throws), as it does when storage is disabled.
   */
  datatype Env = Env(isBrowser: bool, protocol: string, encodeURIComponent: string -> string, storageFailure: Option<string>)

  /** The contents of `localStorage`, the cookie jar, and the last text written to `document.cookie`. */
  datatype Media = Media(storage: map<string, string>, cookies: map<string, StoredCookie>, lastCookieWrite: Option<CookieLine>)

  datatype PersistResult = PersistResult(media: Media, thrown: Option<Thrown>)

  /** The cookie line that mirrors `token`. */
  function SetCookieLine(env: Env, token: string, maxAge: Json): CookieLine {
    CookieLine(CookieName, env.encodeURIComponent(token), "/", JsString(maxAge), "strict", env.protocol == "https:")
  }

  /** The cookie line that deletes the mirror. */
  const ClearCookieLine := CookieLine(CookieName, "", "/", "0", "strict", false)

  /**
   * `persistToken(token, maxAgeSeconds)`: nothing outside a browser; a
   * truthy token is stored (as `String(token)`) and mirrored, any other value
   * removes both; a throwing `localStorage` aborts before the cookie is written.
   */
  function Persist(env: Env, m: Media, token: Json, maxAge: Json): PersistResult {
    if !env.isBrowser then PersistResult(m, None)
    else if env.storageFailure.Some? then PersistResult(m, Some(ErrorWith(env.storageFailure.value)))
    else if Truthy(token) then
      var line := SetCookieLine(env, JsString(token), maxAge);
      PersistResult(Media(m.storage[TokenStorageKey := JsString(token)], StoreCookie(m.cookies, line), Some(line)), None)
    else
      PersistResult(Media(m.storage - {TokenStorageKey}, StoreCookie(m.cookies, ClearCookieLine), Some(ClearCookieLine)), None)
  }

  /** The stored token, if any. */
  function StoredToken(m: Media): Option<string> {
    if TokenStorageKey in m.storage then Some(m.storage[TokenStorageKey]) else None
  }

  /** `readToken` of app/hooks/useAuth.ts: `null` outside a browser; it does not catch a throwing `localStorage`. */
  function ReadToken(env: Env, m: Media): (r: Completion<Option<string>>)
    ensures !env.isBrowser ==> r == Normal(None)
    ensures r.Abrupt? <==> env.isBrowser && env.storageFailure.Some?
    ensures env.isBrowser && r.Normal? ==> r.value == StoredToken(m)
  {
    if !env.isBrowser then Normal(None)
    else if env.storageFailure.Some? then Abrupt(ErrorWith(env.storageFailure.value))
    else Normal(StoredToken(m))
  }

  /** `readToken` of lib/fetcher.ts: the same read, with a throwing `localStorage` caught and read as `null`. */
  function ReadTokenCaught(env: Env, m: Media): (r: Option<string>)
    ensures r == match ReadToken(env, m) case Normal(v) => v case Abrupt(_) => None
    ensures r.Some? ==> env.isBrowser
  {
    if !env.isBrowser then None
    else if env.storageFailure.Some? then None
    else StoredToken(m)
  }

  // ---------------------------------------------------------------------------
  // Properties of the store

  /** A non-empty token that was persisted is what the next read returns, through either reader. */
  lemma PersistThenRead(env: Env, m: Media, t: string, maxAge: Json)
    requires env.isBrowser && env.storageFailure.None? && t != ""
    ensures var r := Persist(env, m, JStr(t), maxAge);
      r.thrown.None? && ReadToken(env, r.media) == Normal(Some(t)) && ReadTokenCaught(env, r.media) == Some(t)
  {
  }

  /** Persisting `null`, or the empty string (the guard is truthiness), leaves nothing to read. */
  lemma ClearThenRead(env: Env, m: Media, token: Json, maxAge: Json)
    requires env.storageFailure.None? && (token == JNull || token == JStr(""))
    ensures var r := Persist(env, m, token, maxAge);
      r.thrown.None? && ReadToken(env, r.media) == Normal(None) && ReadTokenCaught(env, r.media) == None
  {
  }

  /** Outside a browser persisting changes nothing and reading gives `null`. */
  lemma ServerSideNoOp(env: Env, m: Media, token: Json, maxAge: Json)
    requires !env.isBrowser
    ensures Persist(env, m, token, maxAge) == PersistResult(m, None)
    ensures ReadToken(env, m) == Normal(None) && ReadTokenCaught(env, m) == None
  {
  }

  /** A throwing `localStorage` makes `persistToken` throw and leaves both media as they were. */
  lemma StorageFailureChangesNothing(env: Env, m: Media, token: Json, maxAge: Json)
    requires env.isBrowser && env.storageFailure.Some?
    ensures Persist(env, m, token, maxAge) == PersistResult(m, Some(ErrorWith(env.storageFailure.value)))
    ensures ReadTokenCaught(env, m) == None
  {
  }

  /**
   * Setting the token writes the mirror line with `path=/`,
   * `max-age=<maxAge>`, `samesite=strict`, and `secure` exactly on an
   * `https:` page; with a positive integral max-age the jar then holds a
   * persistent `auth-session` cookie carrying the encoded token.
   */
  lemma SetCookieStored(env: Env, m: Media, t: string, n: int)
    requires env.isBrowser && env.storageFailure.None? && t != ""
    ensures var r := Persist(env, m, JStr(t), JNum(n)).media;
      && r.lastCookieWrite == Some(SetCookieLine(env, t, JNum(n)))
      && var line := SetCookieLine(env, t, JNum(n));
      && line.name == CookieName && line.value == env.encodeURIComponent(t) && line.path == "/"
      && line.maxAge == IntToString(n) && line.sameSite == "strict" && (line.secure <==> env.protocol == "https:")
      && (n > 0 ==> CookieName in r.cookies && r.cookies[CookieName] == StoredCookie(env.encodeURIComponent(t), true))
  {
    MaxAgeOfDecimal(n);
  }

  /** The default lifetime, 86400 seconds, keeps the mirror in the jar. */
  lemma DefaultLifetimeKeepsMirror(env: Env, m: Media, t: string)
    requires env.isBrowser && env.storageFailure.None? && t != ""
    ensures var r := Persist(env, m, JStr(t), JNum(DefaultMaxAge)).media;
      CookieName in r.cookies && r.cookies[CookieName].value == env.encodeURIComponent(t)
  {
    MaxAgeOfDecimal(DefaultMaxAge);
  }

  /** Clearing writes `max-age=0` without `secure`, which deletes the mirror from the jar. */
  lemma ClearDeletesMirror(env: Env, m: Media)
    requires env.isBrowser && env.storageFailure.None?
    ensures var r := Persist(env, m, JNull, JNum(DefaultMaxAge)).media;
      && r.lastCookieWrite == Some(ClearCookieLine)
      && ClearCookieLine.maxAge == "0" && !ClearCookieLine.secure
      && CookieName !in r.cookies
      && TokenStorageKey !in r.storage
  {
    assert IntToString(0) == "0";
    MaxAgeOfDecimal(0);
  }

  /**
   * The two media disagree after a persist with a lifetime of zero or less:
   * the token is in `localStorage` while the mirror cookie is deleted at once.
   */
  lemma NonPositiveLifetimeSplitsMedia(env: Env, m: Media, t: string, n: int)
    requires env.isBrowser && env.storageFailure.None? && t != "" && n <= 0
    ensures var r := Persist(env, m, JStr(t), JNum(n)).media;
      StoredToken(r) == Some(t) && CookieName !in r.cookies
  {
    MaxAgeOfDecimal(n);
  }

  // ---------------------------------------------------------------------------
  // The store as the browser objects it mutates

  class Store {
    const env: Env
    /** `window.localStorage`. */
    var storage: map<string, string>
    /** The browser's cookie jar. */
    var cookies: map<string, StoredCookie>
    /** The last line written to `document.cookie`. */
    var lastCookieWrite: Option<CookieLine>

    /** Both media, as one value. */
    function State(): Media
      reads this
    {
      Media(storage, cookies, lastCookieWrite)
    }

    constructor (env: Env, storage: map<string, string>, cookies: map<string, StoredCookie>)
      ensures this.env == env && State() == Media(storage, cookies, None)
    {
      this.env := env;
      this.storage := storage;
      this.cookies := cookies;
      this.lastCookieWrite := None;
    }

    /** `persistToken`: writes `localStorage`, then `document.cookie`. */
    method PersistToken(token: Json, maxAge: Json) returns (thrown: Option<Thrown>)
      modifies this
      ensures PersistResult(State(), thrown) == Persist(env, old(State()), token, maxAge)
    {
      if !env.isBrowser {
        return None;
      }
      if env.storageFailure.Some? {
        // `setItem` / `removeItem` throws before the cookie is touched.
        return Some(ErrorWith(env.storageFailure.value));
      }
      var line;
      if Truthy(token) {
        var value := JsString(token);
        storage := storage[TokenStorageKey := value];
        var secure := env.protocol == "https:";
        line := CookieLine(CookieName, env.encodeURIComponent(value), "/", JsString(maxAge), "strict", secure);
      } else {
        storage := storage - {TokenStorageKey};
        line := CookieLine(CookieName, "", "/", "0", "strict", false);
      }
      lastCookieWrite := Some(line);
      cookies := StoreCookie(cookies, line);
      thrown := None;
    }
  }
}
