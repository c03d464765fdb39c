/**
 * The session hook of app/hooks/useAuth.ts: the `user`/`loading` state, the
 * `isMountedRef` liveness flag that drops state writes after unmount, and the
 * operations `fetchSession`, the bootstrap effect, `login`, `refreshUser`
 * and `logout`.
 *
 * Every `fetch` the hook makes is a parameter: what the server did (threw,
 * or answered with a status and a body that `response.json()` could or could
 * not parse). The effect of each operation on the credential store and the
 * value it resolves to are pure functions of those replies (the `...Effect`
 * functions); the class's methods are proved to follow them, and the
 * properties the hook promises are lemmas about the functions.
 */
module Session {
  import opened Wrappers
  import opened JsValues
  import opened CredentialStore

  /** What one `fetch` produced: a thrown value, or a response whose body `response.json()` parsed (`None` when it rejects). */
  datatype Reply = Threw(error: Thrown) | Responded(status: int, body: Option<Json>)

  /** `response.ok`. */
  predicate Ok(status: int) {
    200 <= status <= 299
  }

  const LoginRejected := "Credenziali non valide. Riprova."
  const LoginFailed := "Errore durante il login."
  const LogoutRejected := "Impossibile completare il logout."
  const LogoutNetworkFailure := "Errore di rete durante il logout."

  /** `extractMessage`: the `message` of an object whose `message` is a string, else `null`. */
  function ExtractMessage(input: Json): (r: Option<string>)
    ensures r.Some? <==> input.JObj? && "message" in input.fields && input.fields["message"].JStr?
    ensures r.Some? ==> r.value == input.fields["message"].s
  {
    if Truthy(input) && (input.JObj? || input.JArr?) then
      match Prop(input, "message")
      case Some(JStr(m)) => Some(m)
      case _ => None
    else None
  }

  /** A user value as the hook stores it: JSON `null` is "no user". */
  function AsUser(v: Json): (r: Option<Json>)
    ensures r.None? <==> v == JNull
    ensures r.Some? ==> r.value == v
  {
    if v == JNull then None else Some(v)
  }

  /** The `Authorization` header of a request sent with this token (RFC 6750, section 2.1). */
  function BearerHeader(token: Option<string>): Option<string> {
    if token.Some? && token.value != "" then Some("Bearer " + token.value) else None
  }

  // ---------------------------------------------------------------------------
  // fetchSession

  /**
   * The user `fetchSession` resolves from the reply to `GET /api/auth/me`: a
   * non-ok reply, a thrown `fetch`, an unparsable body and a body that the
   * `in` operator rejects all give `null`; otherwise the `user` field when the
   * body has one, else the whole body.
   */
  function SessionUser(reply: Reply): (r: Option<Json>)
    ensures r.Some? ==> reply.Responded? && Ok(reply.status) && reply.body.Some?
    ensures reply.Responded? && Ok(reply.status) && reply.body.Some? && reply.body.value.JObj? ==>
      var fields := reply.body.value.fields;
      r == if "user" in fields then AsUser(fields["user"]) else Some(reply.body.value)
  {
    match reply
    case Threw(_) => None
    case Responded(status, body) =>
      if !Ok(status) || body.None? then None
      else
        var data := body.value;
        match HasKey(data, "user")
        case None => None
        case Some(present) => if present then AsUser(data.fields["user"]) else AsUser(data)
  }

  /** What `fetchSession` leaves behind: the media, the resolved user, and the `Authorization` header it sent. */
  datatype SessionCheck = SessionCheck(media: Media, user: Option<Json>, authorization: Option<string>)

  /**
   * `fetchSession` as a function of the media and the reply. When reading
   * the token throws, no request is made and the result is `null`; a 401
   * clears the credential.
   */
  function SessionEffect(env: Env, m: Media, reply: Reply): (r: SessionCheck)
    ensures r.user.Some? ==> ReadToken(env, m).Normal?
  {
    match ReadToken(env, m)
    case Abrupt(_) => SessionCheck(m, None, None)
    case Normal(token) =>
      var media := if reply.Responded? && reply.status == 401 then Persist(env, m, JNull, JNum(DefaultMaxAge)).media else m;
      SessionCheck(media, SessionUser(reply), BearerHeader(token))
  }

  /** `fetchSession` never fails: a non-ok reply or a thrown `fetch` gives `null`. */
  lemma SessionFailureGivesNoUser(env: Env, m: Media, reply: Reply)
    requires reply.Threw? || !Ok(reply.status)
    ensures SessionEffect(env, m, reply).user == None
  {
  }

  /** Only a 401 touches the credential, and a 401 clears it from both media. */
  lemma SessionClearsOnlyOn401(env: Env, m: Media, reply: Reply)
    ensures SessionEffect(env, m, reply).media != m ==> reply.Responded? && reply.status == 401
    ensures reply.Responded? && reply.status == 401 && env.isBrowser && ReadToken(env, m).Normal? ==>
      var after := SessionEffect(env, m, reply).media;
      ReadToken(env, after) == Normal(None) && CookieName !in after.cookies
  {
    if reply.Responded? && reply.status == 401 && ReadToken(env, m).Normal? && env.isBrowser {
      ClearDeletesMirror(env, m);
    }
  }

  /** On success the stored token is sent as a bearer credential, and the `user` field is unwrapped when present. */
  lemma SessionSuccess(env: Env, m: Media, data: map<string, Json>, u: Json)
    requires env.isBrowser && env.storageFailure.None?
    requires StoredToken(m).Some? && StoredToken(m).value != ""
    requires u != JNull
    ensures var r := SessionEffect(env, m, Responded(200, Some(JObj(data["user" := u]))));
      r.user == Some(u) && r.media == m && r.authorization == Some("Bearer " + StoredToken(m).value)
  {
  }

  // ---------------------------------------------------------------------------
  // login

  /** `data ?? {}` for the parsed login reply (`null` when it did not parse). */
  function LoginPayload(body: Option<Json>): Json {
    var data := body.GetOr(JNull);
    if data == JNull then JObj(map[]) else data
  }

  /** `payload.accessToken ?? payload.token ?? null`. */
  function LoginToken(payload: Json): (r: Json)
    ensures Prop(payload, "accessToken").Some? && Prop(payload, "accessToken").value != JNull ==>
      r == Prop(payload, "accessToken").value
    ensures (Prop(payload, "accessToken").None? || Prop(payload, "accessToken") == Some(JNull)) ==>
      r == Coalesce(Prop(payload, "token"), JNull)
  {
    Coalesce(Prop(payload, "accessToken"), Coalesce(Prop(payload, "token"), JNull))
  }

  /** `payload.expiresIn ?? DEFAULT_MAX_AGE`. */
  function LoginMaxAge(payload: Json): Json {
    Coalesce(Prop(payload, "expiresIn"), JNum(DefaultMaxAge))
  }

  /** `payload.user` when it is truthy. */
  function LoginUser(payload: Json): Option<Json> {
    match Prop(payload, "user")
    case Some(u) => if Truthy(u) then Some(u) else None
    case None => None
  }

  /** `error instanceof Error ? error : new Error(fallback)`. */
  function AsError(e: Thrown, fallback: string): (r: Thrown)
    ensures IsErrorInstance(r)
    ensures IsErrorInstance(e) ==> r == e
  {
    if IsErrorInstance(e) then e else ErrorWith(fallback)
  }

  datatype LoginOutcome = LoginOutcome(media: Media, result: Completion<Option<Json>>)

  /**
   * `login` as a function of the media, the reply to `POST /api/auth/login`
   * and the reply to the session check it may fall back to.
   */
  function LoginEffect(env: Env, m: Media, reply: Reply, sessionReply: Reply): LoginOutcome {
    match reply
    case Threw(e) => LoginOutcome(m, Abrupt(AsError(e, LoginFailed)))
    case Responded(status, body) =>
      if !Ok(status) then
        LoginOutcome(m, Abrupt(ErrorWith(ExtractMessage(body.GetOr(JNull)).GetOr(LoginRejected))))
      else LoginSuccessEffect(env, m, LoginPayload(body), sessionReply)
  }

  /** The part of `login` after an ok reply: persist the token if any, then adopt the payload's user or ask the session. */
  function LoginSuccessEffect(env: Env, m: Media, payload: Json, sessionReply: Reply): LoginOutcome {
    var token := LoginToken(payload);
    var persisted := if Truthy(token) then Persist(env, m, token, LoginMaxAge(payload)) else PersistResult(m, None);
    if persisted.thrown.Some? then
      LoginOutcome(m, Abrupt(AsError(persisted.thrown.value, LoginFailed)))
    else if LoginUser(payload).Some? then
      LoginOutcome(persisted.media, Normal(LoginUser(payload)))
    else
      var check := SessionEffect(env, persisted.media, sessionReply);
      LoginOutcome(check.media, Normal(check.user))
  }

  /**
   * A rejected login throws the server's `message`, or the fixed fallback,
   * and never touches the stored credential; an unparsable body counts as `null`.
   */
  lemma LoginFailureKeepsCredential(env: Env, m: Media, status: int, body: Option<Json>, sessionReply: Reply)
    requires !Ok(status)
    ensures var o := LoginEffect(env, m, Responded(status, body), sessionReply);
      && o.media == m
      && o.result == Abrupt(ErrorWith(
           if body.Some? && ExtractMessage(body.value).Some? then ExtractMessage(body.value).value else LoginRejected))
  {
  }

  /** A 401 whose body carries `{message: "Credenziali non valide"}` fails with exactly that message. */
  lemma LoginRejectedWithServerMessage(env: Env, m: Media, sessionReply: Reply)
    ensures LoginEffect(env, m, Responded(401, Some(JObj(map["message" := JStr("Credenziali non valide")]))), sessionReply)
      == LoginOutcome(m, Abrupt(ErrorWith("Credenziali non valide")))
  {
    var body := JObj(map["message" := JStr("Credenziali non valide")]);
    assert ExtractMessage(body) == Some("Credenziali non valide");
  }

  /**
   * A successful login with a user in the payload returns that user without
   * a session check, and persists `accessToken ?? token` with
   * `expiresIn ?? 86400`, so the next read gives the token back.
   */
  lemma LoginAdoptsPayloadUser(env: Env, m: Media, body: Json, sessionReply: Reply, t: string)
    requires env.isBrowser && env.storageFailure.None?
    requires LoginUser(LoginPayload(Some(body))).Some?
    requires LoginToken(LoginPayload(Some(body))) == JStr(t) && t != ""
    ensures var o := LoginEffect(env, m, Responded(200, Some(body)), sessionReply);
      && o.result == Normal(LoginUser(LoginPayload(Some(body))))
      && o.media == Persist(env, m, JStr(t), LoginMaxAge(LoginPayload(Some(body)))).media
      && ReadToken(env, o.media) == Normal(Some(t))
  {
  }

  /** Without a user in the payload, `login` resolves to what the session check resolves, after persisting the token. */
  lemma LoginFallsBackToSession(env: Env, m: Media, status: int, body: Option<Json>, sessionReply: Reply)
    requires Ok(status) && LoginUser(LoginPayload(body)).None?
    requires env.isBrowser ==> env.storageFailure.None?
    ensures var payload := LoginPayload(body);
      var token := LoginToken(payload);
      var m1 := if Truthy(token) then Persist(env, m, token, LoginMaxAge(payload)).media else m;
      LoginEffect(env, m, Responded(status, body), sessionReply)
        == LoginOutcome(SessionEffect(env, m1, sessionReply).media, Normal(SessionEffect(env, m1, sessionReply).user))
  {
  }

  /** An `expiresIn` of 0 sent by the server stores the token but deletes the mirror cookie at once. */
  lemma LoginZeroExpirySplitsMedia(env: Env, m: Media, t: string, u: Json, sessionReply: Reply)
    requires env.isBrowser && env.storageFailure.None? && t != "" && Truthy(u)
    ensures var body := JObj(map["accessToken" := JStr(t), "expiresIn" := JNum(0), "user" := u]);
      var o := LoginEffect(env, m, Responded(200, Some(body)), sessionReply);
      StoredToken(o.media) == Some(t) && CookieName !in o.media.cookies
  {
    var body := JObj(map["accessToken" := JStr(t), "expiresIn" := JNum(0), "user" := u]);
    assert LoginToken(LoginPayload(Some(body))) == JStr(t);
    assert LoginMaxAge(LoginPayload(Some(body))) == JNum(0);
    NonPositiveLifetimeSplitsMedia(env, m, t, 0);
  }

  // ---------------------------------------------------------------------------
  // logout

  /** How `logout`'s request part ends, before its `finally` block runs. */
  function LogoutRequestResult(reply: Reply): (r: Completion<()>)
    ensures r.Normal? <==> reply.Responded? && Ok(reply.status)
    ensures reply.Threw? && !IsErrorInstance(reply.error) ==> r == Abrupt(ErrorWith(LogoutNetworkFailure))
    ensures reply.Responded? && !Ok(reply.status) ==>
      r == Abrupt(ErrorWith(ExtractMessage(reply.body.GetOr(JNull)).GetOr(LogoutRejected)))
  {
    match reply
    case Threw(e) => Abrupt(AsError(e, LogoutNetworkFailure))
    case Responded(status, body) =>
      if Ok(status) then Normal(()) else Abrupt(ErrorWith(ExtractMessage(body.GetOr(JNull)).GetOr(LogoutRejected)))
  }

  /** A logout rejected with status 500 still clears the local credential, yet reports the failure. */
  lemma LogoutServerErrorStillClears(env: Env, m: Media, body: Option<Json>)
    requires env.isBrowser && env.storageFailure.None?
    ensures var after := Persist(env, m, JNull, JNum(DefaultMaxAge));
      && after.thrown.None?
      && ReadToken(env, after.media) == Normal(None) && CookieName !in after.media.cookies
      && LogoutRequestResult(Responded(500, body)).Abrupt?
  {
    ClearDeletesMirror(env, m);
  }

  // ---------------------------------------------------------------------------
  // The hook's state

  class AuthHook {
    const store: Store
    var user: Option<Json>
    var loading: bool
    /** `isMountedRef.current`. */
    var isMounted: bool

    /** The first render: no user, loading, not yet mounted. */
    constructor (store: Store)
      ensures this.store == store && user == None && loading && !isMounted
    {
      this.store := store;
      user := None;
      loading := true;
      isMounted := false;
    }

    /** The mount effect sets the liveness flag; its cleanup clears it. */
    method Mount()
      modifies this`isMounted
      ensures isMounted
    {
      isMounted := true;
    }

    method Unmount()
      modifies this`isMounted
      ensures !isMounted
    {
      isMounted := false;
    }

    /** `setSafeUser`: writes only while mounted. */
    method SetSafeUser(next: Option<Json>)
      modifies this`user
      ensures user == if isMounted then next else old(user)
    {
      if isMounted {
        user := next;
      }
    }

    /** `setSafeLoading`: writes only while mounted. */
    method SetSafeLoading(next: bool)
      modifies this`loading
      ensures loading == if isMounted then next else old(loading)
    {
      if isMounted {
        loading := next;
      }
    }

    /** `fetchSession`: never throws; returns the resolved user and the `Authorization` header it sent. */
    method FetchSession(reply: Reply) returns (u: Option<Json>, authorization: Option<string>)
      modifies this`user, store
      ensures SessionCheck(store.State(), u, authorization) == SessionEffect(store.env, old(store.State()), reply)
      ensures user == if isMounted then u else old(user)
    {
      var token := ReadToken(store.env, store.State());
      if token.Abrupt? {
        // `readToken` throws inside the `try`: the `catch` clears the user.
        SetSafeUser(None);
        return None, None;
      }
      authorization := BearerHeader(token.value);
      match reply {
        case Threw(_) =>
          SetSafeUser(None);
          u := None;
        case Responded(status, body) =>
          if !Ok(status) {
            if status == 401 {
              var cleared := store.PersistToken(JNull, JNum(DefaultMaxAge));
            }
            SetSafeUser(None);
            u := None;
          } else if body.None? {
            SetSafeUser(None);
            u := None;
          } else {
            var data := body.value;
            var hasUser := HasKey(data, "user");
            if hasUser.None? {
              SetSafeUser(None);
              u := None;
            } else {
              var resolved := if hasUser.value then data.fields["user"] else data;
              u := AsUser(resolved);
              SetSafeUser(u);
            }
          }
      }
    }

    /** The bootstrap effect: `loading` on, the session check, `loading` off. */
    method Bootstrap(reply: Reply)
      modifies this`user, this`loading, store
      ensures store.State() == SessionEffect(store.env, old(store.State()), reply).media
      ensures user == if isMounted then SessionEffect(store.env, old(store.State()), reply).user else old(user)
      ensures loading == if isMounted then false else old(loading)
    {
      SetSafeLoading(true);
      var u, authorization := FetchSession(reply);
      SetSafeLoading(false);
    }

    /** `refreshUser`: the session check, leaving `loading` alone. */
    method RefreshUser(reply: Reply) returns (u: Option<Json>)
      modifies this`user, store
      ensures var check := SessionEffect(store.env, old(store.State()), reply);
        u == check.user && store.State() == check.media
      ensures user == if isMounted then u else old(user)
    {
      var authorization;
      u, authorization := FetchSession(reply);
    }

    /** `login`: throws (rejects) on failure, and ends with `loading` off on every path. */
    method Login(reply: Reply, sessionReply: Reply) returns (result: Completion<Option<Json>>)
      modifies this`user, this`loading, store
      ensures LoginOutcome(store.State(), result) == LoginEffect(store.env, old(store.State()), reply, sessionReply)
      ensures user == if isMounted && result.Normal? then result.value else old(user)
      ensures loading == if isMounted then false else old(loading)
    {
      SetSafeLoading(true);
      match reply {
        case Threw(e) =>
          result := Abrupt(AsError(e, LoginFailed));
        case Responded(status, body) =>
          var data := body.GetOr(JNull);
          if !Ok(status) {
            result := Abrupt(ErrorWith(ExtractMessage(data).GetOr(LoginRejected)));
          } else {
            var payload := if data == JNull then JObj(map[]) else data;
            result := AdoptLoginPayload(payload, sessionReply);
          }
      }
      SetSafeLoading(false);
    }

    /** The `try` block of `login` after an ok reply. */
    method AdoptLoginPayload(payload: Json, sessionReply: Reply) returns (result: Completion<Option<Json>>)
      modifies this`user, store
      ensures LoginOutcome(store.State(), result) == LoginSuccessEffect(store.env, old(store.State()), payload, sessionReply)
      ensures user == if isMounted && result.Normal? then result.value else old(user)
    {
      var token := Coalesce(Prop(payload, "accessToken"), Coalesce(Prop(payload, "token"), JNull));
      var thrown := None;
      if Truthy(token) {
        thrown := store.PersistToken(token, Coalesce(Prop(payload, "expiresIn"), JNum(DefaultMaxAge)));
      }
      if thrown.Some? {
        result := Abrupt(AsError(thrown.value, LoginFailed));
      } else {
        var payloadUser := Prop(payload, "user");
        if payloadUser.Some? && Truthy(payloadUser.value) {
          SetSafeUser(payloadUser);
          result := Normal(payloadUser);
        } else {
          var u, authorization := FetchSession(sessionReply);
          result := Normal(u);
        }
      }
    }

    /**
     * `logout`: the `finally` block clears the credential and then the
     * session state whatever the server said; the request's failure is
     * still reported. When `localStorage` throws, the `finally` block throws
     * before the state is reset, and that error replaces the request's.
     */
    method Logout(reply: Reply) returns (result: Completion<()>)
      modifies this`user, this`loading, store
      ensures var cleanup := Persist(store.env, old(store.State()), JNull, JNum(DefaultMaxAge));
        && store.State() == cleanup.media
        && (cleanup.thrown.None? ==>
             && result == LogoutRequestResult(reply)
             && user == (if isMounted then None else old(user))
             && loading == (if isMounted then false else old(loading)))
        && (cleanup.thrown.Some? ==>
             && result == Abrupt(cleanup.thrown.value)
             && user == old(user)
             && loading == (if isMounted then true else old(loading)))
    {
      SetSafeLoading(true);
      var pending: Completion<()>;
      match reply {
        case Threw(e) =>
          pending := Abrupt(AsError(e, LogoutNetworkFailure));
        case Responded(status, body) =>
          if Ok(status) {
            pending := Normal(());
          } else {
            var data := body.GetOr(JNull);
            pending := Abrupt(ErrorWith(ExtractMessage(data).GetOr(LogoutRejected)));
          }
      }
      var thrown := store.PersistToken(JNull, JNum(DefaultMaxAge));
      if thrown.Some? {
        return Abrupt(thrown.value);
      }
      SetSafeUser(None);
      SetSafeLoading(false);
      result := pending;
    }
  }
}
