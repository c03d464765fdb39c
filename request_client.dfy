/**
 * The authenticated request wrapper of lib/fetcher.ts: it builds the request
 * headers (a bearer credential, a default `Content-Type` and a default
 * `Accept`), sends the request with cookies included, and decodes the reply
 * (an `Error` for a non-2xx status, nothing for 204, JSON or text otherwise).
 *
 * Header names are compared case-insensitively (section 5.1 of RFC 9110):
 * the `Headers` object keeps them lower-cased, and a name given more than
 * once by the caller keeps all its values joined by ", ", as a `Headers`
 * object built from a header list does.
 */
module RequestClient {
  import opened Wrappers
  import opened Text
  import opened JsValues
  import opened CredentialStore

  type HeaderMap = map<string, string>

  /** The names `fetcher` looks up and sets, as `Headers` stores them (lower-cased). */
  const AuthorizationKey := "authorization"
  const ContentTypeKey := "content-type"
  const AcceptKey := "accept"
  const JsonMediaType := "application/json"
  const RequestFailed := "Request failed"

  // ---------------------------------------------------------------------------
  // Header lists

  /** `Headers.append`: the lower-cased name gets the value, after any value it already has. */
  function AppendHeader(h: HeaderMap, name: string, value: string): (r: HeaderMap)
    ensures ToLower(name) in r
    ensures r[ToLower(name)] == if ToLower(name) in h then h[ToLower(name)] + ", " + value else value
    ensures forall k :: k != ToLower(name) ==> (k in r <==> k in h)
    ensures forall k :: k in h && k != ToLower(name) ==> r[k] == h[k]
  {
    var key := ToLower(name);
    if key in h then h[key := h[key] + ", " + value] else h[key := value]
  }

  /** The headers of `new Headers(init)`: every pair appended in order. */
  function HeaderList(pairs: seq<(string, string)>): HeaderMap {
    if pairs == [] then map[]
    else AppendHeader(HeaderList(pairs[..|pairs| - 1]), pairs[|pairs| - 1].0, pairs[|pairs| - 1].1)
  }

  /** A name is present exactly when some pair spells it, in any letter case. */
  lemma {:induction false} HeaderListNames(pairs: seq<(string, string)>, key: string)
    ensures key in HeaderList(pairs) <==> exists i :: 0 <= i < |pairs| && ToLower(pairs[i].0) == key
  {
    if pairs != [] {
      var init := pairs[..|pairs| - 1];
      HeaderListNames(init, key);
      if key in HeaderList(init) {
        var i :| 0 <= i < |init| && ToLower(init[i].0) == key;
        assert pairs[i] == init[i];
      }
      if i :| 0 <= i < |pairs| && ToLower(pairs[i].0) == key {
        if i < |init| {
          assert init[i] == pairs[i];
        }
      }
    }
  }

  /** A name given once keeps exactly that value. */
  lemma {:induction false} HeaderListSingle(pairs: seq<(string, string)>, i: int)
    requires 0 <= i < |pairs|
    requires forall j :: 0 <= j < |pairs| && j != i ==> ToLower(pairs[j].0) != ToLower(pairs[i].0)
    ensures ToLower(pairs[i].0) in HeaderList(pairs)
    ensures HeaderList(pairs)[ToLower(pairs[i].0)] == pairs[i].1
  {
    var key := ToLower(pairs[i].0);
    var init := pairs[..|pairs| - 1];
    if i == |pairs| - 1 {
      HeaderListNames(init, key);
      if key in HeaderList(init) {
        assert false;
      }
    } else {
      assert init[i] == pairs[i];
      forall j | 0 <= j < |init| && j != i
        ensures ToLower(init[j].0) != ToLower(init[i].0)
      {
        assert init[j] == pairs[j];
      }
      HeaderListSingle(init, i);
    }
  }

  /** The `Headers` object the request is built with. */
  class Headers {
    var entries: HeaderMap

    /** `new Headers(init)`. */
    constructor (init: seq<(string, string)>)
      ensures entries == HeaderList(init)
    {
      var built: HeaderMap := map[];
      var i := 0;
      while i < |init|
        invariant 0 <= i <= |init|
        invariant built == HeaderList(init[..i])
      {
        assert init[..i + 1][..i] == init[..i];
        built := AppendHeader(built, init[i].0, init[i].1);
        i := i + 1;
      }
      assert init[..i] == init;
      entries := built;
    }

    /** `headers.has(name)`, in any letter case. */
    function Has(name: string): bool
      reads this
    {
      ToLower(name) in entries
    }

    /** `headers.set(name, value)`: replaces every value the name had. */
    method Set(name: string, value: string)
      modifies this
      ensures entries == old(entries)[ToLower(name) := value]
    {
      entries := entries[ToLower(name) := value];
    }
  }

  lemma AuthorizationName()
    ensures ToLower("Authorization") == AuthorizationKey
  {
  }

  lemma ContentTypeName()
    ensures ToLower("Content-Type") == ContentTypeKey
  {
  }

  lemma AcceptName()
    ensures ToLower("Accept") == AcceptKey
  {
  }

  // ---------------------------------------------------------------------------
  // The request

  /**
   * `init.body`: absent (`undefined` or `null`), a `FormData`, a string, or
   * another body object (a `Blob`, `URLSearchParams`, a buffer), which is truthy.
   */
  datatype Body = NoBody | FormDataBody | StringBody(s: string) | ObjectBody

  predicate BodyTruthy(b: Body) {
    match b
    case NoBody => false
    case StringBody(s) => s != ""
    case _ => true
  }

  /** The caller's `RequestInit`: its headers (as a header list), body, `credentials` and every other field. */
  datatype Init = Init(headers: Option<seq<(string, string)>>, body: Body, credentials: Option<string>, rest: map<string, Json>)

  /** What `fetch` is called with. */
  datatype Request = Request(input: string, headers: HeaderMap, body: Body, credentials: string, rest: map<string, Json>)

  /**
   * The request `fetcher` sends, given the token `readToken` produced and
   * whether the global `FormData` exists.
   */
  function Prepare(token: Option<string>, formDataDefined: bool, input: string, init: Init): Request {
    var h0 := HeaderList(init.headers.GetOr([]));
    var h1 := if token.Some? && token.value != "" && AuthorizationKey !in h0 then h0[AuthorizationKey := "Bearer " + token.value] else h0;
    var isFormData := formDataDefined && init.body.FormDataBody?;
    var h2 := if !isFormData && BodyTruthy(init.body) && ContentTypeKey !in h1 then h1[ContentTypeKey := JsonMediaType] else h1;
    var h3 := if AcceptKey !in h2 then h2[AcceptKey := JsonMediaType] else h2;
    Request(input, h3, init.body, "include", init.rest)
  }

  /**
   * A bearer credential (section 2.1 of RFC 6750) is added exactly when a
   * non-empty token was read and the caller set no `Authorization` header,
   * in any letter case; the caller's header is never overwritten.
   */
  lemma PrepareAuthorization(token: Option<string>, formDataDefined: bool, input: string, init: Init)
    ensures var caller := HeaderList(init.headers.GetOr([]));
      var sent := Prepare(token, formDataDefined, input, init).headers;
      && (AuthorizationKey in caller ==> AuthorizationKey in sent && sent[AuthorizationKey] == caller[AuthorizationKey])
      && (AuthorizationKey !in caller ==>
           && (AuthorizationKey in sent <==> token.Some? && token.value != "")
           && (AuthorizationKey in sent ==> sent[AuthorizationKey] == "Bearer " + token.value))
  {
  }

  /** Any spelling of `Authorization` among the caller's headers blocks the bearer credential. */
  lemma {:induction false} CallerAuthorizationWins(token: Option<string>, formDataDefined: bool, input: string, init: Init, i: int)
    requires init.headers.Some? && 0 <= i < |init.headers.value|
    requires ToLower(init.headers.value[i].0) == AuthorizationKey
    requires forall j :: 0 <= j < |init.headers.value| && j != i ==> ToLower(init.headers.value[j].0) != AuthorizationKey
    ensures AuthorizationKey in Prepare(token, formDataDefined, input, init).headers
    ensures Prepare(token, formDataDefined, input, init).headers[AuthorizationKey] == init.headers.value[i].1
  {
    HeaderListSingle(init.headers.value, i);
  }

  /** `Content-Type: application/json` is added only for a truthy body that is not a `FormData`, when the caller set none. */
  lemma PrepareContentType(token: Option<string>, formDataDefined: bool, input: string, init: Init)
    ensures var caller := HeaderList(init.headers.GetOr([]));
      var sent := Prepare(token, formDataDefined, input, init).headers;
      && (ContentTypeKey in caller ==> ContentTypeKey in sent && sent[ContentTypeKey] == caller[ContentTypeKey])
      && (ContentTypeKey !in caller ==>
           && (ContentTypeKey in sent <==> BodyTruthy(init.body) && !(formDataDefined && init.body.FormDataBody?))
           && (ContentTypeKey in sent ==> sent[ContentTypeKey] == JsonMediaType))
  {
  }

  /** `Accept` is always sent: the caller's value, else `application/json`. */
  lemma PrepareAccept(token: Option<string>, formDataDefined: bool, input: string, init: Init)
    ensures var caller := HeaderList(init.headers.GetOr([]));
      var sent := Prepare(token, formDataDefined, input, init).headers;
      AcceptKey in sent && sent[AcceptKey] == if AcceptKey in caller then caller[AcceptKey] else JsonMediaType
  {
  }

  /**
   * Every other header and every other init field reach `fetch` unchanged,
   * while `credentials` is always `include`, whatever the caller asked for.
   */
  lemma PreparePassesThrough(token: Option<string>, formDataDefined: bool, input: string, init: Init)
    ensures var caller := HeaderList(init.headers.GetOr([]));
      var r := Prepare(token, formDataDefined, input, init);
      && r.input == input && r.body == init.body && r.rest == init.rest && r.credentials == "include"
      && (forall k :: k != AuthorizationKey && k != ContentTypeKey && k != AcceptKey ==>
            (k in r.headers <==> k in caller) && (k in caller ==> r.headers[k] == caller[k]))
  {
  }

  // ---------------------------------------------------------------------------
  // The reply

  /** What `fetch` produced: it threw, or a response with its `content-type`, what `json()` parses (if it does) and `text()`. */
  datatype Reply = Failed(error: Thrown) | Answer(status: int, contentType: Option<string>, json: Option<Json>, text: string)

  /** What a successful `fetcher` resolves to: `undefined`, parsed JSON, or the raw text. */
  datatype Decoded = NoContent | Parsed(value: Json) | Raw(text: string)

  predicate Ok(status: int) {
    200 <= status <= 299
  }

  /** `payload?.message || payload?.error || 'Request failed'`, as the `Error` constructor converts it to a string. */
  function FailureMessage(payload: Option<Json>): (r: string)
    ensures payload.None? ==> r == RequestFailed
  {
    if payload.None? then RequestFailed
    else
      var message := Prop(payload.value, "message");
      var error := Prop(payload.value, "error");
      if message.Some? && Truthy(message.value) then JsString(message.value)
      else if error.Some? && Truthy(error.value) then JsString(error.value)
      else RequestFailed
  }

  /**
   * For every body, the message is `String(payload?.message || payload?.error || 'Request failed')`:
   * the first truthy of the two fields, whatever its type, converted to a string.
   */
  lemma FailureMessageRule(payload: Option<Json>)
    ensures FailureMessage(payload) == if payload.None? then RequestFailed
      else JsString(Or(Prop(payload.value, "message"), Or(Prop(payload.value, "error"), JStr(RequestFailed))))
  {
  }

  /** A truthy non-string `message`, such as `42`, is converted: the error reads `"42"`. */
  lemma FailureMessageOfNumber(n: int, rest: map<string, Json>)
    requires n != 0
    ensures FailureMessage(Some(JObj(rest["message" := JNum(n)]))) == IntToString(n)
  {
  }

  /** Without a truthy `message`, a truthy `error` is the message, whatever other keys the body holds. */
  lemma FailureMessageOfError(error: string, rest: map<string, Json>)
    requires error != "" && ("message" !in rest || !Truthy(rest["message"]))
    ensures FailureMessage(Some(JObj(rest["error" := JStr(error)]))) == error
  {
    var p := JObj(rest["error" := JStr(error)]);
    assert Prop(p, "error") == Some(JStr(error));
  }

  /** An empty `message` falls through to `error`, and an empty `error` to the default. */
  lemma FailureMessageFallsThrough(message: string, error: string)
    ensures FailureMessage(Some(JObj(map["message" := JStr(message), "error" := JStr(error)])))
      == if message != "" then message else if error != "" then error else RequestFailed
  {
    var p := JObj(map["message" := JStr(message), "error" := JStr(error)]);
    assert Prop(p, "message") == Some(JStr(message));
    assert Prop(p, "error") == Some(JStr(error));
  }

  /** A body that is not an object (or `null`) gives the default message. */
  lemma FailureMessageOfNonObject(payload: Json)
    requires !payload.JObj?
    ensures FailureMessage(Some(payload)) == RequestFailed
  {
  }

  /** How `fetcher` settles for a reply. */
  function Decode(reply: Reply): (r: Completion<Decoded>)
    ensures r.Normal? ==> reply.Answer? && Ok(reply.status)
    ensures reply.Answer? && !Ok(reply.status) ==> r == Abrupt(ErrorWith(FailureMessage(reply.json)))
    ensures reply.Failed? ==> r == Abrupt(reply.error)
  {
    match reply
    case Failed(e) => Abrupt(e)
    case Answer(status, contentType, json, text) =>
      if !Ok(status) then Abrupt(ErrorWith(FailureMessage(json)))
      else if status == 204 then Normal(NoContent)
      else if Contains(contentType.GetOr(""), JsonMediaType) then
        match json
        case Some(v) => Normal(Parsed(v))
        case None => Abrupt(JsonSyntaxError)
      else Normal(Raw(text))
  }

  /** 204 No Content (section 15.3.5 of RFC 9110) resolves to `undefined` whatever the headers and body hold. */
  lemma NoContentIgnoresBody(contentType: Option<string>, json: Option<Json>, text: string)
    ensures Decode(Answer(204, contentType, json, text)) == Normal(NoContent)
  {
  }

  /**
   * Any other 2xx reply is parsed as JSON exactly when its `content-type`
   * contains `application/json` (letter case matters); otherwise its text is
   * returned unparsed.
   */
  lemma DecodePath(status: int, contentType: Option<string>, json: Option<Json>, text: string)
    requires Ok(status) && status != 204
    ensures var r := Decode(Answer(status, contentType, json, text));
      && (Contains(contentType.GetOr(""), JsonMediaType) ==> r == if json.Some? then Normal(Parsed(json.value)) else Abrupt(JsonSyntaxError))
      && (!Contains(contentType.GetOr(""), JsonMediaType) ==> r == Normal(Raw(text)))
  {
  }

  /** A media type with parameters, such as `application/json; charset=utf-8`, is still decoded as JSON. */
  lemma JsonWithParameters(status: int, parameters: string, v: Json, text: string)
    requires Ok(status) && status != 204
    ensures Decode(Answer(status, Some(JsonMediaType + parameters), Some(v), text)) == Normal(Parsed(v))
  {
    assert (JsonMediaType + parameters)[0..|JsonMediaType|] == JsonMediaType;
    assert OccursAt(JsonMediaType + parameters, JsonMediaType, 0);
  }

  // ---------------------------------------------------------------------------
  // fetcher

  /** The header steps of `fetcher`: on a `Headers` object built from the caller's, three guarded `set` calls. */
  method BuildRequest(token: Option<string>, formDataDefined: bool, input: string, init: Init) returns (sent: Request)
    ensures sent == Prepare(token, formDataDefined, input, init)
  {
    var headers := new Headers(init.headers.GetOr([]));
    AuthorizationName();
    if token.Some? && token.value != "" && !headers.Has("Authorization") {
      headers.Set("Authorization", "Bearer " + token.value);
    }
    var isFormData := formDataDefined && init.body.FormDataBody?;
    ContentTypeName();
    if !isFormData && BodyTruthy(init.body) && !headers.Has("Content-Type") {
      headers.Set("Content-Type", JsonMediaType);
    }
    AcceptName();
    if !headers.Has("Accept") {
      headers.Set("Accept", JsonMediaType);
    }
    sent := Request(input, headers.entries, init.body, "include", init.rest);
  }

  /** The reply steps of `fetcher`: the failure message is built up before the throw, then the decode path is picked. */
  method SettleReply(reply: Reply) returns (result: Completion<Decoded>)
    ensures result == Decode(reply)
  {
    match reply {
      case Failed(e) =>
        result := Abrupt(e);
      case Answer(status, contentType, json, text) =>
        if !Ok(status) {
          var message := RequestFailed;
          if json.Some? {
            var payload := json.value;
            var m := Prop(payload, "message");
            var e := Prop(payload, "error");
            if m.Some? && Truthy(m.value) {
              message := JsString(m.value);
            } else if e.Some? && Truthy(e.value) {
              message := JsString(e.value);
            }
          }
          result := Abrupt(ErrorWith(message));
        } else if status == 204 {
          result := Normal(NoContent);
        } else {
          var ct := contentType.GetOr("");
          if Contains(ct, JsonMediaType) {
            result := if json.Some? then Normal(Parsed(json.value)) else Abrupt(JsonSyntaxError);
          } else {
            result := Normal(Raw(text));
          }
        }
    }
  }

  /**
   * `fetcher(input, init)`: builds the request, sends it (the reply is a
   * parameter) and settles on the reply. `readToken` here reads the store
   * without ever throwing.
   */
  method Fetch(store: Store, formDataDefined: bool, input: string, init: Init, reply: Reply)
    returns (sent: Request, result: Completion<Decoded>)
    ensures sent == Prepare(ReadTokenCaught(store.env, store.State()), formDataDefined, input, init)
    ensures result == Decode(reply)
  {
    var token := ReadTokenCaught(store.env, store.State());
    sent := BuildRequest(token, formDataDefined, input, init);
    result := SettleReply(reply);
  }
}
