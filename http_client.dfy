/**
 * The HTTP helper class (AxiosHelper): the default headers, the two request
 * interceptors that shape a request's headers, the response interceptor, the
 * error normalisation in `handleError` and the URLs of the id-based calls.
 * The transport itself is not modelled: a failed call is described by the
 * `AxiosFailure` value it produces.
 */
module HttpClient {
  import opened Wrappers
  import opened JsValues
  import opened JsStrings
  import opened TokenStorage

  type Headers = map<string, string>

  const ContentType: string := "Content-Type"
  const Authorization: string := "Authorization"
  /** The durable-store key the bearer interceptor reads. */
  const TokenKey: string := "token"

  /** The instance headers: Content-Type "application/json", overridden by any caller defaults. */
  function ClientHeaders(defaults: Headers): (h: Headers)
    ensures h.Keys == defaults.Keys + {ContentType}
    ensures forall k :: k in defaults ==> h[k] == defaults[k]
    ensures ContentType !in defaults ==> h[ContentType] == "application/json"
  {
    map[ContentType := "application/json"] + defaults
  }

  /** A request body: none, a JSON-serialisable value, or a FormData object. */
  datatype Body = NoBody | JsonBody(value: JsValue) | FormDataBody

  // ------------------------------------------------------------ interceptors

  /** The headers the FormData interceptor leaves: Content-Type is dropped for FormData bodies. */
  function FormDataHeaders(h: Headers, body: Body): (r: Headers)
    ensures body.FormDataBody? ==> ContentType !in r
    ensures !body.FormDataBody? ==> r == h
    ensures forall k :: k != ContentType ==> (k in r <==> k in h) && (k in r ==> r[k] == h[k])
  {
    if body.FormDataBody? then h - {ContentType} else h
  }

  /** The text of an Authorization header for `token`. */
  function BearerValue(token: string): string {
    "Bearer " + token
  }

  /**
   * The headers the auth interceptor leaves, given what `localStorage.getItem("token")`
   * returned: the header is set only for a truthy, that is non-empty, token.
   */
  function WithBearer(h: Headers, token: Option<string>): (r: Headers)
    ensures token.Some? && token.value != "" ==> Authorization in r && r[Authorization] == BearerValue(token.value)
    ensures token.None? || token.value == "" ==> r == h
    ensures forall k :: k != Authorization ==> (k in r <==> k in h) && (k in r ==> r[k] == h[k])
  {
    match token
    case Some(t) => if t != "" then h[Authorization := BearerValue(t)] else h
    case None => h
  }

  /** The two request interceptors touch different headers, so their order does not matter. */
  lemma InterceptorsCommute(h: Headers, body: Body, token: Option<string>)
    ensures FormDataHeaders(WithBearer(h, token), body) == WithBearer(FormDataHeaders(h, body), token)
  {
    var a := FormDataHeaders(WithBearer(h, token), body);
    var b := WithBearer(FormDataHeaders(h, body), token);
    assert forall k :: k in a <==> k in b;
    assert forall k :: k in a ==> a[k] == b[k];
  }

  /**
   * Signing in stores its tokens under "accessToken" and "refreshToken", never under
   * "token", so `setTokens` leaves the header the auth interceptor produces unchanged.
   */
  lemma BearerIgnoresStoredTokens(h: Headers, local: map<string, string>, refresh: string)
    ensures WithBearer(h, Lookup(local[RefreshTokenKey := refresh], TokenKey)) == WithBearer(h, Lookup(local, TokenKey))
  {
    assert TokenKey != RefreshTokenKey;
  }

  /** A request's configuration as the interceptors see it: its headers and its body. */
  class RequestConfig {
    var headers: Headers
    const data: Body

    constructor (headers: Headers, data: Body)
      ensures this.headers == headers && this.data == data
    {
      this.headers := headers;
      this.data := data;
    }

    /** The first interceptor: `delete config.headers["Content-Type"]` for a FormData body. */
    method StripContentTypeForFormData()
      modifies this
      ensures headers == FormDataHeaders(old(headers), data)
    {
      if data.FormDataBody? {
        headers := headers - {ContentType};
      }
    }

    /** The second interceptor: sets `Authorization` from the durable store's "token" entry, if truthy. */
    method AttachBearerToken(stores: BrowserStorage)
      modifies this
      ensures headers == WithBearer(old(headers), stores.LocalItem(TokenKey))
    {
      var token := stores.LocalItem(TokenKey);
      if token.Some? && token.value != "" {
        headers := headers[Authorization := BearerValue(token.value)];
      }
    }

    /** Request interceptors run last-registered first: the auth one, then the FormData one. */
    method RunRequestInterceptors(stores: BrowserStorage)
      modifies this
      ensures headers == FormDataHeaders(WithBearer(old(headers), stores.LocalItem(TokenKey)), data)
      ensures headers == WithBearer(FormDataHeaders(old(headers), data), stores.LocalItem(TokenKey))
    {
      AttachBearerToken(stores);
      StripContentTypeForFormData();
      InterceptorsCommute(old(headers), data, stores.LocalItem(TokenKey));
    }
  }

  // ------------------------------------------------- Bearer scheme (RFC 6750)

  /** The characters of b64token in section 2.1 of RFC 6750, besides the trailing "=". */
  predicate IsB64Char(c: char) {
    ('A' <= c <= 'Z') || ('a' <= c <= 'z') || ('0' <= c <= '9')
    || c == '-' || c == '.' || c == '_' || c == '~' || c == '+' || c == '/'
  }

  /** `s` without its trailing "=" characters. */
  function StripPadding(s: string): (r: string)
    ensures |r| <= |s| && r == s[..|r|]
    ensures forall i :: |r| <= i < |s| ==> s[i] == '='
    ensures r == [] || r[|r| - 1] != '='
    decreases |s|
  {
    if s != [] && s[|s| - 1] == '=' then StripPadding(s[..|s| - 1]) else s
  }

  /** `b64token = 1*( ALPHA / DIGIT / "-" / "." / "_" / "~" / "+" / "/" ) *"="` */
  predicate IsB64Token(s: string) {
    var b := StripPadding(s);
    b != [] && forall i :: 0 <= i < |b| ==> IsB64Char(b[i])
  }

  /** `s` without its leading spaces. */
  function StripSpaces(s: string): (r: string)
    ensures |r| <= |s| && r == s[|s| - |r|..]
    ensures forall i :: 0 <= i < |s| - |r| ==> s[i] == ' '
    ensures r == [] || r[0] != ' '
    decreases |s|
  {
    if s != [] && s[0] == ' ' then StripSpaces(s[1..]) else s
  }

  /** `credentials = "Bearer" 1*SP b64token` */
  predicate IsBearerCredentials(v: string) {
    |v| >= 7 && v[..6] == "Bearer" && v[6] == ' ' && IsB64Token(StripSpaces(v[6..]))
  }

  /**
   * For a token that does not start with a space, the header the interceptor
   * writes follows the Bearer syntax exactly when the token is a b64token.
   */
  lemma BearerValueConforms(token: string)
    requires token == [] || token[0] != ' '
    ensures IsBearerCredentials(BearerValue(token)) <==> IsB64Token(token)
  {
    var v := BearerValue(token);
    assert v[..6] == "Bearer" && v[6] == ' ';
    assert v[6..] == " " + token;
    assert (" " + token)[1..] == token;
    assert StripSpaces(token) == token;
  }

  /** A stored b64token is attached as well-formed Bearer credentials. */
  lemma AttachedHeaderConforms(h: Headers, token: string)
    requires IsB64Token(token)
    ensures Authorization in WithBearer(h, Some(token))
    ensures IsBearerCredentials(WithBearer(h, Some(token))[Authorization])
  {
    var b := StripPadding(token);
    assert token[0] == b[0] && IsB64Char(b[0]);
    BearerValueConforms(token);
  }

  /** The interceptor does not check the token: one holding a space is sent as malformed credentials. */
  lemma MalformedTokenIsAttached()
    ensures WithBearer(map[], Some("a b")) == map[Authorization := "Bearer a b"]
    ensures !IsBearerCredentials(BearerValue("a b"))
  {
    assert BearerValue("a b") == "Bearer a b";
    assert StripSpaces(BearerValue("a b")[6..]) == "a b" by {
      assert BearerValue("a b")[6..] == " a b";
      assert (" a b")[1..] == "a b";
    }
    assert StripPadding("a b") == "a b";
    assert !IsB64Char("a b"[1]);
  }

  // ---------------------------------------------------------------- errors

  /** The response part of a failed call. */
  datatype HttpResponse = HttpResponse(status: int, data: JsValue)

  /**
   * A rejected call: `response` when the server answered, `request` when a
   * request went out (without an answer), and the error's own message.
   */
  datatype AxiosFailure = AxiosFailure(response: Option<HttpResponse>, request: bool, message: string)

  /** The Error `handleError` throws: its message, and the `status` and `data` it carries (null when absent). */
  datatype CustomError = CustomError(message: string, status: Option<int>, data: JsValue)

  const UnexpectedMessage: string := "An unexpected error occurred"
  const NoResponseMessage: string := "No response received from server"
  const StatusMessagePrefix: string := "Request failed with status code "

  /** The fallback message for a response without a truthy `data.message`. */
  function StatusMessage(status: int): (m: string)
    ensures |m| > |StatusMessagePrefix| && m[..|StatusMessagePrefix|] == StatusMessagePrefix
  {
    StatusMessagePrefix + IntToString(status)
  }

  /** The fallback message names the status: the digits after the prefix read back as the code. */
  lemma StatusMessageRoundTrip(status: nat)
    ensures IsDigits(StatusMessage(status)[|StatusMessagePrefix|..])
    ensures DecimalValue(StatusMessage(status)[|StatusMessagePrefix|..]) == status
  {
    assert StatusMessage(status)[|StatusMessagePrefix|..] == IntToString(status);
  }

  /** Different status codes give different fallback messages. */
  lemma StatusMessageInjective(s1: int, s2: int)
    requires StatusMessage(s1) == StatusMessage(s2)
    ensures s1 == s2
  {
    assert StatusMessage(s1)[|StatusMessagePrefix|..] == IntToString(s1);
    assert StatusMessage(s2)[|StatusMessagePrefix|..] == IntToString(s2);
    IntToStringInjective(s1, s2);
  }

  /**
   * `handleError`: starts from the "unexpected" record and overwrites it by the
   * first case that applies — a response, a request without one, anything else.
   * `new Error(m)` stores `String(m)`.
   */
  method HandleError(error: AxiosFailure) returns (e: CustomError)
    ensures e.status.Some? <==> error.response.Some?
    ensures error.response.Some? ==>
      var resp := error.response.value;
      var m := Prop(resp.data, "message");
      e.status == Some(resp.status) && e.data == resp.data
      && (Truthy(m) ==> e.message == ToJsString(m))
      && (!Truthy(m) ==> e.message == StatusMessage(resp.status))
    ensures error.response.None? && error.request ==> e == CustomError(NoResponseMessage, None, Null)
    ensures error.response.None? && !error.request ==> e == CustomError(error.message, None, Null)
  {
    var message: JsValue := Str(UnexpectedMessage);
    var status: Option<int> := None;
    var data: JsValue := Null;
    if error.response.Some? {
      var resp := error.response.value;
      message := Or(Prop(resp.data, "message"), Str(StatusMessage(resp.status)));
      status := Some(resp.status);
      data := resp.data;
    } else if error.request {
      message := Str(NoResponseMessage);
    } else {
      message := Str(error.message);
    }
    e := CustomError(ToJsString(message), status, data);
  }

  /**
   * The response interceptor's error handler: the error is rejected again as it is,
   * and a 401 answer is only logged. Nothing is retried.
   */
  method OnResponseError(error: AxiosFailure) returns (rejected: AxiosFailure, logged: bool)
    ensures rejected == error
    ensures logged <==> error.response.Some? && error.response.value.status == 401
  {
    logged := error.response.Some? && error.response.value.status == 401;
    rejected := error;
  }

  // ------------------------------------------------------------------ URLs

  /**
   * The URL `getById` requests: the first ":id" is replaced by `id.toString()`,
   * or the id is appended. None where `toString` throws (an undefined or null id).
   */
  function GetByIdUrl(endpoint: string, id: JsValue): (url: Option<string>)
    ensures !Includes(endpoint, ":id") ==> url == Some(endpoint + ToJsString(id))
    ensures Includes(endpoint, ":id") ==>
      (url.None? <==> id.Undefined? || id.Null?)
      && (url.Some? ==> url.value == ReplaceFirst(endpoint, ":id", ToJsString(id)))
  {
    if Includes(endpoint, ":id") then
      if id.Undefined? || id.Null? then None else Some(ReplaceFirst(endpoint, ":id", ToJsString(id)))
    else Some(endpoint + ToJsString(id))
  }

  /** A decimal numeral holds no "$". */
  lemma NumberTextIsLiteral(n: int)
    ensures '$' !in IntToString(n)
  {
  }

  /** For a numeric id, `getById` puts the id's numeral exactly where the first ":id" was. */
  lemma GetByIdNumericUrl(endpoint: string, n: int, i: nat)
    requires IndexOf(endpoint, ":id") == Some(i)
    ensures GetByIdUrl(endpoint, Num(n)) == Some(endpoint[..i] + IntToString(n) + endpoint[i + 3..])
  {
    NumberTextIsLiteral(n);
    ReplaceFirstLiteral(endpoint, ":id", IntToString(n), i);
  }

  /** The URL `update`, `patch` and `delete` use: `${endpoint}/${id}`. */
  function ItemUrl(endpoint: string, id: JsValue): (url: string)
    ensures |url| > |endpoint| && url[..|endpoint| + 1] == endpoint + "/"
    ensures url[|endpoint| + 1..] == ToJsString(id)
  {
    endpoint + "/" + ToJsString(id)
  }

  /** Two numeric ids reach the same item URL only if they are equal. */
  lemma ItemUrlInjective(endpoint: string, i: int, j: int)
    requires ItemUrl(endpoint, Num(i)) == ItemUrl(endpoint, Num(j))
    ensures i == j
  {
    assert ItemUrl(endpoint, Num(i))[|endpoint| + 1..] == IntToString(i);
    IntToStringInjective(i, j);
  }

  /** The item URLs of the pages: no trailing slash after the id. */
  lemma ItemUrlExamples()
    ensures ItemUrl("/outlets", Num(3)) == "/outlets/3"
    ensures ItemUrl("/inventory", Str("5")) == "/inventory/5"
    ensures ItemUrl("/users", Num(12)) == "/users/12"
  {
    assert IntToString(3) == "3";
    assert NatToDecimal(12) == NatToDecimal(1) + [DigitChar(2)];
  }
}
