/** The fullscreen chat client (assets/js/wland_chat_block_screen.js): the `WlandChatScreen`
    object's session id, conversation history and `send_message` exchange with the N8N webhook,
    and the decision rules inside it — the auth header, the text raised for each HTTP status,
    the choice of the reply field and the classification of the raised error. The DOM, Lottie,
    timers and the localised notice texts are left out; the webhook's answer, `JSON.parse`,
    `Object.keys` and `JSON.stringify` are inputs. */
module ChatScreen {
  import opened Wrappers
  import opened Text
  import opened ChatJson

  // ---------------------------------------------------------------- session id

  /** What `window.wlandFingerprint` offers `generate_session_id`: nothing, an object without a
      `get_or_create_session` function, or one whose promise resolves to a value or rejects. */
  datatype FingerprintApi = Absent | NoSessionMethod | Resolves(session: Json) | Rejects

  /** `generate_session_id()` with the clock (`Date.now()`) and `Math.random().toString(36)` as
      inputs: the fingerprint session when it is truthy, else a temporary id. */
  function GenerateSessionId(api: FingerprintApi, now: nat, random36: string): (id: Json)
    ensures api.Resolves? && Truthy(Some(api.session)) ==> id == api.session
    ensures !(api.Resolves? && Truthy(Some(api.session))) ==>
              id.JStr? && StartsWith(id.s, "temp_") && !IsLowerHex(id.s)
  {
    if api.Resolves? && Truthy(Some(api.session)) then api.session
    else
      var temp := "temp_" + NatToString(now) + "_" + Substring(random36, 2, 11);
      assert temp[..5] == "temp_";
      assert !IsLowerHexChar(temp[0]);
      JStr(temp)
  }

  // ---------------------------------------------------------------- request

  /** `headers`: always the JSON content type; `X-N8N-Auth` carries the token exactly when the
      token is not blank. */
  function Headers(authToken: string): (h: map<string, string>)
    ensures h.Keys <= {"Content-Type", "X-N8N-Auth"}
    ensures "Content-Type" in h && h["Content-Type"] == "application/json"
    ensures "X-N8N-Auth" in h <==> JsTrim(authToken) != ""
    ensures "X-N8N-Auth" in h ==> h["X-N8N-Auth"] == authToken
  {
    var base := map["Content-Type" := "application/json"];
    if authToken != "" && JsTrim(authToken) != "" then base["X-N8N-Auth" := authToken] else base
  }

  /** One POST to the webhook: its URL, headers and the JSON body `{chatInput, sessionId}`. */
  datatype Request = Request(url: string, headers: map<string, string>, chatInput: string, sessionId: Json)

  /** What `fetch` and `response.text()` give back: a rejection with its message, or a response.
      When `response.text()` fails the body is `''`, the same as an empty body. */
  datatype FetchResult = Rejected(message: string) | Received(status: nat, statusText: string, body: string)

  // ---------------------------------------------------------------- raised messages

  const NotConfiguredMarker: string := "WEBHOOK_NOT_CONFIGURED"
  const JsonMarker: string := "JSON_PARSE_ERROR"
  const FormatMarker: string := "RESPONSE_FORMAT_ERROR"

  const NotConfiguredMessage: string :=
    NotConfiguredMarker + ": La URL del webhook no está configurada en los ajustes del plugin."

  /** The text of a status with its own description. */
  function Described(code: string, rest: string): string {
    "ERROR " + code + rest
  }

  /** The code of a status with its own text: 401, 403, 404, 500, 502 or 503. */
  function KnownCode(status: nat): (code: string)
    ensures |code| == 3 && code[0] != 'H'
  {
    if status == 401 then "401"
    else if status == 403 then "403"
    else if status == 404 then "404"
    else if status == 500 then "500"
    else if status == 502 then "502"
    else "503"
  }

  /** The description that follows the code. */
  function KnownText(status: nat): string {
    if status == 401 then " UNAUTHORIZED: Token de autenticación inválido o expirado."
    else if status == 403 then " FORBIDDEN: Acceso denegado. Verifica el token de autenticación."
    else if status == 404 then " NOT FOUND: La URL del webhook no existe."
    else if status == 500 then " INTERNAL SERVER ERROR: Error en el servidor N8N."
    else if status == 502 then " BAD GATEWAY: El servidor N8N no responde."
    else " SERVICE UNAVAILABLE: El servidor N8N está temporalmente no disponible."
  }

  /** A described status holds its code right after `ERROR `, so it is not `ERROR HTTP …`. */
  lemma DescribedShape(code: string, rest: string)
    requires |code| == 3 && code[0] != 'H'
    ensures var d := Described(code, rest);
            StartsWith(d, "ERROR ") && !StartsWith(d, "ERROR HTTP ") && d[6..9] == code
  {
    var d := Described(code, rest);
    assert d[..6] == "ERROR " && d[6] == code[0];
  }

  lemma UnknownShape(status: nat, statusText: string)
    ensures var d := "ERROR HTTP " + NatToString(status) + ": " + statusText;
            StartsWith(d, "ERROR ") && StartsWith(d, "ERROR HTTP ")
  {
    var d := "ERROR HTTP " + NatToString(status) + ": " + statusText;
    assert d[..11] == "ERROR HTTP ";
    assert d[..6] == "ERROR ";
  }

  /** `error_details` for a non-OK status: 401, 403, 404, 500, 502 and 503 have their own text,
      any other status reads `ERROR HTTP <status>: <statusText>`. */
  function StatusDetails(status: nat, statusText: string): (d: string)
    ensures StartsWith(d, "ERROR ")
    ensures StartsWith(d, "ERROR HTTP ") <==> StatusKind(status) == Unknown
  {
    if StatusKind(status) != Unknown then
      DescribedShape(KnownCode(status), KnownText(status));
      Described(KnownCode(status), KnownText(status))
    else
      UnknownShape(status, statusText);
      "ERROR HTTP " + NatToString(status) + ": " + statusText
  }

  /** The message thrown for a non-OK response: the details, then the first 200 characters of a
      non-empty body. */
  function HttpError(status: nat, statusText: string, body: string): string {
    StatusDetails(status, statusText) +
    (if body != "" then "\n\nRespuesta: " + Substring(body, 0, 200) else "")
  }

  /** The message thrown when the body is not JSON. */
  function JsonParseError(body: string): string {
    JsonMarker + ": La respuesta del servidor no es JSON válido.\n\nRespuesta: " + Substring(body, 0, 200)
  }

  /** The message thrown when no reply field is found: `keys` is `Object.keys(data).join(', ')`
      and `dump` is `JSON.stringify(data)`. */
  function FormatError(keys: string, dump: string): string {
    FormatMarker + ": No se encontró el mensaje en la respuesta.\n\nCampos disponibles: " + keys +
    "\n\nRespuesta completa: " + Substring(dump, 0, 200)
  }

  /** The `TypeError` V8 raises for `data.output` when the body is `null`. */
  const NullReadMessage: string := "Cannot read properties of null (reading 'output')"

  // ---------------------------------------------------------------- reply

  /** The properties tried first, in order. */
  const ReplyKeys: seq<string> := ["output", "response", "message", "text"]

  /** `bot_message` after the `if`/`else` chain: found, not found (`RESPONSE_FORMAT_ERROR`), or the
      property read on `null` that throws. */
  datatype Reply = Found(v: Json) | Missing | ReadsNull

  /** The first truthy of `output`, `response`, `message`, `text`; else the data itself if it is a
      string; else `data.data` if it is a non-empty string. */
  function ChooseReply(data: Json): (r: Reply)
    ensures r == ReadsNull <==> data.JNull?
    ensures r.Found? ==> Truthy(Some(r.v))
  {
    if data.JNull? then ReadsNull
    else
      match FirstTruthyProp(data, ReplyKeys)
      case Some(v) =>
        FirstTruthyPropTruthy(data, ReplyKeys);
        Found(v)
      case None =>
        if data.JStr? then (if data.s != "" then Found(data) else Missing)
        else
          match Prop(data, "data")
          case Some(JStr(s)) => if s != "" then Found(JStr(s)) else Missing
          case _ => Missing
  }

  /** The reply is the property at the first key whose value is truthy. */
  lemma ReplyAtKey(data: Json, i: nat)
    requires !data.JNull? && i < |ReplyKeys| && Truthy(Prop(data, ReplyKeys[i]))
    requires forall j | 0 <= j < i :: !Truthy(Prop(data, ReplyKeys[j]))
    ensures ChooseReply(data) == Found(Prop(data, ReplyKeys[i]).value)
  {
    FirstTruthyPropAt(data, ReplyKeys, i);
  }

  /** A non-empty string body is its own reply: a string has none of the properties. */
  lemma ReplyIsString(s: string)
    requires s != ""
    ensures ChooseReply(JStr(s)) == Found(JStr(s))
  {
    FirstTruthyPropSpec(JStr(s), ReplyKeys);
  }

  /** `RESPONSE_FORMAT_ERROR` is raised exactly when the data is not `null`, none of the four
      properties is truthy, the data is not a non-empty string and `data.data` is not one either. */
  lemma ReplyMissing(data: Json)
    ensures ChooseReply(data) == Missing <==>
              !data.JNull? &&
              (forall i | 0 <= i < |ReplyKeys| :: !Truthy(Prop(data, ReplyKeys[i]))) &&
              !(data.JStr? && data.s != "") &&
              !(data.JObj? && "data" in data.fields && data.fields["data"].JStr? && data.fields["data"].s != "")
  {
    if !data.JNull? {
      FirstTruthyPropSpec(data, ReplyKeys);
    }
  }

  // ---------------------------------------------------------------- outcome

  /** How the `try` block ends: a reply shown and remembered, or an error thrown with its message. */
  datatype Outcome = Delivered(reply: Json) | Raised(message: string)

  /** The `try` block once the request is sent. */
  function Answer(r: FetchResult, parse: string -> Parsed, keysOf: Json -> string, stringify: Json -> string): Outcome {
    match r
    case Rejected(m) => Raised(m)
    case Received(status, statusText, body) =>
      if !(200 <= status <= 299) then Raised(HttpError(status, statusText, body))
      else
        match parse(body)
        case SyntaxError(_) => Raised(JsonParseError(body))
        case Value(data) =>
          match ChooseReply(data)
          case Found(v) => Delivered(v)
          case Missing => Raised(FormatError(keysOf(data), stringify(data)))
          case ReadsNull => Raised(NullReadMessage)
  }

  /** The whole `try` block: a blank webhook URL throws before any request. */
  function Exchange(webhookUrl: string, r: FetchResult, parse: string -> Parsed,
                   keysOf: Json -> string, stringify: Json -> string): Outcome {
    if JsTrim(webhookUrl) == "" then Raised(NotConfiguredMessage) else Answer(r, parse, keysOf, stringify)
  }

  /** A delivered reply is truthy and comes from an OK response sent to a non-blank URL whose body
      parsed to a value. */
  lemma DeliveredFromOk(webhookUrl: string, r: FetchResult, parse: string -> Parsed,
                        keysOf: Json -> string, stringify: Json -> string)
    requires Exchange(webhookUrl, r, parse, keysOf, stringify).Delivered?
    ensures var v := Exchange(webhookUrl, r, parse, keysOf, stringify).reply;
            Truthy(Some(v)) && JsTrim(webhookUrl) != "" && r.Received? && 200 <= r.status <= 299 &&
            parse(r.body).Value? && ChooseReply(parse(r.body).v) == Found(v)
  {
  }

  // ---------------------------------------------------------------- error classification

  /** The notice `send_message` shows for a thrown error. */
  datatype ErrorKind = Network | NotConfigured | Auth | NotFound | BadJson | BadFormat | Server | Unknown

  /** A kind's position in the order the `catch` block tests them. */
  function Rank(k: ErrorKind): (n: nat)
    ensures n <= 7 && (n == 7 <==> k == Unknown)
  {
    match k
    case Network => 0
    case NotConfigured => 1
    case Auth => 2
    case NotFound => 3
    case BadJson => 4
    case BadFormat => 5
    case Server => 6
    case Unknown => 7
  }

  /** The message holds one of the substrings the `catch` block tests for this kind. */
  predicate Matches(m: string, k: ErrorKind) {
    match k
    case Network => Contains(m, "Failed to fetch")
    case NotConfigured => Contains(m, NotConfiguredMarker)
    case Auth => Contains(m, "401") || Contains(m, "403")
    case NotFound => Contains(m, "404")
    case BadJson => Contains(m, JsonMarker)
    case BadFormat => Contains(m, FormatMarker)
    case Server => Contains(m, "500") || Contains(m, "502") || Contains(m, "503")
    case Unknown => false
  }

  /** The `catch` block's `if`/`else` chain on `error.message`. */
  function Classify(m: string): ErrorKind {
    if Matches(m, Network) then Network
    else if Matches(m, NotConfigured) then NotConfigured
    else if Matches(m, Auth) then Auth
    else if Matches(m, NotFound) then NotFound
    else if Matches(m, BadJson) then BadJson
    else if Matches(m, BadFormat) then BadFormat
    else if Matches(m, Server) then Server
    else Unknown
  }

  /** The first match wins: the message is classified `k` exactly when it matches `k` (or `k` is
      the fallback) and matches no kind checked before `k`. */
  lemma ClassifyFirstMatch(m: string, k: ErrorKind)
    ensures Classify(m) == k <==>
              (k == Unknown || Matches(m, k)) && forall j: ErrorKind | Rank(j) < Rank(k) :: !Matches(m, j)
  {
    var c := Classify(m);
    if c == k {
      forall j: ErrorKind | Rank(j) < Rank(k) ensures !Matches(m, j) {
        match j
        case Network =>
        case NotConfigured =>
        case Auth =>
        case NotFound =>
        case BadJson =>
        case BadFormat =>
        case Server =>
        case Unknown =>
      }
    } else if k != Unknown && Matches(m, k) {
      ClassifyBefore(m, k);
    }
  }

  /** A message that matches `k` is classified `k` or an earlier kind. */
  lemma ClassifyBefore(m: string, k: ErrorKind)
    requires Matches(m, k)
    ensures Rank(Classify(m)) <= Rank(k) && Matches(m, Classify(m))
  {
  }

  /** The class each failure is raised for. */
  function StatusKind(status: nat): ErrorKind {
    if status == 401 || status == 403 then Auth
    else if status == 404 then NotFound
    else if status == 500 || status == 502 || status == 503 then Server
    else Unknown
  }

  /** A status with its own text carries its code in the thrown message. */
  lemma HttpErrorMatches(status: nat, statusText: string, body: string)
    requires StatusKind(status) != Unknown
    ensures Matches(HttpError(status, statusText, body), StatusKind(status))
  {
    var code := KnownCode(status);
    var d := Described(code, KnownText(status));
    DescribedShape(code, KnownText(status));
    var m := HttpError(status, statusText, body);
    assert m[6..9] == d[6..9] == code;
    ContainsAt(m, code, 6);
  }

  lemma MarkerAtStart(m: string, marker: string)
    requires StartsWith(m, marker)
    ensures Contains(m, marker)
  {
  }

  /** The kind a raised message is meant for: the status's kind for an HTTP error, and the marker's
      kind for the other messages `send_message` builds; `Unknown` for a `null` body. */
  function Cause(webhookUrl: string, r: FetchResult, parse: string -> Parsed): ErrorKind
    requires JsTrim(webhookUrl) == "" || r.Received?
  {
    if JsTrim(webhookUrl) == "" then NotConfigured
    else if !(200 <= r.status <= 299) then StatusKind(r.status)
    else if parse(r.body).SyntaxError? then BadJson
    else if parse(r.body).v.JNull? then Unknown
    else BadFormat
  }

  /** Every message `send_message` raises itself is classified as its cause or as a kind checked
      earlier, and exactly as its cause when it holds no earlier kind's substring. */
  lemma RaisedClassification(webhookUrl: string, r: FetchResult, parse: string -> Parsed,
                             keysOf: Json -> string, stringify: Json -> string)
    requires JsTrim(webhookUrl) == "" || r.Received?
    requires Exchange(webhookUrl, r, parse, keysOf, stringify).Raised?
    ensures var m := Exchange(webhookUrl, r, parse, keysOf, stringify).message;
            var cause := Cause(webhookUrl, r, parse);
            Rank(Classify(m)) <= Rank(cause) &&
            ((forall j: ErrorKind | Rank(j) < Rank(cause) :: !Matches(m, j)) ==> Classify(m) == cause)
  {
    RaisedMatchesCause(webhookUrl, r, parse, keysOf, stringify);
    ClassifiedAsCause(Exchange(webhookUrl, r, parse, keysOf, stringify).message, Cause(webhookUrl, r, parse));
  }

  /** A raised message holds the substring of its cause. */
  lemma RaisedMatchesCause(webhookUrl: string, r: FetchResult, parse: string -> Parsed,
                           keysOf: Json -> string, stringify: Json -> string)
    requires JsTrim(webhookUrl) == "" || r.Received?
    requires Exchange(webhookUrl, r, parse, keysOf, stringify).Raised?
    ensures var m := Exchange(webhookUrl, r, parse, keysOf, stringify).message;
            var cause := Cause(webhookUrl, r, parse);
            cause == Unknown || Matches(m, cause)
  {
    if JsTrim(webhookUrl) == "" {
      NotConfiguredMatches();
    } else if !(200 <= r.status <= 299) {
      if StatusKind(r.status) != Unknown {
        HttpErrorMatches(r.status, r.statusText, r.body);
      }
    } else if parse(r.body).SyntaxError? {
      JsonParseErrorMatches(r.body);
    } else if !parse(r.body).v.JNull? {
      FormatErrorMatches(keysOf(parse(r.body).v), stringify(parse(r.body).v));
    }
  }

  lemma NotConfiguredMatches()
    ensures Matches(NotConfiguredMessage, NotConfigured)
  {
    assert NotConfiguredMessage[..|NotConfiguredMarker|] == NotConfiguredMarker;
    MarkerAtStart(NotConfiguredMessage, NotConfiguredMarker);
  }

  lemma JsonParseErrorMatches(body: string)
    ensures Matches(JsonParseError(body), BadJson)
  {
    var m := JsonParseError(body);
    assert m[..|JsonMarker|] == JsonMarker;
    MarkerAtStart(m, JsonMarker);
  }

  lemma FormatErrorMatches(keys: string, dump: string)
    ensures Matches(FormatError(keys, dump), BadFormat)
  {
    var m := FormatError(keys, dump);
    assert m[..|FormatMarker|] == FormatMarker;
    MarkerAtStart(m, FormatMarker);
  }

  /** A message that matches a kind (or any message, for the fallback) is classified as that kind
      or an earlier one, and as that kind when it matches no earlier one. */
  lemma ClassifiedAsCause(m: string, cause: ErrorKind)
    requires cause == Unknown || Matches(m, cause)
    ensures Rank(Classify(m)) <= Rank(cause)
    ensures (forall j: ErrorKind | Rank(j) < Rank(cause) :: !Matches(m, j)) ==> Classify(m) == cause
  {
    if cause != Unknown {
      ClassifyBefore(m, cause);
    }
    ClassifyFirstMatch(m, cause);
  }

  /** The order has a cost: a non-JSON body (an HTML error page served with status 200, say)
      whose first 200 characters hold `404` is reported as a missing webhook, not as invalid
      JSON. */
  lemma JsonErrorShadowedByNotFound(body: string)
    requires Contains(Substring(body, 0, 200), "404")
    ensures Rank(Classify(JsonParseError(body))) <= Rank(NotFound) < Rank(BadJson)
  {
    ContainsInfix(JsonMarker + ": La respuesta del servidor no es JSON válido.\n\nRespuesta: ",
                  Substring(body, 0, 200), "", "404");
    assert JsonParseError(body) ==
           JsonMarker + ": La respuesta del servidor no es JSON válido.\n\nRespuesta: " + Substring(body, 0, 200) + "";
    ClassifyBefore(JsonParseError(body), NotFound);
  }

  /** Likewise a reply without a known field whose keys mention `401` or `403` is reported as an
      authentication failure. */
  lemma FormatErrorShadowedByAuth(keys: string, dump: string)
    requires Contains(keys, "401") || Contains(keys, "403")
    ensures Rank(Classify(FormatError(keys, dump))) <= Rank(Auth) < Rank(BadFormat)
  {
    var pre := FormatMarker + ": No se encontró el mensaje en la respuesta.\n\nCampos disponibles: ";
    var post := "\n\nRespuesta completa: " + Substring(dump, 0, 200);
    if Contains(keys, "401") {
      ContainsInfix(pre, keys, post, "401");
    } else {
      ContainsInfix(pre, keys, post, "403");
    }
    assert FormatError(keys, dump) == pre + keys + post;
    ClassifyBefore(FormatError(keys, dump), Auth);
  }

  // ---------------------------------------------------------------- the client

  datatype Role = UserRole | Assistant

  /** An entry of `conversation_history`. */
  datatype Turn = Turn(role: Role, content: Json)

  /** A message added to the chat area: the user's text, the bot's reply, or the error notice of
      a kind with the thrown message in its technical details. */
  datatype Bubble = Said(text: string) | Replied(reply: Json) | Notice(kind: ErrorKind, message: string)

  /** The bubble that ends an exchange. */
  function Closing(o: Outcome): (b: Bubble)
    ensures o.Delivered? <==> b.Replied?
  {
    match o
    case Delivered(v) => Replied(v)
    case Raised(m) => Notice(Classify(m), m)
  }

  /** The history entries that end an exchange: the assistant turn only on success. */
  function Remembered(o: Outcome): (t: seq<Turn>)
    ensures |t| <= 1 && (t != [] <==> o.Delivered?)
  {
    match o
    case Delivered(v) => [Turn(Assistant, v)]
    case Raised(_) => []
  }

  class WlandChatScreen {
    const webhookUrl: string
    const authToken: string
    const parse: string -> Parsed
    const keysOf: Json -> string
    const stringify: Json -> string
    var isOpen: bool
    /** `null` until `generate_session_id` resolves. */
    var sessionId: Json
    var history: seq<Turn>
    /** The text field's value, the send button's `disabled` flag and the typing indicator. */
    var input: string
    var sendDisabled: bool
    var typing: bool
    var bubbles: seq<Bubble>
    /** The requests sent to the webhook, oldest first. */
    var requests: seq<Request>

    constructor(webhookUrl: string, authToken: string, parse: string -> Parsed,
                keysOf: Json -> string, stringify: Json -> string)
      ensures this.webhookUrl == webhookUrl && this.authToken == authToken && this.parse == parse
      ensures this.keysOf == keysOf && this.stringify == stringify
      ensures !isOpen && sessionId == JNull && history == [] && input == "" && !typing
      ensures bubbles == [] && requests == []
    {
      this.webhookUrl := webhookUrl;
      this.authToken := authToken;
      this.parse := parse;
      this.keysOf := keysOf;
      this.stringify := stringify;
      isOpen := false;
      sessionId := JNull;
      history := [];
      input := "";
      sendDisabled := false;
      typing := false;
      bubbles := [];
      requests := [];
    }

    /** The `then` of `generate_session_id()` in the constructor. */
    method SessionResolved(api: FingerprintApi, now: nat, random36: string)
      modifies this
      ensures sessionId == GenerateSessionId(api, now, random36)
      ensures isOpen == old(isOpen) && history == old(history) && input == old(input)
      ensures sendDisabled == old(sendDisabled) && typing == old(typing)
      ensures bubbles == old(bubbles) && requests == old(requests)
    {
      sessionId := GenerateSessionId(api, now, random36);
    }

    /** `toggle_chat()`. */
    method ToggleChat()
      modifies this
      ensures isOpen == !old(isOpen)
      ensures sessionId == old(sessionId) && history == old(history) && input == old(input)
      ensures sendDisabled == old(sendDisabled) && typing == old(typing)
      ensures bubbles == old(bubbles) && requests == old(requests)
    {
      if isOpen {
        CloseWindow();
      } else {
        OpenWindow();
      }
    }

    method OpenWindow()
      modifies this
      ensures isOpen
      ensures sessionId == old(sessionId) && history == old(history) && input == old(input)
      ensures sendDisabled == old(sendDisabled) && typing == old(typing)
      ensures bubbles == old(bubbles) && requests == old(requests)
    {
      isOpen := true;
    }

    method CloseWindow()
      modifies this
      ensures !isOpen
      ensures sessionId == old(sessionId) && history == old(history) && input == old(input)
      ensures sendDisabled == old(sendDisabled) && typing == old(typing)
      ensures bubbles == old(bubbles) && requests == old(requests)
    {
      isOpen := false;
    }

    /** `toggle_send_button()`: disabled exactly when the input is blank. */
    method ToggleSendButton()
      modifies this
      ensures sendDisabled <==> JsTrim(input) == ""
      ensures isOpen == old(isOpen) && sessionId == old(sessionId) && history == old(history)
      ensures input == old(input) && typing == old(typing)
      ensures bubbles == old(bubbles) && requests == old(requests)
    {
      var hasText := |JsTrim(input)| > 0;
      sendDisabled := !hasText;
    }

    /** The input's `input` event. */
    method Type(text: string)
      modifies this
      ensures input == text && (sendDisabled <==> JsTrim(text) == "")
      ensures isOpen == old(isOpen) && sessionId == old(sessionId) && history == old(history)
      ensures typing == old(typing) && bubbles == old(bubbles) && requests == old(requests)
    {
      input := text;
      ToggleSendButton();
    }

    /** `send_message()` with the webhook's answer `r`. A blank input changes nothing. Otherwise
        the trimmed message is shown and remembered as the user's turn before anything is sent;
        the request goes out only to a non-blank URL; then the reply (remembered as the
        assistant's turn) or the notice for the thrown error closes the exchange. */
    method SendMessage(r: FetchResult)
      modifies this
      ensures JsTrim(old(input)) == "" ==>
                isOpen == old(isOpen) && sessionId == old(sessionId) && history == old(history) &&
                input == old(input) && sendDisabled == old(sendDisabled) && typing == old(typing) &&
                bubbles == old(bubbles) && requests == old(requests)
      ensures JsTrim(old(input)) != "" ==>
                var message := JsTrim(old(input));
                var o := Exchange(webhookUrl, r, parse, keysOf, stringify);
                history == old(history) + [Turn(UserRole, JStr(message))] + Remembered(o) &&
                bubbles == old(bubbles) + [Said(message), Closing(o)] &&
                requests == old(requests) +
                  (if JsTrim(webhookUrl) == "" then []
                   else [Request(webhookUrl, Headers(authToken), message, old(sessionId))]) &&
                input == "" && sendDisabled && !typing && isOpen == old(isOpen) && sessionId == old(sessionId)
    {
      var message := JsTrim(input);
      if message == [] {
        return;
      }
      Converse(message, r);
    }

    /** The body of `send_message` past its guard: show and remember the message, send it unless
        the URL is blank, then show the reply or the error and remember a reply. */
    method Converse(message: string, r: FetchResult)
      modifies this
      ensures var o := Exchange(webhookUrl, r, parse, keysOf, stringify);
              history == old(history) + [Turn(UserRole, JStr(message))] + Remembered(o) &&
              bubbles == old(bubbles) + [Said(message), Closing(o)] &&
              requests == old(requests) +
                (if JsTrim(webhookUrl) == "" then []
                 else [Request(webhookUrl, Headers(authToken), message, old(sessionId))])
      ensures input == "" && sendDisabled && !typing && isOpen == old(isOpen) && sessionId == old(sessionId)
    {
      bubbles := bubbles + [Said(message)];
      input := "";
      ToggleSendButton();
      history := history + [Turn(UserRole, JStr(message))];
      typing := true;
      var o: Outcome;
      if JsTrim(webhookUrl) == "" {
        o := Raised(NotConfiguredMessage);
      } else {
        requests := requests + [Request(webhookUrl, Headers(authToken), message, sessionId)];
        o := Answer(r, parse, keysOf, stringify);
      }
      typing := false;
      bubbles := bubbles + [Closing(o)];
      history := history + Remembered(o);
    }
  }
}
