/** The earlier fullscreen client (assets/js/wland-chat-block-screen.js): the same window and
    send-button behaviour as the current one, a `send_message` that posts the whole history with
    a `prompt`, falls back to a fixed apology when no reply field is set, and shows one of two
    fixed texts for any error. The auth header, the fetch answer, the history entries and the
    `null` property read are those of `ChatScreen`. */
module LegacyChatScreen {
  import opened Wrappers
  import opened Text
  import opened ChatJson
  import ChatScreen

  /** `generate_session_id()`, with `Date.now()` and `Math.random().toString(36)` as inputs. */
  function SessionId(now: nat, random36: string): (id: string)
    ensures StartsWith(id, "session_") && !IsLowerHex(id)
  {
    var id := "session_" + NatToString(now) + "_" + Substring(random36, 2, 11);
    assert id[..8] == "session_";
    assert !IsLowerHexChar(id[0]);
    id
  }

  /** The body `send_message` posts: `{prompt, sessionId, history}`. */
  datatype Request = Request(url: string, headers: map<string, string>, prompt: string,
                             sessionId: string, history: seq<ChatScreen.Turn>)

  const ReplyKeys: seq<string> := ["output", "response", "message", "text"]

  const Apology: string := "Lo siento, hubo un error al procesar tu mensaje."
  const ConnectionFailed: string := "No se pudo conectar con el servidor. Por favor, verifica tu conexión a internet."
  const RetryLater: string := "Lo siento, hubo un error al procesar tu mensaje. Por favor, intenta de nuevo."

  /** The message thrown for a non-OK response. */
  function ServerError(status: nat, statusText: string): (m: string)
    ensures StartsWith(m, "Error del servidor: " + NatToString(status) + " ")
  {
    var m := "Error del servidor: " + NatToString(status) + " " + statusText;
    assert m[..|"Error del servidor: " + NatToString(status) + " "|] == "Error del servidor: " + NatToString(status) + " ";
    m
  }

  /** How the `try` block ends. */
  datatype Outcome = Delivered(reply: Json) | Raised(message: string)

  /** `data.output || data.response || data.message || data.text || <apology>` on a non-null
      value. */
  function Reply(data: Json): (v: Json)
    requires !data.JNull?
    ensures Truthy(Some(v))
  {
    FirstTruthyPropTruthy(data, ReplyKeys);
    match FirstTruthyProp(data, ReplyKeys)
    case Some(v) => v
    case None => JStr(Apology)
  }

  /** The reply is the property at the first key whose value is truthy. */
  lemma ReplyAtKey(data: Json, i: nat)
    requires !data.JNull? && i < |ReplyKeys| && Truthy(Prop(data, ReplyKeys[i]))
    requires forall j | 0 <= j < i :: !Truthy(Prop(data, ReplyKeys[j]))
    ensures Some(Reply(data)) == Prop(data, ReplyKeys[i])
  {
    FirstTruthyPropAt(data, ReplyKeys, i);
  }

  /** With every property falsy the reply is the apology. */
  lemma ReplyFallback(data: Json)
    requires !data.JNull? && forall j | 0 <= j < |ReplyKeys| :: !Truthy(Prop(data, ReplyKeys[j]))
    ensures Reply(data) == JStr(Apology)
  {
    FirstTruthyPropSpec(data, ReplyKeys);
  }

  /** The `try` block: any response that is OK and parses to a non-null value gives a reply. */
  function Answer(r: ChatScreen.FetchResult, parse: string -> Parsed): (o: Outcome)
    ensures o.Delivered? <==> r.Received? && 200 <= r.status <= 299 && parse(r.body).Value? && !parse(r.body).v.JNull?
  {
    match r
    case Rejected(m) => Raised(m)
    case Received(status, statusText, body) =>
      if !(200 <= status <= 299) then Raised(ServerError(status, statusText))
      else
        match parse(body)
        case SyntaxError(m) => Raised(m)
        case Value(data) => if data.JNull? then Raised(ChatScreen.NullReadMessage) else Delivered(Reply(data))
  }

  /** The text shown for a thrown error. */
  function ErrorText(m: string): string {
    if Contains(m, "Failed to fetch") then ConnectionFailed else RetryLater
  }

  /** The connection text is shown exactly for a message holding `Failed to fetch`; every other
      error gets the generic text. */
  lemma ErrorTextIff(m: string)
    ensures ErrorText(m) == ConnectionFailed <==> Contains(m, "Failed to fetch")
    ensures ErrorText(m) == RetryLater <==> !Contains(m, "Failed to fetch")
  {
    assert |ConnectionFailed| != |RetryLater|;
  }

  datatype Bubble = Said(text: string) | BotSaid(content: Json)

  /** The bubble that ends an exchange. */
  function Closing(o: Outcome): (b: Bubble)
    ensures b.BotSaid?
    ensures o.Raised? ==> b.content == JStr(ConnectionFailed) || b.content == JStr(RetryLater)
  {
    match o
    case Delivered(v) => BotSaid(v)
    case Raised(m) => BotSaid(JStr(ErrorText(m)))
  }

  /** The history entries that end an exchange: the assistant turn only on success. */
  function Remembered(o: Outcome): (t: seq<ChatScreen.Turn>)
    ensures |t| <= 1 && (t != [] <==> o.Delivered?)
  {
    match o
    case Delivered(v) => [ChatScreen.Turn(ChatScreen.Assistant, v)]
    case Raised(_) => []
  }

  class WlandChatScreen {
    const webhookUrl: string
    const authToken: string
    const sessionId: string
    const parse: string -> Parsed
    var isOpen: bool
    var history: seq<ChatScreen.Turn>
    var input: string
    var sendDisabled: bool
    var typing: bool
    var bubbles: seq<Bubble>
    var requests: seq<Request>

    /** The session id is generated once, in the constructor. */
    constructor(webhookUrl: string, authToken: string, now: nat, random36: string, parse: string -> Parsed)
      ensures this.webhookUrl == webhookUrl && this.authToken == authToken && this.parse == parse
      ensures sessionId == SessionId(now, random36)
      ensures !isOpen && history == [] && input == "" && !typing && bubbles == [] && requests == []
    {
      this.webhookUrl := webhookUrl;
      this.authToken := authToken;
      sessionId := SessionId(now, random36);
      this.parse := parse;
      isOpen := false;
      history := [];
      input := "";
      sendDisabled := false;
      typing := false;
      bubbles := [];
      requests := [];
    }

    /** `toggle_chat()`. */
    method ToggleChat()
      modifies this
      ensures isOpen == !old(isOpen)
      ensures history == old(history) && input == old(input) && sendDisabled == old(sendDisabled)
      ensures typing == old(typing) && bubbles == old(bubbles) && requests == old(requests)
    {
      if isOpen {
        CloseWindow();
      } else {
        OpenWindow();
      }
    }

    method OpenWindow()
      modifies this
      ensures isOpen
      ensures history == old(history) && input == old(input) && sendDisabled == old(sendDisabled)
      ensures typing == old(typing) && bubbles == old(bubbles) && requests == old(requests)
    {
      isOpen := true;
    }

    method CloseWindow()
      modifies this
      ensures !isOpen
      ensures history == old(history) && input == old(input) && sendDisabled == old(sendDisabled)
      ensures typing == old(typing) && bubbles == old(bubbles) && requests == old(requests)
    {
      isOpen := false;
    }

    /** `toggle_send_button()`: disabled exactly when the input is blank. */
    method ToggleSendButton()
      modifies this
      ensures sendDisabled <==> JsTrim(input) == ""
      ensures isOpen == old(isOpen) && history == old(history) && input == old(input)
      ensures typing == old(typing) && bubbles == old(bubbles) && requests == old(requests)
    {
      var hasText := |JsTrim(input)| > 0;
      sendDisabled := !hasText;
    }

    /** The input's `input` event. */
    method Type(text: string)
      modifies this
      ensures input == text && (sendDisabled <==> JsTrim(text) == "")
      ensures isOpen == old(isOpen) && history == old(history)
      ensures typing == old(typing) && bubbles == old(bubbles) && requests == old(requests)
    {
      input := text;
      ToggleSendButton();
    }

    /** `send_message()` with the webhook's answer `r`. A blank input changes nothing. Otherwise
        the trimmed message is shown and remembered, the request carries the history including
        this turn, and the reply (remembered as the assistant's turn) or the error text closes
        the exchange. There is no check of the URL: the request is always sent. */
    method SendMessage(r: ChatScreen.FetchResult)
      modifies this
      ensures JsTrim(old(input)) == "" ==>
                isOpen == old(isOpen) && history == old(history) && input == old(input) &&
                sendDisabled == old(sendDisabled) && typing == old(typing) &&
                bubbles == old(bubbles) && requests == old(requests)
      ensures JsTrim(old(input)) != "" ==>
                var message := JsTrim(old(input));
                var mine := ChatScreen.Turn(ChatScreen.UserRole, JStr(message));
                var o := Answer(r, parse);
                history == old(history) + [mine] + Remembered(o) &&
                requests == old(requests) +
                  [Request(webhookUrl, ChatScreen.Headers(authToken), message, sessionId, old(history) + [mine])] &&
                bubbles == old(bubbles) + [Said(message), Closing(o)] &&
                input == "" && sendDisabled && !typing && isOpen == old(isOpen)
    {
      var message := JsTrim(input);
      if message == [] {
        return;
      }
      Converse(message, r);
    }

    /** The body of `send_message` past its guard: show and remember the message, send it with
        the history, then show the reply or the error text and remember a reply. */
    method Converse(message: string, r: ChatScreen.FetchResult)
      modifies this
      ensures var mine := ChatScreen.Turn(ChatScreen.UserRole, JStr(message));
              var o := Answer(r, parse);
              history == old(history) + [mine] + Remembered(o) &&
              requests == old(requests) +
                [Request(webhookUrl, ChatScreen.Headers(authToken), message, sessionId, old(history) + [mine])] &&
              bubbles == old(bubbles) + [Said(message), Closing(o)]
      ensures input == "" && sendDisabled && !typing && isOpen == old(isOpen)
    {
      bubbles := bubbles + [Said(message)];
      input := "";
      ToggleSendButton();
      history := history + [ChatScreen.Turn(ChatScreen.UserRole, JStr(message))];
      typing := true;
      requests := requests + [Request(webhookUrl, ChatScreen.Headers(authToken), message, sessionId, history)];
      var o := Answer(r, parse);
      typing := false;
      bubbles := bubbles + [Closing(o)];
      history := history + Remembered(o);
    }
  }
}
