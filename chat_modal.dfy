/** The modal chat client (assets/js/wland-chat-block-modal.js): the `WlandChat` object's
    open/typing/send-button state, its `sendMessage` exchange with the webhook, and the
    page-wide guard that lets only one instance start. The DOM, Lottie and scrolling are
    left out; the webhook's answer and `JSON.parse` are inputs. */
module ChatModal {
  import opened Wrappers
  import opened Text
  import opened ChatJson
  import opened ChatHtml
  import opened ChatMarkup

  /** The properties `sendMessage` tries, in its order. */
  const ReplyKeys: seq<string> := ["output", "Output", "response", "message", "text"]

  const ConnectionError: string :=
    "Hay un problema de conexión. Por favor, contáctanos directamente en BravesLab.com o intenta de nuevo en unos segundos."

  /** What `fetch` gives back: a network failure, or a response with its status and body. */
  datatype Response = NetworkFailure | Response(status: int, body: string)

  /** `response.ok`. */
  predicate Ok(r: Response) {
    r.Response? && 200 <= r.status <= 299
  }

  /** The value `botMessage` holds once the reply is read: the first truthy of `output`,
      `Output`, `response`, `message`, `text`, else the raw text. A parse error, or a `null`
      whose property read throws, is caught and also gives the raw text. */
  function ReplyValue(parsed: Parsed, raw: string): Json {
    match parsed
    case SyntaxError(_) => JStr(raw)
    case Value(d) =>
      if d.JNull? then JStr(raw)
      else
        match FirstTruthyProp(d, ReplyKeys)
        case Some(v) => v
        case None => JStr(raw)
  }

  /** The text of the bot bubble after an exchange, before `processLinks`. A successful text
      reply has its markdown links converted; a non-string reply makes `botMessage.replace`
      throw, which lands in the same `catch` as a network or HTTP error and shows the
      connection message. */
  function BotText(parse: string -> Parsed, r: Response): string {
    if !Ok(r) then ConnectionError
    else
      var v := ReplyValue(parse(r.body), r.body);
      if v.JStr? then MarkdownLinks(v.s) else ConnectionError
  }

  /** The reply is the property at the first key whose value is truthy; when none is, or the body
      does not parse to a non-null value, it is the raw body. */
  lemma ReplyPrecedence(parsed: Parsed, raw: string, i: nat)
    requires parsed.Value? && !parsed.v.JNull? && i < |ReplyKeys|
    requires Truthy(Prop(parsed.v, ReplyKeys[i]))
    requires forall j | 0 <= j < i :: !Truthy(Prop(parsed.v, ReplyKeys[j]))
    ensures Some(ReplyValue(parsed, raw)) == Prop(parsed.v, ReplyKeys[i])
  {
    FirstTruthyPropAt(parsed.v, ReplyKeys, i);
  }

  lemma ReplyFallsBackToRaw(parsed: Parsed, raw: string)
    requires parsed.SyntaxError? || parsed.v.JNull? ||
             forall j | 0 <= j < |ReplyKeys| :: !Truthy(Prop(parsed.v, ReplyKeys[j]))
    ensures ReplyValue(parsed, raw) == JStr(raw)
  {
    if parsed.Value? && !parsed.v.JNull? {
      FirstTruthyPropSpec(parsed.v, ReplyKeys);
    }
  }

  /** Whatever the reply, the bubble's only `<` and `>` are those of the anchors `processLinks`
      inserts: a markdown link's `<a …>` is escaped like any other text. */
  lemma BotBubbleMarkup(parse: string -> Parsed, r: Response)
    ensures var text := BotText(parse, r);
            var ps := Pieces(Escape(text));
            ProcessLinks(text) == Render(ps) && Unescape(Flatten(ps)) == text &&
            Count(ProcessLinks(text), '<') == 2 * Links(ps) &&
            Count(ProcessLinks(text), '>') == 2 * Links(ps)
  {
    ProcessLinksShape(BotText(parse, r));
  }

  /** `generateSessionId()`: `'wland_' + Math.random().toString(36).substr(2, 9) + '_' + Date.now()`,
      with the random digits and the clock as inputs. */
  function SessionId(random36: string, now: nat): (id: string)
    ensures StartsWith(id, "wland_")
  {
    var digits := if |random36| <= 2 then [] else random36[2..if |random36| < 11 then |random36| else 11];
    var id := "wland_" + digits + "_" + NatToString(now);
    assert id[..6] == "wland_";
    id
  }

  datatype Sender = User | Bot

  /** A chat bubble: who sent it and the markup set as its `innerHTML`. */
  datatype Bubble = Bubble(sender: Sender, html: string)

  /** The body `sendMessage` posts. */
  datatype Payload = Payload(message: string, sessionId: string)

  class WlandChat {
    const sessionId: string
    const parse: string -> Parsed
    var isOpen: bool
    var isTyping: bool
    /** The text field's value and the send button's `disabled` flag. */
    var input: string
    var sendDisabled: bool
    var bubbles: seq<Bubble>
    /** The payloads posted to the webhook, oldest first. */
    var posted: seq<Payload>

    /** The state once every element is found: closed, not typing, nothing said yet. */
    constructor(sessionId: string, parse: string -> Parsed)
      ensures this.sessionId == sessionId && this.parse == parse
      ensures !isOpen && !isTyping && input == "" && bubbles == [] && posted == []
    {
      this.sessionId := sessionId;
      this.parse := parse;
      isOpen := false;
      isTyping := false;
      input := "";
      sendDisabled := false;
      bubbles := [];
      posted := [];
    }

    /** `toggleChat()` flips the window state. */
    method ToggleChat()
      modifies this
      ensures isOpen == !old(isOpen)
      ensures isTyping == old(isTyping) && input == old(input) && sendDisabled == old(sendDisabled)
      ensures bubbles == old(bubbles) && posted == old(posted)
    {
      isOpen := !isOpen;
      if isOpen {
        OpenWindow();
      } else {
        CloseWindow();
      }
    }

    method OpenWindow()
      modifies this
      ensures isOpen
      ensures isTyping == old(isTyping) && input == old(input) && sendDisabled == old(sendDisabled)
      ensures bubbles == old(bubbles) && posted == old(posted)
    {
      isOpen := true;
    }

    method CloseWindow()
      modifies this
      ensures !isOpen
      ensures isTyping == old(isTyping) && input == old(input) && sendDisabled == old(sendDisabled)
      ensures bubbles == old(bubbles) && posted == old(posted)
    {
      isOpen := false;
    }

    /** `toggleSendButton()`: disabled exactly when the input is blank or a reply is awaited. */
    method ToggleSendButton()
      modifies this
      ensures sendDisabled <==> JsTrim(input) == "" || isTyping
      ensures isOpen == old(isOpen) && isTyping == old(isTyping) && input == old(input)
      ensures bubbles == old(bubbles) && posted == old(posted)
    {
      var hasText := |JsTrim(input)| > 0;
      sendDisabled := !hasText || isTyping;
    }

    /** The input's `input` event. */
    method Type(text: string)
      modifies this
      ensures input == text && (sendDisabled <==> JsTrim(text) == "" || isTyping)
      ensures isOpen == old(isOpen) && isTyping == old(isTyping)
      ensures bubbles == old(bubbles) && posted == old(posted)
    {
      input := text;
      ToggleSendButton();
    }

    method ShowTyping()
      modifies this
      ensures isTyping && sendDisabled
      ensures isOpen == old(isOpen) && input == old(input)
      ensures bubbles == old(bubbles) && posted == old(posted)
    {
      isTyping := true;
      ToggleSendButton();
    }

    method HideTyping()
      modifies this
      ensures !isTyping && (sendDisabled <==> JsTrim(input) == "")
      ensures isOpen == old(isOpen) && input == old(input)
      ensures bubbles == old(bubbles) && posted == old(posted)
    {
      isTyping := false;
      ToggleSendButton();
    }

    /** `sendMessage()` with the webhook's answer `r`. A blank input, or a reply still awaited,
        changes nothing. Otherwise the trimmed message is shown and posted, the input is
        cleared, and the bot bubble follows; typing is over and the now empty input keeps the
        button disabled. */
    method SendMessage(r: Response)
      modifies this
      ensures JsTrim(old(input)) == "" || old(isTyping) ==>
                isOpen == old(isOpen) && isTyping == old(isTyping) && input == old(input) &&
                sendDisabled == old(sendDisabled) && bubbles == old(bubbles) && posted == old(posted)
      ensures JsTrim(old(input)) != "" && !old(isTyping) ==>
                var message := JsTrim(old(input));
                posted == old(posted) + [Payload(message, sessionId)] &&
                bubbles == old(bubbles) + [Bubble(User, ProcessLinks(message))] + [Bubble(Bot, ProcessLinks(BotText(parse, r)))] &&
                input == "" && !isTyping && sendDisabled && isOpen == old(isOpen)
    {
      var message := JsTrim(input);
      if message == [] || isTyping {
        return;
      }
      Exchange(message, r);
    }

    /** The body of `sendMessage` past its guard: show and post the message, then show the
        reply or the connection error, whichever `BotText` says. */
    method Exchange(message: string, r: Response)
      modifies this
      ensures posted == old(posted) + [Payload(message, sessionId)]
      ensures bubbles == old(bubbles) + [Bubble(User, ProcessLinks(message))] + [Bubble(Bot, ProcessLinks(BotText(parse, r)))]
      ensures input == "" && !isTyping && sendDisabled && isOpen == old(isOpen)
    {
      var mine := Bubble(User, ProcessLinks(message));
      bubbles := bubbles + [mine];
      ghost var shown := bubbles;
      input := "";
      ToggleSendButton();
      ShowTyping();
      posted := posted + [Payload(message, sessionId)];
      var reply := Bubble(Bot, ProcessLinks(BotText(parse, r)));
      HideTyping();
      assert bubbles == shown;
      bubbles := bubbles + [reply];
    }
  }

  /** `window.WlandChatInitialized`: the script runs once per inclusion, and only the first run
      on a page creates a chat. */
  class Page {
    var initialized: bool
    var chats: nat

    predicate Valid()
      reads this
    {
      chats == if initialized then 1 else 0
    }

    constructor()
      ensures Valid() && !initialized
    {
      initialized := false;
      chats := 0;
    }

    /** One run of the script: the guard returns early when the flag is set. */
    method RunScript()
      requires Valid()
      modifies this
      ensures Valid() && initialized && chats == 1
      ensures chats == old(chats) + (if old(initialized) then 0 else 1)
    {
      if initialized {
        return;
      }
      initialized := true;
      chats := chats + 1;
    }
  }
}
