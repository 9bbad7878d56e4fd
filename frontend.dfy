/** The colour arithmetic and the display gating of `Frontend` (includes/class_frontend.php).

    The colour helpers divide by 100 in floating point and pass the result to `dechex`, which
    truncates it; here the channel arithmetic is exact integer division, which agrees with
    that truncation for the non-negative values that arise. `has_block` is an input. */
module Frontend {
  import opened Text
  import opened Wrappers
  import opened Php
  import Helpers
  import Settings

  // ---------------------------------------------------------------- colours

  /** The three channels `lighten_color`/`darken_color` read: '#' removed, a three-digit form
      doubled, then `hexdec` of the pairs at 0, 2 and 4. */
  function Expand(h: string): string {
    if |h| == 3 then [h[0], h[0], h[1], h[1], h[2], h[2]] else h
  }

  /** A colour's three channels. */
  datatype Rgb = Rgb(r: nat, g: nat, b: nat)

  predicate InRange(c: Rgb) {
    c.r <= 255 && c.g <= 255 && c.b <= 255
  }

  function Channels(hex: string): (c: Rgb)
    ensures InRange(c)
  {
    var h := Expand(Without(hex, '#'));
    HexDecTwo(Substr(h, 0, 2));
    HexDecTwo(Substr(h, 2, 2));
    HexDecTwo(Substr(h, 4, 2));
    Rgb(HexDec(Substr(h, 0, 2)), HexDec(Substr(h, 2, 2)), HexDec(Substr(h, 4, 2)))
  }

  /** `min(255, $c + $percent / 100 * (255 - $c))`, truncated. */
  function LightenChannel(c: nat, percent: int): nat
    requires c <= 255 && 0 <= percent <= 100
  {
    ScaledBounds(percent, 255 - c);
    var v := c + percent * (255 - c) / 100;
    if v < 255 then v else 255
  }

  /** `max(0, $c - $percent / 100 * $c)`, truncated. */
  function DarkenChannel(c: nat, percent: int): nat
    requires c <= 255 && 0 <= percent <= 100
  {
    ScaledBounds(100 - percent, c);
    var v := c * (100 - percent) / 100;
    if v > 0 then v else 0
  }

  /** A share of at most 100 per cent of a non-negative amount. */
  lemma ScaledBounds(p: int, k: int)
    requires 0 <= p <= 100 && 0 <= k
    ensures 0 <= p * k <= 100 * k && 0 <= p * k / 100 <= k
    ensures p == 100 ==> p * k / 100 == k
    ensures p == 0 ==> p * k / 100 == 0
  {
    assert 100 * k - p * k == (100 - p) * k;
  }

  /** `str_pad(dechex($c), 2, '0', STR_PAD_LEFT)`. */
  function ChannelHex(c: nat): string {
    PadZeros(NatToHex(c), 2)
  }

  function Encode(c: Rgb): string {
    "#" + ChannelHex(c.r) + ChannelHex(c.g) + ChannelHex(c.b)
  }

  function Lighten(c: Rgb, percent: int): Rgb
    requires InRange(c) && 0 <= percent <= 100
  {
    Rgb(LightenChannel(c.r, percent), LightenChannel(c.g, percent), LightenChannel(c.b, percent))
  }

  function Darken(c: Rgb, percent: int): Rgb
    requires InRange(c) && 0 <= percent <= 100
  {
    Rgb(DarkenChannel(c.r, percent), DarkenChannel(c.g, percent), DarkenChannel(c.b, percent))
  }

  /** `lighten_color($hex, $percent)`; the percentage is 0-100, as the helper documents. */
  function LightenColor(hex: string, percent: int): string
    requires 0 <= percent <= 100
  {
    Encode(Lighten(Channels(hex), percent))
  }

  /** `darken_color($hex, $percent)`. */
  function DarkenColor(hex: string, percent: int): string
    requires 0 <= percent <= 100
  {
    Encode(Darken(Channels(hex), percent))
  }

  /** Two characters hold at most 255. */
  lemma HexDecTwo(s: string)
    requires |s| <= 2
    ensures HexDec(s) <= 255
  {
    if s != [] {
      var init := s[..|s| - 1];
      if init != [] {
        assert init[..|init| - 1] == [];
      }
    }
  }

  /** A channel is written as exactly two lower-case hex digits, which read back as it. */
  lemma ChannelHexRoundTrip(c: nat)
    requires c <= 255
    ensures var t := ChannelHex(c); |t| == 2 && IsLowerHex(t) && HexDec(t) == c
    ensures ChannelHex(c) == [HexDigitChar(c / 16), HexDigitChar(c % 16)]
  {
    ChannelHexDigits(c);
    var hi, lo := c / 16, c % 16;
    HexDigitValueCI(hi);
    HexDigitValueCI(lo);
    HexDecPair(HexDigitChar(hi), HexDigitChar(lo));
    assert 16 * hi + lo == c;
  }

  /** The two digits `str_pad(dechex($c), 2, '0', STR_PAD_LEFT)` writes. */
  lemma ChannelHexDigits(c: nat)
    requires c <= 255
    ensures ChannelHex(c) == [HexDigitChar(c / 16), HexDigitChar(c % 16)]
  {
    if c < 16 {
      assert NatToHex(c) == [HexDigitChar(c)];
      assert ChannelHex(c) == "0" + [HexDigitChar(c)];
    } else {
      assert NatToHex(c / 16) == [HexDigitChar(c / 16)];
    }
  }

  /** Two hex digits read as a number. */
  lemma HexDecPair(a: char, b: char)
    requires IsHexCI(a) && IsHexCI(b)
    ensures HexDec([a, b]) == 16 * HexCIValue(a) + HexCIValue(b)
  {
    var s := [a, b];
    assert s[..1] == [a] && s[..1][..0] == [] && s[1] == b;
    assert HexDec(s[..1]) == HexCIValue(a);
  }

  lemma HexDigitValueCI(d: nat)
    requires d < 16
    ensures IsHexCI(HexDigitChar(d)) && HexCIValue(HexDigitChar(d)) == d
  {
  }

  /** `#` followed by six lower-case hex digits. */
  predicate IsHexColor(s: string) {
    |s| == 7 && s[0] == '#' && IsLowerHex(s[1..])
  }

  /** The channels of '#' and six characters other than '#' are its three pairs. */
  lemma ChannelsOfSix(h: string)
    requires |h| == 6 && '#' !in h
    ensures Channels("#" + h) == Rgb(HexDec(h[..2]), HexDec(h[2..4]), HexDec(h[4..]))
  {
    WithoutFirst(h);
    WithoutAbsent(h, '#');
    assert Expand(h) == h;
    assert Substr(h, 0, 2) == h[..2] && Substr(h, 2, 2) == h[2..4] && Substr(h, 4, 2) == h[4..];
  }

  /** The encoding has the fixed shape and the channels read back out of it unchanged. */
  lemma EncodeDecode(c: Rgb)
    requires InRange(c)
    ensures IsHexColor(Encode(c)) && Channels(Encode(c)) == c
  {
    ChannelHexRoundTrip(c.r);
    ChannelHexRoundTrip(c.g);
    ChannelHexRoundTrip(c.b);
    var x, y, z := ChannelHex(c.r), ChannelHex(c.g), ChannelHex(c.b);
    var body := x + y + z;
    assert body[..2] == x && body[2..4] == y && body[4..] == z;
    assert IsLowerHex(body);
    assert Encode(c) == "#" + body;
    assert '#' !in body by {
      forall i | 0 <= i < |body| ensures body[i] != '#' {
        assert IsLowerHexChar(body[i]);
      }
    }
    ChannelsOfSix(body);
    assert ("#" + body)[1..] == body;
  }

  lemma WithoutFirst(body: string)
    ensures Without("#" + body, '#') == Without(body, '#')
  {
    assert ("#" + body)[1..] == body;
    assert "" + Without(body, '#') == Without(body, '#');
  }

  /** A lightened channel never goes down and never passes 255; 100% gives white and 0% the
      channel itself. */
  lemma LightenBounds(c: nat, percent: int)
    requires c <= 255 && 0 <= percent <= 100
    ensures c <= LightenChannel(c, percent) <= 255
    ensures percent == 100 ==> LightenChannel(c, percent) == 255
    ensures percent == 0 ==> LightenChannel(c, percent) == c
  {
    ScaledBounds(percent, 255 - c);
  }

  /** A darkened channel never goes up and never below 0; 100% gives black and 0% the channel
      itself. */
  lemma DarkenBounds(c: nat, percent: int)
    requires c <= 255 && 0 <= percent <= 100
    ensures 0 <= DarkenChannel(c, percent) <= c
    ensures percent == 100 ==> DarkenChannel(c, percent) == 0
    ensures percent == 0 ==> DarkenChannel(c, percent) == c
  {
    ScaledBounds(100 - percent, c);
    assert c * (100 - percent) == (100 - percent) * c;
  }

  /** Whatever the input, `lighten_color` gives '#' and six lower-case hex digits whose channels
      are the input's, each moved toward 255 and never past it. */
  lemma LightenColorShape(hex: string, percent: int)
    requires 0 <= percent <= 100
    ensures IsHexColor(LightenColor(hex, percent))
    ensures var c, c' := Channels(hex), Channels(LightenColor(hex, percent));
            c.r <= c'.r <= 255 && c.g <= c'.g <= 255 && c.b <= c'.b <= 255
    ensures percent == 100 ==> LightenColor(hex, percent) == "#ffffff"
  {
    var c := Channels(hex);
    LightenBounds(c.r, percent);
    LightenBounds(c.g, percent);
    LightenBounds(c.b, percent);
    var c' := Lighten(c, percent);
    assert LightenColor(hex, percent) == Encode(c');
    EncodeDecode(c');
    if percent == 100 {
      assert c' == Rgb(255, 255, 255);
      EncodeExtremes();
    }
  }

  /** Whatever the input, `darken_color` gives '#' and six lower-case hex digits whose channels
      are the input's, each moved toward 0 and never past it. */
  lemma DarkenColorShape(hex: string, percent: int)
    requires 0 <= percent <= 100
    ensures IsHexColor(DarkenColor(hex, percent))
    ensures var c, c' := Channels(hex), Channels(DarkenColor(hex, percent));
            c'.r <= c.r && c'.g <= c.g && c'.b <= c.b
    ensures percent == 100 ==> DarkenColor(hex, percent) == "#000000"
  {
    var c := Channels(hex);
    DarkenBounds(c.r, percent);
    DarkenBounds(c.g, percent);
    DarkenBounds(c.b, percent);
    var c' := Darken(c, percent);
    assert DarkenColor(hex, percent) == Encode(c');
    EncodeDecode(c');
    if percent == 100 {
      assert c' == Rgb(0, 0, 0);
      EncodeExtremes();
    }
  }

  lemma EncodeExtremes()
    ensures Encode(Rgb(255, 255, 255)) == "#ffffff" && Encode(Rgb(0, 0, 0)) == "#000000"
  {
    EncodeGrey(255, "ff");
    EncodeGrey(0, "00");
  }

  lemma EncodeGrey(v: nat, t: string)
    requires (v == 255 && t == "ff") || (v == 0 && t == "00")
    ensures Encode(Rgb(v, v, v)) == "#" + t + t + t
  {
    if v == 255 {
      HexFF();
    } else {
      Hex00();
    }
  }

  lemma HexFF()
    ensures ChannelHex(255) == "ff"
  {
    assert HexDigitChar(15) == 'f';
    assert NatToHex(15) == "f";
    assert NatToHex(255) == NatToHex(15) + "f";
  }

  lemma Hex00()
    ensures ChannelHex(0) == "00"
  {
    assert HexDigitChar(0) == '0';
    assert NatToHex(0) == "0";
    assert Zeros(1) == "0";
  }

  /** A three-digit colour is its six-digit doubling. */
  lemma ShortForm(a: char, b: char, c: char, percent: int)
    requires a != '#' && b != '#' && c != '#' && 0 <= percent <= 100
    ensures Channels("#" + [a, b, c]) == Channels("#" + [a, a, b, b, c, c])
    ensures LightenColor("#" + [a, b, c], percent) == LightenColor("#" + [a, a, b, b, c, c], percent)
    ensures DarkenColor("#" + [a, b, c], percent) == DarkenColor("#" + [a, a, b, b, c, c], percent)
  {
    WithoutFirst([a, b, c]);
    WithoutFirst([a, a, b, b, c, c]);
    WithoutAbsent([a, b, c], '#');
    WithoutAbsent([a, a, b, b, c, c], '#');
    assert Expand([a, b, c]) == [a, a, b, b, c, c];
  }

  function LowerHexChar(c: char): char {
    if 'A' <= c <= 'F' then (c as int + 32) as char else c
  }

  /** Darkening by 0% gives a six-digit colour back unchanged apart from lower-casing. */
  lemma DarkenZero(h: string)
    requires |h| == 6 && AllHexCI(h)
    ensures DarkenColor("#" + h, 0) == "#" + LowerHex6(h)
  {
    var c := Channels("#" + h);
    DarkenBounds(c.r, 0);
    DarkenBounds(c.g, 0);
    DarkenBounds(c.b, 0);
    assert Darken(c, 0) == c;
    SixDigitNormalForm(h);
  }

  /** Six hex digits, lower-cased. */
  function LowerHex6(h: string): (r: string)
    requires |h| == 6
    ensures |r| == 6 && forall i | 0 <= i < 6 :: r[i] == LowerHexChar(h[i])
  {
    [LowerHexChar(h[0]), LowerHexChar(h[1]), LowerHexChar(h[2]),
     LowerHexChar(h[3]), LowerHexChar(h[4]), LowerHexChar(h[5])]
  }

  /** Decoding and re-encoding six hex digits lower-cases them. */
  lemma SixDigitNormalForm(h: string)
    requires |h| == 6 && AllHexCI(h)
    ensures Encode(Channels("#" + h)) == "#" + LowerHex6(h)
  {
    SixDigitChannels(h);
    LowerHex6Pairs(h);
    var c := Channels("#" + h);
    EncodePairs(c, [LowerHexChar(h[0]), LowerHexChar(h[1])], [LowerHexChar(h[2]), LowerHexChar(h[3])],
                [LowerHexChar(h[4]), LowerHexChar(h[5])]);
  }

  lemma EncodePairs(c: Rgb, x: string, y: string, z: string)
    requires ChannelHex(c.r) == x && ChannelHex(c.g) == y && ChannelHex(c.b) == z
    ensures Encode(c) == "#" + (x + y + z)
  {
  }

  /** Each channel of six hex digits prints back as its pair, lower-cased. */
  lemma SixDigitChannels(h: string)
    requires |h| == 6 && AllHexCI(h)
    ensures var c := Channels("#" + h);
            ChannelHex(c.r) == [LowerHexChar(h[0]), LowerHexChar(h[1])] &&
            ChannelHex(c.g) == [LowerHexChar(h[2]), LowerHexChar(h[3])] &&
            ChannelHex(c.b) == [LowerHexChar(h[4]), LowerHexChar(h[5])]
  {
    assert h[4..] == h[4..6] && h[..2] == h[0..2];
    PairAt(h, 0);
    PairAt(h, 2);
    PairAt(h, 4);
    HexHasNoHash(h);
    ChannelsOfSix(h);
  }

  lemma HexHasNoHash(h: string)
    requires AllHexCI(h)
    ensures '#' !in h
  {
    forall i | 0 <= i < |h| ensures h[i] != '#' { assert IsHexCI(h[i]); }
  }

  /** The pair at `i` prints back lower-cased. */
  lemma PairAt(h: string, i: nat)
    requires i + 2 <= |h| && AllHexCI(h)
    ensures ChannelHex(HexDec(h[i..i + 2])) == [LowerHexChar(h[i]), LowerHexChar(h[i + 1])]
  {
    assert h[i..i + 2] == [h[i], h[i + 1]];
    assert IsHexCI(h[i]) && IsHexCI(h[i + 1]);
    PairHex(h[i], h[i + 1]);
  }

  lemma LowerHex6Pairs(h: string)
    requires |h| == 6
    ensures LowerHex6(h) == [LowerHexChar(h[0]), LowerHexChar(h[1])] + [LowerHexChar(h[2]), LowerHexChar(h[3])] + [LowerHexChar(h[4]), LowerHexChar(h[5])]
  {
  }

  /** A hex pair prints back in lower case. */
  lemma PairHex(a: char, b: char)
    requires IsHexCI(a) && IsHexCI(b)
    ensures ChannelHex(HexDec([a, b])) == [LowerHexChar(a), LowerHexChar(b)]
  {
    var x, y := HexCIValue(a), HexCIValue(b);
    HexDecPair(a, b);
    var v := HexDec([a, b]);
    assert v / 16 == x && v % 16 == y;
    LowerDigit(a);
    LowerDigit(b);
    ChannelHexRoundTrip(v);
  }

  lemma LowerDigit(c: char)
    requires IsHexCI(c)
    ensures HexDigitChar(HexCIValue(c)) == LowerHexChar(c)
  {
  }

  // ---------------------------------------------------------------- gating

  /** The page being served: whether there is a post and whether it holds the chat block. */
  datatype Page = Page(hasPost: bool, postHasBlock: bool)

  /** `page_has_chat_block()`. */
  predicate PageHasChatBlock(page: Page) {
    page.hasPost && page.postHasBlock
  }

  predicate GlobalEnable(o: Helpers.Options) {
    Truthy(Helpers.GetOption(o, "wland_chat_global_enable", Bool(false)))
  }

  /** What `enqueue_assets()` leaves queued: nothing, or the scripts for the stored display
      mode together with the configuration handed to them. */
  datatype Assets = Dequeued | Enqueued(frontendScript: string, webhookUrl: Value, authToken: Value, isAvailable: bool)

  function EnqueueAssets(o: Helpers.Options, pageId: int, clock: Helpers.Clock, page: Page): Assets {
    if !Helpers.ShouldDisplayChat(o, pageId, clock) then Dequeued
    else if !GlobalEnable(o) && !PageHasChatBlock(page) then Dequeued
    else
      var mode := ToText(Helpers.GetOption(o, "wland_chat_display_mode", Str("modal")));
      var config := Helpers.GetChatConfig(o, clock);
      Enqueued("assets/js/wland_chat_block_" + mode + ".js", config.webhookUrl,
               Helpers.GetOption(o, "wland_chat_n8n_auth_token", Str("")), config.isAvailable)
  }

  /** The custom colours `inject_custom_colors()` prints: the four options, the secondary
      colour (the primary lightened by 20%) and the send button's hover colour (the primary
      darkened by 10%). */
  datatype Colors = Colors(bubble: string, primary: string, background: string, text: string, secondary: string, hover: string)

  function InjectCustomColors(o: Helpers.Options, pageId: int, clock: Helpers.Clock, page: Page): Option<Colors> {
    if !Helpers.ShouldDisplayChat(o, pageId, clock) then None
    else if !GlobalEnable(o) && !PageHasChatBlock(page) then None
    else
      var primary := ToText(Helpers.GetOption(o, "wland_chat_primary_color", Str("#01B7AF")));
      Some(Colors(
        ToText(Helpers.GetOption(o, "wland_chat_bubble_color", Str("#01B7AF"))), primary,
        ToText(Helpers.GetOption(o, "wland_chat_background_color", Str("#FFFFFF"))),
        ToText(Helpers.GetOption(o, "wland_chat_text_color", Str("#333333"))),
        LightenColor(primary, 20), DarkenColor(primary, 10)))
  }

  /** Assets and custom colours appear together, exactly on pages that are not excluded and
      either have global display on or hold the block. */
  lemma AssetsGate(o: Helpers.Options, pageId: int, clock: Helpers.Clock, page: Page)
    ensures EnqueueAssets(o, pageId, clock, page).Enqueued? <==>
              !Helpers.IsPageExcluded(o, pageId) && (GlobalEnable(o) || PageHasChatBlock(page))
    ensures InjectCustomColors(o, pageId, clock, page).Some? <==> EnqueueAssets(o, pageId, clock, page).Enqueued?
  {
    Helpers.DisplayIffNotExcluded(o, pageId, clock);
  }

  /** The secondary and the hover colour are well-formed colours. */
  lemma SecondaryColorShape(o: Helpers.Options, pageId: int, clock: Helpers.Clock, page: Page)
    ensures InjectCustomColors(o, pageId, clock, page).Some? ==>
              IsHexColor(InjectCustomColors(o, pageId, clock, page).value.secondary) &&
              IsHexColor(InjectCustomColors(o, pageId, clock, page).value.hover)
  {
    var colors := InjectCustomColors(o, pageId, clock, page);
    if colors.Some? {
      var primary := ToText(Helpers.GetOption(o, "wland_chat_primary_color", Str("#01B7AF")));
      assert colors.value.secondary == LightenColor(primary, 20);
      LightenColorShape(primary, 20);
      assert colors.value.hover == DarkenColor(primary, 10);
      DarkenColorShape(primary, 10);
    }
  }

  /** After the settings whitelist the script is the modal or the fullscreen one. */
  lemma AssetsScript(o: Helpers.Options, pageId: int, clock: Helpers.Clock, page: Page)
    requires "wland_chat_display_mode" in o && o["wland_chat_display_mode"].Str?
    requires o["wland_chat_display_mode"] == Settings.SanitizeDisplayMode(o["wland_chat_display_mode"])
    ensures EnqueueAssets(o, pageId, clock, page).Enqueued? ==>
              EnqueueAssets(o, pageId, clock, page).frontendScript ==
                "assets/js/wland_chat_block_" + o["wland_chat_display_mode"].s + ".js"
    ensures o["wland_chat_display_mode"].s in Settings.DisplayModes
  {
    Settings.DisplayModeSanitized(o["wland_chat_display_mode"]);
  }

  /** The widget `render_chat_widget()` builds: its sanitised attributes, its id and the
      template it includes. */
  datatype Template = ModalTemplate | ScreenTemplate
  datatype Widget = Widget(attributes: map<string, Value>, id: string, template: Template)

  /** `render_global_chat()`; `password` stands for the random part of the widget id. */
  function RenderGlobalChat(o: Helpers.Options, pageId: int, clock: Helpers.Clock, page: Page, wp: Helpers.Wp, password: string): Option<Widget> {
    if !GlobalEnable(o) then None
    else if !Helpers.ShouldDisplayChat(o, pageId, clock) then None
    else if PageHasChatBlock(page) then None
    else
      var attributes := map[
        "webhookUrl" := Helpers.GetOption(o, "wland_chat_webhook_url", Bool(false)),
        "headerTitle" := Helpers.GetOption(o, "wland_chat_header_title", Bool(false)),
        "headerSubtitle" := Helpers.GetOption(o, "wland_chat_header_subtitle", Bool(false)),
        "welcomeMessage" := Helpers.WelcomeMessage(o, clock),
        "position" := Helpers.GetOption(o, "wland_chat_position", Str("bottom-right")),
        "displayMode" := Helpers.GetOption(o, "wland_chat_display_mode", Str("modal"))];
      RenderChatWidget(attributes, o, pageId, clock, wp, password)
  }

  /** `render_chat_widget($attributes)`: '' (here `None`) on a page that must not show the
      chat. */
  function RenderChatWidget(attributes: map<string, Value>, o: Helpers.Options, pageId: int, clock: Helpers.Clock, wp: Helpers.Wp, password: string): Option<Widget> {
    if !Helpers.ShouldDisplayChat(o, pageId, clock) then None
    else
      var a := Helpers.SanitizeBlockAttributes(attributes, o, clock, wp);
      Some(Widget(a, Helpers.GenerateUniqueId(password), if a["displayMode"] == Str("fullscreen") then ScreenTemplate else ModalTemplate))
  }

  /** The global widget renders exactly when global display is on, the page is not excluded and
      the page has no block of its own; it uses the fullscreen template exactly when the
      sanitised mode is the string 'fullscreen', and its id has the widget prefix. */
  lemma GlobalChatGate(o: Helpers.Options, pageId: int, clock: Helpers.Clock, page: Page, wp: Helpers.Wp, password: string)
    ensures RenderGlobalChat(o, pageId, clock, page, wp, password).Some? <==>
              GlobalEnable(o) && !Helpers.IsPageExcluded(o, pageId) && !PageHasChatBlock(page)
    ensures RenderGlobalChat(o, pageId, clock, page, wp, password).Some? ==>
              var w := RenderGlobalChat(o, pageId, clock, page, wp, password).value;
              w.attributes.Keys == Helpers.BlockKeys &&
              (w.template == ScreenTemplate <==> w.attributes["displayMode"] == Str("fullscreen")) &&
              StartsWith(w.id, Helpers.UniqueIdPrefix)
  {
    Helpers.DisplayIffNotExcluded(o, pageId, clock);
    Helpers.UniqueIdShape(password, password);
    if RenderGlobalChat(o, pageId, clock, page, wp, password).Some? {
      var w := RenderGlobalChat(o, pageId, clock, page, wp, password).value;
      var attributes := map[
        "webhookUrl" := Helpers.GetOption(o, "wland_chat_webhook_url", Bool(false)),
        "headerTitle" := Helpers.GetOption(o, "wland_chat_header_title", Bool(false)),
        "headerSubtitle" := Helpers.GetOption(o, "wland_chat_header_subtitle", Bool(false)),
        "welcomeMessage" := Helpers.WelcomeMessage(o, clock),
        "position" := Helpers.GetOption(o, "wland_chat_position", Str("bottom-right")),
        "displayMode" := Helpers.GetOption(o, "wland_chat_display_mode", Str("modal"))];
      Helpers.BlockAttributesSanitized(attributes, o, clock, wp);
    }
  }
}
