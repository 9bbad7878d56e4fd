/** The display and availability rules of `Helpers` (includes/class_helpers.php).

    Options are a map from option name to value; `get_option` falls back to its default for a
    missing name. The server clock is a parameter: for a timezone name it gives the current time
    formatted 'H:i', or nothing when `DateTimeZone`/`DateTime` throws. `esc_url` and the text
    sanitisers are opaque. */
module Helpers {
  import opened Text
  import opened Wrappers
  import opened Php
  import Settings

  type Options = map<string, Value>

  /** The current 'H:i' in a timezone, or `None` for an exception. */
  type Clock = string -> Option<string>

  /** `esc_url`, `sanitize_text_field` and `sanitize_textarea_field`. */
  datatype Wp = Wp(escUrl: Value -> string, sanitizeText: Value -> string, sanitizeTextarea: Value -> string)

  const UniqueIdPrefix: string := "wland-chat-"

  /** `get_option($key, $default)`. */
  function GetOption(o: Options, key: string, default: Value): Value {
    if key in o then o[key] else default
  }

  // ---------------------------------------------------------------- exclusion and display

  /** `is_page_excluded()` for the page id `get_the_ID()` returns. */
  predicate IsPageExcluded(o: Options, pageId: int) {
    var excluded := GetOption(o, "wland_chat_excluded_pages", Arr([]));
    if !Truthy(excluded) || !excluded.Arr? then false
    else exists i :: 0 <= i < |excluded.items| && LooseEqualsInt(excluded.items[i], pageId)
  }

  predicate IsAvailabilityEnabled(o: Options) {
    Truthy(GetOption(o, "wland_chat_availability_enabled", Bool(false)))
  }

  /** `$a <= $b` on two strings in PHP 8: numerically when both are integer strings, by
      `strcmp` otherwise. */
  predicate PhpLe(a: string, b: string) {
    if IsIntegerString(a) && IsIntegerString(b) then IntvalString(a) <= IntvalString(b) else LexLe(a, b)
  }

  /** The window test for a given current time; an exception (`None`) counts as available. */
  predicate WithinHoursAt(start: string, end: string, now: Option<string>) {
    match now
    case None => true
    case Some(t) =>
      if PhpLe(start, end) then PhpLe(start, t) && PhpLe(t, end)
      else PhpLe(start, t) || PhpLe(t, end)
  }

  /** `is_within_availability_hours()`. */
  predicate IsWithinAvailabilityHours(o: Options, clock: Clock) {
    var start := ToText(GetOption(o, "wland_chat_availability_start", Str("09:00")));
    var end := ToText(GetOption(o, "wland_chat_availability_end", Str("18:00")));
    var tz := ToText(GetOption(o, "wland_chat_availability_timezone", Str("Europe/Madrid")));
    WithinHoursAt(start, end, clock(tz))
  }

  /** `should_display_chat()`, with its availability branch. */
  predicate ShouldDisplayChat(o: Options, pageId: int, clock: Clock) {
    if IsPageExcluded(o, pageId) then false
    else if IsAvailabilityEnabled(o) && !IsWithinAvailabilityHours(o, clock) then true
    else true
  }

  /** The chat shows exactly on the pages that are not excluded: availability never hides it. */
  lemma DisplayIffNotExcluded(o: Options, pageId: int, clock: Clock)
    ensures ShouldDisplayChat(o, pageId, clock) <==> !IsPageExcluded(o, pageId)
  {
  }

  /** No list (or an empty one) excludes nothing; once the list has gone through
      `sanitize_excluded_pages`, a page is excluded exactly when its id is one of the sanitised
      ids. */
  lemma ExclusionCases(o: Options, pageId: int, form: Value)
    ensures var excluded := GetOption(o, "wland_chat_excluded_pages", Arr([]));
            !excluded.Arr? || excluded.items == [] ==> !IsPageExcluded(o, pageId)
    ensures ("wland_chat_excluded_pages" in o && o["wland_chat_excluded_pages"] == Settings.SanitizeExcludedPages(form)) ==>
              (IsPageExcluded(o, pageId) <==>
                 form.Arr? && exists i :: 0 <= i < |form.items| && AbsInt(form.items[i]) == pageId)
  {
    if "wland_chat_excluded_pages" in o && o["wland_chat_excluded_pages"] == Settings.SanitizeExcludedPages(form) && form.Arr? {
      var items := Settings.SanitizeExcludedPages(form).items;
      if exists i :: 0 <= i < |form.items| && AbsInt(form.items[i]) == pageId {
        var i :| 0 <= i < |form.items| && AbsInt(form.items[i]) == pageId;
        assert LooseEqualsInt(items[i], pageId);
      }
    }
  }

  // ---------------------------------------------------------------- the time window

  /** The window is inclusive at both ends when the start is not after the end, and wraps
      past midnight otherwise; an exception makes it open. */
  lemma WindowRule(start: string, end: string, t: string)
    ensures WithinHoursAt(start, end, None)
    ensures PhpLe(start, end) ==> (WithinHoursAt(start, end, Some(t)) <==> PhpLe(start, t) && PhpLe(t, end))
    ensures !PhpLe(start, end) ==> (WithinHoursAt(start, end, Some(t)) <==> PhpLe(start, t) || PhpLe(t, end))
    ensures WithinHoursAt(start, end, Some(start)) && WithinHoursAt(start, end, Some(end))
  {
    PhpLeReflexive(start);
    PhpLeReflexive(end);
    if !PhpLe(start, end) {
      PhpLeTotal(start, end);
    }
  }

  lemma {:induction false} LexLeReflexive(a: string)
    ensures LexLe(a, a)
    decreases |a|
  {
    if a != [] {
      LexLeReflexive(a[1..]);
    }
  }

  lemma PhpLeReflexive(a: string)
    ensures PhpLe(a, a)
  {
    LexLeReflexive(a);
  }

  lemma PhpLeTotal(a: string, b: string)
    ensures PhpLe(a, b) || PhpLe(b, a)
  {
    LexLeTotal(a, b);
  }

  /** A zero-padded clock time 'HH:MM' (hour 00-23, minute 00-59). */
  predicate Padded(s: string) {
    |s| == 5 && Settings.IsTimeBody(s)
  }

  function Minutes(s: string): int
    requires Padded(s)
  {
    60 * Settings.HourOf(s) + Settings.MinuteOf(s)
  }

  /** On zero-padded times, PHP's string order is the order of the clock. */
  lemma PaddedOrder(a: string, b: string)
    requires Padded(a) && Padded(b)
    ensures PhpLe(a, b) <==> Minutes(a) <= Minutes(b)
  {
    NotIntegerString(a);
    NotIntegerString(b);
    var a1, b1 := a[1..], b[1..];
    var a2, b2 := a1[1..], b1[1..];
    var a3, b3 := a2[1..], b2[1..];
    var a4, b4 := a3[1..], b3[1..];
    assert a4[1..] == [] && b4[1..] == [];
    assert LexLe(a4, b4) <==> a[4] <= b[4];
    assert LexLe(a3, b3) <==> a[3] < b[3] || (a[3] == b[3] && a[4] <= b[4]);
    assert LexLe(a2, b2) <==> LexLe(a3, b3);
    assert LexLe(a1, b1) <==> a[1] < b[1] || (a[1] == b[1] && LexLe(a2, b2));
    assert LexLe(a, b) <==> a[0] < b[0] || (a[0] == b[0] && LexLe(a1, b1));
  }

  lemma NotIntegerString(s: string)
    requires Padded(s)
    ensures !IsIntegerString(s)
  {
    assert SkipIntSpace(s) == s;
    assert Unsigned(s) == s;
    assert s[1..][1..] == s[2..];
    assert DigitPrefix(s[2..]) == "";
    assert DigitPrefix(s) == s[..2];
    assert !IsIntSpace(s[2]);
  }

  /** The reference reading of the window, in minutes of the day: on zero-padded times the
      string comparisons give exactly the inclusive interval, or its wrap past midnight. */
  lemma WindowInMinutes(start: string, end: string, t: string)
    requires Padded(start) && Padded(end) && Padded(t)
    ensures WithinHoursAt(start, end, Some(t)) <==>
              if Minutes(start) <= Minutes(end) then Minutes(start) <= Minutes(t) <= Minutes(end)
              else Minutes(t) >= Minutes(start) || Minutes(t) <= Minutes(end)
  {
    PaddedOrder(start, end);
    PaddedOrder(start, t);
    PaddedOrder(t, end);
  }

  /** The sanitiser also lets a one-digit hour through, and then the string order is not the
      clock's: with the window '9:00'-'18:00' the chat counts as available at every padded time
      up to 18:00, 08:00 and 00:00 included, and at none after it. */
  lemma OneDigitHourWindow(t: string)
    requires Padded(t)
    ensures Settings.SanitizeTime("9:00") == "9:00"
    ensures WithinHoursAt("9:00", "18:00", Some(t)) <==> Minutes(t) <= 18 * 60
  {
    Settings.TimeSanitized("9:00");
    var e := "18:00";
    assert Padded(e);
    assert Minutes(e) == 18 * 60;
    PaddedOrder(t, e);
    NotIntegerString(t);
    NotIntegerString(e);
    assert !IsIntegerString("9:00") by {
      assert SkipIntSpace("9:00") == "9:00";
      assert "9:00"[1..] == ":00";
      assert DigitPrefix(":00") == "";
    }
    assert !LexLe("9:00", "18:00");
    assert !LexLe("9:00", t) by {
      assert t[0] <= '2';
    }
  }

  // ---------------------------------------------------------------- messages and configuration

  /** `get_welcome_message()`. */
  function WelcomeMessage(o: Options, clock: Clock): Value {
    if IsAvailabilityEnabled(o) && !IsWithinAvailabilityHours(o, clock) then
      GetOption(o, "wland_chat_availability_message", Str(Settings.DefaultAvailabilityMessage))
    else GetOption(o, "wland_chat_welcome_message", Str(Settings.DefaultWelcomeMessage))
  }

  /** The array `get_chat_config()` returns. The legacy version has no token (`None`). */
  datatype ChatConfig = ChatConfig(
    webhookUrl: Value, authToken: Option<Value>, headerTitle: Value, headerSubtitle: Value,
    welcomeMessage: Value, position: Value, displayMode: Value, isAvailable: bool)

  function GetChatConfig(o: Options, clock: Clock): ChatConfig {
    ChatConfig(
      GetOption(o, "wland_chat_webhook_url", Bool(false)),
      Some(GetOption(o, "wland_chat_n8n_auth_token", Str(""))),
      GetOption(o, "wland_chat_header_title", Bool(false)),
      GetOption(o, "wland_chat_header_subtitle", Bool(false)),
      WelcomeMessage(o, clock),
      GetOption(o, "wland_chat_position", Str("bottom-right")),
      GetOption(o, "wland_chat_display_mode", Str("modal")),
      !IsAvailabilityEnabled(o) || IsWithinAvailabilityHours(o, clock))
  }

  /** The configuration is consistent with itself: it advertises the availability message
      exactly when it reports the chat unavailable, which happens exactly when availability is
      enabled and the clock is outside the window. */
  lemma ConfigConsistent(o: Options, clock: Clock)
    ensures var c := GetChatConfig(o, clock);
            (c.isAvailable <==> !IsAvailabilityEnabled(o) || IsWithinAvailabilityHours(o, clock)) &&
            c.welcomeMessage ==
              (if c.isAvailable then GetOption(o, "wland_chat_welcome_message", Str(Settings.DefaultWelcomeMessage))
               else GetOption(o, "wland_chat_availability_message", Str(Settings.DefaultAvailabilityMessage)))
    ensures !IsAvailabilityEnabled(o) ==> GetChatConfig(o, clock).isAvailable
  {
  }

  const BlockKeys: set<string> := {"webhookUrl", "headerTitle", "headerSubtitle", "welcomeMessage", "position", "displayMode"}

  /** The attributes over the option defaults (`wp_parse_args`). */
  function MergedAttributes(attributes: map<string, Value>, o: Options, clock: Clock): (a: map<string, Value>)
    ensures BlockKeys <= a.Keys
  {
    var defaults := map[
      "webhookUrl" := GetOption(o, "wland_chat_webhook_url", Bool(false)),
      "headerTitle" := GetOption(o, "wland_chat_header_title", Bool(false)),
      "headerSubtitle" := GetOption(o, "wland_chat_header_subtitle", Bool(false)),
      "welcomeMessage" := WelcomeMessage(o, clock),
      "position" := GetOption(o, "wland_chat_position", Str("bottom-right")),
      "displayMode" := GetOption(o, "wland_chat_display_mode", Str("modal"))];
    defaults + attributes
  }

  /** `sanitize_block_attributes($attributes)`: the merged attributes, each sanitised. */
  function SanitizeBlockAttributes(attributes: map<string, Value>, o: Options, clock: Clock, wp: Wp): map<string, Value> {
    var a := MergedAttributes(attributes, o, clock);
    map[
      "webhookUrl" := Str(wp.escUrl(a["webhookUrl"])),
      "headerTitle" := Str(wp.sanitizeText(a["headerTitle"])),
      "headerSubtitle" := Str(wp.sanitizeText(a["headerSubtitle"])),
      "welcomeMessage" := Str(wp.sanitizeTextarea(a["welcomeMessage"])),
      "position" := Settings.Whitelist(a["position"], Settings.Positions, "bottom-right"),
      "displayMode" := Settings.Whitelist(a["displayMode"], Settings.DisplayModes, "modal")]
  }

  /** Exactly six keys; position and display mode go through the same whitelists and defaults
      as the settings, taken from the attribute when given and from the stored option
      otherwise; the text fields come from the sanitisers. */
  lemma BlockAttributesSanitized(attributes: map<string, Value>, o: Options, clock: Clock, wp: Wp)
    ensures var r := SanitizeBlockAttributes(attributes, o, clock, wp);
            r.Keys == BlockKeys &&
            r["position"] == Settings.SanitizePosition(
              if "position" in attributes then attributes["position"] else GetOption(o, "wland_chat_position", Str("bottom-right"))) &&
            r["displayMode"] == Settings.SanitizeDisplayMode(
              if "displayMode" in attributes then attributes["displayMode"] else GetOption(o, "wland_chat_display_mode", Str("modal"))) &&
            r["welcomeMessage"] == Str(wp.sanitizeTextarea(
              if "welcomeMessage" in attributes then attributes["welcomeMessage"] else WelcomeMessage(o, clock)))
    ensures var r := SanitizeBlockAttributes(attributes, o, clock, wp);
            ((r["position"].Str? && r["position"].s in Settings.Positions) || r["position"] == Bool(true)) &&
            ((r["displayMode"].Str? && r["displayMode"].s in Settings.DisplayModes) || r["displayMode"] == Bool(true))
    ensures "position" in attributes && attributes["position"].Str? ==>
              var r := SanitizeBlockAttributes(attributes, o, clock, wp);
              r["position"] == (if attributes["position"].s in Settings.Positions then attributes["position"] else Str("bottom-right"))
  {
    var a := MergedAttributes(attributes, o, clock);
    MergedPicks(attributes, o, clock);
    SanitizedPicks(attributes, o, clock, wp);
    Settings.PositionSanitized(a["position"]);
    Settings.DisplayModeSanitized(a["displayMode"]);
    BlockAttributeKeys(attributes, o, clock, wp);
  }

  /** A merged attribute is the given one, else its default. */
  lemma MergedPicks(attributes: map<string, Value>, o: Options, clock: Clock)
    ensures var a := MergedAttributes(attributes, o, clock);
            a["position"] == (if "position" in attributes then attributes["position"] else GetOption(o, "wland_chat_position", Str("bottom-right"))) &&
            a["displayMode"] == (if "displayMode" in attributes then attributes["displayMode"] else GetOption(o, "wland_chat_display_mode", Str("modal"))) &&
            a["welcomeMessage"] == if "welcomeMessage" in attributes then attributes["welcomeMessage"] else WelcomeMessage(o, clock)
  {
  }

  /** Each sanitised attribute comes from the merged one by its sanitiser. */
  lemma SanitizedPicks(attributes: map<string, Value>, o: Options, clock: Clock, wp: Wp)
    ensures var a := MergedAttributes(attributes, o, clock);
            var r := SanitizeBlockAttributes(attributes, o, clock, wp);
            r["position"] == Settings.Whitelist(a["position"], Settings.Positions, "bottom-right") &&
            r["displayMode"] == Settings.Whitelist(a["displayMode"], Settings.DisplayModes, "modal") &&
            r["welcomeMessage"] == Str(wp.sanitizeTextarea(a["welcomeMessage"]))
  {
  }

  lemma BlockAttributeKeys(attributes: map<string, Value>, o: Options, clock: Clock, wp: Wp)
    ensures SanitizeBlockAttributes(attributes, o, clock, wp).Keys == BlockKeys
  {
  }

  /** `generate_unique_id()` for the password `wp_generate_password(8, false)` returns. */
  function GenerateUniqueId(password: string): string {
    UniqueIdPrefix + password
  }

  /** Every id carries the 'wland-chat-' prefix, and different passwords give different ids. */
  lemma UniqueIdShape(p: string, q: string)
    ensures StartsWith(GenerateUniqueId(p), UniqueIdPrefix)
    ensures GenerateUniqueId(p)[|UniqueIdPrefix|..] == p
    ensures p != q ==> GenerateUniqueId(p) != GenerateUniqueId(q)
  {
    assert GenerateUniqueId(p)[..|UniqueIdPrefix|] == UniqueIdPrefix;
    assert GenerateUniqueId(q)[|UniqueIdPrefix|..] == q;
  }
}
