/** The option sanitisers and the hidden-field rendering of the settings screen
    (includes/class_settings.php). The Customizer (includes/class_customizer.php) and the legacy
    settings class (includes/class-settings.php) register the same sanitisers, with the same
    bodies, so they share these definitions. */
module Settings {
  import opened Text
  import opened Php

  const Positions: seq<string> := ["bottom-right", "bottom-left", "center"]
  const DisplayModes: seq<string> := ["modal", "fullscreen"]
  const ChatIcons: seq<string> := ["robot-chat", "chat-circle", "chat-happy", "chat-burbble"]

  /** The fallback of `sanitize_time`, whichever field it sanitises. */
  const TimeFallback: string := "09:00"
  /** The registered defaults of the two availability fields. */
  const StartDefault: string := "09:00"
  const EndDefault: string := "18:00"

  // ---------------------------------------------------------------- whitelists

  /** `in_array($value, $allowed) ? $value : $default`, with PHP's loose `in_array`. */
  function Whitelist(v: Value, allowed: seq<string>, default: string): Value {
    if InArray(v, allowed) then v else Str(default)
  }

  /** Every allowed value is a word starting with a lower-case letter. */
  predicate Words(allowed: seq<string>) {
    forall i :: 0 <= i < |allowed| ==> allowed[i] != [] && 'a' <= allowed[i][0] <= 'z'
  }

  lemma WordFacts(a: string)
    requires a != [] && 'a' <= a[0] <= 'z'
    ensures !IsIntegerString(a) && !Empty(a)
  {
    assert SkipIntSpace(a) == a;
    assert Unsigned(a) == a;
    assert DigitPrefix(a) == "";
  }

  lemma IntTextNotWord(i: int, a: string)
    requires a != [] && 'a' <= a[0] <= 'z'
    ensures IntToString(i) != a
  {
    var t := IntToString(i);
    if i >= 0 {
      assert IsDigit(t[0]);
    } else {
      assert t[0] == '-';
    }
  }

  /** What a whitelist keeps: a string is kept exactly when it is allowed and replaced by the
      default otherwise; of the other values only `true` gets through (it loosely equals every
      non-empty word), the rest become the default. The result is allowed or `true`, and
      sanitising twice is sanitising once. */
  lemma {:induction false} WhitelistCases(v: Value, allowed: seq<string>, default: string)
    requires Words(allowed) && default in allowed
    ensures var r := Whitelist(v, allowed, default);
            (v.Str? ==> r == (if v.s in allowed then v else Str(default))) &&
            (!v.Str? ==> r == (if v == Bool(true) then v else Str(default))) &&
            ((r.Str? && r.s in allowed) || r == Bool(true)) &&
            Whitelist(r, allowed, default) == r
  {
    forall i | 0 <= i < |allowed| ensures LooseEqualsString(v, allowed[i]) <==> (v == Str(allowed[i]) || v == Bool(true)) {
      WordFacts(allowed[i]);
      if v.Int? {
        IntTextNotWord(v.i, allowed[i]);
      }
    }
    if v.Str? && v.s in allowed {
      var i :| 0 <= i < |allowed| && allowed[i] == v.s;
      assert LooseEqualsString(v, allowed[i]);
    }
    if v == Bool(true) {
      assert LooseEqualsString(v, allowed[0]);
    }
    var i :| 0 <= i < |allowed| && allowed[i] == default;
    WordFacts(default);
    assert LooseEqualsString(Str(default), allowed[i]);
  }

  function SanitizePosition(v: Value): Value {
    Whitelist(v, Positions, "bottom-right")
  }

  function SanitizeDisplayMode(v: Value): Value {
    Whitelist(v, DisplayModes, "modal")
  }

  function SanitizeChatIcon(v: Value): Value {
    Whitelist(v, ChatIcons, "robot-chat")
  }

  /** `sanitize_position`: an allowed position is kept, any other string becomes 'bottom-right';
      idempotent. */
  lemma PositionSanitized(v: Value)
    ensures var r := SanitizePosition(v);
            (v.Str? ==> r.Str? && r.s in Positions && (r == v <==> v.s in Positions)) &&
            (!v.Str? ==> r == (if v == Bool(true) then v else Str("bottom-right"))) &&
            SanitizePosition(r) == r
  {
    assert Words(Positions) by {
      assert Positions[0][0] == 'b' && Positions[1][0] == 'b' && Positions[2][0] == 'c';
    }
    WhitelistCases(v, Positions, "bottom-right");
  }

  /** `sanitize_display_mode`: 'modal' or 'fullscreen' are kept, any other string becomes
      'modal'; idempotent. */
  lemma DisplayModeSanitized(v: Value)
    ensures var r := SanitizeDisplayMode(v);
            (v.Str? ==> r.Str? && r.s in DisplayModes && (r == v <==> v.s in DisplayModes)) &&
            (!v.Str? ==> r == (if v == Bool(true) then v else Str("modal"))) &&
            SanitizeDisplayMode(r) == r
  {
    assert Words(DisplayModes) by {
      assert DisplayModes[0][0] == 'm' && DisplayModes[1][0] == 'f';
    }
    WhitelistCases(v, DisplayModes, "modal");
  }

  /** `sanitize_chat_icon`: one of the four icons is kept, any other string becomes
      'robot-chat'; idempotent. */
  lemma ChatIconSanitized(v: Value)
    ensures var r := SanitizeChatIcon(v);
            (v.Str? ==> r.Str? && r.s in ChatIcons && (r == v <==> v.s in ChatIcons)) &&
            (!v.Str? ==> r == (if v == Bool(true) then v else Str("robot-chat"))) &&
            SanitizeChatIcon(r) == r
  {
    assert Words(ChatIcons) by {
      assert ChatIcons[0][0] == 'r' && ChatIcons[1][0] == 'c' && ChatIcons[2][0] == 'c' && ChatIcons[3][0] == 'c';
    }
    WhitelistCases(v, ChatIcons, "robot-chat");
  }

  // ---------------------------------------------------------------- excluded pages and checkboxes

  /** `sanitize_excluded_pages`: a non-array becomes `[]`, an array is mapped through `absint`. */
  function SanitizeExcludedPages(v: Value): Value {
    if !v.Arr? then Arr([])
    else Arr(seq(|v.items|, i requires 0 <= i < |v.items| => Int(AbsInt(v.items[i]))))
  }

  /** The result is an array of non-negative integers as long as the input array; page ids
      written in decimal keep their value; sanitising twice is sanitising once. */
  lemma ExcludedPagesSanitized(v: Value)
    ensures var r := SanitizeExcludedPages(v);
            r.Arr? && (!v.Arr? ==> r.items == []) &&
            (v.Arr? ==> |r.items| == |v.items|) &&
            (forall i :: 0 <= i < |r.items| ==> r.items[i].Int? && r.items[i].i >= 0) &&
            SanitizeExcludedPages(r) == r
    ensures v.Arr? ==> forall i, n: nat :: 0 <= i < |v.items| && v.items[i] == Str(NatToString(n)) ==>
              SanitizeExcludedPages(v).items[i] == Int(n)
  {
    if v.Arr? {
      forall i, n: nat | 0 <= i < |v.items| && v.items[i] == Str(NatToString(n))
        ensures SanitizeExcludedPages(v).items[i] == Int(n)
      {
        IntvalOfNatString(n);
      }
    }
  }

  /** `sanitize_checkbox`: `$value == 1 ? 1 : 0`. */
  function SanitizeCheckbox(v: Value): int {
    if LooseEqualsInt(v, 1) then 1 else 0
  }

  /** The result is 0 or 1 and sanitising it again keeps it; a string counts as checked exactly
      when it is an integer string of value 1 (so '1', ' 1' and '01', but not 'on'), and `true`
      counts as checked. */
  lemma CheckboxSanitized(v: Value)
    ensures var r := SanitizeCheckbox(v); (r == 0 || r == 1) && SanitizeCheckbox(Int(r)) == r
    ensures v.Str? ==> (SanitizeCheckbox(v) == 1 <==> IsIntegerString(v.s) && IntvalString(v.s) == 1)
    ensures SanitizeCheckbox(Bool(true)) == 1 && SanitizeCheckbox(Bool(false)) == 0 && SanitizeCheckbox(Null) == 0
    ensures SanitizeCheckbox(Str("on")) == 0 && SanitizeCheckbox(Str("")) == 0
  {
    assert IntToString(1) == "1";
    assert IsIntegerString("1") by {
      assert SkipIntSpace("1") == "1";
      assert DigitPrefix("1") == "1";
    }
    assert !IsIntegerString("on") by {
      assert SkipIntSpace("on") == "on";
      assert DigitPrefix("on") == "";
    }
  }

  // ---------------------------------------------------------------- times

  predicate HourPair(a: char, b: char) {
    ((a == '0' || a == '1') && IsDigit(b)) || (a == '2' && '0' <= b <= '3')
  }

  /** `:[0-5][0-9]` at position k, ending the string. */
  predicate MinutesAt(s: string, k: nat)
    requires k + 3 == |s|
  {
    s[k] == ':' && '0' <= s[k + 1] <= '5' && IsDigit(s[k + 2])
  }

  /** The strings `([01]?[0-9]|2[0-3]):[0-5][0-9]` matches. */
  predicate IsTimeBody(s: string) {
    (|s| == 4 && IsDigit(s[0]) && MinutesAt(s, 1)) ||
    (|s| == 5 && HourPair(s[0], s[1]) && MinutesAt(s, 2))
  }

  /** `preg_match('/^([01]?[0-9]|2[0-3]):[0-5][0-9]$/', $s)`. */
  predicate MatchesTime(s: string) {
    DollarMatch(s, IsTimeBody)
  }

  function SanitizeTime(s: string): string {
    if MatchesTime(s) then s else TimeFallback
  }

  function Digit(c: char): int {
    c as int - '0' as int
  }

  function HourOf(s: string): int
    requires IsTimeBody(s)
  {
    if |s| == 4 then Digit(s[0]) else 10 * Digit(s[0]) + Digit(s[1])
  }

  function MinuteOf(s: string): int
    requires IsTimeBody(s)
  {
    10 * Digit(s[|s| - 2]) + Digit(s[|s| - 1])
  }

  /** Every accepted time names a clock time: hour 0-23, minute 0-59. */
  lemma TimeBodyIsClockTime(s: string)
    requires IsTimeBody(s)
    ensures 0 <= HourOf(s) <= 23 && 0 <= MinuteOf(s) <= 59
  {
  }

  /** The zero-padded text of a clock time. */
  function TwoDigits(n: nat): string
    requires n < 100
  {
    [DigitChar(n / 10), DigitChar(n % 10)]
  }

  function PaddedTime(h: nat, m: nat): string
    requires h < 24 && m < 60
  {
    TwoDigits(h) + ":" + TwoDigits(m)
  }

  /** Conversely every clock time, zero-padded, is accepted and reads back as itself. */
  lemma PaddedTimeAccepted(h: nat, m: nat)
    requires h < 24 && m < 60
    ensures IsTimeBody(PaddedTime(h, m)) && HourOf(PaddedTime(h, m)) == h && MinuteOf(PaddedTime(h, m)) == m
  {
    var s := PaddedTime(h, m);
    assert s[0] == DigitChar(h / 10) && s[1] == DigitChar(h % 10) && s[2] == ':';
    assert s[3] == DigitChar(m / 10) && s[4] == DigitChar(m % 10);
  }

  /** `sanitize_time`: the result always matches, so sanitising is idempotent; the input comes
      back exactly when it matches, including a one-digit hour and a trailing line break, and
      anything else becomes '09:00', also for the end field whose default is '18:00'. */
  lemma TimeSanitized(s: string)
    ensures MatchesTime(SanitizeTime(s)) && SanitizeTime(SanitizeTime(s)) == SanitizeTime(s)
    ensures SanitizeTime(s) == s <==> MatchesTime(s)
    ensures !MatchesTime(s) ==> SanitizeTime(s) == StartDefault && SanitizeTime(s) != EndDefault
    ensures SanitizeTime("9:00") == "9:00" && SanitizeTime("23:59") == "23:59" && SanitizeTime("00:00\n") == "00:00\n"
    ensures SanitizeTime("24:00") == TimeFallback && SanitizeTime("12:60") == TimeFallback
  {
    assert IsTimeBody(TimeFallback);
    assert IsTimeBody("00:00\n"[..5]);
    assert !IsTimeBody("24:00") && !IsTimeBody("12:60");
  }

  // ---------------------------------------------------------------- render_hidden_fields

  const OptionPrefix: string := "wland_chat_"

  /** The options the hidden fields preserve, in the order they are rendered. */
  const AllFields: seq<string> := [
    "global_enable", "webhook_url", "n8n_auth_token", "header_title", "header_subtitle",
    "welcome_message", "position", "display_mode", "chat_icon", "bubble_color", "primary_color",
    "background_color", "text_color", "excluded_pages", "availability_enabled",
    "availability_start", "availability_end", "availability_timezone", "availability_message",
    "gdpr_enabled", "gdpr_message", "gdpr_accept_text"]

  /** One `<input type="hidden">`: its name and its value attribute. */
  datatype Hidden = Hidden(name: string, value: string)

  const DefaultWelcomeMessage: string := "¡Hola! Soy el asistente de BravesLab, tu Artificial Intelligence Marketing Agency. Integramos IA en empresas para multiplicar resultados. ¿Cómo podemos ayudarte?"
  const DefaultAvailabilityMessage: string := "Nuestro horario de atención es de 9:00 a 18:00. Déjanos tu mensaje y te responderemos lo antes posible."
  const DefaultGdprMessage: string := "Este sitio utiliza cookies para mejorar tu experiencia y proporcionar un servicio de chat personalizado. Al continuar navegando, aceptas nuestra política de cookies."

  /** The `'default'` each `register_setting` call of `register_settings` gives, field by field
      in the order of `AllFields`. Texts passed through `__()` are their source strings. */
  const RegisteredDefaults: seq<Value> := [
    Bool(false), Str("https://flow.braveslab.com/webhook/1427244e-a23c-4184-a536-d02622f36325/chat"), Str(""),
    Str("BravesLab AI Assistant"), Str("Artificial Intelligence Marketing Agency"), Str(DefaultWelcomeMessage),
    Str("bottom-right"), Str("modal"), Str("robot-chat"), Str("#01B7AF"), Str("#01B7AF"), Str("#FFFFFF"),
    Str("#333333"), Arr([]), Bool(false), Str(StartDefault), Str(EndDefault), Str("Europe/Madrid"),
    Str(DefaultAvailabilityMessage), Bool(false), Str(DefaultGdprMessage), Str("Aceptar")]

  /** The registered defaults as a map from option name to value; where a field occurs twice the
      first default counts. */
  function DefaultsMap(fields: seq<string>, defaults: seq<Value>): map<string, Value>
    decreases |fields|
  {
    if fields == [] || defaults == [] then map[]
    else DefaultsMap(fields[1..], defaults[1..])[OptionPrefix + fields[0] := defaults[0]]
  }

  /** What `register_settings` leaves registered. */
  const Registered: map<string, Value> := DefaultsMap(AllFields, RegisteredDefaults)

  /** `get_option($name)` given the registered `defaults`: the stored value, else the registered
      default, else false. In the admin screens, after `register_settings` has run on
      `admin_init`, `defaults` is `Registered`. */
  function GetOption(options: map<string, Value>, defaults: map<string, Value>, name: string): Value {
    if name in options then options[name]
    else if name in defaults then defaults[name]
    else Bool(false)
  }

  /** A field of a list without duplicates finds its own default. */
  lemma {:induction false} DefaultsMapAt(fields: seq<string>, defaults: seq<Value>, k: nat)
    requires k < |fields| <= |defaults|
    requires forall i, j :: 0 <= i < j < |fields| ==> fields[i] != fields[j]
    ensures OptionPrefix + fields[k] in DefaultsMap(fields, defaults)
    ensures DefaultsMap(fields, defaults)[OptionPrefix + fields[k]] == defaults[k]
    decreases k
  {
    if k > 0 {
      PrefixDiffers(OptionPrefix, fields[0], fields[k]);
      forall i, j | 0 <= i < j < |fields[1..]| ensures fields[1..][i] != fields[1..][j] {
        assert fields[1..][i] == fields[i + 1] && fields[1..][j] == fields[j + 1];
      }
      DefaultsMapAt(fields[1..], defaults[1..], k - 1);
      assert fields[1..][k - 1] == fields[k] && defaults[1..][k - 1] == defaults[k];
    }
  }

  /** An option of the field list that is not stored reads as its registered default. */
  lemma UnstoredReadsDefault(options: map<string, Value>, k: nat)
    requires k < |AllFields| && OptionPrefix + AllFields[k] !in options
    ensures GetOption(options, Registered, OptionPrefix + AllFields[k]) == RegisteredDefaults[k]
  {
    AllFieldsDistinct();
    assert |RegisteredDefaults| == |AllFields|;
    DefaultsMapAt(AllFields, RegisteredDefaults, k);
  }

  /** `in_array($field, $exclude_fields)`. */
  predicate Excluded(field: string, exclude: seq<Value>) {
    exists i :: 0 <= i < |exclude| && LooseEqualsString(exclude[i], field)
  }

  /** The value attribute of a non-array option: booleans and '1'/'0' normalised to '1'/'0',
      anything else escaped. */
  function ScalarText(v: Value, escAttr: string -> string): string {
    if v.Bool? || v == Str("1") || v == Str("0") then (if Truthy(v) then "1" else "0")
    else escAttr(ToText(v))
  }

  /** One `name[]` input per array item, in order. */
  function ItemInputs(name: string, items: seq<Value>, escAttr: string -> string): seq<Hidden>
    decreases |items|
  {
    if items == [] then []
    else ItemInputs(name, items[..|items| - 1], escAttr) + [Hidden(name + "[]", escAttr(ToText(items[|items| - 1])))]
  }

  function FieldInputs(field: string, options: map<string, Value>, defaults: map<string, Value>, exclude: seq<Value>, escAttr: string -> string): seq<Hidden> {
    if Excluded(field, exclude) then []
    else
      var name := OptionPrefix + field;
      var value := GetOption(options, defaults, name);
      if value.Arr? then ItemInputs(name, value.items, escAttr) else [Hidden(name, ScalarText(value, escAttr))]
  }

  /** The inputs of the given fields, field after field. */
  function FieldsInputs(fields: seq<string>, options: map<string, Value>, defaults: map<string, Value>, exclude: seq<Value>, escAttr: string -> string): seq<Hidden>
    decreases |fields|
  {
    if fields == [] then []
    else FieldsInputs(fields[..|fields| - 1], options, defaults, exclude, escAttr) + FieldInputs(fields[|fields| - 1], options, defaults, exclude, escAttr)
  }

  /** `render_hidden_fields($exclude_fields)`: the inputs it echoes, in order. `esc_attr` is the
      opaque `escAttr`; the option names need no escaping. */
  method RenderHiddenFields(options: map<string, Value>, exclude: seq<Value>, escAttr: string -> string) returns (out: seq<Hidden>)
    ensures out == FieldsInputs(AllFields, options, Registered, exclude, escAttr)
  {
    out := RenderFields(AllFields, options, Registered, exclude, escAttr);
  }

  /** The outer `foreach` over the field list. */
  method RenderFields(all: seq<string>, options: map<string, Value>, defaults: map<string, Value>, exclude: seq<Value>, escAttr: string -> string) returns (out: seq<Hidden>)
    ensures out == FieldsInputs(all, options, defaults, exclude, escAttr)
  {
    out := [];
    for k := 0 to |all|
      invariant out == FieldsInputs(all[..k], options, defaults, exclude, escAttr)
    {
      assert all[..k + 1][..k] == all[..k];
      var field := all[k];
      assert FieldsInputs(all[..k + 1], options, defaults, exclude, escAttr) == out + FieldInputs(field, options, defaults, exclude, escAttr);
      if Excluded(field, exclude) {
        continue;
      }
      var name := OptionPrefix + field;
      var value := GetOption(options, defaults, name);
      if value.Arr? {
        var items := RenderItems(name, value.items, escAttr);
        out := out + items;
      } else if value.Bool? || value == Str("1") || value == Str("0") {
        out := out + [Hidden(name, if Truthy(value) then "1" else "0")];
      } else {
        out := out + [Hidden(name, escAttr(ToText(value)))];
      }
    }
    assert all[..|all|] == all;
  }

  /** The inner `foreach` over an array option's items. */
  method RenderItems(name: string, items: seq<Value>, escAttr: string -> string) returns (out: seq<Hidden>)
    ensures out == ItemInputs(name, items, escAttr)
  {
    out := [];
    for j := 0 to |items|
      invariant out == ItemInputs(name, items[..j], escAttr)
    {
      assert items[..j + 1][..j] == items[..j];
      out := out + [Hidden(name + "[]", escAttr(ToText(items[j])))];
    }
    assert items[..|items|] == items;
  }

  /** The values of the inputs with a given name, in order. */
  function Named(hs: seq<Hidden>, name: string): seq<string>
    decreases |hs|
  {
    if hs == [] then []
    else Named(hs[..|hs| - 1], name) + (if hs[|hs| - 1].name == name then [hs[|hs| - 1].value] else [])
  }

  lemma {:induction false} NamedAppend(a: seq<Hidden>, b: seq<Hidden>, name: string)
    ensures Named(a + b, name) == Named(a, name) + Named(b, name)
    decreases |b|
  {
    if b == [] {
      assert a + b == a;
    } else {
      assert (a + b)[..|a + b| - 1] == a + b[..|b| - 1];
      NamedAppend(a, b[..|b| - 1], name);
    }
  }

  lemma {:induction false} FieldsInputsAppend(a: seq<string>, b: seq<string>, options: map<string, Value>, defaults: map<string, Value>, exclude: seq<Value>, escAttr: string -> string)
    ensures FieldsInputs(a + b, options, defaults, exclude, escAttr) == FieldsInputs(a, options, defaults, exclude, escAttr) + FieldsInputs(b, options, defaults, exclude, escAttr)
    decreases |b|
  {
    if b == [] {
      assert a + b == a;
    } else {
      var init, last := b[..|b| - 1], b[|b| - 1];
      assert (a + b)[..|a + b| - 1] == a + init;
      assert (a + b)[|a + b| - 1] == last;
      FieldsInputsAppend(a, init, options, defaults, exclude, escAttr);
      var z := FieldInputs(last, options, defaults, exclude, escAttr);
      SnocAssoc(FieldsInputs(a, options, defaults, exclude, escAttr), FieldsInputs(init, options, defaults, exclude, escAttr), z);
    }
  }

  lemma SnocAssoc(x: seq<Hidden>, y: seq<Hidden>, z: seq<Hidden>)
    ensures x + y + z == x + (y + z)
  {
  }

  /** The array items under `name[]`, in order. */
  lemma {:induction false} ItemsNamed(name: string, items: seq<Value>, escAttr: string -> string, other: string)
    ensures Named(ItemInputs(name, items, escAttr), name + "[]") == seq(|items|, i requires 0 <= i < |items| => escAttr(ToText(items[i])))
    ensures other != name + "[]" ==> Named(ItemInputs(name, items, escAttr), other) == []
    decreases |items|
  {
    if items != [] {
      ItemsNamed(name, items[..|items| - 1], escAttr, other);
      var hs := ItemInputs(name, items, escAttr);
      assert hs[..|hs| - 1] == ItemInputs(name, items[..|items| - 1], escAttr);
    }
  }

  lemma PrefixDiffers(p: string, a: string, b: string)
    requires a != b
    ensures p + a != p + b
  {
    assert (p + a)[|p|..] == a && (p + b)[|p|..] == b;
  }

  lemma SuffixDiffers(a: string, b: string, t: string)
    requires a != b
    ensures a + t != b + t
  {
    assert (a + t)[..|a|] == a;
    assert |a| == |b| ==> (b + t)[..|b|] == b;
  }

  /** The inputs of a field carry only that field's two names. */
  lemma FieldNamedOther(g: string, f: string, options: map<string, Value>, defaults: map<string, Value>, exclude: seq<Value>, escAttr: string -> string)
    requires g != f && '[' !in g && '[' !in f
    ensures Named(FieldInputs(g, options, defaults, exclude, escAttr), OptionPrefix + f) == []
    ensures Named(FieldInputs(g, options, defaults, exclude, escAttr), OptionPrefix + f + "[]") == []
  {
    var name := OptionPrefix + g;
    assert (f + "[]")[|f|] == '[' && (g + "[]")[|g|] == '[';
    assert OptionPrefix + f + "[]" == OptionPrefix + (f + "[]");
    assert name + "[]" == OptionPrefix + (g + "[]");
    PrefixDiffers(OptionPrefix, g, f);
    PrefixDiffers(OptionPrefix, g, f + "[]");
    PrefixDiffers(OptionPrefix, g + "[]", f);
    SuffixDiffers(g, f, "[]");
    PrefixDiffers(OptionPrefix, g + "[]", f + "[]");
    if !Excluded(g, exclude) {
      var value := GetOption(options, defaults, name);
      if value.Arr? {
        ItemsNamed(name, value.items, escAttr, OptionPrefix + f);
        ItemsNamed(name, value.items, escAttr, OptionPrefix + f + "[]");
      } else {
        assert [Hidden(name, ScalarText(value, escAttr))][..0] == [];
      }
    }
  }

  lemma {:induction false} OtherFieldsNamed(fields: seq<string>, f: string, options: map<string, Value>, defaults: map<string, Value>, exclude: seq<Value>, escAttr: string -> string)
    requires f !in fields && '[' !in f && forall i :: 0 <= i < |fields| ==> '[' !in fields[i]
    ensures Named(FieldsInputs(fields, options, defaults, exclude, escAttr), OptionPrefix + f) == []
    ensures Named(FieldsInputs(fields, options, defaults, exclude, escAttr), OptionPrefix + f + "[]") == []
    decreases |fields|
  {
    if fields != [] {
      var init := fields[..|fields| - 1];
      OtherFieldsNamed(init, f, options, defaults, exclude, escAttr);
      FieldNamedOther(fields[|fields| - 1], f, options, defaults, exclude, escAttr);
      NamedAppend(FieldsInputs(init, options, defaults, exclude, escAttr), FieldInputs(fields[|fields| - 1], options, defaults, exclude, escAttr), OptionPrefix + f);
      NamedAppend(FieldsInputs(init, options, defaults, exclude, escAttr), FieldInputs(fields[|fields| - 1], options, defaults, exclude, escAttr), OptionPrefix + f + "[]");
    }
  }

  /** What one field contributes under its own two names. */
  lemma FieldNamedSelf(f: string, options: map<string, Value>, defaults: map<string, Value>, exclude: seq<Value>, escAttr: string -> string)
    requires '[' !in f
    ensures var value := GetOption(options, defaults, OptionPrefix + f);
            Named(FieldInputs(f, options, defaults, exclude, escAttr), OptionPrefix + f) ==
              (if Excluded(f, exclude) || value.Arr? then [] else [ScalarText(value, escAttr)]) &&
            Named(FieldInputs(f, options, defaults, exclude, escAttr), OptionPrefix + f + "[]") ==
              (if Excluded(f, exclude) || !value.Arr? then []
               else seq(|value.items|, i requires 0 <= i < |value.items| => escAttr(ToText(value.items[i]))))
  {
    var name := OptionPrefix + f;
    assert name != name + "[]";
    if !Excluded(f, exclude) {
      var value := GetOption(options, defaults, name);
      if value.Arr? {
        ItemsNamed(name, value.items, escAttr, name);
      } else {
        var hs := [Hidden(name, ScalarText(value, escAttr))];
        assert hs[..0] == [];
      }
    }
  }

  predicate NoBracket(fields: seq<string>) {
    forall i :: 0 <= i < |fields| ==> '[' !in fields[i]
  }

  /** Length, first and last character: enough to tell the fields apart. */
  function FieldKey(s: string): (int, char, char) {
    if s == [] then (0, ' ', ' ') else (|s|, s[0], s[|s| - 1])
  }

  const FieldKeys: seq<(int, char, char)> := [
    (13, 'g', 'e'), (11, 'w', 'l'), (14, 'n', 'n'), (12, 'h', 'e'), (15, 'h', 'e'), (15, 'w', 'e'),
    (8, 'p', 'n'), (12, 'd', 'e'), (9, 'c', 'n'), (12, 'b', 'r'), (13, 'p', 'r'), (16, 'b', 'r'),
    (10, 't', 'r'), (14, 'e', 's'), (20, 'a', 'd'), (18, 'a', 't'), (16, 'a', 'd'), (21, 'a', 'e'),
    (20, 'a', 'e'), (12, 'g', 'd'), (12, 'g', 'e'), (16, 'g', 't')]

  /** The field list holds no duplicates and no bracket. */
  lemma AllFieldsDistinct()
    ensures forall i, j :: 0 <= i < j < |AllFields| ==> AllFields[i] != AllFields[j]
    ensures NoBracket(AllFields)
  {
    FieldKeysOfFields();
    FieldKeysDistinct();
    forall i, j | 0 <= i < j < |AllFields| ensures AllFields[i] != AllFields[j] {
      assert FieldKey(AllFields[i]) != FieldKey(AllFields[j]);
    }
    FieldsNoBracket();
  }

  lemma FieldsNoBracket()
    ensures NoBracket(AllFields)
  {
  }

  lemma FieldKeysOfFields()
    ensures |FieldKeys| == |AllFields|
    ensures forall i :: 0 <= i < |AllFields| ==> FieldKey(AllFields[i]) == FieldKeys[i]
  {
  }

  lemma FieldKeysDistinct()
    ensures forall i, j :: 0 <= i < j < |FieldKeys| ==> FieldKeys[i] != FieldKeys[j]
  {
  }

  /** What the hidden fields carry, option by option: an excluded field renders nothing; a
      stored array renders one `name[]` input per item, in order, and nothing under the plain
      name; any other value renders exactly one input, '1'/'0' for booleans and '1'/'0' and the
      escaped text otherwise. An option that is not stored reads as its default in `defaults`,
      which in the admin screens is its registered default (`UnstoredReadsDefault`). */
  lemma HiddenFieldValues(options: map<string, Value>, defaults: map<string, Value>, exclude: seq<Value>, escAttr: string -> string, k: nat)
    requires k < |AllFields|
    ensures var f := AllFields[k];
            var out := FieldsInputs(AllFields, options, defaults, exclude, escAttr);
            var value := GetOption(options, defaults, OptionPrefix + f);
            Named(out, OptionPrefix + f) ==
              (if Excluded(f, exclude) || value.Arr? then [] else [ScalarText(value, escAttr)]) &&
            Named(out, OptionPrefix + f + "[]") ==
              (if Excluded(f, exclude) || !value.Arr? then []
               else seq(|value.items|, i requires 0 <= i < |value.items| => escAttr(ToText(value.items[i]))))
  {
    AllFieldsDistinct();
    FieldValuesAt(AllFields, options, defaults, exclude, escAttr, k);
  }

  /** The same for any list of distinct field names without brackets. */
  lemma {:induction false} FieldValuesAt(fields: seq<string>, options: map<string, Value>, defaults: map<string, Value>, exclude: seq<Value>, escAttr: string -> string, k: nat)
    requires k < |fields| && NoBracket(fields)
    requires forall i, j :: 0 <= i < j < |fields| ==> fields[i] != fields[j]
    ensures var f := fields[k];
            var out := FieldsInputs(fields, options, defaults, exclude, escAttr);
            var value := GetOption(options, defaults, OptionPrefix + f);
            Named(out, OptionPrefix + f) ==
              (if Excluded(f, exclude) || value.Arr? then [] else [ScalarText(value, escAttr)]) &&
            Named(out, OptionPrefix + f + "[]") ==
              (if Excluded(f, exclude) || !value.Arr? then []
               else seq(|value.items|, i requires 0 <= i < |value.items| => escAttr(ToText(value.items[i]))))
  {
    var f := fields[k];
    var pre, post := fields[..k], fields[k + 1..];
    SplitAround(fields, k);
    InputsAround(pre, f, post, options, defaults, exclude, escAttr);
    var a, b, c := FieldsInputs(pre, options, defaults, exclude, escAttr), FieldInputs(f, options, defaults, exclude, escAttr), FieldsInputs(post, options, defaults, exclude, escAttr);
    OtherFieldsNamed(pre, f, options, defaults, exclude, escAttr);
    OtherFieldsNamed(post, f, options, defaults, exclude, escAttr);
    FieldNamedSelf(f, options, defaults, exclude, escAttr);
    NamedAround(a, b, c, OptionPrefix + f);
    NamedAround(a, b, c, OptionPrefix + f + "[]");
  }

  /** The fields before and after position `k` of a list without duplicates or brackets. */
  lemma SplitAround(fields: seq<string>, k: nat)
    requires k < |fields| && NoBracket(fields)
    requires forall i, j :: 0 <= i < j < |fields| ==> fields[i] != fields[j]
    ensures var f, pre, post := fields[k], fields[..k], fields[k + 1..];
            fields == pre + [f] + post && f !in pre && f !in post && '[' !in f && NoBracket(pre) && NoBracket(post)
  {
    var f := fields[k];
    var pre, post := fields[..k], fields[k + 1..];
    assert fields == pre + [f] + post;
    assert f !in pre by {
      forall i | 0 <= i < |pre| ensures pre[i] != f { assert pre[i] == fields[i]; }
    }
    assert f !in post by {
      forall i | 0 <= i < |post| ensures post[i] != f { assert post[i] == fields[k + 1 + i]; }
    }
    assert NoBracket(pre) && NoBracket(post) by {
      forall i | 0 <= i < |pre| ensures pre[i] == fields[i] { }
      forall i | 0 <= i < |post| ensures post[i] == fields[k + 1 + i] { }
    }
  }

  lemma InputsAround(pre: seq<string>, f: string, post: seq<string>, options: map<string, Value>, defaults: map<string, Value>, exclude: seq<Value>, escAttr: string -> string)
    ensures FieldsInputs(pre + [f] + post, options, defaults, exclude, escAttr) ==
            FieldsInputs(pre, options, defaults, exclude, escAttr) + FieldInputs(f, options, defaults, exclude, escAttr) + FieldsInputs(post, options, defaults, exclude, escAttr)
  {
    FieldsInputsAppend(pre + [f], post, options, defaults, exclude, escAttr);
    FieldsInputsAppend(pre, [f], options, defaults, exclude, escAttr);
    assert FieldsInputs([f], options, defaults, exclude, escAttr) == FieldInputs(f, options, defaults, exclude, escAttr) by {
      assert [f][..0] == [];
    }
  }

  lemma NamedAround(a: seq<Hidden>, b: seq<Hidden>, c: seq<Hidden>, name: string)
    ensures Named(a + b + c, name) == Named(a, name) + Named(b, name) + Named(c, name)
  {
    NamedAppend(a + b, c, name);
    NamedAppend(a, b, name);
  }

  /** The fields that are not excluded, in list order. */
  function Kept(fields: seq<string>, exclude: seq<Value>): seq<string>
    decreases |fields|
  {
    if fields == [] then []
    else Kept(fields[..|fields| - 1], exclude) + (if Excluded(fields[|fields| - 1], exclude) then [] else [fields[|fields| - 1]])
  }

  function Names(hs: seq<Hidden>): seq<string> {
    seq(|hs|, i requires 0 <= i < |hs| => hs[i].name)
  }

  function Prefixed(fields: seq<string>): seq<string> {
    seq(|fields|, i requires 0 <= i < |fields| => OptionPrefix + fields[i])
  }

  /** The names one field's inputs carry: none when it is excluded, one `name[]` per item of an
      array option, else the plain name. */
  function FieldNames(f: string, options: map<string, Value>, defaults: map<string, Value>, exclude: seq<Value>): seq<string> {
    if Excluded(f, exclude) then []
    else
      var name := OptionPrefix + f;
      var value := GetOption(options, defaults, name);
      if value.Arr? then seq(|value.items|, _ => name + "[]") else [name]
  }

  function FieldsNames(fields: seq<string>, options: map<string, Value>, defaults: map<string, Value>, exclude: seq<Value>): seq<string>
    decreases |fields|
  {
    if fields == [] then []
    else FieldsNames(fields[..|fields| - 1], options, defaults, exclude) + FieldNames(fields[|fields| - 1], options, defaults, exclude)
  }

  /** The inputs are named field after field in list order: nothing for an excluded field, one
      `name[]` per item for an array option (stored, or the empty default of the excluded pages),
      the plain name otherwise. With no array option that is exactly the fields not excluded,
      one each. */
  lemma HiddenFieldNames(fields: seq<string>, options: map<string, Value>, defaults: map<string, Value>, exclude: seq<Value>, escAttr: string -> string)
    ensures Names(FieldsInputs(fields, options, defaults, exclude, escAttr)) == FieldsNames(fields, options, defaults, exclude)
    ensures (forall i :: 0 <= i < |fields| ==> !GetOption(options, defaults, OptionPrefix + fields[i]).Arr?) ==>
              Names(FieldsInputs(fields, options, defaults, exclude, escAttr)) == Prefixed(Kept(fields, exclude))
  {
    InputsNames(fields, options, defaults, exclude, escAttr);
    if forall i :: 0 <= i < |fields| ==> !GetOption(options, defaults, OptionPrefix + fields[i]).Arr? {
      ScalarFieldsNames(fields, options, defaults, exclude);
    }
  }

  lemma {:induction false} InputsNames(fields: seq<string>, options: map<string, Value>, defaults: map<string, Value>, exclude: seq<Value>, escAttr: string -> string)
    ensures Names(FieldsInputs(fields, options, defaults, exclude, escAttr)) == FieldsNames(fields, options, defaults, exclude)
    decreases |fields|
  {
    if fields != [] {
      var init := fields[..|fields| - 1];
      var f := fields[|fields| - 1];
      InputsNames(init, options, defaults, exclude, escAttr);
      var a := FieldsInputs(init, options, defaults, exclude, escAttr);
      var b := FieldInputs(f, options, defaults, exclude, escAttr);
      NamesAppend(a, b);
      FieldNamesOf(f, options, defaults, exclude, escAttr);
    }
  }

  lemma NamesAppend(a: seq<Hidden>, b: seq<Hidden>)
    ensures Names(a + b) == Names(a) + Names(b)
  {
  }

  /** One field's inputs carry the names `FieldNames` gives. */
  lemma FieldNamesOf(f: string, options: map<string, Value>, defaults: map<string, Value>, exclude: seq<Value>, escAttr: string -> string)
    ensures Names(FieldInputs(f, options, defaults, exclude, escAttr)) == FieldNames(f, options, defaults, exclude)
  {
    if !Excluded(f, exclude) {
      var name := OptionPrefix + f;
      var value := GetOption(options, defaults, name);
      if value.Arr? {
        ItemNames(name, value.items, escAttr);
      }
    }
  }

  lemma {:induction false} ItemNames(name: string, items: seq<Value>, escAttr: string -> string)
    ensures Names(ItemInputs(name, items, escAttr)) == seq(|items|, _ => name + "[]")
    decreases |items|
  {
    if items != [] {
      var init := items[..|items| - 1];
      ItemNames(name, init, escAttr);
      var a := ItemInputs(name, init, escAttr);
      var b := [Hidden(name + "[]", escAttr(ToText(items[|items| - 1])))];
      assert Names(a + b) == Names(a) + Names(b);
    }
  }

  /** With no array option every kept field gives its plain name once. */
  lemma {:induction false} ScalarFieldsNames(fields: seq<string>, options: map<string, Value>, defaults: map<string, Value>, exclude: seq<Value>)
    requires forall i :: 0 <= i < |fields| ==> !GetOption(options, defaults, OptionPrefix + fields[i]).Arr?
    ensures FieldsNames(fields, options, defaults, exclude) == Prefixed(Kept(fields, exclude))
    decreases |fields|
  {
    if fields != [] {
      var init := fields[..|fields| - 1];
      var f := fields[|fields| - 1];
      assert forall i :: 0 <= i < |init| ==> init[i] == fields[i];
      ScalarFieldsNames(init, options, defaults, exclude);
      var ka := Kept(init, exclude);
      var kb := if Excluded(f, exclude) then [] else [f];
      assert Prefixed(ka + kb) == Prefixed(ka) + Prefixed(kb);
    }
  }

  /** A fresh install, with nothing stored: the position renders its default 'bottom-right', the
      global switch '0', and the excluded pages, whose default is the empty array, nothing. */
  lemma FreshInstallHiddenFields(exclude: seq<Value>, escAttr: string -> string)
    ensures var out := FieldsInputs(AllFields, map[], Registered, exclude, escAttr);
            (!Excluded("position", exclude) ==> Named(out, "wland_chat_position") == [escAttr("bottom-right")]) &&
            (!Excluded("global_enable", exclude) ==> Named(out, "wland_chat_global_enable") == ["0"]) &&
            Named(out, "wland_chat_excluded_pages") == [] && Named(out, "wland_chat_excluded_pages[]") == []
  {
    FreshPosition(exclude, escAttr);
    FreshGlobalEnable(exclude, escAttr);
    FreshExcludedPages(exclude, escAttr);
  }

  /** Field `k` of a fresh install renders as its registered default. */
  lemma FreshField(exclude: seq<Value>, escAttr: string -> string, k: nat)
    requires k < |AllFields|
    ensures var f, d := AllFields[k], RegisteredDefaults[k];
            var out := FieldsInputs(AllFields, map[], Registered, exclude, escAttr);
            Named(out, OptionPrefix + f) == (if Excluded(f, exclude) || d.Arr? then [] else [ScalarText(d, escAttr)]) &&
            Named(out, OptionPrefix + f + "[]") ==
              (if Excluded(f, exclude) || !d.Arr? then []
               else seq(|d.items|, i requires 0 <= i < |d.items| => escAttr(ToText(d.items[i]))))
  {
    UnstoredReadsDefault(map[], k);
    HiddenFieldValues(map[], Registered, exclude, escAttr, k);
  }

  /** The three registered defaults the fresh-install lemmas use. */
  lemma DefaultsAt()
    ensures AllFields[0] == "global_enable" && RegisteredDefaults[0] == Bool(false)
    ensures AllFields[6] == "position" && RegisteredDefaults[6] == Str("bottom-right")
    ensures AllFields[13] == "excluded_pages" && RegisteredDefaults[13] == Arr([])
  {
  }

  lemma FreshPosition(exclude: seq<Value>, escAttr: string -> string)
    ensures !Excluded("position", exclude) ==>
              Named(FieldsInputs(AllFields, map[], Registered, exclude, escAttr), "wland_chat_position") == [escAttr("bottom-right")]
  {
    DefaultsAt();
    assert OptionPrefix + "position" == "wland_chat_position";
    FreshField(exclude, escAttr, 6);
    assert ScalarText(Str("bottom-right"), escAttr) == escAttr("bottom-right");
  }

  lemma FreshGlobalEnable(exclude: seq<Value>, escAttr: string -> string)
    ensures !Excluded("global_enable", exclude) ==>
              Named(FieldsInputs(AllFields, map[], Registered, exclude, escAttr), "wland_chat_global_enable") == ["0"]
  {
    DefaultsAt();
    assert OptionPrefix + "global_enable" == "wland_chat_global_enable";
    FreshField(exclude, escAttr, 0);
  }

  lemma FreshExcludedPages(exclude: seq<Value>, escAttr: string -> string)
    ensures var out := FieldsInputs(AllFields, map[], Registered, exclude, escAttr);
            Named(out, "wland_chat_excluded_pages") == [] && Named(out, "wland_chat_excluded_pages[]") == []
  {
    DefaultsAt();
    assert OptionPrefix + "excluded_pages" == "wland_chat_excluded_pages";
    assert OptionPrefix + "excluded_pages" + "[]" == "wland_chat_excluded_pages[]";
    FreshField(exclude, escAttr, 13);
  }
}
