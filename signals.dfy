/** The device signature of the fingerprint store: `generate_browser_fingerprint`,
    `get_plugins_list` and `get_touch_support` (assets/js/wland_fingerprint.js:238-350).
    What the browser reports (navigator, screen, Intl, canvas and WebGL rendering) is an
    opaque input. */
module Signals {
  import opened Text
  import opened Wrappers

  /** The raw signals. A `navigator` property that is missing or falsy (undefined, 0, '') is
      `None`; the canvas and WebGL outcomes are the strings their helpers return. */
  datatype Device = Device(
    userAgent: string,
    screenWidth: nat, screenHeight: nat, colorDepth: nat,
    timezone: string, timezoneOffset: int,
    language: string, languages: Option<seq<string>>, platform: string,
    hardwareConcurrency: Option<string>, deviceMemory: Option<string>,
    plugins: Option<seq<string>>,
    canvas: string, webgl: string,
    maxTouchPoints: Option<nat>, touchEvent: bool, msMaxTouchPoints: Option<nat>,
    cpuClass: Option<string>, doNotTrack: Option<string>)

  /** The fifteen fields of the fingerprint object, in the order they are built. */
  datatype Signature = Signature(
    userAgent: string, screenResolution: string, timezone: string, timezoneOffset: int,
    language: string, languages: string, platform: string,
    hardwareConcurrency: string, deviceMemory: string, plugins: string,
    canvas: string, webgl: string, touchSupport: string, cpuClass: string, doNotTrack: string)

  /** `x || 'unknown'`. */
  function OrUnknown(x: Option<string>): string {
    x.GetOr("unknown")
  }

  /** `x || 0`. */
  function OrZero(x: Option<nat>): nat {
    x.GetOr(0)
  }

  // ---------------------------------------------------------------- get_plugins_list

  /** What `get_plugins_list` returns: 'none' without plugins, else the names joined by ','. */
  function PluginsListOf(plugins: Option<seq<string>>): string {
    match plugins
    case None => "none"
    case Some(names) => if names == [] then "none" else Join(names, ",")
  }

  /** `get_plugins_list`: push every plugin name, then join. */
  method PluginsList(plugins: Option<seq<string>>) returns (r: string)
    ensures r == PluginsListOf(plugins)
  {
    if plugins.None? || |plugins.value| == 0 {
      return "none";
    }
    var all := plugins.value;
    var names: seq<string> := [];
    var i := 0;
    while i < |all|
      invariant 0 <= i <= |all|
      invariant names == all[..i]
    {
      names := names + [all[i]];
      i := i + 1;
    }
    assert names == all;
    r := Join(names, ",");
  }

  /** The list is recoverable: when no name holds a comma, splitting on ',' gives the names back;
      with no plugins (or an empty list) the text is 'none'. */
  lemma PluginsListSplit(plugins: Option<seq<string>>)
    ensures plugins.None? || plugins.value == [] ==> PluginsListOf(plugins) == "none"
    ensures plugins.Some? && plugins.value != [] &&
            (forall i :: 0 <= i < |plugins.value| ==> ',' !in plugins.value[i]) ==>
              Split(PluginsListOf(plugins), ',') == plugins.value
  {
    if plugins.Some? && plugins.value != [] &&
       (forall i :: 0 <= i < |plugins.value| ==> ',' !in plugins.value[i]) {
      SplitJoin(plugins.value, ',');
    }
  }

  // ---------------------------------------------------------------- get_touch_support

  function BoolText(b: bool): string {
    if b then "true" else "false"
  }

  /** `${max_touch_points},${touch_event},${touch_points}`. */
  function TouchSupportOf(maxTouchPoints: Option<nat>, touchEvent: bool, msMaxTouchPoints: Option<nat>): string {
    NatToString(OrZero(maxTouchPoints)) + "," + BoolText(touchEvent) + "," + NatToString(OrZero(msMaxTouchPoints))
  }

  lemma DigitsNoComma(n: nat)
    ensures ',' !in NatToString(n)
  {
  }

  /** The touch text has exactly three comma-separated fields: the maximum touch points (0 when
      absent), whether `ontouchstart` exists, and the vendor-prefixed touch points. */
  lemma TouchSupportFields(maxTouchPoints: Option<nat>, touchEvent: bool, msMaxTouchPoints: Option<nat>)
    ensures Split(TouchSupportOf(maxTouchPoints, touchEvent, msMaxTouchPoints), ',') ==
              [NatToString(OrZero(maxTouchPoints)), BoolText(touchEvent), NatToString(OrZero(msMaxTouchPoints))]
  {
    var a := NatToString(OrZero(maxTouchPoints));
    var b := BoolText(touchEvent);
    var c := NatToString(OrZero(msMaxTouchPoints));
    DigitsNoComma(OrZero(maxTouchPoints));
    DigitsNoComma(OrZero(msMaxTouchPoints));
    assert ',' !in b;
    SplitJoin([a, b, c], ',');
    JoinThree(a, b, c, ",");
    assert TouchSupportOf(maxTouchPoints, touchEvent, msMaxTouchPoints) == a + "," + b + "," + c;
  }

  lemma JoinThree(a: string, b: string, c: string, sep: string)
    ensures Join([a, b, c], sep) == a + sep + b + sep + c
  {
    assert [a, b, c][1..] == [b, c] && [b, c][1..] == [c];
    assert Join([b, c], sep) == b + sep + c;
    assert Join([a, b, c], sep) == a + sep + (b + sep + c);
  }

  // ---------------------------------------------------------------- generate_browser_fingerprint

  /** The fingerprint object `generate_browser_fingerprint` builds from the signals. */
  function Collect(d: Device): Signature {
    Signature(
      d.userAgent,
      NatToString(d.screenWidth) + "x" + NatToString(d.screenHeight) + "x" + NatToString(d.colorDepth),
      d.timezone, d.timezoneOffset,
      d.language, (match d.languages case Some(ls) => Join(ls, ",") case None => ""), d.platform,
      OrUnknown(d.hardwareConcurrency), OrUnknown(d.deviceMemory),
      PluginsListOf(d.plugins),
      d.canvas, d.webgl,
      TouchSupportOf(d.maxTouchPoints, d.touchEvent, d.msMaxTouchPoints),
      OrUnknown(d.cpuClass), OrUnknown(d.doNotTrack))
  }

  /** `generate_browser_fingerprint`, with the plugin list built by its loop. */
  method GenerateBrowserFingerprint(d: Device) returns (sig: Signature)
    ensures sig == Collect(d)
    ensures sig.userAgent == d.userAgent && sig.timezone == d.timezone && sig.canvas == d.canvas
  {
    var plugins := PluginsList(d.plugins);
    sig := Signature(
      d.userAgent,
      NatToString(d.screenWidth) + "x" + NatToString(d.screenHeight) + "x" + NatToString(d.colorDepth),
      d.timezone, d.timezoneOffset,
      d.language, (match d.languages case Some(ls) => Join(ls, ",") case None => ""), d.platform,
      OrUnknown(d.hardwareConcurrency), OrUnknown(d.deviceMemory),
      plugins,
      d.canvas, d.webgl,
      TouchSupportOf(d.maxTouchPoints, d.touchEvent, d.msMaxTouchPoints),
      OrUnknown(d.cpuClass), OrUnknown(d.doNotTrack));
  }

  /** The screen field is injective in the three screen numbers: a new monitor with another
      resolution or colour depth always changes it. */
  lemma {:induction false} ScreenResolutionInjective(d1: Device, d2: Device)
    requires Collect(d1).screenResolution == Collect(d2).screenResolution
    ensures d1.screenWidth == d2.screenWidth && d1.screenHeight == d2.screenHeight
    ensures d1.colorDepth == d2.colorDepth
  {
    var w1, h1, c1 := NatToString(d1.screenWidth), NatToString(d1.screenHeight), NatToString(d1.colorDepth);
    var w2, h2, c2 := NatToString(d2.screenWidth), NatToString(d2.screenHeight), NatToString(d2.colorDepth);
    DigitsNoX(d1.screenWidth); DigitsNoX(d1.screenHeight); DigitsNoX(d1.colorDepth);
    DigitsNoX(d2.screenWidth); DigitsNoX(d2.screenHeight); DigitsNoX(d2.colorDepth);
    SplitJoin([w1, h1, c1], 'x');
    SplitJoin([w2, h2, c2], 'x');
    JoinThree(w1, h1, c1, "x");
    JoinThree(w2, h2, c2, "x");
    assert Collect(d1).screenResolution == w1 + "x" + h1 + "x" + c1;
    assert Collect(d2).screenResolution == w2 + "x" + h2 + "x" + c2;
    NatToStringInjective(d1.screenWidth, d2.screenWidth);
    NatToStringInjective(d1.screenHeight, d2.screenHeight);
    NatToStringInjective(d1.colorDepth, d2.colorDepth);
  }

  lemma DigitsNoX(n: nat)
    ensures 'x' !in NatToString(n)
  {
  }
}
