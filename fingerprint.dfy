/** The browser session store `WlandFingerprint` (assets/js/wland_fingerprint.js).

    A visitor's session id lives in the cookie `wland_chat_session`, with a backup copy in
    localStorage under `wland_chat_session_backup` and the device signature it was made from
    under `wland_chat_fingerprint`. With consent gating on, nothing is read or written until
    localStorage holds `wland_chat_gdpr_consent = 'accepted'`.

    The store is modelled twice: as functions from one browser state to the next (`GetOrCreate`,
    `InitOf`, …), about which the lemmas speak, and as the class `WlandFingerprint` whose methods
    follow the source statement by statement and are proved to produce those states. */
module Fingerprint {
  import opened Text
  import opened Wrappers
  import opened FingerprintHash
  import opened Signals
  import opened CookieJar

  const CookieName: string := "wland_chat_session"
  const StorageKey: string := "wland_chat_session_backup"
  const FingerprintKey: string := "wland_chat_fingerprint"
  const ConsentKey: string := "wland_chat_gdpr_consent"
  const Accepted: string := "accepted"

  /** A property of a parsed JSON value: a string, or anything else (number, object, …). */
  datatype JsonField = JString(s: string) | JOther

  /** `JSON.parse(text)`: it throws, yields `null` (whose properties throw when read), or yields
      a value whose own properties are `fields` (none for a number, string or array). */
  datatype Parsed = ParseError | ParsedNull | ParsedValue(fields: map<string, JsonField>)

  /** What the page offers the store. `gdprEnabled` is `wlandGDPRConfig.enabled`; a browser that
      refuses cookies ignores assignments to `document.cookie`; with localStorage unavailable
      every access to it throws. JSON and the digest are opaque. */
  datatype Platform = Platform(
    gdprEnabled: bool, cookiesEnabled: bool, storageEnabled: bool,
    crypto: Crypto, stringify: Signature -> string, parse: string -> Parsed)

  /** The mutable state: the cookie jar, localStorage, and whether the consent banner is shown. */
  datatype Browser = Browser(jar: seq<Cookie>, storage: map<string, string>, banner: bool)

  // ---------------------------------------------------------------- reads

  /** `get_session_from_cookie()`. */
  function CookieSession(b: Browser): CookieRead {
    ReadCookie(Header(b.jar), CookieName)
  }

  /** `localStorage.getItem(key)` inside a `try`: null when absent or when storage throws. */
  function StorageGet(p: Platform, b: Browser, key: string): Option<string> {
    if p.storageEnabled && key in b.storage then Some(b.storage[key]) else None
  }

  /** `get_session_from_storage()`. */
  function StorageSession(p: Platform, b: Browser): Option<string> {
    StorageGet(p, b, StorageKey)
  }

  /** The id `get_or_create_session` goes on with: the cookie value when truthy, else the backup
      when truthy, else none. */
  function FoundSession(p: Platform, b: Browser): Option<string> {
    var c := CookieSession(b);
    if c.Truthy() then Some(c.v)
    else
      match StorageSession(p, b)
      case Some(s) => if s != "" then Some(s) else None
      case None => None
  }

  /** `get_session_id()`: `cookie || storage`, so a falsy cookie result gives the backup as it is
      (possibly '' or null). */
  function SessionIdOf(p: Platform, b: Browser): Option<string> {
    var c := CookieSession(b);
    if c.Truthy() then Some(c.v) else StorageSession(p, b)
  }

  /** `has_gdpr_consent()`, which is not guarded by a `try`: `None` when it throws. */
  function ConsentRead(p: Platform, b: Browser): Option<bool> {
    if !p.storageEnabled then None
    else Some(ConsentKey in b.storage && b.storage[ConsentKey] == Accepted)
  }

  // ---------------------------------------------------------------- the drift rule

  /** `stored[key] !== current`: a missing or non-string property always differs. */
  predicate Differs(fields: map<string, JsonField>, key: string, current: string) {
    !(key in fields && fields[key] == JString(current))
  }

  /** The array `significant_changes`. */
  function SignificantChanges(fields: map<string, JsonField>, sig: Signature): (changes: seq<bool>)
    ensures |changes| == 4
  {
    [Differs(fields, "user_agent", sig.userAgent),
     Differs(fields, "screen_resolution", sig.screenResolution),
     Differs(fields, "timezone", sig.timezone),
     Differs(fields, "canvas", sig.canvas)]
  }

  /** `changes.filter(c => c).length`. */
  function CountTrue(bs: seq<bool>): (n: nat)
    ensures n <= |bs|
  {
    if bs == [] then 0 else (if bs[0] then 1 else 0) + CountTrue(bs[1..])
  }

  /** `should_regenerate_session()`. */
  function ShouldRegenerate(p: Platform, b: Browser, d: Device): bool {
    match StorageGet(p, b, FingerprintKey)
    case None => false
    case Some(text) =>
      if text == "" then false
      else
        match p.parse(text)
        case ParsedValue(fields) => CountTrue(SignificantChanges(fields, Collect(d))) >= 2
        case _ => false
  }

  // ---------------------------------------------------------------- writes

  /** The id `create_new_session` derives from the device. */
  function NewSessionId(p: Platform, d: Device): string {
    HashFingerprintOf(p.stringify(Collect(d)), p.crypto)
  }

  /** `set_session_cookie(id)`. */
  function SetCookie(p: Platform, jar: seq<Cookie>, id: string): seq<Cookie> {
    if p.cookiesEnabled then Put(jar, CookieName, id) else jar
  }

  /** `localStorage.setItem(key, value)` inside a `try`. */
  function SetItem(p: Platform, storage: map<string, string>, key: string, value: string): map<string, string> {
    if p.storageEnabled then storage[key := value] else storage
  }

  /** The state after `create_new_session`: the id in the cookie and the backup key, the
      serialised signature in the snapshot key. */
  function Written(p: Platform, b: Browser, d: Device): Browser {
    var id := NewSessionId(p, d);
    b.(jar := SetCookie(p, b.jar, id),
       storage := SetItem(p, SetItem(p, b.storage, StorageKey, id), FingerprintKey, p.stringify(Collect(d))))
  }

  /** `get_or_create_session()`: the id returned and the state after. */
  function GetOrCreate(p: Platform, b: Browser, d: Device): (string, Browser) {
    match FoundSession(p, b)
    case None => (NewSessionId(p, d), Written(p, b, d))
    case Some(id) =>
      if ShouldRegenerate(p, b, d) then (NewSessionId(p, d), Written(p, b, d)) else (id, b)
  }

  /** `init()`: with gating on, a throwing consent read stops it, a missing consent shows the
      banner, and only a recorded consent goes on to `get_or_create_session`. */
  function InitOf(p: Platform, b: Browser, d: Device): Browser {
    if !p.gdprEnabled then GetOrCreate(p, b, d).1
    else
      match ConsentRead(p, b)
      case None => b
      case Some(granted) => if granted then GetOrCreate(p, b, d).1 else b.(banner := true)
  }

  /** The banner's click handler: `save_gdpr_consent()` (which throws without storage, ending
      the handler), remove the banner, then `get_or_create_session()`. */
  function AcceptOf(p: Platform, b: Browser, d: Device): Browser
    requires b.banner
  {
    if !p.storageEnabled then b
    else GetOrCreate(p, b.(storage := b.storage[ConsentKey := Accepted], banner := false), d).1
  }

  /** `clear_session()`: expire the cookie, then remove the three keys in one `try`. */
  function ClearOf(p: Platform, b: Browser): Browser {
    b.(jar := if p.cookiesEnabled then Remove(b.jar, CookieName) else b.jar,
       storage := if p.storageEnabled then b.storage - {StorageKey, FingerprintKey, ConsentKey} else b.storage)
  }

  // ---------------------------------------------------------------- the class

  class WlandFingerprint {
    const platform: Platform
    var jar: seq<Cookie>
    var storage: map<string, string>
    var bannerShown: bool

    function State(): Browser
      reads this
    {
      Browser(jar, storage, bannerShown)
    }

    /** `new WlandFingerprint()` runs `init()` on the page's cookie jar and localStorage. */
    constructor (platform: Platform, jar: seq<Cookie>, storage: map<string, string>, device: Device)
      ensures this.platform == platform
      ensures State() == InitOf(platform, Browser(jar, storage, false), device)
    {
      this.platform := platform;
      this.jar := jar;
      this.storage := storage;
      this.bannerShown := false;
      new;
      Init(device);
    }

    method Init(device: Device)
      modifies this
      ensures State() == InitOf(platform, old(State()), device)
    {
      if platform.gdprEnabled {
        var consent := HasGdprConsent();
        if consent.None? {
          return;
        }
        if !consent.value {
          ShowGdprBanner();
          return;
        }
      }
      var _ := GetOrCreateSession(device);
    }

    method HasGdprConsent() returns (consent: Option<bool>)
      ensures consent == ConsentRead(platform, State())
    {
      if !platform.storageEnabled {
        return None;
      }
      consent := Some(ConsentKey in storage && storage[ConsentKey] == Accepted);
    }

    /** `save_gdpr_consent()`; `ok` is false when localStorage threw. */
    method SaveGdprConsent() returns (ok: bool)
      modifies this
      ensures ok == platform.storageEnabled
      ensures storage == SetItem(platform, old(storage), ConsentKey, Accepted)
      ensures jar == old(jar) && bannerShown == old(bannerShown)
    {
      if !platform.storageEnabled {
        return false;
      }
      storage := storage[ConsentKey := Accepted];
      ok := true;
    }

    /** `show_gdpr_banner()`: the banner is there afterwards, whether or not it already was. */
    method ShowGdprBanner()
      modifies this
      ensures bannerShown && jar == old(jar) && storage == old(storage)
    {
      bannerShown := true;
    }

    /** The click on the banner's accept button. */
    method AcceptConsent(device: Device)
      requires bannerShown
      modifies this
      ensures State() == AcceptOf(platform, old(State()), device)
    {
      var ok := SaveGdprConsent();
      if !ok {
        return;
      }
      bannerShown := false;
      var _ := GetOrCreateSession(device);
    }

    method GetOrCreateSession(device: Device) returns (id: string)
      modifies this
      ensures (id, State()) == GetOrCreate(platform, old(State()), device)
    {
      var fromCookie := GetSessionFromCookie();
      var found: Option<string> := if fromCookie.Truthy() then Some(fromCookie.v) else None;
      if found.None? {
        var fromStorage := GetSessionFromStorage();
        if fromStorage.Some? && fromStorage.value != "" {
          found := fromStorage;
        }
      }
      if found.None? {
        id := CreateNewSession(device);
      } else {
        var regenerate := ShouldRegenerateSession(device);
        if regenerate {
          id := CreateNewSession(device);
        } else {
          id := found.value;
        }
      }
    }

    method GetSessionFromCookie() returns (r: CookieRead)
      ensures r == CookieSession(State())
    {
      r := GetCookie(Header(jar), CookieName);
    }

    method GetSessionFromStorage() returns (r: Option<string>)
      ensures r == StorageSession(platform, State())
    {
      if !platform.storageEnabled || StorageKey !in storage {
        return None;
      }
      r := Some(storage[StorageKey]);
    }

    method CreateNewSession(device: Device) returns (id: string)
      modifies this
      ensures id == NewSessionId(platform, device)
      ensures State() == Written(platform, old(State()), device)
    {
      var sig := GenerateBrowserFingerprint(device);
      id := HashFingerprint(platform.stringify(sig), platform.crypto);
      SetSessionCookie(id);
      SetSessionStorage(id);
      SaveCurrentFingerprint(sig);
    }

    method SetSessionCookie(id: string)
      modifies this
      ensures jar == SetCookie(platform, old(jar), id)
      ensures storage == old(storage) && bannerShown == old(bannerShown)
    {
      if platform.cookiesEnabled {
        jar := Put(jar, CookieName, id);
      }
    }

    method SetSessionStorage(id: string)
      modifies this
      ensures storage == SetItem(platform, old(storage), StorageKey, id)
      ensures jar == old(jar) && bannerShown == old(bannerShown)
    {
      if platform.storageEnabled {
        storage := storage[StorageKey := id];
      }
    }

    method SaveCurrentFingerprint(sig: Signature)
      modifies this
      ensures storage == SetItem(platform, old(storage), FingerprintKey, platform.stringify(sig))
      ensures jar == old(jar) && bannerShown == old(bannerShown)
    {
      if platform.storageEnabled {
        storage := storage[FingerprintKey := platform.stringify(sig)];
      }
    }

    method ShouldRegenerateSession(device: Device) returns (r: bool)
      ensures r == ShouldRegenerate(platform, State(), device)
    {
      if !platform.storageEnabled || FingerprintKey !in storage {
        return false;
      }
      var stored := storage[FingerprintKey];
      if stored == "" {
        return false;
      }
      var parsed := platform.parse(stored);
      if !parsed.ParsedValue? {
        return false;
      }
      var current := GenerateBrowserFingerprint(device);
      var changes := SignificantChanges(parsed.fields, current);
      r := CountTrue(changes) >= 2;
    }

    method GetSessionId() returns (r: Option<string>)
      ensures r == SessionIdOf(platform, State())
    {
      var fromCookie := GetSessionFromCookie();
      if fromCookie.Truthy() {
        return Some(fromCookie.v);
      }
      r := GetSessionFromStorage();
    }

    method ClearSession()
      modifies this
      ensures State() == ClearOf(platform, old(State()))
    {
      if platform.cookiesEnabled {
        jar := Remove(jar, CookieName);
      }
      if platform.storageEnabled {
        storage := storage - {StorageKey, FingerprintKey, ConsentKey};
      }
    }
  }

  // ---------------------------------------------------------------- properties

  /** Session ids are 64 lower-case hex digits on both hashing paths. */
  lemma NewSessionIdShape(p: Platform, d: Device)
    ensures |NewSessionId(p, d)| == 64 && IsLowerHex(NewSessionId(p, d))
  {
  }

  lemma CookieNameGood()
    ensures GoodName(CookieName)
  {
  }

  lemma HexIsClean(s: string)
    requires IsLowerHex(s)
    ensures CleanValue(s)
  {
    forall i | 0 <= i < |s| ensures !IsJsSpace(s[i]) && s[i] != ';' && s[i] != '=' {
      assert IsLowerHexChar(s[i]);
    }
  }

  /** Consent gate: with gating on and no recorded consent, `init` reads and writes neither the
      cookie nor localStorage; it only shows the banner (or stops, when storage throws). */
  lemma ConsentGate(p: Platform, b: Browser, d: Device)
    requires p.gdprEnabled && ConsentRead(p, b) != Some(true)
    ensures InitOf(p, b, d).jar == b.jar && InitOf(p, b, d).storage == b.storage
    ensures ConsentRead(p, b) == Some(false) ==> InitOf(p, b, d).banner
    ensures ConsentRead(p, b) == Some(false) <==>
              (p.storageEnabled && (ConsentKey !in b.storage || b.storage[ConsentKey] != Accepted))
  {
  }

  /** Accepting records exactly 'accepted' and then runs `get_or_create_session` on the consented
      state; its writes leave the consent in place, so a later `init` passes the gate. Without
      storage the click changes nothing. */
  lemma AcceptThenSession(p: Platform, b: Browser, d: Device)
    requires b.banner
    ensures !p.storageEnabled ==> AcceptOf(p, b, d) == b
    ensures p.storageEnabled ==>
              AcceptOf(p, b, d) ==
                GetOrCreate(p, b.(storage := b.storage[ConsentKey := Accepted], banner := false), d).1
    ensures p.storageEnabled ==> ConsentRead(p, AcceptOf(p, b, d)) == Some(true)
    ensures p.storageEnabled ==> !AcceptOf(p, b, d).banner
  {
    if p.storageEnabled {
      var b1 := b.(storage := b.storage[ConsentKey := Accepted], banner := false);
      assert ConsentKey != StorageKey && ConsentKey != FingerprintKey;
      WrittenStorage(p, b1, d);
    }
  }

  /** What `create_new_session` does to localStorage and the banner. */
  lemma WrittenStorage(p: Platform, b: Browser, d: Device)
    ensures Written(p, b, d).banner == b.banner
    ensures forall k :: k != StorageKey && k != FingerprintKey ==>
              (k in Written(p, b, d).storage <==> k in b.storage)
    ensures forall k :: k != StorageKey && k != FingerprintKey && k in b.storage ==>
              Written(p, b, d).storage[k] == b.storage[k]
    ensures p.storageEnabled ==> Written(p, b, d).storage[StorageKey] == NewSessionId(p, d)
    ensures p.storageEnabled ==> Written(p, b, d).storage[FingerprintKey] == p.stringify(Collect(d))
    ensures !p.storageEnabled ==> Written(p, b, d).storage == b.storage
  {
  }

  /** Two-tier read: localStorage is consulted only when the cookie lookup is falsy; a truthy
      cookie value decides whatever the backup holds. */
  lemma CookieShadowsStorage(p: Platform, b: Browser, s: map<string, string>)
    requires CookieSession(b).Truthy()
    ensures FoundSession(p, b) == Some(CookieSession(b).v)
    ensures FoundSession(p, b.(storage := s)) == FoundSession(p, b)
  {
  }

  /** `get_session_id` and `get_or_create_session` agree on which id is present. */
  lemma SessionIdAgrees(p: Platform, b: Browser)
    ensures FoundSession(p, b).Some? <==> SessionIdOf(p, b).Some? && SessionIdOf(p, b).value != ""
    ensures FoundSession(p, b).Some? ==> FoundSession(p, b) == SessionIdOf(p, b)
  {
  }

  /** Write-through creation: with no id in either tier, the new id is 64 hex digits, the cookie
      reads back as it, the backup key holds it and the snapshot key the signature. */
  lemma {:induction false} CreateWritesThrough(p: Platform, b: Browser, d: Device)
    requires FoundSession(p, b).None?
    requires p.cookiesEnabled && p.storageEnabled && WellFormed(b.jar)
    ensures GetOrCreate(p, b, d).0 == NewSessionId(p, d)
    ensures |GetOrCreate(p, b, d).0| == 64 && IsLowerHex(GetOrCreate(p, b, d).0)
    ensures CookieSession(GetOrCreate(p, b, d).1) == Value(NewSessionId(p, d))
    ensures GetOrCreate(p, b, d).1.storage[StorageKey] == NewSessionId(p, d)
    ensures GetOrCreate(p, b, d).1.storage[FingerprintKey] == p.stringify(Collect(d))
  {
    WrittenCookie(p, b, d);
    WrittenStorage(p, b, d);
  }

  /** The cookie written by `create_new_session` reads back as the new id. */
  lemma WrittenCookie(p: Platform, b: Browser, d: Device)
    requires p.cookiesEnabled && WellFormed(b.jar)
    ensures CookieSession(Written(p, b, d)) == Value(NewSessionId(p, d))
    ensures WellFormed(Written(p, b, d).jar)
  {
    var id := NewSessionId(p, d);
    HexIsClean(id);
    CookieNameGood();
    PutThenRead(b.jar, CookieName, id);
    PutWellFormed(b.jar, CookieName, id);
  }

  /** Reuse writes nothing: an id found without significant drift is returned as it is and the
      state is untouched. In particular a hit in localStorage alone leaves the cookie missing. */
  lemma ReuseWritesNothing(p: Platform, b: Browser, d: Device)
    requires FoundSession(p, b).Some? && !ShouldRegenerate(p, b, d)
    ensures GetOrCreate(p, b, d) == (FoundSession(p, b).value, b)
    ensures !CookieSession(b).Truthy() ==>
              GetOrCreate(p, b, d).0 == StorageSession(p, b).value &&
              !CookieSession(GetOrCreate(p, b, d).1).Truthy()
  {
  }

  /** Any value under the cookie name is trusted: the reader applies no shape check, so a
      non-hex value comes back as the session id. */
  lemma CookieValueTrusted(p: Platform, b: Browser, d: Device, v: string)
    requires WellFormed(b.jar) && CleanValue(v) && v != ""
    requires !ShouldRegenerate(p, b.(jar := Put(b.jar, CookieName, v)), d)
    ensures GetOrCreate(p, b.(jar := Put(b.jar, CookieName, v)), d) == (v, b.(jar := Put(b.jar, CookieName, v)))
  {
    CookieNameGood();
    PutThenRead(b.jar, CookieName, v);
  }

  /** A concrete instance: the cookie `wland_chat_session=abc` yields the session id "abc". */
  lemma ShortCookieTrusted(p: Platform, d: Device)
    ensures GetOrCreate(p, Browser([Cookie(CookieName, "abc")], map[], false), d).0 == "abc"
  {
    CookieNameGood();
    PutThenRead([], CookieName, "abc");
    assert Put([], CookieName, "abc") == [Cookie(CookieName, "abc")];
  }

  /** At least two true entries exist exactly when the count is two or more. */
  lemma {:induction false} CountTwo(bs: seq<bool>)
    ensures CountTrue(bs) >= 2 <==> exists i, j :: 0 <= i < j < |bs| && bs[i] && bs[j]
  {
    if bs != [] {
      CountTwo(bs[1..]);
      CountOne(bs[1..]);
      if CountTrue(bs) >= 2 {
        if bs[0] {
          var j :| 0 <= j < |bs[1..]| && bs[1..][j];
          assert bs[0] && bs[j + 1];
        } else {
          var i, j :| 0 <= i < j < |bs[1..]| && bs[1..][i] && bs[1..][j];
          assert bs[i + 1] && bs[j + 1];
        }
      }
    }
  }

  lemma {:induction false} CountOne(bs: seq<bool>)
    ensures CountTrue(bs) >= 1 <==> exists j :: 0 <= j < |bs| && bs[j]
  {
    if bs != [] {
      CountOne(bs[1..]);
      if exists j :: 1 <= j < |bs| && bs[j] {
        var j :| 1 <= j < |bs| && bs[j];
        assert bs[1..][j - 1];
      }
      if exists j :: 0 <= j < |bs[1..]| && bs[1..][j] {
        var j :| 0 <= j < |bs[1..]| && bs[1..][j];
        assert bs[j + 1];
      }
    }
  }

  /** The JSON keys that may drift, and the signature field each is compared with. */
  const DriftKeys: seq<string> := ["user_agent", "screen_resolution", "timezone", "canvas"]

  function DriftField(sig: Signature, i: nat): string
    requires i < 4
  {
    [sig.userAgent, sig.screenResolution, sig.timezone, sig.canvas][i]
  }

  /** Two distinct keys among the four differ between the snapshot and the current signature. */
  predicate TwoDiffer(fields: map<string, JsonField>, sig: Signature) {
    exists i: nat, j: nat :: i < j < 4 &&
      Differs(fields, DriftKeys[i], DriftField(sig, i)) && Differs(fields, DriftKeys[j], DriftField(sig, j))
  }

  /** The drift rule: regeneration is due exactly when localStorage is readable, the snapshot is
      present, non-empty and parses to a non-null value, and at least two of `user_agent`,
      `screen_resolution`, `timezone` and `canvas` differ. A missing snapshot, a parse error or a
      null snapshot give false. */
  lemma DriftRule(p: Platform, b: Browser, d: Device)
    ensures ShouldRegenerate(p, b, d) <==>
              p.storageEnabled && FingerprintKey in b.storage && b.storage[FingerprintKey] != "" &&
              p.parse(b.storage[FingerprintKey]).ParsedValue? &&
              TwoDiffer(p.parse(b.storage[FingerprintKey]).fields, Collect(d))
  {
    if p.storageEnabled && FingerprintKey in b.storage && b.storage[FingerprintKey] != "" &&
       p.parse(b.storage[FingerprintKey]).ParsedValue? {
      ChangesTwoDiffer(p.parse(b.storage[FingerprintKey]).fields, Collect(d));
    }
  }

  /** At least two entries of `significant_changes` are true exactly when two drift keys differ. */
  lemma ChangesTwoDiffer(fields: map<string, JsonField>, sig: Signature)
    ensures CountTrue(SignificantChanges(fields, sig)) >= 2 <==> TwoDiffer(fields, sig)
  {
    var changes := SignificantChanges(fields, sig);
    CountTwo(changes);
    forall i: nat | i < 4
      ensures changes[i] == Differs(fields, DriftKeys[i], DriftField(sig, i))
    {
    }
  }

  /** `JSON.parse(JSON.stringify(sig))` is a non-empty text whose four drift properties are
      the strings of `sig`: the one property the model requires of the JSON codec. */
  predicate JsonKeepsDriftFields(p: Platform, sig: Signature) {
    var text := p.stringify(sig);
    text != "" && p.parse(text).ParsedValue? &&
    CountTrue(SignificantChanges(p.parse(text).fields, sig)) == 0
  }

  /** A freshly written snapshot never asks for regeneration on the same device. */
  lemma FreshSnapshotStable(p: Platform, b: Browser, d: Device)
    requires p.storageEnabled && JsonKeepsDriftFields(p, Collect(d))
    ensures !ShouldRegenerate(p, Written(p, b, d), d)
  {
    WrittenStorage(p, b, d);
  }

  /** Idempotence: a second `get_or_create_session` on the same device returns the same id and
      writes nothing. */
  lemma {:induction false} SecondCallStable(p: Platform, b: Browser, d: Device)
    requires p.cookiesEnabled && p.storageEnabled && WellFormed(b.jar)
    requires JsonKeepsDriftFields(p, Collect(d))
    ensures GetOrCreate(p, GetOrCreate(p, b, d).1, d) == GetOrCreate(p, b, d)
  {
    var (id, b1) := GetOrCreate(p, b, d);
    if b1 != b || FoundSession(p, b).None? || ShouldRegenerate(p, b, d) {
      assert b1 == Written(p, b, d) && id == NewSessionId(p, d);
      WrittenCookie(p, b, d);
      assert CookieSession(b1).Truthy();
      FreshSnapshotStable(p, b, d);
    }
  }

  /** `clear_session` expires the cookie and removes the backup, snapshot and consent keys, so a
      following `init` with gating on is back at the banner, and without gating the next
      `get_or_create_session` finds nothing and creates a session. */
  lemma ClearResets(p: Platform, b: Browser, d: Device)
    requires p.storageEnabled
    ensures ConsentRead(p, ClearOf(p, b)) == Some(false)
    ensures StorageSession(p, ClearOf(p, b)).None?
    ensures StorageGet(p, ClearOf(p, b), FingerprintKey).None?
    ensures p.gdprEnabled ==> InitOf(p, ClearOf(p, b), d) == ClearOf(p, b).(banner := true)
    ensures p.cookiesEnabled && WellFormed(b.jar) ==>
              CookieSession(ClearOf(p, b)) == NotFound && FoundSession(p, ClearOf(p, b)).None? &&
              GetOrCreate(p, ClearOf(p, b), d).0 == NewSessionId(p, d)
  {
    if p.cookiesEnabled && WellFormed(b.jar) {
      CookieNameGood();
      RemoveThenRead(b.jar, CookieName);
    }
  }
}
