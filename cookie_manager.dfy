/** The server-side session manager `WlandCookieManager` (includes/class_cookie_manager.php).

    The request's `$_COOKIE` and `$_SERVER` are maps; the `Set-Cookie` headers a request sends
    are a list; `time()` and the random salt of `wp_generate_password` are parameters. The
    sanitiser, the IP validator and SHA-256 (FIPS 180-4) are opaque functions. */
module CookieManager {
  import opened Text
  import opened Wrappers
  import Php
  import FingerprintHash

  const CookieName: string := "wland_chat_session"
  /** `YEAR_IN_SECONDS`. */
  const CookieDuration: int := 31536000
  const DefaultIp: string := "0.0.0.0"
  /** The headers `get_client_ip` tries, most trusted first. */
  const IpHeaders: seq<string> := ["HTTP_CF_CONNECTING_IP", "HTTP_X_FORWARDED_FOR", "HTTP_X_REAL_IP", "REMOTE_ADDR"]

  /** `hash('sha256', …)`: 64 lower-case hex digits. */
  type HexDigest = s: string | |s| == 64 && IsLowerHex(s) witness Zeros(64)

  /** One `Set-Cookie` header: name, value and expiry time (the other attributes are not
      modelled). */
  datatype SetCookie = SetCookie(name: string, value: string, expires: int)

  /** The request's fixed surroundings. `canSend` is false once output has started, when
      `setcookie` sends nothing and returns false. */
  datatype Env = Env(
    server: map<string, string>,
    sanitize: string -> string,
    isValidIp: string -> bool,
    sha256: string -> HexDigest,
    canSend: bool)

  /** A sanitiser that behaves like `sanitize_text_field` on the strings that matter here: it
      never leaves a line break, and it keeps a lower-case hex string as it is. */
  ghost predicate SanitizerKeepsHex(e: Env) {
    (forall s :: '\n' !in e.sanitize(s)) && (forall s :: IsLowerHex(s) ==> e.sanitize(s) == s)
  }

  // ---------------------------------------------------------------- validation

  predicate IsSessionBody(s: string) {
    |s| == 64 && Php.AllHexCI(s)
  }

  /** `preg_match('/^[a-f0-9]{64}$/i', $s)`, including the final "\n" PCRE's `$` lets through. */
  predicate MatchesSessionFormat(s: string) {
    Php.DollarMatch(s, IsSessionBody)
  }

  /** `get_session_from_cookie()`. */
  function SessionFromCookie(e: Env, cookies: map<string, string>): string {
    if CookieName in cookies then
      var id := e.sanitize(cookies[CookieName]);
      if MatchesSessionFormat(id) then id else ""
    else ""
  }

  /** The reader returns '' or a value of the session format; with a sanitiser that strips line
      breaks that is exactly 64 hex digits in either case, and a valid sanitised cookie is
      returned as it is. */
  lemma SessionFromCookieShape(e: Env, cookies: map<string, string>)
    ensures var r := SessionFromCookie(e, cookies); r == "" || MatchesSessionFormat(r)
    ensures (forall s :: '\n' !in e.sanitize(s)) ==>
              var r := SessionFromCookie(e, cookies); r == "" || IsSessionBody(r)
    ensures CookieName in cookies && MatchesSessionFormat(e.sanitize(cookies[CookieName])) ==>
              SessionFromCookie(e, cookies) == e.sanitize(cookies[CookieName])
  {
    if (forall s :: '\n' !in e.sanitize(s)) && CookieName in cookies {
      var id := e.sanitize(cookies[CookieName]);
      if id != [] {
        assert id[|id| - 1] in id;
      }
    }
  }

  /** The trailing-newline case: the regex accepts 64 hex digits followed by "\n". */
  lemma NewlineAccepted()
    ensures MatchesSessionFormat(Zeros(64) + "\n")
    ensures !IsSessionBody(Zeros(64) + "\n")
  {
    var s := Zeros(64) + "\n";
    assert s[..|s| - 1] == Zeros(64);
  }

  // ---------------------------------------------------------------- get_client_ip

  /** The address a header value offers: the first comma-separated element, trimmed, when the
      value holds a comma; the value itself otherwise. */
  function IpCandidate(value: string): string {
    if ',' in value then Php.Trim(Split(value, ',')[0]) else value
  }

  predicate Usable(e: Env, header: string) {
    header in e.server && !Php.Empty(e.server[header]) && e.isValidIp(IpCandidate(e.server[header]))
  }

  /** The scan over `headers`: the first usable one decides; '0.0.0.0' when none is. */
  function ClientIpFrom(e: Env, headers: seq<string>): string {
    if headers == [] then DefaultIp
    else if Usable(e, headers[0]) then IpCandidate(e.server[headers[0]])
    else ClientIpFrom(e, headers[1..])
  }

  function ClientIpOf(e: Env): string {
    ClientIpFrom(e, IpHeaders)
  }

  /** First valid wins: the result comes from the first header that is set, non-empty and whose
      candidate validates, and every header before it was skipped; with no such header it is
      '0.0.0.0'. An invalid value does not stop the scan. */
  lemma {:induction false} ClientIpFirstValid(e: Env, headers: seq<string>)
    ensures (forall k :: 0 <= k < |headers| ==> !Usable(e, headers[k])) ==> ClientIpFrom(e, headers) == DefaultIp
    ensures forall k :: 0 <= k < |headers| && Usable(e, headers[k]) &&
                        (forall j :: 0 <= j < k ==> !Usable(e, headers[j])) ==>
                          ClientIpFrom(e, headers) == IpCandidate(e.server[headers[k]])
  {
    if headers != [] {
      ClientIpFirstValid(e, headers[1..]);
      forall k | 0 <= k < |headers| && Usable(e, headers[k]) && (forall j :: 0 <= j < k ==> !Usable(e, headers[j]))
        ensures ClientIpFrom(e, headers) == IpCandidate(e.server[headers[k]])
      {
        if k > 0 {
          assert !Usable(e, headers[0]);
          assert headers[1..][k - 1] == headers[k];
          forall j | 0 <= j < k - 1 ensures !Usable(e, headers[1..][j]) {
            assert headers[1..][j] == headers[j + 1];
          }
        }
      }
      if forall k :: 0 <= k < |headers| ==> !Usable(e, headers[k]) {
        forall k | 0 <= k < |headers| - 1 ensures !Usable(e, headers[1..][k]) {
          assert headers[1..][k] == headers[k + 1];
        }
      }
    }
  }

  /** A forwarded-for list contributes its first address, trimmed. */
  lemma ForwardedForFirst(first: string, rest: string)
    requires ',' !in first
    ensures IpCandidate(first + "," + rest) == Php.Trim(first)
  {
    SplitAtSeparator(first, rest, ',');
    assert first + "," + rest == first + [','] + rest;
    assert (first + "," + rest)[|first|] == ',';
  }

  /** `get_client_ip()`: the `foreach` with an early return. */
  method GetClientIp(e: Env) returns (ip: string)
    ensures ip == ClientIpOf(e)
  {
    var headers := IpHeaders;
    var i := 0;
    while i < |headers|
      invariant 0 <= i <= |headers|
      invariant ClientIpFrom(e, headers) == ClientIpFrom(e, headers[i..])
    {
      var header := headers[i];
      assert headers[i..][1..] == headers[i + 1..];
      if header in e.server && !Php.Empty(e.server[header]) {
        var candidate := e.server[header];
        if ',' in candidate {
          candidate := Php.Trim(Split(candidate, ',')[0]);
        }
        if e.isValidIp(candidate) {
          return candidate;
        }
      }
      i := i + 1;
    }
    return DefaultIp;
  }

  // ---------------------------------------------------------------- ids and cookies

  /** `generate_server_fingerprint()`: SHA-256 of user agent, client IP, time and salt joined
      by '|'. */
  function ServerFingerprint(e: Env, now: int, salt: string): HexDigest {
    var agent := if "HTTP_USER_AGENT" in e.server then e.server["HTTP_USER_AGENT"] else "";
    e.sha256(Join([agent, ClientIpOf(e), IntToString(now), salt], "|"))
  }

  /** `set_session_cookie($id)`: its return value and the headers sent after it. */
  function SendSessionCookie(e: Env, sent: seq<SetCookie>, id: string, now: int): (bool, seq<SetCookie>) {
    if e.canSend then (true, sent + [SetCookie(CookieName, id, now + CookieDuration)]) else (false, sent)
  }

  /** `get_or_create_session()`: the id and the headers sent. */
  function GetOrCreateOf(e: Env, cookies: map<string, string>, sent: seq<SetCookie>, now: int, salt: string): (string, seq<SetCookie>) {
    var found := SessionFromCookie(e, cookies);
    if Php.Empty(found) then
      var id := ServerFingerprint(e, now, salt);
      (id, SendSessionCookie(e, sent, id, now).1)
    else (found, sent)
  }

  /** What the browser sends back on the next request: each header in order stores its cookie,
      or deletes it when the expiry has passed. */
  function NextRequestCookies(cookies: map<string, string>, sent: seq<SetCookie>, now: int): map<string, string> {
    if sent == [] then cookies
    else
      var h := sent[|sent| - 1];
      var before := NextRequestCookies(cookies, sent[..|sent| - 1], now);
      if h.expires <= now then before - {h.name} else before[h.name := h.value]
  }

  /** A valid existing cookie is returned unchanged and nothing is sent; otherwise a fresh
      fingerprint id is returned and, when headers can still be sent, set as the cookie. */
  lemma GetOrCreateCases(e: Env, cookies: map<string, string>, sent: seq<SetCookie>, now: int, salt: string)
    ensures var found := SessionFromCookie(e, cookies);
            found != "" ==> GetOrCreateOf(e, cookies, sent, now, salt) == (found, sent)
    ensures var found := SessionFromCookie(e, cookies);
            found == "" ==>
              GetOrCreateOf(e, cookies, sent, now, salt).0 == ServerFingerprint(e, now, salt) &&
              GetOrCreateOf(e, cookies, sent, now, salt).1 ==
                (if e.canSend then sent + [SetCookie(CookieName, ServerFingerprint(e, now, salt), now + CookieDuration)] else sent)
  {
    ZeroNotSession();
  }

  /** '0', which PHP's `empty` also treats as empty, is not of the session format. */
  lemma ZeroNotSession()
    ensures !MatchesSessionFormat("0")
  {
  }

  /** Write then read: the id `get_or_create_session` hands out is what the next request's
      `get_session_from_cookie` reads, whether it was found or freshly set; only a fresh id
      made after the headers went out is lost, and the next request then finds no session. */
  lemma WriteThenRead(e: Env, cookies: map<string, string>, now: int, salt: string)
    requires SanitizerKeepsHex(e)
    ensures var (id, sent) := GetOrCreateOf(e, cookies, [], now, salt);
            var next := SessionFromCookie(e, NextRequestCookies(cookies, sent, now));
            (e.canSend || SessionFromCookie(e, cookies) != "" ==> next == id) &&
            (!e.canSend && SessionFromCookie(e, cookies) == "" ==> next == "")
  {
    var found := SessionFromCookie(e, cookies);
    ZeroNotSession();
    if found != "" {
      assert GetOrCreateOf(e, cookies, [], now, salt) == (found, []);
    } else if e.canSend {
      FreshWriteThenRead(e, cookies, now, salt);
    } else {
      assert GetOrCreateOf(e, cookies, [], now, salt).1 == [];
    }
  }

  lemma FreshWriteThenRead(e: Env, cookies: map<string, string>, now: int, salt: string)
    requires e.canSend && SanitizerKeepsHex(e) && SessionFromCookie(e, cookies) == ""
    ensures var (id, sent) := GetOrCreateOf(e, cookies, [], now, salt);
            SessionFromCookie(e, NextRequestCookies(cookies, sent, now)) == id
  {
    var id := ServerFingerprint(e, now, salt);
    var sent := [SetCookie(CookieName, id, now + CookieDuration)];
    assert [] + sent == sent;
    assert GetOrCreateOf(e, cookies, [], now, salt) == (id, sent);
    assert sent[..0] == [];
    assert NextRequestCookies(cookies, sent, now) == cookies[CookieName := id];
    HexAccepted(id);
  }

  /** Every lower-case hex string of length 64 passes the validator: server-made and
      browser-made ids alike. */
  lemma HexAccepted(id: string)
    requires |id| == 64 && IsLowerHex(id)
    ensures IsSessionBody(id) && MatchesSessionFormat(id)
  {
    forall i | 0 <= i < |id| ensures Php.IsHexCI(id[i]) {
      assert IsLowerHexChar(id[i]);
    }
  }

  /** The ids the browser store creates (SHA-256 hex or the padded fallback hash) pass the
      server's validator and are read back unchanged. */
  lemma BrowserIdAccepted(e: Env, cookies: map<string, string>, text: string, crypto: FingerprintHash.Crypto)
    requires SanitizerKeepsHex(e)
    ensures var id := FingerprintHash.HashFingerprintOf(text, crypto);
            SessionFromCookie(e, cookies[CookieName := id]) == id
  {
    HexAccepted(FingerprintHash.HashFingerprintOf(text, crypto));
  }

  /** `delete_session()`: its result, the new `$_COOKIE` and the headers sent. */
  function DeleteOf(e: Env, cookies: map<string, string>, sent: seq<SetCookie>, now: int): (bool, map<string, string>, seq<SetCookie>) {
    if CookieName in cookies then
      var (ok, sent') := if e.canSend then (true, sent + [SetCookie(CookieName, "", now - 3600)]) else (false, sent);
      (ok, cookies - {CookieName}, sent')
    else (false, cookies, sent)
  }

  /** Without the cookie nothing happens and the result is false; with it the entry leaves
      `$_COOKIE` and the browser drops the cookie, so the next request reads ''. */
  lemma DeleteSessionEffect(e: Env, cookies: map<string, string>, sent: seq<SetCookie>, now: int)
    ensures CookieName !in cookies ==> DeleteOf(e, cookies, sent, now) == (false, cookies, sent)
    ensures CookieName in cookies ==>
              DeleteOf(e, cookies, sent, now).1 == cookies - {CookieName} &&
              DeleteOf(e, cookies, sent, now).0 == e.canSend
    ensures CookieName in cookies && e.canSend ==>
              CookieName !in NextRequestCookies(cookies, DeleteOf(e, cookies, sent, now).2, now) &&
              SessionFromCookie(e, NextRequestCookies(cookies, DeleteOf(e, cookies, sent, now).2, now)) == ""
  {
    if CookieName in cookies && e.canSend {
      var sent' := DeleteOf(e, cookies, sent, now).2;
      assert sent'[..|sent'| - 1] == sent;
    }
  }

  /** `regenerate_session()`: a fresh id always, set as the cookie whether or not one exists. */
  function RegenerateOf(e: Env, sent: seq<SetCookie>, now: int, salt: string): (string, seq<SetCookie>) {
    var id := ServerFingerprint(e, now, salt);
    (id, SendSessionCookie(e, sent, id, now).1)
  }

  lemma RegenerateAlwaysSets(e: Env, cookies: map<string, string>, sent: seq<SetCookie>, now: int, salt: string)
    requires e.canSend && SanitizerKeepsHex(e)
    ensures var (id, sent') := RegenerateOf(e, sent, now, salt);
            sent' == sent + [SetCookie(CookieName, id, now + CookieDuration)] &&
            SessionFromCookie(e, NextRequestCookies(cookies, sent', now)) == id
  {
    var (id, sent') := RegenerateOf(e, sent, now, salt);
    assert sent'[..|sent'| - 1] == sent;
    HexAccepted(id);
  }

  // ---------------------------------------------------------------- the class

  class WlandCookieManager {
    const env: Env
    /** `$_COOKIE`. */
    var cookies: map<string, string>
    /** The `Set-Cookie` headers sent so far in this request. */
    var sent: seq<SetCookie>

    constructor (env: Env, cookies: map<string, string>)
      ensures this.env == env && this.cookies == cookies && sent == []
    {
      this.env := env;
      this.cookies := cookies;
      sent := [];
    }

    method GetSessionFromCookie() returns (id: string)
      ensures id == SessionFromCookie(env, cookies)
    {
      if CookieName in cookies {
        id := env.sanitize(cookies[CookieName]);
        if MatchesSessionFormat(id) {
          return id;
        }
      }
      return "";
    }

    method GenerateServerFingerprint(now: int, salt: string) returns (hash: HexDigest)
      ensures hash == ServerFingerprint(env, now, salt)
    {
      var agent := if "HTTP_USER_AGENT" in env.server then env.server["HTTP_USER_AGENT"] else "";
      var ip := GetClientIp(env);
      hash := env.sha256(Join([agent, ip, IntToString(now), salt], "|"));
    }

    method SetSessionCookie(id: string, now: int) returns (ok: bool)
      modifies this
      ensures (ok, sent) == SendSessionCookie(env, old(sent), id, now)
      ensures cookies == old(cookies)
    {
      if !env.canSend {
        return false;
      }
      sent := sent + [SetCookie(CookieName, id, now + CookieDuration)];
      ok := true;
    }

    method CreateNewSession(now: int, salt: string) returns (id: string)
      modifies this
      ensures id == ServerFingerprint(env, now, salt)
      ensures sent == SendSessionCookie(env, old(sent), id, now).1 && cookies == old(cookies)
    {
      id := GenerateServerFingerprint(now, salt);
      var _ := SetSessionCookie(id, now);
    }

    method GetOrCreateSession(now: int, salt: string) returns (id: string)
      modifies this
      ensures (id, sent) == GetOrCreateOf(env, old(cookies), old(sent), now, salt)
      ensures cookies == old(cookies)
    {
      id := GetSessionFromCookie();
      if Php.Empty(id) {
        id := CreateNewSession(now, salt);
      }
    }

    /** `initialize_session()`: only outside the admin and before output has started. */
    method InitializeSession(isAdmin: bool, now: int, salt: string)
      modifies this
      ensures sent == (if !isAdmin && env.canSend then GetOrCreateOf(env, old(cookies), old(sent), now, salt).1 else old(sent))
      ensures cookies == old(cookies)
    {
      if !isAdmin && env.canSend {
        var _ := GetOrCreateSession(now, salt);
      }
    }

    method RegenerateSession(now: int, salt: string) returns (id: string)
      modifies this
      ensures (id, sent) == RegenerateOf(env, old(sent), now, salt)
      ensures cookies == old(cookies)
    {
      id := GenerateServerFingerprint(now, salt);
      var _ := SetSessionCookie(id, now);
    }

    method DeleteSession(now: int) returns (ok: bool)
      modifies this
      ensures (ok, cookies, sent) == DeleteOf(env, old(cookies), old(sent), now)
    {
      if CookieName in cookies {
        cookies := cookies - {CookieName};
        if env.canSend {
          sent := sent + [SetCookie(CookieName, "", now - 3600)];
          return true;
        }
        return false;
      }
      return false;
    }
  }
}
