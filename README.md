# Wland Chat iA — a verified model of the plugin's core

Wland Chat iA is a WordPress plugin that puts an N8N-backed chat widget on a site, as a floating
modal window or a fullscreen screen. This project models the parts of the plugin that make
decisions, and proves properties about them:

- **The browser session store**, `WlandFingerprint` (`fingerprint.dfy`, helped by
  `fingerprint_hash.dfy`, `signals.dfy` and `cookie_jar.dfy`). It keeps a visitor's session id in
  the cookie `wland_chat_session`, with a backup in localStorage. It creates the id by hashing a
  device signature, and regenerates it when the device drifts. Consent gating applies on top.
  The class `WlandFingerprint` follows the source method by method. Each method is proved to
  produce the browser state given by a value-level function, and the lemmas are about those
  functions.
- **The server-side session manager**, `WlandCookieManager` (`cookie_manager.dfy`). It reads and
  validates the session cookie, picks the client IP from the proxy headers, and creates,
  regenerates and deletes sessions. The model covers the `Set-Cookie` headers they send and what
  the next request reads back.
- **The display and availability rules of `Helpers`** (`helpers.dfy`, `legacy_helpers.dfy`): page
  exclusion, the availability window with PHP's string comparison, the welcome message, the chat
  configuration, the block attributes and the widget id.
- **The settings sanitisers and the hidden-field rendering** (`settings.dfy`, with the PHP value
  semantics in `php.dfy`). The settings screen, the Customizer and the legacy settings class
  register sanitisers with the same bodies, so one definition of each serves all three.
- **The colour arithmetic and display gating of `Frontend`** (`frontend.dfy`).
- **The three chat clients**:
  - the modal (`chat_modal.dfy`), with its HTML escaping and linkification in `chat_html.dfy`;
  - the fullscreen screen (`chat_screen.dfy`);
  - the earlier fullscreen screen (`legacy_chat_screen.dfy`).

  JavaScript value semantics (truthiness, property reads, `||` chains) are in `chat_json.dfy`.

`text.dfy` and `wrappers.dfy` hold the string and option helpers the modules share.

Everything nondeterministic or external is an input of the model. This covers:
- the clock and `Math.random`/`wp_generate_password`;
- the browser signals;
- SHA-256 and `JSON.parse`/`JSON.stringify`;
- the WordPress sanitisers, `filter_var` and `esc_*`;
- the answer the webhook gives.

## Model

| member | source | states |
|---|---|---|
| FingerprintHash.ToInt32 | assets/js/wland_fingerprint.js:391-394 | ECMAScript ToInt32: the result lies in [-2^31, 2^31) and is congruent to the input modulo 2^32 |
| FingerprintHash.StepIsTimes31 | assets/js/wland_fingerprint.js:392-394 | one round `((hash << 5) - hash) + char; hash & hash` is `31*hash + char` wrapped to 32 bits |
| FingerprintHash.FoldIsPolynomial | assets/js/wland_fingerprint.js:389-395 | the loop computes the polynomial hash `sum c_i * 31^(n-1-i)` modulo 2^32: wrapping every round or once at the end agrees |
| FingerprintHash.SimpleHash | assets/js/wland_fingerprint.js:388-399 | the loop over the UTF-16 code units gives `simple_hash`'s value, which is 64 lower-case hex digits |
| FingerprintHash.SimpleHashShape | assets/js/wland_fingerprint.js:397-398 | the result is exactly 64 lower-case hex digits and its first 56 are '0' |
| FingerprintHash.SimpleHashEmpty | assets/js/wland_fingerprint.js:388-399 | the empty string hashes to 64 zeros |
| FingerprintHash.HexEncode | assets/js/wland_fingerprint.js:372 | the digest's hex text has two lower-case hex digits per byte |
| FingerprintHash.HexEncodeDecode | assets/js/wland_fingerprint.js:372 | the hex rendering loses nothing: decoding it gives the digest bytes back |
| FingerprintHash.HexDecodeByte | assets/js/wland_fingerprint.js:370 | the two digits written for a byte decode back to that byte in front of whatever follows |
| FingerprintHash.HashFingerprintOf | assets/js/wland_fingerprint.js:360-380 | on both paths, SHA-256 through Web Crypto and the `simple_hash` fallback, the id is 64 lower-case hex digits |
| FingerprintHash.HashFingerprint | assets/js/wland_fingerprint.js:360-380 | the method (fallback through the hash loop) computes `HashFingerprintOf` |
| Signals.PluginsList | assets/js/wland_fingerprint.js:263-273 | the push loop returns 'none' without plugins, else the names joined by ',' |
| Signals.PluginsListSplit | assets/js/wland_fingerprint.js:263-273 | no plugins or an empty list gives 'none'; when no name holds a comma, splitting the text on ',' gives the names back |
| Signals.TouchSupportFields | assets/js/wland_fingerprint.js:344-350 | the touch text has exactly three comma-separated fields: max touch points (0 when absent), whether `ontouchstart` exists, the vendor-prefixed points |
| Signals.GenerateBrowserFingerprint | assets/js/wland_fingerprint.js:238-255 | the signature is the collected one; user agent, timezone and canvas are taken over unchanged |
| Signals.ScreenResolutionInjective | assets/js/wland_fingerprint.js:241 | equal screen fields mean equal width, height and colour depth |
| CookieJar.Put | assets/js/wland_fingerprint.js:407-416 | assigning a cookie replaces the one of that name or appends one |
| CookieJar.Remove | assets/js/wland_fingerprint.js:504-507 | the expired assignment leaves no cookie of that name and adds none |
| CookieJar.PutWellFormed | assets/js/wland_fingerprint.js:407-416 | writing a good name and a value without ';' keeps the jar well formed |
| CookieJar.ReadPairsFirst | assets/js/wland_fingerprint.js:171-180 | the reader returns null exactly when no piece has the name; otherwise the first matching piece decides, whatever its value looks like |
| CookieJar.GetCookie | assets/js/wland_fingerprint.js:171-180 | the split-and-scan loop with early return computes the reader |
| CookieJar.ReadHeader | assets/js/wland_fingerprint.js:171-180 | reading the `document.cookie` text ("; "-joined pairs) is reading the jar |
| CookieJar.PutThenRead | assets/js/wland_fingerprint.js:407-416 | writing a clean value and reading it back through `document.cookie` gives that value |
| CookieJar.PutKeepsOthers | assets/js/wland_fingerprint.js:407-416 | writing one cookie leaves what is read under any other name unchanged |
| CookieJar.RemoveThenRead | assets/js/wland_fingerprint.js:504-507 | after the expired assignment nothing is read under that name |
| Fingerprint.WlandFingerprint.constructor | assets/js/wland_fingerprint.js:23-41 | construction runs `init` on the page's jar and storage |
| Fingerprint.WlandFingerprint.Init | assets/js/wland_fingerprint.js:50-61 | the new browser state is `InitOf` of the old one |
| Fingerprint.WlandFingerprint.HasGdprConsent | assets/js/wland_fingerprint.js:68-75 | returns the consent read, `None` when storage throws |
| Fingerprint.WlandFingerprint.SaveGdprConsent | assets/js/wland_fingerprint.js:77-86 | stores 'accepted' under the consent key when storage works, reports whether it did, and touches nothing else |
| Fingerprint.WlandFingerprint.ShowGdprBanner | assets/js/wland_fingerprint.js:88-142 | the banner is shown afterwards; cookie and storage unchanged |
| Fingerprint.WlandFingerprint.AcceptConsent | assets/js/wland_fingerprint.js:126-131 | the click's new state is `AcceptOf` of the old one |
| Fingerprint.WlandFingerprint.GetOrCreateSession | assets/js/wland_fingerprint.js:144-164 | returns the id and leaves the state that `GetOrCreate` gives |
| Fingerprint.WlandFingerprint.GetSessionFromCookie | assets/js/wland_fingerprint.js:171-180 | returns the cookie reader's result on the current jar |
| Fingerprint.WlandFingerprint.GetSessionFromStorage | assets/js/wland_fingerprint.js:187-196 | returns the backup key's value, null when absent or when storage throws |
| Fingerprint.WlandFingerprint.CreateNewSession | assets/js/wland_fingerprint.js:204-220 | returns the hashed device id and writes it to the cookie and the backup key, with the signature in the snapshot key |
| Fingerprint.WlandFingerprint.SetSessionCookie | assets/js/wland_fingerprint.js:407-416 | the jar gets the cookie (when cookies are enabled); storage unchanged |
| Fingerprint.WlandFingerprint.SetSessionStorage | assets/js/wland_fingerprint.js:424-430 | the backup key gets the id (when storage works); jar unchanged |
| Fingerprint.WlandFingerprint.SaveCurrentFingerprint | assets/js/wland_fingerprint.js:438-444 | the snapshot key gets the serialised signature (when storage works); jar unchanged |
| Fingerprint.WlandFingerprint.ShouldRegenerateSession | assets/js/wland_fingerprint.js:454-484 | returns the drift decision `ShouldRegenerate` on the current state |
| Fingerprint.WlandFingerprint.GetSessionId | assets/js/wland_fingerprint.js:493-496 | returns `cookie \|\| storage` on the current state |
| Fingerprint.WlandFingerprint.ClearSession | assets/js/wland_fingerprint.js:504-518 | the new state is `ClearOf` of the old one |
| Fingerprint.SignificantChanges | assets/js/wland_fingerprint.js:465-474 | the comparison array has four entries |
| Fingerprint.CountTwo | assets/js/wland_fingerprint.js:477-478 | the filter count is at least two exactly when two distinct entries are true |
| Fingerprint.NewSessionIdShape | assets/js/wland_fingerprint.js:204-220 | every new session id is 64 lower-case hex digits |
| Fingerprint.ConsentGate | assets/js/wland_fingerprint.js:50-61 | with gating on and no recorded consent, `init` leaves cookie and storage untouched and shows the banner (or stops when storage throws); the consent read is false exactly when storage works and the key is not 'accepted' |
| Fingerprint.AcceptThenSession | assets/js/wland_fingerprint.js:126-131 | accepting stores exactly 'accepted', removes the banner, then runs `get_or_create_session` on the consented state; consent survives it; without storage the click changes nothing |
| Fingerprint.WrittenStorage | assets/js/wland_fingerprint.js:204-220 | creation writes only the backup and snapshot keys (the id and the serialised signature) and keeps every other key and the banner |
| Fingerprint.CookieShadowsStorage | assets/js/wland_fingerprint.js:144-152 | a truthy cookie decides: storage is not consulted and may hold anything |
| Fingerprint.SessionIdAgrees | assets/js/wland_fingerprint.js:493-496 | `get_session_id` and `get_or_create_session` agree on whether and which id is present |
| Fingerprint.CreateWritesThrough | assets/js/wland_fingerprint.js:144-164 | with no id in either tier, the new id is 64 hex digits, the cookie reads back as it, the backup holds it and the snapshot the signature |
| Fingerprint.WrittenCookie | assets/js/wland_fingerprint.js:204-220 | the cookie written by creation reads back as the new id and the jar stays well formed |
| Fingerprint.ReuseWritesNothing | assets/js/wland_fingerprint.js:144-164 | a found id without drift is returned as it is and nothing is written; a storage-only hit leaves the cookie missing |
| Fingerprint.CookieValueTrusted | assets/js/wland_fingerprint.js:171-180 | any clean non-empty value under the cookie name is returned as the session id: the reader checks no shape |
| Fingerprint.ShortCookieTrusted | assets/js/wland_fingerprint.js:171-180 | the cookie `wland_chat_session=abc` yields the id "abc" |
| Fingerprint.DriftRule | assets/js/wland_fingerprint.js:454-484 | regeneration is due exactly when storage works, the snapshot is present, non-empty and parses to a non-null value, and two of user agent, screen, timezone and canvas differ |
| Fingerprint.ChangesTwoDiffer | assets/js/wland_fingerprint.js:464-477 | at least two entries of `significant_changes` are true exactly when two distinct drift keys differ from the current signature |
| Fingerprint.FreshSnapshotStable | assets/js/wland_fingerprint.js:438-444 | a freshly written snapshot never asks for regeneration on the same device |
| Fingerprint.SecondCallStable | assets/js/wland_fingerprint.js:144-164 | a second `get_or_create_session` on the same device returns the same id and writes nothing |
| Fingerprint.ClearResets | assets/js/wland_fingerprint.js:504-518 | clearing removes the backup, snapshot and consent; a gated `init` is back at the banner; and the cookie is gone, so the next lookup creates a new session |
| CookieManager.SessionFromCookieShape | includes/class_cookie_manager.php:137-148 | the reader returns '' or a value of the session format; with a sanitiser that strips line breaks that is 64 hex digits of either case; a valid sanitised cookie is returned as it is |
| CookieManager.NewlineAccepted | includes/class_cookie_manager.php:142 | PCRE's `$` lets 64 hex digits followed by "\n" through |
| CookieManager.ClientIpFirstValid | includes/class_cookie_manager.php:206-231 | the first header that is set, non-empty and validates decides; invalid values do not stop the scan; with none the result is '0.0.0.0' |
| CookieManager.ForwardedForFirst | includes/class_cookie_manager.php:218-221 | a comma list contributes its first element, trimmed |
| CookieManager.GetClientIp | includes/class_cookie_manager.php:206-231 | the `foreach` with early return computes the scan over the four headers in order |
| CookieManager.GetOrCreateCases | includes/class_cookie_manager.php:118-127 | a valid cookie is returned unchanged and nothing is sent; otherwise a fresh fingerprint id is returned and set when headers can still be sent |
| CookieManager.WriteThenRead | includes/class_cookie_manager.php:159-167 | the id handed out is what the next request's `get_session_from_cookie` reads, both when a valid cookie was found and when a fresh id was set; a fresh id made after the headers went out is lost and the next request reads no session |
| CookieManager.HexAccepted | includes/class_cookie_manager.php:142 | every 64-digit lower-case hex string passes the validator |
| CookieManager.BrowserIdAccepted | includes/class_cookie_manager.php:137-148 | ids made by the browser store pass the server's validator and are read back unchanged |
| CookieManager.DeleteSessionEffect | includes/class_cookie_manager.php:296-308 | without the cookie: false and no change; with it, the entry leaves `$_COOKIE`, the result is whether headers could be sent, and the next request reads '' |
| CookieManager.RegenerateAlwaysSets | includes/class_cookie_manager.php:283-287 | a fresh id is always set as the cookie and read back next time |
| CookieManager.WlandCookieManager.GetSessionFromCookie | includes/class_cookie_manager.php:137-148 | returns the validated cookie reading |
| CookieManager.WlandCookieManager.GenerateServerFingerprint | includes/class_cookie_manager.php:183-196 | returns SHA-256 of user agent, IP, time and salt joined by '\|' |
| CookieManager.WlandCookieManager.SetSessionCookie | includes/class_cookie_manager.php:242-270 | sends one `Set-Cookie` for a year when headers can be sent and reports it; `$_COOKIE` unchanged |
| CookieManager.WlandCookieManager.CreateNewSession | includes/class_cookie_manager.php:159-167 | returns the server fingerprint and sends it as the cookie |
| CookieManager.WlandCookieManager.GetOrCreateSession | includes/class_cookie_manager.php:118-127 | id and headers as `GetOrCreateOf` |
| CookieManager.WlandCookieManager.InitializeSession | includes/class_cookie_manager.php:103-110 | runs `get_or_create_session` only outside the admin and before output has started |
| CookieManager.WlandCookieManager.RegenerateSession | includes/class_cookie_manager.php:283-287 | id and headers as `RegenerateOf` |
| CookieManager.WlandCookieManager.DeleteSession | includes/class_cookie_manager.php:296-308 | result, `$_COOKIE` and headers as `DeleteOf` |
| Helpers.DisplayIffNotExcluded | includes/class_helpers.php:35-48 | the chat shows exactly on pages that are not excluded; availability never hides it; also: the legacy rule is the same: shown exactly when not excluded (includes/class-helpers.php, lines 16-30) |
| Helpers.ExclusionCases | includes/class_helpers.php:58-68 | no list or an empty one excludes nothing; with a sanitised list a page is excluded exactly when its id is in it; also: the legacy exclusion test is the same (includes/class-helpers.php, lines 35-45) |
| Helpers.WindowRule | includes/class_helpers.php:89-110 | inclusive window when start <= end, wrap past midnight otherwise, both ends included; an exception means available; also: the legacy window rule is the same (includes/class-helpers.php, lines 67-78) |
| Helpers.PaddedOrder | includes/class_helpers.php:100-106 | on zero-padded times PHP's string order is the clock's |
| Helpers.WindowInMinutes | includes/class_helpers.php:100-106 | on zero-padded times the window is the inclusive interval in minutes, or its wrap past midnight |
| Helpers.OneDigitHourWindow | includes/class_helpers.php:100-106 | the sanitiser keeps '9:00', and then '9:00'-'18:00' counts every padded time up to 18:00 as available, 00:00 and 08:00 included |
| Helpers.ConfigConsistent | includes/class_helpers.php:121-155 | the welcome message is the availability message exactly when the chat is unavailable, and `is_available` is `!enabled \|\| within`, so the configuration's flag and message agree; the legacy welcome message follows the same rule (includes/class-helpers.php, lines 84-94) |
| Helpers.BlockAttributesSanitized | includes/class_helpers.php:164-186 | exactly six keys; position and display mode go through the settings whitelists with their defaults; the welcome message comes from the attribute or `get_welcome_message`; also: the legacy block attributes use the same whitelists and defaults (includes/class-helpers.php, lines 114-136) |
| Helpers.UniqueIdShape | includes/class_helpers.php:196-198 | ids start with 'wland-chat-' followed by the password, so different passwords give different ids |
| LegacyHelpers.ConfigWithoutToken | includes/class-helpers.php:99-109 | the legacy configuration is the current one without the token; `is_available` follows the same rule |
| LegacyHelpers.RequirementsListPassed | includes/class-helpers.php:165-173 | only passed checks are listed, all with value true, each exactly when it passed |
| Settings.WhitelistCases | includes/class_settings.php:848-851 | a whitelist keeps an allowed string, replaces any other string by the default, lets only `true` through among non-strings, and is idempotent |
| Settings.PositionSanitized | includes/class_settings.php:848-851 | a string becomes an allowed position, itself exactly when allowed, else 'bottom-right'; idempotent; also: the Customizer's position sanitiser has the same whitelist and default (includes/class_customizer.php, lines 294-297); the legacy position sanitiser is the same (includes/class-settings.php, lines 417-420) |
| Settings.DisplayModeSanitized | includes/class_settings.php:860-863 | a string becomes 'modal' or 'fullscreen', itself exactly when allowed, else 'modal'; idempotent; also: the Customizer's display-mode sanitiser returns 'modal' or 'fullscreen', default 'modal' (includes/class_customizer.php, lines 306-309); the legacy display-mode sanitiser is the same (includes/class-settings.php, lines 422-425) |
| Settings.ChatIconSanitized | includes/class_settings.php:872-875 | a string becomes one of the four icons, itself exactly when allowed, else 'robot-chat'; idempotent |
| Settings.ExcludedPagesSanitized | includes/class_settings.php:884-889 | a non-array becomes `[]`; an array keeps its length, every entry is a non-negative integer, decimal ids keep their value; idempotent; also: the legacy excluded-pages sanitiser is the same (includes/class-settings.php, lines 427-432) |
| Settings.CheckboxSanitized | includes/class_settings.php:898-900 | the result is 0 or 1 and idempotent; a string is checked exactly when it is an integer string of value 1; `true` is checked; also: the Customizer's checkbox sanitiser returns 0 or 1 (includes/class_customizer.php, lines 318-320); the legacy checkbox sanitiser is the same (includes/class-settings.php, lines 434-436) |
| Settings.TimeSanitized | includes/class_settings.php:909-914 | the input comes back exactly when it matches the time regex (one-digit hour and trailing "\n" included), else '09:00', also for the end field whose registered default is '18:00' (includes/class_settings.php, lines 486-490); idempotent; the Customizer's copy (includes/class_customizer.php, lines 329-334, default at 217-222) and the legacy copy (includes/class-settings.php, lines 438-443, default at 205-209) are the same |
| Settings.TimeBodyIsClockTime | includes/class_settings.php:909-914 | every accepted time names hour 0-23 and minute 0-59 |
| Settings.PaddedTimeAccepted | includes/class_settings.php:909-914 | every zero-padded clock time is accepted and reads back as itself |
| Settings.RenderHiddenFields | includes/class_settings.php:76-120 | the nested loops emit `FieldsInputs` over the field list, reading each option through `get_option` with the registered defaults |
| Settings.RenderFields | includes/class_settings.php:101-119 | the outer loop emits the inputs of each field in order |
| Settings.RenderItems | includes/class_settings.php:111-114 | the inner loop emits one `name[]` input per array item in order |
| Settings.HiddenFieldValues | includes/class_settings.php:101-119 | per option, for the stored value or else its default: excluded renders nothing; an array renders its items under `name[]` and nothing under the plain name; anything else one input ('1'/'0' for booleans and '1'/'0', escaped text otherwise) |
| Settings.UnstoredReadsDefault | includes/class_settings.php:270-575 | an option that is not stored reads as the default `register_setting` gives it |
| Settings.FreshField | includes/class_settings.php:101-119 | on a fresh install each field renders as its registered default |
| Settings.FreshInstallHiddenFields | includes/class_settings.php:101-119 | on a fresh install the position renders 'bottom-right', the global switch '0', and the excluded pages (default: the empty array) nothing |
| Settings.HiddenFieldNames | includes/class_settings.php:78-114 | the inputs are named field after field in list order: nothing for an excluded field, one `name[]` per item for an array option, the plain name once otherwise; with no array option that is exactly the fields not excluded, one each |
| Settings.AllFieldsDistinct | includes/class_settings.php:77-100 | the field list holds no duplicate |
| Frontend.Channels | includes/class_frontend.php:385-393 | the three parsed channels are each at most 255 |
| Frontend.LightenBounds | includes/class_frontend.php:395-397 | a lightened channel never goes down and never passes 255; 100% gives 255 and 0% the channel |
| Frontend.DarkenBounds | includes/class_frontend.php:423-425 | a darkened channel never goes up; 100% gives 0 and 0% the channel |
| Frontend.EncodeDecode | includes/class_frontend.php:399-401 | the encoding is '#' and six lower-case hex digits whose channels read back unchanged |
| Frontend.ChannelHexRoundTrip | includes/class_frontend.php:399-401 | a channel prints as two lower-case hex digits that read back as it |
| Frontend.LightenColorShape | includes/class_frontend.php:384-401 | for any input the result is '#' and six lower-case hex digits, each channel no darker than the input's; 100% gives '#ffffff' |
| Frontend.DarkenColorShape | includes/class_frontend.php:412-429 | for any input the result is '#' and six lower-case hex digits, each channel no lighter than the input's; 100% gives '#000000' |
| Frontend.ShortForm | includes/class_frontend.php:387-389 | a three-digit colour gives the same channels and results as its doubled six-digit form |
| Frontend.DarkenZero | includes/class_frontend.php:412-429 | darkening a six-digit colour by 0% gives it back, lower-cased |
| Frontend.SixDigitNormalForm | includes/class_frontend.php:389-399 | decoding and re-encoding six hex digits lower-cases them |
| Frontend.AssetsGate | includes/class_frontend.php:71-87 | assets are queued exactly when the page is not excluded and global display is on or the page has the block; also: the custom colours appear exactly when the assets do (includes/class_frontend.php, lines 274-285) |
| Frontend.SecondaryColorShape | includes/class_frontend.php:288-360 | the secondary colour (the primary 20% lighter) and the send button's hover colour (the primary 10% darker) are well-formed colours |
| Frontend.AssetsScript | includes/class_frontend.php:71-87 | after the settings whitelist the script queued is the modal or the fullscreen one |
| Frontend.GlobalChatGate | includes/class_frontend.php:185-198 | the global widget renders exactly when global display is on, the page is not excluded and it has no block; its attributes are sanitised |
| ChatJson.Prop | assets/js/wland-chat-block-modal.js:287-288 | a property read on a non-null value yields the object's field when it has one and `undefined` otherwise |
| ChatJson.FirstTruthyPropSpec | assets/js/wland-chat-block-modal.js:287-288 | an `a \|\| b \|\| …` chain yields nothing exactly when all are falsy, and otherwise the first truthy one |
| ChatJson.FirstTruthyPropAt | assets/js/wland-chat-block-modal.js:287-288 | the chain settles on the first key whose property is truthy |
| ChatHtml.EscapeInOrder | assets/js/wland-chat-block-modal.js:332-334 | the three `replace` calls, `&` first, escape each character independently |
| ChatHtml.EscapeRoundTrip | assets/js/wland-chat-block-modal.js:332-334 | escaping loses nothing: unescaping gives the text back |
| ChatHtml.EscapeNoAngles | assets/js/wland-chat-block-modal.js:332-334 | the escaped text holds no `<` or `>` |
| ChatHtml.PiecesSound | assets/js/wland-chat-block-modal.js:336-340 | the escaped text splits into plain characters and maximal `http://`/`https://` runs up to whitespace, leftmost-longest as the global regex scans |
| ChatHtml.PiecesUnique | assets/js/wland-chat-block-modal.js:336-340 | that leftmost-longest split is the only one |
| ChatHtml.UrlShape | assets/js/wland-chat-block-modal.js:336 | every link run starts with `http://` or `https://` and holds no whitespace |
| ChatHtml.ProcessLinksShape | assets/js/wland-chat-block-modal.js:331-341 | the output renders each URL run as exactly one anchor; its only `<` and `>` are the anchors' two each; removing the markup and unescaping gives the input |
| ChatHtml.NoUrlOnlyEscaped | assets/js/wland-chat-block-modal.js:331-341 | text without a URL is only escaped |
| ChatHtml.MarkdownAtComplete | assets/js/wland-chat-block-modal.js:294-297 | `[caption](url)` with a caption free of `]` and a URL free of `)` matches at its start |
| ChatHtml.MarkdownLinksNoBracket | assets/js/wland-chat-block-modal.js:294-297 | text without `[` is left as it is |
| ChatHtml.MarkdownLinkBecomesAnchor | assets/js/wland-chat-block-modal.js:294-297 | a markdown link becomes the anchor with its URL as `href` and its caption as text |
| ChatModal.ReplyPrecedence | assets/js/wland-chat-block-modal.js:283-291 | the reply is the property at the first truthy of `output`, `Output`, `response`, `message`, `text` |
| ChatModal.ReplyFallsBackToRaw | assets/js/wland-chat-block-modal.js:283-291 | a parse error, a null body or no truthy field gives the raw text |
| ChatModal.BotBubbleMarkup | assets/js/wland-chat-block-modal.js:294-318 | the markdown anchors made before `addMessage` are escaped by `processLinks`: the bubble's only `<` and `>` are those of URL anchors |
| ChatModal.SessionId | assets/js/wland-chat-block-modal.js:77-79 | the id starts with 'wland_' |
| ChatModal.WlandChat.constructor | assets/js/wland-chat-block-modal.js:18-29 | a new chat is closed, not typing and empty |
| ChatModal.WlandChat.ToggleChat | assets/js/wland-chat-block-modal.js:193-202 | flips `isOpen` and changes nothing else |
| ChatModal.WlandChat.OpenWindow | assets/js/wland-chat-block-modal.js:204-220 | leaves the window open |
| ChatModal.WlandChat.CloseWindow | assets/js/wland-chat-block-modal.js:222-238 | leaves the window closed |
| ChatModal.WlandChat.ToggleSendButton | assets/js/wland-chat-block-modal.js:240-243 | the button is disabled exactly when the input is blank or a reply is awaited |
| ChatModal.WlandChat.Type | assets/js/wland-chat-block-modal.js:118 | the input event stores the text and updates the button by the same rule |
| ChatModal.WlandChat.ShowTyping | assets/js/wland-chat-block-modal.js:343-348 | typing is on and the button disabled |
| ChatModal.WlandChat.HideTyping | assets/js/wland-chat-block-modal.js:350-354 | typing is off and the button follows the input |
| ChatModal.WlandChat.SendMessage | assets/js/wland-chat-block-modal.js:245-308 | a blank input or an awaited reply changes nothing; otherwise the trimmed message is shown and posted with the session id, then the bot bubble (reply or connection error) follows, the input is empty and the button disabled |
| ChatModal.WlandChat.Exchange | assets/js/wland-chat-block-modal.js:250-308 | past the guard: one payload posted, the user bubble then the bot bubble, typing off |
| ChatModal.Page.RunScript | assets/js/wland-chat-block-modal.js:11-15 | the first run sets the page flag and creates the chat; later runs create none |
| ChatScreen.GenerateSessionId | assets/js/wland_chat_block_screen.js:137-158 | a truthy fingerprint session is used; otherwise, also when it rejects, a 'temp_' id |
| ChatScreen.Headers | assets/js/wland_chat_block_screen.js:284-294 | always the JSON content type; `X-N8N-Auth` is present exactly when the token is not blank, and carries it |
| ChatScreen.StatusDetails | assets/js/wland_chat_block_screen.js:330-344 | every status text starts 'ERROR '; it is the generic 'ERROR HTTP …' exactly for statuses other than 401, 403, 404, 500, 502, 503 |
| ChatScreen.HttpErrorMatches | assets/js/wland_chat_block_screen.js:330-349 | a status with its own text carries its code in the thrown message |
| ChatScreen.ChooseReply | assets/js/wland_chat_block_screen.js:368-391 | a null body throws on the property read; any reply found is truthy |
| ChatScreen.ReplyAtKey | assets/js/wland_chat_block_screen.js:370-377 | the reply is the property at the first truthy of `output`, `response`, `message`, `text` |
| ChatScreen.ReplyIsString | assets/js/wland_chat_block_screen.js:378-380 | a non-empty string body is its own reply |
| ChatScreen.ReplyMissing | assets/js/wland_chat_block_screen.js:386-391 | `RESPONSE_FORMAT_ERROR` is raised exactly when the body is not null, no field is truthy, it is not a non-empty string and `data.data` is not one |
| ChatScreen.DeliveredFromOk | assets/js/wland_chat_block_screen.js:277-399 | a delivered reply is truthy and comes from an OK response, sent to a non-blank URL, whose body parsed to a value |
| ChatScreen.Rank | assets/js/wland_chat_block_screen.js:412-454 | the eight notice kinds in the order they are checked, the unknown one last |
| ChatScreen.ClassifyFirstMatch | assets/js/wland_chat_block_screen.js:412-454 | a message is classified `k` exactly when it matches `k` (or `k` is the fallback) and matches no kind checked before |
| ChatScreen.ClassifyBefore | assets/js/wland_chat_block_screen.js:412-454 | a message matching `k` is classified `k` or an earlier kind it also matches |
| ChatScreen.RaisedClassification | assets/js/wland_chat_block_screen.js:277-454 | every message `send_message` raises is classified as its cause or earlier, and as its cause when it holds no earlier kind's substring |
| ChatScreen.JsonErrorShadowedByNotFound | assets/js/wland_chat_block_screen.js:360 | a non-JSON body whose first 200 characters hold '404' is reported as a missing webhook, not invalid JSON |
| ChatScreen.FormatErrorShadowedByAuth | assets/js/wland_chat_block_screen.js:390 | a reply without a known field whose keys mention '401' or '403' is reported as an authentication failure |
| ChatScreen.Closing | assets/js/wland_chat_block_screen.js:393-460 | an exchange ends with the reply bubble exactly when it delivered |
| ChatScreen.Remembered | assets/js/wland_chat_block_screen.js:396-399 | the assistant turn is remembered exactly on success, at most one entry |
| ChatScreen.WlandChatScreen.constructor | assets/js/wland_chat_block_screen.js:17-32 | a new screen is closed with an empty history and a null session id |
| ChatScreen.WlandChatScreen.SessionResolved | assets/js/wland_chat_block_screen.js:28-31 | the session id becomes `generate_session_id`'s result; nothing else changes |
| ChatScreen.WlandChatScreen.ToggleChat | assets/js/wland_chat_block_screen.js:179-185 | flips `is_open` and changes nothing else |
| ChatScreen.WlandChatScreen.OpenWindow | assets/js/wland_chat_block_screen.js:192-213 | leaves the screen open |
| ChatScreen.WlandChatScreen.CloseWindow | assets/js/wland_chat_block_screen.js:220-236 | leaves the screen closed |
| ChatScreen.WlandChatScreen.ToggleSendButton | assets/js/wland_chat_block_screen.js:242-245 | the button is disabled exactly when the input is blank |
| ChatScreen.WlandChatScreen.Type | assets/js/wland_chat_block_screen.js:242-245 | the input event stores the text and updates the button |
| ChatScreen.WlandChatScreen.SendMessage | assets/js/wland_chat_block_screen.js:253-462 | a blank input changes nothing; otherwise the user turn is remembered before anything is sent, a request goes out only to a non-blank URL, then the reply (remembered as the assistant turn) or the error notice closes the exchange |
| ChatScreen.WlandChatScreen.Converse | assets/js/wland_chat_block_screen.js:263-462 | past the blank-input guard: the user bubble and turn come first, the input is cleared, and the outcome for the given answer closes the exchange |
| LegacyChatScreen.SessionId | assets/js/wland-chat-block-screen.js:126-128 | the id starts with 'session_' and is never a 64-hex fingerprint id |
| LegacyChatScreen.ServerError | assets/js/wland-chat-block-screen.js:280-282 | the thrown text starts 'Error del servidor: <status> ' |
| LegacyChatScreen.Reply | assets/js/wland-chat-block-screen.js:291-292 | the reply is always truthy |
| LegacyChatScreen.ReplyAtKey | assets/js/wland-chat-block-screen.js:291-292 | the reply is the property at the first truthy of `output`, `response`, `message`, `text` |
| LegacyChatScreen.ReplyFallback | assets/js/wland-chat-block-screen.js:291-292 | with every field falsy the reply is the fixed apology |
| LegacyChatScreen.Answer | assets/js/wland-chat-block-screen.js:262-300 | the exchange delivers exactly when the response is OK and parses to a non-null value |
| LegacyChatScreen.ErrorTextIff | assets/js/wland-chat-block-screen.js:304-314 | the connection text is shown exactly when the error holds 'Failed to fetch', the generic text otherwise |
| LegacyChatScreen.Closing | assets/js/wland-chat-block-screen.js:294-314 | every exchange ends with a bot bubble; on error it is one of the two fixed texts |
| LegacyChatScreen.Remembered | assets/js/wland-chat-block-screen.js:296-300 | the assistant turn is remembered exactly on success |
| LegacyChatScreen.WlandChatScreen.constructor | assets/js/wland-chat-block-screen.js:13-22 | the session id is generated once, the screen closed and the history empty |
| LegacyChatScreen.WlandChatScreen.ToggleChat | assets/js/wland-chat-block-screen.js:149-155 | flips `is_open` and changes nothing else |
| LegacyChatScreen.WlandChatScreen.ToggleSendButton | assets/js/wland-chat-block-screen.js:212-215 | the button is disabled exactly when the input is blank |
| LegacyChatScreen.WlandChatScreen.SendMessage | assets/js/wland-chat-block-screen.js:223-315 | a blank input changes nothing; otherwise the user turn is remembered and the request carries the whole history including it, with the auth header only for a non-blank token; the reply or the error text closes the exchange |
| LegacyChatScreen.WlandChatScreen.Converse | assets/js/wland-chat-block-screen.js:233-315 | past the blank-input guard: one request carrying the history with the new user turn, the user bubble then the closing bubble, and an assistant turn only on success |
| Text.SplitJoin | assets/js/wland_fingerprint.js:172 | splitting a join of separator-free parts gives the parts back |
| Text.NatToStringInjective | assets/js/wland_fingerprint.js:241 | distinct numbers print differently |
| Php.IntvalOfNatString | includes/class_settings.php:884-889 | the text of a non-negative integer reads back as it under `intval` |
| Php.WordComparesExactly | includes/class_settings.php:848-851 | PHP 8's loose `==` between a string and a non-numeric word is string equality |

## Left out

- Where the code and the plugin's description disagree, the model follows the code:
  - the browser's cookie reader applies no 64-hex check (`Fingerprint.CookieValueTrusted`);
  - a hit in localStorage alone does not write the cookie back (`Fingerprint.ReuseWritesNothing`);
  - `clear_session` also removes the consent key (`Fingerprint.ClearResets`).
- Fingerprint.Platform: one `storageEnabled` flag stands for localStorage as a whole: every access either works or throws. A store that can be read but whose `setItem` throws (quota exceeded) is not modelled. So the model does not capture the write failures that `set_session_storage` and `save_current_fingerprint` catch on a readable store, nor an uncaught `setItem` in `save_gdpr_consent` aborting the accept handler after a successful consent read.
- Settings.GetOption: the `default_option_` and `option_` filters are not modelled. The registered defaults are `register_settings`'s, which runs on `admin_init`; the front end reads its options with the defaults written at each call (`Frontend`).
- Concurrency: `init` and the fullscreen client can both call `get_or_create_session` at page load. Only sequential calls are modelled, and each `await` is one atomic step.
- The cookie attributes (Expires, Path, SameSite, Secure) and expiry dates: the browser jar only stores and removes, and the server's `Set-Cookie` keeps only the name, value and expiry time.
- The DOM, `innerHTML`, the consent banner's markup, Lottie, timers, scrolling, focus and `console` logging.
- The network: each exchange is given the webhook's answer as an input.
- The screen client's error bubble: its localised notice texts and its date are not modelled; the model keeps the notice's kind and the thrown message.
- Opaque functions (uninterpreted inputs):
  - `JSON.parse`/`JSON.stringify`/`Object.keys`;
  - SHA-256, in both the browser and `hash('sha256')`;
  - browser signals and canvas/WebGL rendering;
  - `filter_var`, `sanitize_text_field`/`sanitize_textarea_field`, `esc_url`/`esc_attr`.
- `Fingerprint.FreshSnapshotStable` and `Fingerprint.SecondCallStable` require that `JSON.parse` of `JSON.stringify` keeps the four drift fields. The JSON codec is opaque, so this cannot be proved.
- Numbers and PHP values:
  - PHP numeric strings are limited to the integer form; floats and exponents are left out.
  - `get_the_ID()` returning false is not modelled.
  - `PHP_INT_MAX` overflow in `intval` is not modelled.
  - JavaScript numbers in parsed JSON are integers, which is enough for truthiness.
- Frontend.LightenColorShape: PHP's float arithmetic in `lighten_color` is modelled as exact integer floor arithmetic, which takes float truncation to agree with it. The percentage is required to lie in 0-100, as the helper documents. Its only caller passes 20.
- Frontend.DarkenColorShape: the same for `darken_color`, whose only caller (the send button's hover colour) passes 10.
- Translations: `__()` texts, including the registered defaults of the titles and messages, are fixed to the strings written in the source. The availability start/end options are used as text, as the code does.
- `processLinks`: a `"` inside a URL is not escaped in the `href`, as in the code. The model renders the anchor with the URL as it is.
- The `TypeError` message for a property read on a null body uses V8's wording. Fetch rejection messages are browser-specific and are an input.
- ChatScreen.FetchResult: a failing `response.text()` is treated as an empty body, which is what the code then uses.
- ChatScreen.RaisedClassification: does not evaluate the fixed message texts to show that none holds an earlier kind's substring. It states the exact class on the condition that none does.
- `includes/class-frontend.php` duplicates the gating of `includes/class_frontend.php` and is not part of this model.
- The WordPress hook wiring, templates, admin screens, block registration, uninstall and editor scripts hold no decision logic and are not part of this model.
