/** The legacy `Helpers` class (includes/class-helpers.php). Its display, exclusion, window,
    welcome-message and block-attribute functions have the same bodies as the current class and
    share its definitions; what differs is the configuration without a token and the
    requirements check. */
module LegacyHelpers {
  import opened Wrappers
  import opened Php
  import Helpers

  /** The legacy `get_chat_config()`: no `n8n_auth_token` entry. */
  function GetChatConfig(o: Helpers.Options, clock: Helpers.Clock): Helpers.ChatConfig {
    var c := Helpers.GetChatConfig(o, clock);
    c.(authToken := None)
  }

  /** The legacy configuration is the current one without the token. */
  lemma ConfigWithoutToken(o: Helpers.Options, clock: Helpers.Clock)
    ensures GetChatConfig(o, clock).authToken.None?
    ensures GetChatConfig(o, clock).(authToken := Helpers.GetChatConfig(o, clock).authToken) == Helpers.GetChatConfig(o, clock)
    ensures GetChatConfig(o, clock).isAvailable <==> !Helpers.IsAvailabilityEnabled(o) || Helpers.IsWithinAvailabilityHours(o, clock)
  {
  }

  const RequirementKeys: set<string> := {"php_version", "wp_version", "timezone_support"}

  /** `check_system_requirements()`: `array_filter` keeps the checks that passed. The three
      checks (`version_compare` of PHP against 7.4, of WordPress against 5.8, and
      `class_exists('DateTimeZone')`) are inputs. */
  function CheckSystemRequirements(phpOk: bool, wpOk: bool, timezoneOk: bool): map<string, bool> {
    var all := map["php_version" := phpOk, "wp_version" := wpOk, "timezone_support" := timezoneOk];
    map k | k in all && all[k] :: all[k]
  }

  /** Only passed checks are listed, every listed value is true, and each check is listed
      exactly when it passed. */
  lemma RequirementsListPassed(phpOk: bool, wpOk: bool, timezoneOk: bool)
    ensures var r := CheckSystemRequirements(phpOk, wpOk, timezoneOk);
            r.Keys <= RequirementKeys && (forall k :: k in r ==> r[k]) &&
            ("php_version" in r <==> phpOk) && ("wp_version" in r <==> wpOk) &&
            ("timezone_support" in r <==> timezoneOk)
  {
    var all := map["php_version" := phpOk, "wp_version" := wpOk, "timezone_support" := timezoneOk];
    assert "php_version" in all && "wp_version" in all && "timezone_support" in all;
  }
}
