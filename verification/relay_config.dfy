/** The relay's configuration, read with `getenv` once `.env` is loaded
    (telegram-sender.php:38-44). */
module RelayConfig {
  import opened Wrappers
  import opened PhpStrings

  datatype Config = Config(
    botToken: Option<string>,     // TELEGRAM_BOT_TOKEN; None when getenv gives false
    chatId: Option<string>,       // TELEGRAM_CHAT_ID
    siteDomain: string,           // SITE_DOMAIN; false concatenates as ""
    rateLimit: int,               // RATE_LIMIT_SECONDS
    maxMessageLength: int,        // MAX_MESSAGE_LENGTH
    debugMode: bool,              // DEBUG_MODE
    logSubmissions: bool,         // LOG_SUBMISSIONS
    siteName: string)             // SITE_NAME, read where the message is built

  /** `(int)getenv($key) ?: $default`: an unset variable casts to 0 like any value that is not a
      number, and 0 falls back to the default. */
  function IntSetting(v: Option<string>, default: int): (n: int)
    ensures default != 0 ==> n != 0
    ensures v.Some? && IntCast(v.value) != 0 ==> n == IntCast(v.value)
    ensures v.None? || IntCast(v.value) == 0 ==> n == default
  {
    var cast := if v.Some? then IntCast(v.value) else 0;
    if cast != 0 then cast else default
  }

  /** `getenv($key) === 'true'` */
  predicate FlagSetting(v: Option<string>) {
    v == Some("true")
  }

  /** A `getenv` result is truthy when it is set, non-empty and not "0". */
  predicate IsSet(v: Option<string>) {
    v.Some? && !IsFalsy(v.value)
  }

  function LoadConfig(process: map<string, string>): (cfg: Config)
    ensures cfg.rateLimit != 0 && cfg.maxMessageLength != 0
    ensures cfg.debugMode <==> Get(process, "DEBUG_MODE") == Some("true")
    ensures cfg.logSubmissions <==> Get(process, "LOG_SUBMISSIONS") == Some("true")
  {
    Config(
      Get(process, "TELEGRAM_BOT_TOKEN"),
      Get(process, "TELEGRAM_CHAT_ID"),
      Get(process, "SITE_DOMAIN").GetOr(""),
      IntSetting(Get(process, "RATE_LIMIT_SECONDS"), 30),
      IntSetting(Get(process, "MAX_MESSAGE_LENGTH"), 1000),
      FlagSetting(Get(process, "DEBUG_MODE")),
      FlagSetting(Get(process, "LOG_SUBMISSIONS")),
      Get(process, "SITE_NAME").GetOr(""))
  }

  /** `!$BOT_TOKEN || !$CHAT_ID` fails the configuration gate. */
  predicate HasCredentials(cfg: Config) {
    IsSet(cfg.botToken) && IsSet(cfg.chatId)
  }

  /** The `Access-Control-Allow-Origin` value: any origin in debug mode, otherwise the one
      configured domain over HTTPS. */
  function AllowedOrigin(cfg: Config): (origin: string)
    ensures origin == "*" <==> cfg.debugMode
    ensures !cfg.debugMode ==> "https://" <= origin
  {
    if cfg.debugMode then "*" else "https://" + cfg.siteDomain
  }

  /** Unset, empty, zero or non-numeric settings give the defaults 30 and 1000; a setting that
      is the decimal form of a non-zero 64-bit integer gives that integer. */
  lemma NumericSettings(process: map<string, string>, n: int)
    requires n != 0 && IntMin <= n <= IntMax
    ensures Get(process, "RATE_LIMIT_SECONDS") == Some(IntToString(n)) ==> LoadConfig(process).rateLimit == n
    ensures Get(process, "MAX_MESSAGE_LENGTH") == Some(IntToString(n)) ==> LoadConfig(process).maxMessageLength == n
    ensures (Get(process, "RATE_LIMIT_SECONDS").None? || IntCast(process["RATE_LIMIT_SECONDS"]) == 0)
            ==> LoadConfig(process).rateLimit == 30
    ensures (Get(process, "MAX_MESSAGE_LENGTH").None? || IntCast(process["MAX_MESSAGE_LENGTH"]) == 0)
            ==> LoadConfig(process).maxMessageLength == 1000
  {
    IntCastOfIntToString(n);
  }
}
