/** The request handler of telegram-sender.php (lines 46-200): the gates a request passes, the
    text sent to the Telegram Bot API, and the reply the form receives. */
module Relay {
  import opened Wrappers
  import opened Text
  import opened Utf8
  import opened Patterns
  import opened PhpStrings
  import opened RelayConfig

  /** What `json_decode(file_get_contents('php://input'), true)` gives: null for a body that is
      not JSON, a scalar, or an array whose string members are kept by key. */
  datatype JsonBody =
    | Undecodable
    | Scalar(truthy: bool)
    | Container(strings: map<string, string>, otherMembers: nat)

  /** `!$input` fails for null, a falsy scalar and an empty array. */
  predicate IsTruthy(body: JsonBody) {
    match body
    case Undecodable => false
    case Scalar(truthy) => truthy
    case Container(strings, otherMembers) => |strings| + otherMembers > 0
  }

  /** `$input[$key] ?? ''` */
  function Field(body: JsonBody, key: string): string {
    if body.Container? then Get(body.strings, key).GetOr("") else ""
  }

  /** One request: its decoded body, `time()` and `date('d.m.Y H:i:s')`. */
  datatype Request = Request(body: JsonBody, now: int, date: string)

  /** What the call to `sendMessage` came back with. `NoResult`: `file_get_contents` gave false,
      which happens when there is no answer, on a time-out, and on any HTTP error status, since
      the stream context does not set `ignore_errors` (so Telegram's 400 and 403 refusals land
      here). `Delivered`: a successful answer whose `ok` is truthy. `NotOk`: a successful answer
      whose `ok` is not truthy, or whose body is not JSON, with the `description` it may carry. */
  datatype TelegramOutcome = NoResult | Delivered | NotOk(description: Option<string>)

  /** The JSON object echoed to the form. */
  datatype Reply = Reply(success: bool, message: string)

  /** The HTTP answer: its status, the `Access-Control-Allow-Origin` header (absent when the
      script stops before the CORS headers), the JSON body (absent for a preflight), the text
      sent to Telegram (absent when no call was made) and `$_SESSION['last_submission']` after
      the request. */
  datatype Response = Response(
    status: int,
    allowOrigin: Option<string>,
    reply: Option<Reply>,
    telegramText: Option<seq<byte>>,
    session: Option<int>)

  /** How a request leaves the gates: the first gate it fails, or the cleaned fields it is
      forwarded with. */
  datatype Verdict =
    | MissingConfiguration
    | Preflight
    | MethodNotAllowed
    | TooManyRequests
    | InvalidJson
    | MissingFields
    | InvalidName
    | InvalidHandle
    | Forward(name: string, handle: string, message: seq<byte>)

  const MissingConfigurationText := "Missing configuration"
  const MethodNotAllowedText := "Method not allowed"
  const InvalidJsonText := "Invalid JSON"
  const MissingFieldsText := "Имя и Telegram обязательны"
  const InvalidNameText := "Некорректное имя"
  const InvalidHandleText := "Некорректный Telegram username"
  const NoResultText := "Ошибка отправки сообщения"
  const DeliveredText := "Заявка успешно отправлена"
  const NotOkText := "Ошибка отправки в Telegram"
  const NoMessageText := "Не указано"

  /** The 429 message quotes the whole configured window, not the time left in it. */
  function TooManyRequestsText(rateLimit: int): string {
    "Слишком много запросов. Попробуйте через " + IntToString(rateLimit) + " секунд."
  }

  /** The message for an answer Telegram did not accept: its description in debug mode. */
  function NotOkMessage(cfg: Config, description: Option<string>): string {
    if cfg.debugMode then "Telegram API error: " + description.GetOr("Unknown error") else NotOkText
  }

  function RequestMethod(server: map<string, string>): Option<string> {
    Get(server, "REQUEST_METHOD")
  }

  /** `$_SERVER['HTTP_X_FORWARDED_FOR'] ?? $_SERVER['REMOTE_ADDR']`; a missing address
      concatenates as "". */
  function ClientIp(server: map<string, string>): string {
    match Get(server, "HTTP_X_FORWARDED_FOR")
    case Some(ip) => ip
    case None => Get(server, "REMOTE_ADDR").GetOr("")
  }

  /** `$now - $last_submission < $RATE_LIMIT`, a session without a submission counting as 0. */
  predicate RateLimited(cfg: Config, now: int, last: Option<int>) {
    now - last.GetOr(0) < cfg.rateLimit
  }

  /** 2 to 50 bytes (`strlen`), and `/^[а-яёА-ЯЁa-zA-Z\s]+$/u`. */
  predicate IsValidName(name: string) {
    2 <= ByteLength(name) <= 50 && MatchesNameRegex(name, IsPcreSpace)
  }

  /** `str_replace('@', '', $contact)` */
  function StripAt(contact: string): (handle: string)
    ensures '@' !in handle && |handle| <= |contact|
    ensures '@' !in contact ==> handle == contact
  {
    RemoveAll(contact, '@')
  }

  /** The gates that look at the request's fields, once the body decoded to something truthy:
      each field is read and trimmed. */
  function CheckFields(cfg: Config, body: JsonBody): Verdict {
    CheckTrimmed(cfg, PhpTrim(Field(body, "name")), PhpTrim(Field(body, "contact")),
                 PhpTrim(Field(body, "message")))
  }

  /** Both fields present, then the name, then the handle; the message is escaped and cut. */
  function CheckTrimmed(cfg: Config, name: string, contact: string, message: string): (v: Verdict)
    ensures v.MissingFields? || v.InvalidName? || v.InvalidHandle? || v.Forward?
    ensures v.Forward? ==> IsValidName(v.name) && IsPcreHandle(v.handle) && '@' !in v.handle
    ensures v.Forward? && cfg.maxMessageLength >= 0 ==> |v.message| <= cfg.maxMessageLength + 3
  {
    if IsFalsy(name) || IsFalsy(contact) then MissingFields
    else if !IsValidName(name) then InvalidName
    else if !IsPcreHandle(StripAt(contact)) then InvalidHandle
    else Forward(name, StripAt(contact), Sanitize(message, cfg.maxMessageLength))
  }

  /** The gates in the order the script applies them. */
  function Classify(cfg: Config, server: map<string, string>, req: Request, last: Option<int>): (v: Verdict)
    ensures v.Forward? ==> HasCredentials(cfg) && RequestMethod(server) == Some("POST")
    ensures v.Forward? ==> !RateLimited(cfg, req.now, last) && IsTruthy(req.body)
    ensures v.Forward? ==> IsValidName(v.name) && IsPcreHandle(v.handle) && '@' !in v.handle
  {
    if !HasCredentials(cfg) then MissingConfiguration
    else if RequestMethod(server) == Some("OPTIONS") then Preflight
    else if RequestMethod(server) != Some("POST") then MethodNotAllowed
    else if RateLimited(cfg, req.now, last) then TooManyRequests
    else if !IsTruthy(req.body) then InvalidJson
    else CheckFields(cfg, req.body)
  }

  /** `$message ?: 'Не указано'` */
  function MessageOrPlaceholder(message: seq<byte>): seq<byte> {
    if IsFalsyBytes(message) then Encode(NoMessageText) else message
  }

  // The fixed pieces of the message template (telegram-sender.php:134-140).
  const Heading := "\U{1F680} <b>Новая заявка с сайта LeadBoost!</b>\n\n"
  const NameLabel := "\U{1F464} <b>Имя:</b> "
  const HandleLabel := "\U{1F4F1} <b>Telegram:</b> @"
  const MessageLabel := "\U{1F4AC} <b>Сообщение:</b> "
  const DateLabel := "\U{1F4C5} <b>Дата:</b> "
  const SourceLabel := "\U{1F310} <b>Источник:</b> "
  const IpLabel := "\U{1F517} <b>IP:</b> "

  /** The part of the message before the sanitized message. */
  function TextHead(name: string, handle: string): string {
    Heading
    + NameLabel + HtmlSpecialChars(name) + "\n"
    + HandleLabel + HtmlSpecialChars(handle) + "\n"
    + MessageLabel
  }

  /** The part of the message after the sanitized message. */
  function TextTail(date: string, siteName: string, ip: string): string {
    "\n\n"
    + DateLabel + date + "\n"
    + SourceLabel + siteName + "\n"
    + IpLabel + ip
  }

  /** The HTML message sent to Telegram, as the bytes PHP concatenates: the template's text is
      UTF-8, while the sanitized message may end inside a character cut by `substr`. */
  function TelegramText(name: string, handle: string, message: seq<byte>, date: string,
                        siteName: string, ip: string): seq<byte> {
    Encode(TextHead(name, handle)) + MessageOrPlaceholder(message) + Encode(TextTail(date, siteName, ip))
  }

  /** The answer for a request that left the gates with verdict `v`. */
  function Respond(cfg: Config, server: map<string, string>, req: Request, last: Option<int>,
                   v: Verdict, upstream: TelegramOutcome): (r: Response)
    ensures r.allowOrigin.None? <==> v.MissingConfiguration?
    ensures !v.MissingConfiguration? ==>
              r.allowOrigin == Some(if cfg.debugMode then "*" else "https://" + cfg.siteDomain)
    ensures r.telegramText.Some? <==> v.Forward?
    ensures r.reply.None? <==> v.Preflight?
    ensures (r.reply.Some? && r.reply.value.success) <==> (v.Forward? && upstream.Delivered?)
    ensures r.session != last ==> r.session == Some(req.now) && v.Forward? && upstream.Delivered?
  {
    var origin := Some(AllowedOrigin(cfg));
    match v
    case MissingConfiguration => Response(500, None, Some(Reply(false, MissingConfigurationText)), None, last)
    case Preflight => Response(200, origin, None, None, last)
    case MethodNotAllowed => Response(405, origin, Some(Reply(false, MethodNotAllowedText)), None, last)
    case TooManyRequests =>
      Response(429, origin, Some(Reply(false, TooManyRequestsText(cfg.rateLimit))), None, last)
    case InvalidJson => Response(400, origin, Some(Reply(false, InvalidJsonText)), None, last)
    case MissingFields => Response(400, origin, Some(Reply(false, MissingFieldsText)), None, last)
    case InvalidName => Response(400, origin, Some(Reply(false, InvalidNameText)), None, last)
    case InvalidHandle => Response(400, origin, Some(Reply(false, InvalidHandleText)), None, last)
    case Forward(name, handle, message) =>
      var text := TelegramText(name, handle, message, req.date, cfg.siteName, ClientIp(server));
      match upstream
      case NoResult => Response(500, origin, Some(Reply(false, NoResultText)), Some(text), last)
      case Delivered => Response(200, origin, Some(Reply(true, DeliveredText)), Some(text), Some(req.now))
      case NotOk(description) =>
        Response(200, origin, Some(Reply(false, NotOkMessage(cfg, description))), Some(text), last)
  }

  /** The whole handler for a request once the configuration is read. */
  function HandleRequest(cfg: Config, server: map<string, string>, req: Request, last: Option<int>,
                 upstream: TelegramOutcome): Response {
    Respond(cfg, server, req, last, Classify(cfg, server, req, last), upstream)
  }

  /** The sanitisation step at telegram-sender.php:128-131. */
  method SanitizeMessage(message: string, max: int) returns (bytes: seq<byte>)
    ensures bytes == Sanitize(message, max)
  {
    bytes := Encode(HtmlSpecialChars(message));
    if |bytes| > max {
      bytes := Substr(bytes, max) + Ellipsis;
    }
  }

  /** The PHP session of one client: the time of its last forwarded submission. */
  class Session {
    var lastSubmission: Option<int>

    constructor (lastSubmission: Option<int>)
      ensures this.lastSubmission == lastSubmission
    {
      this.lastSubmission := lastSubmission;
    }

    /** Runs the handler for one request, step by step as the script does, updating the
        session only when Telegram accepted the message. */
    method Handle(cfg: Config, server: map<string, string>, req: Request, upstream: TelegramOutcome)
      returns (resp: Response)
      modifies this
      ensures resp == HandleRequest(cfg, server, req, old(lastSubmission), upstream)
      ensures lastSubmission == resp.session
    {
      if !HasCredentials(cfg) {
        return Response(500, None, Some(Reply(false, MissingConfigurationText)), None, lastSubmission);
      }
      var origin := Some(AllowedOrigin(cfg));
      var verb := RequestMethod(server);
      if verb == Some("OPTIONS") {
        return Response(200, origin, None, None, lastSubmission);
      }
      if verb != Some("POST") {
        return Response(405, origin, Some(Reply(false, MethodNotAllowedText)), None, lastSubmission);
      }
      var last := lastSubmission.GetOr(0);
      if req.now - last < cfg.rateLimit {
        return Response(429, origin, Some(Reply(false, TooManyRequestsText(cfg.rateLimit))), None, lastSubmission);
      }
      if !IsTruthy(req.body) {
        return Response(400, origin, Some(Reply(false, InvalidJsonText)), None, lastSubmission);
      }
      assert Classify(cfg, server, req, lastSubmission) == CheckFields(cfg, req.body);
      resp := HandleFields(cfg, server, req, upstream);
    }

    /** The part of `Handle` after the JSON check: reading and trimming the fields. */
    method HandleFields(cfg: Config, server: map<string, string>, req: Request, upstream: TelegramOutcome)
      returns (resp: Response)
      modifies this
      ensures resp == Respond(cfg, server, req, old(lastSubmission), CheckFields(cfg, req.body), upstream)
      ensures lastSubmission == resp.session
    {
      var name := PhpTrim(Field(req.body, "name"));
      var contact := PhpTrim(Field(req.body, "contact"));
      var message := PhpTrim(Field(req.body, "message"));
      resp := Validate(cfg, server, req, upstream, name, contact, message);
    }

    /** The field checks, from `empty` to the handle pattern, then the sanitisation. */
    method Validate(cfg: Config, server: map<string, string>, req: Request, upstream: TelegramOutcome,
                    name: string, contact: string, message: string)
      returns (resp: Response)
      modifies this
      ensures resp == Respond(cfg, server, req, old(lastSubmission), CheckTrimmed(cfg, name, contact, message), upstream)
      ensures lastSubmission == resp.session
    {
      var origin := Some(AllowedOrigin(cfg));
      if IsFalsy(name) || IsFalsy(contact) {
        return Response(400, origin, Some(Reply(false, MissingFieldsText)), None, lastSubmission);
      }
      if ByteLength(name) < 2 || ByteLength(name) > 50 || !MatchesNameRegex(name, IsPcreSpace) {
        return Response(400, origin, Some(Reply(false, InvalidNameText)), None, lastSubmission);
      }
      var handle := RemoveAll(contact, '@');
      if !IsPcreHandle(handle) {
        return Response(400, origin, Some(Reply(false, InvalidHandleText)), None, lastSubmission);
      }
      var sanitized := SanitizeMessage(message, cfg.maxMessageLength);
      resp := SendMessage(cfg, server, req, upstream, name, handle, sanitized);
    }

    /** Builds the message, calls Telegram and maps its answer (telegram-sender.php:133-200). */
    method SendMessage(cfg: Config, server: map<string, string>, req: Request, upstream: TelegramOutcome,
                       name: string, handle: string, message: seq<byte>)
      returns (resp: Response)
      modifies this
      ensures resp == Respond(cfg, server, req, old(lastSubmission), Forward(name, handle, message), upstream)
      ensures lastSubmission == resp.session
    {
      var origin := Some(AllowedOrigin(cfg));
      var head := Heading;
      head := head + NameLabel + HtmlSpecialChars(name) + "\n";
      head := head + HandleLabel + HtmlSpecialChars(handle) + "\n";
      head := head + MessageLabel;
      var tail := "\n\n";
      tail := tail + DateLabel + req.date + "\n";
      tail := tail + SourceLabel + cfg.siteName + "\n";
      tail := tail + IpLabel + ClientIp(server);
      var text := Encode(head) + MessageOrPlaceholder(message) + Encode(tail);
      assert text == TelegramText(name, handle, message, req.date, cfg.siteName, ClientIp(server));
      ghost var verdict := Forward(name, handle, message);

      match upstream {
        case NoResult =>
          resp := Response(500, origin, Some(Reply(false, NoResultText)), Some(text), lastSubmission);
          assert resp == Respond(cfg, server, req, old(lastSubmission), verdict, upstream);
        case Delivered =>
          lastSubmission := Some(req.now);
          resp := Response(200, origin, Some(Reply(true, DeliveredText)), Some(text), lastSubmission);
          assert resp == Respond(cfg, server, req, old(lastSubmission), verdict, upstream);
        case NotOk(description) =>
          var error := description.GetOr("Unknown error");
          var reply := if cfg.debugMode then "Telegram API error: " + error else NotOkText;
          resp := Response(200, origin, Some(Reply(false, reply)), Some(text), lastSubmission);
          assert resp == Respond(cfg, server, req, old(lastSubmission), verdict, upstream);
      }
    }
  }
}
