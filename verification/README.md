# Lead form and Telegram relay, modelled in Dafny

A landing page collects leads through a contact form. The page's script (`script.js`) checks
the name and the Telegram username in the browser, posts the three fields as JSON to a PHP relay,
drives the submit button through its sending and outcome states, shows one notification at a
time, and opens the FAQ accordion one item at a time. The relay (`telegram-sender.php`) loads a
`.env` file, reads its configuration, then passes each request through a fixed chain of gates
(configuration, CORS preflight, method, per-session rate limit, JSON body, required fields,
name, username), escapes and truncates the message, builds an HTML message for the Telegram
Bot API, and maps Telegram's answer to the JSON reply the form reads. A session remembers the
time of its last delivered lead.

The model follows the code where it is quirky, and proves what the quirks lead to:

- The browser removes only the first `@` of the username (`replace` with a string pattern), while
  the relay removes every `@` (`str_replace`). So "@@user1" is refused by the browser and
  accepted by the relay.
- The relay measures the name with `strlen`, which counts UTF-8 bytes. A Cyrillic name is
  therefore limited to 25 letters although the comment speaks of 50 characters. The browser
  sets no upper bound at all.
- The comment in `validateTelegramUsername` forbids consecutive underscores; the pattern
  does not enforce it.
- The relay's handle pattern has no `D` modifier, so its `$` also matches before a final line
  feed. A contact such as "abcde\n@" is forwarded with the handle "abcde\n".
- The 429 message quotes the whole configured window, not the time that is left.
- The stream context of the Telegram call does not set `ignore_errors`, so `file_get_contents`
  gives false on any HTTP error status as well as when there is no answer. A refusal that
  Telegram sends with status 400 or 403 (chat not found, bot blocked, HTML it cannot parse)
  therefore gets status 500 from the relay. Only a successful answer whose `ok` is not truthy
  gets status 200 with `success: false`.
- The session is written only when Telegram accepts the message.
- A `.env` line whose name trims to "" makes `putenv` throw a `ValueError`. The script's
  `catch (Exception $e)` does not catch that error, so the script dies without an answer.

PHP 8 or later is assumed for the relay. There `putenv` throws a `ValueError` on an empty name,
where earlier versions only warned and returned false.

Modules, one per file:

- `wrappers`: Option and map lookup.
- `text`: character classes, trims and `@` removal.
- `utf8`: UTF-8 encoding and decoding, with their round trip.
- `patterns`: the name and username regular expressions.
- `php_strings`: the PHP primitives the relay uses: `empty`, `trim`, `htmlspecialchars`, byte
  `substr`, and the `(int)` cast.
- `env_loader`: `loadEnv`.
- `relay_config`: reading the configuration.
- `relay`: the gates, the message template, the reply, and the session class whose `Handle`
  method runs them step by step.
- `endpoint`: the whole script.
- `relay_properties`: lemmas about the relay.
- `client_validation`: the browser's checks and `sendToTelegram`.
- `notifications`: `showNotification`.
- `contact_form`: the submit handler as a state machine.
- `accordion`: `toggleAccordion`.
- `pipeline`: the browser and the relay together.

## Model

| member | source | states |
|---|---|---|
| Text.TrimIsSlice | telegram-sender.php:101-103 | `trim` keeps one contiguous slice of its input; every character cut from either side belongs to the stripped set |
| Text.JsTrim | script.js:87-89 | `String.prototype.trim` over the JavaScript white-space set; what it keeps is stated by `Text.TrimIsSlice` and `Text.TrimOfTrimmed` |
| Text.RemoveFirstOfSingle | script.js:63 | removing the first "@" and removing every "@" agree on strings with at most one "@" |
| Text.RemoveAllAppend | telegram-sender.php:120 | removing every "@" distributes over concatenation |
| Text.Utf16Length | script.js:98 | `name.length` counts UTF-16 units: between the number of characters and twice that, and equal to it for text inside the Basic Multilingual Plane |
| Utf8.DecodeEncode | telegram-sender.php:113 | decoding the UTF-8 encoding of any string gives the string back, so `strlen` measures the string the relay received |
| Utf8.EncodeTwoByteChars | telegram-sender.php:113 | a string of characters from U+0080 to U+07FF, Cyrillic included, is two bytes per character long |
| Utf8.EncodeAscii | telegram-sender.php:113 | an ASCII string is one byte per character, each byte its own code |
| Utf8.EncodeAvoidsAscii | telegram-sender.php:128-131 | an ASCII byte occurs in an encoding only where its character occurs in the text |
| Patterns.HandleShapeIsRegex | script.js:72 | the direct check accepts exactly the strings `^[a-zA-Z][a-zA-Z0-9_]{3,30}[a-zA-Z0-9]$` matches |
| Patterns.PcreHandleIsRegex | telegram-sender.php:121 | the relay's check accepts exactly what PCRE matches, a handle followed by one final line feed included |
| Patterns.HandleHasNoAt | telegram-sender.php:121 | no handle holds an "@" |
| PhpStrings.HtmlSpecialChars | telegram-sender.php:128 | no quote or angle bracket is left after escaping; text without the five special characters is unchanged |
| PhpStrings.PhpTrim | telegram-sender.php:101-103 | `trim` over " \t\n\r\0\x0B"; what it keeps is stated by `Text.TrimIsSlice` |
| PhpStrings.DecodeEscaped | telegram-sender.php:135-136 | escaping loses nothing: reading the entities back gives the original text |
| PhpStrings.Substr | telegram-sender.php:130 | `substr($b, 0, $n)` is a prefix of exactly `n` bytes when `0 <= n <= strlen`, and leaves off `-n` bytes when `n` is negative |
| PhpStrings.Truncate | telegram-sender.php:129-131 | a message within the limit is unchanged; a longer one keeps its first `max` bytes and gains "..." |
| PhpStrings.Sanitize | telegram-sender.php:127-131 | escape, then cut to the limit with "..."; its properties are `PhpStrings.Truncate`, `PhpStrings.SanitizedHasNoMarkup` and `PhpStrings.DecodeEscaped` |
| PhpStrings.SanitizedHasNoMarkup | telegram-sender.php:127-131 | the sanitized message holds no byte of `"`, `'`, `<` or `>`, even where the cut splits an entity or a character |
| PhpStrings.IntCast | telegram-sender.php:41-42 | the `(int)` cast of any string lies in the 64-bit range |
| PhpStrings.IntCastOfIntToString | telegram-sender.php:41-42 | the cast of the decimal form of any 64-bit integer gives that integer back |
| EnvLoader.SplitAssignment | telegram-sender.php:16-18 | a line is cut at its first "=": the trimmed name before it, the trimmed rest (which may hold "=") after it |
| EnvLoader.SplitLine | telegram-sender.php:16-18 | cuts at the first "=" and trims both halves, as `EnvLoader.SplitAssignment` states |
| EnvLoader.FirstDefinitionSnoc | telegram-sender.php:11-25 | a later line defines a key only if no earlier line did |
| EnvLoader.FirstDefinitionNone | telegram-sender.php:11-25 | a key has no first definition exactly when no line defines it |
| EnvLoader.Loaded | telegram-sender.php:11-25 | the reference for the loop: a key of `$_SERVER` or `$_ENV` keeps its starting value, and a key absent at the end was absent at the start |
| EnvLoader.StepReflects | telegram-sender.php:20-24 | one line sets its key exactly when the key is not protected and not yet defined, and changes nothing else |
| EnvLoader.Unclaimed | telegram-sender.php:20 | the `array_key_exists` test on the stores loaded so far holds exactly when the key was not protected and no earlier line defined it |
| EnvLoader.Environment.LoadEnv | telegram-sender.php:5-26 | the load dies exactly when a line names "" and "" was not already in `$_SERVER` or `$_ENV`; otherwise, in all three stores, a key already in `$_SERVER` or `$_ENV` keeps its value and any other key takes the value of the first line that defines it |
| EnvLoader.Environment.LoadLine | telegram-sender.php:12-24 | one iteration of the loop keeps the three stores in that relation, or dies on an empty name |
| RelayConfig.IntSetting | telegram-sender.php:41-42 | a numeric setting is its cast when that is non-zero and the default otherwise, so it is never 0 |
| RelayConfig.LoadConfig | telegram-sender.php:38-44 | the limits are never 0, and each flag is on exactly when its variable is the string "true" |
| RelayConfig.NumericSettings | telegram-sender.php:41-42 | a setting written as a non-zero integer gives that integer; an unset, zero or non-numeric one gives 30 or 1000 |
| RelayConfig.AllowedOrigin | telegram-sender.php:55-61 | the origin is "*" exactly in debug mode, and otherwise an `https://` origin (the configured domain, as `Relay.Respond` states) |
| Relay.CheckTrimmed | telegram-sender.php:105-131 | the field gates give only field verdicts; a forwarded name is 2 to 50 bytes of letters and white space, the handle matches the pattern and holds no "@", and, when the limit is not negative, the message is at most the limit plus three bytes |
| Relay.Classify | telegram-sender.php:46-125 | a forwarded request had credentials, was a POST outside the rate limit, had a truthy body and passed the field gates |
| Relay.RateLimited | telegram-sender.php:80-83 | a session without a submission counts as time 0; `RelayProperties.RepeatWithinWindow` and `RelayProperties.SuccessesAreSpaced` state what the gate guarantees |
| Relay.IsValidName | telegram-sender.php:113 | the name test; `RelayProperties.CyrillicNameLimit` and `RelayProperties.AsciiNameLimit` state what it admits |
| Relay.StripAt | telegram-sender.php:120 | no "@" is left, and a contact without "@" is unchanged |
| Relay.ClientIp | telegram-sender.php:140 | `X-Forwarded-For` over `REMOTE_ADDR`, as `RelayProperties.ForwardedForReachesText` states |
| Relay.TelegramText | telegram-sender.php:133-140 | the message template, whose contents `RelayProperties.TelegramTextMentions` and `RelayProperties.NoAtInHandleLine` state |
| Relay.Respond | telegram-sender.php:47-200 | the CORS origin is missing only for a configuration failure, and is otherwise "*" in debug mode and "https://" plus the configured domain outside it; a Telegram text is sent exactly for a forwarded request; only a preflight has no body; `success` is true exactly when the lead was forwarded and delivered; the session changes only then, to the request's time |
| Relay.HandleRequest | telegram-sender.php:46-200 | the whole handler, the gates then the answer; `RelayProperties.GateOrder`, `RelayProperties.StatusCodes` and `RelayProperties.SuccessesAreSpaced` state its properties |
| Relay.SanitizeMessage | telegram-sender.php:128-131 | the in-place escape-then-cut gives the sanitized message |
| Relay.Session.Handle | telegram-sender.php:47-99 | the step-by-step handler answers what the gate chain and the answer mapping prescribe, and the session afterwards is the one in that answer |
| Relay.Session.HandleFields | telegram-sender.php:101-103 | reading and trimming the three fields, then the field gates |
| Relay.Session.Validate | telegram-sender.php:105-131 | the field gates in order, then sanitisation |
| Relay.Session.SendMessage | telegram-sender.php:133-200 | the message built piece by piece is the template, and Telegram's answer is mapped as specified, writing the session only on delivery |
| Endpoint.Serve | telegram-sender.php:28-44 | a missing `.env` gives 500 "Configuration error" and changes nothing; the script dies exactly when `loadEnv` does; otherwise the three stores are what `loadEnv` loads (`EnvLoader.Loaded`) and it answers as the handler does, with the configuration read from that environment |
| RelayProperties.GateOrder | telegram-sender.php:46-99 | each early verdict is reached exactly when every earlier gate passed and its own gate failed; past all of them come the field gates |
| RelayProperties.FieldOrder | telegram-sender.php:105-125 | the field verdicts, each exactly under its condition: empty fields, then the name, then the handle |
| RelayProperties.StatusCodes | telegram-sender.php:47-200 | status 200 exactly for a preflight or a forwarded lead for which `file_get_contents` returned a body (with `ok` truthy or not); 400, 405, 429 and 500 each exactly for their gates; 500 also when `file_get_contents` gave false (no answer, or an HTTP error status) |
| RelayProperties.RefusalReported | telegram-sender.php:190-199 | a successful answer whose `ok` is not truthy is reported with Telegram's description only in debug mode, and with "Ошибка отправки в Telegram" otherwise |
| RelayProperties.SessionOnlyOnDelivery | telegram-sender.php:180-182 | the session becomes the request's time on delivery and stays as it was otherwise |
| RelayProperties.RateLimitPrecedesBody | telegram-sender.php:78-99 | a rate-limited request gets the same 429 whatever its body and whatever Telegram would do |
| RelayProperties.TooManyRequestsQuotesWindow | telegram-sender.php:87 | the 429 message contains the configured window |
| RelayProperties.TooManyRequestsIgnoresClock | telegram-sender.php:80-90 | every rate-limited POST gets the same 429 text, the window's, whatever the request's time, the session's last submission and the headers, so it never quotes the time left |
| RelayProperties.RepeatWithinWindow | telegram-sender.php:78-90 | after a delivered lead, a POST less than the window later, with any headers of its own, is refused with 429 and leaves the session alone |
| RelayProperties.SuccessStep | telegram-sender.php:180-182 | an answer is a success exactly when it moves the session to its own time, and only a request outside the window can do that |
| RelayProperties.SuccessesAreSpaced | telegram-sender.php:78-90 | over any sequence of requests, each with its own `$_SERVER`, successive successes are at least the window apart, the first at least the window after the session's last |
| RelayProperties.NameNeedsNoEscaping | telegram-sender.php:135 | a valid name is unchanged by escaping |
| RelayProperties.HandleNeedsNoEscaping | telegram-sender.php:136 | a valid handle is unchanged by escaping |
| RelayProperties.ForwardedFieldsAreClean | telegram-sender.php:128-136 | the forwarded name and handle need no escaping, and the forwarded message holds no markup byte |
| RelayProperties.CyrillicNameLimit | telegram-sender.php:113 | an all-Cyrillic name is valid exactly when it has 1 to 25 letters |
| RelayProperties.AsciiNameLimit | telegram-sender.php:113 | a name of Latin letters and spaces is valid exactly when it has 2 to 50 characters |
| RelayProperties.NoAtInHandleLine | telegram-sender.php:136 | in the message for a forwarded lead, the handle line (label, escaped handle, line feed) holds exactly one "@", the last character of the template's label, even when the handle ends in a line feed |
| RelayProperties.TrailingNewlineHandle | telegram-sender.php:120-121 | "handle\n@" survives `trim` and `str_replace` as "handle\n", which the relay's pattern accepts and the strict pattern refuses |
| RelayProperties.TelegramTextMentions | telegram-sender.php:134-140 | the message contains the escaped name, the "@"-prefixed escaped handle, the message or "Не указано", the date, the site name and the IP |
| RelayProperties.ForwardedForReachesText | telegram-sender.php:140 | an `X-Forwarded-For` header reaches the message as the client sent it |
| ClientValidation.ValidateMatchesRegex | script.js:61-75 | the check accepts exactly the usernames whose first "@" removed matches the pattern |
| ClientValidation.ValidateTelegramUsername | script.js:61-75 | the username check, which `ClientValidation.ValidateMatchesRegex` ties to the pattern |
| ClientValidation.AtPrefixIsOptional | script.js:62-63 | "@name" and "name" are accepted alike |
| ClientValidation.DoubleAtRefused | script.js:63 | a username starting with two "@" is refused |
| ClientValidation.ConsecutiveUnderscoresAccepted | script.js:70-72 | "ab__cd" is accepted, against the comment's rule |
| ClientValidation.AcceptedUsernameHasOneAt | script.js:61-75 | an accepted username holds at most one "@", so removing the first removes them all |
| ClientValidation.AcceptedUsernameEnds | script.js:61-75 | an accepted username has at least five characters, starts with "@" or a letter and ends with "@", a letter or a digit |
| ClientValidation.ClientNameLength | script.js:98 | the UTF-16 length test counts characters, since the name pattern admits only single-unit characters |
| ClientValidation.IsClientName | script.js:98 | the inline name check, which `ClientValidation.ClientNameLength` and `Pipeline.AcceptedNameAtRelay` characterise |
| ClientValidation.CheckSubmission | script.js:91-107 | the checks run in source order, each verdict exactly under its condition: empty fields when a trimmed field is empty; a bad name when both are present and the name fails; a bad username when the name passes and the username fails; otherwise the form proceeds |
| ClientValidation.SendToTelegram | script.js:29-58 | success exactly when the relay's JSON says so, with "Заявка успешно отправлена!"; a failed fetch or parse gives the connection-error prefix and the error's message; a refusal gives the prefix and the relay's message, or "Ошибка отправки" when that is missing or empty |
| Notifications.ToastColor | script.js:189-195 | the background is green exactly for "success", red exactly for "error", and blue for any other type |
| Notifications.ToastOf | script.js:170-197 | the element `showNotification` builds: class "notification notification-" plus the type, and the colour of `Notifications.ToastColor` |
| Notifications.Without | script.js:200-203 | removing an element keeps every other one, and removing one already gone changes nothing |
| Notifications.Notifier.Show | script.js:164-222 | every earlier notification is removed and the new one, with its class and colour, is the only one shown |
| Notifications.Notifier.Dismiss | script.js:199-230 | the timer or a click removes that element only |
| ContactForm.Form.Submit | script.js:82-115 | the fields are trimmed, then checked: a refused form leaves the button alone and shows the first failing check's notice; an accepted one hands over the trimmed fields and puts the button in its sending state |
| ContactForm.Form.Check | script.js:91-115 | on the trimmed fields, the checks decide between refusing with the first failing check's notice as the only notification and handing over exactly those fields with the button sending; the input values are left alone |
| ContactForm.Form.Refuse | script.js:91-107 | a refusal shows its notice as the only notification |
| ContactForm.Form.StartSending | script.js:109-115 | the button saves its label, shows "Отправляется..." and is disabled |
| ContactForm.Form.Settle | script.js:117-148 | on success the button turns green, the form is cleared and the thanks notice is shown; on any failure the button turns red and the failure notice is shown, whatever the relay said |
| ContactForm.Form.TimerFires | script.js:150-158 | the button gets back its saved label, is enabled and turns gold; the fields and the notifications are left alone |
| ContactForm.Label | script.js:113-142 | the button label of each busy phase, kept by the form's invariant |
| ContactForm.OutcomeColor | script.js:124-143 | the button colour of each outcome, kept by the form's invariant |
| Accordion.Flip | script.js:16-25 | both classes of the clicked item toggle, and the icon shows "−" exactly when the item is open |
| Accordion.Toggled | script.js:7-25 | all items after a click, of the same number; `Accordion.OnlyClickedOpens` and `Accordion.AtMostOneOpen` state its properties |
| Accordion.OnlyClickedOpens | script.js:7-25 | after a click an item is open exactly when it is the clicked one and was closed |
| Accordion.AtMostOneOpen | script.js:7-18 | two items are never open together after a click |
| Accordion.ToggleKeepsSync | script.js:7-25 | every item's content and icon stay in step with the item |
| Accordion.ToggleTwice | script.js:16-25 | a second click restores the clicked item and leaves the others closed |
| Accordion.Page.Toggle | script.js:2-26 | the loop closes every other item, then the clicked item is toggled |
| Pipeline.ClientBody | script.js:37-41 | the posted body is truthy and reads back as the three fields |
| Pipeline.ReplyAnswer | script.js:44 | the browser gets no JSON object exactly when the relay sent no body |
| Pipeline.ClientSuccessIffDelivered | script.js:44-57 | the browser reports success exactly when the relay forwarded the lead and Telegram accepted it |
| Pipeline.RefusalReachesClient | script.js:46-57 | every refusal by the relay reaches the browser as the prefix and the relay's own message |
| Pipeline.AcceptedHandleAtRelay | telegram-sender.php:102-121 | a username the browser accepts is unchanged by `trim`, loses the same "@" at both ends of the pipeline, and passes the relay's check |
| Pipeline.NameRegexAtRelay | telegram-sender.php:113 | a name matching the browser's pattern matches the relay's exactly when it holds no U+FEFF |
| Pipeline.AcceptedNameAtRelay | telegram-sender.php:101-117 | a name the browser accepts is unchanged by `trim` and is valid at the relay exactly when it fits in 50 bytes and holds no U+FEFF |
| Pipeline.AcceptedSubmissionAtRelay | telegram-sender.php:101-125 | a submission the browser lets through is forwarded exactly under those two conditions and is otherwise refused for its name; the forwarded handle is the username without its "@" |
| Pipeline.LongCyrillicNameDiverges | telegram-sender.php:113 | 26 Cyrillic letters pass the browser and fail the relay |
| Pipeline.DoubleAtDiverges | telegram-sender.php:120-121 | "@@" and a handle fail the browser and pass the relay |

## Left out

- HTTP itself is not modelled. The `Content-Type`, `Access-Control-Allow-Methods` and
  `Access-Control-Allow-Headers` headers are not modelled. `echo` and `exit` become the
  returned `Response`.
- `error_log` is not modelled. `LOG_SUBMISSIONS` is read but only feeds logging.
- `file()` is not modelled: the lines it returns, with empty lines already dropped, are a
  parameter. A missing file is `None`.
- `time()` and `date()` are not modelled. They become fields of `Request`.
- The call to the Bot API is not modelled: the URL, `http_build_query` and the stream
  context. Its outcome is a parameter with three values:
  - `NoResult`: `file_get_contents` gave false;
  - `Delivered`: a successful answer with a truthy `ok`;
  - `NotOk`: any other successful answer, with its optional `description`.
- HTTP status codes of Telegram's answer are not modelled. Every error status is folded into
  `NoResult`, because without `ignore_errors` the stream wrapper returns false for it.
- Relay.Field: a JSON member that is not a string is treated as absent. `trim` on a number
  would use its text, and on an array it would throw.
- `$response['description']` that is not a string is not modelled.
- Concurrent requests of one session are not modelled, nor the failures of `session_start`.
  Requests are handled one after another.
- PhpStrings.IntCast: exponent and decimal forms ("1e3", "2.5") are cast by their leading
  digits only. PHP reads such strings as floats first.
- Strings are sequences of Unicode scalar values. For the three JSON fields this is exact,
  because `json_decode` accepts only valid UTF-8. Lone UTF-16 surrogates in the browser are not
  modelled.
- Bytes that are not valid UTF-8 elsewhere are not modelled: in the `X-Forwarded-For` and
  `REMOTE_ADDR` headers, in `.env` values such as `SITE_NAME` and `SITE_DOMAIN`, and in
  Telegram's `description`. Each of these is taken to be text.
- The page's DOM is not modelled.
- Of the button's styles, only the background is modelled. Opacity, border colour and text
  colour are left out.
- The notification's inline style and animations are not modelled.
- `console.error` is not modelled.
- Smooth scrolling and the rest of the page script outside the form, the notifications and
  the accordion are not modelled.
- Timers become calls that the caller makes in any order: `TimerFires` and `Dismiss`.
- `form.reset()` is taken to clear the three inputs to "".
- A submit event cannot arrive while the button is disabled, so `Submit` requires the idle
  phase.
- Notifications.ToastColor: a `type` that names an inherited property of a JavaScript object
  (such as "constructor") is given the info colour.
- `response.json()` on a body that is not JSON is modelled only through the parser's message,
  which is a parameter.
- A JSON reply that is not an object is not modelled.
- The accordion's element lookups (`nextElementSibling`, `parentElement`, `querySelector`) are
  assumed to find the elements of a well-formed item. Items are identified by their index.
