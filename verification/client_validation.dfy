/** The browser's checks and result mapping in script.js (lines 29-107): the username check, the
    inline name check, the order of the form's checks and what `sendToTelegram` resolves to. */
module ClientValidation {
  import opened Wrappers
  import opened Text
  import opened Patterns

  // ---------------------------------------------------------------- validateTelegramUsername

  /** `validateTelegramUsername` (script.js:61-75): drop the first "@" (`replace` with a string
      pattern replaces one occurrence), then test the handle pattern. */
  predicate ValidateTelegramUsername(username: string) {
    IsHandle(RemoveFirst(username, '@'))
  }

  /** The check accepts exactly the usernames whose first "@" removed matches the pattern. */
  lemma ValidateMatchesRegex(username: string)
    ensures ValidateTelegramUsername(username) <==> MatchesHandleRegex(RemoveFirst(username, '@'))
  {
    HandleShapeIsRegex(RemoveFirst(username, '@'));
  }

  /** "@username" and "username" are treated alike. */
  lemma AtPrefixIsOptional(handle: string)
    requires '@' !in handle
    ensures ValidateTelegramUsername("@" + handle) <==> ValidateTelegramUsername(handle)
  {
    var s := "@" + handle;
    assert s[0] == '@';
    assert FirstIndex(s, '@') == 0;
    assert s[..0] + s[1..] == handle;
    assert RemoveFirst(s, '@') == handle;
    assert RemoveFirst(handle, '@') == handle;
  }

  /** A second "@" is left in place, and "@" is not a handle character: "@@name" is refused. */
  lemma DoubleAtRefused(handle: string)
    ensures !ValidateTelegramUsername("@@" + handle)
  {
    var s := "@@" + handle;
    assert FirstIndex(s, '@') == 0;
    assert RemoveFirst(s, '@')[0] == '@';
  }

  /** The comment's rule against consecutive underscores is not enforced by the pattern. */
  lemma ConsecutiveUnderscoresAccepted()
    ensures ValidateTelegramUsername("ab__cd")
  {
    assert '@' !in "ab__cd";
  }

  /** An accepted username holds at most one "@", so removing the first "@" removes them all. */
  lemma AcceptedUsernameHasOneAt(username: string)
    requires ValidateTelegramUsername(username)
    ensures multiset(username)['@'] <= 1
    ensures RemoveFirst(username, '@') == RemoveAll(username, '@')
  {
    var clean := RemoveFirst(username, '@');
    HandleHasNoAt(clean);
    var i := FirstIndex(username, '@');
    if i < |username| {
      var before, after := username[..i], username[i + 1..];
      RemoveFirstSplit(username, '@');
      assert '@' !in before + after;
      CountSingle(before, '@', after);
      RemoveAllSingle(before, '@', after);
    }
  }

  /** An accepted username starts with "@" or a letter and ends with "@", a letter or a digit. */
  lemma AcceptedUsernameEnds(username: string)
    requires ValidateTelegramUsername(username)
    ensures |username| >= 5
    ensures username[0] == '@' || IsAsciiLetter(username[0])
    ensures username[|username| - 1] == '@' || IsAsciiAlnum(username[|username| - 1])
  {
    var clean := RemoveFirst(username, '@');
    var i := FirstIndex(username, '@');
    if i < |username| {
      RemoveFirstSplit(username, '@');
      var before, after := username[..i], username[i + 1..];
      assert clean == before + after;
      if i > 0 {
        assert username[0] == before[0] == clean[0];
      }
      if after != [] {
        assert username[|username| - 1] == after[|after| - 1] == clean[|clean| - 1];
      }
    }
  }

  // ---------------------------------------------------------------- the name check

  /** The inline name check (script.js:98): at least two UTF-16 code units, letters and
      JavaScript white space only. There is no upper bound. */
  predicate IsClientName(name: string) {
    Utf16Length(name) >= 2 && MatchesNameRegex(name, IsJsWhitespace)
  }

  /** Every character the name pattern admits is a single UTF-16 unit, so the length test
      counts characters. */
  lemma ClientNameLength(name: string)
    ensures IsClientName(name) <==> |name| >= 2 && MatchesNameRegex(name, IsJsWhitespace)
  {
    if MatchesNameRegex(name, IsJsWhitespace) {
      assert forall i :: 0 <= i < |name| ==> name[i] < '\U{10000}';
    }
  }

  // ---------------------------------------------------------------- the form's checks

  /** How the submit handler leaves its checks (script.js:91-107). */
  datatype ClientVerdict = EmptyFields | BadName | BadHandle | Proceed

  const EmptyFieldsNotice := "Пожалуйста, заполните обязательные поля: Имя и Telegram"
  const BadNameNotice := "Пожалуйста, введите корректное имя (только буквы)"
  const BadHandleNotice := "Пожалуйста, введите корректный Telegram username (например: @username или username)"
  const ThanksNotice := "Спасибо! Ваша заявка отправлена. Мы свяжемся с вами в Telegram в ближайшее время."
  const FailureNotice :=
    "Произошла ошибка при отправке заявки. Попробуйте еще раз или напишите нам в Telegram напрямую."

  /** The checks on the trimmed fields, in order: both present (`!name || !contact`, and only
      the empty string is falsy in JavaScript), the name, the username. */
  function CheckSubmission(name: string, contact: string): (v: ClientVerdict)
    ensures v.EmptyFields? <==> name == "" || contact == ""
    ensures v.BadName? <==> name != "" && contact != "" && !IsClientName(name)
    ensures v.BadHandle? <==> name != "" && contact != "" && IsClientName(name) && !ValidateTelegramUsername(contact)
    ensures v.Proceed? <==> name != "" && contact != "" && IsClientName(name) && ValidateTelegramUsername(contact)
  {
    if name == "" || contact == "" then EmptyFields
    else if !IsClientName(name) then BadName
    else if !ValidateTelegramUsername(contact) then BadHandle
    else Proceed
  }

  /** The error notification for a refused form. */
  function Notice(v: ClientVerdict): string
    requires !v.Proceed?
  {
    match v
    case EmptyFields => EmptyFieldsNotice
    case BadName => BadNameNotice
    case BadHandle => BadHandleNotice
  }

  // ---------------------------------------------------------------- sendToTelegram

  /** What the `fetch` to the relay produced: no usable JSON at all (the network failed, or the
      body did not parse), with the error's message, or a parsed object with its `success` and
      `message` members. */
  datatype BackendAnswer = NoAnswer(error: string) | Answer(success: bool, message: Option<string>)

  datatype SendResult = SendResult(success: bool, message: string)

  const ConnectionErrorPrefix := "Ошибка соединения с сервером: "
  const SentMessage := "Заявка успешно отправлена!"
  const DefaultFailure := "Ошибка отправки"

  /** `sendToTelegram` (script.js:29-58): it never rejects; any failure, including a reply with a
      falsy `success`, becomes a result whose message starts with the connection-error prefix,
      carrying the relay's message or, when that is missing or empty, a default. */
  function SendToTelegram(answer: BackendAnswer): (r: SendResult)
    ensures r.success <==> answer.Answer? && answer.success
    ensures r.success ==> r.message == SentMessage
    ensures !r.success ==> ConnectionErrorPrefix <= r.message
    ensures answer.NoAnswer? ==> r.message == ConnectionErrorPrefix + answer.error
    ensures answer.Answer? && !answer.success && answer.message.Some? && answer.message.value != "" ==>
              r.message == ConnectionErrorPrefix + answer.message.value
    ensures answer.Answer? && !answer.success && (answer.message.None? || answer.message.value == "") ==>
              r.message == ConnectionErrorPrefix + DefaultFailure
  {
    match answer
    case NoAnswer(error) => SendResult(false, ConnectionErrorPrefix + error)
    case Answer(success, message) =>
      if success then SendResult(true, SentMessage)
      else
        var reason := if message.Some? && message.value != "" then message.value else DefaultFailure;
        SendResult(false, ConnectionErrorPrefix + reason)
  }
}
