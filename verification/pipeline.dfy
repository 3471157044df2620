/** The form and the relay together: the body the browser posts (script.js:37-41), how the
    relay's answer reads in the browser (script.js:44-57), and where the checks on the two sides
    agree and where they part. */
module Pipeline {
  import opened Wrappers
  import opened Text
  import opened Utf8
  import opened Patterns
  import opened PhpStrings
  import opened RelayConfig
  import opened Relay
  import opened ClientValidation
  import opened ContactForm
  import RelayProperties

  /** `JSON.stringify({name, contact, message})` as the relay decodes it: an object of three
      strings, which reads back field by field. */
  function ClientBody(s: Submission): (body: JsonBody)
    ensures IsTruthy(body)
    ensures Field(body, "name") == s.name && Field(body, "contact") == s.contact
    ensures Field(body, "message") == s.message
  {
    var strings := map["name" := s.name, "contact" := s.contact, "message" := s.message];
    assert "name" in strings;
    Container(strings, 0)
  }

  /** `await response.json()` on the relay's answer: the empty body of a preflight does not
      parse, and the browser gets the parser's error `parseError`; every other answer is an
      object with `success` and `message`. */
  function ReplyAnswer(resp: Response, parseError: string): (a: BackendAnswer)
    ensures a.NoAnswer? <==> resp.reply.None?
  {
    match resp.reply
    case None => NoAnswer(parseError)
    case Some(reply) => Answer(reply.success, Some(reply.message))
  }

  /** The browser reports success exactly when the relay forwarded the lead and Telegram
      accepted it. */
  lemma ClientSuccessIffDelivered(cfg: Config, server: map<string, string>, req: Request, last: Option<int>,
                                  v: Verdict, upstream: TelegramOutcome, parseError: string)
    ensures SendToTelegram(ReplyAnswer(Respond(cfg, server, req, last, v, upstream), parseError)).success
            <==> v.Forward? && upstream.Delivered?
  {
  }

  /** Every refusal by the relay reaches the browser as the connection-error prefix followed by
      the relay's own message (every message the relay sends is non-empty, so the default is
      never used). */
  lemma RefusalReachesClient(cfg: Config, server: map<string, string>, req: Request, last: Option<int>,
                             v: Verdict, upstream: TelegramOutcome, parseError: string)
    requires !v.Preflight? && !(v.Forward? && upstream.Delivered?)
    ensures var resp := Respond(cfg, server, req, last, v, upstream);
      resp.reply.Some? &&
      SendToTelegram(ReplyAnswer(resp, parseError)).message == ConnectionErrorPrefix + resp.reply.value.message
  {
    var resp := Respond(cfg, server, req, last, v, upstream);
    assert resp.reply.value.message != "" by {
      if v.TooManyRequests? {
        assert TooManyRequestsText(cfg.rateLimit)[0] == 'С';
      } else if v.Forward? && upstream.NotOk? {
        var m := NotOkMessage(cfg, upstream.description);
        assert m == "Telegram API error: " + upstream.description.GetOr("Unknown error") || m == NotOkText;
        assert m[0] == 'T' || m[0] == 'О';
      }
    }
  }

  /** A username the browser accepts starts and ends with characters `trim` keeps. */
  lemma AcceptedUsernameUntrimmed(contact: string)
    requires ValidateTelegramUsername(contact)
    ensures PhpTrim(contact) == contact
  {
    AcceptedUsernameEnds(contact);
    var first, last := contact[0], contact[|contact| - 1];
    assert !IsPhpTrimChar(first) && !IsPhpTrimChar(last);
    TrimOfTrimmed(contact, IsPhpTrimChar);
  }

  /** A username the browser accepts passes the relay's handle check unchanged in meaning:
      `trim` leaves it alone, and removing every "@" gives what removing the first did. */
  lemma AcceptedHandleAtRelay(contact: string)
    requires ValidateTelegramUsername(contact)
    ensures PhpTrim(contact) == contact
    ensures StripAt(contact) == RemoveFirst(contact, '@') && IsPcreHandle(StripAt(contact))
  {
    AcceptedUsernameUntrimmed(contact);
    AcceptedUsernameHasOneAt(contact);
    var handle := RemoveFirst(contact, '@');
    assert IsHandle(handle);
  }

  /** A character the browser's name pattern admits is admitted by the relay's exactly when it
      is not U+FEFF, the one JavaScript white-space character PCRE's `\s` leaves out. */
  lemma NameCharAtRelay(c: char)
    requires IsNameChar(c, IsJsWhitespace)
    ensures IsNameChar(c, IsPcreSpace) <==> c != '\U{FEFF}'
  {
  }

  /** A string of name characters under JavaScript's `\s` is one under PCRE's exactly when it
      holds no U+FEFF. */
  lemma NameRegexAtRelay(name: string)
    requires MatchesNameRegex(name, IsJsWhitespace)
    ensures MatchesNameRegex(name, IsPcreSpace) <==> '\U{FEFF}' !in name
  {
    if '\U{FEFF}' !in name {
      forall k | 0 <= k < |name| ensures IsNameChar(name[k], IsPcreSpace) {
        NameCharAtRelay(name[k]);
      }
    }
  }

  /** The browser's trim leaves a name the relay's trim leaves alone: an accepted name starts
      and ends with a letter. */
  lemma AcceptedNameUntrimmed(raw: string)
    requires IsClientName(JsTrim(raw))
    ensures PhpTrim(JsTrim(raw)) == JsTrim(raw)
  {
    var name := JsTrim(raw);
    assert name == [] || (!IsJsWhitespace(name[0]) && !IsJsWhitespace(name[|name| - 1]));
    NameUntrimmed(name);
  }

  /** A name the browser accepts that starts and ends outside JavaScript's white space starts
      and ends with a letter, so PHP's `trim` leaves it alone. */
  lemma NameUntrimmed(name: string)
    requires IsClientName(name)
    requires name == [] || (!IsJsWhitespace(name[0]) && !IsJsWhitespace(name[|name| - 1]))
    ensures PhpTrim(name) == name
  {
    var first, last := name[0], name[|name| - 1];
    assert IsNameChar(first, IsJsWhitespace) && IsNameChar(last, IsJsWhitespace);
    NameEndIsKept(first);
    NameEndIsKept(last);
    TrimOfTrimmed(name, IsPhpTrimChar);
  }

  /** A name character that is not JavaScript white space is a letter, which PHP's `trim` keeps. */
  lemma NameEndIsKept(c: char)
    requires IsNameChar(c, IsJsWhitespace) && !IsJsWhitespace(c)
    ensures !IsPhpTrimChar(c)
  {
  }

  /** A trimmed name the browser accepts is left alone by the relay's `trim`, and the relay
      accepts it exactly when it fits in 50 bytes and holds no U+FEFF: the browser has no upper
      bound, and its `\s` admits one character the relay's does not. */
  lemma AcceptedNameAtRelay(raw: string)
    requires IsClientName(JsTrim(raw))
    ensures PhpTrim(JsTrim(raw)) == JsTrim(raw)
    ensures IsValidName(JsTrim(raw)) <==> ByteLength(JsTrim(raw)) <= 50 && '\U{FEFF}' !in JsTrim(raw)
  {
    var name := JsTrim(raw);
    AcceptedNameUntrimmed(raw);
    ClientNameLength(name);
    assert ByteLength(name) >= |name| >= 2;
    NameRegexAtRelay(name);
  }

  /** What the relay makes of a submission the browser let through: its field checks forward it
      exactly when the name fits in 50 bytes and holds no U+FEFF, and otherwise refuse the
      name; a forwarded handle is the username without its "@". */
  lemma AcceptedSubmissionAtRelay(cfg: Config, rawName: string, rawContact: string, message: string)
    requires CheckSubmission(JsTrim(rawName), JsTrim(rawContact)).Proceed?
    ensures var name := JsTrim(rawName);
      var v := CheckFields(cfg, ClientBody(Submission(name, JsTrim(rawContact), message)));
      && (v.Forward? <==> ByteLength(name) <= 50 && '\U{FEFF}' !in name)
      && (!v.Forward? ==> v.InvalidName?)
      && (v.Forward? ==> v.name == name && v.handle == RemoveFirst(JsTrim(rawContact), '@'))
  {
    var name, contact := JsTrim(rawName), JsTrim(rawContact);
    var body := ClientBody(Submission(name, contact, message));
    AcceptedNameAtRelay(rawName);
    AcceptedHandleAtRelay(contact);
    assert !IsFalsy(name) by {
      ClientNameLength(name);
      assert |name| >= 2;
    }
    assert !IsFalsy(contact) by {
      assert |RemoveFirst(contact, '@')| >= 5;
    }
    assert CheckFields(cfg, body) == CheckTrimmed(cfg, name, contact, PhpTrim(message));
  }

  /** A name of 26 Cyrillic letters passes the browser's check and is refused by the relay:
      52 bytes are over its limit. */
  lemma LongCyrillicNameDiverges()
    ensures var name := seq(26, _ => 'а');
      IsClientName(name) && !IsValidName(name)
  {
    var name := seq(26, _ => 'а');
    assert forall i :: 0 <= i < |name| ==> IsCyrillicLetter(name[i]);
    ClientNameLength(name);
    RelayProperties.CyrillicNameLimit(name);
  }

  /** A handle typed with two leading "@" is refused by the browser (only the first "@" is
      removed) and accepted by the relay (every "@" is removed). */
  lemma DoubleAtDiverges(handle: string)
    requires IsHandle(handle)
    ensures !ValidateTelegramUsername("@@" + handle)
    ensures StripAt(PhpTrim("@@" + handle)) == handle && IsPcreHandle(handle)
  {
    DoubleAtRefused(handle);
    DoubleAtStripped(handle);
  }

  /** The relay's `trim` keeps the two "@" and its `str_replace` removes both. */
  lemma DoubleAtStripped(handle: string)
    requires IsHandle(handle)
    ensures StripAt(PhpTrim("@@" + handle)) == handle
  {
    var s := "@@" + handle;
    assert s[|s| - 1] == handle[|handle| - 1];
    TrimOfTrimmed(s, IsPhpTrimChar);
    RemoveAllAppend("@@", handle, '@');
    assert RemoveAll("@@", '@') == [];
    HandleHasNoAt(handle);
  }
}
