/** What the relay handler guarantees: the order of its gates, its status codes, the rate limit
    and the session, and what reaches the Telegram message. */
module RelayProperties {
  import opened Wrappers
  import opened Text
  import opened Utf8
  import opened Patterns
  import opened PhpStrings
  import opened RelayConfig
  import opened Relay

  // ---------------------------------------------------------------- gates and answers

  /** Each early verdict is reached exactly when every earlier gate passed and its own failed;
      a POST within the rate limit with a truthy body goes on to the field checks. */
  lemma GateOrder(cfg: Config, server: map<string, string>, req: Request, last: Option<int>)
    ensures Classify(cfg, server, req, last).MissingConfiguration? <==> !HasCredentials(cfg)
    ensures Classify(cfg, server, req, last).Preflight? <==>
      HasCredentials(cfg) && RequestMethod(server) == Some("OPTIONS")
    ensures Classify(cfg, server, req, last).MethodNotAllowed? <==>
      HasCredentials(cfg) && RequestMethod(server) != Some("OPTIONS") && RequestMethod(server) != Some("POST")
    ensures Classify(cfg, server, req, last).TooManyRequests? <==>
      HasCredentials(cfg) && RequestMethod(server) == Some("POST") && RateLimited(cfg, req.now, last)
    ensures Classify(cfg, server, req, last).InvalidJson? <==>
      && HasCredentials(cfg) && RequestMethod(server) == Some("POST") && !RateLimited(cfg, req.now, last)
      && !IsTruthy(req.body)
    ensures (&& HasCredentials(cfg) && RequestMethod(server) == Some("POST") && !RateLimited(cfg, req.now, last)
             && IsTruthy(req.body))
            ==> Classify(cfg, server, req, last) == CheckFields(cfg, req.body)
  {
  }

  /** The field checks in order: presence of both fields, the name, the handle. */
  lemma FieldOrder(cfg: Config, name: string, contact: string, message: string)
    ensures CheckTrimmed(cfg, name, contact, message).MissingFields? <==> IsFalsy(name) || IsFalsy(contact)
    ensures CheckTrimmed(cfg, name, contact, message).InvalidName? <==>
      !IsFalsy(name) && !IsFalsy(contact) && !IsValidName(name)
    ensures CheckTrimmed(cfg, name, contact, message).InvalidHandle? <==>
      !IsFalsy(name) && !IsFalsy(contact) && IsValidName(name) && !IsPcreHandle(StripAt(contact))
    ensures CheckTrimmed(cfg, name, contact, message).Forward? <==>
      !IsFalsy(name) && !IsFalsy(contact) && IsValidName(name) && IsPcreHandle(StripAt(contact))
  {
  }

  /** The status code of every answer. A 2xx answer from Telegram whose `ok` is not truthy is
      still answered 200, with `success` false; a call for which `file_get_contents` gave false
      (no answer, or an HTTP error status) gives 500 after the gates. */
  lemma StatusCodes(cfg: Config, server: map<string, string>, req: Request, last: Option<int>,
                    v: Verdict, upstream: TelegramOutcome)
    ensures Respond(cfg, server, req, last, v, upstream).status == 200 <==>
      v.Preflight? || (v.Forward? && !upstream.NoResult?)
    ensures Respond(cfg, server, req, last, v, upstream).status == 400 <==>
      v.InvalidJson? || v.MissingFields? || v.InvalidName? || v.InvalidHandle?
    ensures Respond(cfg, server, req, last, v, upstream).status == 405 <==> v.MethodNotAllowed?
    ensures Respond(cfg, server, req, last, v, upstream).status == 429 <==> v.TooManyRequests?
    ensures Respond(cfg, server, req, last, v, upstream).status == 500 <==>
      v.MissingConfiguration? || (v.Forward? && upstream.NoResult?)
  {
  }

  /** A 2xx answer whose `ok` is not truthy is reported with Telegram's own description only in
      debug mode. */
  lemma RefusalReported(cfg: Config, server: map<string, string>, req: Request, last: Option<int>,
                        v: Verdict, description: Option<string>)
    requires v.Forward?
    ensures Respond(cfg, server, req, last, v, NotOk(description)).reply ==
      Some(Reply(false, if cfg.debugMode then "Telegram API error: " + description.GetOr("Unknown error")
                        else NotOkText))
  {
  }

  // ---------------------------------------------------------------- rate limit and session

  /** The session is written by a delivered message and by nothing else. */
  lemma SessionOnlyOnDelivery(cfg: Config, server: map<string, string>, req: Request, last: Option<int>,
                              v: Verdict, upstream: TelegramOutcome)
    ensures Respond(cfg, server, req, last, v, upstream).session ==
      if v.Forward? && upstream.Delivered? then Some(req.now) else last
  {
  }

  /** A rate-limited request is answered before its body is looked at: two requests at the same
      time with any bodies, dates and upstream behaviour get the same 429. */
  lemma RateLimitPrecedesBody(cfg: Config, server: map<string, string>, req: Request, other: Request,
                              last: Option<int>, upstream: TelegramOutcome, otherUpstream: TelegramOutcome)
    requires HasCredentials(cfg) && RequestMethod(server) == Some("POST")
    requires RateLimited(cfg, req.now, last) && other.now == req.now
    ensures HandleRequest(cfg, server, req, last, upstream) == HandleRequest(cfg, server, other, last, otherUpstream)
    ensures HandleRequest(cfg, server, req, last, upstream).status == 429
  {
    assert Classify(cfg, server, req, last) == TooManyRequests;
    assert Classify(cfg, server, other, last) == TooManyRequests;
  }

  /** The 429 message quotes the configured window itself. */
  lemma TooManyRequestsQuotesWindow(rateLimit: int)
    ensures Contains(TooManyRequestsText(rateLimit), IntToString(rateLimit))
  {
    ContainsMiddle("Слишком много запросов. Попробуйте через ", IntToString(rateLimit), " секунд.");
  }

  /** Every 429 carries the same text, the window's, whatever the clock, the session's last
      submission and the request: it never tells how much of the window is left. */
  lemma TooManyRequestsIgnoresClock(cfg: Config, server: map<string, string>, req: Request, last: Option<int>,
                                    upstream: TelegramOutcome, server2: map<string, string>, req2: Request,
                                    last2: Option<int>, upstream2: TelegramOutcome)
    requires HasCredentials(cfg)
    requires RequestMethod(server) == Some("POST") && RateLimited(cfg, req.now, last)
    requires RequestMethod(server2) == Some("POST") && RateLimited(cfg, req2.now, last2)
    ensures HandleRequest(cfg, server, req, last, upstream).reply == Some(Reply(false, TooManyRequestsText(cfg.rateLimit)))
    ensures HandleRequest(cfg, server, req, last, upstream).reply ==
            HandleRequest(cfg, server2, req2, last2, upstream2).reply
  {
    assert Classify(cfg, server, req, last) == TooManyRequests;
    assert Classify(cfg, server2, req2, last2) == TooManyRequests;
  }

  /** After a delivered submission, any POST from the same session less than the window later,
      whatever its headers, is refused with 429, and the session keeps the first time. */
  lemma RepeatWithinWindow(cfg: Config, server: map<string, string>, first: Request, last: Option<int>,
                           upstream: TelegramOutcome, server2: map<string, string>, second: Request,
                           upstream2: TelegramOutcome)
    requires HandleRequest(cfg, server, first, last, upstream).reply == Some(Reply(true, DeliveredText))
    requires RequestMethod(server2) == Some("POST")
    requires second.now - first.now < cfg.rateLimit
    ensures var r := HandleRequest(cfg, server, first, last, upstream);
      && HandleRequest(cfg, server2, second, r.session, upstream2).status == 429
      && HandleRequest(cfg, server2, second, r.session, upstream2).reply ==
         Some(Reply(false, TooManyRequestsText(cfg.rateLimit)))
      && HandleRequest(cfg, server2, second, r.session, upstream2).session == Some(first.now)
  {
    var v := Classify(cfg, server, first, last);
    SessionOnlyOnDelivery(cfg, server, first, last, v, upstream);
    var session := Some(first.now);
    assert Classify(cfg, server2, second, session) == TooManyRequests;
  }

  /** The times of the successful answers when the requests of `trace`, each with its own
      `$_SERVER`, are handled one after another against one session that starts at `last`. */
  function SuccessTimes(cfg: Config, trace: seq<(map<string, string>, Request, TelegramOutcome)>,
                        last: Option<int>): seq<int>
    decreases |trace|
  {
    if trace == [] then []
    else
      var (server, req, upstream) := trace[0];
      var r := HandleRequest(cfg, server, req, last, upstream);
      var rest := SuccessTimes(cfg, trace[1..], r.session);
      if r.reply.Some? && r.reply.value.success then [req.now] + rest else rest
  }

  /** One request's answer is a success exactly when it moves the session to its own time, and
      only a request past the window can do so. */
  lemma SuccessStep(cfg: Config, server: map<string, string>, req: Request, last: Option<int>,
                    upstream: TelegramOutcome)
    ensures var r := HandleRequest(cfg, server, req, last, upstream);
      if r.reply.Some? && r.reply.value.success
      then r.session == Some(req.now) && !RateLimited(cfg, req.now, last)
      else r.session == last
  {
    var v := Classify(cfg, server, req, last);
    SessionOnlyOnDelivery(cfg, server, req, last, v, upstream);
  }

  /** The times in `s` are each at least `gap` after the one before, the first at least `gap`
      after `start`. */
  ghost predicate Spaced(s: seq<int>, start: int, gap: int) {
    && (|s| > 0 ==> s[0] - start >= gap)
    && forall i :: 0 <= i < |s| - 1 ==> s[i + 1] - s[i] >= gap
  }

  /** A time `gap` after `start` can be put in front of times spaced from it. */
  lemma SpacedCons(t: int, rest: seq<int>, start: int, gap: int)
    requires t - start >= gap && Spaced(rest, t, gap)
    ensures Spaced([t] + rest, start, gap)
  {
    var s := [t] + rest;
    forall i | 0 <= i < |s| - 1 ensures s[i + 1] - s[i] >= gap {
      if i > 0 {
        assert s[i] == rest[i - 1] && s[i + 1] == rest[i];
      }
    }
  }

  /** Whatever the clock, the headers of each request and Telegram do, successive successful submissions from one session are
      at least the window apart, and the first is at least the window after the session's last
      submission (0 for a fresh session). */
  lemma {:induction false} SuccessesAreSpaced(cfg: Config, trace: seq<(map<string, string>, Request, TelegramOutcome)>,
                                              last: Option<int>)
    ensures Spaced(SuccessTimes(cfg, trace, last), last.GetOr(0), cfg.rateLimit)
  {
    if trace != [] {
      var (server, req, upstream) := trace[0];
      var r := HandleRequest(cfg, server, req, last, upstream);
      SuccessStep(cfg, server, req, last, upstream);
      SuccessesAreSpaced(cfg, trace[1..], r.session);
      if r.reply.Some? && r.reply.value.success {
        SpacedCons(req.now, SuccessTimes(cfg, trace[1..], r.session), last.GetOr(0), cfg.rateLimit);
      }
    }
  }

  // ---------------------------------------------------------------- the forwarded fields

  /** Letters and white space need no escaping. */
  lemma NameNeedsNoEscaping(name: string)
    requires MatchesNameRegex(name, IsPcreSpace)
    ensures HtmlSpecialChars(name) == name
  {
    assert forall i :: 0 <= i < |name| ==> !IsHtmlSpecial(name[i]);
  }

  /** Letters, digits, "_" and a line feed need no escaping. */
  lemma HandleNeedsNoEscaping(handle: string)
    requires IsPcreHandle(handle)
    ensures HtmlSpecialChars(handle) == handle
  {
    if IsHandle(handle) {
      HandleIsPlain(handle);
    } else {
      var h := handle[..|handle| - 1];
      HandleIsPlain(h);
      forall i | 0 <= i < |handle| ensures !IsHtmlSpecial(handle[i]) {
        if i < |handle| - 1 {
          assert handle[i] == h[i];
        }
      }
    }
  }

  /** A handle is letters, digits and "_", none of them special to HTML. */
  lemma HandleIsPlain(handle: string)
    requires IsHandle(handle)
    ensures forall i :: 0 <= i < |handle| ==> !IsHtmlSpecial(handle[i])
  {
    forall i | 0 <= i < |handle| ensures !IsHtmlSpecial(handle[i]) {
      if 0 < i < |handle| - 1 {
        assert IsWordChar(handle[i]);
      }
    }
  }

  /** A forwarded name and handle come out of `htmlspecialchars` unchanged, and the forwarded
      message holds no byte of `"`, `'`, `<` or `>`. */
  lemma ForwardedFieldsAreClean(cfg: Config, name: string, contact: string, message: string)
    requires CheckTrimmed(cfg, name, contact, message).Forward?
    ensures var v := CheckTrimmed(cfg, name, contact, message);
      && HtmlSpecialChars(v.name) == v.name
      && HtmlSpecialChars(v.handle) == v.handle
      && forall k :: 0 <= k < |v.message| ==>
           v.message[k] != '"' as int && v.message[k] != '\'' as int
           && v.message[k] != '<' as int && v.message[k] != '>' as int
  {
    var v := CheckTrimmed(cfg, name, contact, message);
    NameNeedsNoEscaping(v.name);
    HandleNeedsNoEscaping(v.handle);
    SanitizedHasNoMarkup(message, cfg.maxMessageLength);
  }

  /** A name made of Cyrillic letters takes two bytes a letter, so the relay's 50-byte limit lets
      through at most 25 of them. */
  lemma CyrillicNameLimit(name: string)
    requires forall i :: 0 <= i < |name| ==> IsCyrillicLetter(name[i])
    ensures IsValidName(name) <==> 1 <= |name| <= 25
  {
    EncodeTwoByteChars(name);
  }

  /** A name of ASCII letters and spaces is valid exactly when it has 2 to 50 characters. */
  lemma AsciiNameLimit(name: string)
    requires forall i :: 0 <= i < |name| ==> IsAsciiLetter(name[i]) || name[i] == ' '
    ensures IsValidName(name) <==> 2 <= |name| <= 50
  {
    EncodeAscii(name);
  }

  /** The handle label ends in the template's "@" and holds no other. */
  lemma HandleLabelAt()
    ensures |HandleLabel| > 0 && HandleLabel[|HandleLabel| - 1] == '@'
    ensures '@' !in HandleLabel[..|HandleLabel| - 1]
  {
    assert HandleLabel[..|HandleLabel| - 1] == "\U{1F4F1} <b>Telegram:</b> ";
  }

  /** After the label, a text without "@" adds none. */
  lemma OnlyLabelAt(h: string)
    requires '@' !in h
    ensures var line := HandleLabel + h + "\n";
      forall i :: 0 <= i < |line| && line[i] == '@' ==> i == |HandleLabel| - 1
  {
    HandleLabelAt();
    var head := HandleLabel[..|HandleLabel| - 1];
    var rest := h + "\n";
    var line := HandleLabel + h + "\n";
    assert line == head + ['@'] + rest;
  }

  /** The handle line of the message for a forwarded lead holds one "@": the template's own, at
      the end of its label. This covers a handle that ends in a line feed. */
  lemma NoAtInHandleLine(cfg: Config, name: string, contact: string, message: string)
    requires CheckTrimmed(cfg, name, contact, message).Forward?
    ensures var line := HandleLabel + HtmlSpecialChars(CheckTrimmed(cfg, name, contact, message).handle) + "\n";
      forall i :: 0 <= i < |line| && line[i] == '@' ==> i == |HandleLabel| - 1
  {
    var v := CheckTrimmed(cfg, name, contact, message);
    HandleNeedsNoEscaping(v.handle);
    OnlyLabelAt(v.handle);
  }

  /** With no `D` modifier the handle pattern's `$` matches before a final line feed, so a contact
      such as "abcde\n@" is forwarded as the handle "abcde\n". */
  lemma TrailingNewlineHandle(h: string)
    requires IsHandle(h)
    ensures StripAt(PhpTrim(h + "\n" + "@")) == h + "\n"
    ensures IsPcreHandle(h + "\n") && !IsHandle(h + "\n")
  {
    HandleHasNoAt(h);
    RemoveAllAppend(h + "\n", "@", '@');
    assert RemoveAll("@", '@') == [];
    var s := h + "\n" + "@";
    assert s[0] == h[0] && s[|s| - 1] == '@';
    TrimOfTrimmed(s, IsPhpTrimChar);
    assert (h + "\n")[..|h|] == h;
  }

  // ---------------------------------------------------------------- the message text

  /** A string's bytes contain the bytes of its last part. */
  lemma EncodedEnd(x: string, p: string)
    ensures Contains(Encode(x + p), Encode(p))
  {
    EncodeAppend(x, p);
    ContainsEnd(Encode(x), Encode(p));
  }

  /** Bytes found in a string's encoding are still there once more text is appended. */
  lemma EncodedGrow(x: string, y: string, p: seq<byte>)
    requires Contains(Encode(x), p)
    ensures Contains(Encode(x + y), p)
  {
    EncodeAppend(x, y);
    ContainsExtend(Encode(x), p, [], Encode(y));
  }

  /** The head of the message carries the escaped name and, after the handle label (which ends
      in "@"), the escaped handle. */
  lemma HeadMentions(name: string, handle: string)
    ensures Contains(Encode(TextHead(name, handle)), Encode(HtmlSpecialChars(name)))
    ensures Contains(Encode(TextHead(name, handle)), Encode(HandleLabel + HtmlSpecialChars(handle)))
  {
    var en, eh := HtmlSpecialChars(name), HtmlSpecialChars(handle);
    var p2 := Heading + NameLabel;
    var p4 := p2 + en + "\n";
    var p6 := p4 + HandleLabel + eh + "\n";
    EncodedEnd(p2, en);
    EncodedGrow(p2 + en, "\n", Encode(en));
    EncodedGrow(p4, HandleLabel, Encode(en));
    EncodedGrow(p4 + HandleLabel, eh, Encode(en));
    EncodedGrow(p4 + HandleLabel + eh, "\n", Encode(en));
    EncodedGrow(p6, MessageLabel, Encode(en));
    AppendAssoc(p4, HandleLabel, eh);
    EncodedEnd(p4, HandleLabel + eh);
    EncodedGrow(p4 + HandleLabel + eh, "\n", Encode(HandleLabel + eh));
    EncodedGrow(p6, MessageLabel, Encode(HandleLabel + eh));
  }

  /** The tail of the message carries the date, the site name and the client address. */
  lemma TailMentions(date: string, siteName: string, ip: string)
    ensures Contains(Encode(TextTail(date, siteName, ip)), Encode(date))
    ensures Contains(Encode(TextTail(date, siteName, ip)), Encode(siteName))
    ensures Contains(Encode(TextTail(date, siteName, ip)), Encode(ip))
  {
    var q2 := "\n\n" + DateLabel;
    var q4 := q2 + date + "\n" + SourceLabel;
    var q6 := q4 + siteName + "\n" + IpLabel;
    EncodedEnd(q2, date);
    EncodedGrow(q2 + date, "\n", Encode(date));
    EncodedGrow(q2 + date + "\n", SourceLabel, Encode(date));
    EncodedGrow(q4, siteName, Encode(date));
    EncodedGrow(q4 + siteName, "\n", Encode(date));
    EncodedGrow(q4 + siteName + "\n", IpLabel, Encode(date));
    EncodedGrow(q6, ip, Encode(date));
    EncodedEnd(q4, siteName);
    EncodedGrow(q4 + siteName, "\n", Encode(siteName));
    EncodedGrow(q4 + siteName + "\n", IpLabel, Encode(siteName));
    EncodedGrow(q6, ip, Encode(siteName));
    EncodedEnd(q6, ip);
  }

  /** The message sent to Telegram carries the escaped name, the handle label (ending in "@")
      followed by the escaped handle, the sanitized message (or the placeholder), the date, the
      site name and the client address; the address is put in as it came, without escaping. */
  lemma TelegramTextMentions(name: string, handle: string, message: seq<byte>, date: string,
                             siteName: string, ip: string)
    ensures var t := TelegramText(name, handle, message, date, siteName, ip);
      && Contains(t, Encode(HtmlSpecialChars(name)))
      && Contains(t, Encode(HandleLabel + HtmlSpecialChars(handle)))
      && Contains(t, MessageOrPlaceholder(message))
      && Contains(t, Encode(date))
      && Contains(t, Encode(siteName))
      && Contains(t, Encode(ip))
  {
    var m := MessageOrPlaceholder(message);
    var eHead, eTail := Encode(TextHead(name, handle)), Encode(TextTail(date, siteName, ip));
    HeadMentions(name, handle);
    TailMentions(date, siteName, ip);
    ContainsExtend(eHead, Encode(HtmlSpecialChars(name)), [], m);
    ContainsExtend(eHead + m, Encode(HtmlSpecialChars(name)), [], eTail);
    ContainsExtend(eHead, Encode(HandleLabel + HtmlSpecialChars(handle)), [], m);
    ContainsExtend(eHead + m, Encode(HandleLabel + HtmlSpecialChars(handle)), [], eTail);
    ContainsEnd(eHead, m);
    ContainsExtend(eHead + m, m, [], eTail);
    ContainsExtend(eTail, Encode(date), eHead + m, []);
    ContainsExtend(eTail, Encode(siteName), eHead + m, []);
    ContainsExtend(eTail, Encode(ip), eHead + m, []);
  }

  /** An `X-Forwarded-For` header reaches the message exactly as the client sent it, markup
      included. */
  lemma ForwardedForReachesText(cfg: Config, server: map<string, string>, req: Request, last: Option<int>,
                                v: Verdict, upstream: TelegramOutcome, header: string)
    requires v.Forward?
    requires Get(server, "HTTP_X_FORWARDED_FOR") == Some(header)
    ensures Respond(cfg, server, req, last, v, upstream).telegramText.Some?
    ensures Contains(Respond(cfg, server, req, last, v, upstream).telegramText.value, Encode(header))
  {
    TelegramTextMentions(v.name, v.handle, v.message, req.date, cfg.siteName, header);
  }
}
