/** The PHP string primitives the relay relies on: truthiness and `empty()`, `trim`,
    `htmlspecialchars` with ENT_QUOTES, byte-wise `substr`, the `(int)` cast of a string and the
    decimal form an int takes inside a double-quoted string. */
module PhpStrings {
  import opened Text
  import opened Utf8

  /** A string is falsy in PHP (and `empty()`) exactly when it is "" or "0". */
  predicate IsFalsy(s: string) {
    s == "" || s == "0"
  }

  /** The same rule on a byte string. */
  predicate IsFalsyBytes(b: seq<byte>) {
    b == [] || b == ['0' as int]
  }

  /** `trim($s)` */
  function PhpTrim(s: string): string {
    Trim(s, IsPhpTrimChar)
  }

  // ---------------------------------------------------------------- htmlspecialchars

  /** The five characters ENT_QUOTES escapes. */
  predicate IsHtmlSpecial(c: char) {
    c == '&' || c == '"' || c == '\'' || c == '<' || c == '>'
  }

  /** The four of them that must never appear raw in escaped text (a raw `&` can still appear,
      as the start of an entity). */
  predicate IsMarkupChar(c: char) {
    c == '"' || c == '\'' || c == '<' || c == '>'
  }

  function EscapeChar(c: char): string {
    if c == '&' then "&amp;"
    else if c == '"' then "&quot;"
    else if c == '\'' then "&#039;"
    else if c == '<' then "&lt;"
    else if c == '>' then "&gt;"
    else [c]
  }

  /** `htmlspecialchars($s, ENT_QUOTES, 'UTF-8')` on valid UTF-8. */
  function HtmlSpecialChars(s: string): (r: string)
    ensures forall i :: 0 <= i < |r| ==> !IsMarkupChar(r[i])
    ensures |r| >= |s|
    ensures (forall i :: 0 <= i < |s| ==> !IsHtmlSpecial(s[i])) ==> r == s
  {
    if s == [] then [] else EscapeChar(s[0]) + HtmlSpecialChars(s[1..])
  }

  /** How an HTML reader (Telegram's HTML parse mode, for one) turns the five entities back into
      characters; anything else is read as it stands. */
  function DecodeEntities(r: string): string
    decreases |r|
  {
    if r == [] then []
    else
      var (c, k) := DecodeOne(r);
      [c] + DecodeEntities(r[k..])
  }

  /** The character at the front of `r` and how many characters it takes there. */
  function DecodeOne(r: string): (d: (char, nat))
    requires r != []
    ensures 1 <= d.1 <= |r|
  {
    if |r| >= 5 && r[..5] == "&amp;" then ('&', 5)
    else if |r| >= 6 && r[..6] == "&quot;" then ('"', 6)
    else if |r| >= 6 && r[..6] == "&#039;" then ('\'', 6)
    else if |r| >= 4 && r[..4] == "&lt;" then ('<', 4)
    else if |r| >= 4 && r[..4] == "&gt;" then ('>', 4)
    else (r[0], 1)
  }

  /** An escaped character followed by anything is read back as that character. */
  lemma DecodeOneEscaped(c: char, rest: string)
    ensures DecodeOne(EscapeChar(c) + rest) == (c, |EscapeChar(c)|)
  {
    var r := EscapeChar(c) + rest;
    if c == '&' {
      assert r[..5] == "&amp;";
    } else if c == '"' {
      assert r[1] == 'q' && r[..6] == "&quot;";
    } else if c == '\'' {
      assert r[1] == '#' && r[..6] == "&#039;";
    } else if c == '<' {
      assert r[1] == 'l' && r[..4] == "&lt;";
    } else if c == '>' {
      assert r[1] == 'g' && r[..4] == "&gt;";
    } else {
      assert r[0] == c && r[0] != '&';
    }
  }

  /** Escaping loses nothing: the reader sees exactly the text that was escaped. */
  lemma {:induction false} DecodeEscaped(s: string)
    ensures DecodeEntities(HtmlSpecialChars(s)) == s
  {
    if s != [] {
      var e := EscapeChar(s[0]);
      var r := e + HtmlSpecialChars(s[1..]);
      DecodeOneEscaped(s[0], HtmlSpecialChars(s[1..]));
      assert r[|e|..] == HtmlSpecialChars(s[1..]);
      DecodeEscaped(s[1..]);
      assert [s[0]] + s[1..] == s;
    }
  }

  // ---------------------------------------------------------------- substr and truncation

  /** `substr($b, 0, $length)` (PHP 8): a negative length leaves off that many bytes at the end. */
  function Substr(b: seq<byte>, length: int): (r: seq<byte>)
    ensures r <= b
    ensures 0 <= length <= |b| ==> |r| == length
    ensures length < 0 ==> |r| == if |b| + length > 0 then |b| + length else 0
  {
    if length >= 0 then (if length <= |b| then b[..length] else b)
    else if |b| + length > 0 then b[..|b| + length]
    else []
  }

  /** The marker appended to a truncated message. */
  const Ellipsis: seq<byte> := ['.' as int, '.' as int, '.' as int]

  /** `if (strlen($b) > $max) $b = substr($b, 0, $max) . '...';` */
  function Truncate(b: seq<byte>, max: int): (r: seq<byte>)
    ensures |b| <= max ==> r == b
    ensures 0 <= max < |b| ==> |r| == max + 3 && r[..max] == b[..max] && r[max..] == Ellipsis
    ensures |b| > max ==> |r| >= 3 && r[..|r| - 3] <= b && r[|r| - 3..] == Ellipsis
  {
    if |b| > max then Substr(b, max) + Ellipsis else b
  }

  /** The relay's message sanitisation: escape, encode, then cut to `max` bytes. */
  function Sanitize(message: string, max: int): seq<byte> {
    Truncate(Encode(HtmlSpecialChars(message)), max)
  }

  /** After sanitising, no byte of `"`, `'`, `<` or `>` is left, whether or not the message was
      cut (a cut can split an entity or a multi-byte character, never create a markup byte). */
  lemma SanitizedHasNoMarkup(message: string, max: int)
    ensures forall k :: 0 <= k < |Sanitize(message, max)| ==>
      var b := Sanitize(message, max)[k];
      b != '"' as int && b != '\'' as int && b != '<' as int && b != '>' as int
  {
    var e := HtmlSpecialChars(message);
    EncodeAvoidsAscii(e, '"' as int);
    EncodeAvoidsAscii(e, '\'' as int);
    EncodeAvoidsAscii(e, '<' as int);
    EncodeAvoidsAscii(e, '>' as int);
    var b := Encode(e);
    TruncateAvoids(b, max, '"' as int);
    TruncateAvoids(b, max, '\'' as int);
    TruncateAvoids(b, max, '<' as int);
    TruncateAvoids(b, max, '>' as int);
  }

  /** Cutting and appending "..." adds no byte but ".". */
  lemma TruncateAvoids(b: seq<byte>, max: int, x: byte)
    requires x !in b && x != '.' as int
    ensures x !in Truncate(b, max)
  {
    if |b| > max {
      var p := Substr(b, max);
      assert forall i :: 0 <= i < |p| ==> p[i] == b[i];
      assert x !in p;
    }
  }

  // ---------------------------------------------------------------- (int) cast and "{$n}"

  const IntMax: int := 0x7FFF_FFFF_FFFF_FFFF
  const IntMin: int := -0x8000_0000_0000_0000

  /** Whitespace a numeric string may start with. */
  predicate IsNumericSpace(c: char) {
    c == ' ' || c == '\t' || c == '\n' || c == '\r' || c == '\U{000B}' || c == '\U{000C}'
  }

  /** The longest prefix of decimal digits. */
  function DigitPrefix(s: string): (d: string)
    ensures d <= s
    ensures forall i :: 0 <= i < |d| ==> IsAsciiDigit(d[i])
    ensures |d| < |s| ==> !IsAsciiDigit(s[|d|])
  {
    if s != [] && IsAsciiDigit(s[0]) then [s[0]] + DigitPrefix(s[1..]) else []
  }

  /** The value of a string of decimal digits. */
  function DigitsValue(d: string): nat
    requires forall i :: 0 <= i < |d| ==> IsAsciiDigit(d[i])
  {
    if d == [] then 0 else 10 * DigitsValue(d[..|d| - 1]) + DigitValue(d[|d| - 1])
  }

  function DigitValue(c: char): nat
    requires IsAsciiDigit(c)
  {
    (c as int - '0' as int) as nat
  }

  /** Saturation to PHP's 64-bit integer range, as a string too large for it converts. */
  function Clamp(n: int): int {
    if n > IntMax then IntMax else if n < IntMin then IntMin else n
  }

  /** `(int)$s` for a string: leading whitespace, an optional sign, then the leading digits;
      0 when there are none. */
  function IntCast(s: string): (n: int)
    ensures IntMin <= n <= IntMax
  {
    var t := TrimStart(s, IsNumericSpace);
    if t != [] && (t[0] == '-' || t[0] == '+') then
      var v: int := DigitsValue(DigitPrefix(t[1..]));
      Clamp(if t[0] == '-' then -v else v)
    else
      Clamp(DigitsValue(DigitPrefix(t)))
  }

  /** The decimal digits of a natural number, without leading zeros. */
  function NatToDigits(n: nat): (d: string)
    ensures |d| >= 1
    ensures forall i :: 0 <= i < |d| ==> IsAsciiDigit(d[i])
  {
    if n < 10 then [('0' as int + n) as char]
    else NatToDigits(n / 10) + [('0' as int + n % 10) as char]
  }

  /** How an int is written when interpolated into a string: "-" and digits when negative. */
  function IntToString(n: int): string {
    if n < 0 then "-" + NatToDigits(-n) else NatToDigits(n)
  }

  lemma {:induction false} DigitsValueOfNat(n: nat)
    ensures DigitsValue(NatToDigits(n)) == n
  {
    if n >= 10 {
      var d := NatToDigits(n);
      assert d[..|d| - 1] == NatToDigits(n / 10);
      DigitsValueOfNat(n / 10);
    }
  }

  lemma DigitPrefixOfDigits(d: string)
    requires forall i :: 0 <= i < |d| ==> IsAsciiDigit(d[i])
    ensures DigitPrefix(d) == d
  {
  }

  /** Round trip: casting the decimal form of any 64-bit integer gives that integer back. */
  lemma IntCastOfIntToString(n: int)
    requires IntMin <= n <= IntMax
    ensures IntCast(IntToString(n)) == n
  {
    if n < 0 {
      IntCastOfNegative(n);
    } else {
      IntCastOfNatural(n);
    }
  }

  lemma IntCastOfNegative(n: int)
    requires IntMin <= n < 0
    ensures IntCast(IntToString(n)) == n
  {
    var d := NatToDigits(-n);
    var s := "-" + d;
    assert IntToString(n) == s;
    TrimStartNoop(s, IsNumericSpace);
    assert s[0] == '-' && s[1..] == d;
    DigitPrefixOfDigits(d);
    DigitsValueOfNat(-n);
  }

  lemma IntCastOfNatural(n: int)
    requires 0 <= n <= IntMax
    ensures IntCast(IntToString(n)) == n
  {
    var d := NatToDigits(n);
    assert IntToString(n) == d;
    assert IsAsciiDigit(d[0]);
    TrimStartNoop(d, IsNumericSpace);
    DigitPrefixOfDigits(d);
    DigitsValueOfNat(n);
  }
}
