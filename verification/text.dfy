/** Character classes and string helpers shared by the browser form controller (script.js)
    and the relay (telegram-sender.php). Strings are sequences of Unicode scalar values. */
module Text {

  /** `[a-zA-Z]` */
  predicate IsAsciiLetter(c: char) {
    'a' <= c <= 'z' || 'A' <= c <= 'Z'
  }

  /** `[0-9]` */
  predicate IsAsciiDigit(c: char) {
    '0' <= c <= '9'
  }

  /** `[a-zA-Z0-9]` */
  predicate IsAsciiAlnum(c: char) {
    IsAsciiLetter(c) || IsAsciiDigit(c)
  }

  /** `[a-zA-Z0-9_]` */
  predicate IsWordChar(c: char) {
    IsAsciiAlnum(c) || c == '_'
  }

  /** `[а-яёА-ЯЁ]`: а..я is U+0430..U+044F, А..Я is U+0410..U+042F, ё is U+0451, Ё is U+0401. */
  predicate IsCyrillicLetter(c: char) {
    '\U{0410}' <= c <= '\U{044F}' || c == '\U{0451}' || c == '\U{0401}'
  }

  /** ECMAScript WhiteSpace and LineTerminator: the set `String.prototype.trim` strips and the
      set `\s` matches in a JavaScript regular expression. */
  predicate IsJsWhitespace(c: char) {
    || c == '\t' || c == '\n' || c == '\U{000B}' || c == '\U{000C}' || c == '\r' || c == ' '
    || c == '\U{00A0}' || c == '\U{1680}' || '\U{2000}' <= c <= '\U{200A}'
    || c == '\U{2028}' || c == '\U{2029}' || c == '\U{202F}' || c == '\U{205F}'
    || c == '\U{3000}' || c == '\U{FEFF}'
  }

  /** What `\s` matches in a PCRE2 pattern compiled with PHP's `/u` modifier (which also turns on
      Unicode properties): every character of the separator categories Zs, Zl and Zp, plus the
      horizontal and vertical space characters, which add tab, line feed, vertical tab, form
      feed, carriage return, next line (U+0085) and the Mongolian vowel separator (U+180E). */
  predicate IsPcreSpace(c: char) {
    || '\t' <= c <= '\r' || c == ' ' || c == '\U{0085}'
    || c == '\U{00A0}' || c == '\U{1680}' || c == '\U{180E}' || '\U{2000}' <= c <= '\U{200A}'
    || c == '\U{2028}' || c == '\U{2029}' || c == '\U{202F}' || c == '\U{205F}'
    || c == '\U{3000}'
  }

  /** The characters PHP's `trim` strips by default: " \t\n\r\0\x0B". */
  predicate IsPhpTrimChar(c: char) {
    c == ' ' || c == '\t' || c == '\n' || c == '\r' || c == '\0' || c == '\U{000B}'
  }

  /** Drops the leading characters that satisfy `ws`. */
  function TrimStart(s: string, ws: char -> bool): (r: string)
    ensures |r| <= |s| && r == s[|s| - |r|..]
    ensures r == [] || !ws(r[0])
    ensures forall i :: 0 <= i < |s| - |r| ==> ws(s[i])
  {
    if s != [] && ws(s[0]) then
      var r := TrimStart(s[1..], ws);
      assert s[1..][|s| - 1 - |r|..] == s[|s| - |r|..];
      StrippedPrefix(s, |s| - |r|, ws);
      r
    else s
  }

  /** A first character in `ws` followed by `n - 1` more in `ws` makes `n` in `ws`. */
  lemma StrippedPrefix(s: string, n: int, ws: char -> bool)
    requires 0 < n <= |s| && ws(s[0])
    requires forall i :: 0 <= i < n - 1 ==> ws(s[1..][i])
    ensures forall i :: 0 <= i < n ==> ws(s[i])
  {
    forall i | 0 <= i < n ensures ws(s[i]) {
      if i > 0 {
        assert s[i] == s[1..][i - 1];
      }
    }
  }

  lemma TrimStartNoop(s: string, ws: char -> bool)
    requires s == [] || !ws(s[0])
    ensures TrimStart(s, ws) == s
  {
  }

  /** Drops the trailing characters that satisfy `ws`. */
  function TrimEnd(s: string, ws: char -> bool): (r: string)
    ensures |r| <= |s| && r == s[..|r|]
    ensures r == [] || !ws(r[|r| - 1])
    ensures forall i :: |r| <= i < |s| ==> ws(s[i])
  {
    if s != [] && ws(s[|s| - 1]) then TrimEnd(s[..|s| - 1], ws) else s
  }

  /** Strips `ws` characters from both ends (`TrimIsSlice` states what is kept). */
  function Trim(s: string, ws: char -> bool): (r: string)
    ensures |r| <= |s|
    ensures r == [] || (!ws(r[0]) && !ws(r[|r| - 1]))
  {
    TrimEnd(TrimStart(s, ws), ws)
  }

  /** The trim of `s` is the slice of `s` that starts and ends with a character outside `ws`;
      everything cut away on either side is in `ws`. */
  lemma TrimIsSlice(s: string, ws: char -> bool)
    ensures exists i :: 0 <= i <= |s| - |Trim(s, ws)| && Trim(s, ws) <= s[i..]
              && (forall k :: 0 <= k < i ==> ws(s[k]))
              && (forall k :: i + |Trim(s, ws)| <= k < |s| ==> ws(s[k]))
  {
    var t := TrimStart(s, ws);
    var r := TrimEnd(t, ws);
    var i := |s| - |t|;
    assert r == Trim(s, ws);
    assert forall k :: 0 <= k < i ==> ws(s[k]);
    StrippedSuffix(s, i, r, ws);
    assert r <= s[i..];
  }

  /** What `TrimEnd` cut from the slice `s[i..]` is, read in `s`, all in `ws`. */
  lemma StrippedSuffix(s: string, i: int, r: string, ws: char -> bool)
    requires 0 <= i <= |s| && r == TrimEnd(s[i..], ws)
    ensures forall k :: i + |r| <= k < |s| ==> ws(s[k])
  {
    var t := s[i..];
    forall k | i + |r| <= k < |s| ensures ws(s[k]) {
      assert s[k] == t[k - i];
    }
  }

  /** `String.prototype.trim` */
  function JsTrim(s: string): string {
    Trim(s, IsJsWhitespace)
  }

  /** A string that begins and ends with a character outside `ws` is its own trim. */
  lemma TrimOfTrimmed(s: string, ws: char -> bool)
    requires s == [] || (!ws(s[0]) && !ws(s[|s| - 1]))
    ensures Trim(s, ws) == s
  {
  }

  /** Index of the first `c` in `s`, or `|s|` when there is none. */
  function FirstIndex(s: string, c: char): (i: nat)
    ensures i <= |s|
    ensures i < |s| ==> s[i] == c
    ensures forall k :: 0 <= k < i ==> s[k] != c
  {
    if s == [] then 0
    else if s[0] == c then 0
    else 1 + FirstIndex(s[1..], c)
  }

  /** JavaScript's `s.replace(c, '')` with a one-character string pattern: only the first
      occurrence of `c` is removed. */
  function RemoveFirst(s: string, c: char): (r: string)
    ensures c !in s ==> r == s
    ensures c in s ==> |r| == |s| - 1
  {
    var i := FirstIndex(s, c);
    if i < |s| then s[..i] + s[i + 1..] else s
  }

  /** PHP's `str_replace(c, '', s)`: every occurrence of `c` is removed, the rest keeps its order. */
  function RemoveAll(s: string, c: char): (r: string)
    ensures c !in r
    ensures c !in s ==> r == s
    ensures |r| <= |s|
  {
    if s == [] then []
    else if s[0] == c then RemoveAll(s[1..], c)
    else [s[0]] + RemoveAll(s[1..], c)
  }

  /** Removing every `c` distributes over concatenation. */
  lemma {:induction false} RemoveAllAppend(a: string, b: string, c: char)
    ensures RemoveAll(a + b, c) == RemoveAll(a, c) + RemoveAll(b, c)
  {
    if a == [] {
      assert a + b == b;
    } else {
      assert (a + b)[0] == a[0];
      assert (a + b)[1..] == a[1..] + b;
      RemoveAllAppend(a[1..], b, c);
    }
  }

  /** Removing every `c` from a string holding exactly one `c` cuts out that one. */
  lemma RemoveAllSingle(before: string, c: char, after: string)
    requires c !in before && c !in after
    ensures RemoveAll(before + [c] + after, c) == before + after
  {
    var x := RemoveAll(before + [c], c);
    assert x == before by {
      RemoveAllAppend(before, [c], c);
      assert RemoveAll([c], c) == [];
    }
    RemoveAllAppend(before + [c], after, c);
  }

  /** Where `c` occurs, `RemoveFirst` cuts `s` around its first occurrence. */
  lemma RemoveFirstSplit(s: string, c: char)
    requires FirstIndex(s, c) < |s|
    ensures var i := FirstIndex(s, c);
      && s == s[..i] + [c] + s[i + 1..]
      && RemoveFirst(s, c) == s[..i] + s[i + 1..]
  {
  }

  /** A string with `c` at one place and nowhere else holds it once. */
  lemma CountSingle(before: string, c: char, after: string)
    requires c !in before && c !in after
    ensures multiset(before + [c] + after)[c] == 1
  {
    assert multiset(before + [c] + after) == multiset(before) + multiset{c} + multiset(after);
  }

  /** A character that occurs at most once in `s` occurs nowhere else than at its one place. */
  lemma SingleOccurrence(s: string, i: nat)
    requires i < |s| && multiset(s)[s[i]] <= 1
    ensures s[i] !in s[..i] && s[i] !in s[i + 1..]
  {
    assert s == s[..i] + [s[i]] + s[i + 1..];
    assert multiset(s) == multiset(s[..i]) + multiset{s[i]} + multiset(s[i + 1..]);
  }

  /** The two removals differ only on strings holding `c` more than once. */
  lemma RemoveFirstOfSingle(s: string, c: char)
    requires multiset(s)[c] <= 1
    ensures RemoveFirst(s, c) == RemoveAll(s, c)
  {
    var i := FirstIndex(s, c);
    if i < |s| {
      SingleOccurrence(s, i);
      RemoveFirstSplit(s, c);
      RemoveAllSingle(s[..i], c, s[i + 1..]);
    }
  }

  /** JavaScript's `s.length`: the number of UTF-16 code units, two for a character outside the
      Basic Multilingual Plane. */
  function Utf16Length(s: string): (n: nat)
    ensures |s| <= n <= 2 * |s|
    ensures (forall i :: 0 <= i < |s| ==> s[i] < '\U{10000}') ==> n == |s|
  {
    if s == [] then 0
    else (if s[0] < '\U{10000}' then 1 else 2) + Utf16Length(s[1..])
  }

  /** `part` occurs in `text` as a contiguous run. */
  ghost predicate Contains<T>(text: seq<T>, part: seq<T>) {
    exists i :: 0 <= i <= |text| && part <= text[i..]
  }

  /** Concatenation is associative. */
  lemma AppendAssoc<T>(a: seq<T>, b: seq<T>, c: seq<T>)
    ensures a + b + c == a + (b + c)
  {
  }

  /** A sequence ends with its last part. */
  lemma ContainsEnd<T>(a: seq<T>, p: seq<T>)
    ensures Contains(a + p, p)
  {
    assert (a + p)[|a|..] == p;
  }

  /** What occurs in `text` still occurs once more is put on either side. */
  lemma ContainsExtend<T>(text: seq<T>, p: seq<T>, before: seq<T>, after: seq<T>)
    requires Contains(text, p)
    ensures Contains(text + after, p) && Contains(before + text, p)
  {
    var i :| 0 <= i <= |text| && p <= text[i..];
    assert p <= (text + after)[i..] by {
      forall k | 0 <= k < |p| ensures (text + after)[i..][k] == p[k] {
        assert (text + after)[i + k] == text[i + k] == text[i..][k];
      }
    }
    var j := |before| + i;
    assert p <= (before + text)[j..] by {
      forall k | 0 <= k < |p| ensures (before + text)[j..][k] == p[k] {
        assert (before + text)[j + k] == text[i + k] == text[i..][k];
      }
    }
  }

  lemma ContainsMiddle<T>(a: seq<T>, p: seq<T>, b: seq<T>)
    ensures Contains(a + p + b, p)
  {
    var t := a + p + b;
    assert t[|a|..] == p + b;
  }
}
