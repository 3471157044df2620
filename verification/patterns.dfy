/** The two regular expressions of the lead form, shared (character for character) by the
    browser and the relay:
      name:   ^[а-яёА-ЯЁa-zA-Z\s]+$
      handle: ^[a-zA-Z][a-zA-Z0-9_]{3,30}[a-zA-Z0-9]$
    Each is read here as what it means (a concatenation of character-class runs) and paired
    with a direct check that the two sides evaluate. */
module Patterns {
  import opened Text

  /** `t` is a run of `lo` to `hi` characters, each in `cls`: the meaning of `[cls]{lo,hi}`. */
  ghost predicate RunOf(t: string, cls: char -> bool, lo: nat, hi: nat) {
    lo <= |t| <= hi && forall i :: 0 <= i < |t| ==> cls(t[i])
  }

  /** The handle regex, anchored at both ends: `s` splits into a letter, 3 to 30 word
      characters and a letter or digit. */
  ghost predicate MatchesHandleRegex(s: string) {
    exists i, j :: 0 <= i <= j <= |s|
      && RunOf(s[..i], IsAsciiLetter, 1, 1)
      && RunOf(s[i..j], IsWordChar, 3, 30)
      && RunOf(s[j..], IsAsciiAlnum, 1, 1)
  }

  /** The direct check: 5 to 32 characters, a letter first, a letter or digit last, and only
      letters, digits and underscores between. */
  predicate IsHandle(s: string) {
    && 5 <= |s| <= 32
    && IsAsciiLetter(s[0])
    && IsAsciiAlnum(s[|s| - 1])
    && forall i :: 1 <= i < |s| - 1 ==> IsWordChar(s[i])
  }

  /** The direct check accepts exactly the strings the regex matches. */
  lemma HandleShapeIsRegex(s: string)
    ensures IsHandle(s) <==> MatchesHandleRegex(s)
  {
    if IsHandle(s) {
      var j := |s| - 1;
      assert RunOf(s[..1], IsAsciiLetter, 1, 1);
      assert RunOf(s[1..j], IsWordChar, 3, 30) by {
        forall k | 0 <= k < |s[1..j]| ensures IsWordChar(s[1..j][k]) {
          assert s[1..j][k] == s[k + 1];
        }
      }
      assert RunOf(s[j..], IsAsciiAlnum, 1, 1);
    }
    if MatchesHandleRegex(s) {
      var i, j :| 0 <= i <= j <= |s|
        && RunOf(s[..i], IsAsciiLetter, 1, 1)
        && RunOf(s[i..j], IsWordChar, 3, 30)
        && RunOf(s[j..], IsAsciiAlnum, 1, 1);
      assert i == 1 && j == |s| - 1;
      assert s[0] == s[..i][0];
      assert s[|s| - 1] == s[j..][0];
      forall k | 1 <= k < |s| - 1 ensures IsWordChar(s[k]) {
        assert s[k] == s[i..j][k - 1];
      }
    }
  }

  /** The handle regex as PCRE runs it without the `D` modifier: `$` also matches just before a
      final line feed, so one trailing "\n" is let through. */
  ghost predicate PcreMatchesHandleRegex(s: string) {
    || MatchesHandleRegex(s)
    || (|s| > 0 && s[|s| - 1] == '\n' && MatchesHandleRegex(s[..|s| - 1]))
  }

  /** "@" is not a handle character. */
  lemma HandleHasNoAt(handle: string)
    requires IsHandle(handle)
    ensures '@' !in handle
  {
    forall i | 0 <= i < |handle| ensures handle[i] != '@' {
      assert i == 0 || i == |handle| - 1 || IsWordChar(handle[i]);
    }
  }

  /** The relay's evaluation of the PCRE handle pattern. */
  predicate IsPcreHandle(s: string) {
    IsHandle(s) || (|s| > 0 && s[|s| - 1] == '\n' && IsHandle(s[..|s| - 1]))
  }

  /** The relay's check accepts exactly what PCRE matches. */
  lemma PcreHandleIsRegex(s: string)
    ensures IsPcreHandle(s) <==> PcreMatchesHandleRegex(s)
  {
    HandleShapeIsRegex(s);
    if |s| > 0 {
      HandleShapeIsRegex(s[..|s| - 1]);
    }
  }

  /** `[а-яёА-ЯЁa-zA-Z\s]` where `space` is the engine's `\s`. */
  predicate IsNameChar(c: char, space: char -> bool) {
    IsCyrillicLetter(c) || IsAsciiLetter(c) || space(c)
  }

  /** The name regex, anchored at both ends: one or more name characters. (Under PCRE `$` also
      matches before a final "\n", which changes nothing here because "\n" is itself in `\s`.) */
  predicate MatchesNameRegex(s: string, space: char -> bool) {
    |s| >= 1 && forall i :: 0 <= i < |s| ==> IsNameChar(s[i], space)
  }
}
