/** The e-mail address check of the contact handler: the regular expression
    `^[^\s@]+@[^\s@]+\.[^\s@]+$`, stated as a predicate over the string, and a
    direct check proved to agree with it. */
module Email {
  import opened Text

  /** A character of the class `[^\s@]`. */
  predicate IsAddressChar(c: char)
  {
    c != '@' && !IsWhitespace(c)
  }

  /** Every character of `s` from `lo` up to (not including) `hi` is in `[^\s@]`. */
  predicate AddressCharsBetween(s: string, lo: int, hi: int)
  {
    forall k :: lo <= k < hi && 0 <= k < |s| ==> IsAddressChar(s[k])
  }

  /** `s[at]` is the `@` and `s[dot]` the `.` of a match of the whole pattern:
      three non-empty runs of `[^\s@]` around them, anchored at both ends. */
  ghost predicate IsPatternSplit(s: string, at: int, dot: int)
  {
    && 0 < at && at + 1 < dot && dot + 1 < |s|
    && s[at] == '@' && s[dot] == '.'
    && AddressCharsBetween(s, 0, at)
    && AddressCharsBetween(s, at + 1, dot)
    && AddressCharsBetween(s, dot + 1, |s|)
  }

  /** `/^[^\s@]+@[^\s@]+\.[^\s@]+$/.test(s)` */
  ghost predicate MatchesAddressPattern(s: string)
  {
    exists at, dot :: IsPatternSplit(s, at, dot)
  }

  /** Index of the first `c` in `s`, or `|s|` when there is none. */
  function IndexOf(s: string, c: char): (i: nat)
    ensures i <= |s|
    ensures i < |s| ==> s[i] == c
    ensures forall k :: 0 <= k < i ==> s[k] != c
  {
    if s == [] then 0
    else if s[0] == c then 0
    else 1 + IndexOf(s[1..], c)
  }

  /** The address check without backtracking: the first `@` is preceded by at
      least one character, no `@` or white space occurs anywhere else, and the
      part after the `@` has a `.` that is neither its first nor its last
      character. */
  function IsValidAddress(s: string): bool
  {
    var at := IndexOf(s, '@');
    && 0 < at < |s|
    && AddressCharsBetween(s, 0, at)
    && AddressCharsBetween(s, at + 1, |s|)
    && exists dot | at + 1 < dot < |s| - 1 :: s[dot] == '.'
  }

  /** The direct check accepts exactly the strings the regular expression
      matches. */
  lemma IsValidAddressCorrect(s: string)
    ensures IsValidAddress(s) <==> MatchesAddressPattern(s)
  {
    var at := IndexOf(s, '@');
    if IsValidAddress(s) {
      var dot :| at + 1 < dot < |s| - 1 && s[dot] == '.';
      assert IsPatternSplit(s, at, dot);
    }
    if MatchesAddressPattern(s) {
      var a, d :| IsPatternSplit(s, a, d);
      assert !IsAddressChar(s[a]);
      assert at == a;
      assert AddressCharsBetween(s, at + 1, |s|) by {
        forall k | at + 1 <= k < |s| ensures IsAddressChar(s[k]) {
          if k == d { assert s[k] == '.'; }
        }
      }
    }
  }

  /** An address the pattern accepts contains no white space, so `trim` leaves
      it as it is. */
  lemma MatchedAddressIsTrimmed(s: string)
    requires MatchesAddressPattern(s)
    ensures Trim(s) == s
  {
    var a, d :| IsPatternSplit(s, a, d);
    assert !IsWhitespace(s[0]) && !IsWhitespace(s[|s| - 1]);
    TrimUntouched(s);
  }
}
