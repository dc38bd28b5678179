/** JavaScript's notion of white space and `String.prototype.trim`, as the
    contact handler uses them (the `\s` class of its e-mail pattern and the
    `trim()` applied to every field). */
module Text {

  /** ECMAScript WhiteSpace and LineTerminator code points: the set that both
      `\s` and `trim` recognise. */
  predicate IsWhitespace(c: char)
  {
    || '\U{9}' <= c <= '\U{D}'          // tab, line feed, vertical tab, form feed, carriage return
    || c == ' ' || c == '\U{A0}' || c == '\U{1680}'
    || '\U{2000}' <= c <= '\U{200A}'
    || c == '\U{2028}' || c == '\U{2029}'  // line and paragraph separators
    || c == '\U{202F}' || c == '\U{205F}' || c == '\U{3000}'
    || c == '\U{FEFF}'                    // byte order mark
  }

  /** Every character of `s` from index `lo` up to (not including) `hi` is
      white space. */
  predicate WhitespaceBetween(s: string, lo: int, hi: int)
  {
    forall k :: lo <= k < hi && 0 <= k < |s| ==> IsWhitespace(s[k])
  }

  predicate AllWhitespace(s: string)
  {
    WhitespaceBetween(s, 0, |s|)
  }

  /** `s` with its leading white space removed: a suffix of `s` that does not
      start with white space, everything cut off being white space. */
  function TrimStart(s: string): (r: string)
    ensures |r| <= |s| && r == s[|s| - |r|..]
    ensures WhitespaceBetween(s, 0, |s| - |r|)
    ensures r != [] ==> !IsWhitespace(r[0])
  {
    if s != [] && IsWhitespace(s[0]) then
      TrimStart(s[1..])
    else
      s
  }

  /** `s` with its trailing white space removed: a prefix of `s` that does not
      end with white space, everything cut off being white space. */
  function TrimEnd(s: string): (r: string)
    ensures |r| <= |s| && r == s[..|r|]
    ensures WhitespaceBetween(s, |r|, |s|)
    ensures r != [] ==> !IsWhitespace(r[|r| - 1])
  {
    if s != [] && IsWhitespace(s[|s| - 1]) then
      TrimEnd(s[..|s| - 1])
    else
      s
  }

  /** The slice `s[i..j]` is what `trim` leaves of `s`: only white space lies
      outside it, and it neither starts nor ends with white space. */
  ghost predicate IsTrimSlice(s: string, i: int, j: int)
  {
    && 0 <= i <= j <= |s|
    && WhitespaceBetween(s, 0, i) && WhitespaceBetween(s, j, |s|)
    && (i < j ==> !IsWhitespace(s[i]) && !IsWhitespace(s[j - 1]))
  }

  /** How much leading white space `trim` removes from `s`. */
  function TrimOffset(s: string): (n: nat)
    ensures n <= |s|
  {
    |s| - |TrimStart(s)|
  }

  /** JavaScript `s.trim()`: the slice of `s` that starts at `TrimOffset(s)`
      and meets the description of `IsTrimSlice`. */
  function Trim(s: string): (r: string)
    ensures TrimOffset(s) + |r| <= |s|
    ensures IsTrimSlice(s, TrimOffset(s), TrimOffset(s) + |r|)
    ensures r == s[TrimOffset(s)..TrimOffset(s) + |r|]
    ensures r == [] <==> AllWhitespace(s)
  {
    var t := TrimStart(s);
    var r := TrimEnd(t);
    var i := |s| - |t|;
    assert s[i..i + |r|] == r;
    r
  }

  /** Only one slice of `s` meets the description of `trim`, so `Trim` is the
      only function that does. */
  lemma TrimSliceUnique(s: string, i: int, j: int)
    requires IsTrimSlice(s, i, j)
    ensures s[i..j] == Trim(s)
  {
  }

  /** Trimming twice is the same as trimming once. */
  lemma TrimIdempotent(s: string)
    ensures Trim(Trim(s)) == Trim(s)
  {
    var r := Trim(s);
    assert IsTrimSlice(r, 0, |r|);
    TrimSliceUnique(r, 0, |r|);
  }

  /** A string that neither starts nor ends with white space is its own trim. */
  lemma TrimUntouched(s: string)
    requires s != [] ==> !IsWhitespace(s[0]) && !IsWhitespace(s[|s| - 1])
    ensures Trim(s) == s
  {
    assert IsTrimSlice(s, 0, |s|);
    TrimSliceUnique(s, 0, |s|);
  }
}
