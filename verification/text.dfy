/** `String.prototype.trim`, which the input components apply to every title they pass on. */
module Text {

  /** The characters ECMAScript counts as WhiteSpace or LineTerminator. */
  predicate IsWhiteSpace(c: char) {
    c == '\t' || c == '\n' || c == '\U{000B}' || c == '\U{000C}' || c == '\r' || c == ' ' ||
    c == '\U{00A0}' || c == '\U{1680}' || ('\U{2000}' <= c <= '\U{200A}') ||
    c == '\U{2028}' || c == '\U{2029}' || c == '\U{202F}' || c == '\U{205F}' ||
    c == '\U{3000}' || c == '\U{FEFF}'
  }

  /** `s` without its leading white space. */
  function TrimStart(s: string): (r: string)
    ensures |r| <= |s| && r == s[|s| - |r|..]
    ensures forall i :: 0 <= i < |s| - |r| ==> IsWhiteSpace(s[i])
    ensures r == [] || !IsWhiteSpace(r[0])
  {
    if s != [] && IsWhiteSpace(s[0]) then TrimStart(s[1..]) else s
  }

  /** `s` without its trailing white space. */
  function TrimEnd(s: string): (r: string)
    ensures |r| <= |s| && r == s[..|r|]
    ensures forall i :: |r| <= i < |s| ==> IsWhiteSpace(s[i])
    ensures r == [] || !IsWhiteSpace(r[|r| - 1])
  {
    if s != [] && IsWhiteSpace(s[|s| - 1]) then TrimEnd(s[..|s| - 1]) else s
  }

  /**
   * `s.trim()`: the part of `s` between its white-space prefix and its
   * white-space suffix; it neither starts nor ends with white space.
   */
  function Trim(s: string): (r: string)
    ensures |r| <= |s|
    ensures r == [] || (!IsWhiteSpace(r[0]) && !IsWhiteSpace(r[|r| - 1]))
    ensures exists start :: Strips(s, start, r)
  {
    var u := TrimStart(s);
    var r := TrimEnd(u);
    assert Strips(s, |s| - |u|, r);
    r
  }

  /** `r` is `s` with white space only removed before index `start` and after `r`. */
  predicate Strips(s: string, start: int, r: string) {
    0 <= start <= |s| - |r| && r == s[start..start + |r|] &&
    (forall i :: 0 <= i < start ==> IsWhiteSpace(s[i])) &&
    (forall i :: start + |r| <= i < |s| ==> IsWhiteSpace(s[i]))
  }

  /** A title as the components hand it over: already trimmed. */
  predicate IsTrimmed(s: string) {
    Trim(s) == s
  }

  /** A string is trimmed exactly when it is empty or starts and ends with a visible character. */
  lemma TrimmedIff(s: string)
    ensures IsTrimmed(s) <==> s == [] || (!IsWhiteSpace(s[0]) && !IsWhiteSpace(s[|s| - 1]))
  {
    if s != [] && !IsWhiteSpace(s[0]) && !IsWhiteSpace(s[|s| - 1]) {
      assert TrimStart(s) == s;
      assert TrimEnd(s) == s;
    }
  }

  /** Trimming twice is trimming once. */
  lemma TrimIdempotent(s: string)
    ensures Trim(Trim(s)) == Trim(s)
  {
    TrimmedIff(Trim(s));
  }

  /** A title of white space only, such as "  ", trims to the empty title. */
  lemma {:induction false} WhiteSpaceTrimsToEmpty(s: string)
    requires forall i :: 0 <= i < |s| ==> IsWhiteSpace(s[i])
    ensures Trim(s) == ""
  {
    if s != [] {
      WhiteSpaceTrimsToEmpty(s[1..]);
    }
  }
}
