/**
 * The string primitives of ECMA-262 that both screens rely on: the set of
 * white-space code points that the abstract operation TrimString removes,
 * and String.prototype.trim built from it. parseInt (in JsNumber) trims the
 * start of its argument with the same set.
 */
module JsString {

  /** WhiteSpace (section 12.2 of ECMA-262: TAB, VT, FF, ZWNBSP and every
      code point of Unicode category Zs) or LineTerminator (section 12.3:
      LF, CR, LINE SEPARATOR, PARAGRAPH SEPARATOR). */
  predicate IsWhiteSpace(c: char) {
    || c == '\t' || c == '\U{000B}' || c == '\U{000C}' || c == '\U{FEFF}'
    || c == ' ' || c == '\U{00A0}' || c == '\U{1680}'
    || ('\U{2000}' <= c <= '\U{200A}')
    || c == '\U{202F}' || c == '\U{205F}' || c == '\U{3000}'
    || c == '\n' || c == '\r' || c == '\U{2028}' || c == '\U{2029}'
  }

  predicate AllWhiteSpace(s: string) {
    forall i :: 0 <= i < |s| ==> IsWhiteSpace(s[i])
  }

  /** True when neither end of `s` is white space. */
  predicate Unpadded(s: string) {
    s == [] || (!IsWhiteSpace(s[0]) && !IsWhiteSpace(s[|s| - 1]))
  }

  /** The number of white-space code points at the start of `s`. */
  function LeadingWhiteSpace(s: string): (n: nat)
    ensures n <= |s|
    ensures forall i :: 0 <= i < n ==> IsWhiteSpace(s[i])
    ensures n == |s| || !IsWhiteSpace(s[n])
  {
    if s != [] && IsWhiteSpace(s[0]) then 1 + LeadingWhiteSpace(s[1..]) else 0
  }

  /** The number of white-space code points at the end of `s`. */
  function TrailingWhiteSpace(s: string): (n: nat)
    ensures n <= |s|
    ensures forall i :: |s| - n <= i < |s| ==> IsWhiteSpace(s[i])
    ensures n == |s| || !IsWhiteSpace(s[|s| - n - 1])
  {
    if s != [] && IsWhiteSpace(s[|s| - 1]) then 1 + TrailingWhiteSpace(s[..|s| - 1]) else 0
  }

  /** TrimString(s, start): `s` without its leading white space. */
  function TrimStart(s: string): (t: string)
    ensures |t| <= |s| && t == s[|s| - |t|..]
    ensures AllWhiteSpace(s[..|s| - |t|])
    ensures t == [] || !IsWhiteSpace(t[0])
  {
    s[LeadingWhiteSpace(s)..]
  }

  /** TrimString(s, end): `s` without its trailing white space. */
  function TrimEnd(s: string): (t: string)
    ensures |t| <= |s| && t == s[..|t|]
    ensures AllWhiteSpace(s[|t|..])
    ensures t == [] || !IsWhiteSpace(t[|t| - 1])
  {
    s[..|s| - TrailingWhiteSpace(s)]
  }

  /** String.prototype.trim: TrimString(s, start+end). The result starts
      and ends with a non-white-space code point; TrimDecomposes shows that
      it is what is left of `s` between a white-space prefix and suffix. */
  function Trim(s: string): (t: string)
    ensures Unpadded(t) && |t| <= |s|
  {
    var u := TrimStart(s);
    var t := TrimEnd(u);
    assert t != [] ==> t[0] == u[0];
    t
  }

  /** `s` is a white-space prefix, then its trim, then a white-space suffix. */
  lemma TrimDecomposes(s: string)
    ensures var k := |s| - |TrimStart(s)|;
      && k + |Trim(s)| <= |s|
      && s == s[..k] + Trim(s) + s[k + |Trim(s)|..]
      && AllWhiteSpace(s[..k]) && AllWhiteSpace(s[k + |Trim(s)|..])
  {
    var u := TrimStart(s);
    var t := TrimEnd(u);
    assert t == Trim(s);
    PaddedSplit(s, u, t);
  }

  /** If `u` is a suffix of `s` after white space and `t` a prefix of `u`
      before white space, `s` is white space, `t`, then white space. */
  lemma PaddedSplit(s: string, u: string, t: string)
    requires |u| <= |s| && u == s[|s| - |u|..] && AllWhiteSpace(s[..|s| - |u|])
    requires |t| <= |u| && t == u[..|t|] && AllWhiteSpace(u[|t|..])
    ensures var k := |s| - |u|;
      && s == s[..k] + t + s[k + |t|..]
      && AllWhiteSpace(s[..k]) && AllWhiteSpace(s[k + |t|..])
  {
    var k := |s| - |u|;
    assert s == s[..k] + u;
    assert u == t + u[|t|..];
    assert u[|t|..] == s[k + |t|..];
  }

  /** A string that does not start with white space is its own TrimStart. */
  lemma TrimStartKeepsNonWhiteSpaceStart(s: string)
    requires s == [] || !IsWhiteSpace(s[0])
    ensures TrimStart(s) == s
  {
  }

  /** White space put in front of a string adds exactly its length to the
      leading white space. */
  lemma {:induction false} LeadingWhiteSpaceOfPadded(w: string, s: string)
    requires AllWhiteSpace(w)
    ensures LeadingWhiteSpace(w + s) == |w| + LeadingWhiteSpace(s)
  {
    if w != [] {
      assert (w + s)[0] == w[0] && IsWhiteSpace(w[0]);
      assert (w + s)[1..] == w[1..] + s;
      LeadingWhiteSpaceOfPadded(w[1..], s);
    } else {
      assert w + s == s;
    }
  }

  /** Leading white space is invisible to TrimStart. */
  lemma TrimStartSkipsWhiteSpace(w: string, s: string)
    requires AllWhiteSpace(w)
    ensures TrimStart(w + s) == TrimStart(s)
  {
    LeadingWhiteSpaceOfPadded(w, s);
    assert (w + s)[|w|..] == s;
  }

  /** A string with no white space at either end is its own trim. */
  lemma TrimKeepsUnpadded(s: string)
    requires Unpadded(s)
    ensures Trim(s) == s
  {
    assert LeadingWhiteSpace(s) == 0;
    assert TrimStart(s) == s;
    assert TrailingWhiteSpace(s) == 0;
  }

  /** Trimming twice is trimming once. */
  lemma TrimIdempotent(s: string)
    ensures Trim(Trim(s)) == Trim(s)
  {
    TrimKeepsUnpadded(Trim(s));
  }
}
