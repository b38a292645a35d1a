/**
 * The few JavaScript string primitives the waitlist backend relies on:
 * `undefined`/`null` as an absent value, truthiness of a string,
 * `String.prototype.trim` and `String.prototype.toLowerCase`.
 */
module JsString {

  /** An optional value: `None` stands for JavaScript's `undefined` or `null`. */
  datatype Option<+T> = None | Some(value: T)

  /**
   * The code points ECMAScript counts as white space for `trim` and
   * `parseInt`: the WhiteSpace and LineTerminator productions
   * (TAB, LF, VT, FF, CR, SPACE, NBSP, the Zs separators, LS, PS, BOM).
   */
  const Whitespace: set<char> := {
    '\t', '\n', '\U{000B}', '\U{000C}', '\r', ' ', '\U{00A0}', '\U{1680}',
    '\U{2000}', '\U{2001}', '\U{2002}', '\U{2003}', '\U{2004}', '\U{2005}',
    '\U{2006}', '\U{2007}', '\U{2008}', '\U{2009}', '\U{200A}',
    '\U{2028}', '\U{2029}', '\U{202F}', '\U{205F}', '\U{3000}', '\U{FEFF}'
  }

  predicate IsWhitespace(c: char) {
    c in Whitespace
  }

  predicate AllWhitespace(s: string) {
    forall i :: 0 <= i < |s| ==> IsWhitespace(s[i])
  }

  /** Neither end of `s` is white space. */
  predicate Trimmed(s: string) {
    s == [] || (!IsWhitespace(s[0]) && !IsWhitespace(s[|s| - 1]))
  }

  /** `s.trimStart()`: the suffix of `s` left after its leading white space. */
  function TrimStart(s: string): (r: string)
    ensures |r| <= |s| && r == s[|s| - |r|..]
    ensures r == [] || !IsWhitespace(r[0])
    ensures forall k :: 0 <= k < |s| - |r| ==> IsWhitespace(s[k])
  {
    if s != [] && IsWhitespace(s[0]) then TrimStart(s[1..]) else s
  }

  /** `s.trimEnd()`: the prefix of `s` left before its trailing white space. */
  function TrimEnd(s: string): (r: string)
    ensures |r| <= |s| && r == s[..|r|]
    ensures r == [] || !IsWhitespace(r[|r| - 1])
    ensures forall k :: |r| <= k < |s| ==> IsWhitespace(s[k])
  {
    if s != [] && IsWhitespace(s[|s| - 1]) then TrimEnd(s[..|s| - 1]) else s
  }

  /**
   * `s.trim()`: `s` without its leading and trailing white space. The result
   * is the slice `s[lo..lo + |r|]` for the length `lo` of the leading white
   * space, and everything cut off on either side is white space.
   */
  function Trim(s: string): (r: string)
    ensures Trimmed(r) && |r| <= |s|
    ensures var lo := |s| - |TrimStart(s)|;
      && lo + |r| <= |s|
      && (forall k :: 0 <= k < |r| ==> r[k] == s[lo + k])
      && (forall k :: 0 <= k < lo ==> IsWhitespace(s[k]))
      && (forall k :: lo + |r| <= k < |s| ==> IsWhitespace(s[k]))
  {
    TrimEnd(TrimStart(s))
  }

  /** Trimming a string with no white space at either end changes nothing. */
  lemma {:induction false} TrimOfTrimmed(s: string)
    requires Trimmed(s)
    ensures Trim(s) == s
  {
    assert TrimStart(s) == s;
    assert TrimEnd(s) == s;
  }

  /** `trim` is idempotent. */
  lemma TrimIdempotent(s: string)
    ensures Trim(Trim(s)) == Trim(s)
  {
    TrimOfTrimmed(Trim(s));
  }

  lemma {:induction false} TrimStartPadded(w: string, x: string)
    requires AllWhitespace(w)
    requires x == [] || !IsWhitespace(x[0])
    ensures TrimStart(w + x) == x
  {
    if w != [] {
      assert (w + x)[1..] == w[1..] + x;
      TrimStartPadded(w[1..], x);
    } else {
      assert w + x == x;
    }
  }

  lemma {:induction false} TrimEndPadded(x: string, w: string)
    requires AllWhitespace(w)
    requires x == [] || !IsWhitespace(x[|x| - 1])
    ensures TrimEnd(x + w) == x
  {
    if w != [] {
      assert (x + w)[..|x + w| - 1] == x + w[..|w| - 1];
      TrimEndPadded(x, w[..|w| - 1]);
    } else {
      assert x + w == x;
    }
  }

  /**
   * Trimming undoes white-space padding: whatever white space surrounds a
   * string with no white space at either end, `trim` gives that string back.
   */
  lemma TrimPadded(w1: string, x: string, w2: string)
    requires AllWhitespace(w1) && AllWhitespace(w2) && Trimmed(x)
    ensures Trim(w1 + x + w2) == x
  {
    if x == [] {
      assert w1 + x + w2 == w1 + w2;
      TrimAllWhitespace(w1 + w2);
    } else {
      assert w1 + x + w2 == w1 + (x + w2);
      TrimStartPadded(w1, x + w2);
      TrimEndPadded(x, w2);
    }
  }

  /** A string of white space only trims to the empty string. */
  lemma {:induction false} TrimAllWhitespace(s: string)
    ensures AllWhitespace(s) <==> Trim(s) == []
  {
    if s != [] && IsWhitespace(s[0]) {
      TrimAllWhitespace(s[1..]);
      assert TrimStart(s) == TrimStart(s[1..]);
      assert AllWhitespace(s) <==> AllWhitespace(s[1..]);
    }
  }

  /** `c.toLowerCase()` for the ASCII letters; every other character is kept. */
  function LowerChar(c: char): char {
    if 'A' <= c <= 'Z' then (c as int + ('a' as int - 'A' as int)) as char else c
  }

  predicate IsUpperAscii(c: char) {
    'A' <= c <= 'Z'
  }

  /** No ASCII capital letter occurs in `s`. */
  predicate IsLowerCase(s: string) {
    forall i :: 0 <= i < |s| ==> !IsUpperAscii(s[i])
  }

  /**
   * `s.toLowerCase()`: a string of the same length with no capital letter,
   * equal to `s` letter by letter up to case.
   */
  function ToLower(s: string): (r: string)
    ensures |r| == |s| && IsLowerCase(r)
    ensures forall i :: 0 <= i < |s| ==> LowerChar(r[i]) == LowerChar(s[i])
    ensures forall i :: 0 <= i < |s| && !IsUpperAscii(s[i]) ==> r[i] == s[i]
  {
    seq(|s|, i requires 0 <= i < |s| => LowerChar(s[i]))
  }

  /** Lower-casing never touches white space, so a trimmed string stays trimmed. */
  lemma LowerKeepsTrimmed(s: string)
    requires Trimmed(s)
    ensures Trimmed(ToLower(s)) && |ToLower(s)| == |s|
  {
  }

  /** Lower-casing a string with no capital letter changes nothing. */
  lemma LowerOfLowerCase(s: string)
    requires IsLowerCase(s)
    ensures ToLower(s) == s
  {
  }

  /** JavaScript truthiness of an optional string: present and not `''`. */
  predicate Truthy(v: Option<string>) {
    v.Some? && v.value != ""
  }
}
