/** `String.prototype.trim` of ECMAScript: white space and line terminators
    are removed from both ends. Stated once over any sequence, for the
    characters of an input box and for the rendered pieces of a line. */
module JsText {

  /** ECMAScript WhiteSpace and LineTerminator code points (the space
      separators of Unicode category Zs included). */
  predicate IsWhitespace(c: char) {
    || c == '\t' || c == '\U{000B}' || c == '\U{000C}' || c == ' '
    || c == '\U{00A0}' || c == '\U{FEFF}' || c == '\U{1680}'
    || ('\U{2000}' <= c <= '\U{200A}')
    || c == '\U{202F}' || c == '\U{205F}' || c == '\U{3000}'
    || c == '\n' || c == '\r' || c == '\U{2028}' || c == '\U{2029}'
  }

  /** Drops the leading elements for which `blank` holds. */
  function TrimStart<T>(s: seq<T>, blank: T -> bool): (r: seq<T>)
    ensures |r| <= |s| && r == s[|s| - |r|..]
    ensures forall i :: 0 <= i < |s| - |r| ==> blank(s[i])
    ensures r != [] ==> !blank(r[0])
  {
    if s == [] || !blank(s[0]) then s else TrimStart(s[1..], blank)
  }

  /** Drops the trailing elements for which `blank` holds. */
  function TrimEnd<T>(s: seq<T>, blank: T -> bool): (r: seq<T>)
    ensures |r| <= |s| && r == s[..|r|]
    ensures forall i :: |r| <= i < |s| ==> blank(s[i])
    ensures r != [] ==> !blank(r[|r| - 1])
  {
    if s == [] || !blank(s[|s| - 1]) then s else TrimEnd(s[..|s| - 1], blank)
  }

  function TrimBy<T>(s: seq<T>, blank: T -> bool): seq<T> {
    TrimEnd(TrimStart(s, blank), blank)
  }

  /** `s.trim()` */
  function Trim(s: string): string {
    TrimBy(s, IsWhitespace)
  }

  /** How many leading blanks `TrimBy` removes. */
  function TrimOffset<T>(s: seq<T>, blank: T -> bool): nat {
    |s| - |TrimStart(s, blank)|
  }

  /** The trimmed text is a contiguous piece of the input, flanked only by
      blanks, and neither starts nor ends with one. */
  lemma TrimIsInfix<T>(s: seq<T>, blank: T -> bool)
    ensures var r, k := TrimBy(s, blank), TrimOffset(s, blank);
      && k + |r| <= |s| && r == s[k..k + |r|]
      && (forall i :: 0 <= i < k ==> blank(s[i]))
      && (forall i :: k + |r| <= i < |s| ==> blank(s[i]))
      && (r != [] ==> !blank(r[0]) && !blank(r[|r| - 1]))
  {
    var t := TrimStart(s, blank);
    var r := TrimEnd(t, blank);
    var k := |s| - |t|;
    assert t == s[k..];
    assert r == t[..|r|];
    SuffixPrefix(s, k, |r|);
    TrailingBlanks(s, k, |r|, blank);
    if r != [] {
      assert r[0] == t[0];
    }
  }

  /** Blanks after position `n` of the suffix `s[k..]` are blanks of `s`. */
  lemma TrailingBlanks<T>(s: seq<T>, k: nat, n: nat, blank: T -> bool)
    requires k + n <= |s| && forall i :: n <= i < |s[k..]| ==> blank(s[k..][i])
    ensures forall i :: k + n <= i < |s| ==> blank(s[i])
  {
    forall i | k + n <= i < |s| ensures blank(s[i]) {
      assert s[i] == s[k..][i - k];
    }
  }

  lemma SuffixPrefix<T>(s: seq<T>, k: nat, n: nat)
    requires k + n <= |s|
    ensures s[k..][..n] == s[k..k + n]
  {
  }

  /** Trimming twice is trimming once. */
  lemma TrimIdempotent<T>(s: seq<T>, blank: T -> bool)
    ensures TrimBy(TrimBy(s, blank), blank) == TrimBy(s, blank)
  {
    var r := TrimBy(s, blank);
    if r != [] {
      assert TrimStart(r, blank) == r;
    }
  }

  /** An input that is blank all through trims to nothing, and only such. */
  lemma TrimEmptyIffBlank<T>(s: seq<T>, blank: T -> bool)
    ensures TrimBy(s, blank) == [] <==> forall i :: 0 <= i < |s| ==> blank(s[i])
  {
    TrimIsInfix(s, blank);
    var t := TrimStart(s, blank);
    var k := |s| - |t|;
    if t != [] {
      assert t[0] == s[k];
      assert TrimEnd(t, blank) != [];
    }
  }

  /** Leading blanks do not change where the trimmed text starts. */
  lemma {:induction false} TrimStartSkipsBlanks<T>(p: seq<T>, x: seq<T>, blank: T -> bool)
    requires forall i :: 0 <= i < |p| ==> blank(p[i])
    ensures TrimStart(p + x, blank) == TrimStart(x, blank)
  {
    if p == [] {
      assert p + x == x;
    } else {
      assert (p + x)[0] == p[0] && (p + x)[1..] == p[1..] + x;
      TrimStartSkipsBlanks(p[1..], x, blank);
    }
  }
}
