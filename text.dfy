/**
 * JavaScript's `String.prototype.trim`, which both guards in the front-end
 * (the submit guard and the rename guard) use to decide whether text is blank.
 */
module Text {

  /** The characters `trim` removes: ECMAScript WhiteSpace and LineTerminator. */
  predicate IsWhitespace(c: char)
  {
    || c == '\t' || c == '\U{000B}' || c == '\U{000C}' || c == ' '
    || c == '\U{00A0}' || c == '\U{FEFF}'
    || c == '\n' || c == '\r' || c == '\U{2028}' || c == '\U{2029}'
    || c == '\U{1680}' || ('\U{2000}' <= c <= '\U{200A}')
    || c == '\U{202F}' || c == '\U{205F}' || c == '\U{3000}'
  }

  /** Every character of `s` at positions `lo` to `hi - 1` is whitespace. */
  predicate WhitespaceBetween(s: string, lo: int, hi: int)
  {
    forall k :: lo <= k < hi && 0 <= k < |s| ==> IsWhitespace(s[k])
  }

  /** Every character of `s` is whitespace (vacuously so for ""). */
  predicate AllWhitespace(s: string)
  {
    WhitespaceBetween(s, 0, |s|)
  }

  /** `s` with its leading whitespace removed. */
  function TrimStart(s: string): (r: string)
    ensures |r| <= |s| && r == s[|s| - |r|..]
    ensures WhitespaceBetween(s, 0, |s| - |r|)
    ensures r == [] || !IsWhitespace(r[0])
  {
    if s != [] && IsWhitespace(s[0]) then TrimStart(s[1..]) else s
  }

  /** `s` with its trailing whitespace removed. */
  function TrimEnd(s: string): (r: string)
    ensures |r| <= |s| && r == s[..|r|]
    ensures WhitespaceBetween(s, |r|, |s|)
    ensures r == [] || !IsWhitespace(r[|r| - 1])
  {
    if s != [] && IsWhitespace(s[|s| - 1]) then TrimEnd(s[..|s| - 1]) else s
  }

  /** `s.trim()`: `s` without leading and trailing whitespace. */
  function Trim(s: string): (r: string)
  {
    TrimEnd(TrimStart(s))
  }

  /**
   * Where `trim` cuts: the result is the piece `s[i..j]`, and only whitespace
   * lies before `i` and from `j` on.
   */
  lemma TrimSpan(s: string) returns (i: int, j: int)
    ensures 0 <= i <= j <= |s| && Trim(s) == s[i..j]
    ensures WhitespaceBetween(s, 0, i) && WhitespaceBetween(s, j, |s|)
  {
    var t := TrimStart(s);
    var r := TrimEnd(t);
    i, j := |s| - |t|, |s| - |t| + |r|;
    assert r == s[i..j] by {
      assert t == s[i..];
      assert r == t[..|r|];
    }
    forall k | j <= k < |s| ensures IsWhitespace(s[k]) {
      assert s[k] == t[k - i];
    }
  }

  /** Trimmed text that is not empty neither starts nor ends with whitespace. */
  lemma TrimEdges(s: string)
    ensures Trim(s) == [] || (!IsWhitespace(Trim(s)[0]) && !IsWhitespace(Trim(s)[|Trim(s)| - 1]))
  {
    var t := TrimStart(s);
    var r := TrimEnd(t);
    if r != [] {
      assert r[0] == t[0];
    }
  }

  /** `!s.trim()` holds, i.e. the trimmed text is "", exactly when `s` is all whitespace. */
  lemma BlankIffAllWhitespace(s: string)
    ensures Trim(s) == [] <==> AllWhitespace(s)
  {
    var t := TrimStart(s);
    if Trim(s) == [] {
      if t != [] {
        assert false;
      }
    }
  }

  /** Trimming trimmed text changes nothing. */
  lemma TrimIdempotent(s: string)
    ensures Trim(Trim(s)) == Trim(s)
  {
    var r := Trim(s);
    if r != [] {
      assert TrimStart(r) == r;
      assert TrimEnd(r) == r;
    }
  }
}
