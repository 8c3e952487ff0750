/**
  `String.prototype.trim` as the submit handler uses it: strip the
  characters ECMAScript classes as WhiteSpace or LineTerminator from both
  ends of a string.
 */
module Text {

  /** ECMAScript WhiteSpace (TAB, VT, FF, ZWNBSP and every Unicode "Zs"
      space separator) and LineTerminator (LF, CR, LS, PS). */
  predicate IsWhitespace(c: char) {
    || c in {'\t', '\U{000B}', '\U{000C}', ' ', '\U{00A0}', '\U{FEFF}'}
    || c in {'\U{1680}', '\U{202F}', '\U{205F}', '\U{3000}'}
    || ('\U{2000}' <= c <= '\U{200A}')
    || c in {'\n', '\r', '\U{2028}', '\U{2029}'}
  }

  /** Every character of `s[lo..hi]` is whitespace. */
  predicate WhitespaceBetween(s: string, lo: int, hi: int)
    requires 0 <= lo <= hi <= |s|
  {
    forall k :: lo <= k < hi ==> IsWhitespace(s[k])
  }

  predicate AllWhitespace(s: string) {
    WhitespaceBetween(s, 0, |s|)
  }

  /** Drops the leading whitespace of `s`. */
  function TrimStart(s: string): (r: string)
    ensures |r| <= |s| && r == s[|s| - |r|..]
    ensures WhitespaceBetween(s, 0, |s| - |r|)
    ensures r == [] || !IsWhitespace(r[0])
    decreases |s|
  {
    if |s| > 0 && IsWhitespace(s[0]) then TrimStart(s[1..]) else s
  }

  /** Drops the trailing whitespace of `s`. */
  function TrimEnd(s: string): (r: string)
    ensures |r| <= |s| && r == s[..|r|]
    ensures WhitespaceBetween(s, |r|, |s|)
    ensures r == [] || !IsWhitespace(r[|r| - 1])
    decreases |s|
  {
    if |s| > 0 && IsWhitespace(s[|s| - 1]) then TrimEnd(s[..|s| - 1]) else s
  }

  /** `s[i..j]` is `s` with its leading and trailing whitespace removed:
      only whitespace lies outside the slice and none at its ends. */
  ghost predicate TrimmedAt(s: string, i: int, j: int) {
    && 0 <= i <= j <= |s|
    && WhitespaceBetween(s, 0, i) && WhitespaceBetween(s, j, |s|)
    && (i < j ==> !IsWhitespace(s[i]) && !IsWhitespace(s[j - 1]))
  }

  ghost predicate IsTrimOf(r: string, s: string) {
    exists i, j :: TrimmedAt(s, i, j) && r == s[i..j]
  }

  function Trim(s: string): (r: string)
    ensures IsTrimOf(r, s)
    ensures r == [] <==> AllWhitespace(s)
  {
    TrimEndOfTrimStart(s);
    TrimEnd(TrimStart(s))
  }

  /** Stripping the front and then the back leaves exactly the trim. */
  lemma TrimEndOfTrimStart(s: string)
    ensures IsTrimOf(TrimEnd(TrimStart(s)), s)
    ensures TrimEnd(TrimStart(s)) == [] <==> AllWhitespace(s)
  {
    var t := TrimStart(s);
    var r := TrimEnd(t);
    var i := |s| - |t|;
    var j := i + |r|;
    TrimEndInside(s, t, r, i);
    assert TrimmedAt(s, i, j);
    if r == [] {
      EmptyTrimAllWhitespace(s, i, j);
    }
  }

  /** A prefix `r` of the suffix `t == s[i..]` is the slice `s[i..i + |r|]`,
      and what `t` has after `r` is what `s` has after that slice. */
  lemma TrimEndInside(s: string, t: string, r: string, i: int)
    requires 0 <= i <= |s| && t == s[i..]
    requires |r| <= |t| && r == t[..|r|]
    requires WhitespaceBetween(t, |r|, |t|)
    ensures r == s[i..i + |r|]
    ensures WhitespaceBetween(s, i + |r|, |s|)
    ensures r != [] ==> s[i] == r[0] && s[i + |r| - 1] == r[|r| - 1]
  {
    forall k | i + |r| <= k < |s|
      ensures IsWhitespace(s[k])
    {
      assert s[k] == t[k - i];
    }
  }

  /** Where the leading whitespace of `s` stops is fixed by `s` alone. */
  lemma TrimStartsAgree(s: string, i: int, j: int, i': int, j': int)
    requires TrimmedAt(s, i, j) && TrimmedAt(s, i', j')
    requires i < j && i' < j'
    ensures i == i' && j == j'
  {
  }

  /** A string whose trim is empty is whitespace throughout. */
  lemma EmptyTrimAllWhitespace(s: string, i: int, j: int)
    requires TrimmedAt(s, i, j) && i == j
    ensures AllWhitespace(s)
  {
  }

  /** The trim of a string is unique: any slice meeting `IsTrimOf` is
      the one `Trim` returns. */
  lemma TrimIsUnique(s: string, r: string)
    requires IsTrimOf(r, s)
    ensures r == Trim(s)
  {
    var i, j :| TrimmedAt(s, i, j) && r == s[i..j];
    var t := Trim(s);
    var i', j' :| TrimmedAt(s, i', j') && t == s[i'..j'];
    if i == j {
      EmptyTrimAllWhitespace(s, i, j);
    } else if i' == j' {
      EmptyTrimAllWhitespace(s, i', j');
    } else {
      TrimStartsAgree(s, i, j, i', j');
    }
  }

  /** Trimming an already-trimmed string changes nothing. */
  lemma TrimIdempotent(s: string)
    ensures Trim(Trim(s)) == Trim(s)
  {
    var t := Trim(s);
    assert IsTrimOf(t, t) by {
      assert t == t[0..|t|] && t[..0] == [] && t[|t|..] == [];
    }
    TrimIsUnique(t, t);
  }

  /** Padding with whitespace moves the trim bounds by the left padding. */
  lemma PaddedTrimmedAt(s: string, pad: string, pad': string, i: int, j: int)
    requires AllWhitespace(pad) && AllWhitespace(pad')
    requires TrimmedAt(s, i, j)
    ensures TrimmedAt(pad + s + pad', |pad| + i, |pad| + j)
  {
    var p := pad + s + pad';
    forall k | 0 <= k < |pad| + i
      ensures IsWhitespace(p[k])
    {
      if k < |pad| {
        assert p[k] == pad[k];
      } else {
        assert p[k] == s[k - |pad|];
      }
    }
    forall k | |pad| + j <= k < |p|
      ensures IsWhitespace(p[k])
    {
      if k < |pad| + |s| {
        assert p[k] == s[k - |pad|];
      } else {
        assert p[k] == pad'[k - |pad| - |s|];
      }
    }
    if i < j {
      assert p[|pad| + i] == s[i];
      assert p[|pad| + j - 1] == s[j - 1];
    }
  }

  /** A slice of `s` is the same slice of `s` padded on both sides, moved
      right by the left padding. */
  lemma PaddedSlice(s: string, pad: string, pad': string, i: int, j: int)
    requires 0 <= i <= j <= |s|
    ensures (pad + s + pad')[|pad| + i..|pad| + j] == s[i..j]
  {
    var p := pad + s + pad';
    forall k | 0 <= k < j - i
      ensures p[|pad| + i..|pad| + j][k] == s[i..j][k]
    {
      assert p[|pad| + i + k] == s[i + k];
    }
  }

  /** Whitespace added around a string does not change its trim. */
  lemma TrimIgnoresPadding(s: string, pad: string, pad': string)
    requires AllWhitespace(pad) && AllWhitespace(pad')
    ensures Trim(pad + s + pad') == Trim(s)
  {
    var p := pad + s + pad';
    var t := Trim(s);
    var i, j :| TrimmedAt(s, i, j) && t == s[i..j];
    PaddedTrimmedAt(s, pad, pad', i, j);
    PaddedSlice(s, pad, pad', i, j);
    TrimIsUnique(p, t);
  }
}
