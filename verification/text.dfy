/**
 The model of JavaScript's `String.prototype.trim`: remove every leading and
 trailing character that ECMAScript classifies as WhiteSpace or LineTerminator.
 */
module Text {

  /**
   ECMAScript WhiteSpace (tab, vertical tab, form feed, space, no-break space,
   zero-width no-break space and the Unicode category Zs) and LineTerminator
   (line feed, carriage return, line separator, paragraph separator).
   */
  const SpaceChars: set<char> := {
    '\t', '\n', '\U{000B}', '\U{000C}', '\r', ' ', '\U{00A0}', '\U{1680}',
    '\U{2000}', '\U{2001}', '\U{2002}', '\U{2003}', '\U{2004}', '\U{2005}',
    '\U{2006}', '\U{2007}', '\U{2008}', '\U{2009}', '\U{200A}',
    '\U{2028}', '\U{2029}', '\U{202F}', '\U{205F}', '\U{3000}', '\U{FEFF}'
  }

  predicate IsSpace(c: char) {
    c in SpaceChars
  }

  /** Every character of `s` is white space (vacuously true of ""). */
  predicate AllSpace(s: string) {
    forall i :: 0 <= i < |s| ==> IsSpace(s[i])
  }

  /** `s` has nothing left for `trim` to remove. */
  predicate IsTrimmed(s: string) {
    |s| == 0 || (!IsSpace(s[0]) && !IsSpace(s[|s| - 1]))
  }

  /**
   `r` is the part of `s` that starts after `a` leading white-space characters
   and is followed only by white space.
   */
  predicate StripsTo(s: string, a: int, r: string) {
    && 0 <= a <= |s| - |r|
    && r == s[a..a + |r|]
    && (forall i :: 0 <= i < a ==> IsSpace(s[i]))
    && (forall i :: a + |r| <= i < |s| ==> IsSpace(s[i]))
  }

  /** The first index at or after `k` that does not hold white space, or `|s|`. */
  function SkipLeading(s: string, k: nat): (a: nat)
    requires k <= |s|
    ensures k <= a <= |s|
    ensures forall i :: k <= i < a ==> IsSpace(s[i])
    ensures a < |s| ==> !IsSpace(s[a])
    decreases |s| - k
  {
    if k < |s| && IsSpace(s[k]) then SkipLeading(s, k + 1) else k
  }

  /**
   The end of `s[a..e]` once its trailing white space is cut: everything from
   there up to `e` is white space, and the character before it is not.
   */
  function SkipTrailing(s: string, a: nat, e: nat): (b: nat)
    requires a <= e <= |s|
    ensures a <= b <= e
    ensures forall i :: b <= i < e ==> IsSpace(s[i])
    ensures b > a ==> !IsSpace(s[b - 1])
    decreases e - a
  {
    if e > a && IsSpace(s[e - 1]) then SkipTrailing(s, a, e - 1) else e
  }

  /**
   `s` without leading and trailing white space: what is left is the part of
   `s` between two runs of white space, it begins and ends with a non-space,
   and it is empty exactly when `s` is all white space.
   */
  function Trim(s: string): (r: string)
    ensures exists a :: StripsTo(s, a, r)
    ensures IsTrimmed(r)
    ensures |r| == 0 <==> AllSpace(s)
  {
    var a := SkipLeading(s, 0);
    var b := SkipTrailing(s, a, |s|);
    var r := s[a..b];
    assert StripsTo(s, a, r);
    assert a < |s| ==> b > a;
    r
  }

  /** Trimming is idempotent, and it fixes exactly the trimmed strings. */
  lemma TrimFixesTrimmed(s: string)
    ensures Trim(s) == s <==> IsTrimmed(s)
    ensures Trim(Trim(s)) == Trim(s)
  {
    if IsTrimmed(s) && |s| > 0 {
      TrimUnique(s, 0, s);
    }
    var t := Trim(s);
    if |t| > 0 {
      TrimUnique(t, 0, t);
    }
  }

  /**
   `Trim` is the only way to strip white space from both ends: any trimmed,
   non-empty part of `s` surrounded by white space is `Trim(s)`.
   */
  lemma TrimUnique(s: string, a: int, r: string)
    requires StripsTo(s, a, r) && IsTrimmed(r) && |r| > 0
    ensures Trim(s) == r
  {
    var t := Trim(s);
    assert !IsSpace(s[a]);
    var b :| StripsTo(s, b, t);
    assert |t| > 0;
    assert s[b] == t[0] && s[b + |t| - 1] == t[|t| - 1];
    assert s[a + |r| - 1] == r[|r| - 1];
    assert a == b && |r| == |t|;
  }
}
