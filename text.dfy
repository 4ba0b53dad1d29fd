/**
 * The string operations of JavaScript that the source relies on: `toUpperCase`, `trim`,
 * `includes`, `endsWith` and `substring`.
 */
module Text {

  predicate IsAsciiLower(c: char) { 'a' <= c <= 'z' }

  /** `toUpperCase` on one character, for the ASCII letters. */
  function UpperChar(c: char): (r: char)
    ensures !IsAsciiLower(r)
    ensures !IsAsciiLower(c) ==> r == c
  {
    if IsAsciiLower(c) then (c as int - 32) as char else c
  }

  /** `s.toUpperCase()`: the same length, no lower-case letter left, every other character kept. */
  function ToUpper(s: string): (r: string)
    ensures |r| == |s|
    ensures forall i :: 0 <= i < |r| ==> !IsAsciiLower(r[i])
    ensures forall i :: 0 <= i < |s| && !IsAsciiLower(s[i]) ==> r[i] == s[i]
  {
    seq(|s|, i requires 0 <= i < |s| => UpperChar(s[i]))
  }

  /**
   * The characters `String.prototype.trim` removes: ECMAScript's WhiteSpace (TAB, VT, FF,
   * ZWNBSP and the Unicode space separators) and LineTerminator (LF, CR, LS, PS).
   */
  predicate IsWhitespace(c: char) {
    var n := c as int;
    n == 0x09 || n == 0x0A || n == 0x0B || n == 0x0C || n == 0x0D || n == 0x20 ||
    n == 0xA0 || n == 0x1680 || (0x2000 <= n <= 0x200A) || n == 0x2028 || n == 0x2029 ||
    n == 0x202F || n == 0x205F || n == 0x3000 || n == 0xFEFF
  }

  function TrimStart(s: string): (r: string)
    ensures |r| <= |s| && r == s[|s| - |r|..]
    ensures r != [] ==> !IsWhitespace(r[0])
    ensures forall i :: 0 <= i < |s| - |r| ==> IsWhitespace(s[i])
  {
    if |s| > 0 && IsWhitespace(s[0]) then TrimStart(s[1..]) else s
  }

  function TrimEnd(s: string): (r: string)
    ensures |r| <= |s| && r == s[..|r|]
    ensures r != [] ==> !IsWhitespace(r[|r| - 1])
    ensures forall i :: |r| <= i < |s| ==> IsWhitespace(s[i])
  {
    if |s| > 0 && IsWhitespace(s[|s| - 1]) then TrimEnd(s[..|s| - 1]) else s
  }

  /** `r` is `s[a..b]`, and everything of `s` outside that slice is whitespace. */
  predicate IsTrimOf(s: string, r: string, a: int, b: int) {
    0 <= a <= b <= |s| && r == s[a..b] &&
    (forall i :: 0 <= i < a ==> IsWhitespace(s[i])) &&
    (forall i :: b <= i < |s| ==> IsWhitespace(s[i]))
  }

  /** A whitespace-bounded prefix of a whitespace-bounded suffix of `s` is a whitespace-bounded slice of `s`. */
  lemma {:induction false} SliceOfSlice(s: string, t: string, r: string)
    requires |t| <= |s| && t == s[|s| - |t|..]
    requires forall i :: 0 <= i < |s| - |t| ==> IsWhitespace(s[i])
    requires |r| <= |t| && r == t[..|r|]
    requires forall i :: |r| <= i < |t| ==> IsWhitespace(t[i])
    ensures IsTrimOf(s, r, |s| - |t|, |s| - |t| + |r|)
  {
    var a := |s| - |t|;
    forall k | 0 <= k < |r|
      ensures r[k] == s[a + k]
    {
      assert r[k] == t[k];
    }
    forall i | a + |r| <= i < |s|
      ensures IsWhitespace(s[i])
    {
      assert s[i] == t[i - a];
    }
  }

  /** `s.trim()`: the slice of `s` left after removing leading and trailing whitespace. */
  function Trim(s: string): (r: string)
    ensures exists a, b :: IsTrimOf(s, r, a, b)
    ensures r != [] ==> !IsWhitespace(r[0]) && !IsWhitespace(r[|r| - 1])
  {
    var t := TrimStart(s);
    SliceOfSlice(s, t, TrimEnd(t));
    TrimEnd(t)
  }

  /** A string with no whitespace at either end is its own trim; in particular trimming is idempotent. */
  lemma TrimmedIsFixed(s: string)
    requires s != [] ==> !IsWhitespace(s[0]) && !IsWhitespace(s[|s| - 1])
    ensures Trim(s) == s
    ensures Trim(Trim(s)) == Trim(s)
  {
    assert TrimStart(s) == s;
    assert TrimEnd(s) == s;
  }

  /** `s.startsWith(prefix)`. */
  predicate StartsWith(s: string, prefix: string) {
    |prefix| <= |s| && s[..|prefix|] == prefix
  }

  /** `sub` occurs in `s` starting at position `k`. */
  predicate OccursAt(s: string, sub: string, k: int) {
    0 <= k <= |s| - |sub| && s[k..k + |sub|] == sub
  }

  /** `s.includes(sub)`: `sub` starts at some position of `s`. */
  predicate Contains(s: string, sub: string)
    decreases |s|
    ensures Contains(s, sub) <==> exists k :: OccursAt(s, sub, k)
  {
    if StartsWith(s, sub) then
      assert OccursAt(s, sub, 0);
      true
    else if |s| == 0 then
      assert forall k :: !OccursAt(s, sub, k);
      false
    else
      var t := s[1..];
      assert forall k :: OccursAt(t, sub, k) <==> OccursAt(s, sub, k + 1) by {
        forall k
          ensures OccursAt(t, sub, k) <==> OccursAt(s, sub, k + 1)
        {
          if 0 <= k <= |t| - |sub| {
            assert t[k..k + |sub|] == s[k + 1..k + 1 + |sub|];
          }
        }
      }
      assert !OccursAt(s, sub, 0);
      assert forall k :: OccursAt(s, sub, k) ==> OccursAt(t, sub, k - 1);
      Contains(t, sub)
  }

  /** `s.endsWith(suffix)`, case-sensitive. */
  predicate EndsWith(s: string, suffix: string)
    ensures EndsWith(s, suffix) <==>
      |suffix| <= |s| && forall i :: 0 <= i < |suffix| ==> s[|s| - |suffix| + i] == suffix[i]
  {
    |suffix| <= |s| && s[|s| - |suffix|..] == suffix
  }

  /** `s.substring(0, n)` for `n >= 0`: the first `n` characters, or all of `s` when it is shorter. */
  function Prefix(s: string, n: nat): (r: string)
    ensures |r| == if |s| <= n then |s| else n
    ensures r == s[..|r|]
  {
    if |s| <= n then s else s[..n]
  }

  /** Upper-casing never turns a character into whitespace or back. */
  lemma UpperKeepsWhitespace(c: char)
    ensures IsWhitespace(UpperChar(c)) == IsWhitespace(c)
  {
  }

  lemma {:induction false} TrimStartUpper(s: string)
    ensures TrimStart(ToUpper(s)) == ToUpper(TrimStart(s))
  {
    if |s| > 0 {
      UpperKeepsWhitespace(s[0]);
      assert ToUpper(s)[1..] == ToUpper(s[1..]);
      if IsWhitespace(s[0]) {
        TrimStartUpper(s[1..]);
      }
    }
  }

  lemma {:induction false} TrimEndUpper(s: string)
    ensures TrimEnd(ToUpper(s)) == ToUpper(TrimEnd(s))
  {
    if |s| > 0 {
      UpperKeepsWhitespace(s[|s| - 1]);
      assert ToUpper(s)[..|s| - 1] == ToUpper(s[..|s| - 1]);
      if IsWhitespace(s[|s| - 1]) {
        TrimEndUpper(s[..|s| - 1]);
      }
    }
  }

  /** Upper-casing and trimming commute, so `code.toUpperCase().trim()` equals `code.trim().toUpperCase()`. */
  lemma UpperTrimCommute(s: string)
    ensures Trim(ToUpper(s)) == ToUpper(Trim(s))
  {
    TrimStartUpper(s);
    TrimEndUpper(TrimStart(s));
  }
}
