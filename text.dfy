/**
 * The string primitives the components rely on: ECMAScript's `String.prototype.trim`,
 * `toLowerCase` (ASCII letters only), `includes`, and the `\d` digit class used by the
 * chart-of-accounts code field.
 */
module Text {

  /** The ECMAScript WhiteSpace and LineTerminator code points: what `trim` strips. */
  predicate IsSpace(c: char) {
    || c == '\t' || c == '\n' || c == '\U{000B}' || c == '\U{000C}' || c == '\r'
    || c == ' ' || c == '\U{00A0}' || c == '\U{1680}' || ('\U{2000}' <= c <= '\U{200A}')
    || c == '\U{2028}' || c == '\U{2029}' || c == '\U{202F}' || c == '\U{205F}'
    || c == '\U{3000}' || c == '\U{FEFF}'
  }

  predicate AllSpace(s: string) {
    forall k :: 0 <= k < |s| ==> IsSpace(s[k])
  }

  /** Drops the leading white space. */
  function TrimStart(s: string): (r: string)
    ensures |r| <= |s| && r == s[|s| - |r|..]
    ensures AllSpace(s[..|s| - |r|])
    ensures r != [] ==> !IsSpace(r[0])
  {
    if s != [] && IsSpace(s[0]) then TrimStart(s[1..]) else s
  }

  /** Drops the trailing white space. */
  function TrimEnd(s: string): (r: string)
    ensures |r| <= |s| && r == s[..|r|]
    ensures AllSpace(s[|r|..])
    ensures r != [] ==> !IsSpace(r[|r| - 1])
  {
    if s != [] && IsSpace(s[|s| - 1]) then TrimEnd(s[..|s| - 1]) else s
  }

  /** `s.trim()`: the slice of `s` left once white space is removed from both ends. */
  function Trim(s: string): (r: string)
    ensures |r| <= |s|
    ensures r != [] ==> !IsSpace(r[0]) && !IsSpace(r[|r| - 1])
    ensures r == [] <==> AllSpace(s)
  {
    var t := TrimStart(s);
    var r := TrimEnd(t);
    TrimParts(s, t, r);
    r
  }

  /**
   * What `trim` returns is a contiguous piece of its input, and everything it drops on
   * either side is white space.
   */
  lemma TrimIsSlice(s: string)
    ensures Contains(s, Trim(s))
    ensures exists i :: OccursAt(s, Trim(s), i) && AllSpace(s[..i]) && AllSpace(s[i + |Trim(s)|..])
  {
    var t := TrimStart(s);
    var r := TrimEnd(t);
    assert Trim(s) == r;
    TrimDropsSpace(s, t, r);
    assert OccursAt(s, r, |s| - |t|);
  }

  /** The pieces of `s` around an end-trimmed `r` of a start-trimmed `t` are white space. */
  lemma TrimDropsSpace(s: string, t: string, r: string)
    requires |t| <= |s| && t == s[|s| - |t|..] && AllSpace(s[..|s| - |t|])
    requires |r| <= |t| && r == t[..|r|] && AllSpace(t[|r|..])
    ensures OccursAt(s, r, |s| - |t|)
    ensures AllSpace(s[..|s| - |t|]) && AllSpace(s[|s| - |t| + |r|..])
  {
    TrimSlice(s, t, r);
    assert s[|s| - |t| + |r|..] == t[|r|..];
  }

  /** The facts about `trim`, for a start-trimmed `t` of `s` and an end-trimmed `r` of `t`. */
  lemma TrimParts(s: string, t: string, r: string)
    requires |t| <= |s| && t == s[|s| - |t|..] && AllSpace(s[..|s| - |t|])
    requires t != [] ==> !IsSpace(t[0])
    requires |r| <= |t| && r == t[..|r|] && AllSpace(t[|r|..])
    ensures OccursAt(s, r, |s| - |t|)
    ensures r != [] ==> !IsSpace(r[0])
    ensures r == [] <==> AllSpace(s)
  {
    TrimSlice(s, t, r);
    TrimFirst(t, r);
    TrimEmpty(s, t, r);
  }

  lemma TrimFirst(t: string, r: string)
    requires |r| <= |t| && r == t[..|r|]
    requires t != [] ==> !IsSpace(t[0])
    ensures r != [] ==> !IsSpace(r[0])
  {
    if r != [] {
      assert r[0] == t[0];
    }
  }

  lemma TrimEmpty(s: string, t: string, r: string)
    requires |t| <= |s| && t == s[|s| - |t|..] && AllSpace(s[..|s| - |t|])
    requires t != [] ==> !IsSpace(t[0])
    requires |r| <= |t| && r == t[..|r|] && AllSpace(t[|r|..])
    ensures r == [] <==> AllSpace(s)
  {
    var a := |s| - |t|;
    if r == [] {
      assert t[|r|..] == t == s[a..];
      AllSpaceJoin(s, a);
    } else {
      assert s[a] == t[0];
    }
  }

  lemma TrimSlice(s: string, t: string, r: string)
    requires |t| <= |s| && t == s[|s| - |t|..]
    requires |r| <= |t| && r == t[..|r|]
    ensures OccursAt(s, r, |s| - |t|)
  {
  }

  lemma AllSpaceJoin(s: string, a: int)
    requires 0 <= a <= |s|
    requires AllSpace(s[..a]) && AllSpace(s[a..])
    ensures AllSpace(s)
  {
    forall k | 0 <= k < |s| ensures IsSpace(s[k]) {
      if k < a {
        assert s[k] == s[..a][k];
      } else {
        assert s[k] == s[a..][k - a];
      }
    }
  }

  /** Trimming text that is already trimmed leaves it as it is. */
  lemma TrimTrimmed(s: string)
    requires s != [] ==> !IsSpace(s[0]) && !IsSpace(s[|s| - 1])
    ensures Trim(s) == s
  {
  }

  /** `trim` is idempotent. */
  lemma TrimIdempotent(s: string)
    ensures Trim(Trim(s)) == Trim(s)
  {
    TrimTrimmed(Trim(s));
  }

  /** `toLowerCase` on one character, restricted to the ASCII letters. */
  function LowerChar(c: char): (r: char)
    ensures 'A' <= c <= 'Z' ==> 'a' <= r <= 'z' && r as int - c as int == 'a' as int - 'A' as int
    ensures !('A' <= c <= 'Z') ==> r == c
  {
    if 'A' <= c <= 'Z' then (c as int - 'A' as int + 'a' as int) as char else c
  }

  /** `toLowerCase`: each character lowered on its own, ASCII letters only. */
  function ToLower(s: string): (r: string)
    ensures |r| == |s|
    ensures forall i :: 0 <= i < |s| ==> r[i] == LowerChar(s[i])
  {
    seq(|s|, i requires 0 <= i < |s| => LowerChar(s[i]))
  }

  /** `t` occurs in `s` starting at index `i`. */
  predicate OccursAt(s: string, t: string, i: int) {
    0 <= i <= |s| - |t| && s[i..i + |t|] == t
  }

  /** `s.includes(t)`: `t` occurs in `s` as a contiguous piece. */
  predicate Contains(s: string, t: string) {
    exists i | 0 <= i <= |s| - |t| :: OccursAt(s, t, i)
  }

  /** A piece placed between two others is included in the whole. */
  lemma ContainsMiddle(p: string, t: string, q: string)
    ensures Contains(p + t + q, t)
  {
    assert (p + t + q)[|p|..|p| + |t|] == t;
    assert OccursAt(p + t + q, t, |p|);
  }

  /** Every string includes the empty string. */
  lemma ContainsEmpty(s: string)
    ensures Contains(s, "")
  {
    assert OccursAt(s, "", 0);
  }

  /** The `\d` class of a JavaScript regular expression: the ASCII digits only. */
  predicate IsDigit(c: char) {
    '0' <= c <= '9'
  }

  predicate AllDigits(s: string) {
    forall k :: 0 <= k < |s| ==> IsDigit(s[k])
  }

  /** `/^\d+$/.test(s)`: one digit or more, and nothing else. */
  predicate IsNumeric(s: string) {
    s != [] && AllDigits(s)
  }

  /** `parseInt` of one digit character. */
  function DigitValue(c: char): (n: int)
    requires IsDigit(c)
    ensures 0 <= n <= 9
  {
    c as int - '0' as int
  }

  /** `s.replace(/\D/g, '')`: the digits of `s`, in order. */
  function KeepDigits(s: string): (r: string)
    ensures |r| <= |s|
    ensures AllDigits(r)
  {
    if s == [] then []
    else (if IsDigit(s[0]) then [s[0]] else []) + KeepDigits(s[1..])
  }

  /** The sanitiser keeps text that is already all digits as it is. */
  lemma {:induction false} KeepDigitsOfDigits(s: string)
    requires AllDigits(s)
    ensures KeepDigits(s) == s
  {
    if s != [] {
      KeepDigitsOfDigits(s[1..]);
    }
  }

  /** The sanitiser distributes over concatenation, so every digit typed is kept in place. */
  lemma {:induction false} KeepDigitsAppend(a: string, b: string)
    ensures KeepDigits(a + b) == KeepDigits(a) + KeepDigits(b)
  {
    if a != [] {
      assert (a + b)[1..] == a[1..] + b;
      KeepDigitsAppend(a[1..], b);
    } else {
      assert a + b == b;
    }
  }

  /**
   * The sanitiser on one character: a digit is kept, anything else is dropped. With
   * `KeepDigitsAppend` this fixes the sanitiser on every input.
   */
  lemma KeepDigitsOne(c: char)
    ensures IsDigit(c) ==> KeepDigits([c]) == [c]
    ensures !IsDigit(c) ==> KeepDigits([c]) == []
  {
  }

  /** Sanitising twice is sanitising once. */
  lemma KeepDigitsIdempotent(s: string)
    ensures KeepDigits(KeepDigits(s)) == KeepDigits(s)
  {
    KeepDigitsOfDigits(KeepDigits(s));
  }
}
