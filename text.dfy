/** Characters and strings as the JavaScript code sees them: lower-casing,
    the regular-expression classes \d and \s, substring tests and parseInt. */
module Text {

  datatype Option<T> = None | Some(value: T)

  /** String.prototype.toLowerCase restricted to ASCII: 'A'..'Z' become
      'a'..'z', every other character is left as it is. */
  function LowerChar(c: char): (r: char)
    ensures 'A' <= c <= 'Z' ==> 'a' <= r <= 'z' && r as int == c as int + 32
    ensures !('A' <= c <= 'Z') ==> r == c
  {
    if 'A' <= c <= 'Z' then (c as int + 32) as char else c
  }

  function Lower(s: string): (r: string)
    ensures |r| == |s|
    ensures forall k {:trigger r[k]} :: 0 <= k < |s| ==> r[k] == LowerChar(s[k])
  {
    seq(|s|, k requires 0 <= k < |s| => LowerChar(s[k]))
  }

  /** The class \d of a regular expression: ASCII digits only. */
  predicate IsDigit(c: char) {
    '0' <= c <= '9'
  }

  /** The class \s of a JavaScript regular expression (WhiteSpace and
      LineTerminator of ECMA-262). */
  predicate IsSpace(c: char) {
    c == ' ' || c == '\t' || c == '\n' || c == '\r' || c == '\U{0B}' || c == '\U{0C}'
    || c == '\U{A0}' || c == '\U{1680}' || ('\U{2000}' <= c <= '\U{200A}')
    || c == '\U{2028}' || c == '\U{2029}' || c == '\U{202F}' || c == '\U{205F}'
    || c == '\U{3000}' || c == '\U{FEFF}'
  }

  /** p occurs in s at position i. */
  predicate StartsAt(s: string, i: int, p: string) {
    0 <= i && i + |p| <= |s| && s[i..i + |p|] == p
  }

  /** p occurs in s at position i when both sides are compared the way a
      regular expression with the 'i' flag compares characters. */
  predicate StartsAtIgnoringCase(s: string, i: int, p: string) {
    0 <= i && i + |p| <= |s| && forall k {:trigger LowerChar(p[k])} :: 0 <= k < |p| ==> LowerChar(s[i + k]) == LowerChar(p[k])
  }

  /** String.prototype.includes. */
  predicate Contains(s: string, p: string) {
    exists i | 0 <= i <= |s| - |p| :: StartsAt(s, i, p)
  }

  /** Some pattern of ps is a substring of s: the test of an unanchored
      alternation /p0|p1|.../ without flags, and of keywords.some(includes). */
  predicate ContainsAny(s: string, ps: seq<string>)
    ensures ContainsAny(s, ps) <==> exists k {:trigger Contains(s, ps[k])} :: 0 <= k < |ps| && Contains(s, ps[k])
  {
    |ps| > 0 && (Contains(s, ps[0]) || ContainsAny(s, ps[1..]))
  }

  /** Every character of an occurring pattern is a character of the text. */
  lemma CharsOf(s: string, p: string, c: char)
    requires Contains(s, p) && c in p
    ensures c in s
  {
    var i :| 0 <= i <= |s| - |p| && StartsAt(s, i, p);
    var k :| 0 <= k < |p| && p[k] == c;
    assert s[i..i + |p|][k] == c;
  }

  /** A pattern with a character the text lacks does not occur in it. */
  lemma Absent(s: string, p: string, c: char)
    requires c in p && c !in s
    ensures !Contains(s, p)
  {
    if Contains(s, p) {
      CharsOf(s, p, c);
    }
  }

  /** No pattern of ps occurs in s when each one has a character, listed in
      cs, that s lacks. */
  lemma NoneContained(s: string, ps: seq<string>, cs: string)
    requires |cs| == |ps|
    requires forall k :: 0 <= k < |ps| ==> cs[k] in ps[k] && cs[k] !in s
    ensures !ContainsAny(s, ps)
  {
    forall k | 0 <= k < |ps| ensures !Contains(s, ps[k]) {
      Absent(s, ps[k], cs[k]);
    }
  }

  lemma ContainsAt(s: string, i: int, p: string)
    requires StartsAt(s, i, p)
    ensures Contains(s, p)
  {
  }

  /** An occurrence of one of the patterns at a known position. */
  lemma ContainsAnyAt(s: string, ps: seq<string>, k: nat, i: int)
    requires k < |ps| && StartsAt(s, i, ps[k])
    ensures ContainsAny(s, ps)
  {
    ContainsAt(s, i, ps[k]);
  }

  /** Lower-casing works character by character, so it distributes over
      concatenation. */
  lemma LowerConcat(a: string, b: string)
    ensures Lower(a + b) == Lower(a) + Lower(b)
  {
    var l, r := Lower(a + b), Lower(a) + Lower(b);
    forall k | 0 <= k < |l| ensures l[k] == r[k] {
      if k < |a| {
        assert (a + b)[k] == a[k];
      } else {
        assert (a + b)[k] == b[k - |a|];
      }
    }
  }

  /** An occurrence in s is an occurrence, one further on, in s after a prefix. */
  lemma StartsAtAfter(a: string, s: string, i: int, p: string)
    requires StartsAt(s, i, p)
    ensures StartsAt(a + s, |a| + i, p)
  {
    assert (a + s)[|a| + i..|a| + i + |p|] == s[i..i + |p|];
  }

  /** Length of the run of digits that starts at position i (what a greedy
      \d* consumes there). */
  function DigitRun(s: string, i: nat): (n: nat)
    requires i <= |s|
    ensures i + n <= |s|
    decreases |s| - i
  {
    if i < |s| && IsDigit(s[i]) then 1 + DigitRun(s, i + 1) else 0
  }

  /** The run is all digits and is followed by a non-digit or the end. */
  lemma {:induction false} DigitRunIsMaximal(s: string, i: nat)
    requires i <= |s|
    ensures forall k {:trigger IsDigit(s[k])} :: i <= k < i + DigitRun(s, i) ==> IsDigit(s[k])
    ensures i + DigitRun(s, i) < |s| ==> !IsDigit(s[i + DigitRun(s, i)])
    decreases |s| - i
  {
    if i < |s| && IsDigit(s[i]) {
      DigitRunIsMaximal(s, i + 1);
    }
  }

  /** Length of the run of whitespace that starts at position i (what a
      greedy \s* consumes there). */
  function SpaceRun(s: string, i: nat): (n: nat)
    requires i <= |s|
    ensures i + n <= |s|
    decreases |s| - i
  {
    if i < |s| && IsSpace(s[i]) then 1 + SpaceRun(s, i + 1) else 0
  }

  /** The run is all whitespace and is followed by a non-space or the end. */
  lemma {:induction false} SpaceRunIsMaximal(s: string, i: nat)
    requires i <= |s|
    ensures forall k {:trigger IsSpace(s[k])} :: i <= k < i + SpaceRun(s, i) ==> IsSpace(s[k])
    ensures i + SpaceRun(s, i) < |s| ==> !IsSpace(s[i + SpaceRun(s, i)])
    decreases |s| - i
  {
    if i < |s| && IsSpace(s[i]) {
      SpaceRunIsMaximal(s, i + 1);
    }
  }

  /** The digit run at i is ds when ds occurs at i and is not followed by a
      digit. */
  lemma {:induction false} DigitRunOf(s: string, i: nat, ds: string)
    requires StartsAt(s, i, ds) && AllDigits(ds)
    requires i + |ds| < |s| ==> !IsDigit(s[i + |ds|])
    ensures DigitRun(s, i) == |ds|
    decreases |ds|
  {
    if ds != [] {
      assert s[i] == s[i..i + |ds|][0] == ds[0];
      assert IsDigit(ds[0]);
      assert s[i + 1..i + 1 + |ds[1..]|] == s[i..i + |ds|][1..];
      assert AllDigits(ds[1..]) by {
        forall k | 0 <= k < |ds[1..]| ensures IsDigit(ds[1..][k]) {
          assert ds[1..][k] == ds[k + 1] && IsDigit(ds[k + 1]);
        }
      }
      DigitRunOf(s, i + 1, ds[1..]);
    }
  }

  /** A single whitespace character followed by a non-space (or the end) is
      a whitespace run of length one. */
  lemma SpaceRunOne(s: string, i: nat)
    requires i < |s| && IsSpace(s[i]) && (i + 1 < |s| ==> !IsSpace(s[i + 1]))
    ensures SpaceRun(s, i) == 1
  {
    assert SpaceRun(s, i + 1) == 0;
  }

  /** Two lower-case words that both occur at i, ignoring case: the shorter
      one is a prefix of the longer one. */
  lemma BothMatchPrefix(q: string, i: int, a: string, b: string)
    requires StartsAtIgnoringCase(q, i, a) && Lower(a) == a && Lower(b) == b
    ensures StartsAtIgnoringCase(q, i, b) ==>
      (|a| <= |b| ==> b[..|a|] == a) && (|b| <= |a| ==> a[..|b|] == b)
  {
    if StartsAtIgnoringCase(q, i, b) {
      forall c | 0 <= c < |a| && 0 <= c < |b| ensures a[c] == b[c] {
        assert Lower(a)[c] == a[c] && Lower(b)[c] == b[c];
        assert LowerChar(q[i + c]) == LowerChar(a[c]) == LowerChar(b[c]);
      }
    }
  }

  predicate AllDigits(s: string) {
    forall k {:trigger IsDigit(s[k])} :: 0 <= k < |s| ==> IsDigit(s[k])
  }

  /** parseInt of a string made only of decimal digits. */
  function DigitsValue(s: string): (n: nat)
    requires AllDigits(s)
    ensures |s| == 1 ==> n == s[0] as int - '0' as int
  {
    if s == [] then 0
    else
      assert IsDigit(s[|s| - 1]);
      DigitsValue(s[..|s| - 1]) * 10 + (s[|s| - 1] as int - '0' as int)
  }

  function Pow10(n: nat): (r: nat)
    ensures r >= 1
  {
    if n == 0 then 1 else 10 * Pow10(n - 1)
  }

  lemma AllDigitsConcat(a: string, b: string)
    requires AllDigits(a) && AllDigits(b)
    ensures AllDigits(a + b)
  {
    forall k | 0 <= k < |a + b| ensures IsDigit((a + b)[k]) {
      if k < |a| {
        assert (a + b)[k] == a[k];
      } else {
        assert (a + b)[k] == b[k - |a|];
      }
    }
  }

  /** Appending a digit multiplies the place value of what comes before by 10. */
  lemma ShiftOneDigit(x: int, p: int, y: int, c: int)
    ensures (x * p + y) * 10 + c == x * (10 * p) + (y * 10 + c)
  {
    assert (x * p) * 10 == x * (10 * p);
  }

  /** parseInt reads decimal: the digits of a followed by those of b are
      worth a shifted past b, plus b. */
  lemma {:induction false} DigitsValueConcat(a: string, b: string)
    requires AllDigits(a) && AllDigits(b)
    ensures AllDigits(a + b)
    ensures DigitsValue(a + b) == DigitsValue(a) * Pow10(|b|) + DigitsValue(b)
    decreases |b|
  {
    AllDigitsConcat(a, b);
    if b == [] {
      assert a + b == a;
    } else {
      var init := b[..|b| - 1];
      assert AllDigits(init) by {
        forall k | 0 <= k < |init| ensures IsDigit(init[k]) {
          assert init[k] == b[k];
        }
      }
      assert (a + b)[..|a + b| - 1] == a + init;
      assert (a + b)[|a + b| - 1] == b[|b| - 1];
      DigitsValueConcat(a, init);
      var x, p, y, c := DigitsValue(a), Pow10(|init|), DigitsValue(init), b[|b| - 1] as int - '0' as int;
      assert DigitsValue(a + b) == DigitsValue(a + init) * 10 + c;
      assert DigitsValue(b) == y * 10 + c;
      assert Pow10(|b|) == 10 * p;
      ShiftOneDigit(x, p, y, c);
    }
  }

  /** parseInt of n digits is below 10^n: leading digits weigh the most. */
  lemma {:induction false} DigitsValueBound(s: string)
    requires AllDigits(s)
    ensures DigitsValue(s) < Pow10(|s|)
    decreases |s|
  {
    if s != [] {
      var init := s[..|s| - 1];
      assert AllDigits(init) by {
        forall k | 0 <= k < |init| ensures IsDigit(init[k]) {
          assert init[k] == s[k];
        }
      }
      assert IsDigit(s[|s| - 1]);
      DigitsValueBound(init);
    }
  }

  /** A lower-cased character is not an upper-case letter, and lower-casing
      it again changes nothing. */
  lemma LowerCharIdempotent(c: char)
    ensures !('A' <= LowerChar(c) <= 'Z') && LowerChar(LowerChar(c)) == LowerChar(c)
  {
  }

  /** Lower-casing twice is lower-casing once. */
  lemma LowerIdempotent(s: string)
    ensures Lower(Lower(s)) == Lower(s)
  {
    forall k | 0 <= k < |s| ensures Lower(Lower(s))[k] == Lower(s)[k] {
      LowerCharIdempotent(s[k]);
    }
  }

  /** A string in which no character is an upper-case ASCII letter is its own
      lower-case form. */
  lemma LowerOfLower(s: string)
    requires forall k :: 0 <= k < |s| ==> !('A' <= s[k] <= 'Z')
    ensures Lower(s) == s
  {
  }
}
