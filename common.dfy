/**
 * Shared vocabulary: optional values and results, the rounding the services
 * apply with `Math.round`, and the two string normalisations they use
 * (`toLowerCase` and `trim`).
 */
module Common {

  datatype Option<T> = None | Some(value: T)

  datatype Result<T, E> = Success(value: T) | Failure(error: E)

  function Min(a: real, b: real): (r: real)
    ensures r <= a && r <= b
    ensures r == a || r == b
  {
    if a <= b then a else b
  }

  function Abs(x: real): (r: real)
    ensures r >= 0.0
    ensures r == x || r == -x
  {
    if x < 0.0 then -x else x
  }

  /** `Math.round` on a finite number: the nearest integer, halves rounded up. */
  function Round(x: real): (r: int)
    ensures x - 0.5 < r as real <= x + 0.5
  {
    (x + 0.5).Floor
  }

  lemma RoundMonotone(x: real, y: real)
    requires x <= y
    ensures Round(x) <= Round(y)
  {
  }

  lemma RoundOfInteger(n: int)
    ensures Round(n as real) == n
  {
  }

  /** `Math.round(x * 10) / 10`: rounding to one decimal. */
  function Round1(x: real): (r: real)
    ensures x - 0.05 < r <= x + 0.05
    ensures (10.0 * r).Floor as real == 10.0 * r
  {
    Round(10.0 * x) as real / 10.0
  }

  lemma Round1Monotone(x: real, y: real)
    requires x <= y
    ensures Round1(x) <= Round1(y)
  {
    RoundMonotone(10.0 * x, 10.0 * y);
  }

  /** `Math.round(x * 100) / 100`: rounding to two decimals. */
  function Round2(x: real): (r: real)
    ensures x - 0.005 < r <= x + 0.005
    ensures (100.0 * r).Floor as real == 100.0 * r
  {
    Round(100.0 * x) as real / 100.0
  }

  /** One decimal and the half-open band around `x` leave `Round1(x)` as the only choice. */
  lemma Round1Unique(x: real, r: real)
    requires (10.0 * r).Floor as real == 10.0 * r
    requires x - 0.05 < r <= x + 0.05
    ensures r == Round1(x)
  {
    var n := (10.0 * r).Floor;
    var m := Round(10.0 * x);
    assert 10.0 * x - 0.5 < n as real <= 10.0 * x + 0.5;
    assert 10.0 * x - 0.5 < m as real <= 10.0 * x + 0.5;
    assert n == m;
  }

  /** Two decimals and the half-open band around `x` leave `Round2(x)` as the only choice. */
  lemma Round2Unique(x: real, r: real)
    requires (100.0 * r).Floor as real == 100.0 * r
    requires x - 0.005 < r <= x + 0.005
    ensures r == Round2(x)
  {
    var n := (100.0 * r).Floor;
    var m := Round(100.0 * x);
    assert 100.0 * x - 0.5 < n as real <= 100.0 * x + 0.5;
    assert 100.0 * x - 0.5 < m as real <= 100.0 * x + 0.5;
    assert n == m;
  }

  lemma Round2NonNegative(x: real)
    ensures x >= 0.0 ==> Round2(x) >= 0.0
  {
    if x >= 0.0 {
      RoundMonotone(0.0, 100.0 * x);
      RoundOfInteger(0);
    }
  }

  /** `Math.trunc`, which `%` uses for its quotient. */
  function Trunc(x: real): (r: int)
    ensures x >= 0.0 ==> r as real <= x < r as real + 1.0
    ensures x < 0.0 ==> r as real - 1.0 < x <= r as real
  {
    if x >= 0.0 then x.Floor else -((-x).Floor)
  }

  /** The `%` operator on numbers: the remainder has the sign of the dividend. */
  function JsRem(x: real, y: real): (r: real)
    requires y > 0.0
    ensures x >= 0.0 ==> 0.0 <= r < y
    ensures x < 0.0 ==> -y < r <= 0.0
    ensures Trunc(x / y) as real + r / y == x / y
  {
    var q: real := Trunc(x / y) as real;
    FractionalPart(x, y, q);
    x - q * y
  }

  lemma FractionalPart(x: real, y: real, q: real)
    requires y > 0.0
    requires x >= 0.0 ==> q <= x / y < q + 1.0
    requires x < 0.0 ==> q - 1.0 < x / y <= q
    ensures x >= 0.0 ==> 0.0 <= x - q * y < y
    ensures x < 0.0 ==> -y < x - q * y <= 0.0
    ensures q + (x - q * y) / y == x / y
  {
    QuotientOfDifference(x, q, y);
    if x >= 0.0 {
      AtMostQuotient(x, y, q);
      BelowQuotient(x, y, q + 1.0);
      assert (q + 1.0) * y == q * y + y;
    } else {
      AboveQuotient(x, y, q - 1.0);
      assert (q - 1.0) * y == q * y - y;
      AtLeastQuotient(x, y, q);
    }
  }

  // Each bound between a number and a quotient, multiplied out by the positive divisor.

  lemma AtMostQuotient(x: real, y: real, q: real)
    requires y > 0.0 && q <= x / y
    ensures q * y <= x
  {
    ScaleAtMost(q, x / y, y);
  }

  lemma AtLeastQuotient(x: real, y: real, q: real)
    requires y > 0.0 && x / y <= q
    ensures x <= q * y
  {
    ScaleAtMost(x / y, q, y);
  }

  lemma BelowQuotient(x: real, y: real, r: real)
    requires y > 0.0 && x / y < r
    ensures x < r * y
  {
    ScaleBelow(x / y, r, y);
  }

  lemma AboveQuotient(x: real, y: real, r: real)
    requires y > 0.0 && r < x / y
    ensures r * y < x
  {
    ScaleBelow(r, x / y, y);
  }

  lemma ScaleAtMost(a: real, b: real, y: real)
    requires a <= b && y > 0.0
    ensures a * y <= b * y
  {
  }

  lemma ScaleBelow(a: real, b: real, y: real)
    requires a < b && y > 0.0
    ensures a * y < b * y
  {
  }

  lemma QuotientOfDifference(x: real, q: real, y: real)
    requires y != 0.0
    ensures (x - q * y) / y == x / y - q
  {
  }

  /** `toLowerCase` restricted to the ASCII letters. */
  function LowerChar(c: char): (d: char)
    ensures 'A' <= c <= 'Z' ==> 'a' <= d <= 'z' && d as int - c as int == 'a' as int - 'A' as int
    ensures !('A' <= c <= 'Z') ==> d == c
  {
    if 'A' <= c <= 'Z' then (c as int - 'A' as int + 'a' as int) as char else c
  }

  function ToLower(s: string): (r: string)
    ensures |r| == |s|
    ensures forall i :: 0 <= i < |s| ==> r[i] == LowerChar(s[i])
  {
    if s == [] then [] else [LowerChar(s[0])] + ToLower(s[1..])
  }

  lemma {:induction false} ToLowerAppend(a: string, b: string)
    ensures ToLower(a + b) == ToLower(a) + ToLower(b)
  {
    if a == [] {
      assert a + b == b;
    } else {
      assert (a + b)[0] == a[0];
      assert (a + b)[1..] == a[1..] + b;
      ToLowerAppend(a[1..], b);
    }
  }

  /** Lower-casing twice is lower-casing once. */
  lemma ToLowerIdempotent(s: string)
    ensures ToLower(ToLower(s)) == ToLower(s)
  {
    forall i | 0 <= i < |s| ensures ToLower(ToLower(s))[i] == ToLower(s)[i] {
      assert LowerChar(LowerChar(s[i])) == LowerChar(s[i]);
    }
  }

  /** The characters `trim` removes: white space and line terminators. */
  predicate IsTrimmable(c: char) {
    || c == '\t' || c == '\n' || c == '\U{000B}' || c == '\U{000C}' || c == '\r'
    || c == ' ' || c == '\U{00A0}' || c == '\U{1680}'
    || ('\U{2000}' <= c <= '\U{200A}')
    || c == '\U{2028}' || c == '\U{2029}' || c == '\U{202F}' || c == '\U{205F}'
    || c == '\U{3000}' || c == '\U{FEFF}'
  }

  function TrimStart(s: string): (r: string)
    ensures |r| <= |s| && r == s[|s| - |r|..]
    ensures forall i :: 0 <= i < |s| - |r| ==> IsTrimmable(s[i])
    ensures r == [] || !IsTrimmable(r[0])
  {
    if s != [] && IsTrimmable(s[0]) then TrimStart(s[1..]) else s
  }

  function TrimEnd(s: string): (r: string)
    ensures |r| <= |s| && r == s[..|r|]
    ensures forall i :: |r| <= i < |s| ==> IsTrimmable(s[i])
    ensures r == [] || !IsTrimmable(r[|r| - 1])
  {
    if s != [] && IsTrimmable(s[|s| - 1]) then TrimEnd(s[..|s| - 1]) else s
  }

  /** Lower-casing neither makes nor unmakes white space, and leaves white space as it is. */
  lemma LowerCharTrimmable(c: char)
    ensures IsTrimmable(LowerChar(c)) <==> IsTrimmable(c)
    ensures IsTrimmable(c) ==> LowerChar(c) == c
  {
  }

  lemma ToLowerKeepsPadding(pad: string)
    requires forall i :: 0 <= i < |pad| ==> IsTrimmable(pad[i])
    ensures ToLower(pad) == pad
  {
    forall i | 0 <= i < |pad| ensures ToLower(pad)[i] == pad[i] {
      LowerCharTrimmable(pad[i]);
    }
  }

  /** Leading white space does not survive `TrimStart`. */
  lemma {:induction false} TrimStartSkipsPadding(pad: string, t: string)
    requires forall i :: 0 <= i < |pad| ==> IsTrimmable(pad[i])
    ensures TrimStart(pad + t) == TrimStart(t)
  {
    if pad != [] {
      assert (pad + t)[0] == pad[0];
      assert (pad + t)[1..] == pad[1..] + t;
      TrimStartSkipsPadding(pad[1..], t);
    } else {
      assert pad + t == t;
    }
  }

  /** Trailing white space does not survive `TrimEnd`. */
  lemma {:induction false} TrimEndSkipsPadding(t: string, pad: string)
    requires forall i :: 0 <= i < |pad| ==> IsTrimmable(pad[i])
    ensures TrimEnd(t + pad) == TrimEnd(t)
  {
    if pad != [] {
      var front := pad[..|pad| - 1];
      assert (t + pad)[|t + pad| - 1] == pad[|pad| - 1];
      assert (t + pad)[..|t + pad| - 1] == t + front;
      TrimEndSkipsPadding(t, front);
    } else {
      assert t + pad == t;
    }
  }

  /** `trim`: the longest infix that neither starts nor ends with a trimmable character. */
  function Trim(s: string): (r: string)
    ensures |r| <= |s|
    ensures r == [] || (!IsTrimmable(r[0]) && !IsTrimmable(r[|r| - 1]))
    ensures s == [] || (!IsTrimmable(s[0]) && !IsTrimmable(s[|s| - 1])) ==> r == s
  {
    TrimEnd(TrimStart(s))
  }

  /**
   * `trim` keeps one window of its input: everything before the window and
   * everything after it is trimmable.
   */
  lemma TrimWindow(s: string)
    ensures var r, k := Trim(s), |s| - |TrimStart(s)|;
      && k + |r| <= |s| && r == s[k..k + |r|]
      && (forall i :: 0 <= i < k ==> IsTrimmable(s[i]))
      && (forall i :: k + |r| <= i < |s| ==> IsTrimmable(s[i]))
  {
    var t := TrimStart(s);
    var k := |s| - |t|;
    assert t == s[k..];
    var r := TrimEnd(t);
    assert r == t[..|r|];
    forall i | k + |r| <= i < |s| ensures IsTrimmable(s[i]) {
      assert s[i] == t[i - k];
    }
  }

  /** `trim` strips any white space around a word that neither starts nor ends with white space. */
  lemma TrimIgnoresPadding(left: string, word: string, right: string)
    requires forall i :: 0 <= i < |left| ==> IsTrimmable(left[i])
    requires forall i :: 0 <= i < |right| ==> IsTrimmable(right[i])
    requires word != [] && !IsTrimmable(word[0]) && !IsTrimmable(word[|word| - 1])
    ensures Trim(left + word + right) == word
  {
    assert left + word + right == left + (word + right);
    TrimStartSkipsPadding(left, word + right);
    assert (word + right)[0] == word[0];
    assert TrimStart(word + right) == word + right;
    TrimEndSkipsPadding(word, right);
    assert TrimEnd(word) == word;
  }

  /** `a` is `b` with some elements left out and the rest kept in order. */
  ghost predicate IsSubsequence<T>(a: seq<T>, b: seq<T>)
    decreases |b|
  {
    if a == [] then true
    else if b == [] then false
    else (a[0] == b[0] && IsSubsequence(a[1..], b[1..])) || IsSubsequence(a, b[1..])
  }
}
