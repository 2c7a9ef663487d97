/** String helpers that the Python source gets from its standard library:
    str.strip(), decimal digits, str(int), zero padding and str.lower(). */
module Text {

  predicate IsDigit(c: char) { '0' <= c <= '9' }

  predicate AllDigits(s: string) { forall i :: 0 <= i < |s| ==> IsDigit(s[i]) }

  /** The characters for which Python's str.isspace() holds. */
  predicate IsSpace(c: char) {
    || c == ' ' || '\t' <= c <= '\r' || '\U{1c}' <= c <= '\U{1f}'
    || c == '\U{85}' || c == '\U{a0}' || c == '\U{1680}' || '\U{2000}' <= c <= '\U{200a}'
    || c == '\U{2028}' || c == '\U{2029}' || c == '\U{202f}' || c == '\U{205f}' || c == '\U{3000}'
  }

  function TrimLeft(s: string): (r: string)
    ensures |r| <= |s| && r == s[|s| - |r|..]
    ensures r == [] || !IsSpace(r[0])
    ensures forall i :: 0 <= i < |s| - |r| ==> IsSpace(s[i])
  {
    if s != [] && IsSpace(s[0]) then TrimLeft(s[1..]) else s
  }

  function TrimRight(s: string): (r: string)
    ensures |r| <= |s| && r == s[..|r|]
    ensures r == [] || !IsSpace(r[|r| - 1])
    ensures forall i :: |r| <= i < |s| ==> IsSpace(s[i])
  {
    if s != [] && IsSpace(s[|s| - 1]) then TrimRight(s[..|s| - 1]) else s
  }

  /** Python's str.strip() without arguments: drops leading and trailing
      whitespace and keeps everything between. */
  function Strip(s: string): (r: string)
    ensures r == [] || (!IsSpace(r[0]) && !IsSpace(r[|r| - 1]))
  {
    TrimRight(TrimLeft(s))
  }

  /** A string that neither starts nor ends with whitespace is its own strip. */
  lemma StripUnchanged(s: string)
    requires s == [] || (!IsSpace(s[0]) && !IsSpace(s[|s| - 1]))
    ensures Strip(s) == s
  {
  }

  /** Stripping removes only whitespace: a string with a non-space character
      never strips to the empty string. */
  lemma StripNonEmpty(s: string, i: nat)
    requires i < |s| && !IsSpace(s[i])
    ensures Strip(s) != []
  {
    var l := TrimLeft(s);
    assert |l| > |s| - 1 - i;
    assert l[i - (|s| - |l|)] == s[i];
  }

  lemma StripIdempotent(s: string)
    ensures Strip(Strip(s)) == Strip(s)
  {
    StripUnchanged(Strip(s));
  }

  // ---- decimal digits -------------------------------------------------------

  function DigitChar(d: nat): (c: char)
    requires d < 10
    ensures IsDigit(c)
  {
    (48 + d) as char
  }

  function DigitValue(c: char): (d: nat)
    requires IsDigit(c)
    ensures d < 10 && DigitChar(d) == c
  {
    c as int - 48
  }

  function Pow10(k: nat): (p: nat)
    ensures p >= 1
  {
    if k == 0 then 1 else 10 * Pow10(k - 1)
  }

  /** The number a string of decimal digits denotes (Python's int(s)). */
  function DigitsValue(s: string): (n: nat)
    requires AllDigits(s)
    ensures n < Pow10(|s|)
  {
    if s == [] then 0 else 10 * DigitsValue(s[..|s| - 1]) + DigitValue(s[|s| - 1])
  }

  /** The w lowest decimal digits of n, most significant first; for
      n < 10^w this is Python's f"{n:0{w}d}". */
  function FixedDigits(n: nat, w: nat): (r: string)
    ensures |r| == w && AllDigits(r)
  {
    if w == 0 then [] else FixedDigits(n / 10, w - 1) + [DigitChar(n % 10)]
  }

  /** Python's default limit on the digits int() and str() convert between
      an integer and its decimal text (version 3.11 on); beyond it they
      raise ValueError. */
  const MaxIntDigits: nat := 4300

  /** Python's str(n) for a non-negative integer: no leading zero. */
  function NatToString(n: nat): (r: string)
    ensures r != [] && AllDigits(r) && DigitsValue(r) == n
    ensures |r| > 1 ==> r[0] != '0'
  {
    if n < 10 then [DigitChar(n)]
    else
      var r := NatToString(n / 10) + [DigitChar(n % 10)];
      assert r[..|r| - 1] == NatToString(n / 10);
      r
  }

  /** Python's str(i) for any integer. */
  function IntToString(i: int): (r: string)
    ensures r != []
  {
    if i < 0 then "-" + NatToString(-i) else NatToString(i)
  }

  function Zeros(k: nat): (r: string)
    ensures |r| == k && forall i :: 0 <= i < k ==> r[i] == '0'
  {
    if k == 0 then [] else Zeros(k - 1) + "0"
  }

  lemma {:induction false} MulAtLeast(m: nat, d: nat)
    requires d >= 1
    ensures m * d >= m
  {
    if d > 1 {
      MulAtLeast(m, d - 1);
      assert m * d == m * (d - 1) + m;
    }
  }

  /** Euclidean division is determined by its quotient and remainder. */
  lemma ModUnique(n: int, m: int, a: int, r: int)
    requires m > 0 && 0 <= r < m && n == m * a + r
    ensures n % m == r && n / m == a
  {
    var q, s := n / m, n % m;
    assert m * a - m * q == m * (a - q);
    if a > q {
      MulAtLeast(m, a - q);
    } else if a < q {
      MulAtLeast(m, q - a);
    }
  }

  /** Taking the last digit off n and then w - 1 more digits is taking w digits. */
  lemma ModStep(n: nat, p: nat)
    requires p >= 1
    ensures 10 * ((n / 10) % p) + n % 10 == n % (10 * p)
  {
    var q, d := n / 10, n % 10;
    var a, b := q / p, q % p;
    assert q == p * a + b;
    assert n == 10 * q + d;
    assert n == (10 * p) * a + (10 * b + d);
    ModUnique(n, 10 * p, a, 10 * b + d);
  }

  /** FixedDigits keeps exactly the value of the w lowest digits. */
  lemma {:induction false} FixedDigitsValue(n: nat, w: nat)
    ensures DigitsValue(FixedDigits(n, w)) == n % Pow10(w)
  {
    if w > 0 {
      FixedDigitsValue(n / 10, w - 1);
      var r := FixedDigits(n, w);
      assert r[..w - 1] == FixedDigits(n / 10, w - 1);
      ModStep(n, Pow10(w - 1));
    }
  }

  /** Reading a digit string and writing it back at the same width gives the
      same string: leading zeros are kept. */
  lemma {:induction false} DigitsRoundTrip(s: string)
    requires AllDigits(s)
    ensures FixedDigits(DigitsValue(s), |s|) == s
  {
    if s != [] {
      var init, c := s[..|s| - 1], s[|s| - 1];
      var v := DigitsValue(s);
      ModUnique(v, 10, DigitsValue(init), DigitValue(c));
      DigitsRoundTrip(init);
      assert s == init + [c];
    }
  }

  lemma {:induction false} FixedDigitsZero(k: nat)
    ensures FixedDigits(0, k) == Zeros(k)
  {
    if k > 0 {
      FixedDigitsZero(k - 1);
    }
  }

  /** The last w characters of Zeros(a) + str(n), for w <= a, are the w
      lowest digits of n. This is what ("0000" + str(n))[-4:] computes. */
  lemma {:induction false} PaddedSuffix(n: nat, a: nat, w: nat)
    requires w <= a
    ensures var s := Zeros(a) + NatToString(n); s[|s| - w..] == FixedDigits(n, w)
  {
    var s := Zeros(a) + NatToString(n);
    if w > 0 {
      var c := DigitChar(n % 10);
      assert FixedDigits(n, w) == FixedDigits(n / 10, w - 1) + [c];
      if n < 10 {
        assert n / 10 == 0 && s == Zeros(a) + [c];
        FixedDigitsZero(w - 1);
        SuffixSnoc(Zeros(a), c, w - 1);
        assert Zeros(a)[a - (w - 1)..] == Zeros(w - 1);
      } else {
        var t := Zeros(a) + NatToString(n / 10);
        assert s == t + [c];
        PaddedSuffix(n / 10, a, w - 1);
        SuffixSnoc(t, c, w - 1);
      }
    }
  }

  /** The last k + 1 characters of t + [c] are the last k of t, then c. */
  lemma SuffixSnoc(t: string, c: char, k: nat)
    requires k <= |t|
    ensures (t + [c])[|t| - k..] == t[|t| - k..] + [c]
  {
  }

  /** The number of digits of str(n) is at most k exactly when n < 10^k. */
  lemma {:induction false} NatToStringLength(n: nat, k: nat)
    requires k >= 1
    ensures |NatToString(n)| <= k <==> n < Pow10(k)
  {
    if n >= 10 {
      if k == 1 {
        assert |NatToString(n)| >= 2;
      } else {
        NatToStringLength(n / 10, k - 1);
      }
    }
  }

  // ---- case -----------------------------------------------------------------

  predicate IsUpper(c: char) {
    'A' <= c <= 'Z'
  }

  /** No ASCII capital letter occurs in s. */
  predicate NoUpper(s: string) {
    forall i :: 0 <= i < |s| ==> !IsUpper(s[i])
  }

  function LowerChar(c: char): char {
    if IsUpper(c) then (c as int + 32) as char else c
  }

  /** a and b agree letter by letter when case is ignored. */
  predicate SameIgnoringCase(a: string, b: string) {
    |a| == |b| && forall i :: 0 <= i < |a| ==> LowerChar(a[i]) == LowerChar(b[i])
  }

  /** Python's str.lower() on ASCII letters: no capital is left, each capital
      becomes the small letter at the same place in the alphabet, and every
      other character is kept. */
  function Lower(s: string): (r: string)
    ensures |r| == |s| && NoUpper(r)
    ensures forall i :: 0 <= i < |s| && IsUpper(s[i]) ==> 'a' <= r[i] <= 'z' && r[i] as int - 'a' as int == s[i] as int - 'A' as int
    ensures forall i :: 0 <= i < |s| && !IsUpper(s[i]) ==> r[i] == s[i]
  {
    seq(|s|, i requires 0 <= i < |s| => LowerChar(s[i]))
  }

  /** Lower-casing twice is lower-casing once. */
  lemma LowerIdempotent(s: string)
    ensures Lower(Lower(s)) == Lower(s)
  {
  }

  /** The lower-cased text is the only text without capitals that equals s
      when case is ignored. */
  lemma LowerUnique(s: string, t: string)
    ensures SameIgnoringCase(Lower(s), s) && NoUpper(Lower(s))
    ensures NoUpper(t) && SameIgnoringCase(t, s) ==> t == Lower(s)
  {
    var r := Lower(s);
    if NoUpper(t) && SameIgnoringCase(t, s) {
      forall i | 0 <= i < |s|
        ensures t[i] == r[i]
      {
        assert LowerChar(t[i]) == t[i] && LowerChar(r[i]) == r[i];
      }
    }
  }

  /** Two texts lower-case to the same text exactly when they agree letter
      by letter ignoring case. */
  lemma LowerSameIff(s: string, t: string)
    ensures Lower(s) == Lower(t) <==> SameIgnoringCase(s, t)
  {
    if Lower(s) == Lower(t) {
      forall i | 0 <= i < |s|
        ensures LowerChar(s[i]) == LowerChar(t[i])
      {
        assert Lower(s)[i] == Lower(t)[i];
      }
    }
    if SameIgnoringCase(s, t) {
      forall i | 0 <= i < |s|
        ensures Lower(s)[i] == Lower(t)[i]
      {
      }
    }
  }
}
