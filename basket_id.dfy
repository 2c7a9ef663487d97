/** Basket identifiers (asrs_lib/utils.py, normalize_basket_id): every basket
    id the system stores is 'B' followed by nine zero-padded decimal digits. */
module BasketId {
  import opened Wrappers
  import opened Text

  /** The Python values the normaliser is called with: None, an int or a str. */
  datatype Value = NoneValue | IntValue(i: int) | StrValue(s: string)

  /** The three ValueError messages normalize_basket_id can raise. */
  datatype NormError =
    | Required      // "basket_id is required"
    | OutOfRange    // "basket number must be 0..999999999"
    | InvalidFormat // "invalid basket id/number format"
    | DigitLimit    // int() or str() refuses a number of more than 4300 digits

  const MaxBasket: nat := 999_999_999

  /** str(value) for the values above. */
  function PyStr(v: Value): string
    requires !v.NoneValue?
  {
    match v
    case IntValue(i) => IntToString(i)
    case StrValue(s) => s
  }

  /** The digits of str(i), without the sign. */
  function IntDigits(i: int): string {
    NatToString(if i < 0 then -i else i)
  }

  /** The canonical shape: 10 characters, 'B' and nine digits. */
  predicate IsCanonical(s: string) {
    |s| == 10 && s[0] == 'B' && AllDigits(s[1..])
  }

  /** f"B{n:09d}" */
  function Canonical(n: nat): (r: string)
    requires n <= MaxBasket
    ensures IsCanonical(r)
  {
    "B" + FixedDigits(n, 9)
  }

  /** The number a canonical id carries. */
  function Number(s: string): nat
    requires IsCanonical(s)
  {
    DigitsValue(s[1..])
  }

  /** The regular expression ^[bB](\d{1,9})$ */
  predicate PrefixedForm(s: string) {
    2 <= |s| <= 10 && (s[0] == 'B' || s[0] == 'b') && AllDigits(s[1..])
  }

  function Normalize(v: Value): (r: Result<string, NormError>)
    ensures v.NoneValue? <==> r == Failure(Required)
    ensures r.Success? ==> IsCanonical(r.value)
  {
    if v.NoneValue? then Failure(Required)
    else if v.IntValue? && |IntDigits(v.i)| > MaxIntDigits then Failure(DigitLimit)
    else Match(Strip(PyStr(v)))
  }

  /** The pattern matching normalize_basket_id does on the stripped text:
      ^\d+$ first, then ^[bB](\d{1,9})$, each with the range check; int()
      refuses a run of digits longer than Python's limit before any range
      check. */
  function Match(s: string): (r: Result<string, NormError>)
    ensures r.Success? ==> IsCanonical(r.value)
    ensures r != Failure(Required)
    ensures r == Failure(DigitLimit) <==> |s| > MaxIntDigits && AllDigits(s)
  {
    if s != [] && AllDigits(s) then
      if |s| > MaxIntDigits then Failure(DigitLimit)
      else
        var n := DigitsValue(s);
        if n <= MaxBasket then Success(Canonical(n)) else Failure(OutOfRange)
    else if PrefixedForm(s) then
      var n := DigitsValue(s[1..]);
      if n <= MaxBasket then Success(Canonical(n)) else Failure(OutOfRange)
    else
      Failure(InvalidFormat)
  }

  lemma Pow10Nine()
    ensures Pow10(9) == MaxBasket + 1
  {
  }

  /** Canonical ids and the numbers 0..999999999 are in one-to-one
      correspondence. */
  lemma {:induction false} CanonicalNumberRoundTrip(n: nat)
    requires n <= MaxBasket
    ensures Number(Canonical(n)) == n
  {
    FixedDigitsValue(n, 9);
    Pow10Nine();
    assert Canonical(n)[1..] == FixedDigits(n, 9);
  }

  lemma {:induction false} NumberCanonicalRoundTrip(s: string)
    requires IsCanonical(s)
    ensures Number(s) <= MaxBasket && Canonical(Number(s)) == s
  {
    Pow10Nine();
    DigitsRoundTrip(s[1..]);
    assert s == "B" + s[1..];
  }

  /** A canonical id normalises to itself: normalisation is idempotent. */
  lemma {:induction false} CanonicalIsFixedPoint(s: string)
    requires IsCanonical(s)
    ensures Normalize(StrValue(s)) == Success(s)
  {
    CanonicalUnpadded(s);
    assert Normalize(StrValue(s)) == Match(s);
    assert !IsDigit(s[0]) && PrefixedForm(s);
    NumberCanonicalRoundTrip(s);
  }

  /** A canonical id has no surrounding whitespace. */
  lemma CanonicalUnpadded(s: string)
    requires IsCanonical(s)
    ensures Strip(s) == s
  {
    assert s[1..][8] == s[9];
    StripUnchanged(s);
  }

  lemma {:induction false} NormalizeIdempotent(v: Value)
    requires Normalize(v).Success?
    ensures Normalize(StrValue(Normalize(v).value)) == Normalize(v)
  {
    CanonicalIsFixedPoint(Normalize(v).value);
  }

  /** Integers: 0..999999999 give their canonical id, larger numbers the range
      error and negative numbers (whose str() starts with '-') the format
      error, unless str() already refuses more than 4300 digits. */
  lemma {:induction false} NormalizeInt(n: int)
    ensures 0 <= n <= MaxBasket ==> Normalize(IntValue(n)) == Success(Canonical(n))
    ensures n > MaxBasket && |IntDigits(n)| <= MaxIntDigits ==> Normalize(IntValue(n)) == Failure(OutOfRange)
    ensures n < 0 && |IntDigits(n)| <= MaxIntDigits ==> Normalize(IntValue(n)) == Failure(InvalidFormat)
    ensures |IntDigits(n)| > MaxIntDigits ==> Normalize(IntValue(n)) == Failure(DigitLimit)
  {
    if 0 <= n <= MaxBasket {
      NatToStringLength(n, 9);
      Pow10Nine();
    }
    if |IntDigits(n)| <= MaxIntDigits {
      IntTextUnpadded(n);
      var s := IntToString(n);
      if n < 0 {
        assert s[0] == '-';
        assert !IsDigit(s[0]) && !PrefixedForm(s);
      } else {
        assert s == NatToString(n) == IntDigits(n);
      }
    }
  }

  /** str() of an integer has no surrounding whitespace, so the normaliser
      matches it as it is once str() accepts it. */
  lemma {:induction false} IntTextUnpadded(n: int)
    ensures |IntDigits(n)| <= MaxIntDigits ==> Normalize(IntValue(n)) == Match(IntToString(n))
  {
    var s := IntToString(n);
    var d := IntDigits(n);
    assert IsDigit(d[0]) && IsDigit(d[|d| - 1]);
    if n < 0 {
      assert s == "-" + d;
      assert s[|s| - 1] == d[|d| - 1];
    } else {
      assert s == d;
    }
    StripUnchanged(s);
  }

  /** Digit strings, after surrounding whitespace is stripped, are read as
      numbers: leading zeros are allowed, and the range is checked; more
      than 4300 digits, leading zeros included, are refused by int(). */
  lemma {:induction false} NormalizeDigitString(pad1: string, d: string, pad2: string)
    requires d != [] && AllDigits(d)
    requires forall i :: 0 <= i < |pad1| ==> IsSpace(pad1[i])
    requires forall i :: 0 <= i < |pad2| ==> IsSpace(pad2[i])
    ensures Normalize(StrValue(pad1 + d + pad2))
         == if |d| > MaxIntDigits then Failure(DigitLimit)
            else if DigitsValue(d) <= MaxBasket then Success(Canonical(DigitsValue(d))) else Failure(OutOfRange)
  {
    StripPadding(pad1, d, pad2);
  }

  lemma {:induction false} StripPadding(pad1: string, d: string, pad2: string)
    requires d == [] || (!IsSpace(d[0]) && !IsSpace(d[|d| - 1]))
    requires forall i :: 0 <= i < |pad1| ==> IsSpace(pad1[i])
    requires forall i :: 0 <= i < |pad2| ==> IsSpace(pad2[i])
    requires d == [] ==> pad2 == []
    ensures Strip(pad1 + d + pad2) == d
  {
    assert pad1 + d + pad2 == pad1 + (d + pad2);
    TrimLeftPadding(pad1, d + pad2);
    TrimRightPadding(d, pad2);
  }

  lemma {:induction false} TrimLeftPadding(pad: string, t: string)
    requires forall i :: 0 <= i < |pad| ==> IsSpace(pad[i])
    requires t == [] || !IsSpace(t[0])
    ensures TrimLeft(pad + t) == t
  {
    if pad != [] {
      assert (pad + t)[1..] == pad[1..] + t;
      TrimLeftPadding(pad[1..], t);
    } else {
      assert pad + t == t;
    }
  }

  lemma {:induction false} TrimRightPadding(t: string, pad: string)
    requires forall i :: 0 <= i < |pad| ==> IsSpace(pad[i])
    requires t == [] || !IsSpace(t[|t| - 1])
    ensures TrimRight(t + pad) == t
  {
    if pad != [] {
      assert (t + pad)[..|t + pad| - 1] == t + pad[..|pad| - 1];
      TrimRightPadding(t, pad[..|pad| - 1]);
    } else {
      assert t + pad == t;
    }
  }

  /** 'B' or 'b' followed by one to nine digits gives the canonical id of the
      same number, with an upper-case 'B'; the bare digits give the same id. */
  lemma {:induction false} NormalizePrefixed(p: char, d: string)
    requires p == 'B' || p == 'b'
    requires 1 <= |d| <= 9 && AllDigits(d)
    ensures DigitsValue(d) <= MaxBasket
    ensures Normalize(StrValue([p] + d)) == Success(Canonical(DigitsValue(d)))
    ensures Normalize(StrValue(d)) == Success(Canonical(DigitsValue(d)))
  {
    Pow10Monotone(|d|, 9);
    Pow10Nine();
    MatchPrefixed(p, d);
    MatchDigits(d);
  }

  /** What normalisation does to text without surrounding whitespace. */
  lemma NormalizeUnpadded(s: string)
    requires s == [] || (!IsSpace(s[0]) && !IsSpace(s[|s| - 1]))
    ensures Normalize(StrValue(s)) == Match(s)
  {
    StripUnchanged(s);
  }

  lemma {:induction false} MatchPrefixed(p: char, d: string)
    requires p == 'B' || p == 'b'
    requires 1 <= |d| <= 9 && AllDigits(d) && DigitsValue(d) <= MaxBasket
    ensures Normalize(StrValue([p] + d)) == Success(Canonical(DigitsValue(d)))
  {
    var s := [p] + d;
    assert IsDigit(d[|d| - 1]) && s[|s| - 1] == d[|d| - 1];
    NormalizeUnpadded(s);
    assert s[1..] == d;
    MatchPrefixedForm(s);
  }

  /** Text of the prefixed form is read as the number after its prefix. */
  lemma MatchPrefixedForm(s: string)
    requires PrefixedForm(s)
    ensures Match(s) == if DigitsValue(s[1..]) <= MaxBasket then Success(Canonical(DigitsValue(s[1..]))) else Failure(OutOfRange)
  {
    assert !IsDigit(s[0]);
  }

  lemma {:induction false} MatchDigits(d: string)
    requires d != [] && AllDigits(d) && DigitsValue(d) <= MaxBasket
    ensures Normalize(StrValue(d)) == if |d| > MaxIntDigits then Failure(DigitLimit) else Success(Canonical(DigitsValue(d)))
  {
    NormalizeUnpadded(d);
  }

  lemma {:induction false} Pow10Monotone(a: nat, b: nat)
    requires a <= b
    ensures Pow10(a) <= Pow10(b)
  {
    if a < b {
      Pow10Monotone(a, b - 1);
    }
  }

  /** A prefix followed by ten or more digits matches neither pattern. */
  lemma {:induction false} NormalizeTooManyDigits(p: char, d: string)
    requires p == 'B' || p == 'b'
    requires |d| >= 10 && AllDigits(d)
    ensures Normalize(StrValue([p] + d)) == Failure(InvalidFormat)
  {
    var s := [p] + d;
    assert IsDigit(d[|d| - 1]) && s[|s| - 1] == d[|d| - 1];
    NormalizeUnpadded(s);
    MatchTooLong(s);
  }

  /** Text longer than ten characters that does not start with a digit
      matches neither pattern. */
  lemma MatchTooLong(s: string)
    requires |s| > 10 && !IsDigit(s[0])
    ensures Match(s) == Failure(InvalidFormat)
  {
  }

  /** Empty and all-whitespace strings are format errors. */
  lemma {:induction false} NormalizeRejects(s: string)
    requires forall i :: 0 <= i < |s| ==> IsSpace(s[i])
    ensures Normalize(StrValue(s)) == Failure(InvalidFormat)
  {
    StripPadding(s, [], []);
    assert s + [] + [] == s;
  }

  /** A text starting with a sign or a letter other than 'B'/'b' is a format
      error. */
  lemma {:induction false} NormalizeRejectsLead(c: char, rest: string)
    requires !IsSpace(c) && !IsDigit(c) && c != 'B' && c != 'b'
    requires rest == [] || !IsSpace(rest[|rest| - 1])
    ensures Normalize(StrValue([c] + rest)) == Failure(InvalidFormat)
  {
    var s := [c] + rest;
    assert rest != [] ==> s[|s| - 1] == rest[|rest| - 1];
    StripUnchanged(s);
    assert !IsDigit(s[0]);
    assert !PrefixedForm(s);
  }

  lemma CanonicalFive()
    ensures Canonical(5) == "B000000005"
  {
    FixedDigitsZero(8);
    assert FixedDigits(5, 9) == FixedDigits(0, 8) + "5";
    assert Zeros(8) == "00000000";
  }

  /** 5, "5" and "b5" all normalise to "B000000005". */
  lemma ExampleInt()
    ensures Normalize(IntValue(5)) == Success("B000000005")
  {
    CanonicalFive();
    NormalizeInt(5);
  }

  lemma ExampleDigits()
    ensures Normalize(StrValue("5")) == Success("B000000005")
  {
    CanonicalFive();
    assert DigitsValue("5") == 5;
    MatchDigits("5");
  }

  lemma ExamplePrefixed()
    ensures Normalize(StrValue("b5")) == Success("B000000005")
  {
    CanonicalFive();
    assert DigitsValue("5") == 5;
    assert "b5" == ['b'] + "5";
    MatchPrefixed('b', "5");
  }

  /** 4300 zeros and a 5: the number is 5, in range, but int() refuses the
      text before the range check, so it is not the id of basket 5. */
  lemma LeadingZerosRefused()
    ensures Normalize(StrValue(Zeros(MaxIntDigits) + "5")) == Failure(DigitLimit)
  {
    var d := Zeros(MaxIntDigits) + "5";
    assert AllDigits(d) by {
      assert forall i | 0 <= i < |d| :: d[i] == '0' || d[i] == '5';
    }
    NormalizeUnpadded(d);
  }
}
