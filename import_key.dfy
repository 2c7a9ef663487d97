/** The sort key the spreadsheet import orders basket ids by
    (asrs_lib/putdata2db.py, _numeric_key_for_basket), and Python's
    comparison of the key tuples. */
module ImportKey {
  import opened Wrappers
  import opened Text
  import opened BasketId

  /** The three tuple shapes: (1, "") for a missing id, (0, int(run), s) for
      an id ending in a digit run, (0, s) otherwise. */
  datatype Key = Missing | Numbered(n: nat, s: string) | Plain(s: string)

  /** The length of the longest digit run that ends the string: what
      re.search(r"(\d+)$", s) captures. */
  function TrailingRun(s: string): (n: nat)
    ensures n <= |s| && AllDigits(s[|s| - n..])
    ensures n < |s| ==> !IsDigit(s[|s| - n - 1])
  {
    if s == [] || !IsDigit(s[|s| - 1]) then 0
    else
      var init := s[..|s| - 1];
      var n := TrailingRun(init);
      assert s[|s| - 1 - n..] == init[|init| - n..] + [s[|s| - 1]];
      assert n < |init| ==> s[|s| - n - 2] == init[|init| - n - 1];
      n + 1
  }

  /** _numeric_key_for_basket */
  function NumericKey(bid: Option<string>): (k: Key)
    ensures k.Missing? <==> bid.None?
    ensures !k.Missing? ==> k.s == Strip(bid.value)
    ensures k.Numbered? ==> k.s != [] && IsDigit(k.s[|k.s| - 1])
  {
    if bid.None? then Missing else StrippedKey(Strip(bid.value))
  }

  /** The key of a present id once stripped. */
  function StrippedKey(s: string): (k: Key)
    ensures !k.Missing? && k.s == s
    ensures k.Numbered? ==> s != [] && IsDigit(s[|s| - 1])
  {
    var n := TrailingRun(s);
    assert n > 0 ==> s[|s| - 1] == s[|s| - n..][n - 1];
    // int() of a longer run raises ValueError: the key falls back to (0, s)
    if n == 0 || n > MaxIntDigits then Plain(s)
    else Numbered(DigitsValue(s[|s| - n..]), s)
  }

  /** Python's < on strings: code point by code point, a proper prefix first. */
  predicate LexLess(a: string, b: string)
    ensures a < b ==> LexLess(a, b)
    ensures LexLess(a, b) ==> b != []
  {
    if a == [] then b != []
    else if b == [] then false
    else if a[0] != b[0] then a[0] < b[0]
    else
      assert a < b ==> a[1..] < b[1..] by {
        if a < b {
          assert a[1..] == b[1..][..|a| - 1];
        }
      }
      LexLess(a[1..], b[1..])
  }

  /** Python's < on two keys; None where it raises TypeError (an int
      compared with a str in the second position). */
  function KeyLess(a: Key, b: Key): (r: Option<bool>)
    ensures r.None? <==> (a.Numbered? && b.Plain?) || (a.Plain? && b.Numbered?)
    ensures a == b ==> r == Some(false)
  {
    match (a, b)
    case (Missing, _) => Some(false)
    case (_, Missing) => Some(true)
    case (Numbered(n, s), Numbered(m, t)) => LexLessIrreflexive(s); Some(n < m || (n == m && LexLess(s, t)))
    case (Plain(s), Plain(t)) => LexLessIrreflexive(s); Some(LexLess(s, t))
    case _ => None
  }

  lemma {:induction false} LexLessIrreflexive(a: string)
    ensures !LexLess(a, a)
  {
    if a != [] {
      LexLessIrreflexive(a[1..]);
    }
  }

  /** A missing id sorts after every present one. */
  lemma MissingLast(bid: string)
    ensures KeyLess(NumericKey(Some(bid)), NumericKey(None)) == Some(true)
    ensures KeyLess(NumericKey(None), NumericKey(Some(bid))) == Some(false)
  {
  }

  /** Surrounding whitespace does not change the key. */
  lemma KeyIgnoresPadding(bid: string)
    ensures NumericKey(Some(bid)) == NumericKey(Some(Strip(bid)))
  {
    StripIdempotent(bid);
  }

  /** The run ends at the first non-digit from the right. */
  lemma {:induction false} TrailingRunOf(p: string, d: string)
    requires AllDigits(d)
    requires p == [] || !IsDigit(p[|p| - 1])
    ensures TrailingRun(p + d) == |d|
    decreases |d|
  {
    if d == [] {
      assert p + d == p;
    } else {
      var init := d[..|d| - 1];
      TrailingRunOf(p, init);
      assert (p + d)[..|p + d| - 1] == p + init;
    }
  }

  /** An id that neither starts nor ends with whitespace and ends in a run of k digits, after a
      non-digit or nothing, keys on the run's value. */
  lemma KeyOfDigitTail(s: string, k: nat)
    requires 0 < k <= MaxIntDigits && k <= |s| && AllDigits(s[|s| - k..])
    requires !IsSpace(s[0]) && !IsSpace(s[|s| - 1])
    requires k == |s| || !IsDigit(s[|s| - k - 1])
    ensures NumericKey(Some(s)) == Numbered(DigitsValue(s[|s| - k..]), s)
  {
    var p, d := s[..|s| - k], s[|s| - k..];
    assert s == p + d;
    TrailingRunOf(p, d);
    KeyOfStripped(s);
  }

  /** The key of an id without surrounding whitespace, by its trailing run. */
  lemma KeyOfStripped(s: string)
    requires s == [] || (!IsSpace(s[0]) && !IsSpace(s[|s| - 1]))
    ensures NumericKey(Some(s)) == StrippedKey(s)
  {
    StripUnchanged(s);
  }

  /** An id without a trailing digit keys on the stripped string. */
  lemma KeyWithoutDigitTail(bid: string)
    requires Strip(bid) == [] || !IsDigit(Strip(bid)[|Strip(bid)| - 1])
    ensures NumericKey(Some(bid)) == Plain(Strip(bid))
  {
  }

  /** A canonical id keys on its number. */
  lemma CanonicalKey(b: string)
    requires IsCanonical(b)
    ensures NumericKey(Some(b)) == Numbered(Number(b), b)
  {
    assert b[|b| - 9..] == b[1..];
    KeyOfDigitTail(b, 9);
  }

  /** Canonical ids sort by their numbers. */
  lemma CanonicalOrder(a: string, b: string)
    requires IsCanonical(a) && IsCanonical(b)
    ensures KeyLess(NumericKey(Some(a)), NumericKey(Some(b))) == Some(Number(a) < Number(b))
  {
    CanonicalKey(a);
    CanonicalKey(b);
    if Number(a) == Number(b) {
      NumberCanonicalRoundTrip(a);
      NumberCanonicalRoundTrip(b);
      LexLessIrreflexive(a);
    }
  }

  /** An id ending in digits and one that does not cannot be compared: the
      sort raises TypeError. */
  lemma MixedIncomparable(a: string, b: string)
    requires NumericKey(Some(a)).Numbered? && NumericKey(Some(b)).Plain?
    ensures KeyLess(NumericKey(Some(a)), NumericKey(Some(b))) == None
    ensures KeyLess(NumericKey(Some(b)), NumericKey(Some(a))) == None
  {
  }

  /** "B10" sorts after "B9", unlike the plain strings. */
  lemma NumericNotTextual()
    ensures KeyLess(NumericKey(Some("B9")), NumericKey(Some("B10"))) == Some(true)
    ensures LexLess("B10", "B9")
  {
    NineKey();
    TenKey();
  }

  lemma NineKey()
    ensures NumericKey(Some("B9")) == Numbered(9, "B9")
  {
    assert "B9"[1..] == "9";
    KeyOfDigitTail("B9", 1);
  }

  lemma TenKey()
    ensures NumericKey(Some("B10")) == Numbered(10, "B10")
  {
    assert "B10"[1..] == "10" && AllDigits("10");
    assert DigitsValue("10") == 10 by {
      assert "10"[..1] == "1";
    }
    KeyOfDigitTail("B10", 2);
  }
}
