/** The 20-character command string the mover writes to the PLC
    (asrs_lib/asrs_mover.py, _id4, _d2 and the assembly in loop):
    iiii M XX YY Z bbbbbbbbbb. */
module Command {
  import opened Wrappers
  import opened Text

  datatype Method = Put | Pick

  /** The methode strings the scheduler hands out. */
  function MethodName(m: Method): string {
    match m
    case Put => "PUT"
    case Pick => "PICK"
  }

  /** M: "0" for PUT, "1" for anything else. */
  function MethodDigit(m: Method): string {
    if m == Put then "0" else "1"
  }

  /** _id4: the last four characters of "0000" + str(n). */
  function Id4(n: int): (r: string)
    ensures |r| == 4
  {
    var t := "0000" + IntToString(n);
    t[|t| - 4..]
  }

  /** _d2: str(n) when it has more than one character, else "0" + str(n). */
  function D2(n: int): (r: string)
    ensures |r| >= 2
  {
    var s := IntToString(n);
    if |s| > 1 then s else "0" + s
  }

  /** The command string loop assembles; basket is the queue row's basket as
      an f-string prints it. */
  function Encode(id: int, m: Method, x: int, y: int, z: int, basket: string): (r: string)
    ensures |r| >= 10 + |basket| && r[|r| - |basket|..] == basket
  {
    var fields := Id4(id) + MethodDigit(m) + D2(x) + D2(y) + IntToString(z);
    fields + basket
  }

  /** An f-string of a possibly NULL basket column. */
  function Show(basket: Option<string>): string {
    if basket.None? then "None" else basket.value
  }

  /** The fields of a command, as the PLC reads them back. */
  datatype Fields = Fields(id: nat, m: Method, x: nat, y: nat, z: nat, basket: string)

  /** Reads a command string by the fixed layout: 4 id digits, the method
      digit, 2 column digits, 2 row digits, 1 depth digit, 10 basket
      characters. */
  function Decode(cmd: string): (r: Option<Fields>)
    ensures r.Some? ==> |cmd| == 20 && r.value.basket == cmd[10..]
    ensures r.Some? ==> r.value.id < 10000 && r.value.x < 100 && r.value.y < 100 && r.value.z < 10
  {
    if |cmd| != 20 || !AllDigits(cmd[..4]) || !(cmd[4] == '0' || cmd[4] == '1')
       || !AllDigits(cmd[5..7]) || !AllDigits(cmd[7..9]) || !IsDigit(cmd[9]) then None
    else
      assert Pow10(2) == 100 && Pow10(4) == 10000;
      Some(Fields(DigitsValue(cmd[..4]), if cmd[4] == '0' then Put else Pick,
                  DigitsValue(cmd[5..7]), DigitsValue(cmd[7..9]), DigitValue(cmd[9]), cmd[10..]))
  }

  /** _id4 of a non-negative number is its four lowest digits, so the id
      wraps after 9999. */
  lemma Id4Digits(n: nat)
    ensures Id4(n) == FixedDigits(n, 4)
    ensures AllDigits(Id4(n)) && DigitsValue(Id4(n)) == n % 10000
  {
    PaddedSuffix(n, 4, 4);
    assert Zeros(4) == "0000";
    FixedDigitsValue(n, 4);
    assert Pow10(4) == 10000;
  }

  /** _d2 of a non-negative number keeps its value; it has exactly two
      characters for numbers below 100 and more otherwise. */
  lemma D2Digits(n: nat)
    ensures AllDigits(D2(n)) && DigitsValue(D2(n)) == n
    ensures |D2(n)| == 2 <==> n < 100
  {
    var s := NatToString(n);
    if |s| <= 1 {
      var r := "0" + s;
      assert r[..1] == "0";
      assert DigitsValue(r[..1]) == 0;
    } else {
      NatToStringLength(n, 2);
      assert Pow10(2) == 100;
    }
  }

  /** The command has 5 fixed characters plus the printed column, row, depth
      and basket. */
  lemma EncodeLength(id: int, m: Method, x: int, y: int, z: int, basket: string)
    ensures |Encode(id, m, x, y, z, basket)| == 5 + |D2(x)| + |D2(y)| + |IntToString(z)| + |basket|
  {
  }

  /** With non-negative fields and a 10-character basket id, the length guard
      of loop passes exactly when column and row are below 100 and the depth
      is a single digit. */
  lemma EncodeLengthTwenty(id: int, m: Method, x: nat, y: nat, z: nat, basket: string)
    requires |basket| == 10
    ensures |Encode(id, m, x, y, z, basket)| == 20 <==> x < 100 && y < 100 && z < 10
  {
    D2Digits(x);
    D2Digits(y);
    NatToStringLength(z, 1);
    assert Pow10(1) == 10;
  }

  /** A command that passes the guard carries its fields at fixed positions:
      decoding gives back the id modulo 10000, the method, the coordinates and
      the basket. */
  lemma DecodeEncode(id: nat, m: Method, x: nat, y: nat, z: nat, basket: string)
    requires x < 100 && y < 100 && z < 10 && |basket| == 10
    ensures Decode(Encode(id, m, x, y, z, basket)) == Some(Fields(id % 10000, m, x, y, z, basket))
  {
    var a, b, c, d, e := Id4(id), MethodDigit(m), D2(x), D2(y), IntToString(z);
    Id4Digits(id);
    D2Digits(x);
    D2Digits(y);
    assert e == [DigitChar(z)];
    assert DigitValue(e[0]) == z;
    assert Encode(id, m, x, y, z, basket) == a + b + c + d + e + basket;
    DecodeLayout(a, b, c, d, e, basket);
  }

  /** The other round trip: every command the PLC can decode is the encoding
      of the fields it decodes to, so the layout leaves no second spelling. */
  lemma EncodeDecode(cmd: string)
    requires Decode(cmd).Some?
    ensures var f := Decode(cmd).value; Encode(f.id, f.m, f.x, f.y, f.z, f.basket) == cmd
  {
    var f := Decode(cmd).value;
    var a, b, c, d, e := cmd[..4], cmd[4..5], cmd[5..7], cmd[7..9], cmd[9..10];
    Id4Digits(f.id);
    DigitsRoundTrip(a);
    assert Id4(f.id) == a;
    assert MethodDigit(f.m) == b;
    D2Fixed(c);
    D2Fixed(d);
    assert e == [cmd[9]];
    assert IntToString(f.z) == [DigitChar(f.z)];
    Split(cmd);
  }

  /** A 20-character command is the concatenation of its six fields. */
  lemma Split(cmd: string)
    requires |cmd| == 20
    ensures cmd == cmd[..4] + cmd[4..5] + cmd[5..7] + cmd[7..9] + cmd[9..10] + cmd[10..]
  {
    assert cmd[..5] == cmd[..4] + cmd[4..5];
    assert cmd[..7] == cmd[..5] + cmd[5..7];
    assert cmd[..9] == cmd[..7] + cmd[7..9];
    assert cmd[..10] == cmd[..9] + cmd[9..10];
    assert cmd == cmd[..10] + cmd[10..];
  }

  /** _d2 prints the value of a two-digit field back as that field. */
  lemma D2Fixed(s: string)
    requires |s| == 2 && AllDigits(s)
    ensures D2(DigitsValue(s)) == s
  {
    var n := DigitsValue(s);
    var t := NatToString(n);
    DigitsRoundTrip(s);
    NatToStringLength(n, 2);
    assert Pow10(2) == 100;
    var u := Zeros(2) + t;
    PaddedSuffix(n, 2, 2);
    assert u[|u| - 2..] == D2(n) by {
      if |t| == 1 {
        assert u[|u| - 2..] == ['0', t[0]];
      } else {
        assert u[|u| - 2..] == t;
      }
    }
  }

  /** Decoding a concatenation of well-formed pieces gives the pieces' values. */
  lemma DecodeLayout(a: string, b: string, c: string, d: string, e: string, f: string)
    requires |a| == 4 && AllDigits(a) && (b == "0" || b == "1")
    requires |c| == 2 && AllDigits(c) && |d| == 2 && AllDigits(d)
    requires |e| == 1 && IsDigit(e[0]) && |f| == 10
    ensures Decode(a + b + c + d + e + f)
         == Some(Fields(DigitsValue(a), if b == "0" then Put else Pick, DigitsValue(c), DigitsValue(d), DigitValue(e[0]), f))
  {
    var cmd := a + b + c + d + e + f;
    assert cmd[..4] == a && cmd[4] == b[0] && cmd[5..7] == c && cmd[7..9] == d;
    assert cmd[9] == e[0] && cmd[10..] == f;
  }

  lemma Id4Seven()
    ensures Id4(7) == "0007"
  {
    Id4Digits(7);
    FixedDigitsZero(3);
    assert FixedDigits(7, 4) == FixedDigits(0, 3) + "7";
    assert Zeros(3) == "000";
  }

  lemma D2Examples()
    ensures D2(3) == "03" && D2(12) == "12"
  {
    assert NatToString(12) == NatToString(1) + "2";
  }

  /** Sequence 7, PUT to column 3, row 12, depth 0 of basket B000000005. */
  lemma EncodeExample()
    ensures Encode(7, Put, 3, 12, 0, "B000000005") == "0007003120B000000005"
  {
    Id4Seven();
    D2Examples();
    assert IntToString(0) == "0";
  }
}
