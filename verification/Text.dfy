/** The texts inside a tnetstring: UTF-8 as `str.encode("utf8")` and `str(data, "utf8")` do it, and decimal
    integers as `str(n)` and `int(data)` do it. */
module Text {
  import opened Prelude

  // ----- UTF-8 -----

  function EncodeChar(c: char): (r: seq<Byte>)
    ensures 1 <= |r| <= 4
  {
    var n := c as int;
    if n < 0x80 then [n]
    else if n < 0x800 then [0xC0 + n / 64, 0x80 + n % 64]
    else if n < 0x10000 then [0xE0 + n / 64 / 64, 0x80 + n / 64 % 64, 0x80 + n % 64]
    else [0xF0 + n / 64 / 64 / 64, 0x80 + n / 64 / 64 % 64, 0x80 + n / 64 % 64, 0x80 + n % 64]
  }

  function EncodeText(s: string): seq<Byte> {
    if s == [] then [] else EncodeChar(s[0]) + EncodeText(s[1..])
  }

  predicate Continues(b: seq<Byte>, i: nat) {
    i < |b| && 0x80 <= b[i] < 0xC0
  }

  /** What is left of a byte without its leading marker bits. */
  function Part(b: Byte, marker: int): int {
    b - marker
  }

  /** The first character and the number of its bytes; None is a UnicodeDecodeError. Overlong forms, surrogates
      and values above 0x10FFFF are refused. */
  function DecodeChar(b: seq<Byte>): (r: Option<(char, nat)>)
    ensures r.Some? ==> 0 < r.value.1 <= |b|
  {
    if b == [] then None
    else if b[0] < 0x80 then Some((b[0] as char, 1))
    else if 0xC2 <= b[0] < 0xE0 && Continues(b, 1) then
      Some(((Part(b[0], 0xC0) * 64 + Part(b[1], 0x80)) as char, 2))
    else if 0xE0 <= b[0] < 0xF0 && Continues(b, 1) && Continues(b, 2) then
      var n := (Part(b[0], 0xE0) * 64 + Part(b[1], 0x80)) * 64 + Part(b[2], 0x80);
      if n < 0x800 || 0xD800 <= n < 0xE000 then None else Some((n as char, 3))
    else if 0xF0 <= b[0] < 0xF5 && Continues(b, 1) && Continues(b, 2) && Continues(b, 3) then
      var n := ((Part(b[0], 0xF0) * 64 + Part(b[1], 0x80)) * 64 + Part(b[2], 0x80)) * 64 + Part(b[3], 0x80);
      if n < 0x10000 || 0x110000 <= n then None else Some((n as char, 4))
    else None
  }

  function DecodeText(b: seq<Byte>): Option<string>
    decreases |b|
  {
    if b == [] then Some([])
    else
      match DecodeChar(b)
      case None => None
      case Some((c, n)) =>
        match DecodeText(b[n..])
        case None => None
        case Some(s) => Some([c] + s)
  }

  lemma DecodeEncodeChar(c: char, r: seq<Byte>)
    ensures DecodeChar(EncodeChar(c) + r) == Some((c, |EncodeChar(c)|))
  {
  }

  lemma SixBits(hi: nat, lo: nat)
    requires lo < 64
    ensures (hi * 64 + lo) / 64 == hi && (hi * 64 + lo) % 64 == lo
  {
  }

  lemma EncodeTwo(c: char, x: nat, y: nat)
    requires y < 64 && c as int == x * 64 + y && 0x80 <= c as int < 0x800
    ensures EncodeChar(c) == [0xC0 + x, 0x80 + y]
  {
    SixBits(x, y);
  }

  lemma EncodeThree(c: char, x: nat, y: nat, z: nat)
    requires y < 64 && z < 64 && c as int == (x * 64 + y) * 64 + z && 0x800 <= c as int < 0x10000
    ensures EncodeChar(c) == [0xE0 + x, 0x80 + y, 0x80 + z]
  {
    SixBits(x, y);
    SixBits(x * 64 + y, z);
  }

  lemma EncodeFour(c: char, x: nat, y: nat, z: nat, u: nat)
    requires y < 64 && z < 64 && u < 64 && c as int == ((x * 64 + y) * 64 + z) * 64 + u && 0x10000 <= c as int
    ensures EncodeChar(c) == [0xF0 + x, 0x80 + y, 0x80 + z, 0x80 + u]
  {
    SixBits(x, y);
    SixBits(x * 64 + y, z);
    SixBits((x * 64 + y) * 64 + z, u);
  }

  lemma EncodeDecodeChar(b: seq<Byte>)
    requires DecodeChar(b).Some?
    ensures EncodeChar(DecodeChar(b).value.0) == b[..DecodeChar(b).value.1]
  {
    var (c, k) := DecodeChar(b).value;
    if k == 2 {
      EncodeTwo(c, Part(b[0], 0xC0), Part(b[1], 0x80));
    } else if k == 3 {
      EncodeThree(c, Part(b[0], 0xE0), Part(b[1], 0x80), Part(b[2], 0x80));
    } else if k == 4 {
      EncodeFour(c, Part(b[0], 0xF0), Part(b[1], 0x80), Part(b[2], 0x80), Part(b[3], 0x80));
    }
  }

  lemma {:induction false} DecodeEncodeText(s: string)
    ensures DecodeText(EncodeText(s)) == Some(s)
  {
    hide EncodeChar, DecodeChar;
    if s != [] {
      var e, r := EncodeChar(s[0]), EncodeText(s[1..]);
      DecodeEncodeChar(s[0], r);
      DecodeEncodeText(s[1..]);
      assert (e + r)[|e|..] == r;
      assert [s[0]] + s[1..] == s;
    }
  }

  lemma {:induction false} EncodeDecodeText(b: seq<Byte>)
    requires DecodeText(b).Some?
    ensures EncodeText(DecodeText(b).value) == b
    decreases |b|
  {
    hide EncodeChar, DecodeChar;
    if b != [] {
      EncodeDecodeChar(b);
      var k := DecodeChar(b).value.1;
      EncodeDecodeText(b[k..]);
      assert DecodeText(b).value[1..] == DecodeText(b[k..]).value;
      assert b == b[..k] + b[k..];
    }
  }

  /** Decoding accepts exactly the encodings, and undoes them. */
  lemma DecodeIsInverse(b: seq<Byte>, s: string)
    ensures DecodeText(b) == Some(s) <==> b == EncodeText(s)
  {
    DecodeEncodeText(s);
    if DecodeText(b).Some? {
      EncodeDecodeText(b);
    }
  }

  // ----- decimal integers -----

  function Digits(n: nat): (r: seq<Byte>)
    ensures r != [] && forall i :: 0 <= i < |r| ==> IsDigit(r[i])
  {
    if n < 10 then [48 + n] else Digits(n / 10) + [48 + n % 10]
  }

  function IntText(i: int): seq<Byte> {
    if i < 0 then [45] + Digits(-i) else Digits(i)
  }

  /** Python's default limit for converting between integers and texts. */
  const MAX_DIGITS: nat := 4300

  predicate Short(n: int) {
    |Digits(if n < 0 then -n else n)| <= MAX_DIGITS
  }

  /** `str(n).encode()`; None is a ValueError. */
  function IntStr(n: int): Option<seq<Byte>> {
    if Short(n) then Some(IntText(n)) else None
  }

  predicate IsDigit(b: Byte) {
    48 <= b < 58
  }

  predicate IsBlank(b: Byte) {
    b == 32 || 9 <= b < 14
  }

  function StripLeft(b: seq<Byte>): seq<Byte> {
    if b != [] && IsBlank(b[0]) then StripLeft(b[1..]) else b
  }

  function StripRight(b: seq<Byte>): seq<Byte> {
    if b != [] && IsBlank(b[|b| - 1]) then StripRight(b[..|b| - 1]) else b
  }

  /** Decimal digits, with single underscores allowed between them. */
  function DigitsValue(b: seq<Byte>): Option<nat> {
    var n := |b|;
    if n == 0 || !IsDigit(b[n - 1]) then None
    else if n == 1 then Some(b[0] - 48)
    else
      match DigitsValue(if b[n - 2] == 95 then b[..n - 2] else b[..n - 1])
      case None => None
      case Some(v) => Some(10 * v + (b[n - 1] - 48))
  }

  function Negated(n: Option<nat>): Option<int> {
    if n.None? then None else Some(-(n.value as int))
  }

  /** The number of digits, without underscores, sign and blanks. */
  function DigitCount(b: seq<Byte>): (n: nat)
    ensures n <= |b|
    ensures (forall i :: 0 <= i < |b| ==> IsDigit(b[i])) ==> n == |b|
  {
    if b == [] then 0 else DigitCount(b[1..]) + (if IsDigit(b[0]) then 1 else 0)
  }

  /** `int(data)`: blanks around, a sign, digits; None is a ValueError. */
  function PyInt(data: seq<Byte>): Option<int> {
    var b := StripRight(StripLeft(data));
    if DigitCount(b) > MAX_DIGITS then None
    else if b != [] && b[0] == 45 then Negated(DigitsValue(b[1..]))
    else if b != [] && b[0] == 43 then DigitsValue(b[1..])
    else DigitsValue(b)
  }

  lemma {:induction false} DigitsRead(n: nat)
    ensures DigitsValue(Digits(n)) == Some(n)
  {
    if n >= 10 {
      DigitsRead(n / 10);
      var d := Digits(n / 10);
      assert Digits(n)[..|d|] == d;
      assert IsDigit(d[|d| - 1]);
    }
  }

  /** `int` undoes `str`, up to the limit that both have. */
  lemma IntRead(i: int)
    ensures PyInt(IntText(i)) == if Short(i) then Some(i) else None
  {
    var d := IntText(i);
    assert !IsBlank(d[0]) && !IsBlank(d[|d| - 1]);
    DigitsRead(if i < 0 then -i else i);
    if i < 0 {
      assert d[1..] == Digits(-i);
    } else {
      assert IsDigit(d[0]);
    }
  }

  function Pow10(k: nat): (p: nat)
    ensures p >= 1
  {
    if k == 0 then 1 else 10 * Pow10(k - 1)
  }

  lemma {:induction false} DigitsLength(n: nat, k: nat)
    requires k > 0
    ensures |Digits(n)| <= k <==> n < Pow10(k)
  {
    if n >= 10 && k > 1 {
      DigitsLength(n / 10, k - 1);
    }
  }
}
