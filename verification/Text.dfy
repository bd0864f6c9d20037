/** Text encodings shared by attempt keys and trace context: decimal, hexadecimal, UTF-8 and splitting. */
module Text {
  import opened Basics

  // ----- joining and splitting at a separator

  predicate Lacks(s: string, sep: char) {
    forall i :: 0 <= i < |s| ==> s[i] != sep
  }

  /** Text before the first separator, and text after it (empty when there is none). */
  function Before(s: string, sep: char): (result: string) {
    if s == "" || s[0] == sep then "" else [s[0]] + Before(s[1..], sep)
  }

  function After(s: string, sep: char): (rest: string)
    ensures s != "" ==> |rest| < |s|
  {
    if s == "" then "" else if s[0] == sep then s[1..] else After(s[1..], sep)
  }

  /** `s.split(sep)`: one part more than there are separators. */
  function Split(s: string, sep: char): (result: seq<string>)
    decreases |s|
  {
    if Lacks(s, sep) then [s] else [Before(s, sep)] + Split(After(s, sep), sep)
  }

  lemma {:induction false} SplitAtFirst(d: string, sep: char, rest: string)
    requires Lacks(d, sep)
    ensures Before(d + [sep] + rest, sep) == d
    ensures After(d + [sep] + rest, sep) == rest
  {
    var s := d + [sep] + rest;
    if d == "" {
      assert s[1..] == rest;
    } else {
      assert s[0] == d[0];
      assert s[1..] == d[1..] + [sep] + rest;
      SplitAtFirst(d[1..], sep, rest);
      assert d == [d[0]] + d[1..];
    }
  }

  /** A field without the separator is determined when it is joined on at the end. */
  lemma JoinAtLast(x: string, d: string, y: string, e: string, sep: char)
    requires Lacks(d, sep) && Lacks(e, sep)
    requires x + [sep] + d == y + [sep] + e
    ensures x == y && d == e
  {
    var s, t := x + [sep] + d, y + [sep] + e;
    assert s[|x|] == sep && t[|y|] == sep;
    assert forall i :: |x| < i < |s| ==> s[i] != sep;
    assert forall i :: |y| < i < |t| ==> t[i] != sep;
    assert |x| == |y|;
    assert x == s[..|x|] && y == t[..|y|];
    assert d == s[|x| + 1..] && e == t[|y| + 1..];
  }

  // ----- decimal integers

  function Digit(n: nat): (r: char)
    requires n < 10
  {
    ('0' as int + n) as char
  }

  function DigitValue(c: char): (n: int) {
    c as int - '0' as int
  }

  function Digits(n: nat): (s: string)
    ensures s != "" && forall i :: 0 <= i < |s| ==> '0' <= s[i] <= '9'
  {
    if n < 10 then [Digit(n)] else Digits(n / 10) + [Digit(n % 10)]
  }

  function Decimal(n: int): (s: string) {
    if n < 0 then "-" + Digits(-n) else Digits(n)
  }

  function DigitsValue(s: string): (n: int) {
    if s == "" then 0 else 10 * DigitsValue(s[..|s| - 1]) + DigitValue(s[|s| - 1])
  }

  function DecimalValue(s: string): (n: int) {
    if s != "" && s[0] == '-' then -DigitsValue(s[1..]) else DigitsValue(s)
  }

  lemma {:induction false} DigitsRoundTrip(n: nat)
    ensures DigitsValue(Digits(n)) == n
  {
    if n < 10 {
      assert DigitsValue([Digit(n)]) == 10 * DigitsValue([]) + DigitValue(Digit(n));
    } else {
      var s := Digits(n / 10) + [Digit(n % 10)];
      assert s[..|s| - 1] == Digits(n / 10);
      DigitsRoundTrip(n / 10);
    }
  }

  lemma {:induction false} DecimalRoundTrip(n: int)
    ensures DecimalValue(Decimal(n)) == n
  {
    var m := if n < 0 then -n else n;
    var s := Digits(m);
    DigitsRoundTrip(m);
    SignedValue(s);
    assert Decimal(n) == if n < 0 then "-" + s else s;
  }

  lemma SignedValue(s: string)
    requires s != "" && forall i :: 0 <= i < |s| ==> '0' <= s[i] <= '9'
    ensures DecimalValue(s) == DigitsValue(s)
    ensures DecimalValue("-" + s) == -DigitsValue(s)
  {
    assert ("-" + s)[1..] == s;
    assert s[0] != '-';
  }

  lemma {:induction false} DecimalLacks(n: int, sep: char)
    requires !('0' <= sep <= '9') && sep != '-'
    ensures Lacks(Decimal(n), sep)
  {
  }

  // ----- hexadecimal digits

  function HexLower(n: nat): (r: char)
    requires n < 16
  {
    if n < 10 then ('0' as int + n) as char else ('a' as int + n - 10) as char
  }

  function HexUpper(n: nat): (r: char)
    requires n < 16
  {
    if n < 10 then ('0' as int + n) as char else ('A' as int + n - 10) as char
  }

  function HexValue(c: char): (r: Option<nat>) {
    if '0' <= c <= '9' then Some(c as int - '0' as int)
    else if 'a' <= c <= 'f' then Some(c as int - 'a' as int + 10)
    else if 'A' <= c <= 'F' then Some(c as int - 'A' as int + 10)
    else None
  }

  lemma HexRoundTrip(n: nat)
    requires n < 16
    ensures HexValue(HexLower(n)) == Some(n) && HexValue(HexUpper(n)) == Some(n)
  {
  }

  // ----- UTF-8 (a Dafny char is a Unicode scalar value, so encoding is total)

  type Byte = n: nat | n < 256

  function EncodeChar(c: char): (bs: seq<Byte>)
    ensures 1 <= |bs| <= 4
  {
    var n := c as int;
    if n < 0x80 then [n]
    else if n < 0x800 then [0xC0 + n / 64, 0x80 + n % 64]
    else if n < 0x10000 then [0xE0 + n / 4096, 0x80 + n / 64 % 64, 0x80 + n % 64]
    else [0xF0 + n / 262144, 0x80 + n / 4096 % 64, 0x80 + n / 64 % 64, 0x80 + n % 64]
  }

  function EncodeUtf8(s: string): (result: seq<Byte>) {
    if s == "" then [] else EncodeChar(s[0]) + EncodeUtf8(s[1..])
  }

  /** Code point announced by the first bytes, and how many bytes it takes. */
  function DecodeHead(bs: seq<Byte>): (r: Option<(int, nat)>) {
    if bs == [] then None
    else
      var first: int := bs[0];
      if first < 0x80 then Some((first, 1))
      else if 0xC0 <= first < 0xE0 && |bs| >= 2 then
        Some(((first - 0xC0) * 64 + Tail(bs[1]), 2))
      else if 0xE0 <= first < 0xF0 && |bs| >= 3 then
        Some(((first - 0xE0) * 4096 + Tail(bs[1]) * 64 + Tail(bs[2]), 3))
      else if 0xF0 <= first < 0xF8 && |bs| >= 4 then
        Some(((first - 0xF0) * 262144 + Tail(bs[1]) * 4096 + Tail(bs[2]) * 64 + Tail(bs[3]), 4))
      else None
  }

  /** The six payload bits of a continuation byte. */
  function Tail(b: Byte): (n: int) {
    b - 0x80
  }

  function DecodeUtf8(bs: seq<Byte>): (r: Option<string>) {
    if bs == [] then Some("")
    else
      var head := DecodeHead(bs);
      if head.None? || head.value.1 > |bs| || head.value.1 == 0 then None
      else if !(0 <= head.value.0 < 0xD800 || 0xE000 <= head.value.0 < 0x110000) then None
      else
        var rest := DecodeUtf8(bs[head.value.1..]);
        if rest.None? then None else Some([head.value.0 as char] + rest.value)
  }

  lemma CharRoundTrip(c: char, rest: seq<Byte>)
    ensures DecodeHead(EncodeChar(c) + rest) == Some((c as int, |EncodeChar(c)|))
  {
    var n := c as int;
    var bs := EncodeChar(c) + rest;
    if n >= 0x80 {
      assert n / 64 * 64 + n % 64 == n;
      assert n / 4096 == n / 64 / 64;
      assert n / 262144 == n / 4096 / 64;
    }
  }

  lemma {:induction false} Utf8RoundTrip(s: string)
    ensures DecodeUtf8(EncodeUtf8(s)) == Some(s)
  {
    if s != "" {
      var head, tail := EncodeChar(s[0]), EncodeUtf8(s[1..]);
      CharRoundTrip(s[0], tail);
      assert (head + tail)[|head|..] == tail;
      Utf8RoundTrip(s[1..]);
      assert s == [s[0]] + s[1..];
    }
  }
}
