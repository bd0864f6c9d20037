/**
 * JSON as Python's json module reads and writes it (RFC 8259).
 *
 * A Python string is a sequence of code points, lone surrogates included; the text of a file decoded
 * from UTF-8 is a sequence of Unicode scalar values. Integers are kept as the text they were written in.
 */
module Json {
  import opened Basics
  import opened Text

  type CodePoint = n: int | 0 <= n < 0x110000

  type PyString = seq<CodePoint>

  /** A string constant as Python holds it. */
  function Points(s: string): (result: PyString) {
    seq(|s|, i requires 0 <= i < |s| => s[i] as int)
  }

  predicate IsHigh(n: CodePoint) {
    0xD800 <= n < 0xDC00
  }

  predicate IsLow(n: CodePoint) {
    0xDC00 <= n < 0xE000
  }

  /** The code point a surrogate pair stands for. */
  function Pair(high: CodePoint, low: CodePoint): (codePoint: CodePoint)
    requires IsHigh(high) && IsLow(low)
  {
    0x10000 + (high - 0xD800) * 0x400 + (low - 0xDC00)
  }

  function HighOf(n: CodePoint): (high: CodePoint)
    requires n >= 0x10000
    ensures IsHigh(high)
  {
    0xD800 + (n - 0x10000) / 0x400
  }

  function LowOf(n: CodePoint): (low: CodePoint)
    requires n >= 0x10000
    ensures IsLow(low)
  {
    0xDC00 + (n - 0x10000) % 0x400
  }

  // ----- strings (section 7)

  const BACKSPACE := 8
  const FORM_FEED := 12

  /** The character after the backslash of a two-character escape. */
  function ShortEscape(n: int): (r: Option<char>) {
    if n == '"' as int then Some('"')
    else if n == '\\' as int then Some('\\')
    else if n == '\n' as int then Some('n')
    else if n == '\r' as int then Some('r')
    else if n == '\t' as int then Some('t')
    else if n == BACKSPACE then Some('b')
    else if n == FORM_FEED then Some('f')
    else None
  }

  function UnescapeShort(c: char): (r: Option<CodePoint>) {
    if c == '"' || c == '\\' || c == '/' then Some(c as int)
    else if c == 'n' then Some('\n' as int)
    else if c == 'r' then Some('\r' as int)
    else if c == 't' then Some('\t' as int)
    else if c == 'b' then Some(BACKSPACE)
    else if c == 'f' then Some(FORM_FEED)
    else None
  }

  function FourDigits(n: nat): (s: string)
    requires n < 0x10000
    ensures |s| == 4
  {
    [HexLower(n / 4096), HexLower(n / 256 % 16), HexLower(n / 16 % 16), HexLower(n % 16)]
  }

  function UnicodeEscape(n: nat): (s: string)
    requires n < 0x10000
    ensures |s| == 6
  {
    ['\\', 'u'] + FourDigits(n)
  }

  /** One code point as `json.dumps` writes it inside a string by default: ASCII only. */
  function EscapePoint(n: CodePoint): (s: string)
    ensures s != ""
  {
    var short := ShortEscape(n);
    if short.Some? then ['\\', short.value]
    else if 0x20 <= n < 0x7F then [n as char]
    else if n < 0x10000 then UnicodeEscape(n)
    else UnicodeEscape(HighOf(n)) + UnicodeEscape(LowOf(n))
  }

  function Escape(s: PyString): (result: string) {
    if s == [] then "" else EscapePoint(s[0]) + Escape(s[1..])
  }

  function Quoted(s: PyString): (result: string) {
    ['"'] + Escape(s) + ['"']
  }

  function HexFour(s: string): (r: Option<nat>)
    requires |s| == 4
  {
    var a, b, c, d := HexValue(s[0]), HexValue(s[1]), HexValue(s[2]), HexValue(s[3]);
    if a.None? || b.None? || c.None? || d.None? then None
    else Some(((a.value * 16 + b.value) * 16 + c.value) * 16 + d.value)
  }

  /** The code unit of a `\uXXXX` escape the text starts with. */
  function UnicodeHead(t: string): (r: Option<CodePoint>)
    ensures r.Some? ==> |t| >= 6 && r.value < 0x10000
  {
    if |t| < 6 || t[0] != '\\' || t[1] != 'u' then None
    else
      var n := HexFour(t[2..6]);
      if n.None? || n.value >= 0x10000 then None else Some(n.value)
  }

  /** The first code point of an escaped text, and how many characters wrote it. */
  function UnescapeHead(t: string): (r: Option<(CodePoint, nat)>)
    requires t != ""
    ensures r.Some? ==> 1 <= r.value.1 <= |t|
  {
    if t[0] != '\\' then
      if t[0] == '"' || t[0] as int < 0x20 then None else Some((t[0] as int, 1))
    else if |t| < 2 then None
    else if t[1] != 'u' then
      var c := UnescapeShort(t[1]);
      if c.None? then None else Some((c.value, 2))
    else
      var n := UnicodeHead(t);
      if n.None? then None
      else
        var low := UnicodeHead(t[6..]);
        if IsHigh(n.value) && low.Some? && IsLow(low.value) then Some((Pair(n.value, low.value), 12))
        else Some((n.value, 6))
  }

  /** A JSON string body up to its closing quote, and the text after it. */
  function DecodeString(t: string): (r: Option<(PyString, string)>)
    ensures r.Some? ==> |r.value.1| < |t|
    decreases |t|
  {
    if t == "" then None
    else if t[0] == '"' then Some(([], t[1..]))
    else
      var head := UnescapeHead(t);
      if head.None? then None
      else
        var rest := DecodeString(t[head.value.1..]);
        if rest.None? then None else Some(([head.value.0] + rest.value.0, rest.value.1))
  }

  /** What writing and reading makes of a string: a high surrogate and the low one behind it become one. */
  function Joined(s: PyString): (result: PyString) {
    if s == [] then []
    else if |s| >= 2 && IsHigh(s[0]) && IsLow(s[1]) then [Pair(s[0], s[1])] + Joined(s[2..])
    else [s[0]] + Joined(s[1..])
  }

  /** No surrogate pair is spelled out as two code points. */
  predicate Intact(s: PyString) {
    forall i :: 0 <= i < |s| - 1 && IsHigh(s[i]) ==> !IsLow(s[i + 1])
  }

  lemma {:induction false} JoinedIsIntact(s: PyString)
    ensures Intact(Joined(s)) && |Joined(s)| <= |s|
    ensures s != [] ==> Joined(s) != [] && (IsLow(Joined(s)[0]) <==> IsLow(s[0]))
    ensures Joined(s) == s <==> Intact(s)
  {
    if |s| >= 2 && IsHigh(s[0]) && IsLow(s[1]) {
      JoinedIsIntact(s[2..]);
    } else if s != [] {
      JoinedIsIntact(s[1..]);
      assert s == [s[0]] + s[1..];
      if Intact(s) {
        assert Intact(s[1..]);
      } else {
        var i :| 0 <= i < |s| - 1 && IsHigh(s[i]) && IsLow(s[i + 1]);
        assert s[1..][i - 1] == s[i] && s[1..][i] == s[i + 1];
      }
    }
  }

  lemma HexFourRoundTrip(n: nat)
    requires n < 0x10000
    ensures HexFour(FourDigits(n)) == Some(n)
  {
    HexRoundTrip(n / 4096);
    HexRoundTrip(n / 256 % 16);
    HexRoundTrip(n / 16 % 16);
    HexRoundTrip(n % 16);
    assert n / 256 / 16 == n / 4096 && n / 16 / 16 == n / 256;
  }

  lemma UnicodeRoundTrip(n: nat, rest: string)
    requires n < 0x10000
    ensures UnicodeHead(UnicodeEscape(n) + rest) == Some(n)
    ensures (UnicodeEscape(n) + rest)[6..] == rest
  {
    HexFourRoundTrip(n);
    assert (UnicodeEscape(n) + rest)[2..6] == FourDigits(n);
  }

  lemma PairParts(n: CodePoint)
    requires n >= 0x10000
    ensures Pair(HighOf(n), LowOf(n)) == n
  {
  }

  /** The code unit an escaped text starts with, when it starts with a `\u` escape of a low surrogate. */
  lemma LowAhead(s: PyString, rest: string)
    ensures var low := UnicodeHead(Escape(s) + ['"'] + rest);
            low.Some? && IsLow(low.value) <==> s != [] && IsLow(s[0])
    ensures s != [] && IsLow(s[0]) ==> UnicodeHead(Escape(s) + ['"'] + rest) == Some(s[0])
  {
    if s != [] {
      var tail := Escape(s[1..]) + ['"'] + rest;
      assert Escape(s) + ['"'] + rest == EscapePoint(s[0]) + tail;
      HeadUnit(s[0], tail);
    } else {
      assert (Escape(s) + ['"'] + rest)[0] == '"';
    }
  }

  /** A written code point starts with a `\u` escape of itself, of its high surrogate, or with none. */
  lemma HeadUnit(n: CodePoint, tail: string)
    ensures var unit := UnicodeHead(EscapePoint(n) + tail);
            && (unit.Some? && IsLow(unit.value) <==> IsLow(n))
            && (IsLow(n) ==> unit == Some(n))
  {
    if ShortEscape(n).None? && !(0x20 <= n < 0x7F) {
      if n < 0x10000 {
        UnicodeRoundTrip(n, tail);
      } else {
        UnicodeRoundTrip(HighOf(n), UnicodeEscape(LowOf(n)) + tail);
        Regroup(UnicodeEscape(HighOf(n)), UnicodeEscape(LowOf(n)), tail);
      }
    }
  }

  /** One code point reads back as itself, unless it is a high surrogate before a low one. */
  lemma PointRoundTrip(n: CodePoint, tail: string)
    requires IsHigh(n) ==> UnicodeHead(tail).None? || !IsLow(UnicodeHead(tail).value)
    ensures UnescapeHead(EscapePoint(n) + tail) == Some((n, |EscapePoint(n)|))
    ensures (EscapePoint(n) + tail)[0] != '"'
  {
    if n >= 0x10000 {
      AstralRoundTrip(n, tail);
    } else if ShortEscape(n).None? && !(0x20 <= n < 0x7F) {
      UnicodeRoundTrip(n, tail);
    }
  }

  /** A code point beyond the basic plane is written as a surrogate pair, which reads back as one. */
  lemma AstralRoundTrip(n: CodePoint, tail: string)
    requires n >= 0x10000
    ensures UnescapeHead(EscapePoint(n) + tail) == Some((n, 12))
    ensures |EscapePoint(n)| == 12 && (EscapePoint(n) + tail)[0] == '\\'
  {
    PairParts(n);
    TwoUnits(HighOf(n), LowOf(n), tail);
    Regroup(UnicodeEscape(HighOf(n)), UnicodeEscape(LowOf(n)), tail);
  }

  lemma Regroup(first: string, second: string, tail: string)
    ensures first + second + tail == first + (second + tail)
  {
  }

  lemma TwoUnits(high: CodePoint, low: CodePoint, tail: string)
    requires IsHigh(high) && IsLow(low)
    ensures UnescapeHead(UnicodeEscape(high) + (UnicodeEscape(low) + tail)) == Some((Pair(high, low), 12))
  {
    UnicodeRoundTrip(high, UnicodeEscape(low) + tail);
    UnicodeRoundTrip(low, tail);
  }

  lemma SplitPairRoundTrip(high: CodePoint, low: CodePoint, tail: string)
    requires IsHigh(high) && IsLow(low)
    ensures UnescapeHead(EscapePoint(high) + (EscapePoint(low) + tail)) == Some((Pair(high, low), 12))
    ensures |EscapePoint(high)| + |EscapePoint(low)| == 12
    ensures (EscapePoint(high) + (EscapePoint(low) + tail))[0] != '"'
  {
    TwoUnits(high, low, tail);
  }

  /** Reading a written string starts with its first code point, or with the pair its first two spell. */
  lemma FirstPoint(s: PyString, rest: string) returns (width: nat)
    requires s != [] && !(|s| >= 2 && IsHigh(s[0]) && IsLow(s[1]))
    ensures ReadsHead(Escape(s) + ['"'] + rest, s[0], width, Escape(s[1..]) + ['"'] + rest)
  {
    var tail := Escape(s[1..]) + ['"'] + rest;
    width := |EscapePoint(s[0])|;
    LowAhead(s[1..], rest);
    PointRoundTrip(s[0], tail);
    assert Escape(s) + ['"'] + rest == EscapePoint(s[0]) + tail;
  }

  lemma FirstPair(s: PyString, rest: string)
    requires |s| >= 2 && IsHigh(s[0]) && IsLow(s[1])
    ensures ReadsHead(Escape(s) + ['"'] + rest, Pair(s[0], s[1]), 12, Escape(s[2..]) + ['"'] + rest)
  {
    var tail := Escape(s[2..]) + ['"'] + rest;
    SplitPairRoundTrip(s[0], s[1], tail);
    EscapeTwo(s);
    RegroupAll(EscapePoint(s[0]), EscapePoint(s[1]), Escape(s[2..]), ['"'], rest);
    AfterPair(EscapePoint(s[0]), EscapePoint(s[1]), tail);
  }

  lemma EscapeTwo(s: PyString)
    requires |s| >= 2
    ensures Escape(s) == EscapePoint(s[0]) + (EscapePoint(s[1]) + Escape(s[2..]))
  {
    assert s[1..][1..] == s[2..];
    assert Escape(s[1..]) == EscapePoint(s[1]) + Escape(s[2..]);
  }

  lemma RegroupAll(a: string, b: string, c: string, d: string, e: string)
    ensures a + (b + c) + d + e == a + (b + (c + d + e))
  {
  }

  lemma AfterPair(first: string, second: string, tail: string)
    requires |first| + |second| == 12
    ensures (first + (second + tail))[12..] == tail
  {
  }

  /** The text is a string body whose first code point takes `width` characters and leaves `tail`. */
  predicate ReadsHead(t: string, n: CodePoint, width: nat, tail: string) {
    t != "" && t[0] != '"' && UnescapeHead(t) == Some((n, width)) && t[width..] == tail
  }

  lemma DecodeStep(t: string, n: CodePoint, width: nat, tail: string, content: PyString, rest: string)
    requires ReadsHead(t, n, width, tail) && DecodeString(tail) == Some((content, rest))
    ensures DecodeString(t) == Some(([n] + content, rest))
  {
  }

  /** Every Python string, written and read back: itself, but for split surrogate pairs. */
  lemma {:induction false} StringRoundTrip(s: PyString, rest: string)
    ensures DecodeString(Escape(s) + ['"'] + rest) == Some((Joined(s), rest))
    decreases |s|
  {
    var t := Escape(s) + ['"'] + rest;
    if s == [] {
      assert t[0] == '"' && t[1..] == rest;
    } else if |s| >= 2 && IsHigh(s[0]) && IsLow(s[1]) {
      FirstPair(s, rest);
      StringRoundTrip(s[2..], rest);
      DecodeStep(t, Pair(s[0], s[1]), 12, Escape(s[2..]) + ['"'] + rest, Joined(s[2..]), rest);
    } else {
      var width := FirstPoint(s, rest);
      StringRoundTrip(s[1..], rest);
      DecodeStep(t, s[0], width, Escape(s[1..]) + ['"'] + rest, Joined(s[1..]), rest);
    }
  }

  // ----- values (sections 2 to 6)

  datatype Value =
    | Null
    | Boolean(flag: bool)
    | Number(text: string)
    | Text(content: PyString)
    | List(items: seq<Value>)
    | Object(fields: map<PyString, Value>)

  predicate IsSpace(c: char) {
    c == ' ' || c == '\t' || c == '\n' || c == '\r'
  }

  function SkipSpace(t: string): (rest: string)
    ensures |rest| <= |t|
    ensures rest != "" ==> !IsSpace(rest[0])
  {
    if t != "" && IsSpace(t[0]) then SkipSpace(t[1..]) else t
  }

  /** Past the first character and the white space behind it. */
  function Onward(t: string): (rest: string)
    requires t != ""
    ensures |rest| < |t|
  {
    SkipSpace(t[1..])
  }

  predicate IsDigit(c: char) {
    '0' <= c <= '9'
  }

  /** How many digits the text starts with. */
  function DigitRun(t: string): (n: nat)
    ensures n <= |t|
  {
    if t != "" && IsDigit(t[0]) then 1 + DigitRun(t[1..]) else 0
  }

  function IntegerLength(t: string): (n: nat)
    ensures n <= |t|
  {
    var sign := if t != "" && t[0] == '-' then 1 else 0;
    var u := t[sign..];
    if u == "" || !IsDigit(u[0]) then 0 else if u[0] == '0' then sign + 1 else sign + DigitRun(u)
  }

  function FractionLength(t: string): (n: nat)
    ensures n <= |t|
  {
    if t != "" && t[0] == '.' && DigitRun(t[1..]) > 0 then 1 + DigitRun(t[1..]) else 0
  }

  function ExponentLength(t: string): (n: nat)
    ensures n <= |t|
  {
    if t == "" || (t[0] != 'e' && t[0] != 'E') then 0
    else
      var sign := if |t| >= 2 && (t[1] == '+' || t[1] == '-') then 2 else 1;
      if DigitRun(t[sign..]) > 0 then sign + DigitRun(t[sign..]) else 0
  }

  /** The longest number the text starts with; zero when there is none. */
  function NumberLength(t: string): (n: nat)
    ensures n <= |t|
  {
    var i := IntegerLength(t);
    if i == 0 then 0
    else i + AfterInteger(t[i..])
  }

  function AfterInteger(t: string): (n: nat)
    ensures n <= |t|
  {
    FractionLength(t) + ExponentLength(t[FractionLength(t)..])
  }

  predicate Starts(t: string, word: string) {
    |word| <= |t| && t[..|word|] == word
  }

  /** A constant, the three non-finite numbers included, and its length. */
  function ConstantHead(t: string): (r: Option<(Value, nat)>)
    ensures r.Some? ==> 0 < r.value.1 <= |t|
  {
    if Starts(t, "null") then Some((Null, 4))
    else if Starts(t, "true") then Some((Boolean(true), 4))
    else if Starts(t, "false") then Some((Boolean(false), 5))
    else if Starts(t, "NaN") then Some((Number("NaN"), 3))
    else if Starts(t, "Infinity") then Some((Number("Infinity"), 8))
    else if Starts(t, "-Infinity") then Some((Number("-Infinity"), 9))
    else None
  }

  function ParseScalar(t: string): (r: Option<(Value, string)>)
    ensures r.Some? ==> |r.value.1| < |t|
  {
    var constant, n := ConstantHead(t), NumberLength(t);
    if constant.Some? then Some((constant.value.0, t[constant.value.1..]))
    else if n > 0 then Some((Number(t[..n]), t[n..]))
    else None
  }

  /** One value at the start of a text, and the text after it. */
  function ParseValue(t: string): (r: Option<(Value, string)>)
    ensures r.Some? ==> |r.value.1| < |t|
    decreases |t|, 0
  {
    if t == "" then None
    else if t[0] == '"' then
      var s := DecodeString(t[1..]);
      if s.None? then None else Some((Text(s.value.0), s.value.1))
    else if t[0] == '{' then
      var u := Onward(t);
      if u != "" && u[0] == '}' then Some((Object(map[]), u[1..])) else ParseMembers(u, map[])
    else if t[0] == '[' then
      var u := Onward(t);
      if u != "" && u[0] == ']' then Some((List([]), u[1..])) else ParseItems(u, [])
    else ParseScalar(t)
  }

  /** A key, its value, and the text from the next separator on. */
  function ParseMember(t: string): (r: Option<(PyString, Value, string)>)
    ensures r.Some? ==> |r.value.2| < |t|
    decreases |t|, 1
  {
    if t == "" || t[0] != '"' then None
    else
      var key := DecodeString(t[1..]);
      if key.None? then None
      else
        var colon := SkipSpace(key.value.1);
        if colon == "" || colon[0] != ':' then None
        else
          var value := ParseValue(Onward(colon));
          if value.None? then None else Some((key.value.0, value.value.0, SkipSpace(value.value.1)))
  }

  /** The members of an object from a key on; a repeated key keeps its last value. */
  function ParseMembers(t: string, fields: map<PyString, Value>): (r: Option<(Value, string)>)
    ensures r.Some? ==> |r.value.1| < |t| && r.value.0.Object?
    decreases |t|, 2
  {
    var member := ParseMember(t);
    if member.None? then None
    else
      var next, fields' := member.value.2, fields[member.value.0 := member.value.1];
      if next == "" then None
      else if next[0] == '}' then Some((Object(fields'), next[1..]))
      else if next[0] == ',' then ParseMembers(Onward(next), fields')
      else None
  }

  function ParseItem(t: string): (r: Option<(Value, string)>)
    ensures r.Some? ==> |r.value.1| < |t|
    decreases |t|, 1
  {
    var value := ParseValue(t);
    if value.None? then None else Some((value.value.0, SkipSpace(value.value.1)))
  }

  function ParseItems(t: string, items: seq<Value>): (r: Option<(Value, string)>)
    ensures r.Some? ==> |r.value.1| < |t| && r.value.0.List?
    decreases |t|, 2
  {
    var item := ParseItem(t);
    if item.None? then None
    else
      var next, items' := item.value.1, items + [item.value.0];
      if next == "" then None
      else if next[0] == ']' then Some((List(items'), next[1..]))
      else if next[0] == ',' then ParseItems(Onward(next), items')
      else None
  }

  /** `json.loads`: one value, with white space around it and nothing else. */
  function Parse(t: string): (r: Option<Value>) {
    var value := ParseValue(SkipSpace(t));
    if value.None? || SkipSpace(value.value.1) != "" then None else Some(value.value.0)
  }

  // ----- reading more text than a value needs

  /** What may follow a number inside an object or a list. */
  predicate Delimits(c: char) {
    IsSpace(c) || c == ',' || c == '}' || c == ']'
  }

  lemma {:induction false} SkipMore(t: string, more: string)
    requires SkipSpace(t) != ""
    ensures SkipSpace(t + more) == SkipSpace(t) + more
  {
    if IsSpace(t[0]) {
      assert (t + more)[1..] == t[1..] + more;
      SkipMore(t[1..], more);
    }
  }

  lemma {:induction false} DigitsMore(t: string, more: string)
    requires more == "" || !IsDigit(more[0])
    ensures DigitRun(t + more) == DigitRun(t)
  {
    if t == "" {
      assert t + more == more;
    } else {
      assert (t + more)[1..] == t[1..] + more;
      DigitsMore(t[1..], more);
    }
  }

  /** A number does not reach past a character that cannot continue one. */
  lemma NumberMore(t: string, more: string)
    requires more != "" && Delimits(more[0])
    ensures NumberLength(t + more) == NumberLength(t)
  {
    IntegerMore(t, more);
    var i := IntegerLength(t);
    assert (t + more)[i..] == t[i..] + more;
    AfterIntegerMore(t[i..], more);
  }

  lemma AfterIntegerMore(t: string, more: string)
    requires more != "" && Delimits(more[0])
    ensures AfterInteger(t + more) == AfterInteger(t)
  {
    FractionMore(t, more);
    var f := FractionLength(t);
    assert (t + more)[f..] == t[f..] + more;
    ExponentMore(t[f..], more);
  }

  lemma IntegerMore(t: string, more: string)
    requires more != "" && Delimits(more[0])
    ensures IntegerLength(t + more) == IntegerLength(t)
  {
    assert !IsDigit(more[0]);
    if t != "" {
      var sign := if t[0] == '-' then 1 else 0;
      assert (t + more)[sign..] == t[sign..] + more;
      DigitsMore(t[sign..], more);
    } else {
      assert t + more == more;
    }
  }

  lemma FractionMore(t: string, more: string)
    requires more != "" && Delimits(more[0])
    ensures FractionLength(t + more) == FractionLength(t)
  {
    if t != "" {
      assert (t + more)[1..] == t[1..] + more;
      DigitsMore(t[1..], more);
    } else {
      assert t + more == more;
    }
  }

  lemma ExponentMore(t: string, more: string)
    requires more != "" && Delimits(more[0])
    ensures ExponentLength(t + more) == ExponentLength(t)
  {
    if t != "" {
      var sign := if |t| >= 2 && (t[1] == '+' || t[1] == '-') then 2 else 1;
      assert (t + more)[sign..] == t[sign..] + more;
      DigitsMore(t[sign..], more);
    } else {
      assert t + more == more;
    }
  }

  lemma UnicodeStays(t: string, more: string)
    requires |t| >= 6
    ensures UnicodeHead(t + more) == UnicodeHead(t)
  {
    assert (t + more)[2..6] == t[2..6];
  }

  lemma UnicodeMore(t: string, more: string)
    requires DecodeString(t).Some?
    ensures UnicodeHead(t + more) == UnicodeHead(t)
  {
    if |t| >= 6 {
      UnicodeStays(t, more);
    }
  }

  lemma HeadMore(t: string, more: string)
    requires t != "" && UnescapeHead(t).Some? && DecodeString(t[UnescapeHead(t).value.1..]).Some?
    ensures UnescapeHead(t + more) == UnescapeHead(t)
  {
    if t[0] == '\\' && t[1] == 'u' {
      UnicodeStays(t, more);
      assert (t + more)[6..] == t[6..] + more;
      if UnescapeHead(t).value.1 == 6 {
        UnicodeMore(t[6..], more);
      } else {
        UnicodeStays(t[6..], more);
      }
    }
  }

  lemma {:induction false} StringMore(t: string, more: string)
    requires DecodeString(t).Some?
    ensures DecodeString(t + more) == Some((DecodeString(t).value.0, DecodeString(t).value.1 + more))
    decreases |t|
  {
    if t[0] == '"' {
      assert (t + more)[1..] == t[1..] + more;
    } else {
      var width := UnescapeHead(t).value.1;
      HeadMore(t, more);
      assert (t + more)[width..] == t[width..] + more;
      StringMore(t[width..], more);
    }
  }

  lemma NumberHead(t: string)
    requires NumberLength(t) > 0
    ensures IsDigit(t[0]) || (t[0] == '-' && |t| > 1 && IsDigit(t[1]))
  {
  }

  /** A value and what follows it, when that does not run on into a number. */
  predicate Complete(value: Value, rest: string) {
    value.Number? ==> rest != "" && Delimits(rest[0])
  }

  lemma NumberReadsOn(t: string, more: string)
    requires NumberLength(t) > 0 && NumberLength(t) < |t| && Delimits(t[NumberLength(t)])
    ensures NumberLength(t + more) == NumberLength(t)
  {
    var n := NumberLength(t);
    assert t == t[..n] + t[n..] && t + more == t[..n] + (t[n..] + more);
    NumberMore(t[..n], t[n..]);
    NumberMore(t[..n], t[n..] + more);
  }

  lemma StartsWith(t: string, word: string, i: nat)
    requires i < |word|
    ensures Starts(t, word) ==> t[i] == word[i]
  {
    if Starts(t, word) {
      assert t[..|word|][i] == t[i];
    }
  }

  lemma StartsMore(t: string, more: string, word: string)
    requires word != "" && t != "" && (t[0] == word[0] ==> Starts(t, word))
    ensures Starts(t + more, word) <==> Starts(t, word)
  {
    if Starts(t, word) {
      assert (t + more)[..|word|] == t[..|word|];
    }
    StartsWith(t + more, word, 0);
  }

  /** Only the minus sign is the start of both a constant and a number, and then the digit decides. */
  lemma MinusMore(t: string, more: string)
    requires NumberLength(t) > 0
    ensures !Starts(t + more, "-Infinity")
  {
    NumberHead(t);
    StartsWith(t + more, "-Infinity", 0);
    StartsWith(t + more, "-Infinity", 1);
  }

  lemma NumberIsNoConstant(ts: string, rest: string)
    requires NumberLength(ts) > 0
    ensures ConstantHead(ts + rest).None?
  {
    NumberHead(ts);
    MinusMore(ts, rest);
    StartsWith(ts + rest, "null", 0);
    StartsWith(ts + rest, "true", 0);
    StartsWith(ts + rest, "false", 0);
    StartsWith(ts + rest, "NaN", 0);
    StartsWith(ts + rest, "Infinity", 0);
  }

  lemma ConstantMore(t: string, more: string)
    requires ConstantHead(t).Some? || NumberLength(t) > 0
    ensures ConstantHead(t + more) == ConstantHead(t)
  {
    FirstLetter(t);
    StartsMore(t, more, "null");
    StartsMore(t, more, "true");
    StartsMore(t, more, "false");
    StartsMore(t, more, "NaN");
    StartsMore(t, more, "Infinity");
    if NumberLength(t) > 0 {
      MinusMore(t, "");
      MinusMore(t, more);
      assert t + "" == t;
    } else {
      StartsMore(t, more, "-Infinity");
    }
  }

  lemma FirstLetter(t: string)
    requires ConstantHead(t).Some? || NumberLength(t) > 0
    ensures t != ""
    ensures t[0] == 'n' ==> Starts(t, "null")
    ensures t[0] == 't' ==> Starts(t, "true")
    ensures t[0] == 'f' ==> Starts(t, "false")
    ensures t[0] == 'N' ==> Starts(t, "NaN")
    ensures t[0] == 'I' ==> Starts(t, "Infinity")
    ensures t[0] == '-' ==> Starts(t, "-Infinity") || NumberLength(t) > 0
  {
  }

  lemma ScalarMore(t: string, more: string)
    requires ParseScalar(t).Some? && Complete(ParseScalar(t).value.0, ParseScalar(t).value.1)
    ensures ParseScalar(t + more) == Some((ParseScalar(t).value.0, ParseScalar(t).value.1 + more))
  {
    ConstantMore(t, more);
    var n := if ConstantHead(t).Some? then ConstantHead(t).value.1 else NumberLength(t);
    assert (t + more)[n..] == t[n..] + more && (t + more)[..n] == t[..n];
    if ConstantHead(t).None? {
      NumberReadsOn(t, more);
    }
  }

  lemma OnwardMore(t: string, more: string)
    requires t != "" && Onward(t) != ""
    ensures Onward(t + more) == Onward(t) + more
  {
    assert (t + more)[1..] == t[1..] + more;
    SkipMore(t[1..], more);
  }

  lemma TailMore(t: string, more: string)
    requires t != ""
    ensures (t + more)[1..] == t[1..] + more
  {
  }

  /** A value that ends inside a text is the same value when more text follows. */
  lemma {:induction false} ValueMore(t: string, more: string)
    requires ParseValue(t).Some? && Complete(ParseValue(t).value.0, ParseValue(t).value.1)
    ensures ParseValue(t + more) == Some((ParseValue(t).value.0, ParseValue(t).value.1 + more))
    decreases |t|, 0
  {
    if t[0] == '"' {
      TailMore(t, more);
      StringMore(t[1..], more);
    } else if t[0] == '{' || t[0] == '[' {
      var u := Onward(t);
      OnwardMore(t, more);
      TailMore(u, more);
      if t[0] == '{' && u[0] != '}' {
        MembersMore(u, map[], more);
      } else if t[0] == '[' && u[0] != ']' {
        ItemsMore(u, [], more);
      }
    } else {
      ScalarMore(t, more);
    }
  }

  lemma {:induction false} MemberMore(t: string, more: string)
    requires ParseMember(t).Some? && ParseMember(t).value.2 != "" && ParseMember(t).value.2[0] in [',', '}', ']']
    ensures var m := ParseMember(t).value; ParseMember(t + more) == Some((m.0, m.1, m.2 + more))
    decreases |t|, 1
  {
    var key := DecodeString(t[1..]).value;
    var colon := SkipSpace(key.1);
    var value := ParseValue(Onward(colon)).value;
    TailMore(t, more);
    StringMore(t[1..], more);
    SkipMore(key.1, more);
    OnwardMore(colon, more);
    EndsComplete(value.0, value.1);
    ValueMore(Onward(colon), more);
    SkipMore(value.1, more);
  }

  lemma {:induction false} MembersMore(t: string, fields: map<PyString, Value>, more: string)
    requires ParseMembers(t, fields).Some?
    ensures var r := ParseMembers(t, fields).value; ParseMembers(t + more, fields) == Some((r.0, r.1 + more))
    decreases |t|, 2
  {
    var member := ParseMember(t).value;
    var next := member.2;
    MemberMore(t, more);
    if next[0] == ',' {
      OnwardMore(next, more);
      MembersMore(Onward(next), fields[member.0 := member.1], more);
    } else {
      TailMore(next, more);
    }
  }

  lemma {:induction false} ItemsMore(t: string, items: seq<Value>, more: string)
    requires ParseItems(t, items).Some?
    ensures var r := ParseItems(t, items).value; ParseItems(t + more, items) == Some((r.0, r.1 + more))
    decreases |t|, 2
  {
    var item := ParseItem(t).value;
    var next := item.1;
    ItemMore(t, more);
    if next[0] == ',' {
      OnwardMore(next, more);
      ItemsMore(Onward(next), items + [item.0], more);
    } else {
      TailMore(next, more);
    }
  }

  lemma {:induction false} ItemMore(t: string, more: string)
    requires ParseItem(t).Some? && ParseItem(t).value.1 != "" && ParseItem(t).value.1[0] in [',', '}', ']']
    ensures var i := ParseItem(t).value; ParseItem(t + more) == Some((i.0, i.1 + more))
    decreases |t|, 1
  {
    var value := ParseValue(t).value;
    EndsComplete(value.0, value.1);
    ValueMore(t, more);
    SkipMore(value.1, more);
  }

  lemma EndsComplete(value: Value, rest: string)
    requires SkipSpace(rest) != "" && SkipSpace(rest)[0] in [',', '}', ']']
    ensures Complete(value, rest)
  {
  }

  /** An object that reads to the end of its text is no object when any of the end is torn off. */
  lemma TornObject(t: string, k: nat)
    requires t != "" && t[0] == '{' && ParseValue(t).Some? && ParseValue(t).value.1 == "" && k < |t|
    ensures Parse(t[..k]).None?
  {
    var torn := t[..k];
    if torn != "" && ParseValue(torn).Some? {
      assert SkipSpace(torn) == torn && torn + t[k..] == t;
      assert ParseValue(torn).value.0.Object?;
      ValueMore(torn, t[k..]);
    }
  }
}
