/** The texts json.loads accepts, as a grammar (RFC 8259 and three more numbers), and what each of them means. */
module JsonReading {
  import opened Basics
  import opened Text
  import opened Json

  // ----- strings

  /** One character, a two-character escape, or a `\u` escape with its four digits. */
  datatype Piece = Plain(c: char) | Short(letter: char) | Unit(a: char, b: char, c: char, d: char)

  function Nibble(c: char): (n: Option<nat>) {
    match c
    case '0' => Some(0) case '1' => Some(1) case '2' => Some(2) case '3' => Some(3)
    case '4' => Some(4) case '5' => Some(5) case '6' => Some(6) case '7' => Some(7)
    case '8' => Some(8) case '9' => Some(9)
    case 'a' => Some(10) case 'b' => Some(11) case 'c' => Some(12)
    case 'd' => Some(13) case 'e' => Some(14) case 'f' => Some(15)
    case 'A' => Some(10) case 'B' => Some(11) case 'C' => Some(12)
    case 'D' => Some(13) case 'E' => Some(14) case 'F' => Some(15)
    case _ => None
  }

  function Escaped(letter: char): (n: Option<CodePoint>) {
    match letter
    case '"' => Some(34) case '\\' => Some(92) case '/' => Some(47)
    case 'b' => Some(8) case 'f' => Some(12) case 'n' => Some(10) case 'r' => Some(13) case 't' => Some(9)
    case _ => None
  }

  function PieceText(p: Piece): (s: string)
    ensures s != ""
  {
    match p
    case Plain(c) => [c]
    case Short(letter) => ['\\', letter]
    case Unit(a, b, c, d) => ['\\', 'u', a, b, c, d]
  }

  /** The code point or half of a surrogate pair it stands for; none when it is no legal piece. */
  function PieceValue(p: Piece): (n: Option<CodePoint>) {
    match p
    case Plain(c) => if c == '"' || c == '\\' || c as int < 32 then None else Some(c as int)
    case Short(letter) => Escaped(letter)
    case Unit(a, b, c, d) =>
      var (w, x, y, z) := (Nibble(a), Nibble(b), Nibble(c), Nibble(d));
      if w.None? || x.None? || y.None? || z.None? then None
      else Some(4096 * w.value + 256 * x.value + 16 * y.value + z.value)
  }

  function StringText(pieces: seq<Piece>): (s: string) {
    if pieces == [] then "" else PieceText(pieces[0]) + StringText(pieces[1..])
  }

  predicate LegalString(pieces: seq<Piece>) {
    forall i :: 0 <= i < |pieces| ==> PieceValue(pieces[i]).Some?
  }

  function Units(pieces: seq<Piece>): (s: PyString)
    requires LegalString(pieces)
  {
    seq(|pieces|, i requires 0 <= i < |pieces| => PieceValue(pieces[i]).value)
  }

  lemma UnitsCons(p: Piece, pieces: seq<Piece>)
    requires PieceValue(p).Some? && LegalString(pieces)
    ensures LegalString([p] + pieces) && Units([p] + pieces) == [PieceValue(p).value] + Units(pieces)
    ensures StringText([p] + pieces) == PieceText(p) + StringText(pieces)
  {
    assert ([p] + pieces)[1..] == pieces;
  }

  lemma NibbleIs(c: char)
    ensures Nibble(c) == HexValue(c)
  {
  }

  lemma HexFourIs(a: char, b: char, c: char, d: char)
    ensures HexFour([a, b, c, d]) == PieceValue(Unit(a, b, c, d))
  {
    NibbleIs(a);
    NibbleIs(b);
    NibbleIs(c);
    NibbleIs(d);
  }

  /** A legal piece reads as itself, or together with the one behind it. */
  lemma PieceReads(p: Piece, tail: string)
    requires PieceValue(p).Some?
    ensures var t, n, low := PieceText(p) + tail, PieceValue(p).value, UnicodeHead(tail);
            && t[0] != '"' && t[|PieceText(p)|..] == tail
            && UnicodeHead(t) == (if p.Unit? then Some(n) else None)
            && UnescapeHead(t) == (if IsHigh(n) && low.Some? && IsLow(low.value) then Some((Pair(n, low.value), 12))
                                   else Some((n, |PieceText(p)|)))
  {
    if p.Unit? {
      UnitReads(p, tail);
    } else if p.Short? {
      ShortReads(p.letter);
    }
  }

  lemma ShortReads(letter: char)
    ensures Escaped(letter) == UnescapeShort(letter)
    ensures Escaped(letter).Some? ==> Escaped(letter).value < 128 && letter != 'u'
  {
  }

  lemma UnitReads(p: Piece, tail: string)
    requires p.Unit? && PieceValue(p).Some?
    ensures var t := PieceText(p) + tail; t[6..] == tail && UnicodeHead(t) == PieceValue(p)
  {
    HexFourIs(p.a, p.b, p.c, p.d);
    assert (PieceText(p) + tail)[2..6] == [p.a, p.b, p.c, p.d];
  }

  /** The low half of a pair that a written string starts with, if it does. */
  lemma LowAhead(pieces: seq<Piece>, rest: string)
    requires LegalString(pieces)
    ensures var low := UnicodeHead(StringText(pieces) + ("\"" + rest));
            && (low.Some? && IsLow(low.value) <==> pieces != [] && IsLow(Units(pieces)[0]))
            && (pieces != [] && IsLow(Units(pieces)[0]) ==> low == Some(Units(pieces)[0]))
  {
    if pieces == [] {
      assert (StringText(pieces) + ("\"" + rest))[0] == '"';
    } else {
      var tail := StringText(pieces[1..]) + ("\"" + rest);
      assert StringText(pieces) + ("\"" + rest) == PieceText(pieces[0]) + tail;
      PieceReads(pieces[0], tail);
      if IsLow(Units(pieces)[0]) {
        HalfIsUnit(pieces[0]);
      }
    }
  }

  lemma HalfIsUnit(p: Piece)
    requires PieceValue(p).Some? && (IsLow(PieceValue(p).value) || IsHigh(PieceValue(p).value))
    ensures p.Unit? && |PieceText(p)| == 6
  {
  }

  lemma OneReads(p: Piece, more: seq<Piece>, rest: string)
    requires PieceValue(p).Some? && LegalString(more)
    requires !(IsHigh(PieceValue(p).value) && more != [] && IsLow(Units(more)[0]))
    ensures ReadsHead(PieceText(p) + (StringText(more) + ("\"" + rest)), PieceValue(p).value, |PieceText(p)|,
                      StringText(more) + ("\"" + rest))
  {
    LowAhead(more, rest);
    PieceReads(p, StringText(more) + ("\"" + rest));
  }

  lemma TwoRead(p: Piece, q: Piece, tail: string)
    requires PieceValue(p).Some? && PieceValue(q).Some?
    requires IsHigh(PieceValue(p).value) && IsLow(PieceValue(q).value)
    ensures ReadsHead(PieceText(p) + (PieceText(q) + tail), Pair(PieceValue(p).value, PieceValue(q).value), 12, tail)
  {
    PieceReads(p, PieceText(q) + tail);
    PieceReads(q, tail);
    HalfIsUnit(p);
    HalfIsUnit(q);
    SkipBoth(PieceText(p), PieceText(q), tail);
  }

  lemma SkipBoth(a: string, b: string, tail: string)
    ensures (a + (b + tail))[|a| + |b|..] == tail
  {
  }

  lemma Regrouped(a: string, b: string, c: string)
    ensures a + b + c == a + (b + c)
  {
  }

  lemma JoinedCons(s: PyString)
    requires s != []
    ensures |s| >= 2 && IsHigh(s[0]) && IsLow(s[1]) ==> Joined(s) == [Pair(s[0], s[1])] + Joined(s[2..])
    ensures !(|s| >= 2 && IsHigh(s[0]) && IsLow(s[1])) ==> Joined(s) == [s[0]] + Joined(s[1..])
  {
  }

  /** A string written with any legal pieces reads as their values, split pairs joined. */
  lemma {:induction false} StringReads(pieces: seq<Piece>, rest: string)
    requires LegalString(pieces)
    ensures DecodeString(StringText(pieces) + ("\"" + rest)) == Some((Joined(Units(pieces)), rest))
    decreases |pieces|
  {
    var end := "\"" + rest;
    if pieces == [] {
      assert StringText(pieces) + end == end && end[0] == '"' && end[1..] == rest;
    } else {
      var p, more := pieces[0], pieces[1..];
      UnitsCons(p, more);
      assert pieces == [p] + more;
      assert Units(pieces)[1..] == Units(more);
      Regrouped(PieceText(p), StringText(more), end);
      JoinedCons(Units(pieces));
      if more != [] && IsHigh(Units(pieces)[0]) && IsLow(Units(more)[0]) {
        var q, last := more[0], more[1..];
        assert more == [q] + last;
        UnitsCons(q, last);
        Regrouped(PieceText(q), StringText(last), end);
        assert Units(pieces)[2..] == Units(last);
        TwoRead(p, q, StringText(last) + end);
        StringReads(last, rest);
        DecodeStep(StringText(pieces) + end, Pair(Units(pieces)[0], Units(pieces)[1]), 12, StringText(last) + end,
                   Joined(Units(last)), rest);
      } else {
        OneReads(p, more, rest);
        StringReads(more, rest);
        DecodeStep(StringText(pieces) + end, Units(pieces)[0], |PieceText(p)|, StringText(more) + end,
                   Joined(Units(more)), rest);
      }
    }
  }

  lemma PieceComes(t: string) returns (p: Piece)
    requires t != "" && t[0] != '"' && UnescapeHead(t).Some?
    ensures PieceValue(p).Some? && |PieceText(p)| <= |t| && t == PieceText(p) + t[|PieceText(p)|..]
    ensures UnescapeHead(t).value.1 == |PieceText(p)| || UnescapeHead(t).value.1 == 12
  {
    if t[0] != '\\' {
      p := Plain(t[0]);
    } else if t[1] != 'u' {
      p := Short(t[1]);
    } else {
      p := UnitComes(t);
    }
  }

  lemma UnitComes(t: string) returns (p: Piece)
    requires UnicodeHead(t).Some?
    ensures p.Unit? && PieceValue(p) == UnicodeHead(t) && t == PieceText(p) + t[|PieceText(p)|..]
  {
    p := Unit(t[2], t[3], t[4], t[5]);
    HexFourIs(t[2], t[3], t[4], t[5]);
    assert t[2..6] == [t[2], t[3], t[4], t[5]];
  }

  /** A head of twelve characters is two pieces. */
  lemma BothCome(t: string) returns (p: Piece, q: Piece)
    requires t != "" && t[0] == '\\' && UnescapeHead(t).Some? && UnescapeHead(t).value.1 == 12
    ensures PieceValue(p).Some? && PieceValue(q).Some? && t == PieceText(p) + (PieceText(q) + t[12..])
  {
    p := UnitComes(t);
    q := UnitComes(t[6..]);
    assert t[6..][6..] == t[12..];
  }

  /** Whatever reads as a string was written with legal pieces. */
  lemma {:induction false} StringComes(t: string) returns (pieces: seq<Piece>)
    requires DecodeString(t).Some?
    ensures LegalString(pieces) && t == StringText(pieces) + ("\"" + DecodeString(t).value.1)
    decreases |t|
  {
    var end := "\"" + DecodeString(t).value.1;
    if t[0] == '"' {
      pieces := [];
      assert t == end;
    } else {
      var width := UnescapeHead(t).value.1;
      var more := StringComes(t[width..]);
      assert t[width..] == StringText(more) + end;
      if width == 12 {
        var p, q := BothCome(t);
        UnitsCons(q, more);
        UnitsCons(p, [q] + more);
        pieces := [p] + ([q] + more);
        Regrouped(PieceText(q), StringText(more), end);
        Regrouped(PieceText(p), StringText([q] + more), end);
      } else {
        var p := PieceComes(t);
        UnitsCons(p, more);
        pieces := [p] + more;
        Regrouped(PieceText(p), StringText(more), end);
      }
    }
  }

  // ----- numbers

  datatype Exponent = Exponent(mark: char, sign: string, digits: string)

  datatype Numeral = Numeral(negative: bool, whole: string, fraction: Option<string>, exponent: Option<Exponent>)

  predicate Digits(s: string) {
    s != "" && forall i :: 0 <= i < |s| ==> '0' <= s[i] <= '9'
  }

  predicate LegalExponent(e: Exponent) {
    (e.mark == 'e' || e.mark == 'E') && (e.sign == "" || e.sign == "+" || e.sign == "-") && Digits(e.digits)
  }

  /** No leading zero, and digits on both sides of a point and behind an exponent mark. */
  predicate LegalNumeral(n: Numeral) {
    && Digits(n.whole) && (n.whole[0] == '0' ==> |n.whole| == 1)
    && (n.fraction.Some? ==> Digits(n.fraction.value))
    && (n.exponent.Some? ==> LegalExponent(n.exponent.value))
  }

  function WholeText(n: Numeral): (s: string) {
    if n.negative then "-" + n.whole else n.whole
  }

  function FractionText(fraction: Option<string>): (s: string) {
    if fraction.None? then "" else "." + fraction.value
  }

  function ExponentText(exponent: Option<Exponent>): (s: string) {
    if exponent.None? then ""
    else [exponent.value.mark] + (exponent.value.sign + exponent.value.digits)
  }

  function NumeralText(n: Numeral): (s: string) {
    WholeText(n) + (FractionText(n.fraction) + ExponentText(n.exponent))
  }

  /** What cannot carry a number on. */
  predicate EndsNumber(rest: string) {
    rest == "" || !(IsDigit(rest[0]) || rest[0] == '.' || rest[0] == 'e' || rest[0] == 'E')
  }

  lemma {:induction false} RunIs(digits: string, rest: string)
    requires forall i :: 0 <= i < |digits| ==> '0' <= digits[i] <= '9'
    requires rest == "" || !('0' <= rest[0] <= '9')
    ensures DigitRun(digits + rest) == |digits|
  {
    if digits == "" {
      assert digits + rest == rest;
    } else {
      assert (digits + rest)[1..] == digits[1..] + rest;
      RunIs(digits[1..], rest);
    }
  }

  lemma WholeReads(n: Numeral, rest: string)
    requires LegalNumeral(n) && (rest == "" || !IsDigit(rest[0]))
    ensures IntegerLength(WholeText(n) + rest) == |WholeText(n)|
  {
    var t := WholeText(n) + rest;
    RunIs(n.whole, rest);
    assert (if n.negative then t[1..] else t) == n.whole + rest;
    assert t[0..] == t;
  }

  lemma FractionReads(fraction: Option<string>, rest: string)
    requires fraction.Some? ==> Digits(fraction.value)
    requires rest == "" || !(IsDigit(rest[0]) || rest[0] == '.')
    ensures FractionLength(FractionText(fraction) + rest) == |FractionText(fraction)|
  {
    if fraction.Some? {
      RunIs(fraction.value, rest);
      assert (FractionText(fraction) + rest)[1..] == fraction.value + rest;
    } else {
      assert FractionText(fraction) + rest == rest;
    }
  }

  lemma ExponentReads(exponent: Option<Exponent>, rest: string)
    requires exponent.Some? ==> LegalExponent(exponent.value)
    requires EndsNumber(rest)
    ensures ExponentLength(ExponentText(exponent) + rest) == |ExponentText(exponent)|
    ensures var t := ExponentText(exponent) + rest; t == "" || !(IsDigit(t[0]) || t[0] == '.')
  {
    if exponent.Some? {
      var e := exponent.value;
      RunIs(e.digits, rest);
      MarkedReads(e.mark, e.sign, e.digits, rest);
      assert ExponentText(exponent) + rest == [e.mark] + (e.sign + (e.digits + rest));
    } else {
      assert ExponentText(exponent) + rest == rest;
    }
  }

  lemma MarkedReads(mark: char, sign: string, digits: string, rest: string)
    requires LegalExponent(Exponent(mark, sign, digits)) && DigitRun(digits + rest) == |digits|
    ensures ExponentLength([mark] + (sign + (digits + rest))) == 1 + |sign| + |digits|
  {
    var t := [mark] + (sign + (digits + rest));
    assert t[1 + |sign|..] == digits + rest;
    if sign == "" {
      assert t[1] == (digits + rest)[0] == digits[0];
    } else {
      assert t[1] == sign[0];
    }
  }

  lemma AfterReads(fraction: Option<string>, e: string, k: nat)
    requires fraction.Some? ==> Digits(fraction.value)
    requires e == "" || !(IsDigit(e[0]) || e[0] == '.')
    requires ExponentLength(e) == k
    ensures AfterInteger(FractionText(fraction) + e) == |FractionText(fraction)| + k
    ensures var t := FractionText(fraction) + e; t == "" || !IsDigit(t[0])
  {
    FractionReads(fraction, e);
    assert (FractionText(fraction) + e)[|FractionText(fraction)|..] == e;
    assert fraction.None? ==> FractionText(fraction) + e == e;
  }

  lemma NumeralReads(n: Numeral, rest: string)
    requires LegalNumeral(n) && EndsNumber(rest)
    ensures NumberLength(NumeralText(n) + rest) == |NumeralText(n)|
  {
    var e := ExponentText(n.exponent) + rest;
    var f := FractionText(n.fraction) + e;
    ExponentReads(n.exponent, rest);
    AfterReads(n.fraction, e, |ExponentText(n.exponent)|);
    WholeReads(n, f);
    JoinThree(WholeText(n), FractionText(n.fraction), ExponentText(n.exponent), rest);
    LengthIs(WholeText(n) + f, |WholeText(n)|, f);
    assert |WholeText(n)| > 0;
  }

  lemma JoinThree(a: string, b: string, c: string, rest: string)
    ensures a + (b + c) + rest == a + (b + (c + rest)) && (a + (b + (c + rest)))[|a|..] == b + (c + rest)
  {
  }

  lemma LengthIs(t: string, i: nat, tail: string)
    requires 0 < i <= |t| && IntegerLength(t) == i && t[i..] == tail
    ensures NumberLength(t) == i + AfterInteger(tail)
  {
  }

  lemma {:induction false} RunComes(t: string)
    ensures forall i :: 0 <= i < DigitRun(t) ==> '0' <= t[i] <= '9'
  {
    if t != "" && IsDigit(t[0]) {
      RunComes(t[1..]);
      assert forall i :: 1 <= i < DigitRun(t) ==> t[i] == t[1..][i - 1];
    }
  }

  lemma FractionComes(t: string) returns (fraction: Option<string>)
    ensures fraction.Some? ==> Digits(fraction.value)
    ensures FractionText(fraction) == t[..FractionLength(t)]
  {
    if FractionLength(t) == 0 {
      fraction := None;
    } else {
      RunComes(t[1..]);
      fraction := Some(t[1..][..DigitRun(t[1..])]);
    }
  }

  lemma ExponentComes(t: string) returns (exponent: Option<Exponent>)
    ensures exponent.Some? ==> LegalExponent(exponent.value)
    ensures ExponentText(exponent) == t[..ExponentLength(t)]
  {
    if ExponentLength(t) == 0 {
      exponent := None;
    } else {
      var k := if |t| >= 2 && (t[1] == '+' || t[1] == '-') then 2 else 1;
      RunComes(t[k..]);
      exponent := Some(Exponent(t[0], t[1..k], t[k..][..DigitRun(t[k..])]));
    }
  }

  lemma WholeComes(t: string) returns (negative: bool, whole: string)
    requires IntegerLength(t) > 0
    ensures Digits(whole) && (whole[0] == '0' ==> |whole| == 1)
    ensures (if negative then "-" + whole else whole) == t[..IntegerLength(t)]
  {
    var k := if t[0] == '-' then 1 else 0;
    RunComes(t[k..]);
    negative, whole := t[0] == '-', t[k..][..IntegerLength(t) - k];
  }

  /** Whatever reads as a number is one of the grammar. */
  lemma NumeralComes(t: string) returns (n: Numeral)
    requires NumberLength(t) > 0
    ensures LegalNumeral(n) && NumeralText(n) == t[..NumberLength(t)]
  {
    var i := IntegerLength(t);
    var negative, whole := WholeComes(t);
    var fraction := FractionComes(t[i..]);
    var f := FractionLength(t[i..]);
    var exponent := ExponentComes(t[i..][f..]);
    n := Numeral(negative, whole, fraction, exponent);
    assert WholeText(n) == t[..i];
    Slices(t, i, f, ExponentLength(t[i..][f..]));
  }

  lemma Slices(t: string, i: nat, f: nat, e: nat)
    requires i + f + e <= |t|
    ensures t[..i] + (t[i..][..f] + t[i..][f..][..e]) == t[..i + (f + e)]
  {
  }

  // ----- values

  /** A JSON text without the white space around it. */
  datatype Doc =
    | Word(value: Value)
    | Num(numeral: Numeral)
    | Str(pieces: seq<Piece>)
    | EmptyArray(space: string)
    | Array(items: Items)
    | EmptyObject(space: string)
    | Members(members: MemberList)

  /** One element with the white space on its two sides, and the elements behind the comma. */
  datatype Items = Items(before: string, doc: Doc, after: string, more: Option<Items>)

  datatype MemberList =
    MemberList(before: string, key: seq<Piece>, middle: string, gap: string, doc: Doc, after: string,
               more: Option<MemberList>)

  predicate Space(s: string) {
    forall i :: 0 <= i < |s| ==> s[i] == ' ' || s[i] == '\t' || s[i] == '\n' || s[i] == '\r'
  }

  function WordText(value: Value): (text: Option<string>) {
    match value
    case Null => Some("null")
    case Boolean(flag) => Some(if flag then "true" else "false")
    case Number(text) => if text == "NaN" || text == "Infinity" || text == "-Infinity" then Some(text) else None
    case _ => None
  }

  predicate Legal(doc: Doc) {
    match doc
    case Word(value) => WordText(value).Some?
    case Num(numeral) => LegalNumeral(numeral)
    case Str(pieces) => LegalString(pieces)
    case EmptyArray(space) => Space(space)
    case Array(items) => LegalItems(items)
    case EmptyObject(space) => Space(space)
    case Members(members) => LegalMembers(members)
  }

  predicate LegalItems(x: Items) {
    && Space(x.before) && Legal(x.doc) && Space(x.after)
    && (match x.more case None => true case Some(more) => LegalItems(more))
  }

  predicate LegalMembers(x: MemberList) {
    && Space(x.before) && LegalString(x.key) && Space(x.middle) && Space(x.gap) && Legal(x.doc) && Space(x.after)
    && (match x.more case None => true case Some(more) => LegalMembers(more))
  }

  function DocText(doc: Doc): (s: string)
    requires Legal(doc)
  {
    match doc
    case Word(value) => WordText(value).value
    case Num(numeral) => NumeralText(numeral)
    case Str(pieces) => "\"" + (StringText(pieces) + "\"")
    case EmptyArray(space) => "[" + (space + "]")
    case Array(items) => "[" + ItemsText(items)
    case EmptyObject(space) => "{" + (space + "}")
    case Members(members) => "{" + MembersText(members)
  }

  function ItemsText(x: Items): (s: string)
    requires LegalItems(x)
  {
    x.before + (DocText(x.doc) + (x.after + match x.more case None => "]" case Some(more) => "," + ItemsText(more)))
  }

  function MembersText(x: MemberList): (s: string)
    requires LegalMembers(x)
  {
    x.before + ("\"" + (StringText(x.key) + ("\"" + (x.middle + (":" + (x.gap + (DocText(x.doc) + (x.after
    + match x.more case None => "}" case Some(more) => "," + MembersText(more)))))))))
  }

  function Meaning(doc: Doc): (value: Value)
    requires Legal(doc)
  {
    match doc
    case Word(value) => value
    case Num(numeral) => Number(NumeralText(numeral))
    case Str(pieces) => Value.Text(Joined(Units(pieces)))
    case EmptyArray(_) => List([])
    case Array(items) => List(Elements(items))
    case EmptyObject(_) => Object(map[])
    case Members(members) => Object(Fields(members, map[]))
  }

  function Elements(x: Items): (values: seq<Value>)
    requires LegalItems(x)
  {
    [Meaning(x.doc)] + match x.more case None => [] case Some(more) => Elements(more)
  }

  /** Every key with its last value. */
  function Fields(x: MemberList, before: map<PyString, Value>): (fields: map<PyString, Value>)
    requires LegalMembers(x)
  {
    var fields := before[Joined(Units(x.key)) := Meaning(x.doc)];
    match x.more case None => fields case Some(more) => Fields(more, fields)
  }

  // ----- every such text is read

  lemma {:induction false} SpaceSkips(space: string, rest: string)
    requires Space(space) && (rest == "" || !IsSpace(rest[0]))
    ensures SkipSpace(space + rest) == rest
  {
    if space == "" {
      assert space + rest == rest;
    } else {
      assert (space + rest)[1..] == space[1..] + rest;
      SpaceSkips(space[1..], rest);
    }
  }

  lemma WordReads(value: Value, rest: string)
    requires WordText(value).Some?
    ensures ParseValue(WordText(value).value + rest) == Some((value, rest))
  {
    var word := WordText(value).value;
    var t := word + rest;
    assert t[..|word|] == word && t[|word|..] == rest && t[0] == word[0];
    StartsWith(t, "null", 0);
    StartsWith(t, "true", 0);
    StartsWith(t, "false", 0);
    StartsWith(t, "NaN", 0);
    StartsWith(t, "Infinity", 0);
    StartsWith(t, "-Infinity", 0);
    assert ConstantHead(t) == Some((value, |word|));
  }

  lemma NumReads(n: Numeral, rest: string)
    requires LegalNumeral(n) && EndsNumber(rest)
    ensures ParseValue(NumeralText(n) + rest) == Some((Number(NumeralText(n)), rest))
  {
    var text := NumeralText(n);
    assert text + "" == text;
    NumeralReads(n, "");
    NumeralReads(n, rest);
    NumberIsNoConstant(text, rest);
    NumberHead(text);
    ScalarReads(text + rest, text, rest);
  }

  lemma ScalarReads(t: string, text: string, rest: string)
    requires t == text + rest && ConstantHead(t).None? && 0 < NumberLength(t) == |text|
    requires IsDigit(t[0]) || t[0] == '-'
    ensures ParseValue(t) == Some((Number(text), rest))
  {
  }

  /** The first character of a value settles that it closes nothing and is no white space. */
  lemma DocStarts(doc: Doc)
    requires Legal(doc)
    ensures var t := DocText(doc); t != "" && !IsSpace(t[0]) && t[0] != ']' && t[0] != '}'
  {
  }

  /** What follows an element up to the next separator or the closing bracket. */
  lemma SpaceEnds(after: string, next: string)
    requires Space(after) && next != "" && (next[0] == ',' || next[0] == ']' || next[0] == '}')
    ensures EndsNumber(after + next) && SkipSpace(after + next) == next
  {
    SpaceSkips(after, next);
  }

  lemma {:induction false} DocReads(doc: Doc, rest: string)
    requires Legal(doc) && (doc.Num? ==> EndsNumber(rest))
    ensures ParseValue(DocText(doc) + rest) == Some((Meaning(doc), rest))
    decreases doc, 1
  {
    match doc {
      case Word(value) => WordReads(value, rest);
      case Num(numeral) => NumReads(numeral, rest);
      case Str(pieces) => QuotedReads(pieces, rest);
      case EmptyArray(space) => EmptyReads("[", space, "]", rest);
      case EmptyObject(space) => EmptyReads("{", space, "}", rest);
      case Array(items) =>
        ItemsRead(items, [], rest);
        assert [] + Elements(items) == Elements(items);
        OpensArray(items, rest);
      case Members(members) =>
        MembersRead(members, map[], rest);
        OpensObject(members, rest);
    }
  }

  lemma QuotedReads(pieces: seq<Piece>, rest: string)
    requires LegalString(pieces)
    ensures ParseValue("\"" + (StringText(pieces) + "\"") + rest) == Some((Value.Text(Joined(Units(pieces))), rest))
  {
    StringReads(pieces, rest);
    assert ("\"" + (StringText(pieces) + "\"") + rest)[1..] == StringText(pieces) + ("\"" + rest);
  }

  lemma EmptyReads(open: string, space: string, close: string, rest: string)
    requires (open == "[" && close == "]") || (open == "{" && close == "}")
    requires Space(space)
    ensures ParseValue(open + (space + close) + rest)
         == Some((if open == "[" then List([]) else Object(map[]), rest))
  {
    var t := open + (space + close) + rest;
    assert t[1..] == space + (close + rest);
    SpaceSkips(space, close + rest);
    assert Onward(t) == close + rest && (close + rest)[1..] == rest;
  }

  lemma OpensArray(x: Items, rest: string)
    requires LegalItems(x)
    ensures ParseValue("[" + ItemsText(x) + rest) == ParseItems(SkipSpace(ItemsText(x) + rest), [])
  {
    var t, u := "[" + ItemsText(x) + rest, ItemsText(x) + rest;
    assert t[1..] == u;
    ItemsStart(x, rest);
  }

  /** The text of the elements from the end of the first one on. */
  function AfterItem(x: Items): (s: string)
    requires LegalItems(x)
  {
    match x.more case None => "]" case Some(more) => "," + ItemsText(more)
  }

  lemma ItemsStart(x: Items, rest: string)
    requires LegalItems(x)
    ensures SkipSpace(ItemsText(x) + rest) == DocText(x.doc) + (x.after + (AfterItem(x) + rest))
    ensures var u := SkipSpace(ItemsText(x) + rest); u != "" && u[0] != ']'
  {
    var u := DocText(x.doc) + (x.after + (AfterItem(x) + rest));
    assert ItemsText(x) + rest == x.before + u;
    DocStarts(x.doc);
    SpaceSkips(x.before, u);
  }

  lemma Behind(mark: string, more: string, rest: string)
    requires |mark| == 1
    ensures var t := mark + more + rest; t[0] == mark[0] && t[1..] == more + rest
    ensures more == "" ==> mark + rest == mark + more + rest && (mark + rest)[1..] == rest
  {
  }

  lemma ItemsStep(u: string, items: seq<Value>, value: Value, next: string)
    requires ParseItem(u) == Some((value, next)) && next != ""
    ensures next[0] == ']' ==> ParseItems(u, items) == Some((List(items + [value]), next[1..]))
    ensures next[0] == ',' ==> ParseItems(u, items) == ParseItems(SkipSpace(next[1..]), items + [value])
  {
  }

  lemma {:induction false} ItemReads(x: Items, rest: string)
    requires LegalItems(x)
    ensures ParseItem(SkipSpace(ItemsText(x) + rest)) == Some((Meaning(x.doc), AfterItem(x) + rest))
    decreases x, 0
  {
    var next := AfterItem(x) + rest;
    ItemsStart(x, rest);
    SpaceEnds(x.after, next);
    DocReads(x.doc, x.after + next);
  }

  lemma LastItem(x: Items, items: seq<Value>, rest: string)
    requires LegalItems(x) && x.more.None?
    requires ParseItem(SkipSpace(ItemsText(x) + rest)) == Some((Meaning(x.doc), AfterItem(x) + rest))
    ensures ParseItems(SkipSpace(ItemsText(x) + rest), items) == Some((List(items + Elements(x)), rest))
  {
    ItemsStep(SkipSpace(ItemsText(x) + rest), items, Meaning(x.doc), AfterItem(x) + rest);
    Behind("]", "", rest);
    assert Elements(x) == [Meaning(x.doc)];
  }

  lemma NextItem(x: Items, items: seq<Value>, rest: string)
    requires LegalItems(x) && x.more.Some?
    requires ParseItem(SkipSpace(ItemsText(x) + rest)) == Some((Meaning(x.doc), AfterItem(x) + rest))
    ensures ParseItems(SkipSpace(ItemsText(x) + rest), items)
         == ParseItems(SkipSpace(ItemsText(x.more.value) + rest), items + [Meaning(x.doc)])
    ensures items + [Meaning(x.doc)] + Elements(x.more.value) == items + Elements(x)
  {
    var next := AfterItem(x) + rest;
    Behind(",", ItemsText(x.more.value), rest);
    assert next == "," + ItemsText(x.more.value) + rest;
    ItemsStep(SkipSpace(ItemsText(x) + rest), items, Meaning(x.doc), next);
    assert Elements(x) == [Meaning(x.doc)] + Elements(x.more.value);
  }

  lemma {:induction false} ItemsRead(x: Items, items: seq<Value>, rest: string)
    requires LegalItems(x)
    ensures ParseItems(SkipSpace(ItemsText(x) + rest), items) == Some((List(items + Elements(x)), rest))
    decreases x, 1
  {
    ItemReads(x, rest);
    match x.more {
      case None => LastItem(x, items, rest);
      case Some(more) =>
        NextItem(x, items, rest);
        ItemsRead(more, items + [Meaning(x.doc)], rest);
    }
  }

  lemma OpensObject(x: MemberList, rest: string)
    requires LegalMembers(x)
    ensures ParseValue("{" + MembersText(x) + rest) == ParseMembers(SkipSpace(MembersText(x) + rest), map[])
  {
    var t, u := "{" + MembersText(x) + rest, MembersText(x) + rest;
    assert t[1..] == u;
    MembersStart(x, rest);
  }

  function AfterMember(x: MemberList): (s: string)
    requires LegalMembers(x)
  {
    match x.more case None => "}" case Some(more) => "," + MembersText(more)
  }

  /** The text of a member list from behind the first colon on. */
  function BehindColon(x: MemberList, rest: string): (s: string)
    requires LegalMembers(x)
  {
    x.gap + (DocText(x.doc) + (x.after + (AfterMember(x) + rest)))
  }

  function BehindKey(x: MemberList, rest: string): (s: string)
    requires LegalMembers(x)
  {
    x.middle + (":" + BehindColon(x, rest))
  }

  lemma MembersStart(x: MemberList, rest: string)
    requires LegalMembers(x)
    ensures SkipSpace(MembersText(x) + rest) == "\"" + (StringText(x.key) + ("\"" + BehindKey(x, rest)))
  {
    var u := "\"" + (StringText(x.key) + ("\"" + BehindKey(x, rest)));
    MembersTextIs(x, AfterMember(x), DocText(x.doc), StringText(x.key), rest);
    SpaceSkips(x.before, u);
  }

  lemma MembersTextIs(x: MemberList, last: string, doc: string, key: string, rest: string)
    requires LegalMembers(x) && last == AfterMember(x) && doc == DocText(x.doc) && key == StringText(x.key)
    ensures MembersText(x) + rest == x.before + ("\"" + (key + ("\"" + BehindKey(x, rest))))
  {
    FiveJoin(x.gap, doc, x.after, last, rest);
    FiveJoin(key, "\"", x.middle, ":", "");
    assert MembersText(x)
        == x.before + ("\"" + (key + ("\"" + (x.middle + (":" + (x.gap + (doc + (x.after + last))))))));
  }

  lemma FiveJoin(a: string, b: string, c: string, d: string, rest: string)
    ensures a + (b + (c + d)) + rest == a + (b + (c + (d + rest)))
  {
  }

  lemma MemberStep(t: string, key: PyString, colon: string, value: Value, tail: string)
    requires t != "" && t[0] == '"' && DecodeString(t[1..]) == Some((key, colon))
    requires SkipSpace(colon) != "" && SkipSpace(colon)[0] == ':'
    requires ParseValue(SkipSpace(SkipSpace(colon)[1..])) == Some((value, tail))
    ensures ParseMember(t) == Some((key, value, SkipSpace(tail)))
  {
  }

  lemma MembersStep(t: string, fields: map<PyString, Value>, key: PyString, value: Value, next: string)
    requires ParseMember(t) == Some((key, value, next)) && next != ""
    ensures next[0] == '}' ==> ParseMembers(t, fields) == Some((Object(fields[key := value]), next[1..]))
    ensures next[0] == ',' ==> ParseMembers(t, fields) == ParseMembers(SkipSpace(next[1..]), fields[key := value])
  {
  }

  lemma {:induction false} MemberReads(x: MemberList, rest: string)
    requires LegalMembers(x)
    ensures ParseMember(SkipSpace(MembersText(x) + rest))
         == Some((Joined(Units(x.key)), Meaning(x.doc), AfterMember(x) + rest))
    decreases x, 0
  {
    var next := AfterMember(x) + rest;
    var t := "\"" + (StringText(x.key) + ("\"" + BehindKey(x, rest)));
    MembersStart(x, rest);
    StringReads(x.key, BehindKey(x, rest));
    assert t[1..] == StringText(x.key) + ("\"" + BehindKey(x, rest));
    SpaceSkips(x.middle, ":" + BehindColon(x, rest));
    assert (":" + BehindColon(x, rest))[1..] == BehindColon(x, rest);
    DocStarts(x.doc);
    SpaceSkips(x.gap, DocText(x.doc) + (x.after + next));
    SpaceEnds(x.after, next);
    DocReads(x.doc, x.after + next);
    MemberStep(t, Joined(Units(x.key)), BehindKey(x, rest), Meaning(x.doc), x.after + next);
  }

  lemma {:induction false} MembersRead(x: MemberList, fields: map<PyString, Value>, rest: string)
    requires LegalMembers(x)
    ensures ParseMembers(SkipSpace(MembersText(x) + rest), fields) == Some((Object(Fields(x, fields)), rest))
    decreases x, 1
  {
    var next := AfterMember(x) + rest;
    var t := SkipSpace(MembersText(x) + rest);
    MemberReads(x, rest);
    MembersStep(t, fields, Joined(Units(x.key)), Meaning(x.doc), next);
    match x.more {
      case None => Behind("}", "", rest);
      case Some(more) =>
        Behind(",", MembersText(more), rest);
        MembersRead(more, fields[Joined(Units(x.key)) := Meaning(x.doc)], rest);
    }
  }

  // ----- and nothing else is

  lemma {:induction false} SpaceComes(t: string) returns (space: string)
    ensures Space(space) && t == space + SkipSpace(t)
  {
    if t != "" && IsSpace(t[0]) {
      var more := SpaceComes(t[1..]);
      space := [t[0]] + more;
    } else {
      space := "";
    }
  }

  /** The document written by a constant or a number. */
  lemma ScalarComes(t: string) returns (doc: Doc)
    requires t != "" && ParseScalar(t).Some?
    ensures Legal(doc) && t == DocText(doc) + ParseScalar(t).value.1 && Meaning(doc) == ParseScalar(t).value.0
  {
    if ConstantHead(t).Some? {
      doc := Word(ConstantHead(t).value.0);
      WordComes(t);
    } else {
      var n := NumeralComes(t);
      doc := Num(n);
    }
  }

  lemma WordComes(t: string)
    requires ConstantHead(t).Some?
    ensures WordText(ConstantHead(t).value.0) == Some(t[..ConstantHead(t).value.1])
  {
  }

  lemma {:induction false} DocComes(t: string) returns (doc: Doc)
    requires ParseValue(t).Some?
    ensures Legal(doc) && t == DocText(doc) + ParseValue(t).value.1 && Meaning(doc) == ParseValue(t).value.0
    decreases |t|, 1
  {
    if t[0] == '"' {
      var pieces := StringComes(t[1..]);
      doc := Str(pieces);
      StringReads(pieces, ParseValue(t).value.1);
      assert t == ['"'] + t[1..];
    } else if t[0] == '[' {
      doc := ArrayComes(t);
    } else if t[0] == '{' {
      doc := ObjectComes(t);
    } else {
      doc := ScalarComes(t);
    }
  }

  lemma {:induction false} ArrayComes(t: string) returns (doc: Doc)
    requires ParseValue(t).Some? && t[0] == '['
    ensures Legal(doc) && t == DocText(doc) + ParseValue(t).value.1 && Meaning(doc) == ParseValue(t).value.0
    decreases |t|, 0
  {
    var u := Onward(t);
    var space := SpaceComes(t[1..]);
    assert t == "[" + (space + u);
    if u[0] == ']' {
      doc := EmptyArray(space);
      assert u == "]" + u[1..];
    } else {
      var items := ItemsCome(u, []);
      doc := Array(items.(before := space));
      Before(items, space);
      assert [] + Elements(items) == Elements(items);
    }
  }

  lemma Before(x: Items, space: string)
    requires LegalItems(x) && x.before == "" && Space(space)
    ensures var y := x.(before := space);
            LegalItems(y) && ItemsText(y) == space + ItemsText(x) && Elements(y) == Elements(x)
  {
  }

  lemma BeforeMember(x: MemberList, space: string, fields: map<PyString, Value>)
    requires LegalMembers(x) && x.before == "" && Space(space)
    ensures var y := x.(before := space);
            LegalMembers(y) && MembersText(y) == space + MembersText(x) && Fields(y, fields) == Fields(x, fields)
  {
  }

  lemma {:induction false} ItemsCome(t: string, items: seq<Value>) returns (x: Items)
    requires ParseItems(t, items).Some?
    ensures LegalItems(x) && x.before == "" && t == ItemsText(x) + ParseItems(t, items).value.1
    ensures ParseItems(t, items).value.0 == List(items + Elements(x))
    decreases |t|, 3
  {
    var rest := ParseItems(t, items).value.1;
    var value, next := ParseItem(t).value.0, ParseItem(t).value.1;
    var first := ItemComes(t);
    ItemsStep(t, items, value, next);
    if next[0] == ']' {
      x := first;
      assert next == "]" + rest;
    } else {
      var gap := SpaceComes(next[1..]);
      var more := ItemsCome(SkipSpace(next[1..]), items + [value]);
      x := ItemsJoin(first, gap, more, items, next, rest);
    }
    ItemsShape(x, rest);
  }

  lemma ItemsJoin(first: Items, gap: string, more: Items, items: seq<Value>, next: string, rest: string)
    returns (x: Items)
    requires LegalItems(first) && first.more == None && LegalItems(more) && more.before == "" && Space(gap)
    requires next != "" && next[0] == ',' && next[1..] == gap + (ItemsText(more) + rest)
    ensures x == first.(more := x.more) && LegalItems(x) && next == AfterItem(x) + rest
    ensures items + [Meaning(first.doc)] + Elements(more) == items + Elements(x)
  {
    Before(more, gap);
    x := first.(more := Some(more.(before := gap)));
    assert next == "," + next[1..];
  }

  lemma ItemsShape(x: Items, rest: string)
    requires LegalItems(x) && x.before == ""
    ensures ItemsText(x) + rest == DocText(x.doc) + (x.after + (AfterItem(x) + rest))
  {
  }

  lemma {:induction false} ItemComes(t: string) returns (x: Items)
    requires ParseItem(t).Some?
    ensures LegalItems(x) && x.before == "" && x.more == None && ParseItem(t).value.0 == Meaning(x.doc)
    ensures t == DocText(x.doc) + (x.after + ParseItem(t).value.1)
    decreases |t|, 2
  {
    var doc := DocComes(t);
    var after := SpaceComes(ParseValue(t).value.1);
    x := Items("", doc, after, None);
  }

  lemma {:induction false} ObjectComes(t: string) returns (doc: Doc)
    requires ParseValue(t).Some? && t[0] == '{'
    ensures Legal(doc) && t == DocText(doc) + ParseValue(t).value.1 && Meaning(doc) == ParseValue(t).value.0
    decreases |t|, 0
  {
    var u := Onward(t);
    var space := SpaceComes(t[1..]);
    assert t == "{" + (space + u);
    if u[0] == '}' {
      doc := EmptyObject(space);
      assert u == "}" + u[1..];
    } else {
      var members := MembersCome(u, map[]);
      doc := Members(members.(before := space));
      BeforeMember(members, space, map[]);
    }
  }

  lemma {:induction false} MembersCome(t: string, fields: map<PyString, Value>) returns (x: MemberList)
    requires ParseMembers(t, fields).Some?
    ensures LegalMembers(x) && x.before == "" && t == MembersText(x) + ParseMembers(t, fields).value.1
    ensures ParseMembers(t, fields).value.0 == Object(Fields(x, fields))
    decreases |t|, 3
  {
    var rest := ParseMembers(t, fields).value.1;
    var next := ParseMember(t).value.2;
    var first := MemberComes(t);
    MembersStep(t, fields, Joined(Units(first.key)), Meaning(first.doc), next);
    if next[0] == '}' {
      x := first;
      assert next == "}" + rest;
    } else {
      var gap := SpaceComes(next[1..]);
      var more := MembersCome(SkipSpace(next[1..]), fields[Joined(Units(first.key)) := Meaning(first.doc)]);
      x := MembersJoin(first, gap, more, fields, next, rest);
    }
    MembersShape(x, AfterMember(x), DocText(x.doc), rest);
  }

  lemma MembersJoin(first: MemberList, gap: string, more: MemberList, fields: map<PyString, Value>, next: string,
                    rest: string)
    returns (x: MemberList)
    requires LegalMembers(first) && first.more == None && LegalMembers(more) && more.before == "" && Space(gap)
    requires next != "" && next[0] == ',' && next[1..] == gap + (MembersText(more) + rest)
    ensures x == first.(more := x.more) && LegalMembers(x) && next == AfterMember(x) + rest
    ensures Fields(more, fields[Joined(Units(first.key)) := Meaning(first.doc)]) == Fields(x, fields)
  {
    BeforeMember(more, gap, fields[Joined(Units(first.key)) := Meaning(first.doc)]);
    x := first.(more := Some(more.(before := gap)));
    assert next == "," + next[1..];
  }

  /** A member as far as its value and the white space behind it, in front of `next`. */
  function MemberText(x: MemberList, doc: string, next: string): (s: string) {
    "\"" + (StringText(x.key) + ("\"" + (x.middle + (":" + (x.gap + (doc + (x.after + next)))))))
  }

  lemma MembersShape(x: MemberList, last: string, doc: string, rest: string)
    requires LegalMembers(x) && x.before == "" && last == AfterMember(x) && doc == DocText(x.doc)
    ensures MembersText(x) + rest == MemberText(x, doc, last + rest)
  {
    MembersTextIs(x, last, doc, StringText(x.key), rest);
  }

  lemma {:induction false} MemberComes(t: string) returns (x: MemberList)
    requires ParseMember(t).Some?
    ensures LegalMembers(x) && x.before == "" && x.more == None
    ensures ParseMember(t).value.0 == Joined(Units(x.key)) && ParseMember(t).value.1 == Meaning(x.doc)
    ensures t == MemberText(x, DocText(x.doc), ParseMember(t).value.2)
    decreases |t|, 2
  {
    var colon := DecodeString(t[1..]).value.1;
    var key := KeyComes(t);
    var middle := SpaceComes(colon);
    var u := SkipSpace(colon);
    assert u == ":" + u[1..];
    var gap := SpaceComes(u[1..]);
    var doc := DocComes(SkipSpace(u[1..]));
    var after := SpaceComes(ParseValue(SkipSpace(u[1..])).value.1);
    x := MemberList("", key, middle, gap, doc, after, None);
  }

  lemma KeyComes(t: string) returns (key: seq<Piece>)
    requires t != "" && t[0] == '"' && DecodeString(t[1..]).Some?
    ensures LegalString(key) && DecodeString(t[1..]).value.0 == Joined(Units(key))
    ensures t == "\"" + (StringText(key) + ("\"" + DecodeString(t[1..]).value.1))
  {
    key := StringComes(t[1..]);
    StringReads(key, DecodeString(t[1..]).value.1);
    assert t == "\"" + t[1..];
  }

  /** A document with white space on both sides. */
  ghost predicate Writes(t: string, value: Value) {
    exists before, doc, after :: Space(before) && Legal(doc) && Space(after)
      && t == before + (DocText(doc) + after) && Meaning(doc) == value
  }

  /** `json.loads` accepts the documents of the grammar with white space around them, and nothing else. */
  lemma ParsesIff(t: string, value: Value)
    ensures Parse(t) == Some(value) <==> Writes(t, value)
  {
    if Parse(t) == Some(value) {
      var before := SpaceComes(t);
      var doc := DocComes(SkipSpace(t));
      var after := SpaceComes(ParseValue(SkipSpace(t)).value.1);
      assert t == before + (DocText(doc) + after);
    }
    if Writes(t, value) {
      var before, doc, after :| Space(before) && Legal(doc) && Space(after)
        && t == before + (DocText(doc) + after) && Meaning(doc) == value;
      DocStarts(doc);
      SpaceSkips(before, DocText(doc) + after);
      DocReads(doc, after);
      SpaceSkips(after, "");
      assert after + "" == after;
    }
  }
}
