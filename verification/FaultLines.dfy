/**
 * kneepoint/chaos/proxy.py: the text of a fault log, one JSON object per fault, and how it reads back.
 */
module FaultLines {
  // The time stamp of a fault is a parameter, given as the number it is written as.

  import opened Basics
  import opened Text
  import opened Json

  /** One served fault and the session header it came with, if any. */
  datatype Fault = Fault(name: PyString, sessionId: Option<PyString>)

  /** A fault as it is recorded, with its time stamp. */
  datatype Stamped = Stamped(ts: string, fault: Fault)

  /**
   * What Python can use as the key of a dictionary, of the values JSON can hold: numbers and truth values
   * that are equal are one key.
   */
  datatype Key = Name(text: PyString) | NoneKey | Numeric(value: real) | NotANumber | Infinite(positive: bool)

  /** A fault as it is read: its kind, and the session unless that counts as none. */
  datatype Entry = Entry(fault: Key, sessionId: Option<Key>)

  predicate IsNumber(text: string) {
    text != "" && NumberLength(text) == |text|
  }

  // ----- lines

  /** The length of the line boundary a text starts with, for Python's `splitlines`. */
  function BoundaryAt(t: string): (n: nat)
    ensures n <= |t|
  {
    if t == "" then 0
    else if t[0] == '\r' && |t| > 1 && t[1] == '\n' then 2
    else
      var n := t[0] as int;
      if 0x0A <= n <= 0x0D || 0x1C <= n <= 0x1E || n == 0x85 || n == 0x2028 || n == 0x2029 then 1 else 0
  }

  /** Where the first line ends. */
  function LineEnd(t: string): (n: nat)
    ensures n <= |t|
    ensures n < |t| ==> BoundaryAt(t[n..]) > 0
  {
    if t == "" || BoundaryAt(t) > 0 then 0 else 1 + LineEnd(t[1..])
  }

  /** The first line, and the text after its boundary. */
  function FirstLine(t: string): (r: (string, string))
    requires t != ""
    ensures |r.1| < |t|
  {
    var n := LineEnd(t);
    (t[..n], t[n + BoundaryAt(t[n..])..])
  }

  /** `str.splitlines`. */
  function SplitLines(t: string): (s: seq<string>)
    decreases |t|
  {
    if t == "" then [] else [FirstLine(t).0] + SplitLines(FirstLine(t).1)
  }

  predicate OneLine(t: string) {
    forall i :: 0 <= i < |t| ==> BoundaryAt([t[i]]) == 0
  }

  /** A text that ends where a line does. */
  predicate WholeLines(t: string) {
    t == "" || t[|t| - 1] == '\n'
  }

  lemma {:induction false} LineEndMore(t: string, more: string)
    requires LineEnd(t) < |t| && t[|t| - 1] == '\n'
    ensures LineEnd(t + more) == LineEnd(t)
    ensures BoundaryAt((t + more)[LineEnd(t)..]) == BoundaryAt(t[LineEnd(t)..])
  {
    if BoundaryAt(t) == 0 {
      assert (t + more)[1..] == t[1..] + more;
      assert t[1..][LineEnd(t[1..])..] == t[LineEnd(t)..];
      assert (t + more)[1..][LineEnd(t[1..])..] == (t + more)[LineEnd(t)..];
      LineEndMore(t[1..], more);
    }
  }

  lemma {:induction false} LineEndsBeforeLast(t: string)
    requires t != "" && t[|t| - 1] == '\n'
    ensures LineEnd(t) < |t|
  {
    if BoundaryAt(t) == 0 {
      LineEndsBeforeLast(t[1..]);
    }
  }

  lemma FirstLineStays(t: string, more: string)
    requires t != "" && WholeLines(t)
    ensures FirstLine(t + more) == (FirstLine(t).0, FirstLine(t).1 + more)
    ensures WholeLines(FirstLine(t).1)
  {
    LineEndsBeforeLast(t);
    LineEndMore(t, more);
    var n := LineEnd(t);
    var k := n + BoundaryAt(t[n..]);
    assert (t + more)[..n] == t[..n] && (t + more)[k..] == t[k..] + more;
  }

  lemma JoinsOn<T>(x: T, s: seq<T>, t: seq<T>)
    ensures [x] + (s + t) == [x] + s + t
  {
  }

  /** Whole lines split off: what is appended never changes the lines before it. */
  lemma {:induction false} LinesAppend(t: string, more: string)
    requires WholeLines(t)
    ensures SplitLines(t + more) == SplitLines(t) + SplitLines(more)
    decreases |t|
  {
    if t == "" {
      assert t + more == more;
    } else {
      var first := FirstLine(t);
      FirstLineStays(t, more);
      LinesAppend(first.1, more);
      JoinsOn(first.0, SplitLines(first.1), SplitLines(more));
    }
  }

  lemma {:induction false} OneLineEnd(t: string, more: string)
    requires OneLine(t) && (more == "" || BoundaryAt(more) > 0)
    ensures LineEnd(t + more) == |t|
  {
    if t == "" {
      assert t + more == more;
    } else {
      assert (t + more)[1..] == t[1..] + more;
      assert BoundaryAt([t[0]]) == 0;
      OneLineEnd(t[1..], more);
    }
  }

  lemma OneLineSplits(t: string)
    requires OneLine(t)
    ensures SplitLines(t + "\n") == [t]
    ensures t != "" ==> SplitLines(t) == [t]
  {
    OneLineEnd(t, "\n");
    OneLineEnd(t, "");
    assert t + "" == t;
    assert (t + "\n")[..|t|] == t && (t + "\n")[|t|..] == "\n";
    assert (t + "\n")[|t| + 1..] == "";
  }

  // ----- one record's line

  function SessionText(id: Option<PyString>): (s: string) {
    if id.None? then "null" else Quoted(id.value)
  }

  /** A key in front of its value and whatever comes after. */
  function Keyed(key: string, u: string): (s: string) {
    ['"'] + (key + ['"'] + (": " + u))
  }

  function SessionMember(id: Option<PyString>): (s: string) {
    ", " + Keyed("session_id", SessionText(id) + "}")
  }

  function FaultMember(f: Fault): (s: string) {
    ", " + Keyed("fault", Quoted(f.name) + SessionMember(f.sessionId))
  }

  /** `json.dumps({"ts": ..., "fault": ..., "session_id": ...})`. */
  function Line(s: Stamped): (result: string) {
    "{" + Keyed("ts", s.ts + FaultMember(s.fault))
  }

  predicate Printable(t: string) {
    forall i :: 0 <= i < |t| ==> 0x20 <= t[i] as int < 0x7F
  }

  lemma PrintableIsOneLine(t: string)
    requires Printable(t)
    ensures OneLine(t)
  {
  }

  lemma {:induction false} EscapeIsPrintable(s: PyString)
    ensures Printable(Escape(s))
  {
    if s != [] {
      EscapeIsPrintable(s[1..]);
      PointIsPrintable(s[0]);
    }
  }

  lemma PointIsPrintable(n: CodePoint)
    ensures Printable(EscapePoint(n))
  {
    if n >= 0x10000 {
      UnitIsPrintable(HighOf(n));
      UnitIsPrintable(LowOf(n));
    } else if ShortEscape(n).None? && !(0x20 <= n < 0x7F) {
      UnitIsPrintable(n);
    }
  }

  lemma UnitIsPrintable(n: nat)
    requires n < 0x10000
    ensures Printable(UnicodeEscape(n))
  {
  }

  lemma NumberIsPrintable(t: string)
    requires IsNumber(t)
    ensures Printable(t)
  {
    var i := IntegerLength(t);
    IntegerIsPrintable(t);
    AfterIntegerIsPrintable(t[i..]);
    PrintableJoin(t[..i], t[i..]);
    assert t == t[..i] + t[i..];
  }

  lemma AfterIntegerIsPrintable(t: string)
    requires AfterInteger(t) == |t|
    ensures Printable(t)
  {
    var f := FractionLength(t);
    FractionIsPrintable(t);
    ExponentIsPrintable(t[f..]);
    PrintableJoin(t[..f], t[f..]);
    assert t == t[..f] + t[f..];
  }

  lemma {:induction false} DigitsArePrintable(t: string)
    ensures Printable(t[..DigitRun(t)])
  {
    if t != "" && IsDigit(t[0]) {
      DigitsArePrintable(t[1..]);
      assert t[..DigitRun(t)] == [t[0]] + t[1..][..DigitRun(t[1..])];
    }
  }

  lemma IntegerIsPrintable(t: string)
    ensures Printable(t[..IntegerLength(t)])
  {
    var sign := if t != "" && t[0] == '-' then 1 else 0;
    DigitsArePrintable(t[sign..]);
    var n := DigitRun(t[sign..]);
    assert forall i :: sign <= i < sign + n ==> t[i] == t[sign..][..n][i - sign];
  }

  lemma FractionIsPrintable(t: string)
    ensures Printable(t[..FractionLength(t)])
  {
    if t != "" {
      DigitsArePrintable(t[1..]);
      var n := DigitRun(t[1..]);
      assert forall i :: 1 <= i < 1 + n ==> t[i] == t[1..][..n][i - 1];
    }
  }

  lemma ExponentIsPrintable(t: string)
    ensures Printable(t[..ExponentLength(t)])
  {
    if t != "" {
      var sign := if |t| >= 2 && (t[1] == '+' || t[1] == '-') then 2 else 1;
      DigitsArePrintable(t[sign..]);
      var n := DigitRun(t[sign..]);
      assert forall i :: sign <= i < sign + n ==> t[i] == t[sign..][..n][i - sign];
    }
  }

  lemma PrintableJoin(t: string, u: string)
    requires Printable(t) && Printable(u)
    ensures Printable(t + u)
  {
  }

  lemma KeyedIsPrintable(key: string, u: string)
    requires Printable(key) && Printable(u)
    ensures Printable(Keyed(key, u))
  {
    PrintableJoin(": ", u);
    PrintableJoin(key, ['"']);
    PrintableJoin(key + ['"'], ": " + u);
  }

  lemma SessionIsPrintable(id: Option<PyString>)
    ensures Printable(SessionMember(id))
  {
    if id.Some? {
      QuotedIsPrintable(id.value);
    }
    PrintableJoin(SessionText(id), "}");
    KeyedIsPrintable("session_id", SessionText(id) + "}");
    PrintableJoin(", ", Keyed("session_id", SessionText(id) + "}"));
  }

  lemma FaultIsPrintable(f: Fault)
    ensures Printable(FaultMember(f))
  {
    var u := Quoted(f.name) + SessionMember(f.sessionId);
    SessionIsPrintable(f.sessionId);
    QuotedIsPrintable(f.name);
    PrintableJoin(Quoted(f.name), SessionMember(f.sessionId));
    KeyedIsPrintable("fault", u);
    PrintableJoin(", ", Keyed("fault", u));
  }

  /** Whatever is recorded, its line is plain ASCII without any line boundary inside. */
  lemma LineIsPrintable(s: Stamped)
    requires IsNumber(s.ts)
    ensures Printable(Line(s)) && OneLine(Line(s))
  {
    var u := s.ts + FaultMember(s.fault);
    NumberIsPrintable(s.ts);
    FaultIsPrintable(s.fault);
    PrintableJoin(s.ts, FaultMember(s.fault));
    KeyedIsPrintable("ts", u);
    PrintableJoin("{", Keyed("ts", u));
    PrintableIsOneLine(Line(s));
  }

  lemma QuotedIsPrintable(s: PyString)
    ensures Printable(Quoted(s))
  {
    EscapeIsPrintable(s);
    PrintableJoin(['"'], Escape(s));
    PrintableJoin(['"'] + Escape(s), ['"']);
  }

  // ----- reading a line

  const FAULT := Points("fault")
  const SESSION_ID := Points("session_id")
  const TS := Points("ts")

  /** What a line of the file is: skipped, an entry, or an object whose fault or session no dictionary takes as key. */
  datatype Reading = Skipped | Read(entry: Entry) | Unhashable

  /** `str.isspace`, character by character. */
  predicate IsBlank(line: string) {
    forall i :: 0 <= i < |line| ==> IsPythonSpace(line[i] as int)
  }

  predicate IsPythonSpace(n: int) {
    || 0x09 <= n <= 0x0D || 0x1C <= n <= 0x20 || n == 0x85 || n == 0xA0 || n == 0x1680
    || 0x2000 <= n <= 0x200A || n == 0x2028 || n == 0x2029 || n == 0x202F || n == 0x205F || n == 0x3000
  }

  // ----- JSON values as keys

  function PowerOfTen(n: nat): (p: real)
    ensures p > 0.0
  {
    if n == 0 then 1.0 else 10.0 * PowerOfTen(n - 1)
  }

  /** The value of a number as JSON writes it: integer part, fraction, exponent. */
  function NumberOf(text: string): (x: real) {
    var i := IntegerLength(text);
    var f := i + FractionLength(text[i..]);
    Shifted(SizeOf(text, i, f), text[f..])
  }

  /** The integer part, up to `i`, and the fraction, up to `f`. */
  function SizeOf(text: string, i: nat, f: nat): (x: real)
    requires i <= f <= |text|
  {
    var negative := text != "" && text[0] == '-';
    var whole := DigitsValue(text[if negative && i > 0 then 1 else 0..i]) as real;
    var part := if f == i then 0.0 else DigitsValue(text[i + 1..f]) as real / PowerOfTen(f - i - 1);
    if negative then -(whole + part) else whole + part
  }

  /** `size` moved by the exponent part, such as `e-3`, if there is one. */
  function Shifted(size: real, exponent: string): (x: real) {
    if |exponent| < 2 then size
    else if exponent[1] == '-' then size / PowerOfTen(Magnitude(exponent[2..]))
    else if exponent[1] == '+' then size * PowerOfTen(Magnitude(exponent[2..]))
    else size * PowerOfTen(Magnitude(exponent[1..]))
  }

  function Magnitude(digits: string): (n: nat) {
    var n := DigitsValue(digits);
    if n < 0 then 0 else n
  }

  /** A value as a dictionary key; lists and objects cannot be one. */
  function KeyOf(value: Value): (key: Option<Key>) {
    match value
    case Null => Some(NoneKey)
    case Boolean(flag) => Some(Numeric(if flag then 1.0 else 0.0))
    case Number(text) =>
      if text == "NaN" then Some(NotANumber)
      else if text == "Infinity" then Some(Infinite(true))
      else if text == "-Infinity" then Some(Infinite(false))
      else Some(Numeric(NumberOf(text)))
    case Text(content) => Some(Name(content))
    case _ => None
  }

  /** `bool(value)`. */
  predicate Truthy(value: Value) {
    match value
    case Text(content) => content != []
    case List(items) => items != []
    case Object(fields) => fields != map[]
    case _ => KeyOf(value) != Some(NoneKey) && KeyOf(value) != Some(Numeric(0.0))
  }

  function ReadValue(value: Value): (reading: Reading) {
    if !value.Object? || FAULT !in value.fields then Skipped
    else
      var fault := KeyOf(value.fields[FAULT]);
      var session := if SESSION_ID in value.fields then value.fields[SESSION_ID] else Null;
      if fault.None? || (Truthy(session) && KeyOf(session).None?) then Unhashable
      else Read(Entry(fault.value, if Truthy(session) then KeyOf(session) else None))
  }

  function ReadLine(line: string): (reading: Reading) {
    if IsBlank(line) then Skipped
    else
      var value := Parse(line);
      if value.None? then Skipped else ReadValue(value.value)
  }

  /** The entries read, in order; nothing when one of the lines raises. */
  function Collect(readings: seq<Reading>): (r: Option<seq<Entry>>) {
    if readings == [] then Some([])
    else
      var before, last := Collect(readings[..|readings| - 1]), readings[|readings| - 1];
      if before.None? || last.Unhashable? then None
      else if last.Read? then Some(before.value + [last.entry])
      else before
  }

  function Readings(lines: seq<string>): (s: seq<Reading>) {
    seq(|lines|, i requires 0 <= i < |lines| => ReadLine(lines[i]))
  }

  function ReadText(text: string): (r: Option<seq<Entry>>) {
    Collect(Readings(SplitLines(text)))
  }

  /** A fault as it counts when it is recorded; an empty header counts as none. */
  function AsEntry(f: Fault): (entry: Entry) {
    Entry(Name(f.name), if f.sessionId.Some? && f.sessionId.value != [] then Some(Name(f.sessionId.value)) else None)
  }

  /** A fault as it comes back from the file. */
  function Rejoined(f: Fault): (fault: Fault) {
    Fault(Joined(f.name), if f.sessionId.Some? then Some(Joined(f.sessionId.value)) else None)
  }

  // ----- a written line parses to its entry

  lemma StringValue(s: PyString, rest: string)
    ensures ParseValue(Quoted(s) + rest) == Some((Value.Text(Joined(s)), rest))
  {
    assert (Quoted(s) + rest)[1..] == Escape(s) + ['"'] + rest;
    StringRoundTrip(s, rest);
  }

  lemma NumberValue(ts: string, rest: string)
    requires IsNumber(ts) && rest != "" && rest[0] == ','
    ensures ParseValue(ts + rest) == Some((Number(ts), rest))
  {
    NumberIsNoConstant(ts, rest);
    NumberMore(ts, rest);
    NumberHead(ts);
    assert (ts + rest)[..|ts|] == ts && (ts + rest)[|ts|..] == rest;
    PlainNumber(ts + rest, ts, rest);
  }

  lemma PlainNumber(t: string, ts: string, rest: string)
    requires ConstantHead(t).None? && 0 < NumberLength(t) == |ts| && t[..|ts|] == ts && t[|ts|..] == rest
    requires IsDigit(t[0]) || t[0] == '-'
    ensures ParseValue(t) == Some((Number(ts), rest))
  {
  }

  lemma SessionValue(id: Option<PyString>, rest: string)
    ensures ParseValue(SessionText(id) + rest)
         == Some((if id.None? then Null else Value.Text(Joined(id.value)), rest))
  {
    if id.None? {
      assert ("null" + rest)[..4] == "null" && ("null" + rest)[4..] == rest;
    } else {
      StringValue(id.value, rest);
    }
  }

  /** The text reads as one member and goes on at its separator. */
  predicate ReadsMember(t: string, key: PyString, value: Value, rest: string) {
    ParseMember(t) == Some((key, value, rest))
  }

  /** A key, a colon, a space and a value in front of a separator. */
  lemma MemberReads(key: string, u: string, value: Value, rest: string)
    requires Printable(key) && '"' !in key && '\\' !in key
    requires u != "" && !IsSpace(u[0]) && ParseValue(u) == Some((value, rest))
    requires rest != "" && !IsSpace(rest[0])
    ensures ReadsMember(Keyed(key, u), Points(key), value, rest)
  {
    var t := Keyed(key, u);
    PlainKey(key, ": " + u);
    assert t[1..] == key + ['"'] + (": " + u);
    AfterColon(u);
    MemberParts(t, Points(key), ": " + u, value, rest);
  }

  lemma AfterColon(u: string)
    requires u != "" && !IsSpace(u[0])
    ensures Onward(": " + u) == u
  {
    assert (": " + u)[1..] == " " + u;
    AfterSpace(u);
  }

  lemma AfterSpace(u: string)
    requires u != "" && !IsSpace(u[0])
    ensures SkipSpace(" " + u) == u
  {
    assert (" " + u)[1..] == u;
    assert SkipSpace(u) == u;
  }

  lemma MemberParts(t: string, key: PyString, colon: string, value: Value, rest: string)
    requires t != "" && t[0] == '"' && DecodeString(t[1..]) == Some((key, colon))
    requires colon != "" && colon[0] == ':' && ParseValue(Onward(colon)) == Some((value, rest))
    requires rest != "" && !IsSpace(rest[0])
    ensures ReadsMember(t, key, value, rest)
  {
  }

  lemma {:induction false} PlainKey(key: string, rest: string)
    requires Printable(key) && '"' !in key && '\\' !in key
    ensures DecodeString(key + ['"'] + rest) == Some((Points(key), rest))
  {
    var t := key + ['"'] + rest;
    if key == "" {
      assert t[1..] == rest;
    } else {
      assert t[1..] == key[1..] + ['"'] + rest;
      PlainKey(key[1..], rest);
      assert t[0] == key[0] && key[0] in key;
      assert Points(key) == [key[0] as int] + Points(key[1..]);
    }
  }

  lemma LastMember(t: string, key: PyString, value: Value, fields: map<PyString, Value>)
    requires ReadsMember(t, key, value, "}")
    ensures ParseMembers(t, fields) == Some((Object(fields[key := value]), ""))
  {
  }

  lemma MoreMembers(t: string, key: PyString, value: Value, next: string, fields: map<PyString, Value>)
    requires ReadsMember(t, key, value, ", " + next) && next != "" && !IsSpace(next[0])
    ensures ParseMembers(t, fields) == ParseMembers(next, fields[key := value])
  {
    AfterSpace(next);
    assert (", " + next)[1..] == " " + next;
  }

  /** What a written line parses to. */
  function LineFields(s: Stamped): (m: map<PyString, Value>) {
    map[TS := Number(s.ts)][FAULT := Value.Text(Joined(s.fault.name))]
       [SESSION_ID := SessionAsValue(s.fault.sessionId)]
  }

  function SessionAsValue(id: Option<PyString>): (value: Value) {
    if id.None? then Null else Value.Text(Joined(id.value))
  }

  lemma SessionMemberReads(id: Option<PyString>)
    ensures ReadsMember(Keyed("session_id", SessionText(id) + "}"), SESSION_ID, SessionAsValue(id), "}")
  {
    SessionValue(id, "}");
    MemberReads("session_id", SessionText(id) + "}", SessionAsValue(id), "}");
  }

  lemma FaultMemberReads(f: Fault)
    ensures ReadsMember(Keyed("fault", Quoted(f.name) + SessionMember(f.sessionId)), FAULT,
                        Value.Text(Joined(f.name)), SessionMember(f.sessionId))
  {
    StringValue(f.name, SessionMember(f.sessionId));
    MemberReads("fault", Quoted(f.name) + SessionMember(f.sessionId), Value.Text(Joined(f.name)),
                SessionMember(f.sessionId));
  }

  lemma StampReads(s: Stamped)
    requires IsNumber(s.ts)
    ensures ReadsMember(Keyed("ts", s.ts + FaultMember(s.fault)), TS, Number(s.ts), FaultMember(s.fault))
  {
    NumberValue(s.ts, FaultMember(s.fault));
    NumberHead(s.ts);
    MemberReads("ts", s.ts + FaultMember(s.fault), Number(s.ts), FaultMember(s.fault));
  }

  lemma LineParses(s: Stamped)
    requires IsNumber(s.ts)
    ensures ParseValue(Line(s)) == Some((Object(LineFields(s)), ""))
    ensures Line(s)[0] == '{'
  {
    var f := s.fault;
    var stamp := Keyed("ts", s.ts + FaultMember(f));
    var fault := Keyed("fault", Quoted(f.name) + SessionMember(f.sessionId));
    var session := Keyed("session_id", SessionText(f.sessionId) + "}");
    var one := map[TS := Number(s.ts)];
    var two := one[FAULT := Value.Text(Joined(f.name))];
    StampReads(s);
    FaultMemberReads(f);
    SessionMemberReads(f.sessionId);
    MoreMembers(stamp, TS, Number(s.ts), fault, map[]);
    MoreMembers(fault, FAULT, Value.Text(Joined(f.name)), session, one);
    LastMember(session, SESSION_ID, SessionAsValue(f.sessionId), two);
    OpensObject(stamp);
  }

  lemma OpensObject(u: string)
    requires u != "" && u[0] == '"'
    ensures ParseValue("{" + u) == ParseMembers(u, map[])
  {
    assert ("{" + u)[1..] == u;
    assert SkipSpace(u) == u;
  }

  lemma KeysDiffer()
    ensures TS != FAULT && TS != SESSION_ID && FAULT != SESSION_ID
  {
    assert |TS| == 2 && |FAULT| == 5 && |SESSION_ID| == 10;
  }

  lemma FieldsRead(s: Stamped)
    ensures ReadValue(Object(LineFields(s))) == Read(AsEntry(Rejoined(s.fault)))
  {
    KeysDiffer();
    SessionReads(s.fault.sessionId);
  }

  lemma SessionReads(id: Option<PyString>)
    ensures Truthy(SessionAsValue(id)) <==> id.Some? && id.value != []
    ensures id.Some? ==> KeyOf(SessionAsValue(id)) == Some(Name(Joined(id.value)))
    ensures id.Some? ==> (Joined(id.value) == [] <==> id.value == [])
  {
    if id.Some? {
      JoinedIsIntact(id.value);
    }
  }

  /** A written line reads as the fault that was recorded, its split surrogate pairs joined. */
  lemma LineReads(s: Stamped)
    requires IsNumber(s.ts)
    ensures ReadLine(Line(s)) == Read(AsEntry(Rejoined(s.fault)))
  {
    LineIsParsed(s);
    FieldsRead(s);
  }

  lemma LineIsParsed(s: Stamped)
    requires IsNumber(s.ts)
    ensures !IsBlank(Line(s)) && Parse(Line(s)) == Some(Object(LineFields(s)))
  {
    LineParses(s);
    assert !IsPythonSpace(Line(s)[0] as int);
    assert SkipSpace(Line(s)) == Line(s);
  }

  // ----- a whole file

  /** Lines as they are appended to the file. */
  function Written(lines: seq<string>): (s: string) {
    if lines == [] then "" else Written(lines[..|lines| - 1]) + (lines[|lines| - 1] + "\n")
  }

  function LinesOf(log: seq<Stamped>): (s: seq<string>) {
    seq(|log|, i requires 0 <= i < |log| => Line(log[i]))
  }

  /** The file after these faults were recorded. */
  function FileText(log: seq<Stamped>): (s: string) {
    Written(LinesOf(log))
  }

  predicate Timed(log: seq<Stamped>) {
    forall i :: 0 <= i < |log| ==> IsNumber(log[i].ts)
  }

  function Faults(log: seq<Stamped>): (s: seq<Fault>) {
    seq(|log|, i requires 0 <= i < |log| => log[i].fault)
  }

  function AllEntries(faults: seq<Fault>): (s: seq<Entry>) {
    seq(|faults|, i requires 0 <= i < |faults| => AsEntry(faults[i]))
  }

  function AllRejoined(faults: seq<Fault>): (s: seq<Fault>) {
    seq(|faults|, i requires 0 <= i < |faults| => Rejoined(faults[i]))
  }

  /** The entries a file of these faults reads as. */
  function ReadBack(log: seq<Stamped>): (s: seq<Entry>) {
    AllEntries(AllRejoined(Faults(log)))
  }

  lemma {:induction false} WrittenSplits(lines: seq<string>)
    requires forall i :: 0 <= i < |lines| ==> OneLine(lines[i])
    ensures SplitLines(Written(lines)) == lines && WholeLines(Written(lines))
  {
    if lines != [] {
      var before, last := lines[..|lines| - 1], lines[|lines| - 1];
      WrittenSplits(before);
      OneLineSplits(last);
      LinesAppend(Written(before), last + "\n");
      assert lines == before + [last];
    }
  }

  lemma FileSplits(log: seq<Stamped>)
    requires Timed(log)
    ensures SplitLines(FileText(log)) == LinesOf(log) && WholeLines(FileText(log))
  {
    forall i | 0 <= i < |log|
      ensures OneLine(LinesOf(log)[i])
    {
      LineIsPrintable(log[i]);
    }
    WrittenSplits(LinesOf(log));
  }

  lemma CollectSnoc(readings: seq<Reading>, last: Reading)
    ensures Collect(readings + [last]) ==
      (if Collect(readings).None? || last.Unhashable? then None
       else if last.Read? then Some(Collect(readings).value + [last.entry])
       else Collect(readings))
  {
    assert (readings + [last])[..|readings|] == readings;
  }

  lemma {:induction false} CollectRead(readings: seq<Reading>, entries: seq<Entry>)
    requires |readings| == |entries|
    requires forall i :: 0 <= i < |readings| ==> readings[i] == Read(entries[i])
    ensures Collect(readings) == Some(entries)
  {
    if readings != [] {
      var n := |readings| - 1;
      CollectRead(readings[..n], entries[..n]);
      assert entries == entries[..n] + [entries[n]];
    }
  }

  lemma Regrouped<T>(s: seq<T>, t: seq<T>, x: T)
    ensures s + t + [x] == s + (t + [x])
  {
  }

  lemma {:induction false} CollectJoin(readings: seq<Reading>, more: seq<Reading>)
    ensures Collect(readings + more) ==
      (if Collect(readings).None? || Collect(more).None? then None
       else Some(Collect(readings).value + Collect(more).value))
  {
    if more == [] {
      assert readings + more == readings;
      assert Collect(readings).Some? ==> Collect(readings).value + [] == Collect(readings).value;
    } else {
      var before, last := more[..|more| - 1], more[|more| - 1];
      CollectJoin(readings, before);
      CollectSnoc(readings + before, last);
      assert readings + more == readings + before + [last];
      if Collect(readings).Some? && Collect(more).Some? && last.Read? {
        Regrouped(Collect(readings).value, Collect(before).value, last.entry);
      }
    }
  }

  lemma LinesRead(log: seq<Stamped>)
    requires Timed(log)
    ensures Collect(Readings(LinesOf(log))) == Some(ReadBack(log))
  {
    forall i | 0 <= i < |log|
      ensures Readings(LinesOf(log))[i] == Read(ReadBack(log)[i])
    {
      LineReads(log[i]);
    }
    CollectRead(Readings(LinesOf(log)), ReadBack(log));
  }

  /**
   * The text written by any sequence of records, for arbitrary fault and session strings, reads back as
   * those entries in order.
   */
  lemma FileReads(log: seq<Stamped>)
    requires Timed(log)
    ensures ReadText(FileText(log)) == Some(ReadBack(log))
  {
    FileSplits(log);
    LinesRead(log);
  }

  // ----- files with other text in them

  lemma ReadingsJoin(lines: seq<string>, more: seq<string>)
    ensures Readings(lines + more) == Readings(lines) + Readings(more)
  {
  }

  /** Text behind whole lines reads as it reads by itself. */
  lemma TextJoins(text: string, more: string)
    requires WholeLines(text)
    ensures ReadText(text + more) ==
      (if ReadText(text).None? || ReadText(more).None? then None
       else Some(ReadText(text).value + ReadText(more).value))
  {
    LinesAppend(text, more);
    ReadingsJoin(SplitLines(text), SplitLines(more));
    CollectJoin(Readings(SplitLines(text)), Readings(SplitLines(more)));
  }

  lemma SkippedReadsEmpty(noise: string)
    requires OneLine(noise) && ReadLine(noise).Skipped?
    ensures ReadText(noise + "\n") == Some([]) && ReadText(noise) == Some([])
  {
    OneLineSplits(noise);
    OneSkipped([noise]);
  }

  lemma OneSkipped(lines: seq<string>)
    requires |lines| == 1 && ReadLine(lines[0]).Skipped?
    ensures Collect(Readings(lines)) == Some([])
  {
    assert Readings(lines)[..0] == [];
  }

  /** A line that is skipped can be put between any two lines of a file without changing what it reads as. */
  lemma NoiseIsSkipped(text: string, noise: string, more: string)
    requires WholeLines(text) && OneLine(noise) && ReadLine(noise).Skipped?
    ensures ReadText(text + ((noise + "\n") + more)) == ReadText(text + more)
  {
    SkippedReadsEmpty(noise);
    TextJoins(noise + "\n", more);
    TextJoins(text, (noise + "\n") + more);
    TextJoins(text, more);
    assert ReadText(more).Some? ==> [] + ReadText(more).value == ReadText(more).value;
  }

  /**
   * A crash in the middle of an append costs that record at most, and only when more than the newline
   * is missing: the torn line is skipped, everything before it is read.
   */
  lemma TornTailIsSkipped(log: seq<Stamped>, last: Stamped, k: nat)
    requires Timed(log) && IsNumber(last.ts) && k <= |Line(last)|
    ensures ReadText(FileText(log) + Line(last)[..k])
         == Some(ReadBack(log) + if k == |Line(last)| then [AsEntry(Rejoined(last.fault))] else [])
  {
    var torn := Line(last)[..k];
    FileSplits(log);
    FileReads(log);
    TextJoins(FileText(log), torn);
    if k == |Line(last)| {
      WholeLine(last);
      assert torn == Line(last);
    } else {
      TornLine(last, k);
      SkippedReadsEmpty(torn);
    }
  }

  lemma WholeLine(s: Stamped)
    requires IsNumber(s.ts)
    ensures ReadText(Line(s)) == Some([AsEntry(Rejoined(s.fault))])
  {
    LineIsPrintable(s);
    OneLineSplits(Line(s));
    LineReads(s);
    CollectRead(Readings([Line(s)]), [AsEntry(Rejoined(s.fault))]);
  }

  lemma TornLine(s: Stamped, k: nat)
    requires IsNumber(s.ts) && k < |Line(s)|
    ensures OneLine(Line(s)[..k]) && ReadLine(Line(s)[..k]).Skipped?
  {
    LineIsPrintable(s);
    LineParses(s);
    TornObject(Line(s), k);
  }
}
