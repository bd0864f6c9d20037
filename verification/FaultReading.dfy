/** kneepoint/chaos/proxy.py: what a fault log file says, line by line, and what a merge does with it. */
module FaultReading {
  import opened Basics
  import opened Text
  import opened Json
  import opened JsonReading
  import opened FaultLines
  import opened FaultLog

  // ----- numbers as dictionary keys

  function Ten(k: nat): (p: real)
    ensures p > 0.0
  {
    if k == 0 then 1.0 else Ten(k - 1) * 10.0
  }

  function Amount(digits: string): (n: nat)
    requires forall i :: 0 <= i < |digits| ==> '0' <= digits[i] <= '9'
  {
    if digits == "" then 0
    else 10 * Amount(digits[..|digits| - 1]) + (digits[|digits| - 1] as int - 48)
  }

  /** The number in front of the exponent. */
  function Size(n: Numeral): (x: real)
    requires LegalNumeral(n)
  {
    var part := if n.fraction.None? then 0.0 else Amount(n.fraction.value) as real / Ten(|n.fraction.value|);
    if n.negative then -(Amount(n.whole) as real + part) else Amount(n.whole) as real + part
  }

  function NumeralValue(n: Numeral): (x: real)
    requires LegalNumeral(n)
  {
    if n.exponent.None? then Size(n)
    else Scaled(Size(n), n.exponent.value.sign, Ten(Amount(n.exponent.value.digits)))
  }

  function Scaled(size: real, sign: string, p: real): (x: real)
    requires p > 0.0
  {
    if sign == "-" then size / p else size * p
  }

  lemma {:induction false} TenIs(k: nat)
    ensures PowerOfTen(k) == Ten(k)
  {
    if k > 0 {
      TenIs(k - 1);
    }
  }

  lemma {:induction false} AmountIs(digits: string)
    requires forall i :: 0 <= i < |digits| ==> '0' <= digits[i] <= '9'
    ensures DigitsValue(digits) == Amount(digits)
  {
    if digits != "" {
      AmountIs(digits[..|digits| - 1]);
    }
  }

  lemma PowerIs(digits: string)
    requires forall i :: 0 <= i < |digits| ==> '0' <= digits[i] <= '9'
    ensures PowerOfTen(Magnitude(digits)) == Ten(Amount(digits))
  {
    AmountIs(digits);
    TenIs(Amount(digits));
  }

  lemma ShiftIs(size: real, e: Exponent, p: real)
    requires LegalExponent(e) && p == PowerOfTen(Magnitude(e.digits))
    ensures Shifted(size, ExponentText(Some(e))) == Scaled(size, e.sign, p)
  {
    var t := ExponentText(Some(e));
    assert t[1 + |e.sign|..] == e.digits && |t| >= 2;
    if e.sign == "" {
      assert t[1] == e.digits[0];
    } else {
      assert t[1] == e.sign[0];
    }
  }

  lemma Slices(w: string, f: string, e: string)
    ensures var text := w + (f + e);
            text[..|w|] == w && text[|w|..] == f + e && text[|w|..|w| + |f|] == f && text[|w| + |f|..] == e
  {
  }

  /** How long the parts of a number's text are. */
  lemma LengthsAre(n: Numeral)
    requires LegalNumeral(n)
    ensures var (text, i, k) := (NumeralText(n), |WholeText(n)|, |FractionText(n.fraction)|);
            && IntegerLength(text) == i && FractionLength(text[i..]) == k && i + k <= |text|
            && text[i + k..] == ExponentText(n.exponent)
  {
    var f, e := FractionText(n.fraction), ExponentText(n.exponent);
    FractionEnds(n);
    WholeReads(n, f + e);
    Slices(WholeText(n), f, e);
  }

  lemma FractionEnds(n: Numeral)
    requires LegalNumeral(n)
    ensures var t := FractionText(n.fraction) + ExponentText(n.exponent);
            FractionLength(t) == |FractionText(n.fraction)| && (t == "" || !IsDigit(t[0]))
  {
    var e := ExponentText(n.exponent);
    assert e + "" == e;
    ExponentReads(n.exponent, "");
    AfterReads(n.fraction, e, |e|);
    FractionReads(n.fraction, e);
  }

  lemma SizeOfIs(n: Numeral)
    requires LegalNumeral(n)
    ensures var (text, i, k) := (NumeralText(n), |WholeText(n)|, |FractionText(n.fraction)|);
            i + k <= |text| && SizeOf(text, i, i + k) == Size(n)
  {
    var text, w, f := NumeralText(n), WholeText(n), FractionText(n.fraction);
    var i, k := |w|, |f|;
    Slices(w, f, ExponentText(n.exponent));
    assert text[0] == w[0] && (w[0] == '-' <==> n.negative);
    assert text[if n.negative then 1 else 0..i] == w[if n.negative then 1 else 0..];
    if n.fraction.Some? {
      assert text[i + 1..i + k] == text[i..i + k][1..] == f[1..] == n.fraction.value;
    }
    SizeIs(n, text, i, i + k);
  }

  lemma SizeIs(n: Numeral, text: string, i: nat, f: nat)
    requires LegalNumeral(n) && 0 < i <= f <= |text| && (text[0] == '-' <==> n.negative)
    requires text[if n.negative then 1 else 0..i] == n.whole
    requires if n.fraction.Some? then f == i + 1 + |n.fraction.value| && text[i + 1..f] == n.fraction.value else f == i
    ensures SizeOf(text, i, f) == Size(n)
  {
    AmountIs(n.whole);
    if n.fraction.Some? {
      AmountIs(n.fraction.value);
      TenIs(|n.fraction.value|);
    }
  }

  lemma ExponentIs(n: Numeral)
    requires LegalNumeral(n)
    ensures Shifted(Size(n), ExponentText(n.exponent)) == NumeralValue(n)
  {
    match n.exponent {
      case None =>
      case Some(e) =>
        PowerIs(e.digits);
        ShiftIs(Size(n), e, Ten(Amount(e.digits)));
    }
  }

  lemma NumberOfIs(text: string, i: nat, k: nat, x: real)
    requires IntegerLength(text) == i && FractionLength(text[i..]) == k && i + k <= |text|
    requires Shifted(SizeOf(text, i, i + k), text[i + k..]) == x
    ensures NumberOf(text) == x
  {
  }

  /** A number's text has the value its digits spell. */
  lemma NumberIs(n: Numeral)
    requires LegalNumeral(n)
    ensures NumberOf(NumeralText(n)) == NumeralValue(n)
  {
    var i, k := |WholeText(n)|, |FractionText(n.fraction)|;
    LengthsAre(n);
    SizeOfIs(n);
    ExponentIs(n);
    NumberOfIs(NumeralText(n), i, k, NumeralValue(n));
  }

  // ----- one line of the file

  /** The key a value is in a dictionary; lists and objects are none. */
  ghost predicate IsKey(value: Value, key: Key) {
    match value
    case Null => key == NoneKey
    case Boolean(flag) => key == Numeric(if flag then 1.0 else 0.0)
    case Number(text) => IsNumberKey(text, key)
    case Text(content) => key == Name(content)
    case List(_) => false
    case Object(_) => false
  }

  ghost predicate IsNumberKey(text: string, key: Key) {
    || (text == "NaN" && key == NotANumber)
    || (text == "Infinity" && key == Infinite(true))
    || (text == "-Infinity" && key == Infinite(false))
    || exists n :: LegalNumeral(n) && NumeralText(n) == text && key == Numeric(NumeralValue(n))
  }

  /** What Python counts as false. */
  ghost predicate Falsy(value: Value) {
    match value
    case Null => true
    case Boolean(flag) => !flag
    case Number(text) => exists n :: LegalNumeral(n) && NumeralText(n) == text && NumeralValue(n) == 0.0
    case Text(content) => content == []
    case List(items) => items == []
    case Object(fields) => fields == map[]
  }

  predicate Container(value: Value) {
    value.List? || value.Object?
  }

  /** An object in the file that has a fault. */
  ghost predicate Tells(line: string, fields: map<PyString, Value>) {
    Writes(line, Object(fields)) && Points("fault") in fields
  }

  /** What such an object reads as: its fault, and its session unless that is absent or counts as false. */
  ghost predicate Says(fields: map<PyString, Value>, reading: Reading)
    requires Points("fault") in fields
  {
    var fault, id := fields[Points("fault")], Points("session_id");
    match reading
    case Skipped => false
    case Unhashable => Container(fault) || (id in fields && Container(fields[id]) && !Falsy(fields[id]))
    case Read(e) =>
      && IsKey(fault, e.fault)
      && (match e.sessionId
          case None => id !in fields || Falsy(fields[id])
          case Some(key) => id in fields && !Falsy(fields[id]) && IsKey(fields[id], key))
  }

  /** A value as the grammar makes them: its number, if it is one, is a number's text. */
  ghost predicate Spelled(value: Value) {
    value.Number? ==> value.text == "NaN" || value.text == "Infinity" || value.text == "-Infinity"
                      || exists n :: LegalNumeral(n) && NumeralText(n) == value.text
  }

  lemma MeaningIsSpelled(doc: Doc)
    requires Legal(doc)
    ensures Spelled(Meaning(doc))
  {
  }

  lemma {:induction false} FieldsAreSpelled(x: MemberList, before: map<PyString, Value>)
    requires LegalMembers(x) && forall k :: k in before ==> Spelled(before[k])
    ensures forall k :: k in Fields(x, before) ==> Spelled(Fields(x, before)[k])
  {
    MeaningIsSpelled(x.doc);
    match x.more {
      case None =>
      case Some(more) => FieldsAreSpelled(more, before[Joined(Units(x.key)) := Meaning(x.doc)]);
    }
  }

  lemma NumeralIsNoWord(n: Numeral)
    requires LegalNumeral(n)
    ensures NumeralText(n) != "NaN" && NumeralText(n) != "Infinity" && NumeralText(n) != "-Infinity"
  {
    var t := NumeralText(n);
    assert if n.negative then t[0] == '-' && t[1] == n.whole[0] else t[0] == n.whole[0];
  }

  lemma KeyIs(value: Value)
    requires Spelled(value)
    ensures match KeyOf(value) case None => Container(value) case Some(key) => IsKey(value, key)
    ensures Truthy(value) <==> !Falsy(value)
  {
    if value.Number? {
      NumberKeyIs(value.text);
    }
  }

  lemma NumberKeyIs(text: string)
    requires Spelled(Number(text))
    ensures KeyOf(Number(text)).Some? && IsNumberKey(text, KeyOf(Number(text)).value)
    ensures Truthy(Number(text)) <==> !Falsy(Number(text))
  {
    forall n | LegalNumeral(n) && NumeralText(n) == text
      ensures KeyOf(Number(text)) == Some(Numeric(NumeralValue(n)))
    {
      NumeralIsNoWord(n);
      NumberIs(n);
    }
  }

  lemma {:induction false} BlankStays(t: string)
    requires IsBlank(t)
    ensures IsBlank(SkipSpace(t))
  {
    if t != "" && IsSpace(t[0]) {
      BlankStays(t[1..]);
    }
  }

  /** A line of white space holds no JSON. */
  lemma BlankIsNothing(line: string)
    requires IsBlank(line)
    ensures Parse(line).None?
  {
    var t := SkipSpace(line);
    BlankStays(line);
    if t != "" {
      assert IsPythonSpace(t[0] as int);
      NoConstant(t);
    }
  }

  lemma NoConstant(t: string)
    requires t != "" && IsPythonSpace(t[0] as int)
    ensures ParseScalar(t).None?
  {
    StartsWith(t, "null", 0);
    StartsWith(t, "true", 0);
    StartsWith(t, "false", 0);
    StartsWith(t, "NaN", 0);
    StartsWith(t, "Infinity", 0);
    StartsWith(t, "-Infinity", 0);
  }

  /** A line is skipped when it is no object with a fault, and otherwise says what that object says. */
  lemma LineSays(line: string)
    ensures ReadLine(line).Skipped? ==> forall fields :: !Tells(line, fields)
    ensures !ReadLine(line).Skipped? ==> exists fields :: Tells(line, fields) && Says(fields, ReadLine(line))
  {
    if IsBlank(line) {
      BlankIsNothing(line);
    }
    forall fields | Tells(line, fields)
      ensures Parse(line) == Some(Object(fields)) && Says(fields, ReadValue(Object(fields)))
    {
      ParsesIff(line, Object(fields));
      ObjectSays(line, fields);
    }
    if !ReadLine(line).Skipped? {
      ParsesIff(line, Parse(line).value);
    }
  }

  lemma DocFields(doc: Doc, fields: map<PyString, Value>)
    requires Legal(doc) && Meaning(doc) == Object(fields)
    ensures forall k :: k in fields ==> Spelled(fields[k])
  {
    match doc {
      case EmptyObject(_) =>
      case Members(members) => FieldsAreSpelled(members, map[]);
    }
  }

  lemma ObjectSays(line: string, fields: map<PyString, Value>)
    requires Tells(line, fields)
    ensures Says(fields, ReadValue(Object(fields)))
  {
    var before, doc, after :| Space(before) && Legal(doc) && Space(after)
      && line == before + (DocText(doc) + after) && Meaning(doc) == Object(fields);
    DocFields(doc, fields);
    KeyIs(fields[FAULT]);
    if SESSION_ID in fields {
      KeyIs(fields[SESSION_ID]);
    }
  }

  // ----- the lines of the file

  predicate IsLineEnd(c: char) {
    var n := c as int;
    n == 10 || n == 11 || n == 12 || n == 13 || n == 28 || n == 29 || n == 30 || n == 133 || n == 8232 || n == 8233
  }

  predicate IsEnd(end: string) {
    end == "\r\n" || (|end| == 1 && IsLineEnd(end[0]))
  }

  /** Lines with their ends, one after the other. */
  function Woven(lines: seq<string>, ends: seq<string>): (t: string)
    requires |lines| == |ends|
  {
    if lines == [] then "" else lines[0] + (ends[0] + Woven(lines[1..], ends[1..]))
  }

  /** No boundary inside a line, one behind each but perhaps the last, and none of them cut in two. */
  ghost predicate AreLines(lines: seq<string>, ends: seq<string>)
    requires |lines| == |ends|
  {
    && (forall i, k :: 0 <= i < |lines| && 0 <= k < |lines[i]| ==> !IsLineEnd(lines[i][k]))
    && (forall i :: 0 <= i < |ends| ==> IsEnd(ends[i]) || (i == |ends| - 1 && ends[i] == "" && lines[i] != ""))
    && (forall i :: 0 <= i < |ends| - 1 && ends[i] == "\r" ==> !(lines[i + 1] == "" && ends[i + 1] == "\n"))
  }

  lemma {:induction false} LineEndIs(t: string)
    ensures forall k :: 0 <= k < LineEnd(t) ==> !IsLineEnd(t[k])
    ensures LineEnd(t) < |t| ==> IsLineEnd(t[LineEnd(t)])
  {
    if t != "" && BoundaryAt(t) == 0 {
      LineEndIs(t[1..]);
      assert forall k :: 1 <= k < LineEnd(t) ==> t[k] == t[1..][k - 1];
    }
  }

  lemma FirstLineIs(t: string) returns (end: string)
    requires t != ""
    ensures var (line, rest) := FirstLine(t);
            && t == line + (end + rest) && (forall k :: 0 <= k < |line| ==> !IsLineEnd(line[k]))
            && (IsEnd(end) || (end == "" && rest == "" && line != ""))
            && (end == "\r" ==> rest == "" || rest[0] != '\n')
  {
    var n := LineEnd(t);
    var k := BoundaryAt(t[n..]);
    LineEndIs(t);
    end := t[n..n + k];
    if k == 2 {
      assert t[n..][0] == '\r' && t[n..][1] == '\n';
      assert end == "\r\n";
    }
  }

  /** The text is its lines with a boundary behind each; only the last may lack one. */
  lemma {:induction false} LinesAre(t: string) returns (ends: seq<string>)
    ensures |ends| == |SplitLines(t)| && AreLines(SplitLines(t), ends) && Woven(SplitLines(t), ends) == t
    decreases |t|
  {
    if t == "" {
      ends := [];
    } else {
      var (line, rest) := FirstLine(t);
      var end := FirstLineIs(t);
      var more := LinesAre(rest);
      ends := [end] + more;
      LinesJoin(line, end, SplitLines(rest), more);
    }
  }

  lemma LinesJoin(line: string, end: string, lines: seq<string>, ends: seq<string>)
    requires |lines| == |ends| && AreLines(lines, ends)
    requires forall k :: 0 <= k < |line| ==> !IsLineEnd(line[k])
    requires IsEnd(end) || (end == "" && Woven(lines, ends) == "" && line != "")
    requires end == "\r" ==> Woven(lines, ends) == "" || Woven(lines, ends)[0] != '\n'
    ensures AreLines([line] + lines, [end] + ends)
    ensures Woven([line] + lines, [end] + ends) == line + (end + Woven(lines, ends))
  {
    assert ([line] + lines)[1..] == lines && ([end] + ends)[1..] == ends;
    if lines != [] {
      assert Woven(lines, ends) == lines[0] + (ends[0] + Woven(lines[1..], ends[1..]));
      assert lines[0] != "" || ends[0] != "";
    }
  }

  /** The entries of the lines that have one, in the order of the file. */
  function EntriesOf(readings: seq<Reading>): (entries: seq<Entry>) {
    if readings == [] then []
    else EntriesOf(readings[..|readings| - 1])
         + match readings[|readings| - 1] case Read(e) => [e] case _ => []
  }

  predicate SomeRaises(readings: seq<Reading>) {
    exists i :: 0 <= i < |readings| && readings[i].Unhashable?
  }

  /** A file loads unless some line's fault or session cannot be a key, and then gives its lines' entries. */
  lemma TextSays(text: string)
    ensures ReadText(text).None? <==> SomeRaises(Readings(SplitLines(text)))
    ensures ReadText(text).Some? ==> ReadText(text).value == EntriesOf(Readings(SplitLines(text)))
  {
    CollectIs(Readings(SplitLines(text)));
  }

  lemma {:induction false} CollectIs(readings: seq<Reading>)
    ensures Collect(readings).None? <==> SomeRaises(readings)
    ensures Collect(readings).Some? ==> Collect(readings).value == EntriesOf(readings)
  {
    if readings != [] {
      var before := readings[..|readings| - 1];
      CollectIs(before);
      if SomeRaises(before) {
        var i :| 0 <= i < |before| && before[i].Unhashable?;
        assert readings[i].Unhashable?;
      }
    }
  }

  // ----- a line as it is written

  function FourHex(n: nat): (s: string)
    requires n < 65536
  {
    ['\\', 'u', HexDigit(n / 4096), HexDigit(n / 256 % 16), HexDigit(n / 16 % 16), HexDigit(n % 16)]
  }

  function HexDigit(n: nat): (c: char)
    requires n < 16
  {
    if n < 10 then (48 + n) as char else (87 + n) as char
  }

  /** One code point in ASCII; beyond the basic plane as a surrogate pair. */
  function AsciiPoint(n: CodePoint): (s: string) {
    if n == 34 then "\\\"" else if n == 92 then "\\\\"
    else if n == 10 then "\\n" else if n == 13 then "\\r" else if n == 9 then "\\t"
    else if n == 8 then "\\b" else if n == 12 then "\\f"
    else if 32 <= n <= 126 then [n as char]
    else if n < 65536 then FourHex(n)
    else FourHex(55296 + (n - 65536) / 1024) + FourHex(56320 + (n - 65536) % 1024)
  }

  function AsciiText(s: PyString): (text: string) {
    if s == [] then "" else AsciiPoint(s[0]) + AsciiText(s[1..])
  }

  lemma AsciiPointIs(n: CodePoint)
    ensures EscapePoint(n) == AsciiPoint(n)
  {
  }

  lemma {:induction false} AsciiIs(s: PyString)
    ensures Escape(s) == AsciiText(s)
  {
    if s != [] {
      AsciiPointIs(s[0]);
      AsciiIs(s[1..]);
    }
  }

  function Labelled(key: string, value: string): (s: string) {
    "\"" + key + "\": " + value
  }

  lemma KeyedIs(key: string, value: string, more: string)
    ensures Keyed(key, value + more) == Labelled(key, value) + more
  {
  }

  function StringOf(s: PyString): (text: string) {
    "\"" + AsciiText(s) + "\""
  }

  /** The line of a recorded fault: time, name, and the session header as it came. */
  lemma LineIs(ts: string, name: PyString, id: Option<PyString>)
    ensures Line(Stamped(ts, Fault(name, id)))
         == "{" + (Labelled("ts", ts) + (", " + (Labelled("fault", StringOf(name)) + (", "
            + (Labelled("session_id", if id.None? then "null" else StringOf(id.value)) + "}")))))
  {
    var f := Fault(name, id);
    AsciiIs(name);
    if id.Some? {
      AsciiIs(id.value);
    }
    KeyedIs("ts", ts, FaultMember(f));
    KeyedIs("fault", Quoted(name), SessionMember(id));
    KeyedIs("session_id", SessionText(id), "}");
  }

  // ----- a merge

  /** The session at `j` has the id and none behind it does. */
  predicate IsLast(sessions: seq<Session>, id: PyString, j: nat) {
    && j < |sessions| && sessions[j].sessionId == id
    && forall i :: j < i < |sessions| ==> sessions[i].sessionId != id
  }

  ghost predicate Owns(sessions: seq<Session>, s: Session) {
    exists j: nat :: IsLast(sessions, s.sessionId, j) && sessions[j] == s
  }

  lemma {:induction false} OwnerAt(sessions: seq<Session>, id: PyString) returns (j: nat)
    requires exists s :: s in sessions && s.sessionId == id
    ensures IsLast(sessions, id, j) && Name(id) in ById(sessions) && ById(sessions)[Name(id)] == sessions[j]
  {
    var n := |sessions| - 1;
    var before := sessions[..n];
    assert sessions == before + [sessions[n]];
    if sessions[n].sessionId == id {
      j := n;
    } else {
      j := OwnerAt(before, id);
    }
  }

  lemma OwnerIsLast(sessions: seq<Session>, s: Session)
    requires s in sessions
    ensures Name(s.sessionId) in ById(sessions)
    ensures ById(sessions)[Name(s.sessionId)] == s <==> Owns(sessions, s)
  {
    var j := OwnerAt(sessions, s.sessionId);
    forall k: nat | IsLast(sessions, s.sessionId, k)
      ensures k == j
    {
    }
  }

  /** The names of the faults recorded under the id, in order. */
  function NamesUnder(entries: seq<Entry>, id: PyString): (names: seq<Key>) {
    if entries == [] then []
    else
      var e := entries[|entries| - 1];
      NamesUnder(entries[..|entries| - 1], id) + if e.sessionId == Some(Name(id)) then [e.fault] else []
  }

  lemma {:induction false} NamesAre(entries: seq<Entry>, id: PyString)
    ensures FaultNames(Filter(entries, OfSession(Name(id)))) == NamesUnder(entries, id)
  {
    if entries != [] {
      var n := |entries| - 1;
      NamesAre(entries[..n], id);
      FaultNamesSnoc(Filter(entries[..n], OfSession(Name(id))), entries[n]);
    }
  }

  /** After a merge, the last session with an id has that id's faults behind its own; no other gained any. */
  lemma SessionsGain(entries: seq<Entry>, sessions: seq<Session>, start: map<Session, seq<Key>>, s: Session)
    requires s in sessions && s in start
    requires Extended(sessions, start, ById(sessions), Replay(entries).bySession, Replay(entries).bySession.Keys)
    ensures s.faults == start[s] + if Owns(sessions, s) then NamesUnder(entries, s.sessionId) else []
  {
    OwnerIsLast(sessions, s);
    TallyMeans(entries, NoneKey, Name(s.sessionId));
    NamesAre(entries, s.sessionId);
    assert FaultNames([]) == [];
  }

  /** The sessions among these ids that some recorded fault names. */
  ghost function Touched(entries: seq<Entry>, ids: set<Key>): (touched: set<Key>) {
    set id | id in ids && exists i :: 0 <= i < |entries| && entries[i].sessionId == Some(id)
  }

  /** Nameless faults and sessions hit, as a merge reports them. */
  lemma MergeReports(m: FaultMerge, entries: seq<Entry>, ids: set<Key>)
    requires Merged(m, entries, ids)
    ensures m.unattributed == Count(entries, (e: Entry) => e.sessionId.None?)
    ensures m.sessionsTouched == |Touched(entries, ids)|
  {
    SameCount(entries, Nameless(), (e: Entry) => e.sessionId.None?);
    forall id | id in ids
      ensures id in Replay(entries).bySession <==> id in Touched(entries, ids)
    {
      TallyMeans(entries, NoneKey, id);
      FilterMembers(entries, OfSession(id));
      if Filter(entries, OfSession(id)) != [] {
        var e := Filter(entries, OfSession(id))[0];
        assert e in entries && OfSession(id)(e);
      }
      if id in Touched(entries, ids) {
        var i :| 0 <= i < |entries| && entries[i].sessionId == Some(id);
        assert entries[i] in entries && OfSession(id)(entries[i]);
      }
    }
    assert Replay(entries).bySession.Keys * ids == Touched(entries, ids);
  }
}
