/**
 * kneepoint/targets/trace_context.py: the identity an attempt is hashed from, and the W3C headers.
 *
 * The digest is a parameter. Strings are sequences of Unicode scalar values, so UTF-8 always encodes.
 */
module TraceContext {
  import opened Basics
  import opened Text
  import opened Json

  // ----- JSON strings (RFC 8259, section 7)

  /** One character as `json.dumps(..., ensure_ascii=False)` writes it inside a string. */
  function EscapeChar(c: char): (s: string)
    ensures s != ""
  {
    var short := ShortEscape(c as int);
    if short.Some? then ['\\', short.value]
    else if c as int < 0x20 then ['\\', 'u', '0', '0', HexLower(c as int / 16), HexLower(c as int % 16)]
    else [c]
  }

  function Escape(s: string): (result: string) {
    if s == "" then "" else EscapeChar(s[0]) + Escape(s[1..])
  }

  function JsonString(s: string): (result: string) {
    ['"'] + Escape(s) + ['"']
  }

  predicate IsScalar(n: CodePoint) {
    n < 0xD800 || 0xE000 <= n
  }

  /** A Python string as text, unless it holds a surrogate. */
  function Characters(p: PyString): (r: Option<string>) {
    if p == [] then Some("")
    else
      var rest := Characters(p[1..]);
      if !IsScalar(p[0]) || rest.None? then None else Some([p[0] as char] + rest.value)
  }

  lemma {:induction false} PointsRoundTrip(s: string)
    ensures Characters(Points(s)) == Some(s)
  {
    if s != "" {
      PointsRoundTrip(s[1..]);
      assert Points(s)[1..] == Points(s[1..]);
      assert s == [s[0]] + s[1..];
    }
  }

  lemma EscapeHead(c: char, rest: string)
    ensures UnescapeHead(EscapeChar(c) + rest) == Some((c as int, |EscapeChar(c)|))
    ensures (EscapeChar(c) + rest)[0] != '"'
  {
    var t := EscapeChar(c) + rest;
    if ShortEscape(c as int).None? && c as int < 0x20 {
      HexRoundTrip(c as int / 16);
      HexRoundTrip(c as int % 16);
      assert t[2..6] == ['0', '0', HexLower(c as int / 16), HexLower(c as int % 16)];
    }
  }

  lemma FirstChar(s: string, rest: string) returns (width: nat)
    requires s != ""
    ensures ReadsHead(Escape(s) + ['"'] + rest, s[0] as int, width, Escape(s[1..]) + ['"'] + rest)
  {
    var tail := Escape(s[1..]) + ['"'] + rest;
    width := |EscapeChar(s[0])|;
    EscapeHead(s[0], tail);
    assert Escape(s) + ['"'] + rest == EscapeChar(s[0]) + tail;
  }

  /** Every string, with any quotes, backslashes or control characters, reads back as itself. */
  lemma {:induction false} TextRoundTrip(s: string, rest: string)
    ensures DecodeString(Escape(s) + ['"'] + rest) == Some((Points(s), rest))
  {
    var t := Escape(s) + ['"'] + rest;
    if s == "" {
      assert t[0] == '"' && t[1..] == rest;
    } else {
      var width := FirstChar(s, rest);
      TextRoundTrip(s[1..], rest);
      DecodeStep(t, s[0] as int, width, Escape(s[1..]) + ['"'] + rest, Points(s[1..]), rest);
      assert Points(s) == [s[0] as int] + Points(s[1..]);
    }
  }

  // ----- the identity

  datatype Identity = Identity(runId: string, sessionId: string, concurrency: int, turn: int, attempt: int)

  /** A string behind its separator, and what follows it. */
  function WriteQuoted(open: char, s: string, rest: string): (result: string) {
    [open] + JsonString(s) + rest
  }

  /** `json.dumps([run, session, concurrency, turn, attempt])` with bare separators. */
  function IdentityText(i: Identity): (s: string) {
    WriteQuoted('[', i.runId, WriteQuoted(',', i.sessionId, [','] + Numbers(i) + [']']))
  }

  function Numbers(i: Identity): (s: string) {
    Decimal(i.concurrency) + [','] + (Decimal(i.turn) + [','] + Decimal(i.attempt))
  }

  function ParseNumbers(t: string): (r: (int, int, int)) {
    var rest := After(t, ',');
    (DecimalValue(Before(t, ',')), DecimalValue(Before(rest, ',')), DecimalValue(After(rest, ',')))
  }

  function ReadQuoted(open: char, t: string): (r: Option<(string, string)>) {
    if |t| < 2 || t[0] != open || t[1] != '"' then None
    else
      var content := DecodeString(t[2..]);
      if content.None? || Characters(content.value.0).None? then None
      else Some((Characters(content.value.0).value, content.value.1))
  }

  /** Reads back `[string,string,number,number,number]`. */
  function ParseIdentity(t: string): (r: Option<Identity>) {
    var run := ReadQuoted('[', t);
    if run.None? then None
    else
      var session := ReadQuoted(',', run.value.1);
      if session.None? then None
      else
        var v := session.value.1;
        if |v| < 2 || v[0] != ',' || v[|v| - 1] != ']' then None
        else
          var numbers := ParseNumbers(v[1..|v| - 1]);
          Some(Identity(run.value.0, session.value.0, numbers.0, numbers.1, numbers.2))
  }

  lemma QuotedRoundTrip(open: char, s: string, rest: string)
    ensures ReadQuoted(open, WriteQuoted(open, s, rest)) == Some((s, rest))
  {
    var t := WriteQuoted(open, s, rest);
    assert t[2..] == Escape(s) + ['"'] + rest;
    TextRoundTrip(s, rest);
    PointsRoundTrip(s);
  }

  lemma NumbersRoundTrip(i: Identity)
    ensures ParseNumbers(Numbers(i)) == (i.concurrency, i.turn, i.attempt)
  {
    DecimalLacks(i.concurrency, ',');
    DecimalLacks(i.turn, ',');
    SplitAtFirst(Decimal(i.concurrency), ',', Decimal(i.turn) + [','] + Decimal(i.attempt));
    SplitAtFirst(Decimal(i.turn), ',', Decimal(i.attempt));
    DecimalRoundTrip(i.concurrency);
    DecimalRoundTrip(i.turn);
    DecimalRoundTrip(i.attempt);
  }

  /** The identity text determines the identity, for arbitrary string ids. */
  lemma IdentityRoundTrip(i: Identity)
    ensures ParseIdentity(IdentityText(i)) == Some(i)
  {
    var v := [','] + Numbers(i) + [']'];
    QuotedRoundTrip('[', i.runId, WriteQuoted(',', i.sessionId, v));
    QuotedRoundTrip(',', i.sessionId, v);
    assert v[1..|v| - 1] == Numbers(i);
    NumbersRoundTrip(i);
  }

  function IdentityBytes(i: Identity): (s: seq<Byte>) {
    EncodeUtf8(IdentityText(i))
  }

  /** No two attempts share an identity encoding. */
  lemma IdentityInjective(i: Identity, j: Identity)
    requires IdentityBytes(i) == IdentityBytes(j)
    ensures i == j
  {
    Utf8RoundTrip(IdentityText(i));
    Utf8RoundTrip(IdentityText(j));
    IdentityRoundTrip(i);
    IdentityRoundTrip(j);
  }

  // ----- trace and span ids (W3C Trace Context, section 3.2.2)

  const TRACE_DOMAIN := "kneepoint.trace.v1\0"
  const SPAN_DOMAIN := "kneepoint.span.v1\0"

  predicate IsLowerHex(s: string) {
    forall i :: 0 <= i < |s| ==> '0' <= s[i] <= '9' || 'a' <= s[i] <= 'f'
  }

  /** What a SHA-256 hex digest is, as far as this code cares. */
  ghost predicate IsDigest(sha: seq<Byte> -> string) {
    forall bytes :: |sha(bytes)| == 64 && IsLowerHex(sha(bytes))
  }

  function Zeros(n: nat): (s: string) {
    seq(n, _ => '0')
  }

  /** An id of `n` hex digits, moved off the forbidden all-zero value. */
  function NonZero(id: string): (s: string)
    requires id != ""
  {
    if id == Zeros(|id|) then Zeros(|id| - 1) + "1" else id
  }

  function TraceInput(i: Identity): (s: seq<Byte>) {
    EncodeUtf8(TRACE_DOMAIN) + IdentityBytes(i)
  }

  function SpanInput(i: Identity): (s: seq<Byte>) {
    EncodeUtf8(SPAN_DOMAIN) + IdentityBytes(i)
  }

  datatype Context = Context(traceId: string, spanId: string, traceparent: string, baggage: string)

  ghost function TraceId(i: Identity, sha: seq<Byte> -> string): (s: string)
    requires IsDigest(sha)
  {
    NonZero(sha(TraceInput(i))[..32])
  }

  ghost function SpanId(i: Identity, sha: seq<Byte> -> string): (s: string)
    requires IsDigest(sha)
  {
    NonZero(sha(SpanInput(i))[..16])
  }

  function Traceparent(traceId: string, spanId: string): (s: string) {
    "00-" + traceId + "-" + spanId + "-01"
  }

  /** `attempt_context`, with the digest given. */
  ghost function AttemptContext(i: Identity, sha: seq<Byte> -> string): (context: Context)
    requires IsDigest(sha)
  {
    Context(TraceId(i, sha), SpanId(i, sha), Traceparent(TraceId(i, sha), SpanId(i, sha)), Baggage(i))
  }

  ghost predicate IsId(s: string, n: nat) {
    |s| == n && IsLowerHex(s) && s != Zeros(n)
  }

  lemma NonZeroIsId(id: string)
    requires id != "" && IsLowerHex(id)
    ensures IsId(NonZero(id), |id|)
  {
    if id == Zeros(|id|) {
      assert NonZero(id)[|id| - 1] == '1';
      assert Zeros(|id|)[|id| - 1] == '0';
    }
  }

  /** Version 00, a valid trace id, a valid span id and the sampled flag. */
  ghost predicate ValidHeader(header: string, traceId: string, spanId: string) {
    && IsId(traceId, 32) && IsId(spanId, 16) && |header| == 55
    && header[..3] == "00-" && header[3..35] == traceId && header[35] == '-'
    && header[36..52] == spanId && header[52..] == "-01"
  }

  lemma TraceparentIsValid(i: Identity, sha: seq<Byte> -> string)
    requires IsDigest(sha)
    ensures var c := AttemptContext(i, sha); ValidHeader(c.traceparent, c.traceId, c.spanId)
  {
    IdsAreValid(i, sha);
    HeaderShape(TraceId(i, sha), SpanId(i, sha));
  }

  lemma IdsAreValid(i: Identity, sha: seq<Byte> -> string)
    requires IsDigest(sha)
    ensures IsId(TraceId(i, sha), 32) && IsId(SpanId(i, sha), 16)
  {
    DigestPrefix(sha, TraceInput(i), 32);
    DigestPrefix(sha, SpanInput(i), 16);
  }

  lemma DigestPrefix(sha: seq<Byte> -> string, bytes: seq<Byte>, n: nat)
    requires IsDigest(sha) && 0 < n <= 64
    ensures |sha(bytes)| == 64 && IsId(NonZero(sha(bytes)[..n]), n)
  {
    NonZeroIsId(sha(bytes)[..n]);
  }

  lemma HeaderShape(a: string, b: string)
    requires IsId(a, 32) && IsId(b, 16)
    ensures ValidHeader(Traceparent(a, b), a, b)
  {
  }

  /** Trace and span ids never hash the same bytes, and different attempts never do either. */
  lemma HashInputsAreDistinct(i: Identity, j: Identity)
    ensures TraceInput(i) != SpanInput(j)
    ensures i != j ==> TraceInput(i) != TraceInput(j) && SpanInput(i) != SpanInput(j)
  {
    if TraceInput(i) == SpanInput(j) {
      DomainsDiffer(IdentityText(i), IdentityText(j));
    }
    if TraceInput(i) == TraceInput(j) {
      assert IdentityBytes(i) == TraceInput(i)[|EncodeUtf8(TRACE_DOMAIN)|..];
      assert IdentityBytes(j) == TraceInput(j)[|EncodeUtf8(TRACE_DOMAIN)|..];
      IdentityInjective(i, j);
    }
    if SpanInput(i) == SpanInput(j) {
      assert IdentityBytes(i) == SpanInput(i)[|EncodeUtf8(SPAN_DOMAIN)|..];
      assert IdentityBytes(j) == SpanInput(j)[|EncodeUtf8(SPAN_DOMAIN)|..];
      IdentityInjective(i, j);
    }
  }

  lemma {:induction false} EncodeConcat(s: string, t: string)
    ensures EncodeUtf8(s + t) == EncodeUtf8(s) + EncodeUtf8(t)
  {
    if s == "" {
      assert s + t == t;
    } else {
      assert (s + t)[1..] == s[1..] + t;
      EncodeConcat(s[1..], t);
    }
  }

  lemma DomainsDiffer(x: string, y: string)
    ensures EncodeUtf8(TRACE_DOMAIN) + EncodeUtf8(x) != EncodeUtf8(SPAN_DOMAIN) + EncodeUtf8(y)
  {
    EncodeConcat(TRACE_DOMAIN, x);
    EncodeConcat(SPAN_DOMAIN, y);
    Utf8RoundTrip(TRACE_DOMAIN + x);
    Utf8RoundTrip(SPAN_DOMAIN + y);
    Texts(x, y);
  }

  lemma Texts(x: string, y: string)
    ensures TRACE_DOMAIN + x != SPAN_DOMAIN + y
  {
    assert (TRACE_DOMAIN + x)[10] == 't';
    assert (SPAN_DOMAIN + y)[10] == 's';
  }

  // ----- baggage (W3C Baggage, section 3; RFC 3986, sections 2.1 and 2.3)

  predicate Unreserved(b: Byte) {
    || 'a' as int <= b <= 'z' as int
    || 'A' as int <= b <= 'Z' as int
    || '0' as int <= b <= '9' as int
    || b == '_' as int || b == '.' as int || b == '-' as int || b == '~' as int
  }

  function QuoteByte(b: Byte): (s: string)
    ensures |s| == 1 || |s| == 3
  {
    if Unreserved(b) then [b as char] else ['%', HexUpper(b / 16), HexUpper(b % 16)]
  }

  function QuoteBytes(bs: seq<Byte>): (s: string) {
    if bs == [] then "" else QuoteByte(bs[0]) + QuoteBytes(bs[1..])
  }

  /** `quote(value, safe='')`. */
  function Quote(value: string): (s: string) {
    QuoteBytes(EncodeUtf8(value))
  }

  function UnquoteBytes(s: string): (r: Option<seq<Byte>>) {
    if s == "" then Some([])
    else if s[0] == '%' then
      if |s| < 3 || HexValue(s[1]).None? || HexValue(s[2]).None? then None
      else
        var rest := UnquoteBytes(s[3..]);
        var b := HexValue(s[1]).value * 16 + HexValue(s[2]).value;
        if rest.None? || b >= 256 then None else Some([b] + rest.value)
    else if s[0] as int >= 0x80 then None
    else
      var rest := UnquoteBytes(s[1..]);
      if rest.None? then None else Some([s[0] as int] + rest.value)
  }

  function Unquote(s: string): (r: Option<string>) {
    var bytes := UnquoteBytes(s);
    if bytes.None? then None else DecodeUtf8(bytes.value)
  }

  /** The characters percent-encoding leaves: no separator of the header among them. */
  predicate HeaderSafe(s: string) {
    forall i :: 0 <= i < |s| ==> s[i] == '%' || (s[i] as int < 0x80 && Unreserved(s[i] as int))
  }

  function Prepend(b: Byte, rest: Option<seq<Byte>>): (r: Option<seq<Byte>>) {
    if rest.Some? then Some([b] + rest.value) else None
  }

  lemma PlainByte(b: Byte, tail: string)
    requires Unreserved(b)
    ensures UnquoteBytes([b as char] + tail) == Prepend(b, UnquoteBytes(tail))
  {
    assert ([b as char] + tail)[1..] == tail;
  }

  lemma EscapedByte(b: Byte, tail: string)
    ensures UnquoteBytes(['%', HexUpper(b / 16), HexUpper(b % 16)] + tail) == Prepend(b, UnquoteBytes(tail))
  {
    var s := ['%', HexUpper(b / 16), HexUpper(b % 16)] + tail;
    assert s[3..] == tail;
    HexRoundTrip(b / 16);
    HexRoundTrip(b % 16);
  }

  lemma HexIsSafe(n: nat)
    requires n < 16
    ensures HeaderSafe([HexUpper(n)])
  {
  }

  lemma QuoteByteRoundTrip(b: Byte, tail: string)
    ensures HeaderSafe(QuoteByte(b))
    ensures UnquoteBytes(QuoteByte(b) + tail) == Prepend(b, UnquoteBytes(tail))
  {
    if Unreserved(b) {
      PlainByte(b, tail);
    } else {
      EscapedByte(b, tail);
      HexIsSafe(b / 16);
      HexIsSafe(b % 16);
      assert HeaderSafe(['%'] + [HexUpper(b / 16)] + [HexUpper(b % 16)]);
    }
  }

  lemma {:induction false} QuoteRoundTripBytes(bs: seq<Byte>)
    ensures UnquoteBytes(QuoteBytes(bs)) == Some(bs)
    ensures HeaderSafe(QuoteBytes(bs))
  {
    if bs != [] {
      QuoteRoundTripBytes(bs[1..]);
      QuoteByteRoundTrip(bs[0], QuoteBytes(bs[1..]));
      assert bs == [bs[0]] + bs[1..];
    }
  }

  lemma QuoteRoundTrip(value: string)
    ensures Unquote(Quote(value)) == Some(value) && HeaderSafe(Quote(value))
  {
    QuoteRoundTripBytes(EncodeUtf8(value));
    Utf8RoundTrip(value);
  }

  /** The five labels, in the order of the header. */
  function Labels(i: Identity): (s: seq<(string, string)>) {
    [("kneepoint.run_id", i.runId), ("kneepoint.level", Decimal(i.concurrency)), ("kneepoint.session", i.sessionId),
     ("kneepoint.turn", Decimal(i.turn)), ("kneepoint.attempt", Decimal(i.attempt))]
  }

  function Member(pair: (string, string)): (s: string) {
    pair.0 + ['='] + Quote(pair.1)
  }

  function JoinMembers(labels: seq<(string, string)>): (s: string) {
    if labels == [] then ""
    else if |labels| == 1 then Member(labels[0])
    else Member(labels[0]) + [','] + JoinMembers(labels[1..])
  }

  function Baggage(i: Identity): (s: string) {
    JoinMembers(Labels(i))
  }

  /** A list member read back: key, then percent-decoded value. */
  function ParseMember(s: string): (r: Option<(string, string)>) {
    var value := Unquote(After(s, '='));
    if value.None? then None else Some((Before(s, '='), value.value))
  }

  function ParseParts(parts: seq<string>): (r: Option<seq<(string, string)>>) {
    if parts == [] then Some([])
    else
      var first, rest := ParseMember(parts[0]), ParseParts(parts[1..]);
      if first.None? || rest.None? then None else Some([first.value] + rest.value)
  }

  /** The header split at its commas, each member decoded. */
  function ParseBaggage(header: string): (r: Option<seq<(string, string)>>) {
    ParseParts(Split(header, ','))
  }

  /** A key that can stand in the header as it is. */
  predicate PlainKey(key: string) {
    Lacks(key, '=') && Lacks(key, ',')
  }

  lemma MemberRoundTrip(pair: (string, string))
    requires PlainKey(pair.0)
    ensures ParseMember(Member(pair)) == Some(pair) && Lacks(Member(pair), ',')
  {
    QuoteRoundTrip(pair.1);
    SplitAtFirst(pair.0, '=', Quote(pair.1));
    SafeLacksComma(Quote(pair.1));
  }

  lemma SafeLacksComma(s: string)
    requires HeaderSafe(s)
    ensures Lacks(s, ',')
  {
  }

  /** A member without commas is the first part of a header that goes on. */
  lemma FirstMember(first: string, rest: string)
    requires Lacks(first, ',')
    ensures Split(first + [','] + rest, ',') == [first] + Split(rest, ',')
  {
    var header := first + [','] + rest;
    assert header[|first|] == ',';
    SplitAtFirst(first, ',', rest);
  }

  lemma PartsFollow(first: string, rest: seq<string>)
    ensures ParseParts([first] + rest) ==
      (if ParseMember(first).None? || ParseParts(rest).None? then None
       else Some([ParseMember(first).value] + ParseParts(rest).value))
  {
    assert ([first] + rest)[1..] == rest;
  }

  lemma {:induction false} MembersSplit(labels: seq<(string, string)>)
    requires labels != [] && forall i :: 0 <= i < |labels| ==> PlainKey(labels[i].0)
    ensures ParseBaggage(JoinMembers(labels)) == Some(labels)
  {
    var first := Member(labels[0]);
    MemberRoundTrip(labels[0]);
    assert labels == [labels[0]] + labels[1..];
    if |labels| == 1 {
      assert Split(first, ',') == [first] + [];
      PartsFollow(first, []);
    } else {
      var rest := JoinMembers(labels[1..]);
      MembersSplit(labels[1..]);
      FirstMember(first, rest);
      PartsFollow(first, Split(rest, ','));
    }
  }

  /** Splitting and percent-decoding the baggage header returns exactly the five labels. */
  lemma BaggageRoundTrip(i: Identity)
    ensures ParseBaggage(Baggage(i)) == Some(Labels(i))
  {
    MembersSplit(Labels(i));
  }

  /** The header holds only characters a baggage list may hold unquoted. */
  lemma BaggageIsClean(i: Identity)
    ensures forall k :: 0 <= k < |Baggage(i)| ==>
              (var c := Baggage(i)[k]; c == '=' || c == ',' || HeaderSafe([c]))
  {
    JoinIsClean(Labels(i));
  }

  lemma {:induction false} JoinIsClean(labels: seq<(string, string)>)
    requires forall i :: 0 <= i < |labels| ==> HeaderSafe(labels[i].0)
    ensures forall k :: 0 <= k < |JoinMembers(labels)| ==>
              (var c := JoinMembers(labels)[k]; c == '=' || c == ',' || HeaderSafe([c]))
  {
    if labels != [] {
      QuoteRoundTrip(labels[0].1);
      JoinIsClean(labels[1..]);
    }
  }
}
