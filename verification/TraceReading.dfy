/** kneepoint/targets/trace_context.py: the four texts of an attempt's context, written out. */
module TraceReading {
  import opened Text
  import opened TraceContext

  function HexDigit(n: nat, a: char): (c: char)
    requires n < 16 && (a == 'a' || a == 'A')
  {
    if n < 10 then ('0' as int + n) as char else (a as int + n - 10) as char
  }

  /** One character inside a JSON string that leaves everything but controls, quotes and backslashes alone. */
  function JsonChar(c: char): (s: string) {
    match c
    case '"' => "\\\""
    case '\\' => "\\\\"
    case '\n' => "\\n"
    case '\r' => "\\r"
    case '\t' => "\\t"
    case _ =>
      if c as int == 8 then "\\b"
      else if c as int == 12 then "\\f"
      else if c as int < 16 then ['\\', 'u', '0', '0', '0', HexDigit(c as int, 'a')]
      else if c as int < 32 then ['\\', 'u', '0', '0', '1', HexDigit(c as int - 16, 'a')]
      else [c]
  }

  function JsonText(s: string): (text: string) {
    if s == "" then "" else JsonChar(s[0]) + JsonText(s[1..])
  }

  predicate Kept(c: char) {
    'A' <= c <= 'Z' || 'a' <= c <= 'z' || '0' <= c <= '9' || c == '_' || c == '.' || c == '-' || c == '~'
  }

  function PercentByte(b: Byte): (s: string) {
    if Kept(b as char) then [b as char] else ['%', HexDigit(b / 16, 'A'), HexDigit(b % 16, 'A')]
  }

  function PercentText(bytes: seq<Byte>): (text: string) {
    if bytes == [] then "" else PercentByte(bytes[0]) + PercentText(bytes[1..])
  }

  /** Decimal digits with no leading zero, behind a minus sign for a negative number. */
  predicate IsNumeral(s: string, n: int) {
    var digits := if n < 0 && s != "" then s[1..] else s;
    && (n < 0 ==> s != "" && s[0] == '-')
    && digits != "" && (forall i :: 0 <= i < |digits| ==> '0' <= digits[i] <= '9')
    && (digits[0] == '0' ==> n == 0 && |digits| == 1)
    && DigitsValue(digits) == if n < 0 then -n else n
  }

  lemma {:induction false} DigitsAreCanonical(n: nat)
    ensures Digits(n)[0] == '0' ==> n == 0 && |Digits(n)| == 1
  {
    if n >= 10 {
      DigitsAreCanonical(n / 10);
    }
  }

  lemma NumeralIs(n: int)
    ensures IsNumeral(Decimal(n), n)
  {
    var m := if n < 0 then -n else n;
    DigitsAreCanonical(m);
    DigitsRoundTrip(m);
    assert ("-" + Digits(m))[1..] == Digits(m);
  }

  lemma {:induction false} EscapeIsJson(s: string)
    ensures Escape(s) == JsonText(s)
  {
    if s != "" {
      EscapeIsJson(s[1..]);
      JsonCharIs(s[0]);
    }
  }

  lemma JsonCharIs(c: char)
    ensures EscapeChar(c) == JsonChar(c)
  {
    if 16 <= c as int < 32 {
      assert c as int / 16 == 1 && c as int % 16 == c as int - 16;
    }
  }

  lemma {:induction false} QuoteIsPercent(bytes: seq<Byte>)
    ensures QuoteBytes(bytes) == PercentText(bytes)
  {
    if bytes != [] {
      QuoteIsPercent(bytes[1..]);
    }
  }

  /** The hashed identity: a JSON array of two strings and three numbers, without spaces. */
  ghost predicate IsIdentityText(text: string, i: Identity) {
    exists c, t, a :: IsNumeral(c, i.concurrency) && IsNumeral(t, i.turn) && IsNumeral(a, i.attempt)
      && text == "[" + ("\"" + JsonText(i.runId) + "\"" + ("," + ("\"" + JsonText(i.sessionId) + "\""
                 + ("," + (c + ("," + (t + ("," + (a + "]")))))))))
  }

  function Labelled(key: string, value: string): (s: string) {
    key + "=" + PercentText(EncodeUtf8(value))
  }

  ghost predicate IsBaggage(text: string, i: Identity) {
    exists c, t, a :: IsNumeral(c, i.concurrency) && IsNumeral(t, i.turn) && IsNumeral(a, i.attempt)
      && text == Labelled("kneepoint.run_id", i.runId) + ("," + (Labelled("kneepoint.level", c)
                 + ("," + (Labelled("kneepoint.session", i.sessionId) + ("," + (Labelled("kneepoint.turn", t)
                 + ("," + Labelled("kneepoint.attempt", a))))))))
  }

  /** An all-zero id is replaced by the least one that is not. */
  function Moved(id: string): (s: string) {
    if id != "" && forall k :: 0 <= k < |id| ==> id[k] == '0' then id[..|id| - 1] + "1" else id
  }

  function Hashed(domain: string, text: string): (bytes: seq<Byte>) {
    EncodeUtf8(domain + text)
  }

  /** What is hashed for both ids of an attempt. */
  lemma HashInputsAre(i: Identity)
    ensures IsIdentityText(IdentityText(i), i)
    ensures TraceInput(i) == Hashed("kneepoint.trace.v1\0", IdentityText(i))
    ensures SpanInput(i) == Hashed("kneepoint.span.v1\0", IdentityText(i))
  {
    IdentityTextIs(i);
    EncodeConcat(TRACE_DOMAIN, IdentityText(i));
    EncodeConcat(SPAN_DOMAIN, IdentityText(i));
  }

  lemma MovedIs(id: string)
    requires id != ""
    ensures NonZero(id) == Moved(id)
  {
    if forall k :: 0 <= k < |id| ==> id[k] == '0' {
      assert id == Zeros(|id|) && id[..|id| - 1] == Zeros(|id| - 1);
    } else {
      assert id != Zeros(|id|);
    }
  }

  /** Ids, header and baggage of every attempt, under every digest. */
  lemma ContextIs(i: Identity, sha: seq<Byte> -> string)
    requires IsDigest(sha)
    ensures var c := AttemptContext(i, sha);
            && IsIdentityText(IdentityText(i), i)
            && c.traceId == Moved(sha(Hashed("kneepoint.trace.v1\0", IdentityText(i)))[..32])
            && c.spanId == Moved(sha(Hashed("kneepoint.span.v1\0", IdentityText(i)))[..16])
            && c.traceparent == "00-" + c.traceId + "-" + c.spanId + "-01"
            && IsBaggage(c.baggage, i)
  {
    HashInputsAre(i);
    MovedIs(sha(TraceInput(i))[..32]);
    MovedIs(sha(SpanInput(i))[..16]);
    BaggageIs(i);
  }

  lemma IdentityTextIs(i: Identity)
    ensures IsIdentityText(IdentityText(i), i)
  {
    var c, t, a := Decimal(i.concurrency), Decimal(i.turn), Decimal(i.attempt);
    NumeralIs(i.concurrency);
    NumeralIs(i.turn);
    NumeralIs(i.attempt);
    EscapeIsJson(i.runId);
    EscapeIsJson(i.sessionId);
    IdentityShape(i, JsonText(i.runId), JsonText(i.sessionId), c, t, a);
  }

  lemma IdentityShape(i: Identity, run: string, session: string, c: string, t: string, a: string)
    requires Escape(i.runId) == run && Escape(i.sessionId) == session
    requires c == Decimal(i.concurrency) && t == Decimal(i.turn) && a == Decimal(i.attempt)
    ensures IdentityText(i) == "[" + ("\"" + run + "\"" + ("," + ("\"" + session + "\""
                               + ("," + (c + ("," + (t + ("," + (a + "]")))))))))
  {
    var rest := "," + (c + ("," + (t + ("," + (a + "]")))));
    NumbersShape(c, t, a);
    assert WriteQuoted(',', i.sessionId, rest) == "," + ("\"" + session + "\"" + rest);
  }

  lemma NumbersShape(c: string, t: string, a: string)
    ensures [','] + (c + [','] + (t + [','] + a)) + [']'] == "," + (c + ("," + (t + ("," + (a + "]")))))
  {
  }

  lemma BaggageIs(i: Identity)
    ensures IsBaggage(Baggage(i), i)
  {
    NumeralIs(i.concurrency);
    NumeralIs(i.turn);
    NumeralIs(i.attempt);
    FiveMembers(Labels(i));
  }

  lemma MemberIs(pair: (string, string))
    ensures Member(pair) == Labelled(pair.0, pair.1)
  {
    QuoteIsPercent(EncodeUtf8(pair.1));
  }

  lemma FiveMembers(l: seq<(string, string)>)
    requires |l| == 5
    ensures JoinMembers(l) == Labelled(l[0].0, l[0].1) + ("," + (Labelled(l[1].0, l[1].1)
              + ("," + (Labelled(l[2].0, l[2].1) + ("," + (Labelled(l[3].0, l[3].1)
              + ("," + Labelled(l[4].0, l[4].1))))))))
  {
    LastMember(l[4]);
    MoreMembers(l[3], [l[4]]);
    MoreMembers(l[2], [l[3], l[4]]);
    MoreMembers(l[1], [l[2], l[3], l[4]]);
    MoreMembers(l[0], [l[1], l[2], l[3], l[4]]);
    assert [l[3]] + [l[4]] == [l[3], l[4]] && [l[2]] + [l[3], l[4]] == [l[2], l[3], l[4]];
    assert [l[1]] + [l[2], l[3], l[4]] == [l[1], l[2], l[3], l[4]] && [l[0]] + [l[1], l[2], l[3], l[4]] == l;
  }

  lemma LastMember(pair: (string, string))
    ensures JoinMembers([pair]) == Labelled(pair.0, pair.1)
  {
    MemberIs(pair);
  }

  lemma MoreMembers(pair: (string, string), rest: seq<(string, string)>)
    requires rest != []
    ensures JoinMembers([pair] + rest) == Labelled(pair.0, pair.1) + ("," + JoinMembers(rest))
  {
    MemberIs(pair);
    assert ([pair] + rest)[1..] == rest;
  }
}
