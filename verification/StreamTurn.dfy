/**
 * kneepoint/targets/openai_compatible.py: one streamed chat turn.
 *
 * An exchange is the response line by line, each with the clock reading at its arrival, how the
 * stream came to an end, and the reading when the record was made. Lines are given parsed.
 */
module StreamTurn {
  import opened Basics
  import opened Percentile

  /** `chunk["usage"]`: absent or empty, counts, or something that is not an object. */
  datatype Usage = NoUsage | Tokens(input: Option<int>, output: Option<int>) | BrokenUsage

  datatype Line = NotData | DoneMarker | Malformed | Chunk(content: Option<string>, usage: Usage)

  datatype Timed = Timed(at: real, line: Line)

  /** How the exchange ended: by itself, at the request wall, at a read or write gap, or by another error. */
  datatype Ending = Closed | Wall | GapTimeout | Broke

  datatype RetryAfter = NoHeader | Seconds(value: real) | NotANumber

  datatype Exchange =
    | NoResponse(ending: Ending, recordedAt: real)
    | Response(status: int, fault: Option<string>, retryAfter: RetryAfter, lines: seq<Timed>,
               ending: Ending, recordedAt: real)

  datatype Outcome = Outcome(
    ok: bool,
    statusCode: Option<int>,
    fault: Option<string>,
    totalMs: real,
    ttftMs: Option<real>,
    inputTokens: Option<int>,
    outputTokens: Option<int>,
    chunkCount: Option<nat>,
    itlMeanMs: Option<real>,
    itlP99Ms: Option<real>,
    abandoned: bool,
    text: string,
    retryAfterS: Option<real>)

  /** The loop's variables. */
  datatype Reading = Reading(
    ttftMs: Option<real>,
    lastChunkAt: real,
    gapsMs: seq<real>,
    pieces: seq<string>,
    inputTokens: Option<int>,
    outputTokens: Option<int>)

  function Start(t0: real): (reading: Reading) {
    Reading(None, t0, [], [], None, None)
  }

  function Millis(seconds: real): (x: real) {
    seconds * 1000.0
  }

  /** A content chunk arrives. */
  function Content(r: Reading, t0: real, now: real, content: string): (reading: Reading) {
    r.(ttftMs := if r.ttftMs.None? then Some(Millis(now - t0)) else r.ttftMs,
       gapsMs := if r.ttftMs.None? then r.gapsMs else r.gapsMs + [Millis(now - r.lastChunkAt)],
       lastChunkAt := now,
       pieces := r.pieces + [content])
  }

  predicate HasContent(line: Line) {
    line.Chunk? && line.content.Some? && line.content.value != ""
  }

  function Absorb(r: Reading, t0: real, x: Timed): (reading: Reading)
    requires x.line.Chunk?
  {
    var s := if HasContent(x.line) then Content(r, t0, x.at, x.line.content.value) else r;
    if x.line.usage.Tokens? then s.(inputTokens := x.line.usage.input, outputTokens := x.line.usage.output) else s
  }

  /** Reads to the end marker, the end of the lines, or the first line that raises. */
  function Read(r: Reading, t0: real, lines: seq<Timed>): (result: (Reading, bool))
    decreases |lines|
  {
    if lines == [] then (r, false)
    else
      match lines[0].line
      case NotData => Read(r, t0, lines[1..])
      case DoneMarker => (r, false)
      case Malformed => (r, true)
      case Chunk(_, usage) =>
        var s := Absorb(r, t0, lines[0]);
        if usage.BrokenUsage? then (s, true) else Read(s, t0, lines[1..])
  }

  // ----- the record

  function Concat(pieces: seq<string>): (s: string) {
    if pieces == [] then "" else Concat(pieces[..|pieces| - 1]) + pieces[|pieces| - 1]
  }

  function Failure(t0: real, x: Exchange, status: Option<int>, fault: Option<string>, ttftMs: Option<real>,
                   abandoned: bool): (outcome: Outcome) {
    Outcome(false, status, fault, Millis(x.recordedAt - t0), ttftMs, None, None, None, None, None, abandoned, "", None)
  }

  function Success(t0: real, x: Exchange, r: Reading): (outcome: Outcome)
    requires x.Response?
  {
    Outcome(true, Some(x.status), x.fault, Millis(x.recordedAt - t0), r.ttftMs, r.inputTokens, r.outputTokens,
            Some(|r.pieces|),
            if r.gapsMs != [] then Some(SumOf(r.gapsMs, Itself()) / |r.gapsMs| as real) else None,
            PctOpt(r.gapsMs, 99), false, Concat(r.pieces), None)
  }

  /** A response with an error status is recorded as it came, unless its retry-after does not parse. */
  function ErrorStatus(t0: real, x: Exchange): (outcome: Outcome)
    requires x.Response?
  {
    if x.retryAfter.NotANumber? then Failure(t0, x, None, None, None, false)
    else
      Failure(t0, x, Some(x.status), x.fault, None, false).(
        retryAfterS := if x.retryAfter.Seconds? then Some(x.retryAfter.value) else None)
  }

  /** What an exchange that did not end by itself records; `status` is known once a response began. */
  function CutShort(t0: real, x: Exchange, ending: Ending, status: Option<int>, fault: Option<string>,
                    ttftMs: Option<real>): (outcome: Outcome) {
    match ending
    case Wall => Failure(t0, x, status, fault, ttftMs, status.Some?)
    case GapTimeout => Failure(t0, x, None, None, ttftMs, true)
    case _ => Failure(t0, x, None, None, ttftMs, false)
  }

  /** `run_turn`. */
  function RunTurn(t0: real, x: Exchange): (outcome: Outcome) {
    if x.NoResponse? then CutShort(t0, x, x.ending, None, None, None)
    else
      var (r, raised) := if x.status >= 400 then (Start(t0), false) else Read(Start(t0), t0, x.lines);
      if x.ending.Wall? || x.ending.GapTimeout? then CutShort(t0, x, x.ending, Some(x.status), x.fault, r.ttftMs)
      else if raised || x.ending.Broke? then CutShort(t0, x, Broke, Some(x.status), x.fault, r.ttftMs)
      else if x.status >= 400 then ErrorStatus(t0, x)
      else Success(t0, x, r)
  }

  /** The loop over the stream's lines. */
  method ReadStream(t0: real, lines: seq<Timed>) returns (r: Reading, raised: bool)
    ensures (r, raised) == Read(Start(t0), t0, lines)
  {
    var ttft: Option<real>, lastAt, gaps: seq<real>, pieces: seq<string> := None, t0, [], [];
    var input: Option<int>, output: Option<int> := None, None;
    var i := 0;
    while i < |lines|
      invariant 0 <= i <= |lines|
      invariant Read(Start(t0), t0, lines) == Read(Reading(ttft, lastAt, gaps, pieces, input, output), t0, lines[i..])
    {
      var line, now := lines[i].line, lines[i].at;
      assert lines[i..][1..] == lines[i + 1..];
      i := i + 1;
      if line.NotData? {
        continue;
      }
      if line.DoneMarker? {
        return Reading(ttft, lastAt, gaps, pieces, input, output), false;
      }
      if line.Malformed? {
        return Reading(ttft, lastAt, gaps, pieces, input, output), true;
      }
      if HasContent(line) {
        if ttft.None? {
          ttft := Some(Millis(now - t0));
        } else {
          gaps := gaps + [Millis(now - lastAt)];
        }
        lastAt := now;
        pieces := pieces + [line.content.value];
      }
      if line.usage.BrokenUsage? {
        return Reading(ttft, lastAt, gaps, pieces, input, output), true;
      }
      if line.usage.Tokens? {
        input, output := line.usage.input, line.usage.output;
      }
    }
    return Reading(ttft, lastAt, gaps, pieces, input, output), false;
  }

  // ----- the content of a stream, independently of the loop

  function OwnContent(x: Timed): (s: seq<(real, string)>) {
    if HasContent(x.line) then [(x.at, x.line.content.value)] else []
  }

  /** The content deltas that arrive before the loop stops, with their times. */
  function Contents(lines: seq<Timed>): (s: seq<(real, string)>) {
    if lines == [] || lines[0].line.DoneMarker? || lines[0].line.Malformed? then []
    else
      if lines[0].line.Chunk? && lines[0].line.usage.BrokenUsage? then OwnContent(lines[0])
      else OwnContent(lines[0]) + Contents(lines[1..])
  }

  function GapsOf(cs: seq<(real, string)>): (gaps: seq<real>)
    ensures |gaps| == if cs == [] then 0 else |cs| - 1
  {
    if |cs| <= 1 then []
    else GapsOf(cs[..|cs| - 1]) + [Millis(cs[|cs| - 1].0 - cs[|cs| - 2].0)]
  }

  function TextsOf(cs: seq<(real, string)>): (texts: seq<string>)
    ensures |texts| == |cs| && forall i :: 0 <= i < |cs| ==> texts[i] == cs[i].1
  {
    seq(|cs|, i requires 0 <= i < |cs| => cs[i].1)
  }

  /** The loop's variables are exactly what the content so far says. */
  ghost predicate Matches(r: Reading, t0: real, cs: seq<(real, string)>) {
    && r.ttftMs == (if cs == [] then None else Some(Millis(cs[0].0 - t0)))
    && r.lastChunkAt == (if cs == [] then t0 else cs[|cs| - 1].0)
    && r.gapsMs == GapsOf(cs)
    && r.pieces == TextsOf(cs)
  }

  lemma AbsorbMatches(r: Reading, t0: real, x: Timed, cs: seq<(real, string)>)
    requires x.line.Chunk? && Matches(r, t0, cs)
    ensures Matches(Absorb(r, t0, x), t0, cs + OwnContent(x))
  {
    if HasContent(x.line) {
      var more := cs + [(x.at, x.line.content.value)];
      assert more[..|more| - 1] == cs;
      assert TextsOf(more) == TextsOf(cs) + [x.line.content.value];
    } else {
      assert cs + [] == cs;
    }
  }

  predicate Continues(line: Line) {
    line.NotData? || (line.Chunk? && !line.usage.BrokenUsage?)
  }

  lemma NextContents(lines: seq<Timed>, cs: seq<(real, string)>)
    requires lines != [] && Continues(lines[0].line)
    ensures cs + OwnContent(lines[0]) + Contents(lines[1..]) == cs + Contents(lines)
  {
  }

  lemma LastContents(lines: seq<Timed>, cs: seq<(real, string)>)
    requires lines == [] || !Continues(lines[0].line)
    ensures cs + Contents(lines) == if lines != [] && lines[0].line.Chunk? then cs + OwnContent(lines[0]) else cs
  {
  }

  lemma {:induction false} ReadMatches(r: Reading, t0: real, lines: seq<Timed>, cs: seq<(real, string)>)
    requires Matches(r, t0, cs)
    ensures Matches(Read(r, t0, lines).0, t0, cs + Contents(lines))
    decreases |lines|
  {
    if lines != [] && Continues(lines[0].line) {
      var s := if lines[0].line.Chunk? then Absorb(r, t0, lines[0]) else r;
      NextMatches(r, t0, lines[0], cs);
      NextContents(lines, cs);
      ReadMatches(s, t0, lines[1..], cs + OwnContent(lines[0]));
    } else {
      LastContents(lines, cs);
      if lines != [] && lines[0].line.Chunk? {
        AbsorbMatches(r, t0, lines[0], cs);
      }
    }
  }

  lemma NextMatches(r: Reading, t0: real, x: Timed, cs: seq<(real, string)>)
    requires Matches(r, t0, cs) && Continues(x.line)
    ensures Matches(if x.line.Chunk? then Absorb(r, t0, x) else r, t0, cs + OwnContent(x))
  {
    if x.line.Chunk? {
      AbsorbMatches(r, t0, x, cs);
    } else {
      assert cs + OwnContent(x) == cs;
    }
  }

  lemma MillisAdd(a: real, b: real, c: real)
    ensures Millis(b - a) + Millis(c - b) == Millis(c - a)
  {
  }

  lemma {:induction false} GapsTelescope(cs: seq<(real, string)>)
    requires cs != []
    ensures SumOf(GapsOf(cs), Itself()) == Millis(cs[|cs| - 1].0 - cs[0].0)
  {
    var n := |cs| - 1;
    if n > 0 {
      var before, gap := cs[..n], Millis(cs[n].0 - cs[n - 1].0);
      GapsTelescope(before);
      assert before[n - 1] == cs[n - 1] && before[0] == cs[0];
      assert GapsOf(cs) == GapsOf(before) + [gap];
      SumSnoc(GapsOf(before), gap, Itself());
      MillisAdd(cs[0].0, cs[n - 1].0, cs[n].0);
    }
  }

  /** Arrival times never go back, and the record is made last. */
  ghost predicate Ordered(t0: real, x: Exchange)
    requires x.Response?
  {
    && (forall i :: 0 <= i < |x.lines| ==> t0 <= x.lines[i].at <= x.recordedAt)
    && (forall i, j :: 0 <= i <= j < |x.lines| ==> x.lines[i].at <= x.lines[j].at)
  }

  lemma {:induction false} ContentTimes(lines: seq<Timed>, low: real, high: real)
    requires forall i :: 0 <= i < |lines| ==> low <= lines[i].at <= high
    requires forall i, j :: 0 <= i <= j < |lines| ==> lines[i].at <= lines[j].at
    ensures forall i :: 0 <= i < |Contents(lines)| ==> low <= Contents(lines)[i].0 <= high
    ensures forall i, j :: 0 <= i <= j < |Contents(lines)| ==> Contents(lines)[i].0 <= Contents(lines)[j].0
  {
    if lines != [] {
      ContentTimes(lines[1..], lines[0].at, high);
    }
  }

  /** A fresh loop ends with exactly what the stream's content says. */
  lemma LoopReadsContents(t0: real, lines: seq<Timed>)
    ensures Matches(Read(Start(t0), t0, lines).0, t0, Contents(lines))
  {
    ReadMatches(Start(t0), t0, lines, []);
    assert [] + Contents(lines) == Contents(lines);
  }

  /** The fields of a success, from the loop's variables. */
  lemma SuccessFields(t0: real, x: Exchange)
    requires RunTurn(t0, x).ok
    ensures x.Response?
    ensures RunTurn(t0, x) == Success(t0, x, Read(Start(t0), t0, x.lines).0)
  {
  }

  /** First content, then the gaps, end at the last content, within the total. */
  ghost predicate TimesAgree(o: Outcome, gaps: seq<real>, cs: seq<(real, string)>, t0: real)
    requires cs != []
  {
    && o.ttftMs.Some?
    && o.ttftMs.value + SumOf(gaps, Itself()) == Millis(cs[|cs| - 1].0 - t0)
    && 0.0 <= o.ttftMs.value <= Millis(cs[|cs| - 1].0 - t0) <= o.totalMs
  }

  /** The recorded times of a success add up. */
  lemma TimesAddUp(t0: real, x: Exchange)
    requires RunTurn(t0, x).ok && Contents(x.lines) != [] && Ordered(t0, x)
    ensures TimesAgree(RunTurn(t0, x), Read(Start(t0), t0, x.lines).0.gapsMs, Contents(x.lines), t0)
  {
    SuccessFields(t0, x);
    LoopReadsContents(t0, x.lines);
    ContentTimes(x.lines, t0, x.recordedAt);
    SuccessTimes(t0, x, Read(Start(t0), t0, x.lines).0, Contents(x.lines));
  }

  lemma SuccessTimes(t0: real, x: Exchange, r: Reading, cs: seq<(real, string)>)
    requires x.Response? && cs != [] && Matches(r, t0, cs)
    requires t0 <= cs[0].0 <= cs[|cs| - 1].0 <= x.recordedAt
    ensures TimesAgree(Success(t0, x, r), r.gapsMs, cs, t0)
  {
    GapsTelescope(cs);
  }

  /** The inter-token mean is the time from first to last content, shared over the gaps. */
  lemma MeanSpreadsTheGaps(t0: real, x: Exchange)
    requires RunTurn(t0, x).ok && |Contents(x.lines)| >= 2
    ensures RunTurn(t0, x).itlMeanMs == Some(MeanGap(Contents(x.lines)))
  {
    SuccessFields(t0, x);
    LoopReadsContents(t0, x.lines);
    GapsTelescope(Contents(x.lines));
  }

  function MeanGap(cs: seq<(real, string)>): (x: real)
    requires |cs| >= 2
  {
    Millis(cs[|cs| - 1].0 - cs[0].0) / (|cs| - 1) as real
  }

  /** The inter-chunk fields are null exactly when fewer than two content chunks arrived; the count is exact. */
  lemma InterChunkFields(t0: real, x: Exchange)
    requires RunTurn(t0, x).ok
    ensures var o := RunTurn(t0, x);
            && o.chunkCount == Some(|Contents(x.lines)|)
            && (o.itlMeanMs.None? <==> |Contents(x.lines)| < 2)
            && (o.itlP99Ms.None? <==> |Contents(x.lines)| < 2)
            && (o.ttftMs.None? <==> Contents(x.lines) == [])
  {
    LoopReadsContents(t0, x.lines);
  }

  /** The tail gap is one the stream really had, give or take the blend of two neighbours. */
  lemma TailGapWithinRange(t0: real, x: Exchange, low: real, high: real)
    requires RunTurn(t0, x).ok && |Contents(x.lines)| >= 2
    requires forall i :: 1 <= i < |Contents(x.lines)| ==>
               low <= Millis(Contents(x.lines)[i].0 - Contents(x.lines)[i - 1].0) <= high
    ensures RunTurn(t0, x).itlP99Ms.Some? && low <= RunTurn(t0, x).itlP99Ms.value <= high
  {
    SuccessFields(t0, x);
    LoopReadsContents(t0, x.lines);
    TailBetween(Contents(x.lines), low, high);
  }

  lemma TailBetween(cs: seq<(real, string)>, low: real, high: real)
    requires |cs| >= 2 && forall i :: 1 <= i < |cs| ==> low <= Millis(cs[i].0 - cs[i - 1].0) <= high
    ensures PctOpt(GapsOf(cs), 99).Some? && low <= PctOpt(GapsOf(cs), 99).value <= high
  {
    GapsAt(cs);
    var gaps := GapsOf(cs);
    forall i | 0 <= i < |gaps|
      ensures low <= gaps[i] <= high
    {
      assert gaps[i + 1 - 1] == Millis(cs[i + 1].0 - cs[i].0);
    }
    PctWithinRange(gaps, 99, low, high);
  }

  lemma {:induction false} GapsAt(cs: seq<(real, string)>)
    ensures forall i :: 1 <= i < |cs| ==> GapsOf(cs)[i - 1] == Millis(cs[i].0 - cs[i - 1].0)
  {
    if |cs| > 1 {
      GapsAt(cs[..|cs| - 1]);
    }
  }

  /** The text is the concatenation of the content deltas before the end marker. */
  lemma TextIsContent(t0: real, x: Exchange)
    requires RunTurn(t0, x).ok
    ensures RunTurn(t0, x).text == Concat(TextsOf(Contents(x.lines)))
  {
    SuccessFields(t0, x);
    LoopReadsContents(t0, x.lines);
  }

  /** A line that carries no content and does not stop the loop. */
  predicate Silent(line: Line) {
    line.NotData? || (line.Chunk? && !HasContent(line) && !line.usage.BrokenUsage?)
  }

  lemma {:induction false} SilentLine(before: seq<Timed>, x: Timed, after: seq<Timed>)
    requires Silent(x.line)
    ensures Contents(before + [x] + after) == Contents(before + after)
  {
    if before == [] {
      assert ([x] + after)[1..] == after;
      assert before + [x] + after == [x] + after && before + after == after;
    } else {
      assert (before + [x] + after)[1..] == before[1..] + [x] + after;
      assert (before + after)[1..] == before[1..] + after;
      SilentLine(before[1..], x, after);
    }
  }

  /** Whatever silent lines (comments, usage-only chunks) are interleaved, what is measured stays the same. */
  lemma SilentLinesDoNotMatter(t0: real, before: seq<Timed>, x: Timed, after: seq<Timed>)
    requires Silent(x.line)
    ensures var r, s := Read(Start(t0), t0, before + [x] + after).0, Read(Start(t0), t0, before + after).0;
            r.ttftMs == s.ttftMs && r.gapsMs == s.gapsMs && r.pieces == s.pieces
  {
    SilentLine(before, x, after);
    LoopReadsContents(t0, before + [x] + after);
    LoopReadsContents(t0, before + after);
  }

  /** Nothing after the end marker is read. */
  lemma {:induction false} NothingAfterDone(r: Reading, t0: real, before: seq<Timed>, done: Timed, after: seq<Timed>)
    requires done.line.DoneMarker?
    ensures Read(r, t0, before + [done] + after) == Read(r, t0, before + [done])
    decreases |before|
  {
    var long, short := before + [done] + after, before + [done];
    if before != [] {
      assert long[1..] == before[1..] + [done] + after && short[1..] == before[1..] + [done];
      match before[0].line
      case NotData => NothingAfterDone(r, t0, before[1..], done, after);
      case DoneMarker =>
      case Malformed =>
      case Chunk(_, _) => NothingAfterDone(Absorb(r, t0, before[0]), t0, before[1..], done, after);
    }
  }

  /** A record says abandoned exactly when we gave up on a request the server had accepted. */
  lemma AbandonedIff(t0: real, x: Exchange)
    ensures RunTurn(t0, x).abandoned <==> x.ending.GapTimeout? || (x.ending.Wall? && x.Response?)
    ensures RunTurn(t0, x).abandoned ==> !RunTurn(t0, x).ok
    ensures RunTurn(t0, x).ok ==> x.Response? && x.status < 400 && x.ending.Closed?
  {
  }

  /**
   * However a stream that began ends - closed, at the wall, on a gap, broken - its record keeps the elapsed
   * time of the first content chunk that arrived, and says abandoned exactly when we gave up on it.
   */
  lemma FirstContentSurvives(t0: real, x: Exchange)
    requires x.Response? && x.status < 400
    ensures RunTurn(t0, x).ttftMs == FirstContent(t0, Contents(x.lines))
    ensures RunTurn(t0, x).abandoned <==> x.ending.GapTimeout? || x.ending.Wall?
    ensures RunTurn(t0, x).abandoned ==> !RunTurn(t0, x).ok
  {
    LoopReadsContents(t0, x.lines);
    AbandonedIff(t0, x);
  }

  function FirstContent(t0: real, cs: seq<(real, string)>): (r: Option<real>) {
    if cs == [] then None else Some(Millis(cs[0].0 - t0))
  }
}
