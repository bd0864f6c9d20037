/** kneepoint/targets/openai_compatible.py: the record of a turn, read off its exchange alone. */
module StreamReading {
  import opened Basics
  import opened Percentile
  import opened StreamTurn

  /** The nonempty content deltas with their arrival times, up to the end marker or the line that breaks the stream. */
  function Deltas(lines: seq<Timed>): (deltas: seq<(real, string)>) {
    if lines == [] then []
    else
      match lines[0].line
      case NotData => Deltas(lines[1..])
      case DoneMarker => []
      case Malformed => []
      case Chunk(content, usage) =>
        (match content
         case Some(text) => if |text| > 0 then [(lines[0].at, text)] else []
         case None => [])
        + (if usage == BrokenUsage then [] else Deltas(lines[1..]))
  }

  /** Some line before the end marker does not parse, or carries a usage that is no object. */
  predicate BreaksOff(lines: seq<Timed>) {
    if lines == [] then false
    else
      match lines[0].line
      case NotData => BreaksOff(lines[1..])
      case DoneMarker => false
      case Malformed => true
      case Chunk(_, BrokenUsage) => true
      case Chunk(_, _) => BreaksOff(lines[1..])
  }

  /** The token counts of the last usage report before the end marker; a later report replaces an earlier one whole. */
  function LastUsage(lines: seq<Timed>, before: (Option<int>, Option<int>)): (usage: (Option<int>, Option<int>)) {
    if lines == [] then before
    else
      match lines[0].line
      case NotData => LastUsage(lines[1..], before)
      case DoneMarker => before
      case Malformed => before
      case Chunk(_, BrokenUsage) => before
      case Chunk(_, NoUsage) => LastUsage(lines[1..], before)
      case Chunk(_, Tokens(input, output)) => LastUsage(lines[1..], (input, output))
  }

  function Elapsed(from: real, to: real): (ms: real) {
    (to - from) * 1000.0
  }

  /** The times between neighbouring deltas. */
  function Between(deltas: seq<(real, string)>): (gaps: seq<real>) {
    if |deltas| < 2 then []
    else seq(|deltas| - 1, i requires 0 <= i < |deltas| - 1 => Elapsed(deltas[i].0, deltas[i + 1].0))
  }

  function Joined(deltas: seq<(real, string)>): (text: string) {
    if deltas == [] then "" else Joined(deltas[..|deltas| - 1]) + deltas[|deltas| - 1].1
  }

  /** A failed request: what is known of it, and no text. */
  function Failed(status: Option<int>, fault: Option<string>, totalMs: real, ttftMs: Option<real>, abandoned: bool)
    : (outcome: Outcome)
  {
    Outcome(false, status, fault, totalMs, ttftMs, None, None, None, None, None, abandoned, "", None)
  }

  /** A stream that ended by itself. */
  function Answered(status: int, fault: Option<string>, totalMs: real, ttftMs: Option<real>, lines: seq<Timed>)
    : (outcome: Outcome)
  {
    var deltas, (input, output) := Deltas(lines), LastUsage(lines, (None, None));
    var n := |deltas|;
    Outcome(true, Some(status), fault, totalMs, ttftMs, input, output, Some(n),
            if n < 2 then None else Some(Elapsed(deltas[0].0, deltas[n - 1].0) / (n - 1) as real),
            PctOpt(Between(deltas), 99), false, Joined(deltas), None)
  }

  /** The record of every exchange, case by case. */
  function RecordOf(t0: real, x: Exchange): (outcome: Outcome) {
    match x
    case NoResponse(ending, recordedAt) => Failed(None, None, Elapsed(t0, recordedAt), None, ending == GapTimeout)
    case Response(status, fault, retryAfter, lines, ending, recordedAt) =>
      var total := Elapsed(t0, recordedAt);
      var deltas := if status >= 400 then [] else Deltas(lines);
      var first := if deltas == [] then None else Some(Elapsed(t0, deltas[0].0));
      match ending
      case Wall => Failed(Some(status), fault, total, first, true)
      case GapTimeout => Failed(None, None, total, first, true)
      case Broke => Failed(None, None, total, first, false)
      case Closed =>
        if status < 400 then
          if BreaksOff(lines) then Failed(None, None, total, first, false)
          else Answered(status, fault, total, first, lines)
        else
          match retryAfter
          case NotANumber => Failed(None, None, total, None, false)
          case NoHeader => Failed(Some(status), fault, total, None, false)
          case Seconds(s) => Failed(Some(status), fault, total, None, false).(retryAfterS := Some(s))
  }

  lemma {:induction false} DeltasAreContents(lines: seq<Timed>)
    ensures Contents(lines) == Deltas(lines)
  {
    if lines != [] {
      DeltasAreContents(lines[1..]);
    }
  }

  lemma {:induction false} RaisesIff(r: Reading, t0: real, lines: seq<Timed>)
    ensures Read(r, t0, lines).1 <==> BreaksOff(lines)
    decreases |lines|
  {
    if lines != [] {
      match lines[0].line {
        case NotData => RaisesIff(r, t0, lines[1..]);
        case Chunk(_, _) => RaisesIff(Absorb(r, t0, lines[0]), t0, lines[1..]);
        case _ =>
      }
    }
  }

  lemma AbsorbUsage(r: Reading, t0: real, x: Timed)
    requires x.line.Chunk?
    ensures var s := Absorb(r, t0, x);
            match x.line.usage
            case Tokens(input, output) => s.inputTokens == input && s.outputTokens == output
            case _ => s.inputTokens == r.inputTokens && s.outputTokens == r.outputTokens
  {
  }

  lemma {:induction false} UsageIsLast(r: Reading, t0: real, lines: seq<Timed>)
    ensures var s := Read(r, t0, lines).0;
            (s.inputTokens, s.outputTokens) == LastUsage(lines, (r.inputTokens, r.outputTokens))
    decreases |lines|
  {
    if lines != [] {
      match lines[0].line {
        case NotData => UsageIsLast(r, t0, lines[1..]);
        case Chunk(_, _) =>
          AbsorbUsage(r, t0, lines[0]);
          UsageIsLast(Absorb(r, t0, lines[0]), t0, lines[1..]);
        case _ =>
      }
    }
  }

  lemma {:induction false} GapsAreBetween(deltas: seq<(real, string)>)
    ensures GapsOf(deltas) == Between(deltas)
  {
    if |deltas| >= 2 {
      var n := |deltas| - 1;
      GapsAreBetween(deltas[..n]);
      assert Between(deltas) == Between(deltas[..n]) + [Elapsed(deltas[n - 1].0, deltas[n].0)];
    }
  }

  lemma {:induction false} TextIsJoined(deltas: seq<(real, string)>)
    ensures Concat(TextsOf(deltas)) == Joined(deltas)
  {
    if deltas != [] {
      var n := |deltas| - 1;
      TextIsJoined(deltas[..n]);
      assert TextsOf(deltas)[..n] == TextsOf(deltas[..n]);
    } else {
      assert TextsOf(deltas) == [];
    }
  }

  lemma SuccessIs(t0: real, x: Exchange, r: Reading)
    requires x.Response? && r == Read(Start(t0), t0, x.lines).0
    ensures Success(t0, x, r)
         == Answered(x.status, x.fault, Elapsed(t0, x.recordedAt), FirstOf(t0, Deltas(x.lines)), x.lines)
    ensures r.ttftMs == FirstOf(t0, Deltas(x.lines))
  {
    var deltas := Deltas(x.lines);
    LoopReadsContents(t0, x.lines);
    DeltasAreContents(x.lines);
    UsageIsLast(Start(t0), t0, x.lines);
    GapsAreBetween(deltas);
    TextIsJoined(deltas);
    if |deltas| >= 2 {
      GapsTelescope(deltas);
    }
  }

  function FirstOf(t0: real, deltas: seq<(real, string)>): (ms: Option<real>) {
    if deltas == [] then None else Some(Elapsed(t0, deltas[0].0))
  }

  lemma ErrorIs(t0: real, x: Exchange)
    requires x.Response? && x.status >= 400
    ensures RunTurn(t0, x) == RecordOf(t0, x)
  {
  }

  lemma CutIs(t0: real, x: Exchange, r: Reading, raised: bool)
    requires x.Response? && x.status < 400 && (r, raised) == Read(Start(t0), t0, x.lines)
    requires r.ttftMs == FirstOf(t0, Deltas(x.lines)) && (raised <==> BreaksOff(x.lines))
    requires !x.ending.Closed? || raised
    ensures RunTurn(t0, x) == RecordOf(t0, x)
  {
  }

  lemma ClosedIs(t0: real, x: Exchange, r: Reading, raised: bool)
    requires x.Response? && x.status < 400 && (r, raised) == Read(Start(t0), t0, x.lines)
    requires !raised && !BreaksOff(x.lines) && x.ending.Closed?
    requires Success(t0, x, r)
          == Answered(x.status, x.fault, Elapsed(t0, x.recordedAt), FirstOf(t0, Deltas(x.lines)), x.lines)
    ensures RunTurn(t0, x) == RecordOf(t0, x)
  {
  }

  /** Every exchange, however it went: the record is the one its lines, its ending and its status say. */
  lemma RecordIs(t0: real, x: Exchange)
    ensures RunTurn(t0, x) == RecordOf(t0, x)
  {
    if x.Response? && x.status < 400 {
      var (r, raised) := Read(Start(t0), t0, x.lines);
      SuccessIs(t0, x, r);
      RaisesIff(Start(t0), t0, x.lines);
      if x.ending.Closed? && !raised {
        ClosedIs(t0, x, r, raised);
      } else {
        CutIs(t0, x, r, raised);
      }
    } else if x.Response? {
      ErrorIs(t0, x);
    }
  }
}
