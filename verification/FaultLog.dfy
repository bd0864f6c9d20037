/** kneepoint/chaos/proxy.py: the fault log one process writes and another merges into its sessions. */
module FaultLog {
  import opened Basics
  import opened Grouping
  import opened Json
  import opened FaultLines

  /** What a log knows. */
  datatype Tally = Tally(counts: map<Key, nat>, bySession: map<Key, seq<Key>>, unattributed: nat)

  const NOTHING := Tally(map[], map[], 0)

  datatype FaultMerge = FaultMerge(
    attributed: nat,
    unattributed: nat,
    unmatched: nat,
    sessionsTouched: nat,
    byType: map<Key, nat>)

  predicate HasSession(e: Entry) {
    e.sessionId.Some?
  }

  function CountOf(counts: map<Key, nat>, fault: Key): (n: nat) {
    if fault in counts then counts[fault] else 0
  }

  function FaultsOf(bySession: map<Key, seq<Key>>, id: Key): (s: seq<Key>) {
    if id in bySession then bySession[id] else []
  }

  function Add(t: Tally, e: Entry): (tally: Tally) {
    var counted := t.(counts := t.counts[e.fault := CountOf(t.counts, e.fault) + 1]);
    if HasSession(e)
    then counted.(bySession := t.bySession[e.sessionId.value := FaultsOf(t.bySession, e.sessionId.value) + [e.fault]])
    else counted.(unattributed := t.unattributed + 1)
  }

  /** The log after any sequence of recorded faults. */
  function Replay(entries: seq<Entry>): (tally: Tally) {
    if entries == [] then NOTHING else Add(Replay(entries[..|entries| - 1]), entries[|entries| - 1])
  }

  // ----- what the tally says about the entries

  function WithFault(fault: Key): (p: Entry -> bool) {
    (e: Entry) => e.fault == fault
  }

  function OfSession(id: Key): (p: Entry -> bool) {
    (e: Entry) => HasSession(e) && e.sessionId.value == id
  }

  function Nameless(): (p: Entry -> bool) {
    (e: Entry) => !HasSession(e)
  }

  function Among(ids: set<Key>): (p: Entry -> bool) {
    (e: Entry) => HasSession(e) && e.sessionId.value in ids
  }

  function AmongWithFault(ids: set<Key>, fault: Key): (p: Entry -> bool) {
    (e: Entry) => HasSession(e) && e.sessionId.value in ids && e.fault == fault
  }

  function FaultNames(entries: seq<Entry>): (names: seq<Key>)
    ensures |names| == |entries| && forall i :: 0 <= i < |entries| ==> names[i] == entries[i].fault
  {
    seq(|entries|, i requires 0 <= i < |entries| => entries[i].fault)
  }

  /** Each field of the tally, read off the entries alone. */
  lemma {:induction false} TallyMeans(entries: seq<Entry>, fault: Key, id: Key)
    ensures CountOf(Replay(entries).counts, fault) == Count(entries, WithFault(fault))
    ensures FaultsOf(Replay(entries).bySession, id) == FaultNames(Filter(entries, OfSession(id)))
    ensures Replay(entries).unattributed == Count(entries, Nameless())
    ensures id in Replay(entries).bySession <==> Filter(entries, OfSession(id)) != []
  {
    if entries != [] {
      var n := |entries| - 1;
      TallyMeans(entries[..n], fault, id);
      FaultNamesSnoc(Filter(entries[..n], OfSession(id)), entries[n]);
    }
  }

  lemma FaultNamesSnoc(entries: seq<Entry>, e: Entry)
    ensures FaultNames(entries + [e]) == FaultNames(entries) + [e.fault]
  {
  }

  /** A map's values added up. */
  ghost function SumMap<K>(m: map<K, nat>): (n: nat)
    decreases |m.Keys|
  {
    if m.Keys == {} then 0
    else
      var k := AnyOf(m.Keys);
      SmallerKeys(m, k);
      m[k] + SumMap(m - {k})
  }

  lemma SmallerKeys<K>(m: map<K, nat>, k: K)
    requires k in m
    ensures (m - {k}).Keys == m.Keys - {k} && |(m - {k}).Keys| < |m.Keys|
  {
    assert (m - {k}).Keys == m.Keys - {k};
  }

  lemma EitherOrder<K>(m: map<K, nat>, j: K, k: K)
    ensures m - {j} - {k} == m - {k} - {j}
  {
  }

  /** Any key may be taken out first. */
  lemma {:induction false} SumMapWithout<K>(m: map<K, nat>, k: K)
    requires k in m
    ensures SumMap(m) == m[k] + SumMap(m - {k})
    decreases |m.Keys|
  {
    var j := AnyOf(m.Keys);
    if j != k {
      SmallerKeys(m, j);
      SumMapWithout(m - {j}, k);
      SmallerKeys(m, k);
      SumMapWithout(m - {k}, j);
      EitherOrder(m, j, k);
    }
  }

  /** Counting one more adds one. */
  lemma SumMapBump(m: map<Key, nat>, k: Key)
    ensures SumMap(m[k := CountOf(m, k) + 1]) == SumMap(m) + 1
  {
    var m' := m[k := CountOf(m, k) + 1];
    SumMapWithout(m', k);
    if k in m {
      SumMapWithout(m, k);
      assert m' - {k} == m - {k};
    } else {
      assert m' - {k} == m;
    }
  }

  /** The counts by type add up to the faults recorded, and so do sessions' faults and nameless ones. */
  lemma {:induction false} CountsAddUp(entries: seq<Entry>)
    ensures SumMap(Replay(entries).counts) == |entries|
  {
    if entries != [] {
      CountsAddUp(entries[..|entries| - 1]);
      SumMapBump(Replay(entries[..|entries| - 1]).counts, entries[|entries| - 1].fault);
    }
  }

  // ----- the log

  class Log {
    const hasPath: bool
    var counts: map<Key, nat>
    var bySession: map<Key, seq<Key>>
    var unattributed: nat
    var file: string

    function Value(): (tally: Tally)
      reads this
    {
      Tally(counts, bySession, unattributed)
    }

    constructor (hasPath: bool)
      ensures this.hasPath == hasPath && Value() == NOTHING && file == ""
    {
      this.hasPath := hasPath;
      counts, bySession, unattributed, file := map[], map[], 0, "";
    }

    /** Count the fault and file it under its session. */
    method Note(e: Entry)
      modifies this`counts, this`bySession, this`unattributed
      ensures Value() == Add(old(Value()), e)
    {
      counts := counts[e.fault := CountOf(counts, e.fault) + 1];
      if e.sessionId.Some? {
        bySession := bySession[e.sessionId.value := FaultsOf(bySession, e.sessionId.value) + [e.fault]];
      } else {
        unattributed := unattributed + 1;
      }
    }

    /** `record` for a fault being served: note it, append its line; `ts` is the time as written. */
    method Record(ts: string, name: PyString, sessionId: Option<PyString>)
      modifies this
      ensures Value() == Add(old(Value()), AsEntry(Fault(name, sessionId)))
      ensures file == if hasPath then old(file) + (Line(Stamped(ts, Fault(name, sessionId))) + "\n") else old(file)
    {
      Note(AsEntry(Fault(name, sessionId)));
      if hasPath {
        var line := Line(Stamped(ts, Fault(name, sessionId)));
        file := file + (line + "\n");
      }
    }

    /**
     * `load`: split the text, note the readable lines. A log without a path writes nothing, so noting is all
     * that recording does here. There is no log when a fault or a session cannot be the key of a dictionary:
     * that raises.
     */
    static method Load(text: string) returns (r: Option<Log>)
      ensures r.Some? <==> ReadText(text).Some?
      ensures r.Some? ==> fresh(r.value) && r.value.Value() == Replay(ReadText(text).value)
    {
      var lines := SplitLines(text);
      ghost var readings := Readings(lines);
      var log := new Log(false);
      for i := 0 to |lines|
        invariant fresh(log) && Collect(readings[..i]).Some?
        invariant log.Value() == Replay(Collect(readings[..i]).value)
      {
        CollectNext(readings, i);
        var reading := ReadLine(lines[i]);
        if reading.Unhashable? {
          return None;
        }
        if reading.Read? {
          ReplaySnoc(Collect(readings[..i]).value, reading.entry);
          log.Note(reading.entry);
        }
      }
      assert readings[..|lines|] == readings;
      r := Some(log);
    }
  }

  /** One more line: what the lines so far read as, and that one that raises leaves nothing to load. */
  lemma CollectNext(readings: seq<Reading>, i: nat)
    requires i < |readings| && Collect(readings[..i]).Some?
    ensures readings[i].Unhashable? ==> Collect(readings).None?
    ensures readings[i].Skipped? ==> Collect(readings[..i + 1]) == Collect(readings[..i])
    ensures readings[i].Read? ==> Collect(readings[..i + 1]) == Some(Collect(readings[..i]).value + [readings[i].entry])
  {
    assert readings[..i + 1] == readings[..i] + [readings[i]];
    CollectSnoc(readings[..i], readings[i]);
    CollectJoin(readings[..i + 1], readings[i + 1..]);
    assert readings == readings[..i + 1] + readings[i + 1..];
  }

  lemma ReplaySnoc(entries: seq<Entry>, e: Entry)
    ensures Replay(entries + [e]) == Add(Replay(entries), e)
  {
    assert (entries + [e])[..|entries|] == entries;
  }

  /** A process records a sequence of faults. */
  method RecordAll(log: seq<Stamped>) returns (written: Log)
    ensures written.Value() == Replay(AllEntries(Faults(log))) && written.file == FileText(log)
  {
    written := new Log(true);
    for i := 0 to |log|
      invariant fresh(written) && written.hasPath
      invariant written.Value() == Replay(AllEntries(Faults(log[..i]))) && written.file == FileText(log[..i])
    {
      var f := log[i].fault;
      FileGrows(log, i);
      EntriesGrow(log, i);
      ReplaySnoc(AllEntries(Faults(log[..i])), AsEntry(f));
      written.Record(log[i].ts, f.name, f.sessionId);
    }
    assert log[..|log|] == log;
  }

  /** Another process loads the text that was written: the log of the faults as they read back. */
  method RecordThenLoad(log: seq<Stamped>) returns (written: Log, loaded: Log)
    requires Timed(log)
    ensures written.Value() == Replay(AllEntries(Faults(log))) && written.file == FileText(log)
    ensures loaded.Value() == Replay(ReadBack(log))
  {
    written := RecordAll(log);
    FileReads(log);
    var r := Log.Load(written.file);
    loaded := r.value;
  }

  lemma EntriesGrow(log: seq<Stamped>, i: nat)
    requires i < |log|
    ensures AllEntries(Faults(log[..i + 1])) == AllEntries(Faults(log[..i])) + [AsEntry(log[i].fault)]
  {
  }

  lemma FileGrows(log: seq<Stamped>, i: nat)
    requires i < |log|
    ensures FileText(log[..i + 1]) == FileText(log[..i]) + (Line(log[i]) + "\n")
  {
    assert LinesOf(log[..i + 1])[..i] == LinesOf(log[..i]);
  }

  // ----- what crosses the process boundary unchanged

  /** The fault name and the session id spell no surrogate pair out as two code points. */
  predicate FaultIntact(f: Fault) {
    Intact(f.name) && (f.sessionId.Some? ==> Intact(f.sessionId.value))
  }

  predicate AllIntact(faults: seq<Fault>) {
    forall i :: 0 <= i < |faults| ==> FaultIntact(faults[i])
  }

  /** The entries of the faults as they come back from the file. */
  function Returned(faults: seq<Fault>): (entries: seq<Entry>) {
    AllEntries(AllRejoined(faults))
  }

  /** The loaded log is the recorded one exactly when no recorded string holds a split surrogate pair. */
  lemma LogSurvivesIff(faults: seq<Fault>)
    ensures Replay(Returned(faults)) == Replay(AllEntries(faults)) <==> AllIntact(faults)
  {
    if AllIntact(faults) {
      IntactReplays(faults);
    } else {
      var i :| 0 <= i < |faults| && !FaultIntact(faults[i]);
      if !Intact(faults[i].name) {
        NameIsLost(faults, i);
      } else {
        SessionIsLost(faults, i);
      }
    }
  }

  /**
   * A fault name that spells one character as two surrogates comes back as another name. The proxy's own
   * names and decoded headers hold no surrogates; it takes a direct call of `record`.
   */
  lemma SplitPairChangesTheLog()
    ensures var faults := [Fault([0xD800, 0xDC00], None)];
            && AllRejoined(faults) == [Fault([0x10000], None)]
            && Replay(Returned(faults)) != Replay(AllEntries(faults))
  {
    var name: PyString := [0xD800, 0xDC00];
    var faults := [Fault(name, None)];
    assert name[2..] == [];
    assert IsHigh(name[0]) && IsLow(name[1]);
    assert !FaultIntact(faults[0]);
    LogSurvivesIff(faults);
    assert AllRejoined(faults)[0] == Fault([0x10000], None);
  }

  lemma {:induction false} IntactReplays(faults: seq<Fault>)
    requires AllIntact(faults)
    ensures Replay(Returned(faults)) == Replay(AllEntries(faults))
  {
    forall i | 0 <= i < |faults|
      ensures Rejoined(faults[i]) == faults[i]
    {
      assert FaultIntact(faults[i]);
      IntactComesBack(faults[i]);
    }
    assert AllRejoined(faults) == faults;
  }

  lemma IntactComesBack(f: Fault)
    requires FaultIntact(f)
    ensures Rejoined(f) == f
  {
    JoinedIsIntact(f.name);
    if f.sessionId.Some? {
      JoinedIsIntact(f.sessionId.value);
    }
  }

  lemma NameIsLost(faults: seq<Fault>, i: nat)
    requires i < |faults| && !Intact(faults[i].name)
    ensures Replay(Returned(faults)) != Replay(AllEntries(faults))
  {
    var key, sent, back := Name(faults[i].name), AllEntries(faults), Returned(faults);
    TallyMeans(sent, key, NoneKey);
    TallyMeans(back, key, NoneKey);
    CountZero(sent, WithFault(key));
    assert sent[i] in sent && WithFault(key)(sent[i]);
    forall e | e in back
      ensures !WithFault(key)(e)
    {
      var k :| 0 <= k < |back| && back[k] == e;
      JoinedIsIntact(faults[k].name);
    }
    CountZero(back, WithFault(key));
  }

  lemma SessionIsLost(faults: seq<Fault>, i: nat)
    requires i < |faults| && faults[i].sessionId.Some? && !Intact(faults[i].sessionId.value)
    ensures Replay(Returned(faults)) != Replay(AllEntries(faults))
  {
    var key, sent, back := Name(faults[i].sessionId.value), AllEntries(faults), Returned(faults);
    TallyMeans(sent, NoneKey, key);
    TallyMeans(back, NoneKey, key);
    FilterMembers(sent, OfSession(key));
    assert sent[i] in sent && OfSession(key)(sent[i]);
    forall e | e in back
      ensures !OfSession(key)(e)
    {
      var k :| 0 <= k < |back| && back[k] == e;
      if faults[k].sessionId.Some? {
        JoinedIsIntact(faults[k].sessionId.value);
      }
    }
    FilterAllOrNone(back, OfSession(key));
  }

  // ----- merging into a run's sessions

  /** A session whose fault list the merge extends in place. */
  class Session {
    const sessionId: PyString
    var faults: seq<Key>

    constructor (sessionId: PyString, faults: seq<Key>)
      ensures this.sessionId == sessionId && this.faults == faults
    {
      this.sessionId, this.faults := sessionId, faults;
    }
  }

  /** `{s.session_id: s for s in sessions}`: of two sessions with one id the later wins. */
  function ById(sessions: seq<Session>): (owners: map<Key, Session>)
    ensures forall id :: id in owners ==> owners[id] in sessions && Name(owners[id].sessionId) == id
    ensures forall s :: s in sessions ==> Name(s.sessionId) in owners
  {
    if sessions == [] then map[]
    else
      var last := sessions[|sessions| - 1];
      assert sessions == sessions[..|sessions| - 1] + [last];
      ById(sessions[..|sessions| - 1])[Name(last.sessionId) := last]
  }

  function Is(fault: Key): (p: Key -> bool) {
    (f: Key) => f == fault
  }

  lemma {:induction false} AmongGrows(entries: seq<Entry>, ids: set<Key>, id: Key, fault: Key)
    requires id !in ids
    ensures Count(entries, Among(ids + {id})) == Count(entries, Among(ids)) + |Filter(entries, OfSession(id))|
    ensures Count(entries, AmongWithFault(ids + {id}, fault))
         == Count(entries, AmongWithFault(ids, fault)) + Count(FaultNames(Filter(entries, OfSession(id))), Is(fault))
  {
    if entries != [] {
      var n := |entries| - 1;
      AmongGrows(entries[..n], ids, id, fault);
      var own := Filter(entries[..n], OfSession(id));
      FaultNamesSnoc(own, entries[n]);
      CountSnoc(FaultNames(own), entries[n].fault, Is(fault));
    }
  }

  /** Every named entry is among the keys of the tally. */
  lemma {:induction false} KeysCover(entries: seq<Entry>, keys: set<Key>, ids: set<Key>, fault: Key)
    requires forall i :: 0 <= i < |entries| && HasSession(entries[i]) ==> entries[i].sessionId.value in keys
    ensures Count(entries, Among(keys * ids)) == Count(entries, Among(ids))
    ensures Count(entries, AmongWithFault(keys * ids, fault)) == Count(entries, AmongWithFault(ids, fault))
    ensures Count(entries, Among(ids)) + Count(entries, Among(keys - ids)) + Count(entries, Nameless()) == |entries|
  {
    if entries != [] {
      KeysCover(entries[..|entries| - 1], keys, ids, fault);
    }
  }

  lemma NamedEntriesAreKeys(entries: seq<Entry>)
    ensures forall i :: 0 <= i < |entries| && HasSession(entries[i]) ==>
              entries[i].sessionId.value in Replay(entries).bySession
  {
    forall i | 0 <= i < |entries| && HasSession(entries[i])
      ensures entries[i].sessionId.value in Replay(entries).bySession
    {
      var id := entries[i].sessionId.value;
      TallyMeans(entries, NoneKey, id);
      FilterMembers(entries, OfSession(id));
      assert entries[i] in entries && OfSession(id)(entries[i]);
    }
  }

  /** What has been counted when the sessions `mine` were attributed and the sessions `others` matched none. */
  ghost predicate Counted(m: FaultMerge, entries: seq<Entry>, mine: set<Key>, others: set<Key>) {
    && m.attributed == Count(entries, Among(mine))
    && m.unmatched == Count(entries, Among(others))
    && m.unattributed == Count(entries, Nameless())
    && SumMap(m.byType) == m.attributed
    && TypesCounted(m.byType, entries, mine)
  }

  ghost predicate TypesCounted(byType: map<Key, nat>, entries: seq<Entry>, mine: set<Key>) {
    forall f :: CountOf(byType, f) == Count(entries, AmongWithFault(mine, f))
  }

  /** The inner loop: one session's faults by type. */
  method AddTypes(byType: map<Key, nat>, faults: seq<Key>) returns (t: map<Key, nat>)
    ensures SumMap(t) == SumMap(byType) + |faults|
    ensures forall f :: CountOf(t, f) == CountOf(byType, f) + Count(faults, Is(f))
  {
    t := byType;
    for i := 0 to |faults|
      invariant SumMap(t) == SumMap(byType) + i
      invariant forall f :: CountOf(t, f) == CountOf(byType, f) + Count(faults[..i], Is(f))
    {
      SumMapBump(t, faults[i]);
      OneMoreFault(byType, t, faults, i);
      t := t[faults[i] := CountOf(t, faults[i]) + 1];
    }
    assert faults[..|faults|] == faults;
  }

  lemma OneMoreFault(byType: map<Key, nat>, t: map<Key, nat>, faults: seq<Key>, i: nat)
    requires i < |faults| && forall f :: CountOf(t, f) == CountOf(byType, f) + Count(faults[..i], Is(f))
    ensures var t' := t[faults[i] := CountOf(t, faults[i]) + 1];
            forall f :: CountOf(t', f) == CountOf(byType, f) + Count(faults[..i + 1], Is(f))
  {
    assert faults[..i + 1] == faults[..i] + [faults[i]];
    var t' := t[faults[i] := CountOf(t, faults[i]) + 1];
    forall f: Key
      ensures CountOf(t', f) == CountOf(byType, f) + Count(faults[..i + 1], Is(f))
    {
      CountSnoc(faults[..i], faults[i], Is(f));
    }
  }

  lemma CountUnmatched(m: FaultMerge, entries: seq<Entry>, mine: set<Key>, others: set<Key>, id: Key,
                       faults: seq<Key>)
    requires Counted(m, entries, mine, others) && id !in others
    requires faults == FaultNames(Filter(entries, OfSession(id)))
    ensures Counted(m.(unmatched := m.unmatched + |faults|), entries, mine, others + {id})
  {
    AmongGrows(entries, others, id, NoneKey);
  }

  function Attribute(m: FaultMerge, faults: seq<Key>, byType: map<Key, nat>): (faultMerge: FaultMerge) {
    m.(attributed := m.attributed + |faults|, byType := byType)
  }

  lemma CountAttributed(m: FaultMerge, entries: seq<Entry>, mine: set<Key>, others: set<Key>, id: Key,
                        faults: seq<Key>, byType: map<Key, nat>)
    requires Counted(m, entries, mine, others) && id !in mine
    requires faults == FaultNames(Filter(entries, OfSession(id)))
    requires SumMap(byType) == SumMap(m.byType) + |faults|
    requires forall f :: CountOf(byType, f) == CountOf(m.byType, f) + Count(faults, Is(f))
    ensures Counted(Attribute(m, faults, byType), entries, mine + {id}, others)
  {
    forall f: Key
      ensures CountOf(byType, f) == Count(entries, AmongWithFault(mine + {id}, f))
    {
      AmongGrows(entries, mine, id, f);
    }
    AmongGrows(entries, mine, id, NoneKey);
  }

  /** Counting one more logged session: attributed when the run owns it, unmatched when not. */
  method CountSession(m: FaultMerge, faults: seq<Key>, id: Key, owned: bool,
                      ghost entries: seq<Entry>, ghost mine: set<Key>, ghost others: set<Key>)
    returns (m': FaultMerge)
    requires Counted(m, entries, mine, others) && id !in mine && id !in others
    requires faults == FaultNames(Filter(entries, OfSession(id)))
    ensures Counted(m', entries, if owned then mine + {id} else mine, if owned then others else others + {id})
  {
    if owned {
      var byType := AddTypes(m.byType, faults);
      CountAttributed(m, entries, mine, others, id, faults, byType);
      m' := Attribute(m, faults, byType);
    } else {
      CountUnmatched(m, entries, mine, others, id, faults);
      m' := m.(unmatched := m.unmatched + |faults|);
    }
  }

  /** What a session's list gains: its logged faults, when it is the session its id stands for. */
  function Gain(s: Session, owners: map<Key, Session>, bySession: map<Key, seq<Key>>,
                done: set<Key>): (result: seq<Key>)
  {
    var id := Name(s.sessionId);
    if id in owners && owners[id] == s && id in done then FaultsOf(bySession, id) else []
  }

  /** Each session's list is the one it started with followed by its gain, and nothing else. */
  ghost predicate Extended(sessions: seq<Session>, start: map<Session, seq<Key>>, owners: map<Key, Session>,
                           bySession: map<Key, seq<Key>>, done: set<Key>)
    reads sessions
  {
    forall s :: s in sessions ==> s in start && s.faults == start[s] + Gain(s, owners, bySession, done)
  }

  /** `merge_into`, for a log of these entries. */
  method MergeInto(log: Log, sessions: seq<Session>, ghost entries: seq<Entry>)
    returns (m: FaultMerge, ghost start: map<Session, seq<Key>>)
    requires log.Value() == Replay(entries)
    modifies set s | s in sessions
    ensures log.Value() == old(log.Value())
    ensures Merged(m, entries, ById(sessions).Keys)
    ensures forall s :: s in sessions ==> s in start && start[s] == old(s.faults)
    ensures Extended(sessions, start, ById(sessions), log.bySession, log.bySession.Keys)
  {
    start := map s | s in sessions :: s.faults;
    var zero := FaultMerge(0, log.unattributed, 0, 0, map[]);
    StartCounting(entries, log.unattributed);
    var owners := ById(sessions);
    NothingGained(sessions, start, owners, log.bySession);
    assert {} * owners.Keys == {} && {} - owners.Keys == {};
    var touched;
    m, touched := MergeLoop(zero, log.bySession, sessions, owners, entries, start);
    m := m.(sessionsTouched := |touched|);
  }

  /** The counts of a finished merge, for sessions with these ids. */
  ghost predicate Merged(m: FaultMerge, entries: seq<Entry>, ids: set<Key>) {
    var keys := Replay(entries).bySession.Keys;
    Counted(m, entries, keys * ids, keys - ids) && m.sessionsTouched == |keys * ids|
  }

  /** The sessions in `done` have been counted and handed out. */
  ghost predicate Progress(m: FaultMerge, entries: seq<Entry>, sessions: seq<Session>,
                           start: map<Session, seq<Key>>, owners: map<Key, Session>,
                           bySession: map<Key, seq<Key>>, done: set<Key>)
    reads sessions
  {
    && Counted(m, entries, done * owners.Keys, done - owners.Keys)
    && Extended(sessions, start, owners, bySession, done)
  }

  method MergeLoop(zero: FaultMerge, bySession: map<Key, seq<Key>>, sessions: seq<Session>,
                   owners: map<Key, Session>, ghost entries: seq<Entry>, ghost start: map<Session, seq<Key>>)
    returns (m: FaultMerge, touched: set<Key>)
    requires owners == ById(sessions) && bySession == Replay(entries).bySession
    requires Progress(zero, entries, sessions, start, owners, bySession, {})
    modifies set s | s in sessions
    ensures Progress(m, entries, sessions, start, owners, bySession, bySession.Keys)
    ensures touched == bySession.Keys * owners.Keys
  {
    m, touched := zero, {};
    var keys := bySession.Keys;
    var todo := keys;
    ghost var done: set<Key> := {};
    while todo != {}
      invariant todo == keys - done && done <= keys
      invariant Progress(m, entries, sessions, start, owners, bySession, done)
      invariant touched == done * owners.Keys
      decreases todo
    {
      var id := Pick(todo);
      if id in owners {
        touched := touched + {id};
      }
      m := MergeOne(m, owners, sessions, id, bySession, entries, start, done);
      todo, done := todo - {id}, done + {id};
    }
    assert done == keys;
  }

  /** One logged session: count its faults and extend the list of the session that owns it. */
  method MergeOne(m: FaultMerge, owners: map<Key, Session>, sessions: seq<Session>, id: Key,
                  bySession: map<Key, seq<Key>>, ghost entries: seq<Entry>,
                  ghost start: map<Session, seq<Key>>, ghost done: set<Key>)
    returns (m': FaultMerge)
    requires owners == ById(sessions) && id !in done && id in bySession
    requires bySession == Replay(entries).bySession
    requires Progress(m, entries, sessions, start, owners, bySession, done)
    modifies set s | s in sessions
    ensures Progress(m', entries, sessions, start, owners, bySession, done + {id})
  {
    TallyMeans(entries, NoneKey, id);
    m' := CountSession(m, bySession[id], id, id in owners, entries, done * owners.Keys, done - owners.Keys);
    OneMore(done, owners.Keys, id);
    Extend(owners, sessions, id, bySession, start, done);
  }

  lemma OneMore(done: set<Key>, ids: set<Key>, id: Key)
    requires id !in done
    ensures (done + {id}) * ids == if id in ids then done * ids + {id} else done * ids
    ensures done + {id} - ids == if id in ids then done - ids else done - ids + {id}
  {
  }

  lemma NothingGained(sessions: seq<Session>, start: map<Session, seq<Key>>, owners: map<Key, Session>,
                      bySession: map<Key, seq<Key>>)
    requires forall s :: s in sessions ==> s in start && start[s] == s.faults
    ensures Extended(sessions, start, owners, bySession, {})
  {
    forall s | s in sessions
      ensures s.faults == start[s] + Gain(s, owners, bySession, {})
    {
      assert start[s] + [] == start[s];
    }
  }

  lemma StartCounting(entries: seq<Entry>, nameless: nat)
    requires nameless == Replay(entries).unattributed
    ensures Counted(FaultMerge(0, nameless, 0, 0, map[]), entries, {}, {})
  {
    TallyMeans(entries, NoneKey, NoneKey);
    forall f: Key
      ensures Count(entries, AmongWithFault({}, f)) == 0
    {
      CountZero(entries, AmongWithFault({}, f));
    }
    CountZero(entries, Among({}));
  }

  /** `session.faults.extend(faults)`, when some session owns the id. */
  method Extend(owners: map<Key, Session>, sessions: seq<Session>, id: Key,
                bySession: map<Key, seq<Key>>,
                ghost start: map<Session, seq<Key>>, ghost done: set<Key>)
    requires owners == ById(sessions) && id !in done && id in bySession
    requires Extended(sessions, start, owners, bySession, done)
    modifies set s | s in sessions
    ensures Extended(sessions, start, owners, bySession, done + {id})
  {
    if id in owners {
      var session := owners[id];
      assert session.faults == start[session] + Gain(session, owners, bySession, done);
      session.faults := session.faults + bySession[id];
    }
  }

  /**
   * Merging conserves faults: attributed, unmatched and unattributed add up to what was recorded,
   * and the counts by type add up to the attributed.
   */
  lemma MergeConserves(m: FaultMerge, entries: seq<Entry>, ids: set<Key>)
    requires Merged(m, entries, ids)
    ensures m.attributed + m.unmatched + m.unattributed == |entries|
    ensures m.attributed == Count(entries, Among(ids)) && SumMap(m.byType) == m.attributed
    ensures forall f :: CountOf(m.byType, f) == Count(entries, AmongWithFault(ids, f))
  {
    NamedEntriesAreKeys(entries);
    forall f: Key
      ensures CountOf(m.byType, f) == Count(entries, AmongWithFault(ids, f))
    {
      KeysCover(entries, Replay(entries).bySession.Keys, ids, f);
    }
    KeysCover(entries, Replay(entries).bySession.Keys, ids, NoneKey);
  }
}
