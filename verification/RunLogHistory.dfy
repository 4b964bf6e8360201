/** Histories: runs of the protocol from a consistent start, and one that recovery cannot get past. */
module RunLogHistory {
  import opened Wrappers
  import opened RunLogScan
  import opened RunLogProtocol
  import opened RunLogSafety
  import opened RunLogArchive

  datatype Trace = Trace(worlds: seq<World>, steps: seq<Step>)

  // Named by a proof that needs to look into a definition stated under it; elsewhere that
  // definition stays closed.
  ghost predicate Look(k: nat) {
    true
  }

  ghost predicate IsHistory(trace: Trace) {
    && |trace.worlds| == |trace.steps| + 1
    && forall k {:trigger Look(k)} :: Look(k) ==> IsRun(trace.worlds, trace.steps) && Inv(trace.worlds[0])
  }

  // No log, no archive, an empty Store and no process.
  ghost const IDLE := World(At(Down, map[], map[], map[], [], map[]), Past({}, {}, map[], iset{}))

  type History = trace: Trace | IsHistory(trace) ghost witness Trace([IDLE], [])

  ghost function End(history: History): World {
    history.worlds[|history.steps|]
  }

  ghost function Extend(history: History, step: Step): History
    requires CanTake(End(history), step)
    ensures End(Extend(history, step)) == Next(End(history), step)
  {
    Trace(history.worlds + [Next(End(history), step)], history.steps + [step])
  }

  lemma EndKeepsInvariant(history: History)
    ensures Inv(End(history))
  {
    assert Look(0);
    RunKeepsInvariant(history.worlds, history.steps, |history.steps|);
  }

  // The step is allowed in one world and leads to the other.
  ghost predicate Leads(w: World, step: Step, t: World) {
    forall k {:trigger Look(k)} :: Look(k) ==> CanTake(w, step) && Next(w, step) == t
  }

  lemma Go(history: History, step: Step, t: World) returns (longer: History)
    requires Leads(End(history), step, t)
    ensures End(longer) == t && longer.worlds[0] == history.worlds[0] && longer.steps == history.steps + [step]
  {
    assert Look(0);
    longer := Extend(history, step);
  }

  /** A crash may cut a history after any step; what was done so far and the crash are a history. */
  lemma CrashAnywhere(history: History, k: nat) returns (cut: History)
    requires k <= |history.steps|
    ensures cut.worlds == history.worlds[..k + 1] + [Next(history.worlds[k], Crash)]
    ensures cut.steps == history.steps[..k] + [Crash]
  {
    cut := Trace(history.worlds[..k + 1] + [Next(history.worlds[k], Crash)], history.steps[..k] + [Crash]);
  }

  // --- One whole history that gets stuck ---

  function At(mode: Mode, inflight: map<SegName, File>, temps: map<SegName, Temp>, published: map<SegName, Zip>,
      journal: seq<Status>, segments: map<(RunId, Phase), Segment>): State
  {
    State("store", inflight, temps, published, journal, {}, mode, segments, false, {})
  }

  const RUN := Formal("r")
  const NAME := SegName("20260102", RUN, T0, "s")
  const ORIGIN := Origin(RUN, T0, "old", "+00:00", Some("store"))
  const LINE := Line(ORIGIN, 0, Scope(None, None, None), Other("event"))
  const OPENED := Segment(NAME, ORIGIN, 0, 0, {}, None)
  const WRITTEN := OPENED.(count := 1)
  const EMPTY := File([], false)
  const LOG := File([LINE], false)
  const ZIP := Zip(NAME, ORIGIN, 0, None, "completed", 0, Complete, 0, 0, 0, [LINE], [])

  // The worlds it passes through, after a crash-free start.
  ghost function Seen(lines: seq<Line>): Past {
    Past({NAME}, {}, map[NAME := lines], iset{})
  }

  ghost const RECOVERING := World(At(Recovering, map[], map[], map[], [], map[]), IDLE.past)
  ghost const SERVING := World(At(Serving, map[], map[], map[], [], map[]), IDLE.past)
  ghost const EMPTY_LOG := World(At(Serving, map[NAME := EMPTY], map[], map[], [], map[(RUN, T0) := OPENED]), Seen([]))
  ghost const ONE_LINE := World(At(Serving, map[NAME := LOG], map[], map[], [], map[(RUN, T0) := WRITTEN]), Seen([LINE]))

  ghost function Later(temps: map<SegName, Temp>, published: map<SegName, Zip>, journal: seq<Status>,
      segments: map<(RunId, Phase), Segment>): World
  {
    World(At(Serving, map[NAME := LOG], temps, published, journal, segments), Seen([LINE]))
  }

  const OPEN_ENTRY := [Opened(NAME)]
  const BOTH_ENTRIES := [Opened(NAME), Archived(ReceiptOf(ZIP))]
  const OPEN_SEGMENT := map[(RUN, T0) := WRITTEN]

  ghost const NOTED := Later(map[], map[], OPEN_ENTRY, OPEN_SEGMENT)
  ghost const BEGUN := Later(map[NAME := Unfinished], map[], OPEN_ENTRY, OPEN_SEGMENT)
  ghost const FINISHED := Later(map[NAME := Finished(ZIP)], map[], OPEN_ENTRY, OPEN_SEGMENT)
  ghost const LINKED := Later(map[NAME := Finished(ZIP)], map[NAME := ZIP], OPEN_ENTRY, OPEN_SEGMENT)
  ghost const SEALED := Later(map[], map[NAME := ZIP], OPEN_ENTRY, OPEN_SEGMENT)
  ghost const CLOSED := Later(map[], map[NAME := ZIP], OPEN_ENTRY, map[])
  ghost const CONFIRMED := Later(map[], map[NAME := ZIP], BOTH_ENTRIES, map[])

  lemma IdleConsistent()
    ensures Inv(IDLE)
  {
  }

  lemma LineScans()
    ensures Scan([LINE]) == Success(Inspection(1, [], 0, {}, [], 0, {})) && Inspect(LOG) == Scan([LINE])
    ensures ActiveOf([LINE]) == {}
  {
    var lines := [LINE];
    assert lines[..0] == [];
    assert Scan(lines[..0]) == Success(NOTHING_SEEN);
  }

  lemma BootStep()
    ensures Leads(IDLE, Boot, RECOVERING)
  {
    assert UncertainRuns([]) == {};
  }

  lemma ServeStep()
    ensures Leads(RECOVERING, Serve, SERVING)
  {
  }

  lemma OpenStep()
    ensures Leads(SERVING, Open(NAME, ORIGIN, 0, None), EMPTY_LOG)
  {
  }

  lemma AppendStep()
    ensures Leads(EMPTY_LOG, Append(NAME, LINE), ONE_LINE)
  {
    var t := Effect(EMPTY_LOG.now, Append(NAME, LINE));
    assert [] + [LINE] == [LINE];
    assert t.inflight == map[NAME := LOG];
    assert t.segments == OPEN_SEGMENT;
    assert Remember(EMPTY_LOG, Append(NAME, LINE)).accepted == map[NAME := [LINE]];
  }

  lemma NoteStep()
    ensures Leads(ONE_LINE, Note(Opened(NAME)), NOTED)
  {
    assert [] + [Opened(NAME)] == OPEN_ENTRY;
  }

  lemma BeginStep()
    ensures Leads(NOTED, BeginTemp(NAME), BEGUN)
  {
  }

  lemma ZipIsSound()
    ensures SoundZip(ZIP, {})
  {
    LineScans();
  }

  lemma FinishAllowed()
    ensures CanTake(BEGUN, FinishTemp(NAME, ZIP))
  {
    ZipIsSound();
    assert Known(BEGUN.now, RUN) == {};
  }

  lemma FinishStep()
    ensures Leads(BEGUN, FinishTemp(NAME, ZIP), FINISHED)
  {
    FinishAllowed();
    assert Effect(BEGUN.now, FinishTemp(NAME, ZIP)).temps == map[NAME := Finished(ZIP)];
  }

  lemma LinkStep()
    ensures Leads(FINISHED, Link(NAME), LINKED)
  {
  }

  lemma DropStep()
    ensures Leads(LINKED, DropTemp(NAME), SEALED)
  {
    assert map[NAME := Finished(ZIP)] - {NAME} == map[];
  }

  lemma CloseStep()
    ensures Leads(SEALED, Close(NAME), CLOSED)
  {
    assert OPEN_SEGMENT - {(RUN, T0)} == map[];
  }

  lemma ArchiveStep()
    ensures Leads(CLOSED, Archive(NAME), CONFIRMED)
  {
    assert OPEN_ENTRY + [Archived(ReceiptOf(ZIP))] == BOTH_ENTRIES;
  }

  lemma CrashStep() returns (crashed: World)
    ensures Leads(CONFIRMED, Crash, crashed)
    ensures crashed.now == At(Down, map[NAME := LOG], map[], map[NAME := ZIP], BOTH_ENTRIES, map[])
  {
    crashed := Next(CONFIRMED, Crash);
  }

  lemma WriteHistory() returns (history: History)
    ensures history.worlds[0] == IDLE && End(history) == NOTED
    ensures history.steps == [Boot, Serve, Open(NAME, ORIGIN, 0, None), Append(NAME, LINE), Note(Opened(NAME))]
  {
    IdleConsistent();
    history := Trace([IDLE], []);
    BootStep();
    history := Go(history, Boot, RECOVERING);
    ServeStep();
    history := Go(history, Serve, SERVING);
    OpenStep();
    history := Go(history, Open(NAME, ORIGIN, 0, None), EMPTY_LOG);
    AppendStep();
    history := Go(history, Append(NAME, LINE), ONE_LINE);
    NoteStep();
    history := Go(history, Note(Opened(NAME)), NOTED);
  }

  lemma SealHistory() returns (history: History)
    ensures history.worlds[0] == IDLE && End(history) == SEALED
    ensures history.steps ==
            [Boot, Serve, Open(NAME, ORIGIN, 0, None), Append(NAME, LINE), Note(Opened(NAME)),
             BeginTemp(NAME), FinishTemp(NAME, ZIP), Link(NAME), DropTemp(NAME)]
  {
    history := WriteHistory();
    BeginStep();
    history := Go(history, BeginTemp(NAME), BEGUN);
    FinishStep();
    history := Go(history, FinishTemp(NAME, ZIP), FINISHED);
    LinkStep();
    history := Go(history, Link(NAME), LINKED);
    DropStep();
    history := Go(history, DropTemp(NAME), SEALED);
  }

  /**
   From an empty log directory and Store: a process starts, records one event, seals the
   segment and has the Store confirm it, and crashes before the plaintext is removed. The
   Store names the very archive on disk, and the leftover is stuck.
   */
  lemma StuckHistory() returns (history: History)
    ensures history.worlds[0] == IDLE
    ensures history.steps ==
            [Boot, Serve, Open(NAME, ORIGIN, 0, None), Append(NAME, LINE), Note(Opened(NAME)),
             BeginTemp(NAME), FinishTemp(NAME, ZIP), Link(NAME), DropTemp(NAME), Close(NAME), Archive(NAME), Crash]
    ensures var s := End(history).now;
            && s == At(Down, map[NAME := LOG], map[], map[NAME := ZIP], BOTH_ENTRIES, map[])
            && Confirmed(s.journal, NAME, Digest(s.published[NAME])) && Stuck(s, NAME)
  {
    history := SealHistory();
    CloseStep();
    history := Go(history, Close(NAME), CLOSED);
    ArchiveStep();
    history := Go(history, Archive(NAME), CONFIRMED);
    var crashed := CrashStep();
    history := Go(history, Crash, crashed);
    StuckEnd();
  }

  lemma StuckEnd()
    ensures var s := At(Down, map[NAME := LOG], map[], map[NAME := ZIP], BOTH_ENTRIES, map[]);
            Confirmed(s.journal, NAME, Digest(ZIP)) && Stuck(s, NAME)
  {
    var s := At(Down, map[NAME := LOG], map[], map[NAME := ZIP], BOTH_ENTRIES, map[]);
    assert BOTH_ENTRIES[1] == Archived(ReceiptOf(ZIP)) && BOTH_ENTRIES[1] in BOTH_ENTRIES;
    assert PreviousArchive(BOTH_ENTRIES, RUN, T0) == Some(Previous(NAME, Digest(ZIP)));
    ConfirmedIsStuck(s, NAME);
  }
}
