/** What the logger's methods do to the state, and the facts about histories they rest on. */
module RunLogEffects {
  import opened Wrappers
  import opened FlowWindow
  import opened RunLogScan
  import opened RunLogClosure
  import opened RunLogProtocol
  import opened RunLogSafety
  import opened RunLogArchive
  import opened RunLogHistory

  // What the environment supplies for a new segment: the local day and offset, a fresh
  // identity, this process's session and the Store's event cursor.
  datatype Birth = Birth(date: string, id: string, session: string, offset: string, cursor: int)

  // --- What the methods do to the state ---

  // One more record in the Run's open log, which was opened for it if there was none.
  ghost predicate Written(s: State, t: State, run: RunId, phase: Phase, scope: Scope, kind: Kind) {
    var key := (run, phase);
    && key in t.segments
    && var seg := t.segments[key];
    && (if key in s.segments
        then seg.name in s.inflight && seg == s.segments[key].(count := seg.count, active := seg.active)
        else seg.previous == PreviousArchive(s.journal, run, phase))
    && var before := if key in s.segments then s.inflight[seg.name].lines else [];
    && var after := before + [Line(seg.origin, seg.cursor, scope, kind)];
    && seg.count == |after| && seg.active == ActiveOf(after)
    && t == s.(inflight := s.inflight[seg.name := File(after, false)], segments := s.segments[key := seg])
  }

  function OpenEntries(name: SegName, isNew: bool): seq<Status> {
    if isNew && !name.phase.Startup? then [Opened(name)] else []
  }

  function UnknownEntries(run: RunId, phase: Phase, kind: Kind): seq<Status> {
    if kind.UnknownAfterCancel? then [Blocked(run, phase, UnknownProviderResult)] else []
  }

  ghost predicate Announced(s: State, t: State, run: RunId, phase: Phase, kind: Kind, isNew: bool)
    requires (run, phase) in s.segments
  {
    t == s.(journal := s.journal + OpenEntries(s.segments[(run, phase)].name, isNew) + UnknownEntries(run, phase, kind),
            uncertain := s.uncertain + (if kind.UnknownAfterCancel? then {run} else {}))
  }

  // What a successful record does to the whole state.
  ghost predicate Recorded(s: State, t: State, run: RunId, phase: Phase, scope: Scope, kind: Kind) {
    var u := t.(journal := s.journal, uncertain := s.uncertain);
    && Written(s, u, run, phase, scope, kind)
    && Announced(u, t, run, phase, kind, (run, phase) !in s.segments)
  }

  lemma WrittenThenAnnounced(s: State, u: State, t: State, run: RunId, phase: Phase, scope: Scope, kind: Kind)
    requires Written(s, u, run, phase, scope, kind)
    requires Announced(u, t, run, phase, kind, (run, phase) !in s.segments)
    ensures Recorded(s, t, run, phase, scope, kind)
  {
    assert u == t.(journal := s.journal, uncertain := s.uncertain);
  }

  lemma OpeningBlocksNone(journal: seq<Status>, name: SegName, isNew: bool)
    ensures UncertainRuns(journal + OpenEntries(name, isNew)) == UncertainRuns(journal)
    ensures isNew && !name.phase.Startup? ==> Opened(name) in journal + OpenEntries(name, isNew)
  {
    if isNew && !name.phase.Startup? {
      UncertainGrows(journal, Opened(name));
      assert (journal + [Opened(name)])[|journal|] == Opened(name);
    } else {
      assert journal + [] == journal;
    }
  }

  lemma UnknownBlocks(journal: seq<Status>, run: RunId, phase: Phase, kind: Kind)
    ensures UncertainRuns(journal + UnknownEntries(run, phase, kind))
            == UncertainRuns(journal) + (if kind.UnknownAfterCancel? then {run} else {})
  {
    if kind.UnknownAfterCancel? {
      UncertainGrows(journal, Blocked(run, phase, UnknownProviderResult));
    } else {
      assert journal + [] == journal;
    }
  }

  // What a written and announced record means for the uncertain Runs.
  lemma RecordedBlocks(s: State, t: State, run: RunId, phase: Phase, scope: Scope, kind: Kind)
    requires Recorded(s, t, run, phase, scope, kind)
    requires (run, phase) !in s.segments ==> t.segments[(run, phase)].name.phase == phase
    ensures UncertainRuns(t.journal) == UncertainRuns(s.journal) + (if kind.UnknownAfterCancel? then {run} else {})
    ensures t.uncertain == s.uncertain + (if kind.UnknownAfterCancel? then {run} else {})
    ensures (run, phase) !in s.segments && !phase.Startup? ==> Opened(t.segments[(run, phase)].name) in t.journal
  {
    var name, isNew := t.segments[(run, phase)].name, (run, phase) !in s.segments;
    OpeningBlocksNone(s.journal, name, isNew);
    UnknownBlocks(s.journal + OpenEntries(name, isNew), run, phase, kind);
    assert Opened(name) in s.journal + OpenEntries(name, isNew) ==>
             Opened(name) in s.journal + OpenEntries(name, isNew) + UnknownEntries(run, phase, kind);
  }

  // A new segment of the Run: its name, identity, starting cursor and predecessor.
  predicate Begins(seg: Segment, s: State, run: RunId, phase: Phase, birth: Birth) {
    && seg.name == SegName(birth.date, run, phase, birth.id)
    && seg.origin == Origin(run, phase, birth.session, birth.offset, Some(s.store))
    && seg.cursor == birth.cursor && seg.previous == PreviousArchive(s.journal, run, phase)
  }

  // The segment is the one already open, or a new empty one under the given birth.
  ghost predicate Openable(s: State, t: State, run: RunId, phase: Phase, birth: Birth) {
    var key, name := (run, phase), SegName(birth.date, run, phase, birth.id);
    var origin := Origin(run, phase, birth.session, birth.offset, Some(s.store));
    && key in t.segments
    && if key in s.segments then t == s
       else
         t == s.(inflight := s.inflight[name := File([], false)],
                 segments := s.segments[key := Segment(name, origin, birth.cursor, 0, {},
                                                       PreviousArchive(s.journal, run, phase))])
  }

  // A fresh segment of a Run that has none open is one the protocol admits.
  lemma OpensFresh(history: History, run: RunId, phase: Phase, birth: Birth)
    requires var s := End(history).now;
             && s.mode.Serving? && !s.unavailable && run !in s.uncertain && (run, phase) !in s.segments && PlainOpen(s)
             && ValidIdentity(Origin(run, phase, birth.session, birth.offset, Some(s.store)))
    requires SegName(birth.date, run, phase, birth.id) !in End(history).past.used
    ensures var w, step := End(history), Opening(End(history).now, run, phase, birth);
            && CanTake(w, step) && Openable(w.now, Effect(w.now, step), run, phase, birth)
            && PlainOpen(Effect(w.now, step))
            && Remember(w, step).used == w.past.used + {SegName(birth.date, run, phase, birth.id)}
  {
    EndKeepsInvariant(history);
    OpeningKeepsPlain(End(history), run, phase, birth);
  }

  function Opening(s: State, run: RunId, phase: Phase, birth: Birth): Step {
    Open(SegName(birth.date, run, phase, birth.id), Origin(run, phase, birth.session, birth.offset, Some(s.store)),
         birth.cursor, PreviousArchive(s.journal, run, phase))
  }

  lemma OpeningKeepsPlain(w: World, run: RunId, phase: Phase, birth: Birth)
    requires NamesUsed(w) && PlainOpen(w.now) && SegName(birth.date, run, phase, birth.id) !in w.past.used
    ensures PlainOpen(Effect(w.now, Opening(w.now, run, phase, birth)))
  {
  }

  lemma AppendWrites(w: World, run: RunId, phase: Phase, scope: Scope, kind: Kind)
    requires Inv(w) && w.now.mode.Serving? && !w.now.unavailable && (run, phase) in w.now.segments
    requires var seg := w.now.segments[(run, phase)];
             CanTake(w, Append(seg.name, Line(seg.origin, seg.cursor, scope, kind)))
    ensures var seg := w.now.segments[(run, phase)];
            Written(w.now, Effect(w.now, Append(seg.name, Line(seg.origin, seg.cursor, scope, kind))),
                    run, phase, scope, kind)
  {
    var key := (run, phase);
    var seg := w.now.segments[key];
    var line := Line(seg.origin, seg.cursor, scope, kind);
    assert LiveKey(w, key);
    ServedAppend(w.now, seg.name, line);
    CountedIn(seg, w.past.accepted[seg.name], line);
  }

  lemma OpenThenWrite(s: State, u: State, t: State, run: RunId, phase: Phase, scope: Scope, kind: Kind, birth: Birth)
    requires Openable(s, u, run, phase, birth) && Written(u, t, run, phase, scope, kind)
    ensures Written(s, t, run, phase, scope, kind)
    ensures (run, phase) !in s.segments ==> Begins(t.segments[(run, phase)], s, run, phase, birth)
  {
    if (run, phase) !in s.segments {
      var seg := t.segments[(run, phase)];
      var after := [Line(seg.origin, seg.cursor, scope, kind)];
      assert [] + after == after;
      assert t == s.(inflight := s.inflight[seg.name := File(after, false)], segments := s.segments[(run, phase) := seg]);
    }
  }

  // The segment's identity is that of its own records.
  predicate SegmentFits(seg: Segment, lines: seq<Line>) {
    && seg.origin.run == seg.name.run && seg.origin.phase == seg.name.phase
    && (lines != [] ==> lines[0].origin == seg.origin && lines[0].cursor == seg.cursor)
  }

  function MakeZip(seg: Segment, seen: Inspection, lines: seq<Line>, stage: string, eventCursor: int,
      flow: seq<Event>): Zip
  {
    Zip(seg.name, seg.origin, seg.cursor, seg.previous, stage, eventCursor,
        IntegrityOf(seen), seen.unknown, seen.unreconciled, |seen.active|, lines, flow)
  }

  // The scan agrees with memory, nothing is pending, and the Store accounts for the answers.
  ghost predicate Sealable(s: State, seg: Segment, seen: Inspection)
    requires seg.name in s.inflight
  {
    && Inspect(s.inflight[seg.name]) == Success(seen)
    && seen.count == seg.count && seen.pending == []
    && (seg.name.run.Formal? && seen.unreconciled == 0 ==>
          forall scope :: scope in seen.completed ==> scope in Known(s, seg.name.run))
  }

  // The segment can be sealed as it is.
  ghost predicate CanSeal(s: State, seg: Segment)
    requires seg.name in s.inflight
  {
    Inspect(s.inflight[seg.name]).Success? && Sealable(s, seg, Inspect(s.inflight[seg.name]).value)
  }

  // The log is available, and the open segment of this Run and stage can be sealed as it is.
  ghost predicate OpenSealable(s: State, run: RunId, phase: Phase) {
    && !s.unavailable && (run, phase) in s.segments && s.segments[(run, phase)].name in s.inflight
    && CanSeal(s, s.segments[(run, phase)])
  }

  // So is its event window fit to be copied.
  ghost predicate StageSealable(s: State, run: RunId, phase: Phase, events: seq<Event>, ceiling: int) {
    OpenSealable(s, run, phase) && Copyable(SourceOf(s.segments[(run, phase)], events, ceiling))
  }

  // The archive is one of the whole plaintext, sound, and no temporary one is in its way.
  ghost predicate Writable(s: State, zip: Zip) {
    && zip.name in s.inflight && zip.name !in s.published && !IsForeign(s.inflight[zip.name], s.store)
    && s.inflight[zip.name] == File(zip.events, false)
    && SoundZip(zip, Known(s, zip.name.run))
  }

  // A second write to the same temporary replaces the first.
  lemma TempReplaced(s: State, t: State, u: State, name: SegName, temp: Temp)
    requires t == s.(temps := s.temps[name := Unfinished]) && u == t.(temps := t.temps[name := temp])
    ensures u == s.(temps := s.temps[name := temp]) && SameBut(s.temps, u.temps, name)
  {
    assert s.temps[name := Unfinished][name := temp] == s.temps[name := temp];
  }

  // Temporary archives and the copied events do not matter to that.
  lemma WritableFramed(s: State, t: State, zip: Zip, flow: seq<Event>)
    requires t == s.(temps := t.temps) && Writable(s, zip)
    ensures Writable(t, zip.(flow := flow))
  {
    assert Known(t, zip.name.run) == Known(s, zip.name.run);
  }

  // Publishing the archive made of a sealable segment seals it.
  lemma MadeZipSeals(s: State, u: State, t: State, seg: Segment, seen: Inspection, stage: string, eventCursor: int,
      source: FlowSource, flow: seq<Event>)
    requires seg.name in s.inflight && Sealable(s, seg, seen) && SegmentFits(seg, s.inflight[seg.name].lines)
    requires FlowOf(source, flow) && seg.name !in s.temps
    requires var zip := MakeZip(seg, seen, s.inflight[seg.name].lines, stage, eventCursor, flow);
             && u == s.(temps := s.temps[seg.name := Finished(zip)])
             && t == u.(temps := u.temps - {seg.name}, published := u.published[seg.name := zip])
    ensures Sealed(s, t, seg, stage, eventCursor, source, ReceiptOf(t.published[seg.name]))
  {
    assert t.temps == s.temps;
    MadeZipSound(s, seg, seen, stage, eventCursor, flow);
  }

  // Forgetting a sealed segment does not affect what was sealed.
  lemma SealedThenClosed(s: State, u: State, t: State, key: (RunId, Phase), seg: Segment, stage: string, eventCursor: int,
      source: FlowSource, receipt: Receipt)
    requires seg.name in s.inflight && Sealed(s, u, seg, stage, eventCursor, source, receipt)
    requires t == u.(segments := s.segments - {key})
    ensures Sealed(s, t.(segments := s.segments), seg, stage, eventCursor, source, receipt)
    ensures t == s.(temps := t.temps, published := t.published, segments := t.segments, unavailable := t.unavailable)
  {
    assert t.(segments := s.segments) == u;
  }

  lemma MadeZipSound(s: State, seg: Segment, seen: Inspection, stage: string, eventCursor: int, flow: seq<Event>)
    requires seg.name in s.inflight && Sealable(s, seg, seen) && SegmentFits(seg, s.inflight[seg.name].lines)
    ensures SoundZip(MakeZip(seg, seen, s.inflight[seg.name].lines, stage, eventCursor, flow), Known(s, seg.name.run))
  {
    assert s.inflight[seg.name] == File(s.inflight[seg.name].lines, false);
  }

  // What a successful seal does to the whole state.
  ghost predicate Sealed(s: State, t: State, seg: Segment, stage: string, eventCursor: int, source: FlowSource,
      receipt: Receipt)
    requires seg.name in s.inflight
  {
    && seg.name in t.published
    && var zip := t.published[seg.name];
    && t == s.(published := s.published[seg.name := zip])
    && receipt == ReceiptOf(zip)
    && zip.name == seg.name && zip.previous == seg.previous
    && zip.stage == stage && zip.eventCursor == eventCursor && FlowOf(source, zip.flow)
    && !s.inflight[seg.name].torn && zip.events == s.inflight[seg.name].lines
    && SoundZip(zip, Known(s, seg.name.run))
  }

  // Between calls, an open segment is plaintext only.
  ghost predicate PlainOpen(s: State) {
    s.mode.Serving? && !s.unavailable ==>
      forall key :: key in s.segments ==>
        var name := s.segments[key].name;
        name in s.inflight && name !in s.temps && name !in s.published
  }

  lemma AppendKeepsReady(s: State, step: Step)
    requires PlainOpen(s) && step.Append?
    ensures PlainOpen(Effect(s, step))
  {
    var t := Effect(s, step);
    FilesFramed(s, step);
    forall key | key in t.segments ensures key in s.segments && t.segments[key].name == s.segments[key].name {}
  }

  // A record written under an open segment's own identity is one the protocol admits.
  lemma OpenLogAccepts(w: World, key: (RunId, Phase), line: Line)
    requires LiveLogs(w) && w.now.mode.Serving? && !w.now.unavailable && key.0 !in w.now.uncertain
    requires key in w.now.segments && PlainOpen(w.now)
    requires var seg := w.now.segments[key]; line.origin == seg.origin && line.cursor == seg.cursor
    ensures CanAppend(w.now, w.now.segments[key].name, line)
  {
    assert LiveKey(w, key);
  }

  lemma OpenLogReady(history: History, run: RunId, phase: Phase, scope: Scope, kind: Kind)
    requires var s := End(history).now;
             && s.mode.Serving? && !s.unavailable && run !in s.uncertain
             && (run, phase) in s.segments && PlainOpen(s)
    ensures var s := End(history).now;
            var seg := s.segments[(run, phase)];
            var line := Line(seg.origin, seg.cursor, scope, kind);
            var t := Effect(s, Append(seg.name, line));
            CanAppend(s, seg.name, line) && PlainOpen(t) && Written(s, t, run, phase, scope, kind)
  {
    var w := End(history);
    var seg := w.now.segments[(run, phase)];
    var line := Line(seg.origin, seg.cursor, scope, kind);
    EndKeepsInvariant(history);
    OpenLogAccepts(w, (run, phase), line);
    AppendWrites(w, run, phase, scope, kind);
    AppendKeepsReady(w.now, Append(seg.name, line));
  }

  lemma FailedAppendMode(s: State, name: SegName, line: Line, left: Leftover)
    requires s.mode.Serving?
    ensures Effect(s, AppendFails(name, line, left)).mode.Serving?
  {
  }

  lemma FinishedTempMatches(history: History, name: SegName)
    requires var s := End(history).now;
             name in s.temps && s.temps[name].Finished? && name in s.inflight && name !in s.published
    ensures var s := End(history).now;
            s.temps[name].zip.name == name && s.inflight[name] == File(s.temps[name].zip.events, false)
            && !IsForeign(s.inflight[name], s.store)
  {
    EndKeepsInvariant(history);
    assert TempMatches(End(history).now, name);
  }

  // An open segment between calls: its file is there, is this Store's, and fits it.
  lemma OpenSegmentFits(history: History, key: (RunId, Phase))
    requires var s := End(history).now; s.mode.Serving? && !s.unavailable && key in s.segments && PlainOpen(s)
    ensures var s := End(history).now;
            var seg := s.segments[key];
            && seg.name in s.inflight && seg.name !in s.published
            && !IsForeign(s.inflight[seg.name], s.store)
            && SegmentFits(seg, s.inflight[seg.name].lines)
            && key == (seg.name.run, seg.name.phase)
  {
    EndKeepsInvariant(history);
    assert LiveKey(End(history), key);
  }

  /**
   The memory of an open segment refines the scan of its file: while the log is available the
   counts and the active attempts agree, so the count check of a seal cannot fail.
   */
  lemma MemoryRefinesScan(history: History, key: (RunId, Phase))
    requires var s := End(history).now; s.mode.Serving? && !s.unavailable && key in s.segments && PlainOpen(s)
    ensures var s := End(history).now;
            var seg := s.segments[key];
            && seg.name in s.inflight && seg.count == |s.inflight[seg.name].lines|
            && (Inspect(s.inflight[seg.name]).Success? ==>
                  var seen := Inspect(s.inflight[seg.name]).value;
                  seen.count == seg.count && seen.active == seg.active)
  {
    EndKeepsInvariant(history);
    var w := End(history);
    assert LiveKey(w, key);
    if Inspect(w.now.inflight[w.now.segments[key].name]).Success? {
      ScanLength(w.now.inflight[w.now.segments[key].name].lines);
    }
  }

  lemma ClosingKeepsPlain(history: History, s: State, key: (RunId, Phase), zip: Zip)
    requires s == End(history).now && s.mode.Serving? && !s.unavailable && key in s.segments && PlainOpen(s)
    ensures PlainOpen(s.(published := s.published[s.segments[key].name := zip], segments := s.segments - {key}))
  {
    forall other | other in s.segments && other != key
      ensures s.segments[other].name != s.segments[key].name
    {
      OpenSegmentFits(history, other);
      OpenSegmentFits(history, key);
    }
  }

  // While serving, a confirmed archive whose calls are in doubt has its Run blocked by that
  // very archive entry.
  lemma ServingDoubtOnRecord(history: History, name: SegName)
    requires var s := End(history).now;
             && s.mode.Serving? && name in s.inflight && name in s.published && DoubtfulFile(s, name)
             && Confirmed(s.journal, name, Digest(s.published[name]))
    ensures name.run in UncertainRuns(End(history).now.journal)
  {
    EndKeepsInvariant(history);
    var w := End(history);
    var s, zip := w.now, w.now.published[name];
    assert ArchiveMatches(s, name);
    assert SoundZip(zip, Known(s, name.run));
    var entry :| entry in s.journal && entry.Archived? && entry.receipt.name == name && entry.receipt.sha == Digest(zip);
    assert entry.receipt == ReceiptOf(zip);
    assert IsBlock(entry) && RunOf(entry) == name.run;
  }

  // A log of this Store that recovery may still append to.
  predicate LogIsOpen(s: State, name: SegName) {
    && name in s.inflight && name !in s.temps && name !in s.published
    && !s.inflight[name].torn && s.inflight[name].lines != [] && !IsForeign(s.inflight[name], s.store)
  }

  lemma ClosedStaysOurs(file: File, closed: seq<Line>, store: string)
    requires file.lines != [] && !IsForeign(file, store) && file.lines <= closed
    ensures !IsForeign(File(closed, false), store) && closed[0] == file.lines[0]
  {
  }

  // The closing records are the unknown ones and then the disowning ones.
  lemma ClosingJoins(lines: seq<Line>, seen: Inspection, known: set<Scope>)
    requires lines != [] && Scan(lines) == Success(seen)
    ensures var (origin, cursor) := (lines[0].origin, lines[0].cursor);
            lines + Mark(origin, cursor, UnknownAfterCrash, seen.pending)
            + Mark(origin, cursor, UnreconciledAfterCrash,
                   Unmarked(Unaccounted(origin.phase, seen.completed, known), seen.marked))
            == lines + ClosingLines(lines, known)
  {
  }

  // The archive recovery ends up with, and the plaintext it then equals: the plaintext found,
  // or, where no archive had been finished, that plaintext closed.
  ghost predicate Obtained(s: State, t: State, name: SegName, receipt: Receipt)
    requires name in s.inflight && s.inflight[name].lines != []
  {
    && name in t.published && name in t.inflight
    && var zip, file := t.published[name], t.inflight[name];
    && receipt == ReceiptOf(zip)
    && file == File(zip.events, false)
    && Inspect(file).Success? && Inspect(file).value.pending == []
    && zip.integrity == IntegrityOf(Inspect(file).value)
    && (name in s.published ==> zip == s.published[name])
    && t.inflight == s.inflight[name := file]
    && t.published == s.published[name := zip]
    && zip.previous == PreviousArchive(s.journal, name.run, name.phase)
    && (if name in s.published || name in s.temps then file == s.inflight[name]
        else Scan(s.inflight[name].lines).Success?
             && file.lines == s.inflight[name].lines + ClosingLines(s.inflight[name].lines, Known(s, name.run)))
  }

  // Nothing to block means nothing in doubt.
  lemma DoubtGivesReason(s: State, t: State, name: SegName, receipt: Receipt, seen: Inspection, unaccounted: seq<Scope>)
    requires name in s.inflight && Inspect(s.inflight[name]) == Success(seen) && FiledUnder(name, s.inflight[name].lines)
    requires Obtained(s, t, name, receipt) && t.accounted == s.accounted
    requires unaccounted == Unaccounted(name.phase, seen.completed, Known(s, name.run))
    ensures DoubtfulFile(t, name) ==> BlockReason(receipt.integrity, unaccounted).Some?
  {
    var known, lines := Known(s, name.run), s.inflight[name].lines;
    if name.run.Formal? && BlockReason(receipt.integrity, unaccounted).None? {
      assert ValidIdentity(lines[0].origin);
      forall scope | scope in seen.completed ensures scope in known {
        UnaccountedExactly(name.phase, seen.completed, known, scope);
      }
      if !(name in s.published || name in s.temps) {
        RecoveryCloses(lines, known);
      }
    }
  }

  // One leftover plaintext is now an archive, and the Run is blocked if a call is in doubt.
  ghost predicate Recovered(s: State, t: State, name: SegName)
    requires name in s.inflight
  {
    && name in t.published && s.inflight[name].lines != []
    && t.inflight == s.inflight - {name}
    && t.published == s.published[name := t.published[name]]
    && (name in s.published ==> t.published[name] == s.published[name])
    && t.accounted == s.accounted && t.store == s.store
    && t.published[name].previous == PreviousArchive(s.journal, name.run, name.phase)
    && (if name in s.published || name in s.temps then t.published[name].events == s.inflight[name].lines
        else Scan(s.inflight[name].lines).Success?
             && t.published[name].events
                == s.inflight[name].lines + ClosingLines(s.inflight[name].lines, Known(s, name.run)))
    && (DoubtfulArchive(t, name) ==> name.run in UncertainRuns(t.journal) && name.run in t.uncertain)
  }

  lemma ObtainedName(history: History, name: SegName, receipt: Receipt)
    requires name in End(history).now.published && receipt == ReceiptOf(End(history).now.published[name])
    ensures receipt.name == name
  {
    EndKeepsInvariant(history);
    assert ArchiveMatches(End(history).now, name);
  }

  // An archived plaintext is this Store's.
  lemma ObtainedOurs(s: State, t: State, name: SegName, receipt: Receipt)
    requires name in s.inflight && s.inflight[name].lines != [] && !IsForeign(s.inflight[name], s.store)
    requires Obtained(s, t, name, receipt) && t.store == s.store
    ensures !IsForeign(t.inflight[name], t.store)
  {
  }

  lemma DoubtFramed(s: State, t: State, name: SegName)
    requires t == s.(journal := t.journal, uncertain := t.uncertain) && name in s.inflight
    ensures DoubtfulFile(t, name) <==> DoubtfulFile(s, name)
  {
    assert Known(t, name.run) == Known(s, name.run);
  }

  lemma RecoveredAtLast(s: State, u: State, t: State, name: SegName, receipt: Receipt)
    requires name in s.inflight && s.inflight[name].lines != [] && !IsForeign(s.inflight[name], s.store)
    requires u == s.(inflight := u.inflight, temps := u.temps, published := u.published)
    requires Obtained(s, u, name, receipt) && !IsForeign(u.inflight[name], u.store)
    requires t == u.(journal := t.journal, uncertain := t.uncertain, inflight := u.inflight - {name})
    requires DoubtfulFile(u, name) ==> name.run in UncertainRuns(t.journal) && name.run in t.uncertain
    ensures Recovered(s, t, name)
  {
    WrittenThenRemoved(s.inflight, name, u.inflight[name]);
    ArchivedDoubt(u, t, name);
  }

  lemma WrittenThenRemoved<V>(files: map<SegName, V>, name: SegName, file: V)
    ensures files[name := file] - {name} == files - {name}
  {
  }

  // An archive is in doubt only if the plaintext it equals was.
  lemma ArchivedDoubt(u: State, t: State, name: SegName)
    requires name in u.published && name in u.inflight && u.inflight[name] == File(u.published[name].events, false)
    requires !IsForeign(u.inflight[name], u.store) && t.published == u.published && t.accounted == u.accounted
    ensures DoubtfulArchive(t, name) ==> DoubtfulFile(u, name)
  {
    assert Known(t, name.run) == Known(u, name.run);
  }

  function InterruptedStage(seen: Inspection, unaccounted: seq<Scope>): string {
    if seen.pending != [] then "interrupted_unknown_after_crash"
    else if unaccounted != [] then "interrupted_unreconciled_after_crash"
    else "interrupted_after_crash"
  }

  lemma DownIsIdle(history: History)
    requires !End(history).now.mode.Serving?
    ensures End(history).now.segments == map[]
  {
    EndKeepsInvariant(history);
  }

  // Outside `todo`, foreign plaintext is untouched and every other plaintext is archived.
  ghost predicate AllRecovered(s: State, t: State, todo: set<SegName>) {
    && t.store == s.store && t.accounted == s.accounted
    && (forall name :: name in t.inflight ==> name in s.inflight)
    && (forall name :: name in todo ==> name in t.inflight)
    && (forall name :: name in s.published ==> name in t.published && t.published[name] == s.published[name])
    && forall name :: name in s.inflight ==>
         if name in todo || IsForeign(s.inflight[name], s.store)
         then name in t.inflight && t.inflight[name] == s.inflight[name]
         else name !in t.inflight && name in t.published && s.inflight[name].lines <= t.published[name].events
  }

  // Only the disk matters to what was recovered.
  lemma RecoveredFramed(s: State, u: State, t: State, v: State, todo: set<SegName>)
    requires AllRecovered(u, t, todo)
    requires u.store == s.store && u.inflight == s.inflight && u.published == s.published && u.accounted == s.accounted
    requires v.store == t.store && v.inflight == t.inflight && v.published == t.published && v.accounted == t.accounted
    ensures AllRecovered(s, v, todo) && OwnDone(s, {}) == OwnDone(u, {})
  {
    assert OwnLogs(s) == OwnLogs(u);
  }

  // Once every leftover is recovered, only other Stores' logs are left.
  lemma OnlyForeignLeft(s: State, t: State)
    requires AllRecovered(s, t, {})
    ensures forall name :: name in t.inflight ==> IsForeign(t.inflight[name], t.store)
  {
  }

  // While a process serves, every Run whose doubt still stands is refused.
  lemma TaintedRefused(history: History)
    requires End(history).now.mode.Serving?
    ensures var w := End(history);
            forall entry :: entry in w.past.tainted && Live(w.now, entry.0, entry.1) ==> entry.0 in w.now.uncertain
  {
    EndKeepsInvariant(history);
    var w := End(history);
    forall entry | entry in w.past.tainted && Live(w.now, entry.0, entry.1) ensures entry.0 in w.now.uncertain {
      assert DoubtHeld(w.now, entry.0, entry.1);
    }
  }

  // This Store's own logs.
  function OwnLogs(s: State): set<SegName> {
    set name | name in s.inflight && !IsForeign(s.inflight[name], s.store)
  }

  // How many of them are no longer to do.
  function OwnDone(s: State, todo: set<SegName>): nat {
    |OwnLogs(s) - todo|
  }

  lemma OneMoreOwn(s: State, todo: set<SegName>, name: SegName)
    requires name in todo && name in s.inflight
    ensures OwnDone(s, todo - {name}) == OwnDone(s, todo) + if IsForeign(s.inflight[name], s.store) then 0 else 1
  {
    assert OwnLogs(s) - (todo - {name})
        == (OwnLogs(s) - todo) + if IsForeign(s.inflight[name], s.store) then {} else {name};
  }

  lemma NoneDone(s: State)
    ensures OwnDone(s, s.inflight.Keys) == 0
  {
    assert OwnLogs(s) - s.inflight.Keys == {};
  }

  lemma OneMoreRecovered(s: State, u: State, t: State, todo: set<SegName>, name: SegName, own: bool)
    requires AllRecovered(s, u, todo) && name in todo
    requires own <==> !IsForeign(u.inflight[name], u.store)
    requires !own ==> t == u
    requires own ==> Recovered(u, t, name)
    ensures AllRecovered(s, t, todo - {name})
  {
  }

  // --- Effects that concern one leftover ---

  // Nothing but the value at one key may differ.
  ghost predicate OnlyAt<V>(before: map<SegName, V>, after: map<SegName, V>, name: SegName) {
    after == before || (name in after && after == before[name := after[name]])
  }

  // Work on the files of one leftover.
  lemma FilesConcern(s: State, t: State, name: SegName)
    requires t == s.(inflight := t.inflight, temps := t.temps, published := t.published)
    requires name in s.inflight && OnlyAt(s.inflight, t.inflight, name) && SameBut(s.temps, t.temps, name)
    requires OnlyAt(s.published, t.published, name)
    requires name in s.published ==> t.published == s.published
    ensures Concerns(s, t, name)
  {
    OnlyAtIsSameBut(s.published, t.published, name);
  }

  lemma OnlyAtIsSameBut<V>(before: map<SegName, V>, after: map<SegName, V>, name: SegName)
    requires OnlyAt(before, after, name)
    ensures SameBut(before, after, name)
  {
  }

  // Every stuck leftover stays stuck.
  ghost predicate KeepsStuck(s: State, t: State) {
    forall name :: Stuck(s, name) ==> Stuck(t, name)
  }

  // What is stuck depends on the disk and the Store alone.
  lemma SameDiskKeepsStuck(s: State, t: State)
    requires t.store == s.store && t.inflight == s.inflight && t.published == s.published && t.journal == s.journal
    ensures forall name :: Stuck(t, name) <==> Stuck(s, name)
  {
    forall name ensures Stuck(t, name) <==> Stuck(s, name) {
      assert Alone(t, name) <==> Alone(s, name);
    }
  }

  // A recovered or untouched leftover leaves the others as stuck as they were; it was not stuck itself.
  lemma ConcernsKeepsStuck(s: State, t: State, name: SegName)
    requires name in s.inflight && Concerns(s, t, name) && (Stuck(s, name) ==> t == s)
    ensures KeepsStuck(s, t)
  {
    forall other | Stuck(s, other) ensures Stuck(t, other) {
      if other != name {
        StuckStays(s, t, name, other);
      }
    }
  }

  // --- Closing and sealing a leftover ---

  lemma NothingMarked(lines: seq<Line>, first: Line, kind: Kind, scopes: seq<Scope>)
    ensures lines + Mark(first.origin, first.cursor, kind, scopes[..0]) == lines
  {
  }

  lemma OneMoreMark(lines: seq<Line>, first: Line, kind: Kind, scopes: seq<Scope>, i: nat)
    requires lines != [] && lines[0] == first && i < |scopes|
    ensures (lines + Mark(first.origin, first.cursor, kind, scopes[..i]))[0] == first
    ensures lines + Mark(first.origin, first.cursor, kind, scopes[..i]) + [Line(first.origin, first.cursor, scopes[i], kind)]
            == lines + Mark(first.origin, first.cursor, kind, scopes[..i + 1])
  {
    var before, after := Mark(first.origin, first.cursor, kind, scopes[..i]), Mark(first.origin, first.cursor, kind, scopes[..i + 1]);
    assert after == before + [Line(first.origin, first.cursor, scopes[i], kind)];
  }

  lemma MadeZipVerifies(s: State, seg: Segment, seen: Inspection, stage: string, eventCursor: int, flow: seq<Event>)
    requires seg.name in s.inflight && Sealable(s, seg, seen) && SegmentFits(seg, s.inflight[seg.name].lines)
    ensures VerifyPublished(seg, MakeZip(seg, seen, s.inflight[seg.name].lines, stage, eventCursor, flow),
                            s.inflight[seg.name]).Success?
  {
    ScanLength(s.inflight[seg.name].lines);
  }

  /**
   Verification accepts exactly the archives that sealing this segment with this plaintext could
   have made, whatever their stage name, cursor and event window.
   */
  lemma VerifiesExactly(seg: Segment, zip: Zip, file: File)
    ensures VerifyPublished(seg, zip, file).Success? <==>
            && Inspect(file).Success? && Inspect(file).value.pending == [] && |file.lines| == seg.count
            && zip == MakeZip(seg, Inspect(file).value, file.lines, zip.stage, zip.eventCursor, zip.flow)
  {
    assert file == File(file.lines, false) || file.torn;
  }

  // The segment under which a closed leftover is sealed.
  function ClosedSegment(name: SegName, found: seq<Line>, closed: seq<Line>, journal: seq<Status>): Segment
    requires found != []
  {
    RecoveredSegment(name, found, journal).(count := |closed|, active := ActiveOf(closed))
  }

  // A leftover of this Store without an archive has been closed, and nothing else was done.
  ghost predicate ClosedFrom(s: State, t: State, name: SegName, seen: Inspection) {
    && name in s.inflight && FiledUnder(name, s.inflight[name].lines) && Inspect(s.inflight[name]) == Success(seen)
    && name !in s.temps && name !in s.published && name in t.inflight && !IsForeign(t.inflight[name], t.store)
    && t == s.(inflight := s.inflight[name := t.inflight[name]])
    && t.inflight[name]
       == File(s.inflight[name].lines + ClosingLines(s.inflight[name].lines, Known(s, name.run)), false)
  }

  // A closed leftover can be sealed exactly when its calls could be disowned by name.
  lemma ClosedIsSealable(s: State, t: State, name: SegName, seen: Inspection)
    requires ClosedFrom(s, t, name, seen)
    ensures CanSeal(t, ClosedSegment(name, s.inflight[name].lines, t.inflight[name].lines, s.journal))
            <==> Disownable(s, name, seen)
    ensures Inspect(t.inflight[name]).Success? <==> Disownable(s, name, seen)
  {
    var lines, known, closed := s.inflight[name].lines, Known(s, name.run), t.inflight[name].lines;
    assert Known(t, name.run) == known;
    RecoveryCloses(lines, known);
    if Disownable(s, name, seen) {
      var after := Scan(closed).value;
      ScanLength(closed);
      ScanConserves(closed);
      ClosedIsReadable(lines, known);
      if name.run.Formal? && after.unreconciled == 0 {
        assert after.marked == {};
        forall scope | scope in after.completed ensures scope in known {
          UnaccountedExactly(name.phase, seen.completed, known, scope);
        }
      }
    }
  }

  // What sealing it needs.
  lemma ClosedSeals(s: State, t: State, name: SegName, seen: Inspection, events: seq<Event>, ceiling: int)
    requires ClosedFrom(s, t, name, seen) && Increasing(events)
    ensures var seg := ClosedSegment(name, s.inflight[name].lines, t.inflight[name].lines, s.journal);
            var source := SourceOf(seg, events, ceiling);
            && seg.name == name && SegmentFits(seg, t.inflight[name].lines)
            && (source.Window? ==> Increasing(source.events))
            && (CanSeal(t, seg) <==> Disownable(s, name, seen))
            && (CanSeal(t, seg) && Copyable(source) <==> Closable(s, name, seen, events, ceiling))
  {
    ClosedIsSealable(s, t, name, seen);
  }

  lemma ClosedIsReadable(lines: seq<Line>, known: set<Scope>)
    requires lines != [] && OneOrigin(lines) && ValidIdentity(lines[0].origin) && Scan(lines).Success?
    ensures Readable(File(lines + ClosingLines(lines, known), false))
  {
  }

  // The receipt's archive and plaintext are both there, and the archive is unchanged.
  predicate Removable(s: State, receipt: Receipt) {
    receipt.name in s.published && receipt.name in s.inflight && Digest(s.published[receipt.name]) == receipt.sha
  }

  // --- The archive obtained ---

  lemma PublishedObtained(s: State, name: SegName)
    requires name in s.inflight && s.inflight[name].lines != [] && name in s.published
    ensures var seg := RecoveredSegment(name, s.inflight[name].lines, s.journal);
            var verified := VerifyPublished(seg, s.published[name], s.inflight[name]);
            verified.Success? ==> Obtained(s, s, name, verified.value)
  {
    assert s.inflight[name := s.inflight[name]] == s.inflight;
    assert s.published[name := s.published[name]] == s.published;
  }

  lemma TempObtained(s: State, t: State, name: SegName)
    requires name in s.inflight && s.inflight[name].lines != [] && name !in s.published
    requires name in s.temps && s.temps[name].Finished?
    requires var zip := s.temps[name].zip;
             && VerifyPublished(RecoveredSegment(name, s.inflight[name].lines, s.journal), zip, s.inflight[name]).Success?
             && t == s.(temps := t.temps, published := s.published[name := zip])
    ensures Obtained(s, t, name, ReceiptOf(s.temps[name].zip))
  {
    assert s.inflight[name := s.inflight[name]] == s.inflight;
  }

  lemma SealedObtained(s: State, u: State, t: State, name: SegName, seen: Inspection, stage: string, eventCursor: int,
      source: FlowSource, receipt: Receipt)
    requires ClosedFrom(s, u, name, seen)
    requires Sealed(u, t, ClosedSegment(name, s.inflight[name].lines, u.inflight[name].lines, s.journal),
                    stage, eventCursor, source, receipt)
    ensures Obtained(s, t, name, receipt)
  {
    assert t.inflight == s.inflight[name := t.inflight[name]];
  }

  // --- Registering ---

  lemma JournalIsTrue(history: History)
    ensures JournalTrue(End(history).now)
  {
    EndKeepsInvariant(history);
  }

  // With true entries, the registered archive is confirmed exactly when it could be registered.
  lemma RegisteredConfirms(s: State, receipt: Receipt, unaccounted: seq<Scope>)
    requires JournalTrue(s) && receipt.name in s.published && receipt == ReceiptOf(s.published[receipt.name])
    requires receipt.name.run.Formal?
    ensures Registrable(s.journal, receipt.name) <==>
            Confirmed(s.journal + RegisterEntries(s.journal, receipt, unaccounted), receipt.name, receipt.sha)
  {
    var name, journal := receipt.name, s.journal + RegisterEntries(s.journal, receipt, unaccounted);
    if NamesSegment(s.journal, name) {
      if NamesArchive(s.journal, name) {
        NamedIsConfirmed(s, name);
        var entry :| entry in s.journal && entry.Archived? && entry.receipt.name == name && entry.receipt.sha == receipt.sha;
        assert entry in journal;
      }
    } else {
      assert journal[|s.journal|] == Archived(receipt);
      assert Archived(receipt) in journal;
    }
  }

  lemma ConcernsAtLast(s: State, u: State, t: State, name: SegName)
    requires Concerns(s, u, name) && JournalAbout(u.journal, t.journal, name)
    requires t == u.(journal := t.journal, uncertain := t.uncertain, inflight := t.inflight)
    requires t.inflight == u.inflight || t.inflight == u.inflight - {name}
    ensures Concerns(s, t, name)
  {
  }

  lemma JustConfirmed(journal: seq<Status>, receipt: Receipt)
    ensures Confirmed(journal + [Archived(receipt)], receipt.name, receipt.sha)
  {
    assert (journal + [Archived(receipt)])[|journal|] == Archived(receipt);
  }

  // Neither a Store entry nor the removal of an archived plaintext concerns an open segment.
  lemma ConfirmingKeepsPlain(s: State, t: State, name: SegName)
    requires PlainOpen(s) && name in s.published
    requires t == s.(journal := t.journal, inflight := t.inflight)
    requires t.inflight == s.inflight || t.inflight == s.inflight - {name}
    ensures PlainOpen(t)
  {
  }

  // A finished stage: its archive, with the Run's events, is in place of the plaintext, the Store
  // names it, and the segment is forgotten; nothing else changed.
  ghost predicate StageArchived(s: State, t: State, seg: Segment, stage: string, events: seq<Event>, ceiling: int) {
    && seg.name in s.inflight && seg.name in t.published
    && var zip := t.published[seg.name];
    && t == s.(inflight := s.inflight - {seg.name}, published := s.published[seg.name := zip],
               journal := s.journal + [Archived(ReceiptOf(zip))], segments := t.segments)
    && zip.name == seg.name && zip.events == s.inflight[seg.name].lines
    && zip.previous == seg.previous && zip.stage == stage && zip.eventCursor == ceiling
    && HoldsEvents(zip.flow, seg.name.phase, seg.previous, seg.cursor, events, ceiling)
    && ReceiptOf(zip) == Receipt(seg.name, |s.inflight[seg.name].lines|, ceiling, stage, zip.integrity, Digest(zip))
    && SoundZip(zip, Known(s, seg.name.run))
    && Confirmed(t.journal, seg.name, Digest(zip))
  }

  lemma StageAtLast(s: State, u: State, t: State, seg: Segment, stage: string, events: seq<Event>, ceiling: int,
      receipt: Receipt)
    requires seg.name in s.inflight
    requires Sealed(s, u.(segments := s.segments), seg, stage, ceiling, SourceOf(seg, events, ceiling), receipt)
    requires t == u.(journal := u.journal + [Archived(receipt)], inflight := u.inflight - {seg.name})
    requires Confirmed(t.journal, receipt.name, receipt.sha)
    ensures StageArchived(s, t, seg, stage, events, ceiling)
  {
    var zip := t.published[seg.name];
    FlowHoldsEvents(seg, events, ceiling, zip.flow);
    assert u.(segments := s.segments) == s.(published := s.published[seg.name := zip]);
  }

  // --- Runs that need a log of their own ---

  const NOWHERE := Scope(None, None, None)
  const UNSTARTED_MARK := Other("rust.run.recovered_before_first_task")

  // Distinct formal Runs, each with a fresh identity for its log.
  predicate Unstarted(required: seq<RunId>, births: seq<Birth>, used: set<SegName>) {
    && |births| == |required|
    && (forall k :: 0 <= k < |required| ==>
          required[k].Formal? && SegName(births[k].date, required[k], T0, births[k].id) !in used)
    && forall k, l :: 0 <= k < l < |required| ==> required[k] != required[l]
  }

  // The Run's own T0 log is open and holds exactly the mark.
  ghost predicate Marked(s: State, run: RunId) {
    && (run, T0) in s.segments
    && var seg := s.segments[(run, T0)];
    && seg.name.run == run && seg.name in s.inflight
    && s.inflight[seg.name]
       == File([Line(seg.origin, seg.cursor, Scope(None, None, None), Other("rust.run.recovered_before_first_task"))], false)
  }

  lemma NextUnstarted(required: seq<RunId>, births: seq<Birth>, used: set<SegName>)
    requires Unstarted(required, births, used) && required != []
    ensures Unstarted(required[1..], births[1..], used)
    ensures forall k :: 0 <= k < |required[1..]| ==> required[1..][k] != required[0]
  {
  }

  lemma StillUnstarted(required: seq<RunId>, births: seq<Birth>, used: set<SegName>, more: set<SegName>, run: RunId,
      birth: Birth)
    requires Unstarted(required, births, used) && more <= used + {SegName(birth.date, run, T0, birth.id)}
    requires forall k :: 0 <= k < |required| ==> required[k] != run
    ensures Unstarted(required, births, more)
  {
  }

  lemma MarkedStays(s: State, t: State, run: RunId, other: RunId)
    requires Recorded(s, t, run, T0, NOWHERE, UNSTARTED_MARK) && (run, T0) !in s.segments
    requires t.segments[(run, T0)].name.run == run
    requires Marked(s, other)
    ensures Marked(t, other)
  {
  }

  // The first of the required Runs have their logs, and the others are still to be started.
  ghost predicate MarkedSoFar(s: State, required: seq<RunId>, births: seq<Birth>, used: set<SegName>, i: nat) {
    && i <= |required| == |births| && Unstarted(required[i..], births[i..], used)
    && (forall k :: i <= k < |required| ==> (required[k], T0) !in s.segments)
    && forall k :: 0 <= k < i ==> Marked(s, required[k])
  }

  lemma OneMoreMarked(s: State, t: State, required: seq<RunId>, births: seq<Birth>, used: set<SegName>,
      more: set<SegName>, i: nat)
    requires MarkedSoFar(s, required, births, used, i) && i < |required|
    requires Recorded(s, t, required[i], T0, NOWHERE, UNSTARTED_MARK)
    requires t.segments[(required[i], T0)].name.run == required[i]
    requires more <= used + {SegName(births[i].date, required[i], T0, births[i].id)}
    ensures MarkedSoFar(t, required, births, more, i + 1) && t.published == s.published
  {
    NextUnstarted(required[i..], births[i..], used);
    assert required[i..][1..] == required[i + 1..] && births[i..][1..] == births[i + 1..];
    assert forall k :: i < k < |required| ==> required[i + 1..][k - i - 1] == required[k];
    StillUnstarted(required[i + 1..], births[i + 1..], used, more, required[i], births[i]);
    NewlyMarked(s, t, required[i]);
    forall k | 0 <= k < i ensures Marked(t, required[k]) {
      MarkedStays(s, t, required[i], required[k]);
    }
  }

  lemma NewlyMarked(s: State, t: State, run: RunId)
    requires Recorded(s, t, run, T0, NOWHERE, UNSTARTED_MARK) && (run, T0) !in s.segments
    requires t.segments[(run, T0)].name.run == run
    ensures Marked(t, run)
  {
  }
}
