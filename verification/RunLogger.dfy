/**
 The run logger: the code that appends, seals, confirms and recovers. Every durable write
 and memory update goes through `Take`, which admits only steps the protocol allows and
 keeps the list of steps taken, so a crash between any two of them is a prefix of that list.
 An I/O call or Store write may fail, and a failing write may or may not have landed; a
 `reliable` logger's calls succeed.
 */
module RunLogger {
  import opened Wrappers
  import opened FlowWindow
  import opened RunLogScan
  import opened RunLogClosure
  import opened RunLogProtocol
  import opened RunLogSafety
  import opened RunLogArchive
  import opened RunLogHistory
  import opened RunLogEffects
  import opened RunLogRecovery

  const PAGE: nat := 256

  class RunLogger {
    // The guarded state: the log directory and Store it works on, and the process memory.
    var state: State
    // Whether its I/O calls and Store writes succeed.
    const reliable: bool
    // history
    ghost var past: Past
    ghost var history: History

    ghost function Here(): World
      reads this
    {
      World(state, past)
    }

    // The present is where the legal history so far has led.
    ghost predicate Sound()
      reads this
    {
      End(history) == Here()
    }

    ghost predicate Valid()
      reads this
    {
      Sound() && PlainOpen(state)
    }

    // A process that is not running, over any disk and Store that satisfy the invariant.
    constructor (state: State, reliable: bool, ghost past: Past)
      requires state.mode.Down? && Inv(World(state, past))
      ensures Valid() && this.state == state && this.past == past && history.steps == []
      ensures this.reliable == reliable
    {
      this.state, this.reliable, this.past := state, reliable, past;
      history := Trace([World(state, past)], []);
    }

    // One durable write or memory update.
    method Take(step: Step)
      requires Sound() && CanTake(Here(), step)
      modifies this
      ensures Sound() && state == Effect(old(state), step) && past == Remember(old(Here()), step)
      ensures history.steps == old(history.steps) + [step]
    {
      history := Extend(history, step);
      past := Remember(Here(), step);
      state := Effect(state, step);
    }

    // The outcome of one I/O call.
    method Try() returns (ok: bool)
      ensures reliable ==> ok
    {
      ok := *;
      ok := ok || reliable;
    }

    // --- Single effects, with what they change spelled out ---

    method GoUnavailable()
      requires Sound() && state.mode.Serving?
      modifies this
      ensures Valid() && state == old(state).(unavailable := true) && past == old(past)
    {
      Take(Fail);
    }

    method MarkUncertainRun(run: RunId)
      requires Sound() && !state.mode.Down?
      modifies this
      ensures Sound() && state == old(state).(uncertain := old(state).uncertain + {run})
      ensures past == old(past)
    {
      Take(MarkUncertain(run));
    }

    // One run-log status write; a failing write may or may not have reached the journal.
    method StoreWrite(entry: Status) returns (ok: bool)
      requires Sound() && !state.mode.Down? && !entry.Archived?
      modifies this
      ensures Sound() && past == old(past)
      ensures state == old(state) || state == old(state).(journal := old(state).journal + [entry])
      ensures ok ==> state == old(state).(journal := old(state).journal + [entry])
      ensures reliable ==> ok
    {
      var lands := Try();
      var reported := Try();
      if lands {
        Take(Note(entry));
      }
      ok := lands && reported;
    }

    // Opens the segment for this Run and stage if there is none.
    method EnsureOpen(run: RunId, phase: Phase, birth: Birth) returns (ok: bool)
      requires Valid() && state.mode.Serving? && !state.unavailable && run !in state.uncertain
      requires ValidIdentity(Origin(run, phase, birth.session, birth.offset, Some(state.store)))
      requires SegName(birth.date, run, phase, birth.id) !in past.used
      modifies this
      ensures Valid()
      ensures !ok ==> state == old(state)
      ensures ok ==> Openable(old(state), state, run, phase, birth)
      ensures past.used <= old(past).used + {SegName(birth.date, run, phase, birth.id)}
      ensures reliable ==> ok
    {
      if (run, phase) in state.segments {
        return true;
      }
      ok := Try();
      if ok {
        OpensFresh(history, run, phase, birth);
        Take(Opening(state, run, phase, birth));
      }
    }

    // Appends one record to the open segment; on failure nothing, all or part of it may be left.
    method AppendRecord(run: RunId, phase: Phase, scope: Scope, kind: Kind) returns (ok: bool)
      requires Valid() && state.mode.Serving? && !state.unavailable && run !in state.uncertain
      requires (run, phase) in state.segments
      modifies this
      ensures Sound() && state.mode.Serving?
      ensures ok ==> Valid() && Written(old(state), state, run, phase, scope, kind)
      ensures past.used == old(past).used
      ensures state.journal == old(state).journal && state.uncertain == old(state).uncertain
      ensures reliable ==> ok
    {
      var seg := state.segments[(run, phase)];
      var line := Line(seg.origin, seg.cursor, scope, kind);
      OpenLogReady(history, run, phase, scope, kind);
      ok := Try();
      if ok {
        Take(Append(seg.name, line));
      } else {
        FailAppend(seg.name, line);
      }
    }

    // An append that failed leaves nothing, all or part of its record.
    method FailAppend(name: SegName, line: Line)
      requires Sound() && state.mode.Serving? && CanAppend(state, name, line)
      modifies this
      ensures Sound() && state.mode.Serving? && past == old(past)
      ensures state.journal == old(state).journal && state.uncertain == old(state).uncertain
    {
      var left: Leftover := *;
      FailedAppendMode(state, name, line, left);
      Take(AppendFails(name, line, left));
    }

    method RecordLocked(run: RunId, phase: Phase, scope: Scope, kind: Kind, birth: Birth) returns (ok: bool)
      requires Valid() && state.mode.Serving? && !state.unavailable && run !in state.uncertain
      requires SegName(birth.date, run, phase, birth.id) !in past.used
      modifies this
      ensures Sound() && state.mode.Serving?
      ensures ok ==> Valid() && Written(old(state), state, run, phase, scope, kind)
      ensures ok && (run, phase) !in old(state).segments ==>
                Begins(state.segments[(run, phase)], old(state), run, phase, birth)
      ensures past.used <= old(past).used + {SegName(birth.date, run, phase, birth.id)}
      ensures state.journal == old(state).journal && state.uncertain == old(state).uncertain
      ensures reliable ==>
                (ok <==> ValidIdentity(Origin(run, phase, birth.session, birth.offset, Some(old(state).store))))
    {
      if !ValidIdentity(Origin(run, phase, birth.session, birth.offset, Some(state.store))) {
        return false;
      }
      ok := EnsureOpen(run, phase, birth);
      if ok {
        ghost var midway := state;
        ok := AppendRecord(run, phase, scope, kind);
        if ok {
          OpenThenWrite(old(state), midway, state, run, phase, scope, kind, birth);
        }
      }
    }

    /**
     Records one event. Refused for an unavailable log or an uncertain Run, without any effect.
     Otherwise success means exactly this record was appended to the Run's open log (opened
     first if need be), and an unknown result after a cancelled call makes the Run uncertain,
     durably first and is all that adds to the uncertain Runs; failure makes the whole log
     unavailable. Where I/O works, it fails only on a foreign identity or a lost startup call.
     */
    method Record(run: RunId, phase: Phase, scope: Scope, kind: Kind, birth: Birth)
      returns (r: Result<(), Unavailable>)
      requires Valid() && state.mode.Serving?
      requires SegName(birth.date, run, phase, birth.id) !in past.used
      modifies this
      ensures Valid()
      ensures old(state).unavailable || run in old(state).uncertain ==> r.Failure? && Here() == old(Here())
      ensures r.Failure? && !old(state).unavailable && run !in old(state).uncertain ==> state.unavailable
      ensures r.Success? ==> Recorded(old(state), state, run, phase, scope, kind)
      ensures r.Success? && (run, phase) !in old(state).segments ==>
                Begins(state.segments[(run, phase)], old(state), run, phase, birth)
      ensures past.used <= old(past).used + {SegName(birth.date, run, phase, birth.id)}
      ensures r.Success? ==>
                && UncertainRuns(state.journal) == UncertainRuns(old(state).journal)
                                                   + (if kind.UnknownAfterCancel? then {run} else {})
                && state.uncertain == old(state).uncertain + (if kind.UnknownAfterCancel? then {run} else {})
      ensures GainsAtMost(old(state), state, run, kind.UnknownAfterCancel?)
      ensures r.Success? && (run, phase) !in old(state).segments && !phase.Startup? ==>
                Opened(SegName(birth.date, run, phase, birth.id)) in state.journal
      ensures reliable && !old(state).unavailable && run !in old(state).uncertain ==>
                (r.Success? <==> (phase.Startup? <==> run.CoreStartup?) && !(phase.Startup? && kind.UnknownAfterCancel?))
    {
      if state.unavailable || run in state.uncertain {
        return Failure(Unavailable);
      }
      var ok := WriteAndAnnounce(run, phase, scope, kind, birth);
      if !ok {
        ghost var failed := state;
        GiveUp(run, phase);
        GainedBefore(old(state), failed, state, run, kind.UnknownAfterCancel?);
        return Failure(Unavailable);
      }
      RecordedBlocks(old(state), state, run, phase, scope, kind);
      return Success(());
    }

    // One record, and what the Store and the process must know of it.
    method WriteAndAnnounce(run: RunId, phase: Phase, scope: Scope, kind: Kind, birth: Birth) returns (ok: bool)
      requires Valid() && state.mode.Serving? && !state.unavailable && run !in state.uncertain
      requires SegName(birth.date, run, phase, birth.id) !in past.used
      modifies this
      ensures Sound() && state.mode.Serving?
      ensures ok ==> Valid() && Recorded(old(state), state, run, phase, scope, kind)
      ensures ok && (run, phase) !in old(state).segments ==>
                Begins(state.segments[(run, phase)], old(state), run, phase, birth)
      ensures past.used <= old(past).used + {SegName(birth.date, run, phase, birth.id)}
      ensures GainsAtMost(old(state), state, run, kind.UnknownAfterCancel?)
      ensures reliable ==>
                (ok <==> (phase.Startup? <==> run.CoreStartup?) && !(phase.Startup? && kind.UnknownAfterCancel?))
    {
      var isNew := (run, phase) !in state.segments;
      ok := RecordLocked(run, phase, scope, kind, birth);
      ghost var written := state;
      GainsNothing(old(state), written, run, kind.UnknownAfterCancel?);
      if ok {
        ok := Announce(run, phase, kind, isNew);
        GainedAfter(old(state), written, state, run, kind.UnknownAfterCancel?);
        if ok {
          WrittenThenAnnounced(old(state), written, state, run, phase, scope, kind);
        }
      }
    }

    // The log goes unavailable, and the Run is blocked as far as the Store still takes it.
    method GiveUp(run: RunId, phase: Phase)
      requires Sound() && state.mode.Serving?
      modifies this
      ensures Valid() && past == old(past) && state.unavailable && state.uncertain == old(state).uncertain
      ensures UncertainRuns(state.journal) == UncertainRuns(old(state).journal)
    {
      GoUnavailable();
      if !phase.Startup? {
        NoteTrouble(run, phase);
      }
    }

    // A note in the Store, if it still takes it, that does not make the Run uncertain.
    method NoteTrouble(run: RunId, phase: Phase)
      requires Sound() && !state.mode.Down?
      modifies this
      ensures Sound() && past == old(past) && state == old(state).(journal := state.journal)
      ensures UncertainRuns(state.journal) == UncertainRuns(old(state).journal)
    {
      var noted := StoreWrite(Blocked(run, phase, OtherReason));
      UncertainGrows(old(state).journal, Blocked(run, phase, OtherReason));
    }

    method NoteOpened(name: SegName, isNew: bool) returns (ok: bool)
      requires Valid() && state.mode.Serving?
      modifies this
      ensures Valid() && past == old(past) && state.mode.Serving?
      ensures ok ==> state == old(state).(journal := old(state).journal + OpenEntries(name, isNew))
      ensures state.uncertain == old(state).uncertain
      ensures UncertainRuns(state.journal) == UncertainRuns(old(state).journal)
      ensures reliable ==> ok
    {
      if !isNew || name.phase.Startup? {
        assert state.journal + [] == state.journal;
        return true;
      }
      ok := StoreWrite(Opened(name));
      UncertainGrows(old(state).journal, Opened(name));
    }

    // An unknown result blocks the Run durably before the process remembers it.
    method NoteUnknown(run: RunId, phase: Phase, kind: Kind) returns (ok: bool)
      requires Valid() && state.mode.Serving?
      modifies this
      ensures Valid() && past == old(past) && state.mode.Serving?
      ensures ok ==> state == old(state).(journal := old(state).journal + UnknownEntries(run, phase, kind),
                                          uncertain := old(state).uncertain
                                                       + (if kind.UnknownAfterCancel? then {run} else {}))
      ensures GainsAtMost(old(state), state, run, kind.UnknownAfterCancel?)
      ensures reliable ==> (ok <==> !(kind.UnknownAfterCancel? && phase.Startup?))
    {
      GainsNothing(state, state, run, kind.UnknownAfterCancel?);
      if !kind.UnknownAfterCancel? {
        assert state.journal + [] == state.journal;
        assert state.uncertain + {} == state.uncertain;
        return true;
      }
      if phase.Startup? {
        return false;
      }
      ok := BlockRun(run, phase, UnknownProviderResult);
      EntryBlocks(old(state).journal, Blocked(run, phase, UnknownProviderResult), run, true);
    }

    // A block in the Store, and then in memory.
    method BlockRun(run: RunId, phase: Phase, reason: Reason) returns (ok: bool)
      requires Sound() && !state.mode.Down?
      modifies this
      ensures Sound() && past == old(past)
      ensures state == old(state).(journal := state.journal, uncertain := state.uncertain)
      ensures ok ==> state.journal == old(state).journal + [Blocked(run, phase, reason)]
      ensures ok ==> state.uncertain == old(state).uncertain + {run}
      ensures old(state).uncertain <= state.uncertain <= old(state).uncertain + {run}
      ensures state.journal == old(state).journal || state.journal == old(state).journal + [Blocked(run, phase, reason)]
      ensures reliable ==> ok
    {
      ok := StoreWrite(Blocked(run, phase, reason));
      if ok {
        MarkUncertainRun(run);
      }
    }

    // The Store entries that follow a written record, and the in-memory block.
    method Announce(run: RunId, phase: Phase, kind: Kind, isNew: bool) returns (ok: bool)
      requires Valid() && state.mode.Serving? && (run, phase) in state.segments
      modifies this
      ensures Valid() && state.mode.Serving? && past == old(past)
      ensures ok ==> Announced(old(state), state, run, phase, kind, isNew)
      ensures GainsAtMost(old(state), state, run, kind.UnknownAfterCancel?)
      ensures reliable ==> (ok <==> !(kind.UnknownAfterCancel? && phase.Startup?))
    {
      ok := NoteOpened(state.segments[(run, phase)].name, isNew);
      if ok {
        ok := NoteUnknown(run, phase, kind);
      }
    }

    // --- Sealing ---

    // The Store must account for every answered call of a formal log that disowns none.
    method AllAccounted(run: RunId, seen: Inspection) returns (ok: bool)
      ensures ok <==> (run.Formal? && seen.unreconciled == 0 ==>
                         forall scope :: scope in seen.completed ==> scope in Known(state, run))
    {
      if !run.Formal? || seen.unreconciled > 0 {
        return true;
      }
      var i := 0;
      while i < |seen.completed|
        invariant 0 <= i <= |seen.completed|
        invariant forall j :: 0 <= j < i ==> seen.completed[j] in Known(state, run)
      {
        if (run, seen.completed[i]) !in state.accounted {
          assert seen.completed[i] !in Known(state, run);
          return false;
        }
        assert (run, seen.completed[i]).1 in Known(state, run);
        i := i + 1;
      }
      return true;
    }

    // Creates the temporary archive; an existing one is never reused.
    method CreateTemp(name: SegName) returns (ok: bool)
      requires Sound() && !state.mode.Down? && name in state.inflight && name !in state.published
      requires !IsForeign(state.inflight[name], state.store)
      modifies this
      ensures Sound() && past == old(past)
      ensures ok ==> name !in old(state).temps && state == old(state).(temps := old(state).temps[name := Unfinished])
      ensures !ok ==> state == old(state)
      ensures reliable && name !in old(state).temps ==> ok
    {
      ok := Try();
      if !ok || name in state.temps {
        return false;
      }
      Take(BeginTemp(name));
    }

    // Writes and syncs its content; a failure leaves it unfinished.
    method FillTemp(zip: Zip) returns (ok: bool)
      requires Sound() && !state.mode.Down? && Writable(state, zip)
      requires zip.name in state.temps && state.temps[zip.name].Unfinished?
      modifies this
      ensures Sound() && past == old(past)
      ensures ok ==> state == old(state).(temps := old(state).temps[zip.name := Finished(zip)])
      ensures !ok ==> state == old(state)
      ensures reliable ==> ok
    {
      ok := Try();
      if ok {
        Take(FinishTemp(zip.name, zip));
      }
    }

    method ReadFlow(source: FlowSource) returns (r: Result<seq<Event>, FlowError>)
      requires source.Window? ==> Increasing(source.events)
      ensures r.Success? ==> FlowOf(source, r.value)
      ensures r.Success? <==> Copyable(source)
    {
      match source
      case Inline =>
        return Success([]);
      case Window(events, after, ceiling) =>
        r := WriteFlow(events, after, ceiling, PAGE);
    }

    method CheckSealable(seg: Segment) returns (r: Result<Inspection, Unavailable>)
      requires seg.name in state.inflight
      ensures r.Success? <==> CanSeal(state, seg)
      ensures r.Success? ==> Sealable(state, seg, r.value)
    {
      var scan := InspectSource(state.inflight[seg.name]);
      if scan.Failure? || scan.value.count != seg.count || scan.value.pending != [] {
        return Failure(Unavailable);
      }
      var ok := AllAccounted(seg.name.run, scan.value);
      if !ok {
        return Failure(Unavailable);
      }
      return scan;
    }

    // The archive is created, and its event window copied in.
    method BeginArchive(name: SegName, source: FlowSource) returns (r: Result<seq<Event>, Unavailable>)
      requires Sound() && !state.mode.Down? && name in state.inflight && name !in state.published
      requires !IsForeign(state.inflight[name], state.store)
      requires source.Window? ==> Increasing(source.events)
      modifies this
      ensures Sound() && past == old(past)
      ensures state == old(state).(temps := state.temps)
      ensures SameBut(old(state).temps, state.temps, name)
      ensures r.Success? ==>
                name !in old(state).temps && state == old(state).(temps := old(state).temps[name := Unfinished])
      ensures r.Success? ==> FlowOf(source, r.value)
      ensures r.Success? ==> Copyable(source)
      ensures reliable && name !in old(state).temps && Copyable(source) ==> r.Success?
    {
      var ok := CreateTemp(name);
      if !ok {
        return Failure(Unavailable);
      }
      var flow := ReadFlow(source);
      if flow.Failure? {
        return Failure(Unavailable);
      }
      return Success(flow.value);
    }

    // The archive with its event window is written whole.
    method WriteArchive(zip: Zip, source: FlowSource) returns (r: Result<seq<Event>, Unavailable>)
      requires Sound() && !state.mode.Down? && Writable(state, zip)
      requires source.Window? ==> Increasing(source.events)
      modifies this
      ensures Sound() && past == old(past)
      ensures state == old(state).(temps := state.temps)
      ensures SameBut(old(state).temps, state.temps, zip.name)
      ensures r.Success? ==>
                && zip.name !in old(state).temps && FlowOf(source, r.value)
                && state.temps == old(state).temps[zip.name := Finished(zip.(flow := r.value))]
      ensures r.Success? ==> Copyable(source)
      ensures reliable && zip.name !in old(state).temps && Copyable(source) ==> r.Success?
    {
      r := BeginArchive(zip.name, source);
      if r.Failure? {
        return;
      }
      ghost var begun := state;
      WritableFramed(old(state), begun, zip, r.value);
      var ok := FillTemp(zip.(flow := r.value));
      if !ok {
        return Failure(Unavailable);
      }
      TempReplaced(old(state), begun, state, zip.name, Finished(zip.(flow := r.value)));
    }

    // The finished archive gets its published name; nothing is there to be replaced.
    method LinkTemp(name: SegName)
      requires Sound() && !state.mode.Down? && name in state.temps && state.temps[name].Finished?
      requires name !in state.published && name in state.inflight && !state.inflight[name].torn
      requires state.temps[name].zip.events == state.inflight[name].lines
      modifies this
      ensures Sound() && past == old(past)
      ensures state == old(state).(published := old(state).published[name := old(state).temps[name].zip])
    {
      Take(Link(name));
    }

    method RemoveTemp(name: SegName)
      requires Sound() && !state.mode.Down? && name in state.temps && name in state.published
      requires state.temps[name] == Finished(state.published[name])
      modifies this
      ensures Sound() && past == old(past) && state == old(state).(temps := old(state).temps - {name})
    {
      Take(DropTemp(name));
    }

    // Publication: a link that never replaces an existing archive, then the temporary goes.
    method Publish(seg: Segment) returns (r: Result<Receipt, Unavailable>)
      requires Sound() && !state.mode.Down? && seg.name in state.inflight && !state.inflight[seg.name].torn
      requires seg.name in state.temps && state.temps[seg.name].Finished? && seg.name !in state.published
      modifies this
      ensures Sound() && past == old(past)
      ensures state == old(state).(temps := state.temps, published := state.published)
      ensures SameBut(old(state).temps, state.temps, seg.name)
      ensures r.Success? ==>
                var zip := old(state).temps[seg.name].zip;
                && VerifyPublished(seg, zip, old(state).inflight[seg.name]) == Success(ReceiptOf(zip))
                && r.value == ReceiptOf(zip)
                && state.temps == old(state).temps - {seg.name}
                && state.published == old(state).published[seg.name := zip]
      ensures OnlyAt(old(state).published, state.published, seg.name)
      ensures reliable && VerifyPublished(seg, old(state).temps[seg.name].zip, old(state).inflight[seg.name]).Success? ==>
                r.Success?
    {
      var zip := state.temps[seg.name].zip;
      var file := state.inflight[seg.name];
      FinishedTempMatches(history, seg.name);
      var ok := Try();
      if !ok || VerifyPublished(seg, zip, file).Failure? {
        return Failure(Unavailable);
      }
      LinkTemp(seg.name);
      ok := Try();
      if !ok {
        return Failure(Unavailable);
      }
      RemoveTemp(seg.name);
      ok := Try();
      if !ok {
        return Failure(Unavailable);
      }
      return VerifyPublished(seg, zip, file);
    }

    // Writes and publishes the archive of a segment found sealable.
    method SealScanned(seg: Segment, seen: Inspection, stage: string, eventCursor: int, source: FlowSource)
      returns (r: Result<Receipt, Unavailable>)
      requires Sound() && !state.mode.Down? && seg.name in state.inflight && seg.name !in state.published
      requires !IsForeign(state.inflight[seg.name], state.store)
      requires SegmentFits(seg, state.inflight[seg.name].lines) && Sealable(state, seg, seen)
      requires source.Window? ==> Increasing(source.events)
      modifies this
      ensures Sound() && past == old(past)
      ensures state == old(state).(temps := state.temps, published := state.published)
      ensures SameBut(old(state).temps, state.temps, seg.name)
      ensures r.Success? ==> Sealed(old(state), state, seg, stage, eventCursor, source, r.value)
      ensures OnlyAt(old(state).published, state.published, seg.name)
      ensures r.Success? ==> Copyable(source)
      ensures reliable && Copyable(source) && seg.name !in old(state).temps ==> r.Success?
    {
      var zip := MakeZip(seg, seen, state.inflight[seg.name].lines, stage, eventCursor, []);
      MadeZipSound(state, seg, seen, stage, eventCursor, []);
      var flow := WriteArchive(zip, source);
      if flow.Failure? {
        return Failure(Unavailable);
      }
      MadeZipVerifies(old(state), seg, seen, stage, eventCursor, flow.value);
      ghost var written := state;
      r := Publish(seg);
      if r.Success? {
        MadeZipSeals(old(state), written, state, seg, seen, stage, eventCursor, source, flow.value);
      }
    }

    /**
     Seals a segment into an archive: the scan must agree with the count kept in memory, no
     call may be pending, and the Store must account for the answered ones. Success publishes
     an archive of exactly the plaintext; no plaintext, journal or memory is touched.
     */
    method SealSegment(seg: Segment, stage: string, eventCursor: int, source: FlowSource)
      returns (r: Result<Receipt, Unavailable>)
      requires Sound() && !state.mode.Down? && seg.name in state.inflight && seg.name !in state.published
      requires !IsForeign(state.inflight[seg.name], state.store)
      requires SegmentFits(seg, state.inflight[seg.name].lines)
      requires source.Window? ==> Increasing(source.events)
      modifies this
      ensures Sound() && past == old(past)
      ensures state == old(state).(temps := state.temps, published := state.published)
      ensures SameBut(old(state).temps, state.temps, seg.name)
      ensures r.Success? ==> Sealed(old(state), state, seg, stage, eventCursor, source, r.value)
      ensures !CanSeal(old(state), seg) ==> r.Failure? && state == old(state)
      ensures OnlyAt(old(state).published, state.published, seg.name)
      ensures r.Success? ==> Copyable(source)
      ensures reliable && Copyable(source) && seg.name !in old(state).temps && CanSeal(old(state), seg) ==> r.Success?
    {
      var seen := CheckSealable(seg);
      if seen.Failure? {
        return Failure(Unavailable);
      }
      r := SealScanned(seg, seen.value, stage, eventCursor, source);
    }

    // A segment whose archive is published is forgotten.
    method Forget(key: (RunId, Phase))
      requires Sound() && state.mode.Serving? && key in state.segments
      requires state.segments[key].name in state.published
      requires key == (state.segments[key].name.run, state.segments[key].name.phase)
      modifies this
      ensures Sound() && past == old(past) && state == old(state).(segments := old(state).segments - {key})
    {
      Take(Close(state.segments[key].name));
    }

    // Seals the open segment of a Run and stage, if there is one, and forgets it.
    method SealWithFlow(run: RunId, phase: Phase, stage: string, eventCursor: int, source: FlowSource)
      returns (r: Result<Option<Receipt>, Unavailable>)
      requires Valid() && state.mode.Serving?
      requires source.Window? ==> Increasing(source.events)
      modifies this
      ensures Valid() && past == old(past) && state.mode.Serving?
      ensures state == old(state).(temps := state.temps, published := state.published,
                                   segments := state.segments, unavailable := state.unavailable)
      ensures r.Failure? ==> state.unavailable
      ensures r.Success? ==> !old(state).unavailable
      ensures r.Success? && r.value.None? ==> (run, phase) !in old(state).segments && state == old(state)
      ensures r.Success? && r.value.Some? ==>
                && (run, phase) in old(state).segments
                && var seg := old(state).segments[(run, phase)];
                && seg.name in old(state).inflight && seg.name.run == run && seg.name.phase == phase
                && state.segments == old(state).segments - {(run, phase)}
                && Sealed(old(state), state.(segments := old(state).segments), seg, stage, eventCursor, source,
                          r.value.value)
      ensures !old(state).unavailable && (run, phase) in old(state).segments ==>
                var name := old(state).segments[(run, phase)].name; name.run == run && name.phase == phase
      ensures r.Success? && r.value.Some? ==> OpenSealable(old(state), run, phase) && Copyable(source)
      ensures reliable && OpenSealable(old(state), run, phase) && Copyable(source) ==> r.Success?
    {
      var key := (run, phase);
      if state.unavailable {
        return Failure(Unavailable);
      }
      if key !in state.segments {
        return Success(None);
      }
      var seg := state.segments[key];
      OpenSegmentFits(history, key);
      ghost var before := history;
      var sealed := SealSegment(seg, stage, eventCursor, source);
      if sealed.Failure? {
        GoUnavailable();
        return Failure(Unavailable);
      }
      ClosingKeepsPlain(before, old(state), key, state.published[seg.name]);
      ghost var midway := state;
      Forget(key);
      SealedThenClosed(old(state), midway, state, key, seg, stage, eventCursor, source, sealed.value);
      return Success(Some(sealed.value));
    }

    // --- Confirmation ---

    // The Store entry naming an archive; a failing write may or may not have reached the journal.
    method StoreArchive(name: SegName) returns (ok: bool)
      requires Sound() && !state.mode.Down? && name in state.published && name.run.Formal?
      modifies this
      ensures Sound() && past == old(past)
      ensures var entry := Archived(ReceiptOf(old(state).published[name]));
              && (state == old(state) || state == old(state).(journal := old(state).journal + [entry]))
              && (ok ==> state == old(state).(journal := old(state).journal + [entry]))
      ensures reliable ==> ok
    {
      var lands := Try();
      var reported := Try();
      if lands {
        Take(Archive(name));
      }
      ok := lands && reported;
    }

    // Removes one plaintext, once its archive is found unchanged. The caller has the Store's
    // confirmation for a formal segment, and has blocked a Run whose calls are in doubt.
    method CleanupSource(receipt: Receipt) returns (r: Result<(), Unavailable>)
      requires Sound() && !state.mode.Down?
      requires (receipt.name in state.published && receipt.name in state.inflight
                && Digest(state.published[receipt.name]) == receipt.sha) ==> CanCleanup(state, receipt.name)
      modifies this
      ensures Sound() && past == old(past)
      ensures r.Failure? ==> state == old(state)
      ensures r.Success? ==>
                && receipt.name in old(state).published && Digest(old(state).published[receipt.name]) == receipt.sha
                && receipt.name in old(state).inflight
                && state == old(state).(inflight := old(state).inflight - {receipt.name})
      ensures reliable && Removable(old(state), receipt) ==> r.Success?
    {
      var readable := Try();
      if !readable || receipt.name !in state.published || Digest(state.published[receipt.name]) != receipt.sha
         || receipt.name !in state.inflight
      {
        return Failure(Unavailable);
      }
      Take(Cleanup(receipt.name));
      return Success(());
    }

    // A startup probe has no Run in the Store; its own archive is the only receipt it needs.
    method ConfirmStartup(receipt: Receipt) returns (r: Result<(), Unavailable>)
      requires Sound() && !state.mode.Down?
      modifies this
      ensures Sound() && past == old(past)
      ensures r.Failure? ==> state == old(state)
      ensures r.Success? ==> receipt.name.phase.Startup? && receipt.name.run.CoreStartup?
      ensures r.Success? ==> state == old(state).(inflight := old(state).inflight - {receipt.name})
      ensures reliable && Removable(old(state), receipt) ==>
                (receipt.name.phase.Startup? && receipt.name.run.CoreStartup? ==> r.Success?)
    {
      if !receipt.name.phase.Startup? || !receipt.name.run.CoreStartup? {
        return Failure(Unavailable);
      }
      r := CleanupSource(receipt);
    }

    /**
     Removes a formal plaintext only if the Store has an archive entry with the receipt's very
     name and digest, and the archive on disk still has that digest.
     */
    method ConfirmAfterStore(receipt: Receipt) returns (r: Result<(), Unavailable>)
      requires Sound() && !state.mode.Down?
      requires state.mode.Recovering? && receipt.name in state.inflight && DoubtfulFile(state, receipt.name) ==>
                 receipt.name.run in UncertainRuns(state.journal) && receipt.name.run in state.uncertain
      modifies this
      ensures Sound() && past == old(past)
      ensures r.Failure? ==> state == old(state)
      ensures r.Success? ==>
                && Confirmed(old(state).journal, receipt.name, receipt.sha)
                && receipt.name in state.published && Digest(state.published[receipt.name]) == receipt.sha
                && receipt.name in old(state).inflight
                && state == old(state).(inflight := old(state).inflight - {receipt.name})
      ensures reliable && Removable(old(state), receipt) && !receipt.name.phase.Startup? ==>
                (Confirmed(old(state).journal, receipt.name, receipt.sha) ==> r.Success?)
    {
      if receipt.name.phase.Startup? || !Confirmed(state.journal, receipt.name, receipt.sha) {
        return Failure(Unavailable);
      }
      if state.mode.Serving? && receipt.name in state.inflight && receipt.name in state.published
         && Digest(state.published[receipt.name]) == receipt.sha
      {
        assert DoubtfulFile(state, receipt.name) ==> receipt.name.run in UncertainRuns(state.journal) by {
          if DoubtfulFile(state, receipt.name) {
            ServingDoubtOnRecord(history, receipt.name);
          }
        }
      }
      r := CleanupSource(receipt);
    }

    // Where the event window of the open segment starts; an error without one.
    method FlowAfterOf(run: RunId, phase: Phase) returns (r: Result<int, Unavailable>)
      ensures r.Success? <==> (run, phase) in state.segments
      ensures r.Success? ==> r.value == FlowAfter(state.segments[(run, phase)])
    {
      if (run, phase) !in state.segments {
        return Failure(Unavailable);
      }
      return Success(FlowAfter(state.segments[(run, phase)]));
    }

    // Seals the open segment of a formal stage with its event window; a failure is noted in the Store.
    method SealStage(run: RunId, phase: Phase, stage: string, events: seq<Event>, ceiling: int)
      returns (r: Result<Receipt, Unavailable>)
      requires Valid() && state.mode.Serving? && run.Formal? && !phase.Startup? && Increasing(events)
      modifies this
      ensures Valid() && past == old(past)
      ensures (run, phase) !in old(state).segments ==> r.Failure? && state == old(state)
      ensures r.Failure? && (run, phase) in old(state).segments ==> state.unavailable
      ensures UncertainRuns(state.journal) == UncertainRuns(old(state).journal)
      ensures state.uncertain == old(state).uncertain
      ensures r.Success? ==>
                && state.mode.Serving? && SealedOpen(old(state), state, run, phase, stage, events, ceiling, r.value)
                && state.segments == old(state).segments - {(run, phase)}
                && state.journal == old(state).journal
      ensures r.Success? ==> StageSealable(old(state), run, phase, events, ceiling)
      ensures reliable && StageSealable(old(state), run, phase, events, ceiling) ==> r.Success?
    {
      var after := FlowAfterOf(run, phase);
      if after.Failure? {
        return Failure(Unavailable);
      }
      var source := FlowSource.Window(events, after.value, ceiling);
      var sealed := SealWithFlow(run, phase, stage, ceiling, source);
      if sealed.Failure? {
        NoteTrouble(run, phase);
        return Failure(Unavailable);
      }
      return Success(sealed.value.value);
    }

    /**
     Archives one formal stage at its end: seal, have the Store confirm, remove the plaintext.
     Without an open segment nothing happens but an error. Otherwise success leaves the lines in
     a published archive that the Store names, with exactly the Run's events from the segment's
     start to the ceiling, and any failure leaves the log unavailable. Only an archive with a
     call given up or disowned makes the Run uncertain. Where I/O works, it succeeds exactly if
     the segment can be sealed and its window copied.
     */
    method ArchiveOne(run: RunId, phase: Phase, stage: string, events: seq<Event>, ceiling: int)
      returns (r: Result<(), Unavailable>)
      requires Valid() && state.mode.Serving? && run.Formal? && !phase.Startup? && Increasing(events)
      modifies this
      ensures Valid() && past == old(past)
      ensures (run, phase) !in old(state).segments ==> r.Failure? && state == old(state)
      ensures r.Failure? && (run, phase) in old(state).segments ==> state.unavailable
      ensures r.Success? ==>
                && (run, phase) in old(state).segments
                && var seg := old(state).segments[(run, phase)];
                && state.segments == old(state).segments - {(run, phase)}
                && seg.name.run == run && seg.name.phase == phase
                && StageArchived(old(state), state, seg, stage, events, ceiling)
      ensures r.Success? ==>
                UncertainRuns(state.journal) == UncertainRuns(old(state).journal)
                                                + (if OpenLogTells(old(state), run, phase) then {run} else {})
      ensures GainsAtMost(old(state), state, run, OpenLogTells(old(state), run, phase))
      ensures r.Success? ==> StageSealable(old(state), run, phase, events, ceiling)
      ensures reliable && StageSealable(old(state), run, phase, events, ceiling) ==> r.Success?
    {
      var sealed := SealStage(run, phase, stage, events, ceiling);
      if sealed.Failure? {
        return Failure(Unavailable);
      }
      r := ConfirmStage(sealed.value, old(state), run, phase, stage, events, ceiling);
    }

    // A sealed stage is confirmed and its plaintext removed, or the log goes unavailable.
    method ConfirmStage(receipt: Receipt, ghost start: State, ghost run: RunId, ghost phase: Phase, ghost stage: string,
        ghost events: seq<Event>, ghost ceiling: int) returns (r: Result<(), Unavailable>)
      requires Valid() && state.mode.Serving? && run.Formal? && !phase.Startup?
      requires SealedOpen(start, state, run, phase, stage, events, ceiling, receipt)
      requires state.journal == start.journal && state.uncertain == start.uncertain
      modifies this
      ensures Valid() && past == old(past)
      ensures r.Failure? ==> state.unavailable
      ensures r.Success? ==>
                && state.segments == old(state).segments
                && StageArchived(start, state, start.segments[(run, phase)], stage, events, ceiling)
                && UncertainRuns(state.journal) == UncertainRuns(start.journal)
                                                   + (if OpenLogTells(start, run, phase) then {run} else {})
      ensures GainsAtMost(start, state, run, OpenLogTells(start, run, phase))
      ensures reliable ==> r.Success?
    {
      r := StoreAndConfirm(receipt);
      ArchivedGains(start, old(state), state, run, phase, stage, events, ceiling, receipt);
      if r.Success? {
        StageAtLast(start, old(state), state, start.segments[(run, phase)], stage, events, ceiling, receipt);
      } else {
        GoUnavailable();
      }
    }

    // The Store's confirmation of a sealed archive, and then the removal of its plaintext.
    method StoreAndConfirm(receipt: Receipt) returns (r: Result<(), Unavailable>)
      requires Valid() && state.mode.Serving? && receipt.name in state.published && receipt.name.run.Formal?
      requires receipt == ReceiptOf(state.published[receipt.name])
      modifies this
      ensures Valid() && past == old(past) && state.mode.Serving?
      ensures r.Success? ==>
                && state == old(state).(journal := old(state).journal + [Archived(receipt)],
                                        inflight := old(state).inflight - {receipt.name})
                && Confirmed(state.journal, receipt.name, receipt.sha)
      ensures state.journal == old(state).journal || state.journal == old(state).journal + [Archived(receipt)]
      ensures state.uncertain == old(state).uncertain
      ensures reliable && receipt.name in old(state).inflight && !receipt.name.phase.Startup? ==> r.Success?
    {
      var ok := StoreArchive(receipt.name);
      JustConfirmed(old(state).journal, receipt);
      if ok {
        r := ConfirmAfterStore(receipt);
      } else {
        r := Failure(Unavailable);
      }
      ConfirmingKeepsPlain(old(state), state, receipt.name);
    }

    // --- Recovery ---

    method CollectUnaccounted(name: SegName, completed: seq<Scope>) returns (left: seq<Scope>)
      ensures left == Unaccounted(name.phase, completed, Known(state, name.run))
    {
      left := [];
      var i := 0;
      while i < |completed| && !name.phase.Startup?
        invariant 0 <= i <= |completed|
        invariant left == Unaccounted(name.phase, completed[..i], Known(state, name.run))
      {
        var scope := completed[i];
        assert scope in Known(state, name.run) <==> (name.run, scope) in state.accounted by {
          if (name.run, scope) in state.accounted {
            assert (name.run, scope).1 in Known(state, name.run);
          }
        }
        UnaccountedSplit(name.phase, completed[..i], [scope], Known(state, name.run));
        assert completed[..i + 1] == completed[..i] + [scope];
        if (name.run, scope) !in state.accounted {
          left := left + [scope];
        }
        i := i + 1;
      }
      assert completed[..|completed|] == completed;
    }

    method AppendRecovery(name: SegName, line: Line) returns (ok: bool)
      requires Sound() && state.mode.Recovering? && CanAppend(state, name, line)
      modifies this
      ensures Sound() && state.mode.Recovering? && past == old(past)
      ensures state == old(state).(inflight := state.inflight)
      ensures name in state.inflight && state.inflight == old(state).inflight[name := state.inflight[name]]
      ensures var file := old(state).inflight[name];
              ok ==> state.inflight[name] == File(file.lines + [line], false)
      ensures reliable ==> ok
    {
      ok := Try();
      if ok {
        Take(Append(name, line));
      } else {
        var left: Leftover := *;
        Take(AppendFails(name, line, left));
      }
    }

    // Appends one record per scope under the log's own identity.
    method MarkScopes(name: SegName, kind: Kind, scopes: seq<Scope>) returns (ok: bool)
      requires Sound() && state.mode.Recovering? && LogIsOpen(state, name)
      requires kind.UnknownAfterCrash? || kind.UnreconciledAfterCrash?
      modifies this
      ensures Sound() && state.mode.Recovering? && past == old(past)
      ensures state == old(state).(inflight := state.inflight)
      ensures name in state.inflight && state.inflight == old(state).inflight[name := state.inflight[name]]
      ensures ok ==>
                var lines := old(state).inflight[name].lines;
                state.inflight[name] == File(lines + Mark(lines[0].origin, lines[0].cursor, kind, scopes), false)
      ensures reliable ==> ok
    {
      var first := state.inflight[name].lines[0];
      ghost var lines := state.inflight[name].lines;
      NothingMarked(lines, first, kind, scopes);
      var i := 0;
      while i < |scopes|
        invariant 0 <= i <= |scopes|
        invariant Sound() && state.mode.Recovering? && past == old(past)
        invariant state == old(state).(inflight := state.inflight)
        invariant name in state.inflight && state.inflight == old(state).inflight[name := state.inflight[name]]
        invariant state.inflight[name] == File(lines + Mark(first.origin, first.cursor, kind, scopes[..i]), false)
      {
        var line := Line(first.origin, first.cursor, scopes[i], kind);
        OneMoreMark(lines, first, kind, scopes, i);
        ok := AppendRecovery(name, line);
        if !ok {
          return false;
        }
        i := i + 1;
      }
      assert scopes[..|scopes|] == scopes;
      return true;
    }

    // Closes an unarchived log: pending requests become unknown, unaccounted answers disowned.
    method CloseLog(name: SegName, seen: Inspection, unaccounted: seq<Scope>) returns (ok: bool)
      requires Sound() && state.mode.Recovering? && LogIsOpen(state, name)
      requires Scan(state.inflight[name].lines) == Success(seen)
      requires state.inflight[name].lines[0].origin.phase == name.phase
      requires unaccounted == Unaccounted(name.phase, seen.completed, Known(state, name.run))
      modifies this
      ensures Sound() && state.mode.Recovering? && past == old(past)
      ensures state == old(state).(inflight := state.inflight)
      ensures name in state.inflight && state.inflight == old(state).inflight[name := state.inflight[name]]
      ensures ok ==>
                var lines := old(state).inflight[name].lines;
                state.inflight[name] == File(lines + ClosingLines(lines, Known(old(state), name.run)), false)
      ensures reliable ==> ok
    {
      ghost var lines := state.inflight[name].lines;
      ok := MarkScopes(name, UnknownAfterCrash, seen.pending);
      if ok {
        ghost var unknowns := Mark(lines[0].origin, lines[0].cursor, UnknownAfterCrash, seen.pending);
        ClosedStaysOurs(old(state).inflight[name], lines + unknowns, state.store);
        ok := MarkScopes(name, UnreconciledAfterCrash, Unmarked(unaccounted, seen.marked));
        ClosingJoins(lines, seen, Known(old(state), name.run));
      }
    }

    // Seals a log that has just been closed.
    method SealClosed(name: SegName, found: seq<Line>, ghost start: State, seen: Inspection, unaccounted: seq<Scope>,
        events: seq<Event>, ceiling: int) returns (r: Result<Receipt, Unavailable>)
      requires Sound() && state.mode.Recovering? && Increasing(events) && ClosedFrom(start, state, name, seen)
      requires found == start.inflight[name].lines
      requires unaccounted == Unaccounted(name.phase, seen.completed, Known(start, name.run))
      modifies this
      ensures Sound() && past == old(past)
      ensures state == old(state).(temps := state.temps, published := state.published)
      ensures SameBut(old(state).temps, state.temps, name)
      ensures OnlyAt(old(state).published, state.published, name)
      ensures r.Success? ==> Obtained(start, state, name, r.value)
      ensures r.Success? ==> name in state.published && MadeNow(start, state.published[name], name, events, ceiling)
      ensures r.Success? ==> Closable(start, name, seen, events, ceiling)
      ensures reliable && Closable(start, name, seen, events, ceiling) ==> r.Success?
      ensures !Disownable(start, name, seen) ==> r.Failure? && state == old(state)
    {
      var seg := ClosedSegment(name, found, state.inflight[name].lines, state.journal);
      var source := SourceOf(seg, events, ceiling);
      ClosedSeals(start, state, name, seen, events, ceiling);
      var cursor := if name.phase.Startup? then 0 else ceiling;
      var stage := InterruptedStage(seen, unaccounted);
      r := SealSegment(seg, stage, cursor, source);
      if r.Success? {
        SealedObtained(start, old(state), state, name, seen, stage, cursor, source, r.value);
        SealedNow(start, old(state), state, name, seen, events, ceiling, r.value);
      }
    }

    // The archive for a leftover log that has none yet: the log is closed and sealed.
    method CloseAndSeal(name: SegName, seen: Inspection, unaccounted: seq<Scope>, events: seq<Event>, ceiling: int)
      returns (r: Result<Receipt, Unavailable>)
      requires Sound() && state.mode.Recovering? && LogIsOpen(state, name) && Increasing(events)
      requires Inspect(state.inflight[name]) == Success(seen) && FiledUnder(name, state.inflight[name].lines)
      requires unaccounted == Unaccounted(name.phase, seen.completed, Known(state, name.run))
      modifies this
      ensures Sound() && past == old(past) && state.mode.Recovering?
      ensures state == old(state).(inflight := state.inflight, temps := state.temps, published := state.published)
      ensures SameBut(old(state).temps, state.temps, name)
      ensures name in state.inflight && state.inflight == old(state).inflight[name := state.inflight[name]]
      ensures OnlyAt(old(state).published, state.published, name)
      ensures r.Success? ==> Obtained(old(state), state, name, r.value)
      ensures r.Success? ==> name in state.published && MadeNow(old(state), state.published[name], name, events, ceiling)
      ensures r.Success? ==> Closable(old(state), name, seen, events, ceiling)
      ensures reliable && Closable(old(state), name, seen, events, ceiling) ==> r.Success?
      ensures reliable && !Disownable(old(state), name, seen) ==>
                r.Failure? && Inspect(state.inflight[name]).Failure? && !IsForeign(state.inflight[name], state.store)
    {
      var found := state.inflight[name].lines;
      var ok := CloseLog(name, seen, unaccounted);
      if !ok {
        return Failure(Unavailable);
      }
      ClosedStaysOurs(old(state).inflight[name], state.inflight[name].lines, state.store);
      ClosedIsSealable(old(state), state, name, seen);
      r := SealClosed(name, found, old(state), seen, unaccounted, events, ceiling);
    }

    // Publishes the temporary archive of a leftover log, if it was finished.
    method PublishLeftover(name: SegName, ghost events: seq<Event>, ghost ceiling: int)
      returns (r: Result<Receipt, Unavailable>)
      requires Sound() && state.mode.Recovering? && name in state.inflight && Inspect(state.inflight[name]).Success?
      requires name in state.temps && name !in state.published
      modifies this
      ensures Sound() && past == old(past)
      ensures state == old(state).(temps := state.temps, published := state.published)
      ensures SameBut(old(state).temps, state.temps, name)
      ensures OnlyAt(old(state).published, state.published, name)
      ensures r.Success? ==> Obtained(old(state), state, name, r.value)
      ensures r.Success? ==> name in state.published && old(state).temps[name] == Finished(state.published[name])
      ensures r.Success? ==> Archivable(old(state), name, events, ceiling)
      ensures reliable && Archivable(old(state), name, events, ceiling) ==> r.Success?
    {
      if state.temps[name].Unfinished? {
        return Failure(Unavailable);
      }
      r := Publish(RecoveredSegment(name, state.inflight[name].lines, state.journal));
      if r.Success? {
        TempObtained(old(state), state, name);
      }
    }

    // The archive for a leftover log: the published one, the complete temporary one, or a new one.
    method ObtainArchive(name: SegName, seen: Inspection, unaccounted: seq<Scope>, events: seq<Event>, ceiling: int)
      returns (r: Result<Receipt, Unavailable>)
      requires Sound() && state.mode.Recovering? && name in state.inflight && Increasing(events)
      requires !IsForeign(state.inflight[name], state.store)
      requires Inspect(state.inflight[name]) == Success(seen)
      requires WellFiled(name, state.inflight[name])
      requires unaccounted == Unaccounted(name.phase, seen.completed, Known(state, name.run))
      modifies this
      ensures Sound() && past == old(past) && state.mode.Recovering?
      ensures state == old(state).(inflight := state.inflight, temps := state.temps, published := state.published)
      ensures Concerns(old(state), state, name)
      ensures r.Success? ==> Obtained(old(state), state, name, r.value)
      ensures r.Success? ==> name in state.published && ArchiveFrom(old(state), state, name, events, ceiling)
      ensures r.Success? ==> Archivable(old(state), name, events, ceiling)
      ensures reliable && Archivable(old(state), name, events, ceiling) ==> r.Success?
      ensures name in old(state).published ==> state == old(state)
      ensures reliable && Unnameable(old(state), name) ==> r.Failure? && Stuck(state, name)
    {
      if name in state.published {
        var file := state.inflight[name];
        r := VerifyPublished(RecoveredSegment(name, file.lines, state.journal), state.published[name], file);
        PublishedObtained(state, name);
      } else if name in state.temps {
        r := PublishLeftover(name, events, ceiling);
      } else {
        r := CloseAndSeal(name, seen, unaccounted, events, ceiling);
      }
      FilesConcern(old(state), state, name);
    }

    // The archive entry, unless the Store already has one for this segment.
    method NoteArchive(receipt: Receipt) returns (ok: bool)
      requires Sound() && state.mode.Recovering? && receipt.name.run.Formal?
      requires receipt.name in state.published && receipt == ReceiptOf(state.published[receipt.name])
      modifies this
      ensures Sound() && past == old(past)
      ensures state == old(state).(journal := state.journal)
      ensures ok ==> state.journal == old(state).journal + ArchiveEntries(old(state).journal, receipt)
      ensures || state.journal == old(state).journal
              || (!NamesSegment(old(state).journal, receipt.name) && state.journal == old(state).journal + [Archived(receipt)])
      ensures JournalAbout(old(state).journal, state.journal, receipt.name)
      ensures reliable ==> ok
    {
      if NamesSegment(state.journal, receipt.name) {
        assert state.journal + [] == state.journal;
        return true;
      }
      ok := StoreArchive(receipt.name);
    }

    // The block, unless the Store already had one with this reason; then the memory of it.
    method NoteBlock(run: RunId, phase: Phase, reason: Reason, prior: seq<Status>) returns (ok: bool)
      requires Sound() && state.mode.Recovering?
      modifies this
      ensures Sound() && past == old(past)
      ensures state == old(state).(journal := state.journal, uncertain := state.uncertain)
      ensures ok ==> state.journal == old(state).journal + BlockEntries(prior, run, phase, reason)
      ensures ok ==> state.uncertain == old(state).uncertain + {run}
      ensures forall name :: JournalAbout(old(state).journal, state.journal, name)
      ensures || state.journal == old(state).journal
              || (!HasBlock(prior, run, reason) && state.journal == old(state).journal + [Blocked(run, phase, reason)])
      ensures old(state).uncertain <= state.uncertain <= old(state).uncertain + {run}
      ensures reliable ==> ok
    {
      if HasBlock(prior, run, reason) {
        assert state.journal + [] == state.journal;
        ok := true;
        MarkUncertainRun(run);
      } else {
        ok := BlockRun(run, phase, reason);
      }
      BlockNamesNoArchive(old(state).journal, state.journal, Blocked(run, phase, reason));
    }

    /**
     The Store entries for a recovered archive: the archive itself, then the block if a call is
     in doubt, each only if the Store does not have it yet; only then does the process remember
     the block.
     */
    method RegisterArchive(receipt: Receipt, unaccounted: seq<Scope>) returns (ok: bool)
      requires Sound() && state.mode.Recovering? && receipt.name.run.Formal?
      requires receipt.name in state.published && receipt == ReceiptOf(state.published[receipt.name])
      modifies this
      ensures Sound() && past == old(past)
      ensures state == old(state).(journal := state.journal, uncertain := state.uncertain)
      ensures ok ==> state.journal == old(state).journal + RegisterEntries(old(state).journal, receipt, unaccounted)
      ensures ok ==>
                state.uncertain == old(state).uncertain
                                   + if BlockReason(receipt.integrity, unaccounted).Some? then {receipt.name.run} else {}
      ensures JournalAbout(old(state).journal, state.journal, receipt.name)
      ensures Registers(old(state), state, receipt.name.run, BlockReason(receipt.integrity, unaccounted).Some?)
      ensures reliable ==> ok
    {
      var prior := state.journal;
      ok := NoteArchive(receipt);
      RegistersArchive(old(state), state, receipt, unaccounted);
      if !ok {
        return;
      }
      ghost var named := state;
      var reason := BlockReason(receipt.integrity, unaccounted);
      if reason.Some? {
        ok := NoteBlock(receipt.name.run, receipt.name.phase, reason.value, prior);
        RegistersBlock(old(state), named, state, receipt, unaccounted);
        JournalAboutTransitive(prior, prior + ArchiveEntries(prior, receipt), state.journal, receipt.name);
        assert prior + ArchiveEntries(prior, receipt) + BlockEntries(prior, receipt.name.run, receipt.name.phase, reason.value)
            == prior + (ArchiveEntries(prior, receipt) + BlockEntries(prior, receipt.name.run, receipt.name.phase, reason.value));
      } else {
        assert ArchiveEntries(prior, receipt) + [] == ArchiveEntries(prior, receipt);
        assert state.uncertain + {} == state.uncertain;
      }
    }

    // What a leftover plaintext holds and which of its answers are unaccounted; nothing for
    // another Store's log.
    method ReadLeftover(name: SegName) returns (r: Result<Option<(Inspection, seq<Scope>)>, Unavailable>)
      requires name in state.inflight
      ensures r.Success? <==>
                && WellFiled(name, state.inflight[name])
                && (IsForeign(state.inflight[name], state.store) || Inspect(state.inflight[name]).Success?)
      ensures r.Success? ==> (r.value.None? <==> IsForeign(state.inflight[name], state.store))
      ensures r.Success? && r.value.Some? ==>
                && Inspect(state.inflight[name]) == Success(r.value.value.0)
                && r.value.value.1 == Unaccounted(name.phase, r.value.value.0.completed, Known(state, name.run))
    {
      var file := state.inflight[name];
      if !WellFiled(name, file) {
        return Failure(Unavailable);
      }
      if IsForeign(file, state.store) {
        return Success(None);
      }
      var scan := InspectSource(file);
      if scan.Failure? {
        return Failure(Unavailable);
      }
      var unaccounted := CollectUnaccounted(name, scan.value.completed);
      return Success(Some((scan.value, unaccounted)));
    }

    // The Store entries of a recovered formal archive; a Run in doubt is then blocked.
    method RegisterFormal(receipt: Receipt, unaccounted: seq<Scope>) returns (ok: bool)
      requires Sound() && state.mode.Recovering? && receipt.name.run.Formal?
      requires receipt.name in state.published && receipt == ReceiptOf(state.published[receipt.name])
      modifies this
      ensures Sound() && past == old(past)
      ensures state == old(state).(journal := state.journal, uncertain := state.uncertain)
      ensures JournalAbout(old(state).journal, state.journal, receipt.name)
      ensures Registers(old(state), state, receipt.name.run, HasReason(receipt, unaccounted))
      ensures ok ==> Registered(old(state), state, receipt, unaccounted)
      ensures ok ==> (Registrable(old(state).journal, receipt.name) <==>
                      Confirmed(state.journal, receipt.name, receipt.sha))
      ensures reliable ==> ok
    {
      ok := RegisterArchive(receipt, unaccounted);
      if ok {
        JournalIsTrue(old(history));
        RegisteredConfirms(old(state), receipt, unaccounted);
        RegisteredGains(old(state).journal, receipt, unaccounted);
        RegisteredReason(old(state).journal, receipt, unaccounted);
      }
    }

    // The removal of a recovered plaintext.
    method Confirm(receipt: Receipt) returns (ok: bool)
      requires Sound() && state.mode.Recovering? && receipt.name in state.inflight
      requires receipt.name in state.published && receipt == ReceiptOf(state.published[receipt.name])
      requires receipt.name.phase.Startup? <==> receipt.name.run.CoreStartup?
      requires DoubtfulFile(state, receipt.name) ==>
                 receipt.name.run in UncertainRuns(state.journal) && receipt.name.run in state.uncertain
      modifies this
      ensures Sound() && past == old(past)
      ensures state == old(state).(inflight := state.inflight)
      ensures state.inflight == if ok then old(state).inflight - {receipt.name} else old(state).inflight
      ensures ok && receipt.name.run.Formal? ==> Confirmed(old(state).journal, receipt.name, receipt.sha)
      ensures reliable && (receipt.name.run.Formal? ==> Confirmed(old(state).journal, receipt.name, receipt.sha)) ==> ok
    {
      var confirmed;
      if receipt.name.phase.Startup? {
        confirmed := ConfirmStartup(receipt);
      } else {
        confirmed := ConfirmAfterStore(receipt);
      }
      ok := confirmed.Success?;
    }

    // The Store entries of a recovered archive, and then the removal of its plaintext.
    method RegisterAndConfirm(receipt: Receipt, unaccounted: seq<Scope>) returns (ok: bool)
      requires Sound() && state.mode.Recovering?
      requires receipt.name in state.published && receipt == ReceiptOf(state.published[receipt.name])
      requires receipt.name in state.inflight
      requires receipt.name.phase.Startup? <==> receipt.name.run.CoreStartup?
      requires DoubtfulFile(state, receipt.name) ==> HasReason(receipt, unaccounted)
      modifies this
      ensures Sound() && past == old(past) && state.mode.Recovering?
      ensures state == old(state).(journal := state.journal, uncertain := state.uncertain, inflight := state.inflight)
      ensures JournalAbout(old(state).journal, state.journal, receipt.name)
      ensures state.inflight == if ok then old(state).inflight - {receipt.name} else old(state).inflight
      ensures Registers(old(state), state, receipt.name.run, HasReason(receipt, unaccounted))
      ensures ok ==> Registered(old(state), state, receipt, unaccounted)
      ensures ok ==> Registrable(old(state).journal, receipt.name)
      ensures ok && receipt.name.run.Formal? ==> Confirmed(state.journal, receipt.name, receipt.sha)
      ensures reliable && Registrable(old(state).journal, receipt.name) ==> ok
    {
      ok := true;
      if receipt.name.run.Formal? {
        ok := RegisterFormal(receipt, unaccounted);
        if !ok {
          return;
        }
      } else {
        NotRegistered(old(state), state, receipt, unaccounted);
      }
      DoubtFramed(old(state), state, receipt.name);
      ok := Confirm(receipt);
    }

    // The last part of recovering a leftover: its archive is there, but not yet in the Store.
    method FinishRecovery(name: SegName, receipt: Receipt, ghost start: State, ghost seen: Inspection,
        unaccounted: seq<Scope>) returns (ok: bool)
      requires Sound() && state.mode.Recovering? && name in start.inflight && WellFiled(name, start.inflight[name])
      requires !IsForeign(start.inflight[name], start.store) && Inspect(start.inflight[name]) == Success(seen)
      requires unaccounted == Unaccounted(name.phase, seen.completed, Known(start, name.run))
      requires state == start.(inflight := state.inflight, temps := state.temps, published := state.published)
      requires Obtained(start, state, name, receipt) && Concerns(start, state, name)
      modifies this
      ensures Sound() && past == old(past) && state.mode.Recovering?
      ensures ok ==> Recovered(start, state, name) && BlocksExactly(start, state, name)
      ensures ok ==> Gains(start, state, name.run, DoubtfulFile(start, name))
      ensures Registers(start, state, name.run, DoubtfulFile(start, name)) && state.published == old(state).published
      ensures Concerns(start, state, name)
      ensures ok ==> Registrable(start.journal, name)
      ensures reliable && Registrable(start.journal, name) ==> ok
    {
      ObtainedName(history, name, receipt);
      ReadyToRegister(start, state, name, receipt, seen, unaccounted);
      ok := RegisterAndConfirm(receipt, unaccounted);
      ConcernsAtLast(start, old(state), state, name);
      RegistersSince(start, old(state), state, name.run, DoubtfulFile(start, name));
      if ok {
        FinishedExactly(start, old(state), state, name, receipt, seen, unaccounted);
      }
    }

    // Recovers a readable leftover of this Store.
    method RecoverOwn(name: SegName, seen: Inspection, unaccounted: seq<Scope>, events: seq<Event>, ceiling: int)
      returns (ok: bool)
      requires Sound() && state.mode.Recovering? && name in state.inflight && Increasing(events)
      requires WellFiled(name, state.inflight[name]) && !IsForeign(state.inflight[name], state.store)
      requires Inspect(state.inflight[name]) == Success(seen)
      requires unaccounted == Unaccounted(name.phase, seen.completed, Known(state, name.run))
      modifies this
      ensures Sound() && past == old(past) && state.mode.Recovering?
      ensures ok ==> Recovered(old(state), state, name) && BlocksExactly(old(state), state, name)
      ensures ok ==> ArchiveFrom(old(state), state, name, events, ceiling)
      ensures ok ==> Gains(old(state), state, name.run, DoubtfulFile(old(state), name))
      ensures Registers(old(state), state, name.run, DoubtfulFile(old(state), name))
      ensures ok ==> Archivable(old(state), name, events, ceiling) && Registrable(old(state).journal, name)
      ensures reliable && Archivable(old(state), name, events, ceiling) && Registrable(old(state).journal, name) ==> ok
      ensures Concerns(old(state), state, name)
      ensures name in old(state).published && !Archivable(old(state), name, events, ceiling) ==> state == old(state)
      ensures reliable && Unnameable(old(state), name) ==> !ok && Stuck(state, name)
    {
      var receipt := ObtainArchive(name, seen, unaccounted, events, ceiling);
      if receipt.Failure? {
        RegistersNothing(old(state), state, name.run, DoubtfulFile(old(state), name));
        return false;
      }
      ok := FinishRecovery(name, receipt.value, old(state), seen, unaccounted);
    }

    /**
     Recovers one leftover plaintext. Another Store's log is left untouched. Otherwise success
     means its lines, closed if no archive had been finished, are in a published archive, the
     plaintext is gone, and its Run is blocked, durably and in memory, exactly if a call of it is
     in doubt. It succeeds only on a recoverable leftover, and on every one if the I/O works; a stuck one is
     left as it is; and one whose calls cannot be disowned by name is made unreadable.
     */
    method RecoverFile(name: SegName, events: seq<Event>, ceiling: int)
      returns (r: Result<bool, Unavailable>)
      requires Sound() && state.mode.Recovering? && name in state.inflight && Increasing(events)
      modifies this
      ensures Sound() && past == old(past) && state.mode.Recovering?
      ensures r.Success? ==> (r.value <==> !IsForeign(old(state).inflight[name], old(state).store))
      ensures r.Success? && !r.value ==> state == old(state)
      ensures r.Success? ==> (r.value <==> TakenAsOwn(old(state).inflight[name].lines, name, old(state).store))
      ensures r.Success? && r.value ==>
                && Recovered(old(state), state, name) && BlocksExactly(old(state), state, name)
                && ArchiveFrom(old(state), state, name, events, ceiling)
      ensures r.Success? ==> Gains(old(state), state, name.run, DoubtfulFile(old(state), name))
      ensures Registers(old(state), state, name.run, DoubtfulFile(old(state), name))
      ensures r.Success? ==> Recoverable(old(state), name, events, ceiling)
      ensures reliable && Recoverable(old(state), name, events, ceiling) ==> r.Success?
      ensures Concerns(old(state), state, name) && (Stuck(old(state), name) ==> state == old(state))
      ensures reliable && Unnameable(old(state), name) ==> r.Failure? && Stuck(state, name)
    {
      var leftover := ReadLeftover(name);
      RegistersNothing(state, state, name.run, DoubtfulFile(state, name));
      if leftover.Failure? {
        return Failure(Unavailable);
      }
      if leftover.value.None? {
        return Success(false);
      }
      var (seen, unaccounted) := leftover.value.value;
      RecoverableOwn(state, name, events, ceiling);
      if Stuck(state, name) {
        StuckNotArchivable(state, name, events, ceiling);
      }
      var ok := RecoverOwn(name, seen, unaccounted, events, ceiling);
      return if ok then Success(true) else Failure(Unavailable);
    }

    // The process dies: memory is lost, and the Runs in doubt on disk go down in history.
    method Restart()
      requires Sound()
      modifies this
      ensures Valid() && state.mode.Down?
      ensures state == old(state).(mode := Down, segments := map[], unavailable := false, uncertain := {})
      ensures past == old(past).(tainted := old(past).tainted + InDoubt(old(state)))
    {
      Take(Crash);
    }

    // Recovers one more of the leftover plaintexts, with the Store's events of its Run as then frozen.
    method RecoverNext(name: SegName, frozen: SegName -> Frozen, ghost start: State, ghost todo: set<SegName>)
      returns (r: Result<bool, Unavailable>)
      requires Sound() && state.mode.Recovering? && name in todo && Increasing(frozen(name).events)
      requires Progress(start, state, todo, frozen)
      modifies this
      ensures Sound() && past == old(past) && state.mode.Recovering?
      ensures r.Success? ==> Progress(start, state, todo - {name}, frozen)
      ensures r.Success? ==> name in start.inflight && (r.value <==> !IsForeign(start.inflight[name], start.store))
      ensures KeepsStuck(old(state), state) && (r.Success? ==> !Stuck(old(state), name))
      ensures BlocksAtMost(start, state, DoubtfulRuns(start, start.inflight.Keys))
      ensures reliable && Independent(start) && AllRecoverable(start, frozen) ==> r.Success?
    {
      NextRecoverable(start, state, todo, frozen, name);
      r := RecoverFile(name, frozen(name).events, frozen(name).ceiling);
      if Stuck(old(state), name) {
        StuckNotRecoverable(old(state), name, frozen(name).events, frozen(name).ceiling);
      }
      ConcernsKeepsStuck(old(state), state, name);
      StoppedProgress(start, old(state), state, todo, frozen, name);
      if r.Success? {
        OneMoreRecovered(start, old(state), state, todo, name, r.value);
        OneMoreProgress(start, old(state), state, todo, frozen, name);
      }
    }

    // The loop over the leftover plaintexts.
    method RecoverAll(frozen: SegName -> Frozen) returns (r: Result<nat, Unavailable>)
      requires Sound() && state.mode.Recovering? && forall name :: Increasing(frozen(name).events)
      modifies this
      ensures Sound() && past == old(past) && state.mode.Recovering?
      ensures r.Success? ==> RecoveredAll(old(state), state, frozen) && r.value == OwnDone(old(state), {})
      ensures KeepsStuck(old(state), state) && (r.Success? ==> forall name :: !Stuck(old(state), name))
      ensures BlocksAtMost(old(state), state, DoubtfulRuns(old(state), old(state).inflight.Keys))
      ensures reliable && Independent(old(state)) && AllRecoverable(old(state), frozen) ==> r.Success?
    {
      var count := 0;
      var todo := state.inflight.Keys;
      UpToNothing(state, frozen);
      while todo != {}
        invariant Sound() && past == old(past) && state.mode.Recovering?
        invariant UpTo(old(state), state, todo, frozen, count)
        decreases |todo|
      {
        var name :| name in todo;
        ghost var before := state;
        var recovered := RecoverNext(name, frozen, old(state), todo);
        if recovered.Failure? {
          return Failure(Unavailable);
        }
        UpToNext(old(state), before, state, todo, frozen, name, count);
        todo := todo - {name};
        if recovered.value {
          count := count + 1;
        }
      }
      UpToAll(old(state), state, frozen, count);
      return Success(count);
    }

    // Recovery is over: only other Stores' logs are left, and every Run in doubt is known.
    method StartServing()
      requires Sound() && state.mode.Recovering?
      requires forall name :: name in state.inflight ==> IsForeign(state.inflight[name], state.store)
      modifies this
      ensures Valid() && past == old(past) && state == old(state).(mode := Serving)
      ensures state.segments == map[]
    {
      DownIsIdle(history);
      Take(Serve);
      EndKeepsInvariant(history);
    }

    // The next of them.
    method RecordNext(required: seq<RunId>, births: seq<Birth>, i: nat) returns (r: Result<(), Unavailable>)
      requires Valid() && state.mode.Serving? && i < |required|
      requires MarkedSoFar(state, required, births, past.used, i)
      modifies this
      ensures Valid()
      ensures r.Success? ==>
                && state.mode.Serving? && Recorded(old(state), state, required[i], T0, NOWHERE, UNSTARTED_MARK)
                && state.segments[(required[i], T0)].name.run == required[i]
      ensures r.Success? ==> state.uncertain == old(state).uncertain && required[i] !in old(state).uncertain
      ensures UncertainRuns(state.journal) == UncertainRuns(old(state).journal)
      ensures r.Success? ==> !old(state).unavailable && !state.unavailable
      ensures reliable && !old(state).unavailable && required[i] !in old(state).uncertain ==> r.Success?
      ensures past.used <= old(past).used + {SegName(births[i].date, required[i], T0, births[i].id)}
    {
      assert required[i..][0] == required[i] && births[i..][0] == births[i];
      r := Record(required[i], T0, NOWHERE, UNSTARTED_MARK, births[i]);
    }

    // A T0 log for every Run the Store requires one of and that has none.
    method RecordRequired(required: seq<RunId>, births: seq<Birth>) returns (r: Result<(), Unavailable>)
      requires Valid() && state.mode.Serving? && Unstarted(required, births, past.used)
      requires forall k :: 0 <= k < |required| ==> (required[k], T0) !in state.segments
      requires !state.unavailable
      modifies this
      ensures Valid()
      ensures r.Success? ==>
                && state.mode.Serving? && state.published == old(state).published
                && forall k :: 0 <= k < |required| ==> Marked(state, required[k])
      ensures UncertainRuns(state.journal) == UncertainRuns(old(state).journal)
      ensures r.Success? ==> state.uncertain == old(state).uncertain && NoneOf(required, state.uncertain)
      ensures reliable && NoneOf(required, old(state).uncertain) ==> r.Success?
    {
      assert required[0..] == required && births[0..] == births;
      for i := 0 to |required|
        invariant Valid() && state.mode.Serving? && state.published == old(state).published
        invariant MarkedSoFar(state, required, births, past.used, i)
        invariant UncertainRuns(state.journal) == UncertainRuns(old(state).journal)
        invariant !state.unavailable && state.uncertain == old(state).uncertain
        invariant forall k :: 0 <= k < i ==> required[k] !in state.uncertain
      {
        ghost var before, used := state, past.used;
        var recorded := RecordNext(required, births, i);
        if recorded.Failure? {
          return Failure(Unavailable);
        }
        OneMoreMarked(before, state, required, births, used, past.used, i);
      }
      return Success(());
    }

    // A process starts: it reads which Runs the Store holds uncertain.
    method Attach()
      requires Sound() && state.mode.Down?
      modifies this
      ensures Sound() && past == old(past)
      ensures state == old(state).(mode := Recovering, unavailable := false,
                                   uncertain := UncertainRuns(old(state).journal))
    {
      Take(Boot);
    }

    // Recovers every leftover and then serves; one stuck leftover makes it fail, and stays stuck.
    method Restore(frozen: SegName -> Frozen) returns (r: Result<nat, Unavailable>)
      requires Sound() && state.mode.Down? && forall name :: Increasing(frozen(name).events)
      modifies this
      ensures Sound() && past == old(past)
      ensures r.Failure? ==> !state.mode.Serving? && KeepsStuck(old(state), state)
      ensures r.Success? ==> forall name :: !Stuck(old(state), name)
      ensures r.Success? ==>
                && Valid() && state.mode.Serving? && state.segments == map[]
                && AllRecovered(old(state), state, {}) && r.value == OwnDone(old(state), {})
      ensures r.Success? ==>
                && !state.unavailable && RefusesExactly(old(state), state)
                && (Independent(old(state)) ==> AllRecoverable(old(state), frozen))
      ensures BlocksAtMost(old(state), state, DoubtfulRuns(old(state), old(state).inflight.Keys))
      ensures reliable && Independent(old(state)) && AllRecoverable(old(state), frozen) ==> r.Success?
    {
      var attached := Try();
      if !attached {
        return Failure(Unavailable);
      }
      Attach();
      ghost var booted := state;
      SameDiskKeepsStuck(old(state), booted);
      SameDiskSameRecovery(old(state), booted, frozen);
      r := RecoverAll(frozen);
      if r.Success? {
        ghost var cleared := state;
        OnlyForeignLeft(booted, cleared);
        StartServing();
        RestoredFramed(old(state), booted, cleared, state, frozen);
      }
    }

    /**
     Recovers every leftover plaintext of this Store, in any order, records the Runs the Store
     requires a log of, and only then serves. Success leaves other Stores' logs untouched, every
     other plaintext archived in full, and every Run refused that was in doubt at any earlier
     crash and is not accounted for. The Runs refused are exactly those the Store already held
     uncertain and those with a doubtful leftover. One stuck leftover makes it fail, and stays
     stuck. Where I/O works and no two leftovers meet, it succeeds exactly if each can be
     recovered and no required Run is refused.
     */
    method RecoverOrphans(required: seq<RunId>, births: seq<Birth>, frozen: SegName -> Frozen)
      returns (r: Result<nat, Unavailable>, ghost recovered: State)
      requires Sound() && state.mode.Down? && Unstarted(required, births, past.used)
      requires forall name :: Increasing(frozen(name).events)
      modifies this
      ensures Sound()
      ensures r.Failure? ==> !state.mode.Serving? && KeepsStuck(old(state), state)
      ensures forall name :: Stuck(old(state), name) ==> r.Failure?
      ensures r.Success? ==>
                && Valid() && state.mode.Serving? && AllRecovered(old(state), recovered, {})
                && state.published == recovered.published
                && r.value == OwnDone(old(state), {}) + |required|
                && (forall k :: 0 <= k < |required| ==> Marked(state, required[k]))
                && forall entry :: entry in past.tainted && Live(state, entry.0, entry.1) ==> entry.0 in state.uncertain
      ensures r.Success? ==> RefusesExactly(old(state), state) && NoneOf(required, state.uncertain)
      ensures BlocksAtMost(old(state), state, DoubtfulRuns(old(state), old(state).inflight.Keys))
      ensures Independent(old(state)) && r.Success? ==> AllRecoverable(old(state), frozen)
      ensures reliable && Independent(old(state)) && AllRecoverable(old(state), frozen) ==>
                (r.Success? <==> NoneOf(required, UncertainRuns(old(state).journal)
                                                  + DoubtfulRuns(old(state), old(state).inflight.Keys)))
    {
      recovered := state;
      r := Restore(frozen);
      if r.Failure? {
        return;
      }
      recovered := state;
      var recorded := RecordRequired(required, births);
      if recorded.Failure? {
        Restart();
        return Failure(Unavailable), recovered;
      }
      TaintedRefused(history);
      return Success(r.value + |required|), recovered;
    }
  }
}
