/**
 Archives and leftovers: when recovery accepts an archive for a plaintext, what it tells the
 Store, and exactly which leftovers it can recover.
 */
module RunLogArchive {
  import opened Wrappers
  import opened Arithmetic
  import opened FlowWindow
  import opened RunLogScan
  import opened RunLogClosure
  import opened RunLogProtocol
  import opened RunLogSafety

  // --- The window of Store events an archive copies ---

  // The Store events of a Run and the frozen window to copy; a startup probe has none.
  datatype FlowSource = Inline | Window(events: seq<Event>, after: int, ceiling: int)

  // Where the window of a segment starts.
  function FlowAfter(seg: Segment): int {
    if seg.name.phase.Startup? || (seg.name.phase.T0? && seg.previous.None?) then 0
    else if seg.cursor <= I64_MIN then I64_MIN
    else seg.cursor - 1
  }

  function SourceOf(seg: Segment, events: seq<Event>, ceiling: int): FlowSource {
    if seg.name.phase.Startup? then Inline else Window(events, FlowAfter(seg), ceiling)
  }

  ghost predicate FlowOf(source: FlowSource, flow: seq<Event>) {
    match source
    case Inline => flow == []
    case Window(events, after, ceiling) =>
      Increasing(events) && after <= ceiling && flow == FlowWindow.Window(events, after, ceiling)
  }

  // The window can be copied: it is empty, or an event sits at its ceiling.
  predicate Copyable(source: FlowSource) {
    source.Window? ==>
      source.after == source.ceiling || (source.after < source.ceiling && EventAt(source.events, source.ceiling))
  }

  // The event belongs in the archive of a segment that starts at the given cursor: for the very
  // first segment of a T0 stage every event from the Run's start on, otherwise those from the
  // segment's own starting cursor on, and none past the ceiling.
  predicate Belongs(e: Event, phase: Phase, previous: Option<Previous>, start: int, ceiling: int) {
    && e.cursor <= ceiling
    && if phase.T0? && previous.None? then e.cursor > 0 else e.cursor >= start && e.cursor > I64_MIN
  }

  // Exactly those events, each once, in cursor order; none for a startup probe.
  ghost predicate HoldsEvents(flow: seq<Event>, phase: Phase, previous: Option<Previous>, start: int,
      events: seq<Event>, ceiling: int)
  {
    if phase.Startup? then flow == []
    else Increasing(flow) && forall e :: e in flow <==> e in events && Belongs(e, phase, previous, start, ceiling)
  }

  lemma WindowInOrder(events: seq<Event>, after: int, ceiling: int)
    requires Increasing(events) && after <= ceiling
    ensures Increasing(FlowWindow.Window(events, after, ceiling))
  {
    var flow, low := FlowWindow.Window(events, after, ceiling), Skip(events, after);
    SkipMonotone(events, after, ceiling);
    forall i, j | 0 <= i < j < |flow| ensures InOrder(flow, i, j) {
      assert InOrder(events, low + i, low + j);
    }
  }

  lemma WindowHolds(events: seq<Event>, after: int, ceiling: int, e: Event)
    requires Increasing(events) && after <= ceiling
    ensures e in FlowWindow.Window(events, after, ceiling) <==> e in events && after < e.cursor <= ceiling
  {
    var flow, low := FlowWindow.Window(events, after, ceiling), Skip(events, after);
    SkipMonotone(events, after, ceiling);
    if e in flow {
      var i :| 0 <= i < |flow| && flow[i] == e;
      WindowExactly(events, after, ceiling, low + i);
    }
    if e in events && after < e.cursor <= ceiling {
      var i :| 0 <= i < |events| && events[i] == e;
      WindowExactly(events, after, ceiling, i);
      assert flow[i - low] == e;
    }
  }

  /** The window copied for a segment is exactly the events that belong to it. */
  lemma FlowHoldsEvents(seg: Segment, events: seq<Event>, ceiling: int, flow: seq<Event>)
    requires FlowOf(SourceOf(seg, events, ceiling), flow)
    ensures HoldsEvents(flow, seg.name.phase, seg.previous, seg.cursor, events, ceiling)
  {
    if !seg.name.phase.Startup? {
      WindowInOrder(events, FlowAfter(seg), ceiling);
      forall e: Event
        ensures e in flow <==> e in events && Belongs(e, seg.name.phase, seg.previous, seg.cursor, ceiling)
      {
        WindowHolds(events, FlowAfter(seg), ceiling, e);
      }
    }
  }

  // --- Verification of a published archive against its plaintext ---

  function RecoveredSegment(name: SegName, lines: seq<Line>, journal: seq<Status>): Segment
    requires lines != []
  {
    Segment(name, lines[0].origin, lines[0].cursor, |lines|, ActiveOf(lines),
            PreviousArchive(journal, name.run, name.phase))
  }

  function VerifyPublished(seg: Segment, zip: Zip, file: File): Result<Receipt, Unavailable> {
    var scan := Inspect(file);
    if zip.name != seg.name || zip.origin != seg.origin || zip.cursor != seg.cursor
       || |zip.events| != seg.count || zip.previous != seg.previous
       || file != File(zip.events, false)
       || scan.Failure? || scan.value.pending != []
       || zip.integrity != IntegrityOf(scan.value) || zip.unknown != scan.value.unknown
       || zip.unreconciled != scan.value.unreconciled || zip.unclosed != |scan.value.active|
    then Failure(Unavailable)
    else Success(ReceiptOf(zip))
  }

  /**
   Recovery can re-verify a published archive of this protocol exactly when the Store's last
   archive entry for the Run and stage is still the predecessor the archive names.
   */
  lemma ReverifiesExactly(w: World, name: SegName)
    requires Inv(w) && name in w.now.published && name in w.now.inflight && name !in w.past.legacy
    ensures var zip, file := w.now.published[name], w.now.inflight[name];
            && file.lines != []
            && (VerifyPublished(RecoveredSegment(name, file.lines, w.now.journal), zip, file).Success?
                <==> zip.previous == PreviousArchive(w.now.journal, name.run, name.phase))
  {
    assert ArchiveMatches(w.now, name);
    ScanLength(w.now.inflight[name].lines);
  }

  // No archive contains its own digest, so an archive is never its own predecessor.
  lemma NeverOwnPredecessor(zip: Zip, name: SegName)
    ensures zip.previous != Some(Previous(name, Digest(zip)))
  {
    assert zip.previous.Some? ==> zip.previous.value.sha.content < zip;
  }

  // --- What registering a recovered archive adds to the Store ---

  // Why a recovered Run must be blocked, if it must.
  function BlockReason(integrity: Integrity, unaccounted: seq<Scope>): Option<Reason> {
    if integrity.UnknownResult? then Some(UnknownProviderResult)
    else if integrity.UnreconciledResult? || unaccounted != [] then Some(UnreconciledProviderResult)
    else None
  }

  // The Store has some archive entry for this segment identity of the Run.
  predicate NamesSegment(journal: seq<Status>, name: SegName) {
    exists entry :: entry in journal && entry.Archived?
                    && entry.receipt.name.run == name.run && entry.receipt.name.id == name.id
  }

  // The Store has some archive entry of this very name.
  predicate NamesArchive(journal: seq<Status>, name: SegName) {
    exists entry :: entry in journal && entry.Archived? && entry.receipt.name == name
  }

  // The Store has a block of the Run for this reason.
  predicate HasBlock(journal: seq<Status>, run: RunId, reason: Reason) {
    exists entry :: entry in journal && entry.Blocked? && entry.run == run && entry.reason == reason
  }

  function ArchiveEntries(prior: seq<Status>, receipt: Receipt): seq<Status> {
    if NamesSegment(prior, receipt.name) then [] else [Archived(receipt)]
  }

  function BlockEntries(prior: seq<Status>, run: RunId, phase: Phase, reason: Reason): seq<Status> {
    if HasBlock(prior, run, reason) then [] else [Blocked(run, phase, reason)]
  }

  function RegisterEntries(prior: seq<Status>, receipt: Receipt, unaccounted: seq<Scope>): seq<Status> {
    var reason := BlockReason(receipt.integrity, unaccounted);
    ArchiveEntries(prior, receipt)
    + if reason.Some? then BlockEntries(prior, receipt.name.run, receipt.name.phase, reason.value) else []
  }

  // A Run with a reason to be blocked is then among the Store's uncertain Runs.
  lemma RegisteredBlocks(prior: seq<Status>, receipt: Receipt, unaccounted: seq<Scope>)
    requires BlockReason(receipt.integrity, unaccounted).Some?
    ensures receipt.name.run in UncertainRuns(prior + RegisterEntries(prior, receipt, unaccounted))
  {
    var run, reason := receipt.name.run, BlockReason(receipt.integrity, unaccounted).value;
    var journal := prior + RegisterEntries(prior, receipt, unaccounted);
    if HasBlock(prior, run, reason) {
      var entry :| entry in prior && entry.Blocked? && entry.run == run && entry.reason == reason;
      assert entry in journal && IsBlock(entry) && RunOf(entry) == run;
    } else {
      var entry := Blocked(run, receipt.name.phase, reason);
      assert journal[|journal| - 1] == entry;
      assert entry in journal && IsBlock(entry) && RunOf(entry) == run;
    }
  }

  // Among true entries, one of an archive's name carries its digest.
  lemma NamedIsConfirmed(s: State, name: SegName)
    requires JournalTrue(s) && name in s.published && NamesArchive(s.journal, name)
    ensures Confirmed(s.journal, name, Digest(s.published[name]))
  {
    var entry :| entry in s.journal && entry.Archived? && entry.receipt.name == name;
    assert entry.receipt == ReceiptOf(s.published[name]);
  }

  // --- Which leftovers can be recovered ---

  predicate FiledUnder(name: SegName, lines: seq<Line>) {
    lines != [] && lines[0].origin.run == name.run && lines[0].origin.phase == name.phase
  }

  // The file says which Run and stage it belongs to, and is named after them.
  predicate WellFiled(name: SegName, file: File) {
    FiledUnder(name, file.lines) && ValidIdentity(file.lines[0].origin)
  }

  // Every call recovery would have to disown has a name of its own.
  predicate Disownable(s: State, name: SegName, seen: Inspection) {
    Nameable(ToDisown(name.phase, seen, Known(s, name.run)))
  }

  // An archive can be made of the plaintext: it can be closed, and its event window copied.
  predicate Closable(s: State, name: SegName, seen: Inspection, events: seq<Event>, ceiling: int)
    requires name in s.inflight && s.inflight[name].lines != []
  {
    && Disownable(s, name, seen)
    && Copyable(SourceOf(RecoveredSegment(name, s.inflight[name].lines, s.journal), events, ceiling))
  }

  // An archive for the plaintext is there, is finished, or can be made.
  predicate Archivable(s: State, name: SegName, events: seq<Event>, ceiling: int)
    requires name in s.inflight && s.inflight[name].lines != [] && Inspect(s.inflight[name]).Success?
  {
    var file := s.inflight[name];
    var seg := RecoveredSegment(name, file.lines, s.journal);
    if name in s.published then VerifyPublished(seg, s.published[name], file).Success?
    else if name in s.temps then
      s.temps[name].Finished? && VerifyPublished(seg, s.temps[name].zip, file).Success?
    else Closable(s, name, Inspect(file).value, events, ceiling)
  }

  // The Store's entry for the archive is there under its name, or can be added.
  predicate Registrable(journal: seq<Status>, name: SegName) {
    name.run.Formal? && NamesSegment(journal, name) ==> NamesArchive(journal, name)
  }

  /** Registering fails only if the Store gives the segment's id to another archive of the Run. */
  lemma RegistrableExactly(journal: seq<Status>, name: SegName)
    ensures Registrable(journal, name) <==>
            name.run.CoreStartup?
            || forall i :: 0 <= i < |journal| && journal[i].Archived? && journal[i].receipt.name.run == name.run
                           && journal[i].receipt.name.id == name.id ==>
                 exists j :: 0 <= j < |journal| && journal[j].Archived? && journal[j].receipt.name == name
  {
    if NamesArchive(journal, name) {
      var entry :| entry in journal && entry.Archived? && entry.receipt.name == name;
      var j :| 0 <= j < |journal| && journal[j] == entry;
      assert journal[j].receipt.name == name;
    }
    if NamesSegment(journal, name) {
      var entry :| entry in journal && entry.Archived? && entry.receipt.name.run == name.run && entry.receipt.name.id == name.id;
      var i :| 0 <= i < |journal| && journal[i] == entry;
      assert journal[i].Archived?;
    }
  }

  // Everything recovery needs of one leftover, apart from I/O that works.
  predicate Recoverable(s: State, name: SegName, events: seq<Event>, ceiling: int)
    requires name in s.inflight
  {
    var file := s.inflight[name];
    && WellFiled(name, file)
    && (IsForeign(file, s.store)
        || (Inspect(file).Success? && Archivable(s, name, events, ceiling) && Registrable(s.journal, name)))
  }

  // No other plaintext of the Run and stage.
  predicate Alone(s: State, name: SegName) {
    forall other :: other in s.inflight && other != name ==> (other.run, other.phase) != (name.run, name.phase)
  }

  // A leftover no recovery can get past: unreadable, or with an archive that names another
  // predecessor than the Store does.
  predicate Stuck(s: State, name: SegName) {
    && name in s.inflight && !IsForeign(s.inflight[name], s.store)
    && (Inspect(s.inflight[name]).Failure?
        || (name in s.published && Alone(s, name)
            && s.published[name].previous != PreviousArchive(s.journal, name.run, name.phase)))
  }

  // A readable leftover without an archive, whose unaccounted calls cannot be disowned by name.
  predicate Unnameable(s: State, name: SegName) {
    && name in s.inflight && WellFiled(name, s.inflight[name]) && !IsForeign(s.inflight[name], s.store)
    && name !in s.published && name !in s.temps && Inspect(s.inflight[name]).Success?
    && !Disownable(s, name, Inspect(s.inflight[name]).value)
  }

  lemma StuckNotRecoverable(s: State, name: SegName, events: seq<Event>, ceiling: int)
    requires Stuck(s, name)
    ensures !Recoverable(s, name, events, ceiling)
  {
  }

  // A leftover that is stuck but readable has an archive, and not one recovery accepts.
  lemma StuckNotArchivable(s: State, name: SegName, events: seq<Event>, ceiling: int)
    requires Stuck(s, name) && s.inflight[name].lines != [] && Inspect(s.inflight[name]).Success?
    ensures name in s.published && !Archivable(s, name, events, ceiling)
  {
  }

  // What recovering a leftover of this Store takes, once it has been read.
  lemma RecoverableOwn(s: State, name: SegName, events: seq<Event>, ceiling: int)
    requires name in s.inflight && WellFiled(name, s.inflight[name])
    requires !IsForeign(s.inflight[name], s.store) && Inspect(s.inflight[name]).Success?
    ensures Recoverable(s, name, events, ceiling) <==>
            Archivable(s, name, events, ceiling) && Registrable(s.journal, name)
  {
  }

  // A confirmed archive whose plaintext is left behind is its own predecessor to the Store.
  lemma ConfirmedIsStuck(s: State, name: SegName)
    requires name in s.inflight && name in s.published && !IsForeign(s.inflight[name], s.store) && Alone(s, name)
    requires PreviousArchive(s.journal, name.run, name.phase) == Some(Previous(name, Digest(s.published[name])))
    ensures Stuck(s, name)
  {
    NeverOwnPredecessor(s.published[name], name);
  }

  // What is added to the journal names no archive but this one.
  ghost predicate JournalAbout(before: seq<Status>, after: seq<Status>, name: SegName) {
    before <= after && forall i :: |before| <= i < |after| && after[i].Archived? ==> after[i].receipt.name == name
  }

  lemma BlockNamesNoArchive(before: seq<Status>, after: seq<Status>, entry: Status)
    requires !entry.Archived? && (after == before || after == before + [entry])
    ensures forall name :: JournalAbout(before, after, name)
  {
  }

  lemma JournalAboutTransitive(a: seq<Status>, b: seq<Status>, c: seq<Status>, name: SegName)
    requires JournalAbout(a, b, name) && JournalAbout(b, c, name)
    ensures JournalAbout(a, c, name)
  {
  }

  lemma {:induction false} PreviousKept(before: seq<Status>, after: seq<Status>, name: SegName, run: RunId, phase: Phase)
    requires JournalAbout(before, after, name) && (name.run, name.phase) != (run, phase)
    ensures PreviousArchive(after, run, phase) == PreviousArchive(before, run, phase)
    decreases |after|
  {
    if |before| < |after| {
      var init := after[..|after| - 1];
      assert JournalAbout(before, init, name);
      PreviousKept(before, init, name, run, phase);
    } else {
      assert before == after;
    }
  }

  // Nothing but what is at one key may differ.
  ghost predicate SameBut<V>(before: map<SegName, V>, after: map<SegName, V>, name: SegName) {
    before - {name} == after - {name}
  }

  lemma SameElsewhere<V>(before: map<SegName, V>, after: map<SegName, V>, name: SegName, other: SegName)
    requires SameBut(before, after, name) && other != name
    ensures other in after <==> other in before
    ensures other in before ==> after[other] == before[other]
  {
    assert other in before <==> other in before - {name};
    assert other in after <==> other in after - {name};
    if other in before {
      assert (before - {name})[other] == before[other];
    }
  }

  // Nothing on disk or in the Store changed but what concerns this name.
  ghost predicate Concerns(s: State, t: State, name: SegName) {
    && t.store == s.store && t.accounted == s.accounted && t.unavailable == s.unavailable
    && JournalAbout(s.journal, t.journal, name)
    && SameBut(s.temps, t.temps, name) && SameBut(s.published, t.published, name)
    && (forall other :: other in t.inflight ==> other in s.inflight)
    && (forall other :: other in s.inflight && other != name ==> other in t.inflight && t.inflight[other] == s.inflight[other])
    && (forall other :: other in s.published ==> other in t.published && t.published[other] == s.published[other])
  }

  // Work on one leftover leaves every other stuck one stuck.
  lemma StuckStays(s: State, t: State, name: SegName, other: SegName)
    requires Concerns(s, t, name) && other != name && Stuck(s, other) && name in s.inflight
    ensures Stuck(t, other)
  {
    if Alone(s, other) {
      PreviousKept(s.journal, t.journal, name, other.run, other.phase);
    }
  }

  // Two leftovers whose recoveries cannot meet: of different Runs, or of different stages and segments.
  predicate Apart(a: SegName, b: SegName) {
    a.run != b.run || (a.phase != b.phase && a.id != b.id)
  }

  lemma NamingKept(before: seq<Status>, after: seq<Status>, name: SegName, other: SegName)
    requires JournalAbout(before, after, name) && other != name && (name.run != other.run || name.id != other.id)
    ensures NamesSegment(after, other) <==> NamesSegment(before, other)
    ensures NamesArchive(after, other) <==> NamesArchive(before, other)
  {
    forall entry | entry in after && entry.Archived? && entry !in before ensures entry.receipt.name == name {
      var i :| 0 <= i < |after| && after[i] == entry;
      assert after == before + after[|before|..];
    }
    assert forall entry :: entry in before ==> entry in after;
  }

  lemma ArchivableStays(s: State, t: State, name: SegName, other: SegName, events: seq<Event>, ceiling: int)
    requires Concerns(s, t, name) && other != name && Apart(name, other)
    requires other in s.inflight && s.inflight[other].lines != [] && Inspect(s.inflight[other]).Success?
    ensures Archivable(t, other, events, ceiling) <==> Archivable(s, other, events, ceiling)
  {
    PreviousKept(s.journal, t.journal, name, other.run, other.phase);
    SameElsewhere(s.temps, t.temps, name, other);
    SameElsewhere(s.published, t.published, name, other);
    assert Known(t, other.run) == Known(s, other.run);
  }

  /** Work on one leftover does not decide whether another, apart from it, can be recovered. */
  lemma RecoverableStays(s: State, t: State, name: SegName, other: SegName, events: seq<Event>, ceiling: int)
    requires Concerns(s, t, name) && other != name && other in s.inflight
    requires Apart(name, other) || IsForeign(s.inflight[other], s.store)
    ensures Recoverable(t, other, events, ceiling) <==> Recoverable(s, other, events, ceiling)
  {
    if !IsForeign(s.inflight[other], s.store) && WellFiled(other, s.inflight[other]) && Inspect(s.inflight[other]).Success? {
      ArchivableStays(s, t, name, other, events, ceiling);
      NamingKept(s.journal, t.journal, name, other);
    }
  }

  lemma {:induction false} UnreadableForGood(lines: seq<Line>, more: seq<Line>)
    requires Scan(lines).Failure?
    ensures Scan(lines + more).Failure?
  {
    if Scan(lines + more).Success? {
      assert (lines + more)[..|lines|] == lines;
      ScanPrefix(lines + more, |lines|);
    }
  }

  /**
   A log whose calls to disown are not nameable is closed into one its own scan refuses, now and
   whatever is appended later.
   */
  lemma UnnameableBreaks(lines: seq<Line>, accounted: set<Scope>, more: seq<Line>)
    requires lines != [] && Scan(lines).Success?
    requires !Nameable(ToDisown(lines[0].origin.phase, Scan(lines).value, accounted))
    ensures Inspect(File(lines + ClosingLines(lines, accounted) + more, false)).Failure?
  {
    RecoveryCloses(lines, accounted);
    UnreadableForGood(lines + ClosingLines(lines, accounted), more);
  }

  // --- Disowning one id twice ---

  // A request and its answer.
  predicate IsExchange(request: Line, terminal: Line) {
    request.kind.Request? && terminal.kind.Terminal? && request.scope == terminal.scope
  }

  lemma Asks(seen: Inspection, request: Line)
    requires request.kind.Request? && seen.pending == []
    ensures Visit(seen, request) == Success(seen.(count := seen.count + 1, pending := [request.scope]))
  {
    assert seen.pending + [request.scope] == [request.scope];
  }

  lemma Hears(seen: Inspection, terminal: Line)
    requires terminal.kind.Terminal? && |seen.pending| == 1 && seen.pending[0].call == terminal.scope.call
    ensures Visit(seen, terminal) ==
            Success(seen.(count := seen.count + 1, pending := [], completed := seen.completed + [seen.pending[0]]))
  {
    assert FindCall(seen.pending, terminal.scope.call) == 0;
    assert Without(seen.pending, 0) == [];
  }

  lemma AsksAndHears(seen: Inspection, request: Line, terminal: Line, rest: seq<Line>)
    requires seen.pending == [] && IsExchange(request, terminal)
    ensures ScanFrom(seen, [request] + ([terminal] + rest)) ==
            ScanFrom(seen.(count := seen.count + 2, completed := seen.completed + [request.scope]), rest)
  {
    var asked := seen.(count := seen.count + 1, pending := [request.scope]);
    var heard := seen.(count := seen.count + 2, completed := seen.completed + [request.scope]);
    Asks(seen, request);
    VisitFirst(seen, request, [terminal] + rest);
    Hears(asked, terminal);
    VisitFirst(asked, terminal, rest);
    assert Visit(asked, terminal) == Success(heard);
  }

  // Two attempts of one task ask and are answered under one call id.
  predicate AsksTwice(lines: seq<Line>) {
    && |lines| == 4 && IsExchange(lines[0], lines[1]) && IsExchange(lines[2], lines[3])
    && lines[0].scope.call.Some? && lines[0].scope.call == lines[2].scope.call
    && OneOrigin(lines) && ValidIdentity(lines[0].origin) && !lines[0].origin.phase.Startup?
  }

  lemma FirstExchange(a: Line, b: Line, rest: seq<Line>)
    requires IsExchange(a, b)
    ensures ScanFrom(NOTHING_SEEN, [a] + ([b] + rest)) == ScanFrom(Inspection(2, [], 0, {}, [a.scope], 0, {}), rest)
  {
    AsksAndHears(NOTHING_SEEN, a, b, rest);
    assert NOTHING_SEEN.completed + [a.scope] == [a.scope];
  }

  lemma SecondExchange(first: Scope, c: Line, d: Line)
    requires IsExchange(c, d)
    ensures ScanFrom(Inspection(2, [], 0, {}, [first], 0, {}), [c] + ([d] + [])) ==
            Success(Inspection(4, [], 0, {}, [first, c.scope], 0, {}))
  {
    AsksAndHears(Inspection(2, [], 0, {}, [first], 0, {}), c, d, []);
    assert [first] + [c.scope] == [first, c.scope];
  }

  lemma TwoExchanges(a: Line, b: Line, c: Line, d: Line)
    requires IsExchange(a, b) && IsExchange(c, d)
    ensures ScanFrom(NOTHING_SEEN, [a] + ([b] + ([c] + ([d] + [])))) ==
            Success(Inspection(4, [], 0, {}, [a.scope, c.scope], 0, {}))
  {
    FirstExchange(a, b, [c] + ([d] + []));
    SecondExchange(a.scope, c, d);
  }

  lemma InFour<T>(s: seq<T>)
    requires |s| == 4
    ensures [] + s == [s[0]] + ([s[1]] + ([s[2]] + ([s[3]] + [])))
  {
  }

  lemma TwiceScans(lines: seq<Line>)
    requires AsksTwice(lines)
    ensures Scan(lines) == Success(Inspection(4, [], 0, {}, [lines[0].scope, lines[2].scope], 0, {}))
  {
    TwoExchanges(lines[0], lines[1], lines[2], lines[3]);
    InFour(lines);
    ScanSplit([], lines);
    assert [] + lines == lines;
  }

  lemma UnaccountedAll(phase: Phase, scopes: seq<Scope>)
    requires !phase.Startup?
    ensures Unaccounted(phase, scopes, {}) == scopes
  {
    if scopes != [] {
      UnaccountedAll(phase, scopes[1..]);
    }
  }

  /**
   Any such log is readable, and with no accounting recovery closes it into one no later
   recovery can read.
   */
  lemma AskedTwiceBreaks(lines: seq<Line>, more: seq<Line>)
    requires AsksTwice(lines)
    ensures Inspect(File(lines, false)).Success?
    ensures Inspect(File(lines + ClosingLines(lines, {}) + more, false)).Failure?
  {
    var phase := lines[0].origin.phase;
    TwiceScans(lines);
    var seen := Scan(lines).value;
    UnaccountedAll(phase, seen.completed);
    UnmarkedAll(seen.completed, {});
    assert seen.completed == [lines[0].scope, lines[2].scope];
    assert seen.completed[0].call == seen.completed[1].call;
    UnnameableBreaks(lines, {}, more);
  }

  function Call(attempt: string, kind: Kind): Line {
    Line(Origin(Formal("r"), T0, "old", "+00:00", Some("store")), 0, Scope(Some("task"), Some(attempt), Some("x")), kind)
  }

  const TWICE := [Call("1", Request), Call("1", Terminal), Call("2", Request), Call("2", Terminal)]

  /** Such a log exists. */
  lemma DisowningTwiceBreaks(more: seq<Line>)
    ensures Inspect(File(TWICE, false)).Success?
    ensures Inspect(File(TWICE + ClosingLines(TWICE, {}) + more, false)).Failure?
  {
    AskedTwiceBreaks(TWICE, more);
  }
}
