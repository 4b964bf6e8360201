/**
 The durable protocol behind the run log, as a state machine whose steps are the individual
 durable writes (and the memory updates between them). A crash may follow any step.

 `CanTake` is the rule book: what the code must have established before each effect.
 The invariants and whole-run theorems live in `RunLogSafety`; the code that follows the
 rules is `RunLogger`.
 */
module RunLogProtocol {
  import opened Wrappers
  import opened RunLogScan
  import opened RunLogClosure
  import opened FlowWindow

  // Files are named by day, Run, stage and segment identity.
  datatype SegName = SegName(date: string, run: RunId, phase: Phase, id: string)

  datatype Integrity = Complete | UnclosedTask | UnreconciledResult | UnknownResult

  // SHA-256 is injective by assumption, so a digest is represented by what it digests.
  datatype Digest = Digest(content: Zip)

  datatype Previous = Previous(name: SegName, sha: Digest)

  datatype Zip = Zip(
    name: SegName, origin: Origin, cursor: int, previous: Option<Previous>,
    stage: string, eventCursor: int,
    integrity: Integrity, unknown: nat, unreconciled: nat, unclosed: nat,
    events: seq<Line>, flow: seq<Event>)

  datatype Receipt = Receipt(
    name: SegName, eventCount: nat, eventCursor: int, stage: string, integrity: Integrity, sha: Digest)

  // A temporary archive is either still being written or complete and synced.
  datatype Temp = Unfinished | Finished(zip: Zip)

  datatype Reason = UnknownProviderResult | UnreconciledProviderResult | OtherReason

  // One run-log status in the Store's append-only journal.
  datatype Status =
    | Opened(name: SegName)
    | Archived(receipt: Receipt)
    | Blocked(run: RunId, phase: Phase, reason: Reason)

  datatype Segment = Segment(
    name: SegName, origin: Origin, cursor: int, count: nat, active: set<string>, previous: Option<Previous>)

  datatype Mode = Down | Recovering | Serving

  datatype State = State(
    // durable: the log directory and the Store
    store: string,
    inflight: map<SegName, File>,
    temps: map<SegName, Temp>,
    published: map<SegName, Zip>,
    journal: seq<Status>,
    accounted: set<(RunId, Scope)>,
    // lost at a crash
    mode: Mode,
    segments: map<(RunId, Phase), Segment>,
    unavailable: bool,
    uncertain: set<RunId>)

  // Why a Run is in doubt: its log is not settled in itself, or an answer in it had no accounting.
  datatype Doubt = OpenLog | UnprovenAnswer(scope: Scope)

  // History that no code can see: which names ever existed, which already existed at the
  // start, what was recorded under each name, and which Runs were in doubt at some crash, and why.
  datatype Past = Past(
    used: set<SegName>, legacy: set<SegName>, accepted: map<SegName, seq<Line>>,
    tainted: iset<(RunId, Doubt)>)

  datatype World = World(now: State, past: Past)

  // What a failed append leaves on disk.
  datatype Leftover = Nothing | Whole | TornRecord

  datatype Step =
    | Boot | Serve | Crash
    | Open(name: SegName, origin: Origin, cursor: int, previous: Option<Previous>)
    | Append(name: SegName, line: Line)
    | AppendFails(name: SegName, line: Line, left: Leftover)
    | Fail
    | Note(entry: Status)
    | Archive(name: SegName)
    | MarkUncertain(run: RunId)
    | BeginTemp(name: SegName)
    | FinishTemp(name: SegName, zip: Zip)
    | Link(name: SegName)
    | DropTemp(name: SegName)
    | Close(name: SegName)
    | Account(run: RunId, scope: Scope)
    | Cleanup(name: SegName)

  // --- The Store's view ---

  function Known(s: State, run: RunId): set<Scope> {
    set entry | entry in s.accounted && entry.0 == run :: entry.1
  }

  predicate IsBlock(entry: Status) {
    match entry
    case Blocked(_, _, reason) => reason.UnknownProviderResult? || reason.UnreconciledProviderResult?
    case Archived(receipt) => receipt.integrity.UnknownResult? || receipt.integrity.UnreconciledResult?
    case Opened(_) => false
  }

  function RunOf(entry: Status): RunId {
    match entry
    case Blocked(run, _, _) => run
    case Archived(receipt) => receipt.name.run
    case Opened(name) => name.run
  }

  function UncertainRuns(journal: seq<Status>): set<RunId> {
    set entry | entry in journal && IsBlock(entry) :: RunOf(entry)
  }

  // The last archive the Store has confirmed for this Run and stage.
  function PreviousArchive(journal: seq<Status>, run: RunId, phase: Phase): Option<Previous> {
    if journal == [] || phase.Startup? then None
    else
      var last := journal[|journal| - 1];
      if last.Archived? && last.receipt.name.run == run && last.receipt.name.phase == phase
      then Some(Previous(last.receipt.name, last.receipt.sha))
      else PreviousArchive(journal[..|journal| - 1], run, phase)
  }

  // An archive entry of the Run and stage.
  predicate OfStage(entry: Status, run: RunId, phase: Phase) {
    entry.Archived? && entry.receipt.name.run == run && entry.receipt.name.phase == phase
  }

  /** It is what the last such entry of the journal names, and nothing without one or for a startup probe. */
  lemma {:induction false} PreviousExactly(journal: seq<Status>, run: RunId, phase: Phase)
    ensures var previous := PreviousArchive(journal, run, phase);
            && (previous.None? <==> phase.Startup? || forall entry :: entry in journal ==> !OfStage(entry, run, phase))
            && forall i :: 0 <= i < |journal| && !phase.Startup? && OfStage(journal[i], run, phase)
                           && (forall j :: i < j < |journal| ==> !OfStage(journal[j], run, phase)) ==>
                             previous == Some(Previous(journal[i].receipt.name, journal[i].receipt.sha))
    decreases |journal|
  {
    if journal != [] && !phase.Startup? {
      var init, last := journal[..|journal| - 1], journal[|journal| - 1];
      assert journal == init + [last];
      PreviousExactly(init, run, phase);
      if !OfStage(last, run, phase) {
        assert forall entry :: entry in journal <==> entry in init || entry == last;
        forall i | 0 <= i < |init| && OfStage(init[i], run, phase)
                   && (forall j :: i < j < |journal| ==> !OfStage(journal[j], run, phase))
          ensures forall j :: i < j < |init| ==> !OfStage(init[j], run, phase)
        {
          assert forall j :: 0 <= j < |init| ==> init[j] == journal[j];
        }
      }
    }
  }

  function ReceiptOf(zip: Zip): Receipt {
    Receipt(zip.name, |zip.events|, zip.eventCursor, zip.stage, zip.integrity, Digest(zip))
  }

  predicate Confirmed(journal: seq<Status>, name: SegName, sha: Digest) {
    exists entry :: entry in journal && entry.Archived? && entry.receipt.name == name && entry.receipt.sha == sha
  }

  // --- Files ---

  predicate IsForeign(file: File, store: string) {
    file.lines != [] && file.lines[0].origin.store.Some? && file.lines[0].origin.store.value != store
  }

  function IntegrityOf(seen: Inspection): Integrity {
    if seen.unknown > 0 then UnknownResult
    else if seen.unreconciled > 0 then UnreconciledResult
    else if seen.active != {} then UnclosedTask
    else Complete
  }

  // The archive's identity and integrity block are what a scan of its own events finds,
  // nothing is pending, and a formal archive that disowns no call has every answered call
  // accounted for.
  predicate SoundZip(zip: Zip, known: set<Scope>) {
    var scan := Inspect(File(zip.events, false));
    && scan.Success?
    && zip.origin == zip.events[0].origin && zip.cursor == zip.events[0].cursor
    && zip.name.run == zip.origin.run && zip.name.phase == zip.origin.phase
    && scan.value.pending == []
    && zip.integrity == IntegrityOf(scan.value)
    && zip.unknown == scan.value.unknown
    && zip.unreconciled == scan.value.unreconciled
    && zip.unclosed == |scan.value.active|
    && (zip.name.run.Formal? && scan.value.unreconciled == 0 ==>
          forall scope :: scope in scan.value.completed ==> scope in known)
  }

  // Nothing in the log leaves a provider call unanswered, unknown, disowned or unaccounted.
  ghost predicate Settled(lines: seq<Line>, known: set<Scope>) {
    var scan := Scan(lines);
    && scan.Success?
    && scan.value.pending == []
    && scan.value.unknown == 0
    && scan.value.unreconciled == 0
    && forall scope :: scope in scan.value.completed ==> scope in known
  }

  ghost predicate DoubtfulFile(s: State, name: SegName)
    requires name in s.inflight
  {
    name.run.Formal? && !IsForeign(s.inflight[name], s.store)
    && (s.inflight[name].torn || !Settled(s.inflight[name].lines, Known(s, name.run)))
  }

  ghost predicate DoubtfulArchive(s: State, name: SegName)
    requires name in s.published
  {
    name.run.Formal? && !Settled(s.published[name].events, Known(s, name.run))
  }

  // The log itself leaves something open, whatever the Store accounts for.
  ghost predicate LeavesOpen(file: File) {
    var scan := Scan(file.lines);
    file.torn || scan.Failure? || scan.value.pending != [] || scan.value.unknown > 0 || scan.value.unreconciled > 0
  }

  // The log gives rise to the doubt, unless the Store accounts for the answer.
  ghost predicate Raises(file: File, doubt: Doubt) {
    LeavesOpen(file) || (doubt.UnprovenAnswer? && doubt.scope in Scan(file.lines).value.completed)
  }

  // Accounting may come later, and then settles that answer for good.
  ghost predicate Live(s: State, run: RunId, doubt: Doubt) {
    doubt.UnprovenAnswer? ==> doubt.scope !in Known(s, run)
  }

  ghost predicate FileRaises(s: State, run: RunId, doubt: Doubt) {
    exists name :: name in s.inflight && name.run == run && run.Formal?
                   && !IsForeign(s.inflight[name], s.store) && Raises(s.inflight[name], doubt)
  }

  ghost predicate ArchiveRaises(s: State, run: RunId, doubt: Doubt) {
    exists name :: name in s.published && name.run == run && run.Formal?
                   && Raises(File(s.published[name].events, false), doubt)
  }

  // The formal Runs with a call in doubt, by what is on disk, and why.
  ghost function InDoubt(s: State): iset<(RunId, Doubt)> {
    iset entry: (RunId, Doubt) |
      Live(s, entry.0, entry.1) && (FileRaises(s, entry.0, entry.1) || ArchiveRaises(s, entry.0, entry.1))
  }

  // --- The rules ---

  predicate CanAppend(s: State, name: SegName, line: Line) {
    && name in s.inflight && name !in s.temps && name !in s.published
    && var file := s.inflight[name];
    && !file.torn && !IsForeign(file, s.store)
    && (file.lines != [] ==> line.origin == file.lines[0].origin)
    && match s.mode
       case Down => false
       case Recovering => file.lines != [] && (line.kind.UnknownAfterCrash? || line.kind.UnreconciledAfterCrash?)
       case Serving =>
         && !s.unavailable && name.run !in s.uncertain
         && (name.run, name.phase) in s.segments
         && var seg := s.segments[(name.run, name.phase)];
         && seg.name == name && line.origin == seg.origin && line.cursor == seg.cursor
         && line.origin.store == Some(s.store)
  }

  predicate CanOpen(w: World, step: Step)
    requires step.Open?
  {
    var s := w.now;
    && s.mode.Serving? && !s.unavailable && step.name.run !in s.uncertain
    && (step.name.run, step.name.phase) !in s.segments
    && step.name !in w.past.used
    && step.origin.run == step.name.run && step.origin.phase == step.name.phase
    && ValidIdentity(step.origin) && step.origin.store == Some(s.store)
    && step.previous == PreviousArchive(s.journal, step.name.run, step.name.phase)
  }

  ghost predicate CanCleanup(s: State, name: SegName) {
    && !s.mode.Down? && name in s.inflight && name in s.published
    && (name.run.Formal? ==> Confirmed(s.journal, name, Digest(s.published[name])))
    && (DoubtfulFile(s, name) ==>
          && name.run in UncertainRuns(s.journal)
          && (s.mode.Recovering? ==> name.run in s.uncertain))
  }

  ghost predicate CanTake(w: World, step: Step) {
    var s := w.now;
    match step
    case Boot => s.mode.Down?
    case Serve => s.mode.Recovering? && forall name :: name in s.inflight ==> IsForeign(s.inflight[name], s.store)
    case Crash => true
    case Open(_, _, _, _) => CanOpen(w, step)
    case Append(name, line) => CanAppend(s, name, line)
    case AppendFails(name, line, _) => CanAppend(s, name, line)
    case Fail => s.mode.Serving?
    case Note(entry) => !s.mode.Down? && !entry.Archived?
    case Archive(name) => !s.mode.Down? && name in s.published && name.run.Formal?
    case MarkUncertain(run) => !s.mode.Down?
    case BeginTemp(name) =>
      && !s.mode.Down? && name in s.inflight && !IsForeign(s.inflight[name], s.store)
      && name !in s.temps && name !in s.published
    case FinishTemp(name, zip) =>
      && !s.mode.Down? && name in s.temps && s.temps[name].Unfinished? && name !in s.published
      && name in s.inflight && !s.inflight[name].torn
      && zip.name == name && zip.events == s.inflight[name].lines
      && SoundZip(zip, Known(s, name.run))
    case Link(name) =>
      && !s.mode.Down? && name in s.temps && s.temps[name].Finished? && name !in s.published
      && name in s.inflight && !s.inflight[name].torn && s.temps[name].zip.events == s.inflight[name].lines
    case DropTemp(name) =>
      !s.mode.Down? && name in s.temps && name in s.published && s.temps[name] == Finished(s.published[name])
    case Close(name) =>
      && s.mode.Serving? && name in s.published
      && (name.run, name.phase) in s.segments && s.segments[(name.run, name.phase)].name == name
    case Account(_, _) => true
    case Cleanup(name) => CanCleanup(s, name)
  }

  // --- The effect of a step, field by field ---

  // What an append, complete or not, makes of its file.
  function Appended(file: File, step: Step): File
    requires step.Append? || step.AppendFails?
  {
    if step.Append? || step.left.Whole? then file.(lines := file.lines + [step.line])
    else if step.left.TornRecord? then file.(torn := true)
    else file
  }

  function InflightAfter(s: State, step: Step): map<SegName, File> {
    if step.Open? then s.inflight[step.name := File([], false)]
    else if (step.Append? || step.AppendFails?) && step.name in s.inflight
    then s.inflight[step.name := Appended(s.inflight[step.name], step)]
    else if step.Cleanup? then s.inflight - {step.name}
    else s.inflight
  }

  function TempsAfter(s: State, step: Step): map<SegName, Temp> {
    if step.BeginTemp? then s.temps[step.name := Unfinished]
    else if step.FinishTemp? then s.temps[step.name := Finished(step.zip)]
    else if step.DropTemp? then s.temps - {step.name}
    else s.temps
  }

  function PublishedAfter(s: State, step: Step): map<SegName, Zip> {
    if step.Link? && step.name in s.temps && s.temps[step.name].Finished?
    then s.published[step.name := s.temps[step.name].zip]
    else s.published
  }

  function JournalAfter(s: State, step: Step): seq<Status> {
    if step.Note? then s.journal + [step.entry]
    else if step.Archive? && step.name in s.published
    then s.journal + [Archived(ReceiptOf(s.published[step.name]))]
    else s.journal
  }

  function ModeAfter(s: State, step: Step): Mode {
    if step.Boot? then Recovering else if step.Serve? then Serving else if step.Crash? then Down else s.mode
  }

  function CountIn(seg: Segment, line: Line): Segment {
    seg.(count := seg.count + 1, active := Activity(seg.active, line))
  }

  function SegmentsAfter(s: State, step: Step): map<(RunId, Phase), Segment> {
    if step.Crash? then map[]
    else if step.Open? then
      s.segments[(step.name.run, step.name.phase) :=
        Segment(step.name, step.origin, step.cursor, 0, {}, step.previous)]
    else if step.Close? then s.segments - {(step.name.run, step.name.phase)}
    else if step.Append? && s.mode.Serving? && step.name in s.inflight && (step.name.run, step.name.phase) in s.segments
    then
      var key := (step.name.run, step.name.phase);
      s.segments[key := CountIn(s.segments[key], step.line)]
    else s.segments
  }

  function UnavailableAfter(s: State, step: Step): bool {
    if step.Boot? || step.Crash? then false
    else if step.Fail? || (step.AppendFails? && s.mode.Serving? && step.name in s.inflight) then true
    else s.unavailable
  }

  function UncertainAfter(s: State, step: Step): set<RunId> {
    if step.Boot? then UncertainRuns(s.journal)
    else if step.Crash? then {}
    else if step.MarkUncertain? then s.uncertain + {step.run}
    else s.uncertain
  }

  // What the process and the disk hold after a step.
  function Effect(s: State, step: Step): State {
    State(s.store, InflightAfter(s, step), TempsAfter(s, step), PublishedAfter(s, step), JournalAfter(s, step),
          if step.Account? then s.accounted + {(step.run, step.scope)} else s.accounted,
          ModeAfter(s, step), SegmentsAfter(s, step), UnavailableAfter(s, step), UncertainAfter(s, step))
  }

  ghost function Remember(w: World, step: Step): Past {
    match step
    case Open(name, _, _, _) =>
      w.past.(used := w.past.used + {name}, accepted := w.past.accepted[name := []])
    case Append(name, line) =>
      if name in w.past.accepted && w.now.mode.Serving?
      then w.past.(accepted := w.past.accepted[name := w.past.accepted[name] + [line]])
      else w.past
    case Crash => w.past.(tainted := w.past.tainted + InDoubt(w.now))
    case _ => w.past
  }

  ghost function Next(w: World, step: Step): World {
    World(Effect(w.now, step), Remember(w, step))
  }

  /**
   A run: the worlds passed through and the steps between them. Since `Crash` is always
   allowed, any prefix of a run followed by a crash is a run.
   */
  ghost predicate IsRun(worlds: seq<World>, steps: seq<Step>) {
    && |worlds| == |steps| + 1
    && forall i {:trigger steps[i]} :: 0 <= i < |steps| ==>
         CanTake(worlds[i], steps[i]) && worlds[i + 1] == Next(worlds[i], steps[i])
  }
}
