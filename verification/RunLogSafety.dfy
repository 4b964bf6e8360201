/** What every step of the run-log protocol keeps, and what therefore holds over whole runs. */
module RunLogSafety {
  import opened Wrappers
  import opened RunLogScan
  import opened RunLogClosure
  import opened RunLogProtocol

  // Every name on disk has been used; what existed at the start counts as used.
  ghost predicate NamesUsed(w: World) {
    && w.now.inflight.Keys <= w.past.used && w.now.temps.Keys <= w.past.used
    && w.now.published.Keys <= w.past.used && w.past.legacy <= w.past.used
    && w.past.accepted.Keys <= w.past.used
  }

  // An archive whose plaintext still exists holds exactly that plaintext.
  ghost predicate ArchiveMatches(s: State, name: SegName)
    requires name in s.published
  {
    && s.published[name].name == name
    && (name in s.inflight ==>
          && !IsForeign(s.inflight[name], s.store)
          && s.inflight[name] == File(s.published[name].events, false))
  }

  ghost predicate ArchivesMatch(s: State) {
    forall name :: name in s.published ==> ArchiveMatches(s, name)
  }

  // So does a finished temporary archive; and one that was linked is the archive.
  ghost predicate TempMatches(s: State, name: SegName)
    requires name in s.temps
  {
    && (name in s.published ==> s.temps[name] == Finished(s.published[name]))
    && (s.temps[name].Finished? ==> s.temps[name].zip.name == name)
    && (name in s.inflight ==>
          && !IsForeign(s.inflight[name], s.store)
          && (s.temps[name].Finished? ==> s.inflight[name] == File(s.temps[name].zip.events, false)))
  }

  ghost predicate TempsMatch(s: State) {
    forall name :: name in s.temps ==> TempMatches(s, name)
  }

  // Archives made by this protocol were sound when made, and accounting only grows.
  ghost predicate ArchivesSound(w: World) {
    && (forall name :: name in w.now.published && name !in w.past.legacy ==>
          SoundZip(w.now.published[name], Known(w.now, name.run)))
    && (forall name :: name in w.now.temps && w.now.temps[name].Finished? && name !in w.past.legacy ==>
          SoundZip(w.now.temps[name].zip, Known(w.now, name.run)))
  }

  // Plaintext disappears only with its Run's doubt on durable record.
  ghost predicate DoubtOnRecord(s: State) {
    forall name :: name in s.published && name !in s.inflight && DoubtfulArchive(s, name) ==>
      name.run in UncertainRuns(s.journal)
  }

  // The Store's archive entries are true of the archives on disk.
  ghost predicate JournalTrue(s: State) {
    forall entry :: entry in s.journal && entry.Archived? ==>
      entry.receipt.name in s.published && entry.receipt == ReceiptOf(s.published[entry.receipt.name])
  }

  ghost function Content(s: State, name: SegName): seq<Line> {
    if name in s.published then s.published[name].events
    else if name in s.inflight then s.inflight[name].lines
    else []
  }

  // Everything recorded is still readable, in order.
  ghost predicate NothingLost(w: World) {
    forall name :: name in w.past.accepted ==> Held(w, name)
  }

  ghost predicate Held(w: World, name: SegName)
    requires name in w.past.accepted
  {
    (name in w.now.inflight || name in w.now.published) && w.past.accepted[name] <= Content(w.now, name)
  }

  // The Run is blocked durably and, once the process has read the Store, in memory too.
  ghost predicate Blocks(s: State, run: RunId) {
    run in UncertainRuns(s.journal) && (s.mode.Down? || run in s.uncertain)
  }

  // A doubt that accounting has not settled blocks its Run, or recovery will still find its log.
  ghost predicate DoubtHeld(s: State, run: RunId, doubt: Doubt) {
    Live(s, run, doubt) ==> Blocks(s, run) || (!s.mode.Serving? && FileRaises(s, run, doubt))
  }

  ghost predicate TaintHeld(w: World) {
    forall entry :: entry in w.past.tainted ==> DoubtHeld(w.now, entry.0, entry.1)
  }

  // Recovery leaves no older plaintext of this Store behind.
  ghost predicate ServingClean(w: World) {
    w.now.mode.Serving? ==>
      forall name :: name in w.now.inflight && name in w.past.legacy ==> IsForeign(w.now.inflight[name], w.now.store)
  }

  // What the process keeps in memory about an open segment is what its file says.
  ghost predicate LiveSegment(w: World, seg: Segment)
    requires seg.name in w.past.accepted && seg.name in w.now.inflight
  {
    var lines := w.past.accepted[seg.name];
    && w.now.inflight[seg.name] == File(lines, false)
    && seg.count == |lines|
    && seg.active == ActiveOf(lines)
    && (forall i :: 0 <= i < |lines| ==> lines[i].origin == seg.origin && lines[i].cursor == seg.cursor)
  }

  ghost predicate LiveKey(w: World, key: (RunId, Phase))
    requires key in w.now.segments
  {
    var seg := w.now.segments[key];
    && key == (seg.name.run, seg.name.phase)
    && key == (seg.origin.run, seg.origin.phase)
    && seg.origin.store == Some(w.now.store) && ValidIdentity(seg.origin)
    && seg.name in w.past.accepted && seg.name !in w.past.legacy
    && (seg.name in w.now.inflight ==> LiveSegment(w, seg))
  }

  ghost predicate LiveLogs(w: World) {
    && (!w.now.mode.Serving? ==> w.now.segments == map[])
    && (w.now.mode.Serving? && !w.now.unavailable ==>
          forall key :: key in w.now.segments ==> LiveKey(w, key))
  }

  ghost predicate Inv(w: World) {
    && NamesUsed(w) && LiveLogs(w) && ArchivesMatch(w.now) && TempsMatch(w.now) && ArchivesSound(w)
    && DoubtOnRecord(w.now) && JournalTrue(w.now) && NothingLost(w) && TaintHeld(w) && ServingClean(w)
  }

  // --- Small facts ---

  lemma AppendKeepsForeign(file: File, line: Line, store: string)
    requires !IsForeign(file, store)
    requires if file.lines == [] then line.origin.store == Some(store) else line.origin == file.lines[0].origin
    ensures !IsForeign(file.(lines := file.lines + [line]), store)
  {
  }

  // A recovery record never makes a log look settled.
  lemma RecoveryRecordUnsettles(lines: seq<Line>, line: Line)
    requires line.kind.UnknownAfterCrash? || line.kind.UnreconciledAfterCrash?
    ensures LeavesOpen(File(lines + [line], false))
  {
    assert (lines + [line])[..|lines|] == lines;
  }

  // A plaintext that raises a live doubt is doubtful, and so is an archive.
  lemma LiveIsDoubtful(s: State, name: SegName, doubt: Doubt)
    requires name.run.Formal? && Live(s, name.run, doubt)
    ensures name in s.inflight && !IsForeign(s.inflight[name], s.store) && Raises(s.inflight[name], doubt) ==>
              DoubtfulFile(s, name)
    ensures name in s.published && Raises(File(s.published[name].events, false), doubt) ==> DoubtfulArchive(s, name)
  {
  }

  lemma SettledMonotone(lines: seq<Line>, known: set<Scope>, more: set<Scope>)
    requires Settled(lines, known) && known <= more
    ensures Settled(lines, more)
  {
  }

  lemma UncertainGrows(journal: seq<Status>, entry: Status)
    ensures UncertainRuns(journal) <= UncertainRuns(journal + [entry])
    ensures UncertainRuns(journal + [entry]) == UncertainRuns(journal) + (if IsBlock(entry) then {RunOf(entry)} else {})
  {
    forall run | run in UncertainRuns(journal + [entry])
      ensures run in UncertainRuns(journal) + (if IsBlock(entry) then {RunOf(entry)} else {})
    {
      var e :| e in journal + [entry] && IsBlock(e) && RunOf(e) == run;
      assert e in journal || e == entry;
    }
    forall run | run in UncertainRuns(journal) ensures run in UncertainRuns(journal + [entry]) {
      var e :| e in journal && IsBlock(e) && RunOf(e) == run;
      assert e in journal + [entry];
    }
    if IsBlock(entry) {
      assert entry in journal + [entry];
    }
  }

  lemma KnownGrows(s: State, step: Step, run: RunId)
    ensures Known(s, run) <= Known(Effect(s, step), run)
  {
    if step.Account? {
      forall scope | scope in Known(s, run) ensures scope in Known(Effect(s, step), run) {
        assert (run, scope) in Effect(s, step).accounted;
      }
    } else {
      assert Effect(s, step).accounted == s.accounted;
    }
  }

  lemma StoreNameFramed(s: State, step: Step)
    ensures Effect(s, step).store == s.store
  {
  }

  lemma FilesFramed(s: State, step: Step)
    ensures Effect(s, step).store == s.store
    ensures !(step.BeginTemp? || step.FinishTemp? || step.DropTemp?) ==> Effect(s, step).temps == s.temps
    ensures !step.Link? ==> Effect(s, step).published == s.published
  {
    StoreNameFramed(s, step);
    TempsFramed(s, step);
    PublishedFramed(s, step);
  }

  lemma TempsFramed(s: State, step: Step)
    ensures !(step.BeginTemp? || step.FinishTemp? || step.DropTemp?) ==> Effect(s, step).temps == s.temps
  {
  }

  lemma PublishedFramed(s: State, step: Step)
    ensures !step.Link? ==> Effect(s, step).published == s.published
  {
  }

  // Only appends, a new segment and the clean-up rule change a plaintext file.
  lemma FileFramed(s: State, step: Step, name: SegName)
    requires !((step.Open? || step.Append? || step.AppendFails? || step.Cleanup?) && step.name == name)
    ensures name in Effect(s, step).inflight <==> name in s.inflight
    ensures name in s.inflight ==> Effect(s, step).inflight[name] == s.inflight[name]
  {
    if !(step.Open? || step.Append? || step.AppendFails? || step.Cleanup?) {
      assert Effect(s, step).inflight == s.inflight;
    }
  }

  lemma AppendFramed(s: State, step: Step)
    requires (step.Append? || step.AppendFails?) && step.name in s.inflight
    ensures var t := Effect(s, step);
            && t.inflight == s.inflight[step.name := Appended(s.inflight[step.name], step)]
            && t.accounted == s.accounted && t.store == s.store
  {
    if step.AppendFails? && step.left.Nothing? {
      assert s.inflight == s.inflight[step.name := s.inflight[step.name]];
    }
  }

  lemma StoreFramed(s: State, step: Step)
    ensures !step.Account? ==> Effect(s, step).accounted == s.accounted
    ensures !step.Note? && !step.Archive? ==> Effect(s, step).journal == s.journal
  {
  }

  // --- One step ---

  // A published archive is never rewritten or removed.
  lemma PublishedStays(w: World, step: Step, name: SegName)
    requires CanTake(w, step) && name in w.now.published
    ensures name in Effect(w.now, step).published
    ensures Effect(w.now, step).published[name] == w.now.published[name]
  {
    FilesFramed(w.now, step);
  }

  lemma JournalGrows(w: World, step: Step)
    requires CanTake(w, step)
    ensures w.now.journal <= Effect(w.now, step).journal
    ensures UncertainRuns(w.now.journal) <= UncertainRuns(Effect(w.now, step).journal)
  {
    StoreFramed(w.now, step);
    if step.Note? {
      UncertainGrows(w.now.journal, step.entry);
    } else if step.Archive? {
      UncertainGrows(w.now.journal, Archived(ReceiptOf(w.now.published[step.name])));
    }
  }

  lemma StepNames(w: World, step: Step)
    requires NamesUsed(w) && CanTake(w, step)
    ensures NamesUsed(Next(w, step))
  {
  }

  lemma LinkedMatches(s: State, name: SegName)
    requires name in s.temps && s.temps[name].Finished? && TempMatches(s, name)
    ensures ArchiveMatches(Effect(s, Link(name)), name)
  {
  }

  lemma MatchStays(w: World, step: Step, name: SegName)
    requires NamesUsed(w) && CanTake(w, step) && name in w.now.published && ArchiveMatches(w.now, name)
    ensures name in Effect(w.now, step).published && ArchiveMatches(Effect(w.now, step), name)
  {
    PublishedStays(w, step, name);
    StoreNameFramed(w.now, step);
    if step != Cleanup(name) {
      FileFramed(w.now, step, name);
    }
  }

  lemma StepArchiveMatches(w: World, step: Step, name: SegName)
    requires NamesUsed(w) && ArchivesMatch(w.now) && TempsMatch(w.now) && CanTake(w, step)
    requires name in Effect(w.now, step).published
    ensures ArchiveMatches(Effect(w.now, step), name)
  {
    if step == Link(name) {
      LinkedMatches(w.now, name);
    } else {
      OnlyLinkPublishes(w.now, step, name);
      MatchStays(w, step, name);
    }
  }

  lemma OnlyLinkPublishes(s: State, step: Step, name: SegName)
    requires step != Link(name) && name in Effect(s, step).published
    ensures name in s.published
  {
  }

  lemma StepArchivesMatch(w: World, step: Step)
    requires NamesUsed(w) && ArchivesMatch(w.now) && TempsMatch(w.now) && CanTake(w, step)
    ensures ArchivesMatch(Effect(w.now, step))
  {
    forall name | name in Effect(w.now, step).published ensures ArchiveMatches(Effect(w.now, step), name) {
      StepArchiveMatches(w, step, name);
    }
  }

  lemma BegunMatches(w: World, name: SegName)
    requires CanTake(w, BeginTemp(name))
    ensures TempMatches(Effect(w.now, BeginTemp(name)), name)
  {
  }

  lemma FinishedMatches(w: World, name: SegName, zip: Zip)
    requires CanTake(w, FinishTemp(name, zip)) && TempMatches(w.now, name)
    ensures TempMatches(Effect(w.now, FinishTemp(name, zip)), name)
  {
  }

  lemma LinkedTempMatches(w: World, name: SegName)
    requires CanTake(w, Link(name)) && TempMatches(w.now, name)
    ensures TempMatches(Effect(w.now, Link(name)), name)
  {
  }

  lemma TempStays(w: World, step: Step, name: SegName)
    requires NamesUsed(w) && CanTake(w, step) && name in w.now.temps && TempMatches(w.now, name)
    requires step != BeginTemp(name) && !(step.FinishTemp? && step.name == name) && step != Link(name)
    requires name in Effect(w.now, step).temps
    ensures TempMatches(Effect(w.now, step), name)
  {
    StoreNameFramed(w.now, step);
    TempKept(w.now, step, name);
    if step != Cleanup(name) {
      FileFramed(w.now, step, name);
    }
    if name in Effect(w.now, step).published {
      OnlyLinkPublishes(w.now, step, name);
      PublishedStays(w, step, name);
    }
  }

  lemma TempKept(s: State, step: Step, name: SegName)
    requires step != BeginTemp(name) && !(step.FinishTemp? && step.name == name)
    requires name in Effect(s, step).temps
    ensures name in s.temps && Effect(s, step).temps[name] == s.temps[name]
  {
  }

  lemma StepTempMatches(w: World, step: Step, name: SegName)
    requires NamesUsed(w) && TempsMatch(w.now) && CanTake(w, step)
    requires name in Effect(w.now, step).temps
    ensures TempMatches(Effect(w.now, step), name)
  {
    if step == BeginTemp(name) {
      BegunMatches(w, name);
    } else if step.FinishTemp? && step.name == name {
      FinishedMatches(w, name, step.zip);
    } else if step == Link(name) {
      LinkedTempMatches(w, name);
    } else {
      TempKept(w.now, step, name);
      TempStays(w, step, name);
    }
  }

  lemma StepTempsMatch(w: World, step: Step)
    requires NamesUsed(w) && ArchivesMatch(w.now) && TempsMatch(w.now) && CanTake(w, step)
    ensures TempsMatch(Effect(w.now, step))
  {
    forall name | name in Effect(w.now, step).temps ensures TempMatches(Effect(w.now, step), name) {
      StepTempMatches(w, step, name);
    }
  }

  lemma SoundStays(zip: Zip, known: set<Scope>, more: set<Scope>)
    requires SoundZip(zip, known) && known <= more
    ensures SoundZip(zip, more)
  {
  }

  lemma StepArchivesSound(w: World, step: Step)
    requires ArchivesSound(w) && CanTake(w, step)
    ensures ArchivesSound(Next(w, step))
  {
    var s, t := w.now, Effect(w.now, step);
    FilesFramed(s, step);
    forall name | name in t.published && name !in w.past.legacy
      ensures SoundZip(t.published[name], Known(t, name.run))
    {
      KnownGrows(s, step, name.run);
      SoundStays(t.published[name], Known(s, name.run), Known(t, name.run));
    }
    forall name | name in t.temps && t.temps[name].Finished? && name !in w.past.legacy
      ensures SoundZip(t.temps[name].zip, Known(t, name.run))
    {
      KnownGrows(s, step, name.run);
      SoundStays(t.temps[name].zip, Known(s, name.run), Known(t, name.run));
    }
  }

  lemma StepJournalTrue(w: World, step: Step)
    requires ArchivesMatch(w.now) && JournalTrue(w.now) && CanTake(w, step)
    ensures JournalTrue(Effect(w.now, step))
  {
    var s, t := w.now, Effect(w.now, step);
    StoreFramed(s, step);
    forall entry | entry in t.journal && entry.Archived?
      ensures entry.receipt.name in t.published && entry.receipt == ReceiptOf(t.published[entry.receipt.name])
    {
      if step.Archive? && entry == Archived(ReceiptOf(s.published[step.name])) {
        assert ArchiveMatches(s, step.name);
        PublishedStays(w, step, step.name);
      } else {
        assert entry in s.journal;
        PublishedStays(w, step, entry.receipt.name);
      }
    }
  }

  // The record now being appended goes to an open log whose recorded lines are all it holds.
  lemma AppendHeld(w: World, name: SegName, line: Line)
    requires LiveLogs(w) && NothingLost(w) && CanAppend(w.now, name, line) && name in w.past.accepted
    ensures Held(Next(w, Append(name, line)), name)
  {
    var t := Next(w, Append(name, line));
    assert t.now.inflight[name].lines == w.now.inflight[name].lines + [line];
    assert name !in t.now.published;
    assert Held(w, name);
  }

  // Plaintext only grows at the end, until the clean-up rule removes it.
  lemma FileGrows(w: World, step: Step, name: SegName)
    requires NamesUsed(w) && CanTake(w, step) && name in w.now.inflight
    ensures step == Cleanup(name)
         || (name in Effect(w.now, step).inflight
             && w.now.inflight[name].lines <= Effect(w.now, step).inflight[name].lines)
  {
    var s, t := w.now, Effect(w.now, step);
    if (step.Append? || step.AppendFails?) && step.name == name {
      AppendFramed(s, step);
    } else if step != Cleanup(name) && !(step.Open? && step.name == name) {
      FileFramed(s, step, name);
    }
  }

  // What a name holds only ever grows at the end, whether it is plaintext or an archive.
  lemma ContentGrows(w: World, step: Step, name: SegName)
    requires NamesUsed(w) && ArchivesMatch(w.now) && CanTake(w, step)
    requires name in w.now.inflight || name in w.now.published
    ensures var t := Next(w, step).now;
            (name in t.inflight || name in t.published) && Content(w.now, name) <= Content(t, name)
  {
    if name in w.now.published {
      PublishedStays(w, step, name);
    } else {
      FileGrows(w, step, name);
    }
  }

  lemma StepHeld(w: World, step: Step, name: SegName)
    requires NamesUsed(w) && ArchivesMatch(w.now) && NothingLost(w) && LiveLogs(w) && CanTake(w, step)
    requires name in Next(w, step).past.accepted
    ensures Held(Next(w, step), name)
  {
    if step.Append? && step.name == name {
      AppendHeld(w, name, step.line);
    } else if step.Open? && step.name == name {
    } else {
      assert Held(w, name);
      ContentGrows(w, step, name);
      assert Next(w, step).past.accepted[name] == w.past.accepted[name];
    }
  }

  lemma StepNothingLost(w: World, step: Step)
    requires NamesUsed(w) && ArchivesMatch(w.now) && NothingLost(w) && LiveLogs(w) && CanTake(w, step)
    ensures NothingLost(Next(w, step))
  {
    forall name | name in Next(w, step).past.accepted ensures Held(Next(w, step), name) {
      StepHeld(w, step, name);
    }
  }

  lemma StepServingClean(w: World, step: Step)
    requires NamesUsed(w) && ServingClean(w) && CanTake(w, step)
    ensures ServingClean(Next(w, step))
  {
  }

  // A record written while serving, spelled out.
  lemma ServedAppend(s: State, name: SegName, line: Line)
    requires s.mode.Serving? && CanAppend(s, name, line)
    ensures var key, file := (name.run, name.phase), s.inflight[name];
            Effect(s, Append(name, line)) ==
            s.(inflight := s.inflight[name := file.(lines := file.lines + [line])],
               segments := s.segments[key := CountIn(s.segments[key], line)])
  {
  }

  lemma AppendLive(w: World, name: SegName, line: Line)
    requires LiveLogs(w) && w.now.mode.Serving? && CanAppend(w.now, name, line)
    ensures LiveKey(Next(w, Append(name, line)), (name.run, name.phase))
  {
    var key := (name.run, name.phase);
    assert LiveKey(w, key);
    var seg, lines := w.now.segments[key], w.past.accepted[name];
    ServedAppend(w.now, name, line);
    assert Next(w, Append(name, line)).past.accepted[name] == lines + [line];
    CountedIn(seg, lines, line);
  }

  lemma CountedIn(seg: Segment, lines: seq<Line>, line: Line)
    requires seg.count == |lines| && seg.active == ActiveOf(lines)
    ensures CountIn(seg, line).count == |lines + [line]| && CountIn(seg, line).active == ActiveOf(lines + [line])
  {
    assert (lines + [line])[..|lines|] == lines;
  }

  lemma OpenLive(w: World, step: Step)
    requires CanTake(w, step) && step.Open? && NamesUsed(w)
    ensures LiveKey(Next(w, step), (step.name.run, step.name.phase))
  {
    assert ActiveOf([]) == {};
  }

  // What a step leaves alone of a segment it is not about.
  lemma SegmentFramed(w: World, step: Step, key: (RunId, Phase))
    requires key in Effect(w.now, step).segments
    requires !((step.Append? || step.Open?) && key == (step.name.run, step.name.phase))
    ensures key in w.now.segments && Effect(w.now, step).segments[key] == w.now.segments[key]
  {
  }

  lemma RecordedFramed(w: World, step: Step, name: SegName)
    requires name in w.past.accepted && !((step.Append? || step.Open?) && step.name == name)
    ensures name in Remember(w, step).accepted && Remember(w, step).accepted[name] == w.past.accepted[name]
  {
  }

  lemma SegmentFileFramed(w: World, step: Step, name: SegName)
    requires NamesUsed(w) && CanTake(w, step) && name in w.past.accepted && !step.AppendFails?
    requires !(step.Append? && step.name == name)
    ensures name in Effect(w.now, step).inflight ==>
              name in w.now.inflight && Effect(w.now, step).inflight[name] == w.now.inflight[name]
  {
    if step != Cleanup(name) {
      FileFramed(w.now, step, name);
    }
  }

  lemma OtherLive(w: World, step: Step, key: (RunId, Phase))
    requires NamesUsed(w) && CanTake(w, step) && key in w.now.segments && LiveKey(w, key)
    requires w.now.mode.Serving? && !step.AppendFails? && key in Effect(w.now, step).segments
    requires !((step.Append? || step.Open?) && key == (step.name.run, step.name.phase))
    ensures LiveKey(Next(w, step), key)
  {
    var name := w.now.segments[key].name;
    SegmentFramed(w, step, key);
    RecordedFramed(w, step, name);
    StoreNameFramed(w.now, step);
    SegmentFileFramed(w, step, name);
  }

  lemma StepLiveKey(w: World, step: Step, key: (RunId, Phase))
    requires NamesUsed(w) && LiveLogs(w) && CanTake(w, step)
    requires var t := Next(w, step).now; t.mode.Serving? && !t.unavailable && key in t.segments
    ensures LiveKey(Next(w, step), key)
  {
    if step.Append? && key == (step.name.run, step.name.phase) {
      AppendLive(w, step.name, step.line);
    } else if step.Open? && key == (step.name.run, step.name.phase) {
      OpenLive(w, step);
    } else {
      SegmentFramed(w, step, key);
      OtherLive(w, step, key);
    }
  }

  lemma StepLiveLogs(w: World, step: Step)
    requires NamesUsed(w) && LiveLogs(w) && CanTake(w, step)
    ensures LiveLogs(Next(w, step))
  {
    var t := Next(w, step).now;
    if t.mode.Serving? && !t.unavailable {
      forall key | key in t.segments ensures LiveKey(Next(w, step), key) {
        StepLiveKey(w, step, key);
      }
    }
  }

  lemma StepDoubtOnRecord(w: World, step: Step)
    requires ArchivesMatch(w.now) && DoubtOnRecord(w.now) && CanTake(w, step)
    ensures DoubtOnRecord(Next(w, step).now)
  {
    var s, t := w.now, Next(w, step).now;
    forall name | name in t.published && name !in t.inflight && DoubtfulArchive(t, name)
      ensures name.run in UncertainRuns(t.journal)
    {
      KnownGrows(s, step, name.run);
      JournalGrows(w, step);
      FilesFramed(s, step);
      assert name in s.published && s.published[name] == t.published[name];
      if Settled(s.published[name].events, Known(s, name.run)) {
        SettledMonotone(s.published[name].events, Known(s, name.run), Known(t, name.run));
      }
    }
  }

  lemma CrashTaints(w: World, run: RunId, doubt: Doubt)
    requires ArchivesMatch(w.now) && DoubtOnRecord(w.now) && (run, doubt) in InDoubt(w.now)
    ensures run in UncertainRuns(w.now.journal) || FileRaises(w.now, run, doubt)
  {
    var s := w.now;
    if !FileRaises(s, run, doubt) {
      var name :| name in s.published && name.run == run && run.Formal?
                  && Raises(File(s.published[name].events, false), doubt);
      LiveIsDoubtful(s, name, doubt);
      assert ArchiveMatches(s, name);
      assert name !in s.inflight;
    }
  }

  // What one step makes of a plaintext that raises a doubt, outside service.
  lemma DoubtCarriedBy(s: State, step: Step, name: SegName, doubt: Doubt)
    requires !s.mode.Serving? && name in s.inflight && !IsForeign(s.inflight[name], s.store)
    requires Raises(s.inflight[name], doubt) && step != Cleanup(name)
    requires !step.Open?
    requires (step.Append? || step.AppendFails?) && step.name == name ==> CanAppend(s, name, step.line)
    ensures var t := Effect(s, step);
            name in t.inflight && !IsForeign(t.inflight[name], t.store) && Raises(t.inflight[name], doubt)
  {
    var file := s.inflight[name];
    StoreNameFramed(s, step);
    if (step.Append? || step.AppendFails?) && step.name == name {
      AppendFramed(s, step);
      RecoveryRecordUnsettles(file.lines, step.line);
      AppendKeepsForeign(file, step.line, s.store);
    } else {
      FileFramed(s, step, name);
    }
  }

  lemma CleanupAfterBlock(w: World, name: SegName, doubt: Doubt)
    requires CanTake(w, Cleanup(name)) && !w.now.mode.Serving? && name.run.Formal? && Live(w.now, name.run, doubt)
    requires !IsForeign(w.now.inflight[name], w.now.store) && Raises(w.now.inflight[name], doubt)
    ensures Blocks(w.now, name.run)
  {
    LiveIsDoubtful(w.now, name, doubt);
  }

  // While the process is not serving, the plaintext goes only after its Run was found blocked.
  lemma DoubtCarried(w: World, step: Step, run: RunId, doubt: Doubt)
    requires CanTake(w, step) && FileRaises(w.now, run, doubt) && !w.now.mode.Serving?
    requires Live(w.now, run, doubt)
    ensures FileRaises(Effect(w.now, step), run, doubt) || Blocks(w.now, run)
  {
    var s := w.now;
    var name :| name in s.inflight && name.run == run && run.Formal?
                && !IsForeign(s.inflight[name], s.store) && Raises(s.inflight[name], doubt);
    if step == Cleanup(name) {
      CleanupAfterBlock(w, name, doubt);
    } else {
      DoubtCarriedBy(s, step, name, doubt);
    }
  }

  // A blocked Run stays blocked, through crashes and restarts too.
  lemma BlocksStays(w: World, step: Step, run: RunId)
    requires CanTake(w, step) && Blocks(w.now, run)
    ensures Blocks(Effect(w.now, step), run)
  {
    JournalGrows(w, step);
  }

  lemma LiveShrinks(s: State, step: Step, run: RunId, doubt: Doubt)
    requires Live(Effect(s, step), run, doubt)
    ensures Live(s, run, doubt)
  {
    KnownGrows(s, step, run);
  }

  lemma StepDoubtHeld(w: World, step: Step, run: RunId, doubt: Doubt)
    requires CanTake(w, step) && !step.Crash? && DoubtHeld(w.now, run, doubt)
    ensures DoubtHeld(Effect(w.now, step), run, doubt)
  {
    var s, t := w.now, Effect(w.now, step);
    if Live(t, run, doubt) {
      LiveShrinks(s, step, run, doubt);
      if !Blocks(s, run) {
        DoubtCarried(w, step, run, doubt);
        ServeLeavesNoFile(w, step, run, doubt);
      }
      if Blocks(s, run) {
        BlocksStays(w, step, run);
      }
    }
  }

  // A process starts to serve only when no plaintext of this Store is left.
  lemma ServeLeavesNoFile(w: World, step: Step, run: RunId, doubt: Doubt)
    requires CanTake(w, step) && !w.now.mode.Serving? && FileRaises(w.now, run, doubt)
    ensures !Effect(w.now, step).mode.Serving?
  {
  }

  lemma CrashDoubtHeld(w: World, run: RunId, doubt: Doubt)
    requires ArchivesMatch(w.now) && DoubtOnRecord(w.now)
    requires DoubtHeld(w.now, run, doubt) || (run, doubt) in InDoubt(w.now)
    ensures DoubtHeld(Effect(w.now, Crash), run, doubt)
  {
    var s, t := w.now, Effect(w.now, Crash);
    assert Known(t, run) == Known(s, run);
    if (run, doubt) in InDoubt(s) {
      CrashTaints(w, run, doubt);
    }
    assert FileRaises(s, run, doubt) ==> FileRaises(t, run, doubt);
  }

  lemma StepTaint(w: World, step: Step)
    requires ArchivesMatch(w.now) && DoubtOnRecord(w.now) && TaintHeld(w) && CanTake(w, step)
    ensures TaintHeld(Next(w, step))
  {
    forall entry | entry in Next(w, step).past.tainted ensures DoubtHeld(Effect(w.now, step), entry.0, entry.1) {
      if step.Crash? {
        CrashDoubtHeld(w, entry.0, entry.1);
      } else {
        StepDoubtHeld(w, step, entry.0, entry.1);
      }
    }
  }

  /** Every durable write, memory update and crash keeps the invariant. */
  lemma StepKeepsInvariant(w: World, step: Step)
    requires Inv(w) && CanTake(w, step)
    ensures Inv(Next(w, step))
  {
    StepNames(w, step);
    StepLiveLogs(w, step);
    StepArchivesMatch(w, step);
    StepTempsMatch(w, step);
    StepArchivesSound(w, step);
    StepDoubtOnRecord(w, step);
    StepJournalTrue(w, step);
    StepNothingLost(w, step);
    StepTaint(w, step);
    StepServingClean(w, step);
  }

  // --- What one step preserves of an earlier state ---

  ghost predicate Keeps(w: World, t: World) {
    && w.now.store == t.now.store
    && w.now.journal <= t.now.journal
    && w.past.tainted <= t.past.tainted
    && w.past.used <= t.past.used
    && (forall name :: name in w.now.published ==>
          name in t.now.published && t.now.published[name] == w.now.published[name])
    && (forall name :: name in w.past.accepted ==>
          name in t.past.accepted && w.past.accepted[name] <= t.past.accepted[name])
    && (forall name :: name in w.now.inflight && IsForeign(w.now.inflight[name], w.now.store) ==>
          name in t.now.inflight && t.now.inflight[name] == w.now.inflight[name])
    && (forall name :: name in w.now.inflight && name !in t.now.inflight ==> DeletedWithProof(t, name))
  }

  // The plaintext is gone, its archive is there, and the Store named that very archive.
  ghost predicate DeletedWithProof(t: World, name: SegName) {
    && name in t.now.published
    && (name.run.Formal? ==> Confirmed(t.now.journal, name, Digest(t.now.published[name])))
  }

  lemma RecordedGrows(w: World, step: Step, name: SegName)
    requires NamesUsed(w) && CanTake(w, step) && name in w.past.accepted
    ensures name in Remember(w, step).accepted && w.past.accepted[name] <= Remember(w, step).accepted[name]
  {
    if step.Append? && step.name == name && w.now.mode.Serving? {
      assert Remember(w, step).accepted[name] == w.past.accepted[name] + [step.line];
    }
  }

  lemma ForeignStays(w: World, step: Step, name: SegName)
    requires NamesUsed(w) && ArchivesMatch(w.now) && CanTake(w, step)
    requires name in w.now.inflight && IsForeign(w.now.inflight[name], w.now.store)
    ensures name in Effect(w.now, step).inflight && Effect(w.now, step).inflight[name] == w.now.inflight[name]
  {
    assert step.Append? || step.AppendFails? ==> step.name != name;
    assert step.Open? ==> step.name != name;
    if step.Cleanup? {
      assert step.name != name;
      assert ArchivesMatch(w.now);
    }
    FileFramed(w.now, step, name);
  }

  lemma DeletionProven(w: World, step: Step, name: SegName)
    requires NamesUsed(w) && CanTake(w, step)
    requires name in w.now.inflight && name !in Effect(w.now, step).inflight
    ensures DeletedWithProof(Next(w, step), name)
  {
    FileGrows(w, step, name);
  }

  lemma StepKeeps(w: World, step: Step)
    requires NamesUsed(w) && ArchivesMatch(w.now) && CanTake(w, step)
    ensures Keeps(w, Next(w, step))
  {
    JournalGrows(w, step);
    var t := Next(w, step);
    forall name | name in w.now.published
      ensures name in t.now.published && t.now.published[name] == w.now.published[name]
    {
      PublishedStays(w, step, name);
    }
    forall name | name in w.now.inflight && name !in t.now.inflight ensures DeletedWithProof(t, name) {
      DeletionProven(w, step, name);
    }
    forall name | name in w.past.accepted
      ensures name in t.past.accepted && w.past.accepted[name] <= t.past.accepted[name]
    {
      RecordedGrows(w, step, name);
    }
    forall name | name in w.now.inflight && IsForeign(w.now.inflight[name], w.now.store)
      ensures name in t.now.inflight && t.now.inflight[name] == w.now.inflight[name]
    {
      ForeignStays(w, step, name);
    }
  }

  lemma KeepsTransitive(w: World, u: World, t: World)
    requires Keeps(w, u) && Keeps(u, t)
    ensures Keeps(w, t)
  {
    forall name | name in w.now.inflight && name !in t.now.inflight ensures DeletedWithProof(t, name) {
      if name !in u.now.inflight && name.run.Formal? {
        var sha := Digest(u.now.published[name]);
        var entry :| entry in u.now.journal && entry.Archived? && entry.receipt.name == name && entry.receipt.sha == sha;
        assert entry in t.now.journal;
      }
    }
  }

  // --- Whole runs ---

  lemma {:induction false} RunKeepsInvariant(worlds: seq<World>, steps: seq<Step>, i: nat)
    requires IsRun(worlds, steps) && Inv(worlds[0]) && i < |worlds|
    ensures Inv(worlds[i])
    decreases i
  {
    if i > 0 {
      RunKeepsInvariant(worlds, steps, i - 1);
      StepKeepsInvariant(worlds[i - 1], steps[i - 1]);
    }
  }

  lemma RunStep(worlds: seq<World>, steps: seq<Step>, i: nat)
    requires IsRun(worlds, steps) && i < |steps|
    ensures CanTake(worlds[i], steps[i]) && worlds[i + 1] == Next(worlds[i], steps[i])
  {
  }

  lemma RunNames(worlds: seq<World>, steps: seq<Step>, i: nat)
    requires IsRun(worlds, steps) && Inv(worlds[0]) && i < |worlds|
    ensures NamesUsed(worlds[i]) && ArchivesMatch(worlds[i].now)
  {
    RunKeepsInvariant(worlds, steps, i);
  }

  lemma RunTaint(worlds: seq<World>, steps: seq<Step>, i: nat)
    requires IsRun(worlds, steps) && Inv(worlds[0]) && i < |worlds|
    ensures TaintHeld(worlds[i])
  {
    RunKeepsInvariant(worlds, steps, i);
  }

  lemma KeepsOneMore(w: World, u: World, step: Step)
    requires Keeps(w, u) && NamesUsed(u) && ArchivesMatch(u.now) && CanTake(u, step)
    ensures Keeps(w, Next(u, step))
  {
    StepKeeps(u, step);
    KeepsTransitive(w, u, Next(u, step));
  }

  lemma {:induction false} RunKeeps(worlds: seq<World>, steps: seq<Step>, i: nat, j: nat)
    requires IsRun(worlds, steps) && Inv(worlds[0]) && i <= j < |worlds|
    ensures Keeps(worlds[i], worlds[j])
    decreases j - i
  {
    if i < j {
      RunNames(worlds, steps, j - 1);
      RunKeeps(worlds, steps, i, j - 1);
      RunStep(worlds, steps, j - 1);
      KeepsOneMore(worlds[i], worlds[j - 1], steps[j - 1]);
    }
  }

  /**
   No event loss, immutable archives. From any moment i of a run to any later one, crashes
   included: every line recorded by then is still at the front of what its name holds, every
   archive published by then is unchanged, another Store's plaintext is untouched, and a
   formal plaintext is gone only if the Store names that archive by name and digest.
   */
  lemma NoEventLoss(worlds: seq<World>, steps: seq<Step>, i: nat, j: nat)
    requires IsRun(worlds, steps) && Inv(worlds[0]) && i <= j < |worlds|
    ensures Keeps(worlds[i], worlds[j])
    ensures forall name :: name in worlds[i].past.accepted ==>
              var t := worlds[j].now;
              (name in t.inflight || name in t.published) && worlds[i].past.accepted[name] <= Content(t, name)
  {
    RunKeeps(worlds, steps, i, j);
    RunKeepsInvariant(worlds, steps, j);
    var w, t := worlds[i], worlds[j];
    forall name | name in w.past.accepted
      ensures (name in t.now.inflight || name in t.now.published) && w.past.accepted[name] <= Content(t.now, name)
    {
      assert Held(t, name);
    }
  }

  // The process would take a record for this Run now.
  ghost predicate Accepts(w: World, run: RunId) {
    && w.now.mode.Serving?
    && exists step: Step :: (step.Open? || step.Append? || step.AppendFails?) && step.name.run == run && CanTake(w, step)
  }

  lemma UncertainRefuses(w: World, run: RunId)
    requires w.now.mode.Serving? ==> run in w.now.uncertain
    ensures !Accepts(w, run)
  {
  }

  lemma {:induction false} BlocksForGood(worlds: seq<World>, steps: seq<Step>, run: RunId, i: nat, j: nat)
    requires IsRun(worlds, steps) && i <= j < |worlds| && Blocks(worlds[i].now, run)
    ensures Blocks(worlds[j].now, run)
    decreases j - i
  {
    if i < j {
      BlocksForGood(worlds, steps, run, i, j - 1);
      BlocksStays(worlds[j - 1], steps[j - 1], run);
    }
  }

  // The Run is known to be uncertain, and no record or segment of it can be written.
  ghost predicate Refused(w: World, run: RunId) {
    && (w.now.mode.Serving? ==> run in w.now.uncertain && run in UncertainRuns(w.now.journal))
    && !Accepts(w, run)
  }

  lemma BlocksRefuses(w: World, run: RunId)
    requires Blocks(w.now, run)
    ensures Refused(w, run)
  {
    UncertainRefuses(w, run);
  }

  lemma CrashNotes(w: World, run: RunId, doubt: Doubt)
    requires (run, doubt) in InDoubt(w.now)
    ensures (run, doubt) in Next(w, Crash).past.tainted
  {
  }

  // Once noted, a doubt that stands while a process serves blocks its Run.
  lemma TaintBlocks(w: World, t: World, run: RunId, doubt: Doubt)
    requires (run, doubt) in w.past.tainted && Keeps(w, t) && TaintHeld(t)
    requires t.now.mode.Serving? && Live(t.now, run, doubt)
    ensures Blocks(t.now, run)
  {
    assert (run, doubt) in t.past.tainted;
    assert DoubtHeld(t.now, (run, doubt).0, (run, doubt).1);
  }

  /**
   No blind replay. A formal Run is in doubt when a crash happens. If the doubt still stands
   when a process serves again, that is unless the Store has meanwhile accounted for the
   answer, the Run is refused then and at every later moment, whatever is accounted, recovered
   or crashed afterwards.
   */
  lemma NoBlindReplay(worlds: seq<World>, steps: seq<Step>, run: RunId, doubt: Doubt, i: nat, m: nat, j: nat)
    requires IsRun(worlds, steps) && Inv(worlds[0]) && i < m <= j < |worlds|
    requires steps[i].Crash? && (run, doubt) in InDoubt(worlds[i].now)
    requires worlds[m].now.mode.Serving? && Live(worlds[m].now, run, doubt)
    ensures Refused(worlds[j], run)
  {
    RunStep(worlds, steps, i);
    CrashNotes(worlds[i], run, doubt);
    RunKeeps(worlds, steps, i + 1, m);
    RunTaint(worlds, steps, m);
    TaintBlocks(worlds[i + 1], worlds[m], run, doubt);
    BlocksForGood(worlds, steps, run, m, j);
    BlocksRefuses(worlds[j], run);
  }

  /**
   A log that is torn or unreadable, or leaves a request unanswered, unknown or disowned at a
   crash, has its Run refused at every later moment, whatever the Store accounts for and when.
   */
  lemma OpenLogNeverReplays(worlds: seq<World>, steps: seq<Step>, run: RunId, i: nat, j: nat)
    requires IsRun(worlds, steps) && Inv(worlds[0]) && i < j < |worlds|
    requires steps[i].Crash? && (run, OpenLog) in InDoubt(worlds[i].now)
    ensures Refused(worlds[j], run)
  {
    if worlds[j].now.mode.Serving? {
      NoBlindReplay(worlds, steps, run, OpenLog, i, j, j);
    }
  }

  /** An answer without accounting at a crash has its Run refused at every later moment, or is accounted for by then. */
  lemma UnprovenNeverReplays(worlds: seq<World>, steps: seq<Step>, run: RunId, scope: Scope, i: nat, j: nat)
    requires IsRun(worlds, steps) && Inv(worlds[0]) && i < j < |worlds|
    requires steps[i].Crash? && (run, UnprovenAnswer(scope)) in InDoubt(worlds[i].now)
    ensures Refused(worlds[j], run) || scope in Known(worlds[j].now, run)
  {
    if worlds[j].now.mode.Serving? && scope !in Known(worlds[j].now, run) {
      NoBlindReplay(worlds, steps, run, UnprovenAnswer(scope), i, j, j);
    }
  }

  /**
   What puts a formal Run in doubt, read off its own log. It is unsettled exactly when the log
   is torn or unreadable, or holds a request with no matching answer, an unknown, or a disowned
   call; and it is doubtful exactly when it is unsettled or some answer in it is unaccounted.
   */
  lemma DoubtMeans(s: State, name: SegName)
    requires name in s.inflight && name.run.Formal? && !IsForeign(s.inflight[name], s.store)
    ensures var file := s.inflight[name];
            var t := TallyOf(file.lines);
            LeavesOpen(file) <==>
            file.torn || Scan(file.lines).Failure?
            || t.asked != t.answered || t.lost != multiset{} || t.disowned != multiset{}
    ensures var file := s.inflight[name];
            DoubtfulFile(s, name) <==>
            LeavesOpen(file) || exists scope :: scope in Scan(file.lines).value.completed && scope !in Known(s, name.run)
  {
    var lines := s.inflight[name].lines;
    if Scan(lines).Success? {
      var seen, t := Scan(lines).value, TallyOf(lines);
      ScanConserves(lines);
      if seen.pending == [] {
        assert Ids(seen.pending) == [];
      } else {
        assert Ids(seen.pending)[0] in multiset(Ids(seen.pending));
      }
      MarkedIffDisowned(t, seen);
    }
  }

  /** Each such log puts its own Run on the list of those in doubt, for that reason. */
  lemma DoubtIsListed(s: State, name: SegName)
    requires name in s.inflight && name.run.Formal? && !IsForeign(s.inflight[name], s.store)
    ensures LeavesOpen(s.inflight[name]) ==> (name.run, OpenLog) in InDoubt(s)
    ensures forall scope :: Raises(s.inflight[name], UnprovenAnswer(scope)) && scope !in Known(s, name.run) ==>
                              (name.run, UnprovenAnswer(scope)) in InDoubt(s)
  {
    forall doubt | Raises(s.inflight[name], doubt) && Live(s, name.run, doubt) ensures (name.run, doubt) in InDoubt(s) {
      assert FileRaises(s, name.run, doubt);
    }
  }

  lemma MarkedIffDisowned(t: Tally, seen: Inspection)
    requires CountsAgree(t, seen)
    ensures seen.unreconciled == 0 <==> t.disowned == multiset{}
  {
    if seen.unreconciled == 0 {
      forall id ensures id !in t.disowned {
        assert id.Some? ==> (id.value in seen.marked <==> Some(id.value) in t.disowned);
      }
    }
    if t.disowned == multiset{} {
      assert forall c: string :: c !in seen.marked;
      assert seen.marked == {};
    }
  }

  /**
   What an archive's integrity says of its log. In a sound archive every request is matched
   one-to-one by an answer or an unknown record; and "complete" means exactly that no call was
   given up or disowned and no claimed attempt lacks its result. A complete formal archive has
   every answered call accounted for.
   */
  lemma CompleteMeans(zip: Zip, known: set<Scope>)
    requires SoundZip(zip, known)
    ensures var t := TallyOf(zip.events);
            && t.asked == t.answered + t.lost
            && (zip.integrity.Complete? <==>
                  t.lost == multiset{} && t.disowned == multiset{} && forall attempt :: !LeftOpen(zip.events, attempt))
            && (zip.integrity.Complete? && zip.name.run.Formal? ==>
                  forall scope :: scope in Scan(zip.events).value.completed ==> scope in known)
  {
    var lines := zip.events;
    var seen, t := Scan(lines).value, TallyOf(lines);
    ScanConserves(lines);
    ScanLength(lines);
    assert Ids(seen.pending) == [];
    MarkedIffDisowned(t, seen);
    assert |t.lost| == 0 <==> t.lost == multiset{};
    forall attempt ensures attempt in seen.active <==> LeftOpen(lines, attempt) {
      ActiveExactly(lines, attempt);
    }
    if forall attempt :: !LeftOpen(lines, attempt) {
      assert seen.active == {};
    }
  }
}
