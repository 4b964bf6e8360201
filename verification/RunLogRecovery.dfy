/**
 What recovery owes a Run: which Runs it blocks and which it leaves alone, what the archives it
 makes hold, and when all leftovers can be recovered.
 */
module RunLogRecovery {
  import opened Wrappers
  import opened FlowWindow
  import opened RunLogScan
  import opened RunLogClosure
  import opened RunLogProtocol
  import opened RunLogSafety
  import opened RunLogArchive
  import opened RunLogHistory
  import opened RunLogEffects

  // --- Which Runs are blocked ---

  // A call of the log was given up or disowned.
  ghost predicate TellsDoubt(lines: seq<Line>) {
    TallyOf(lines).lost != multiset{} || TallyOf(lines).disowned != multiset{}
  }

  // The archive has a call given up or disowned, or the plaintext found an answer that is unaccounted for.
  ghost predicate DoubtLeft(archived: seq<Line>, found: seq<Line>, known: set<Scope>) {
    TellsDoubt(archived)
    || (Scan(found).Success? && exists scope :: scope in Scan(found).value.completed && scope !in known)
  }

  lemma IntegrityExactly(events: seq<Line>)
    requires Scan(events).Success?
    ensures var t, seen := TallyOf(events), Scan(events).value;
            && (IntegrityOf(seen).UnknownResult? <==> t.lost != multiset{})
            && (IntegrityOf(seen).UnreconciledResult? <==> t.lost == multiset{} && t.disowned != multiset{})
            && (seen.unknown > 0 <==> t.lost != multiset{}) && (seen.unreconciled > 0 <==> t.disowned != multiset{})
  {
    var t, seen := TallyOf(events), Scan(events).value;
    ScanConserves(events);
    MarkedIffDisowned(t, seen);
    assert |t.lost| == 0 <==> t.lost == multiset{};
  }

  lemma UnaccountedSome(name: SegName, lines: seq<Line>, seen: Inspection, known: set<Scope>)
    requires name.run.Formal? && FiledUnder(name, lines) && ValidIdentity(lines[0].origin)
    ensures Unaccounted(name.phase, seen.completed, known) != [] <==>
            exists scope :: scope in seen.completed && scope !in known
  {
    var unaccounted := Unaccounted(name.phase, seen.completed, known);
    if unaccounted != [] {
      UnaccountedExactly(name.phase, seen.completed, known, unaccounted[0]);
    }
    if scope :| scope in seen.completed && scope !in known {
      UnaccountedExactly(name.phase, seen.completed, known, scope);
    }
  }

  /** Recovery has a reason to block a formal Run exactly when some call of it is left in doubt. */
  lemma ReasonExactly(s: State, t: State, name: SegName, receipt: Receipt, seen: Inspection, unaccounted: seq<Scope>)
    requires name in s.inflight && Inspect(s.inflight[name]) == Success(seen) && FiledUnder(name, s.inflight[name].lines)
    requires Obtained(s, t, name, receipt) && name.run.Formal?
    requires unaccounted == Unaccounted(name.phase, seen.completed, Known(s, name.run))
    ensures BlockReason(receipt.integrity, unaccounted).Some? <==>
            DoubtLeft(t.published[name].events, s.inflight[name].lines, Known(s, name.run))
    ensures BlockReason(receipt.integrity, unaccounted) == Some(UnknownProviderResult) <==>
            TallyOf(t.published[name].events).lost != multiset{}
  {
    IntegrityExactly(t.published[name].events);
    UnaccountedSome(name, s.inflight[name].lines, seen, Known(s, name.run));
  }

  /** That is exactly when the plaintext recovery found was in doubt. */
  lemma DoubtAsFound(s: State, t: State, name: SegName, receipt: Receipt)
    requires name in s.inflight && FiledUnder(name, s.inflight[name].lines) && Inspect(s.inflight[name]).Success?
    requires Obtained(s, t, name, receipt) && name.run.Formal? && !IsForeign(s.inflight[name], s.store)
    ensures DoubtLeft(t.published[name].events, s.inflight[name].lines, Known(s, name.run)) <==> DoubtfulFile(s, name)
  {
    IntegrityExactly(t.published[name].events);
    if !(name in s.published || name in s.temps) {
      ClosedDoubt(s.inflight[name].lines, Known(s, name.run));
    }
  }

  // Closing a log records its pending and unaccounted calls, and adds no doubt of its own.
  lemma ClosedDoubt(lines: seq<Line>, known: set<Scope>)
    requires lines != [] && Scan(lines).Success? && !lines[0].origin.phase.Startup?
    requires Scan(lines + ClosingLines(lines, known)).Success?
    ensures var after := Scan(lines + ClosingLines(lines, known)).value;
            !Settled(lines, known) <==>
            after.unknown > 0 || after.unreconciled > 0
            || exists scope :: scope in Scan(lines).value.completed && scope !in known
  {
    var seen, phase := Scan(lines).value, lines[0].origin.phase;
    var disowned := ToDisown(phase, seen, known);
    RecoveryCloses(lines, known);
    ToDisownExactly(phase, seen, known);
    if disowned != [] {
      assert disowned[0] in disowned;
    }
  }

  // The uncertain Runs, in the Store and in memory, gain exactly this Run, or nothing.
  ghost predicate Gains(s: State, t: State, run: RunId, blocked: bool) {
    && t.uncertain == s.uncertain + (if blocked then {run} else {})
    && UncertainRuns(t.journal) == UncertainRuns(s.journal) + (if blocked then {run} else {})
  }

  // No other Run becomes uncertain, and this one only if it may.
  ghost predicate GainsAtMost(s: State, t: State, run: RunId, blocked: bool) {
    && s.uncertain <= t.uncertain <= s.uncertain + (if blocked then {run} else {})
    && UncertainRuns(s.journal) <= UncertainRuns(t.journal)
       <= UncertainRuns(s.journal) + (if blocked then {run} else {})
  }

  lemma GainsNothing(s: State, t: State, run: RunId, blocked: bool)
    requires t.journal == s.journal && t.uncertain == s.uncertain
    ensures GainsAtMost(s, t, run, blocked)
  {
  }

  lemma GainedAfter(s: State, u: State, t: State, run: RunId, blocked: bool)
    requires u.journal == s.journal && u.uncertain == s.uncertain && GainsAtMost(u, t, run, blocked)
    ensures GainsAtMost(s, t, run, blocked)
  {
  }

  lemma GainedBefore(s: State, u: State, t: State, run: RunId, blocked: bool)
    requires GainsAtMost(s, u, run, blocked)
    requires t.uncertain == u.uncertain && UncertainRuns(t.journal) == UncertainRuns(u.journal)
    ensures GainsAtMost(s, t, run, blocked)
  {
  }

  // The entry adds nothing to the uncertain Runs, or this Run.
  lemma EntryBlocks(journal: seq<Status>, entry: Status, run: RunId, blocked: bool)
    requires IsBlock(entry) ==> blocked && RunOf(entry) == run
    ensures UncertainRuns(journal) <= UncertainRuns(journal + [entry])
            <= UncertainRuns(journal) + (if blocked then {run} else {})
  {
    UncertainGrows(journal, entry);
  }

  lemma ArchiveEntryBlocks(journal: seq<Status>, after: seq<Status>, receipt: Receipt, unaccounted: seq<Scope>)
    requires after == journal || after == journal + [Archived(receipt)]
    ensures UncertainRuns(journal) <= UncertainRuns(after)
            <= UncertainRuns(journal) + (if BlockReason(receipt.integrity, unaccounted).Some? then {receipt.name.run} else {})
  {
    EntryBlocks(journal, Archived(receipt), receipt.name.run, BlockReason(receipt.integrity, unaccounted).Some?);
  }

  // With the block noted, or none due, exactly the Run in doubt has been added.
  lemma RegisteredGains(journal: seq<Status>, receipt: Receipt, unaccounted: seq<Scope>)
    ensures UncertainRuns(journal + RegisterEntries(journal, receipt, unaccounted))
            == UncertainRuns(journal)
               + (if BlockReason(receipt.integrity, unaccounted).Some? then {receipt.name.run} else {})
  {
    var reason, archived := BlockReason(receipt.integrity, unaccounted), journal + ArchiveEntries(journal, receipt);
    if NamesSegment(journal, receipt.name) {
      assert archived == journal;
    }
    ArchiveEntryBlocks(journal, archived, receipt, unaccounted);
    if reason.Some? {
      RegisteredBlocks(journal, receipt, unaccounted);
      var entries := BlockEntries(journal, receipt.name.run, receipt.name.phase, reason.value);
      assert journal + RegisterEntries(journal, receipt, unaccounted) == archived + entries;
      if entries == [] {
        assert archived + entries == archived;
      } else {
        EntryBlocks(archived, Blocked(receipt.name.run, receipt.name.phase, reason.value), receipt.name.run, true);
      }
    } else {
      assert journal + RegisterEntries(journal, receipt, unaccounted) == archived;
    }
  }

  // Only what is missing is added: no second archive entry for a segment, no second block of a Run
  // for one reason, and no block for any other reason.
  ghost predicate AddsMissing(before: seq<Status>, after: seq<Status>) {
    && |before| <= |after| && after[..|before|] == before
    && forall i :: |before| <= i < |after| ==> Missing(after, i)
  }

  ghost predicate Missing(journal: seq<Status>, i: nat)
    requires i < |journal|
  {
    match journal[i]
    case Opened(_) => false
    case Archived(receipt) =>
      forall j :: 0 <= j < i && journal[j].Archived? ==>
        journal[j].receipt.name.run != receipt.name.run || journal[j].receipt.name.id != receipt.name.id
    case Blocked(run, _, reason) =>
      && (reason == UnknownProviderResult || reason == UnreconciledProviderResult)
      && forall j :: 0 <= j < i && journal[j].Blocked? ==> journal[j].run != run || journal[j].reason != reason
  }

  lemma ArchiveWasMissing(journal: seq<Status>, after: seq<Status>, receipt: Receipt)
    requires after == journal || (!NamesSegment(journal, receipt.name) && after == journal + [Archived(receipt)])
    ensures AddsMissing(journal, after)
  {
    if after != journal {
      forall j | 0 <= j < |journal| && after[j].Archived?
        ensures after[j].receipt.name.run != receipt.name.run || after[j].receipt.name.id != receipt.name.id {
        assert after[j] == journal[j] && journal[j] in journal;
      }
      assert Missing(after, |journal|);
    }
  }

  lemma BlockWasMissing(prior: seq<Status>, journal: seq<Status>, after: seq<Status>, run: RunId, phase: Phase, reason: Reason)
    requires AddsMissing(prior, journal) && forall i :: |prior| <= i < |journal| ==> journal[i].Archived?
    requires reason == UnknownProviderResult || reason == UnreconciledProviderResult
    requires after == journal || (!HasBlock(prior, run, reason) && after == journal + [Blocked(run, phase, reason)])
    ensures AddsMissing(prior, after)
  {
    if after != journal {
      forall j | 0 <= j < |journal| && after[j].Blocked? ensures after[j].run != run || after[j].reason != reason {
        assert after[j] == journal[j];
        assert j < |prior| ==> journal[j] == prior[j] && prior[j] in prior;
      }
      assert Missing(after, |journal|);
      forall i | |prior| <= i < |journal| ensures Missing(after, i) {
        assert Missing(journal, i);
        assert forall j :: 0 <= j <= i ==> after[j] == journal[j];
      }
      assert after[..|prior|] == journal[..|prior|];
    }
  }

  // A block of the Run with this reason is in the Store.
  ghost predicate BlockedFor(journal: seq<Status>, run: RunId, reason: Reason) {
    exists entry :: entry in journal && entry.Blocked? && entry.run == run && entry.reason == reason
  }

  lemma RegisteredReason(journal: seq<Status>, receipt: Receipt, unaccounted: seq<Scope>)
    ensures var reason := BlockReason(receipt.integrity, unaccounted);
            reason.Some? ==>
              BlockedFor(journal + RegisterEntries(journal, receipt, unaccounted), receipt.name.run, reason.value)
  {
    var reason, after := BlockReason(receipt.integrity, unaccounted), journal + RegisterEntries(journal, receipt, unaccounted);
    if reason.Some? {
      if HasBlock(journal, receipt.name.run, reason.value) {
        var entry :| entry in journal && entry.Blocked? && entry.run == receipt.name.run && entry.reason == reason.value;
        assert entry in after;
      } else {
        assert after[|after| - 1] == Blocked(receipt.name.run, receipt.name.phase, reason.value);
        assert after[|after| - 1] in after;
      }
    }
  }

  // What registering an archive may do, in full or cut short: only what is missing is added, and
  // only a Run with a reason becomes uncertain.
  ghost predicate Registers(s: State, t: State, run: RunId, blocked: bool) {
    GainsAtMost(s, t, run, blocked) && AddsMissing(s.journal, t.journal)
  }

  lemma RegistersNothing(s: State, t: State, run: RunId, blocked: bool)
    requires t.journal == s.journal && t.uncertain == s.uncertain
    ensures Registers(s, t, run, blocked)
  {
  }

  lemma RegistersSince(s: State, u: State, t: State, run: RunId, blocked: bool)
    requires u.journal == s.journal && u.uncertain == s.uncertain && Registers(u, t, run, blocked)
    ensures Registers(s, t, run, blocked)
  {
  }

  lemma RegistersArchive(s: State, t: State, receipt: Receipt, unaccounted: seq<Scope>)
    requires t.uncertain == s.uncertain
    requires || t.journal == s.journal
             || (!NamesSegment(s.journal, receipt.name) && t.journal == s.journal + [Archived(receipt)])
    ensures Registers(s, t, receipt.name.run, BlockReason(receipt.integrity, unaccounted).Some?)
  {
    ArchiveEntryBlocks(s.journal, t.journal, receipt, unaccounted);
    ArchiveWasMissing(s.journal, t.journal, receipt);
  }

  lemma RegistersBlock(s: State, u: State, t: State, receipt: Receipt, unaccounted: seq<Scope>)
    requires u.uncertain == s.uncertain <= t.uncertain <= u.uncertain + {receipt.name.run}
    requires || u.journal == s.journal
             || (!NamesSegment(s.journal, receipt.name) && u.journal == s.journal + [Archived(receipt)])
    requires BlockReason(receipt.integrity, unaccounted).Some?
    requires var (run, reason) := (receipt.name.run, BlockReason(receipt.integrity, unaccounted).value);
             || t.journal == u.journal
             || (!HasBlock(s.journal, run, reason) && t.journal == u.journal + [Blocked(run, receipt.name.phase, reason)])
    ensures Registers(s, t, receipt.name.run, true)
  {
    var run, reason := receipt.name.run, BlockReason(receipt.integrity, unaccounted).value;
    ArchiveEntryBlocks(s.journal, u.journal, receipt, unaccounted);
    ArchiveWasMissing(s.journal, u.journal, receipt);
    BlockWasMissing(s.journal, u.journal, t.journal, run, receipt.name.phase, reason);
    EntryBlocks(u.journal, Blocked(run, receipt.name.phase, reason), run, true);
  }

  // Which leftover plaintexts recovery takes for its own: the first record says which Run and stage
  // it is, and it names this Store or none.
  predicate TakenAsOwn(lines: seq<Line>, name: SegName, store: string) {
    && lines != [] && lines[0].origin.run == name.run && lines[0].origin.phase == name.phase
    && (lines[0].origin.store == None || lines[0].origin.store == Some(store))
  }

  /**
   What a recovered formal leftover means for its Run: the Store names its archive, and it is
   blocked, in the Store for the right reason and in memory, exactly when a call is left in
   doubt; otherwise nothing is blocked.
   */
  ghost predicate BlocksExactly(s: State, t: State, name: SegName)
    requires name in s.inflight && name in t.published
  {
    var events, found := t.published[name].events, s.inflight[name].lines;
    var blocked := name.run.Formal? && DoubtLeft(events, found, Known(s, name.run));
    && Gains(s, t, name.run, blocked)
    && (blocked ==> BlockedFor(t.journal, name.run,
                      if TallyOf(events).lost != multiset{} then UnknownProviderResult else UnreconciledProviderResult))
    && (name.run.Formal? ==> Confirmed(t.journal, name, Digest(t.published[name])))
  }

  // A recovered archive has a reason to block its formal Run.
  predicate HasReason(receipt: Receipt, unaccounted: seq<Scope>) {
    receipt.name.run.Formal? && BlockReason(receipt.integrity, unaccounted).Some?
  }

  // What registering it in full does, beyond the archive entry.
  ghost predicate Registered(s: State, t: State, receipt: Receipt, unaccounted: seq<Scope>) {
    && Gains(s, t, receipt.name.run, HasReason(receipt, unaccounted))
    && (HasReason(receipt, unaccounted) ==>
          BlockedFor(t.journal, receipt.name.run, BlockReason(receipt.integrity, unaccounted).value))
  }

  // A startup probe is not registered at all.
  lemma NotRegistered(s: State, t: State, receipt: Receipt, unaccounted: seq<Scope>)
    requires t.journal == s.journal && t.uncertain == s.uncertain && !receipt.name.run.Formal?
    ensures Registered(s, t, receipt, unaccounted)
    ensures Registers(s, t, receipt.name.run, HasReason(receipt, unaccounted))
  {
    RegistersNothing(s, t, receipt.name.run, false);
  }

  // A recovered leftover blocks its Run exactly if its plaintext was in doubt.
  lemma BlocksAsFound(s: State, u: State, t: State, name: SegName, receipt: Receipt, seen: Inspection, unaccounted: seq<Scope>)
    requires name in s.inflight && FiledUnder(name, s.inflight[name].lines) && Inspect(s.inflight[name]) == Success(seen)
    requires !IsForeign(s.inflight[name], s.store) && Obtained(s, u, name, receipt)
    requires unaccounted == Unaccounted(name.phase, seen.completed, Known(s, name.run))
    requires u.journal == s.journal && u.uncertain == s.uncertain && t.published == u.published
    requires receipt.name == name && Registered(u, t, receipt, unaccounted)
    requires name.run.Formal? ==> Confirmed(t.journal, name, receipt.sha)
    ensures BlocksExactly(s, t, name) && Gains(s, t, name.run, DoubtfulFile(s, name))
  {
    if name.run.Formal? {
      ReasonExactly(s, u, name, receipt, seen, unaccounted);
      DoubtAsFound(s, u, name, receipt);
    }
  }

  lemma ReasonAsFound(s: State, u: State, name: SegName, receipt: Receipt, seen: Inspection, unaccounted: seq<Scope>)
    requires name in s.inflight && FiledUnder(name, s.inflight[name].lines) && Inspect(s.inflight[name]) == Success(seen)
    requires !IsForeign(s.inflight[name], s.store) && Obtained(s, u, name, receipt)
    requires unaccounted == Unaccounted(name.phase, seen.completed, Known(s, name.run))
    requires receipt.name == name
    ensures HasReason(receipt, unaccounted) <==> DoubtfulFile(s, name)
  {
    if name.run.Formal? {
      ReasonExactly(s, u, name, receipt, seen, unaccounted);
      DoubtAsFound(s, u, name, receipt);
    }
  }

  // An obtained archive is ready to be registered: a reason to block is a doubt about the plaintext found.
  lemma ReadyToRegister(s: State, u: State, name: SegName, receipt: Receipt, seen: Inspection, unaccounted: seq<Scope>)
    requires name in s.inflight && WellFiled(name, s.inflight[name]) && Inspect(s.inflight[name]) == Success(seen)
    requires !IsForeign(s.inflight[name], s.store) && Obtained(s, u, name, receipt) && receipt.name == name
    requires unaccounted == Unaccounted(name.phase, seen.completed, Known(s, name.run))
    requires u.store == s.store && u.accounted == s.accounted
    ensures !IsForeign(u.inflight[name], u.store) && (DoubtfulFile(u, name) ==> HasReason(receipt, unaccounted))
    ensures HasReason(receipt, unaccounted) <==> DoubtfulFile(s, name)
  {
    ObtainedOurs(s, u, name, receipt);
    ReasonAsFound(s, u, name, receipt, seen, unaccounted);
    DoubtGivesReason(s, u, name, receipt, seen, unaccounted);
  }

  // Registered and removed, it is recovered, and exactly the doubt found blocks its Run.
  lemma FinishedExactly(s: State, u: State, t: State, name: SegName, receipt: Receipt, seen: Inspection,
      unaccounted: seq<Scope>)
    requires name in s.inflight && WellFiled(name, s.inflight[name]) && Inspect(s.inflight[name]) == Success(seen)
    requires !IsForeign(s.inflight[name], s.store) && Obtained(s, u, name, receipt) && receipt.name == name
    requires unaccounted == Unaccounted(name.phase, seen.completed, Known(s, name.run))
    requires u == s.(inflight := u.inflight, temps := u.temps, published := u.published)
    requires t == u.(journal := t.journal, uncertain := t.uncertain, inflight := u.inflight - {name})
    requires Registered(u, t, receipt, unaccounted)
    requires name.run.Formal? ==> Confirmed(t.journal, name, receipt.sha)
    ensures Recovered(s, t, name) && BlocksExactly(s, t, name) && Gains(s, t, name.run, DoubtfulFile(s, name))
  {
    ReadyToRegister(s, u, name, receipt, seen, unaccounted);
    BlocksAsFound(s, u, t, name, receipt, seen, unaccounted);
    RecoveredAtLast(s, u, t, name, receipt);
  }

  // --- A stage archived at its end ---

  // A call of the open log was given up or disowned.
  ghost predicate OpenLogTells(s: State, run: RunId, phase: Phase) {
    && (run, phase) in s.segments && s.segments[(run, phase)].name in s.inflight
    && TellsDoubt(s.inflight[s.segments[(run, phase)].name].lines)
  }

  // Its archive entry blocks the Run exactly if a call was given up or disowned.
  lemma SealedTells(s: State, t: State, seg: Segment, stage: string, eventCursor: int, source: FlowSource,
      receipt: Receipt)
    requires seg.name in s.inflight && Sealed(s, t, seg, stage, eventCursor, source, receipt)
    ensures IsBlock(Archived(receipt)) <==> TellsDoubt(s.inflight[seg.name].lines)
  {
    IntegrityExactly(s.inflight[seg.name].lines);
  }

  // The segment was open under its Run and stage, and has been sealed and forgotten.
  ghost predicate SealedOpen(s: State, u: State, run: RunId, phase: Phase, stage: string, events: seq<Event>,
      ceiling: int, receipt: Receipt)
  {
    && (run, phase) in s.segments
    && var seg := s.segments[(run, phase)];
    && seg.name in s.inflight && seg.name.run == run && seg.name.phase == phase
    && Sealed(s, u.(segments := s.segments), seg, stage, ceiling, SourceOf(seg, events, ceiling), receipt)
  }

  // The Store's entry for it, if it landed, makes exactly that of the Run.
  lemma ArchivedGains(s: State, u: State, t: State, run: RunId, phase: Phase, stage: string, events: seq<Event>,
      ceiling: int, receipt: Receipt)
    requires SealedOpen(s, u, run, phase, stage, events, ceiling, receipt)
    requires u.journal == s.journal && u.uncertain == s.uncertain == t.uncertain
    requires t.journal == u.journal || t.journal == u.journal + [Archived(receipt)]
    ensures GainsAtMost(s, t, run, OpenLogTells(s, run, phase))
    ensures t.journal == u.journal + [Archived(receipt)] ==>
              UncertainRuns(t.journal) == UncertainRuns(s.journal) + if OpenLogTells(s, run, phase) then {run} else {}
  {
    SealedTells(s, u.(segments := s.segments), s.segments[(run, phase)], stage, ceiling,
                SourceOf(s.segments[(run, phase)], events, ceiling), receipt);
    EntryBlocks(s.journal, Archived(receipt), run, OpenLogTells(s, run, phase));
    UncertainGrows(s.journal, Archived(receipt));
  }

  // --- What the archives hold ---

  // An archive made now of a leftover: why it was interrupted, the Store's cursor, and its events.
  ghost predicate MadeNow(s: State, zip: Zip, name: SegName, events: seq<Event>, ceiling: int)
    requires name in s.inflight && s.inflight[name].lines != [] && Scan(s.inflight[name].lines).Success?
  {
    var lines := s.inflight[name].lines;
    var seen := Scan(lines).value;
    && zip.eventCursor == (if name.phase.Startup? then 0 else ceiling)
    && zip.stage ==
       (if seen.pending != [] then "interrupted_unknown_after_crash"
        else if !name.phase.Startup? && exists scope :: scope in seen.completed && scope !in Known(s, name.run)
        then "interrupted_unreconciled_after_crash"
        else "interrupted_after_crash")
    && HoldsEvents(zip.flow, name.phase, PreviousArchive(s.journal, name.run, name.phase), lines[0].cursor, events, ceiling)
  }

  // The archive a leftover ends up with: the one that was there, the finished temporary one, or one made now.
  ghost predicate ArchiveFrom(s: State, t: State, name: SegName, events: seq<Event>, ceiling: int)
    requires name in s.inflight && name in t.published
  {
    if name in s.published then t.published[name] == s.published[name]
    else if name in s.temps then s.temps[name] == Finished(t.published[name])
    else s.inflight[name].lines != [] && Scan(s.inflight[name].lines).Success?
         && MadeNow(s, t.published[name], name, events, ceiling)
  }

  lemma StageExactly(name: SegName, seen: Inspection, known: set<Scope>)
    ensures InterruptedStage(seen, Unaccounted(name.phase, seen.completed, known)) ==
            (if seen.pending != [] then "interrupted_unknown_after_crash"
             else if !name.phase.Startup? && exists scope :: scope in seen.completed && scope !in known
             then "interrupted_unreconciled_after_crash"
             else "interrupted_after_crash")
  {
    var unaccounted := Unaccounted(name.phase, seen.completed, known);
    if unaccounted != [] {
      UnaccountedExactly(name.phase, seen.completed, known, unaccounted[0]);
    } else if !name.phase.Startup? {
      forall scope | scope in seen.completed ensures scope in known {
        UnaccountedExactly(name.phase, seen.completed, known, scope);
      }
    }
  }

  lemma SealedNow(s: State, u: State, t: State, name: SegName, seen: Inspection, events: seq<Event>, ceiling: int,
      receipt: Receipt)
    requires ClosedFrom(s, u, name, seen)
    requires var seg := ClosedSegment(name, s.inflight[name].lines, u.inflight[name].lines, s.journal);
             Sealed(u, t, seg, InterruptedStage(seen, Unaccounted(name.phase, seen.completed, Known(s, name.run))),
                    if name.phase.Startup? then 0 else ceiling, SourceOf(seg, events, ceiling), receipt)
    ensures name in t.published && MadeNow(s, t.published[name], name, events, ceiling)
  {
    var seg := ClosedSegment(name, s.inflight[name].lines, u.inflight[name].lines, s.journal);
    StageExactly(name, seen, Known(s, name.run));
    FlowHoldsEvents(seg, events, ceiling, t.published[name].flow);
  }

  // --- The whole recovery ---

  // The Store's events of a leftover's Run, and the cursor at which they are frozen.
  datatype Frozen = Frozen(events: seq<Event>, ceiling: int)

  // Formal leftovers of this Store that are in doubt, by Run.
  ghost function DoubtfulRuns(s: State, names: set<SegName>): set<RunId> {
    set name | name in names && name in s.inflight && DoubtfulFile(s, name) :: name.run
  }

  // No two leftovers of this Store can get in each other's way.
  predicate Independent(s: State) {
    forall a, b :: a in OwnLogs(s) && b in OwnLogs(s) && a != b ==> Apart(a, b)
  }

  predicate RecoverableWith(s: State, name: SegName, frozen: SegName -> Frozen)
    requires name in s.inflight
  {
    Recoverable(s, name, frozen(name).events, frozen(name).ceiling)
  }

  // The uncertain Runs, in the Store and in memory, gain exactly these Runs.
  ghost predicate BlocksRuns(s: State, t: State, runs: set<RunId>) {
    t.uncertain == s.uncertain + runs && UncertainRuns(t.journal) == UncertainRuns(s.journal) + runs
  }

  lemma BlocksOneMore(s: State, u: State, t: State, runs: set<RunId>, run: RunId, blocked: bool)
    requires BlocksRuns(s, u, runs) && Gains(u, t, run, blocked)
    ensures BlocksRuns(s, t, runs + (if blocked then {run} else {}))
  {
  }

  // How far recovery has come: which Runs were blocked, and what is still to be recovered is as recoverable as it was.
  ghost predicate Progress(s: State, t: State, todo: set<SegName>, frozen: SegName -> Frozen) {
    && AllRecovered(s, t, todo) && t.unavailable == s.unavailable
    && BlocksRuns(s, t, DoubtfulRuns(s, s.inflight.Keys - todo))
    && (Independent(s) ==> Foreseen(s, t, todo, frozen))
  }

  ghost predicate Foreseen(s: State, t: State, todo: set<SegName>, frozen: SegName -> Frozen)
    requires AllRecovered(s, t, todo)
  {
    && (forall name :: name in todo ==> (RecoverableWith(t, name, frozen) <==> RecoverableWith(s, name, frozen)))
    && (forall name :: name in s.inflight && name !in todo ==> RecoverableWith(s, name, frozen))
  }

  lemma NothingYet(s: State, frozen: SegName -> Frozen)
    ensures Progress(s, s, s.inflight.Keys, frozen)
  {
    assert s.inflight.Keys - s.inflight.Keys == {};
    assert DoubtfulRuns(s, {}) == {};
    assert s.uncertain + {} == s.uncertain;
  }

  lemma SameDoubt(s: State, t: State, todo: set<SegName>, name: SegName)
    requires AllRecovered(s, t, todo) && name in todo
    ensures name in s.inflight && name in t.inflight && t.inflight[name] == s.inflight[name]
    ensures DoubtfulFile(t, name) <==> DoubtfulFile(s, name)
  {
    assert Known(t, name.run) == Known(s, name.run);
  }

  lemma OneMoreRun(s: State, todo: set<SegName>, name: SegName)
    requires name in todo && name in s.inflight
    ensures DoubtfulRuns(s, s.inflight.Keys - (todo - {name})) ==
            DoubtfulRuns(s, s.inflight.Keys - todo) + (if DoubtfulFile(s, name) then {name.run} else {})
  {
    assert s.inflight.Keys - (todo - {name}) == (s.inflight.Keys - todo) + {name};
    DoubtfulJoin(s, s.inflight.Keys - todo, name);
  }

  lemma DoubtfulJoin(s: State, names: set<SegName>, name: SegName)
    requires name in s.inflight
    ensures DoubtfulRuns(s, names + {name}) == DoubtfulRuns(s, names) + (if DoubtfulFile(s, name) then {name.run} else {})
  {
    forall run ensures run in DoubtfulRuns(s, names + {name}) <==>
                       run in DoubtfulRuns(s, names) || (DoubtfulFile(s, name) && run == name.run) {
      if run in DoubtfulRuns(s, names) {
        var n :| n in names && n in s.inflight && DoubtfulFile(s, n) && n.run == run;
        assert n in names + {name};
      }
      if run in DoubtfulRuns(s, names + {name}) {
        var n :| n in names + {name} && n in s.inflight && DoubtfulFile(s, n) && n.run == run;
      }
      if DoubtfulFile(s, name) && run == name.run {
        assert name in names + {name};
      }
    }
  }

  // The recovery of one leftover leaves another one of the loop as recoverable as it was.
  lemma OtherAsRecoverable(s: State, u: State, t: State, todo: set<SegName>, frozen: SegName -> Frozen, name: SegName,
      other: SegName)
    requires AllRecovered(s, u, todo) && name in todo && other in todo - {name} && Independent(s)
    requires if IsForeign(u.inflight[name], u.store) then t == u else Concerns(u, t, name)
    ensures other in u.inflight && other in t.inflight
    ensures RecoverableWith(t, other, frozen) <==> RecoverableWith(u, other, frozen)
  {
    assert u.inflight[name] == s.inflight[name] && u.inflight[other] == s.inflight[other];
    if t != u {
      if !IsForeign(u.inflight[other], u.store) {
        assert name in OwnLogs(s) && other in OwnLogs(s);
      }
      RecoverableStays(u, t, name, other, frozen(other).events, frozen(other).ceiling);
    }
  }

  lemma ForeseenNext(s: State, u: State, t: State, todo: set<SegName>, frozen: SegName -> Frozen, name: SegName)
    requires AllRecovered(s, u, todo) && AllRecovered(s, t, todo - {name}) && name in todo && Independent(s)
    requires Foreseen(s, u, todo, frozen) && RecoverableWith(u, name, frozen)
    requires if IsForeign(u.inflight[name], u.store) then t == u else Concerns(u, t, name)
    ensures Foreseen(s, t, todo - {name}, frozen)
  {
    forall other | other in todo - {name}
      ensures RecoverableWith(t, other, frozen) <==> RecoverableWith(s, other, frozen)
    {
      OtherAsRecoverable(s, u, t, todo, frozen, name, other);
    }
  }

  // One more leftover is recovered, and the others are still to do.
  lemma OneMoreProgress(s: State, u: State, t: State, todo: set<SegName>, frozen: SegName -> Frozen, name: SegName)
    requires Progress(s, u, todo, frozen) && name in todo && AllRecovered(s, t, todo - {name})
    requires RecoverableWith(u, name, frozen) && Gains(u, t, name.run, DoubtfulFile(u, name))
    requires if IsForeign(u.inflight[name], u.store) then t == u else Concerns(u, t, name)
    ensures Progress(s, t, todo - {name}, frozen)
  {
    SameDoubt(s, u, todo, name);
    OneMoreRun(s, todo, name);
    BlocksOneMore(s, u, t, DoubtfulRuns(s, s.inflight.Keys - todo), name.run, DoubtfulFile(u, name));
    if Independent(s) {
      ForeseenNext(s, u, t, todo, frozen, name);
    }
  }

  // Every leftover can be recovered.
  predicate AllRecoverable(s: State, frozen: SegName -> Frozen) {
    forall name :: name in s.inflight ==> RecoverableWith(s, name, frozen)
  }

  // Everything is recovered: exactly the Runs with a doubtful leftover were blocked.
  ghost predicate RecoveredAll(s: State, t: State, frozen: SegName -> Frozen) {
    && AllRecovered(s, t, {}) && t.unavailable == s.unavailable
    && BlocksRuns(s, t, DoubtfulRuns(s, s.inflight.Keys))
    && (Independent(s) ==> AllRecoverable(s, frozen))
  }

  lemma AllDone(s: State, t: State, frozen: SegName -> Frozen)
    requires Progress(s, t, {}, frozen)
    ensures RecoveredAll(s, t, frozen)
  {
    assert s.inflight.Keys - {} == s.inflight.Keys;
  }

  // What is left to do can be recovered exactly if it could at the start.
  lemma NextRecoverable(s: State, t: State, todo: set<SegName>, frozen: SegName -> Frozen, name: SegName)
    requires Progress(s, t, todo, frozen) && name in todo
    ensures name in s.inflight && name in t.inflight
    ensures Independent(s) && AllRecoverable(s, frozen) ==> RecoverableWith(t, name, frozen)
  {
  }

  // No Run becomes uncertain in the Store but these.
  ghost predicate BlocksAtMost(s: State, t: State, runs: set<RunId>) {
    UncertainRuns(s.journal) <= UncertainRuns(t.journal) <= UncertainRuns(s.journal) + runs
  }

  // A recovery that stops has blocked no Run without a doubtful leftover.
  lemma StoppedProgress(s: State, u: State, t: State, todo: set<SegName>, frozen: SegName -> Frozen, name: SegName)
    requires Progress(s, u, todo, frozen) && name in todo
    requires name in u.inflight && GainsAtMost(u, t, name.run, DoubtfulFile(u, name))
    ensures BlocksAtMost(s, t, DoubtfulRuns(s, s.inflight.Keys))
  {
    SameDoubt(s, u, todo, name);
    DoubtfulFewer(s, s.inflight.Keys - todo, name);
  }

  lemma DoubtfulFewer(s: State, names: set<SegName>, name: SegName)
    requires names <= s.inflight.Keys && name in s.inflight
    ensures DoubtfulRuns(s, names) + (if DoubtfulFile(s, name) then {name.run} else {}) <= DoubtfulRuns(s, s.inflight.Keys)
  {
  }

  // The loop over the leftovers, with those in `todo` still to come.
  ghost predicate UpTo(s: State, t: State, todo: set<SegName>, frozen: SegName -> Frozen, count: nat) {
    && Progress(s, t, todo, frozen) && BlocksAtMost(s, t, DoubtfulRuns(s, s.inflight.Keys))
    && count == OwnDone(s, todo) && KeepsStuck(s, t) && forall name :: Stuck(s, name) ==> name in todo
  }

  lemma UpToNothing(s: State, frozen: SegName -> Frozen)
    ensures UpTo(s, s, s.inflight.Keys, frozen, 0)
  {
    NoneDone(s);
    NothingYet(s, frozen);
  }

  lemma UpToNext(s: State, u: State, t: State, todo: set<SegName>, frozen: SegName -> Frozen, name: SegName, count: nat)
    requires UpTo(s, u, todo, frozen, count) && name in todo && Progress(s, t, todo - {name}, frozen)
    requires BlocksAtMost(s, t, DoubtfulRuns(s, s.inflight.Keys)) && KeepsStuck(u, t) && !Stuck(u, name)
    ensures name in s.inflight
    ensures UpTo(s, t, todo - {name}, frozen, count + if IsForeign(s.inflight[name], s.store) then 0 else 1)
  {
    OneMoreOwn(s, todo, name);
  }

  lemma UpToAll(s: State, t: State, frozen: SegName -> Frozen, count: nat)
    requires UpTo(s, t, {}, frozen, count)
    ensures RecoveredAll(s, t, frozen) && count == OwnDone(s, {}) && forall name :: !Stuck(s, name)
  {
    AllDone(s, t, frozen);
  }

  // Recovery depends on the disk and the Store alone.
  lemma SameDiskSameRecovery(s: State, u: State, frozen: SegName -> Frozen)
    requires u == s.(mode := u.mode, unavailable := u.unavailable, uncertain := u.uncertain)
    ensures DoubtfulRuns(u, u.inflight.Keys) == DoubtfulRuns(s, s.inflight.Keys)
    ensures (Independent(u) <==> Independent(s)) && (AllRecoverable(u, frozen) <==> AllRecoverable(s, frozen))
  {
    forall name | name in s.inflight
      ensures DoubtfulFile(u, name) <==> DoubtfulFile(s, name)
      ensures RecoverableWith(u, name, frozen) <==> RecoverableWith(s, name, frozen)
    {
      assert Known(u, name.run) == Known(s, name.run);
    }
    assert OwnLogs(u) == OwnLogs(s);
  }

  /**
   What a restored process refuses: exactly the Runs the Store held uncertain and those with a
   doubtful leftover, and the Store now holds them all uncertain.
   */
  ghost predicate RefusesExactly(s: State, t: State) {
    && t.uncertain == UncertainRuns(s.journal) + DoubtfulRuns(s, s.inflight.Keys)
    && UncertainRuns(t.journal) == t.uncertain
  }

  lemma RestoredFramed(s: State, u: State, t: State, v: State, frozen: SegName -> Frozen)
    requires u == s.(mode := u.mode, unavailable := u.unavailable, uncertain := UncertainRuns(s.journal))
    requires RecoveredAll(u, t, frozen) && v == t.(mode := v.mode)
    ensures AllRecovered(s, v, {}) && OwnDone(s, {}) == OwnDone(u, {}) && RefusesExactly(s, v)
    ensures v.unavailable == u.unavailable
    ensures Independent(s) ==> AllRecoverable(s, frozen)
  {
    RecoveredFramed(s, u, t, v, {});
    SameDiskSameRecovery(s, u, frozen);
  }

  // None of these Runs is among the others.
  predicate NoneOf(required: seq<RunId>, runs: set<RunId>) {
    forall k :: 0 <= k < |required| ==> required[k] !in runs
  }
}
