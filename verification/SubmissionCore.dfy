/**
 The submission path in the order the code runs it: the client's one POST, the HTTP handler,
 the tracked task. Every effect is one step of the step system, so whatever is interleaved
 between two of these calls is covered by the results about runs.
 */
module SubmissionCore {
  import opened Wrappers
  import opened Submission
  import opened Text

  // --- What the environment answers ---

  datatype CommitAnswer = Committed | CommitFailed(landed: bool, reported: bool)

  datatype PlanAnswer = NotPrepared(error: DaemonError) | Prepared(run: RunId, commit: CommitAnswer)

  datatype TickAnswer =
    | Reserved(run: RunId, newly: bool) | NothingReserved | TickError(error: DaemonError)
    | SubmissionUnknown(run: RunId, landed: bool, reported: bool)

  datatype Answers = Answers(
    logReady: bool, canonical: Result<bool, DaemonError>, plan: PlanAnswer,
    observer: bool, identity: bool, tick: TickAnswer, auditOk: bool)

  // A new run has a new identity, a reused one is in the Store, and only what landed is reported.
  predicate Consistent(answers: Answers, commits: seq<Commit>) {
    && (match answers.plan
        case NotPrepared(_) => true
        case Prepared(run, commit) => !InStore(commits, run) && (commit.CommitFailed? ==> commit.reported ==> commit.landed))
    && (match answers.tick
        case Reserved(run, newly) => newly == !InStore(commits, run)
        case SubmissionUnknown(run, landed, reported) => !InStore(commits, run) && (reported ==> landed)
        case _ => true)
  }

  // --- What the answers amount to ---

  function Known(run: RunId, reported: bool): Option<RunId> {
    if reported then Some(run) else None
  }

  // A new run counts as submitted once it is announced in its log.
  function Announced(run: RunId, auditOk: bool): LaunchResult {
    if auditOk then Submitted(run) else Unknown(Some(run))
  }

  // The result, case by case, from the purpose and the answers alone.
  function Verdict(purpose: Purpose, answers: Answers): LaunchResult {
    if !answers.logReady then Rejected(RunLogUnavailable)
    else if answers.canonical.Failure? then Rejected(answers.canonical.error)
    else if answers.canonical.value == false then Rejected(InvalidInput)
    else
      match purpose
      case OtherPurpose => Rejected(InvalidInput)
      case PositionPlan =>
        (match answers.plan
         case NotPrepared(error) => Rejected(error)
         case Prepared(run, Committed) => Announced(run, answers.auditOk)
         case Prepared(run, CommitFailed(_, reported)) => Unknown(Known(run, reported)))
      case Paper =>
        if !answers.observer || !answers.identity then Rejected(InvalidInput)
        else
          match answers.tick
          case Reserved(run, true) => Announced(run, answers.auditOk)
          case Reserved(run, false) => Submitted(run)
          case NothingReserved => Rejected(InvalidInput)
          case TickError(error) => Rejected(error)
          case SubmissionUnknown(run, _, reported) => Unknown(Known(run, reported))
  }

  // Every check before the commit passes.
  predicate Passes(purpose: Purpose, answers: Answers) {
    && answers.logReady && answers.canonical == Success(true)
    && (purpose.PositionPlan? || (purpose.Paper? && answers.observer && answers.identity))
  }

  // The run that lands in the Store, if one does.
  function Landed(purpose: Purpose, answers: Answers): Option<RunId> {
    if !Passes(purpose, answers) then None
    else if purpose.PositionPlan? then
      if answers.plan.Prepared? && (answers.plan.commit.Committed? || answers.plan.commit.landed)
      then Some(answers.plan.run) else None
    else
      if (answers.tick.Reserved? && answers.tick.newly) || (answers.tick.SubmissionUnknown? && answers.tick.landed)
      then Some(answers.tick.run) else None
  }

  function With(commits: seq<Commit>, run: Option<RunId>, s: nat): seq<Commit> {
    if run.Some? then commits + [Commit(run.value, Some(s))] else commits
  }

  // Where the submission is once its commit was tried: a new run is still to be announced.
  function AfterCommit(purpose: Purpose, answers: Answers): Stage {
    if Passes(purpose, answers) && purpose.PositionPlan? && answers.plan.Prepared? && answers.plan.commit.Committed?
    then Auditing(answers.plan.run)
    else if Passes(purpose, answers) && purpose.Paper? && answers.tick.Reserved? && answers.tick.newly
    then Auditing(answers.tick.run)
    else Done(Verdict(purpose, answers))
  }

  // The stage the checks lead to, one after the other.
  function Checked(logReady: bool, canonical: Result<bool, DaemonError>): Stage {
    if !logReady then Done(Rejected(RunLogUnavailable))
    else if canonical.Failure? then Done(Rejected(canonical.error))
    else if !canonical.value then Done(Rejected(InvalidInput))
    else Choosing
  }

  function Chosen(purpose: Purpose, answers: Answers): Stage {
    match purpose
    case PositionPlan => Planning
    case Paper => if answers.observer && answers.identity then Ticking else Done(Rejected(InvalidInput))
    case OtherPurpose => Done(Rejected(InvalidInput))
  }

  lemma CheckingDecides(purpose: Purpose, answers: Answers)
    ensures (if Checked(answers.logReady, answers.canonical).Done? then Checked(answers.logReady, answers.canonical)
             else Chosen(purpose, answers))
            == if !Passes(purpose, answers) then Done(Verdict(purpose, answers))
               else if purpose.Paper? then Ticking else Planning
    ensures !Passes(purpose, answers) ==> Verdict(purpose, answers).Rejected?
  {
  }

  // Announcing what is to be announced gives the verdict; without a commit it is a rejection.
  lemma AnnouncingDecides(purpose: Purpose, answers: Answers)
    ensures var stage := AfterCommit(purpose, answers);
            (if stage.Auditing? then Done(Announced(stage.run, answers.auditOk)) else stage)
            == Done(Verdict(purpose, answers))
    ensures !Passes(purpose, answers) ==> Verdict(purpose, answers).Rejected? && Landed(purpose, answers) == None
  {
  }

  // What one submission may do to the Store, by its result.
  predicate Accounts(result: LaunchResult, s: nat, before: seq<Commit>, after: seq<Commit>) {
    && (after == before || (|after| == |before| + 1 && after[..|before|] == before && after[|before|].author == Some(s)))
    && (result.Rejected? ==> after == before)
    && (result.Submitted? ==> if after == before then InStore(before, result.run) else after[|before|].run == result.run)
    && (result.Unknown? && result.known.Some? ==> after != before && after[|before|].run == result.known.value)
  }

  // Where a submission is after its commit was tried, and what the Store then holds.
  predicate Settles(stage: Stage, s: nat, before: seq<Commit>, after: seq<Commit>) {
    || (stage.Auditing? && after == before + [Commit(stage.run, Some(s))])
    || (stage.Done? && Accounts(stage.result, s, before, after))
  }

  lemma StepSettles(sub: Submission, step: Step, closed: bool, commits: seq<Commit>)
    requires step.PlanFails? || step.PlanCommits? || step.PlanUnknown?
             || step.TickReserves? || step.TickNothing? || step.TickFails? || step.TickUnknown?
    requires SubCan(sub, step, closed, commits)
    ensures Settles(Moved(sub, step, closed).stage, step.s, commits, commits + Added(step))
    ensures Moved(sub, step, closed) == sub.(stage := Moved(sub, step, closed).stage)
  {
    assert commits + [] == commits;
    assert (commits + Added(step))[..|commits|] == commits;
  }

  // Everything but the submission's own place and the commits is as it was.
  predicate OnlyMoved(before: World, after: World, s: nat) {
    && s in before.subs && after.subs.Keys == before.subs.Keys
    && after.closed == before.closed && after.drained == before.drained
    && forall t :: t in before.subs && t != s ==> after.subs[t] == before.subs[t]
  }

  class Core {
    var world: SafeWorld

    // One step of the system.
    method Take(step: Step)
      requires Can(world, step)
      modifies this
      ensures world == Next(old(world), step)
    {
      StepKeepsInvariant(world, step);
      world := Next(world, step);
    }

    // One step of one submission.
    method Advance(s: nat, step: Step)
      requires About(step, s) && s in world.subs
      requires SubCan(world.subs[s], step, world.closed, world.commits)
      modifies this
      ensures OnlyMoved(old(world), world, s)
      ensures world.subs[s] == Moved(old(world).subs[s], step, old(world).closed)
      ensures world.commits == old(world).commits + Added(step)
      ensures Added(step) == [] ==> world.commits == old(world).commits
    {
      Take(step);
    }

    // A position plan: nothing before the commit can have reached the Store; anything after may have.
    method CommitPlan(s: nat, plan: PlanAnswer)
      requires s in world.subs && world.subs[s].stage.Planning?
      requires plan.Prepared? ==> !InStore(world.commits, plan.run)
                                  && (plan.commit.CommitFailed? ==> plan.commit.reported ==> plan.commit.landed)
      modifies this
      ensures OnlyMoved(old(world), world, s)
      ensures world.subs[s] == old(world).subs[s].(stage := world.subs[s].stage)
      ensures Settles(world.subs[s].stage, s, old(world).commits, world.commits)
      ensures world.subs[s].stage ==
              match plan
              case NotPrepared(error) => Done(Rejected(error))
              case Prepared(run, Committed) => Auditing(run)
              case Prepared(run, CommitFailed(_, reported)) => Done(Unknown(Known(run, reported)))
      ensures world.commits == With(old(world).commits,
                if plan.Prepared? && (plan.commit.Committed? || plan.commit.landed) then Some(plan.run) else None, s)
    {
      var step :=
        match plan
        case NotPrepared(error) => PlanFails(s, error)
        case Prepared(run, Committed) => PlanCommits(s, run)
        case Prepared(run, CommitFailed(landed, reported)) => PlanUnknown(s, run, landed, reported);
      StepSettles(world.subs[s], step, world.closed, world.commits);
      Advance(s, step);
    }

    // A Paper reservation by the scheduler.
    method TickPaper(s: nat, tick: TickAnswer)
      requires s in world.subs && world.subs[s].stage.Ticking?
      requires tick.Reserved? ==> tick.newly == !InStore(world.commits, tick.run)
      requires tick.SubmissionUnknown? ==> !InStore(world.commits, tick.run) && (tick.reported ==> tick.landed)
      modifies this
      ensures OnlyMoved(old(world), world, s)
      ensures world.subs[s] == old(world).subs[s].(stage := world.subs[s].stage)
      ensures Settles(world.subs[s].stage, s, old(world).commits, world.commits)
      ensures world.subs[s].stage ==
              match tick
              case Reserved(run, newly) => if newly then Auditing(run) else Done(Submitted(run))
              case NothingReserved => Done(Rejected(InvalidInput))
              case TickError(error) => Done(Rejected(error))
              case SubmissionUnknown(run, _, reported) => Done(Unknown(Known(run, reported)))
      ensures world.commits == With(old(world).commits,
                if (tick.Reserved? && tick.newly) || (tick.SubmissionUnknown? && tick.landed) then Some(tick.run)
                else None, s)
    {
      var step :=
        match tick
        case Reserved(run, newly) => TickReserves(s, run, newly)
        case NothingReserved => TickNothing(s)
        case TickError(error) => TickFails(s, error)
        case SubmissionUnknown(run, landed, reported) => TickUnknown(s, run, landed, reported);
      StepSettles(world.subs[s], step, world.closed, world.commits);
      Advance(s, step);
    }

    // The checks of the log and the Store.
    method CheckReadiness(s: nat, logReady: bool, canonical: Result<bool, DaemonError>)
      requires s in world.subs && world.subs[s].stage.CheckingLog?
      modifies this
      ensures OnlyMoved(old(world), world, s) && world.commits == old(world).commits
      ensures var stage := world.subs[s].stage;
              && world.subs[s] == old(world).subs[s].(stage := stage)
              && (stage.Choosing? || (stage.Done? && stage.result.Rejected?))
      ensures world.subs[s].stage == Checked(logReady, canonical)
    {
      Advance(s, CheckLog(s, logReady));
      if !world.subs[s].stage.Done? {
        Advance(s, Probe(s, canonical));
      }
    }

    // The checks before anything is committed; every refusal here is a rejection.
    method CheckBeforeCommit(s: nat, answers: Answers)
      requires s in world.subs && world.subs[s].stage.CheckingLog?
      modifies this
      ensures OnlyMoved(old(world), world, s) && world.commits == old(world).commits
      ensures var stage := world.subs[s].stage;
              && world.subs[s] == old(world).subs[s].(stage := stage)
              && (stage.Done? ==> stage.result.Rejected?)
      ensures world.subs[s].stage ==
              var purpose := old(world).subs[s].purpose;
              if !Passes(purpose, answers) then Done(Verdict(purpose, answers))
              else if purpose.Paper? then Ticking else Planning
    {
      CheckingDecides(world.subs[s].purpose, answers);
      CheckReadiness(s, answers.logReady, answers.canonical);
      if !world.subs[s].stage.Done? {
        ChooseKind(s, answers);
      }
    }

    // The kind of run asked for, if it is configured here.
    method ChooseKind(s: nat, answers: Answers)
      requires s in world.subs && world.subs[s].stage.Choosing?
      modifies this
      ensures OnlyMoved(old(world), world, s) && world.commits == old(world).commits
      ensures world.subs[s] == old(world).subs[s].(stage := Chosen(old(world).subs[s].purpose, answers))
    {
      Advance(s, Choose(s, answers.observer, answers.identity));
    }

    // The commit of the chosen kind of run.
    method CommitRun(s: nat, answers: Answers)
      requires s in world.subs && Passes(world.subs[s].purpose, answers)
      requires world.subs[s].stage == if world.subs[s].purpose.Paper? then Ticking else Planning
      requires Consistent(answers, world.commits)
      modifies this
      ensures OnlyMoved(old(world), world, s)
      ensures world.subs[s] == old(world).subs[s].(stage := AfterCommit(old(world).subs[s].purpose, answers))
      ensures Settles(world.subs[s].stage, s, old(world).commits, world.commits)
      ensures world.commits == With(old(world).commits, Landed(old(world).subs[s].purpose, answers), s)
    {
      if world.subs[s].stage.Planning? {
        CommitPlan(s, answers.plan);
      } else {
        TickPaper(s, answers.tick);
      }
    }

    // A newly committed run is announced in its log; failing that, the result is unknown.
    method Announce(s: nat, auditOk: bool, ghost before: seq<Commit>)
      requires s in world.subs && Settles(world.subs[s].stage, s, before, world.commits)
      modifies this
      ensures OnlyMoved(old(world), world, s)
      ensures world.subs[s] == old(world).subs[s].(stage := world.subs[s].stage)
      ensures world.subs[s].stage.Done? && Accounts(world.subs[s].stage.result, s, before, world.commits)
      ensures world.commits == old(world).commits
      ensures var stage := old(world).subs[s].stage;
              world.subs[s].stage == if stage.Auditing? then Done(Announced(stage.run, auditOk)) else stage
    {
      if world.subs[s].stage.Auditing? {
        assert (before + [Commit(world.subs[s].stage.run, Some(s))])[..|before|] == before;
        Advance(s, Audit(s, auditOk));
      }
    }

    /**
     The tracked task. A rejection leaves the Store as it was; a returned run was committed by
     this submission or was there before; at most one run is committed. What the environment
     answered decides the result and what the Store then holds.
     */
    method LaunchFormalRun(s: nat, answers: Answers) returns (result: LaunchResult)
      requires s in world.subs && world.subs[s].stage.CheckingLog?
      requires Consistent(answers, world.commits)
      modifies this
      ensures OnlyMoved(old(world), world, s)
      ensures world.subs[s] == old(world).subs[s].(stage := Done(result))
      ensures Accounts(result, s, old(world).commits, world.commits)
      ensures result == Verdict(old(world).subs[s].purpose, answers)
      ensures world.commits == With(old(world).commits, Landed(old(world).subs[s].purpose, answers), s)
    {
      AnnouncingDecides(world.subs[s].purpose, answers);
      CheckBeforeCommit(s, answers);
      if !world.subs[s].stage.Done? {
        CommitRun(s, answers);
        Announce(s, answers.auditOk, old(world).commits);
      }
      result := world.subs[s].stage.result;
    }

    /** Admission: a closed tracker rejects and commits nothing; an open one runs the task. */
    method SubmitFormalRun(s: nat, answers: Answers) returns (result: LaunchResult)
      requires s in world.subs && world.subs[s].stage.NotArrived? && world.subs[s].client.Posted?
      requires Consistent(answers, world.commits)
      modifies this
      ensures OnlyMoved(old(world), world, s)
      ensures world.subs[s] == old(world).subs[s].(waiter := true, stage := Done(result))
      ensures Accounts(result, s, old(world).commits, world.commits)
      ensures result == if old(world).closed then Rejected(Unavailable) else Verdict(old(world).subs[s].purpose, answers)
      ensures world.commits == if old(world).closed then old(world).commits
                               else With(old(world).commits, Landed(old(world).subs[s].purpose, answers), s)
    {
      Advance(s, Admit(s));
      if world.closed {
        return Rejected(Unavailable);
      }
      result := LaunchFormalRun(s, answers);
    }

    method CloseFormalSubmissions()
      modifies this
      ensures world == old(world).(closed := true)
    {
      Take(Close);
    }
  }

  // What the client and the network do around the one POST.
  datatype Conditions = Conditions(
    ready: bool, requestArrives: bool, refusal: Option<nat>, responseArrives: bool, answers: Answers)

  // A response is on its way, and what it says of the Store is so.
  predicate Answered(sub: Submission, s: nat, before: seq<Commit>, after: seq<Commit>) {
    && sub.wire.Some?
    && ((sub.stage.Refused? && after == before && 400 <= sub.wire.value.status < 500)
        || (sub.stage.Done? && sub.wire.value == HttpLaunchRun(sub.stage.result)
            && Accounts(sub.stage.result, s, before, after)))
  }

  // What the client's reading of that response then says of the Store.
  predicate Concludes(outcome: ClientOutcome, before: seq<Commit>, after: seq<Commit>) {
    && !outcome.NotSubmitted?
    && (outcome.RejectedByCore? ==> after == before)
    && (outcome.SubmittedOrReused? ==> InStore(after, outcome.run))
    && |after| <= |before| + 1
  }

  lemma AnswerConcludes(sub: Submission, s: nat, before: seq<Commit>, after: seq<Commit>)
    requires Answered(sub, s, before, after)
    ensures Concludes(Classify(sub.wire.value), before, after) && Concludes(Ambiguous, before, after)
  {
    if sub.stage.Done? {
      ClassifiesExactly(sub.stage.result);
      if sub.stage.result.Submitted? {
        ReturnedIsStored(sub.stage.result, s, before, after);
      }
    }
  }

  // What a client that gets its answer is told of a result.
  function Told(result: LaunchResult): ClientOutcome {
    match result
    case Submitted(run) => if Blank(run) then Ambiguous else SubmittedOrReused(run)
    case Unknown(_) => Ambiguous
    case Rejected(error) =>
      if error.RunLogUnavailable? || error.SchedulerRunLogUnavailable? then Ambiguous
      else if error.MissingRun? || error.MissingTask? then RejectedByCore(404)
      else RejectedByCore(409)
  }

  lemma ToldOverTheWire(result: LaunchResult)
    ensures Classify(HttpLaunchRun(result)) == Told(result)
  {
  }

  // The result of an admitted caller.
  function Outcome(purpose: Purpose, answers: Answers, closed: bool): LaunchResult {
    if closed then Rejected(Unavailable) else Verdict(purpose, answers)
  }

  // What the client hears, from what happened around its one POST.
  function Heard(purpose: Purpose, conditions: Conditions, closed: bool): ClientOutcome {
    if !conditions.ready then NotSubmitted
    else if !conditions.requestArrives || !conditions.responseArrives then Ambiguous
    else if conditions.refusal.Some? then RejectedByCore(conditions.refusal.value)
    else Told(Outcome(purpose, conditions.answers, closed))
  }

  // The handler refuses an unauthorized or foreign caller before anything else.
  method HandleRun(core: Core, s: nat, conditions: Conditions)
    requires s in core.world.subs
    requires core.world.subs[s] == Submission(core.world.subs[s].purpose, Posted, NotArrived, false, None)
    requires Consistent(conditions.answers, core.world.commits)
    requires conditions.refusal.Some? ==> 400 <= conditions.refusal.value < 500
    modifies core
    ensures OnlyMoved(old(core.world), core.world, s)
    ensures core.world.subs[s].client.Posted?
    ensures Answered(core.world.subs[s], s, old(core.world).commits, core.world.commits)
    ensures core.world.subs[s].wire.Some? && Classify(core.world.subs[s].wire.value) ==
            if conditions.refusal.Some? then RejectedByCore(conditions.refusal.value)
            else Told(Outcome(old(core.world).subs[s].purpose, conditions.answers, old(core.world).closed))
  {
    if conditions.refusal.Some? {
      core.Advance(s, Refuse(s, conditions.refusal.value));
      return;
    }
    var result := core.SubmitFormalRun(s, conditions.answers);
    ToldOverTheWire(result);
    core.Advance(s, Respond(s));
  }

  // The client reads the response, or gives up.
  method Receive(core: Core, s: nat, arrives: bool) returns (outcome: ClientOutcome)
    requires s in core.world.subs && core.world.subs[s].client.Posted? && core.world.subs[s].wire.Some?
    modifies core
    ensures OnlyMoved(old(core.world), core.world, s) && core.world.commits == old(core.world).commits
    ensures core.world.subs[s].client == Finished(outcome)
    ensures outcome == if arrives then Classify(old(core.world).subs[s].wire.value) else Ambiguous
  {
    if !arrives {
      core.Advance(s, LoseResponse(s));
      core.Advance(s, TimeOut(s));
      return Ambiguous;
    }
    outcome := Classify(core.world.subs[s].wire.value);
    core.Advance(s, Deliver(s));
  }

  // The one POST and its answer.
  method Exchange(core: Core, s: nat, conditions: Conditions) returns (outcome: ClientOutcome)
    requires s in core.world.subs
    requires core.world.subs[s] == Submission(core.world.subs[s].purpose, Posted, NotArrived, false, None)
    requires Consistent(conditions.answers, core.world.commits)
    requires conditions.refusal.Some? ==> 400 <= conditions.refusal.value < 500
    modifies core
    ensures OnlyMoved(old(core.world), core.world, s)
    ensures core.world.subs[s].client == Finished(outcome)
    ensures Concludes(outcome, old(core.world).commits, core.world.commits)
    ensures outcome == Heard(old(core.world).subs[s].purpose, conditions.(ready := true), old(core.world).closed)
  {
    if !conditions.requestArrives {
      core.Advance(s, LoseRequest(s));
      core.Advance(s, TimeOut(s));
      return Ambiguous;
    }
    HandleRun(core, s, conditions);
    AnswerConcludes(core.world.subs[s], s, old(core.world).commits, core.world.commits);
    outcome := Receive(core, s, conditions.responseArrives);
  }

  lemma ReturnedIsStored(result: LaunchResult, s: nat, before: seq<Commit>, after: seq<Commit>)
    requires result.Submitted? && Accounts(result, s, before, after)
    ensures InStore(after, result.run)
  {
    if after != before {
      assert after[|before|].run == result.run;
    }
  }

  /**
   One start, end to end. It posts once, so it commits at most one run; a rejection or an
   unready Core leaves the Store as it was; a run id names a run in the Store.
   */
  method Start(core: Core, s: nat, conditions: Conditions) returns (outcome: ClientOutcome)
    requires s in core.world.subs
    requires core.world.subs[s] == Submission(core.world.subs[s].purpose, Idle, NotArrived, false, None)
    requires Consistent(conditions.answers, core.world.commits)
    requires conditions.refusal.Some? ==> 400 <= conditions.refusal.value < 500
    modifies core
    ensures OnlyMoved(old(core.world), core.world, s)
    ensures core.world.subs[s].client == Finished(outcome)
    ensures outcome.NotSubmitted? || outcome.RejectedByCore? ==> core.world.commits == old(core.world).commits
    ensures outcome.SubmittedOrReused? ==> InStore(core.world.commits, outcome.run)
    ensures |core.world.commits| <= |old(core.world).commits| + 1
    ensures outcome.NotSubmitted? <==> !conditions.ready
    ensures outcome == Heard(old(core.world).subs[s].purpose, conditions, old(core.world).closed)
  {
    if !conditions.ready {
      core.Advance(s, NotReady(s));
      return NotSubmitted;
    }
    core.Advance(s, Post(s));
    outcome := Exchange(core, s, conditions);
  }
}
