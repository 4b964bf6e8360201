/**
 Submitting a formal run: one client, the HTTP mapping and the Core's tracked submission task
 as a step system in which requests, responses and waiters may be lost, the task may die, and
 the Core may shut down between any two steps.
 */
module Submission {
  import opened Text
  import opened Wrappers

  type RunId = string

  datatype Purpose = PositionPlan | Paper | OtherPurpose

  datatype DaemonError =
    | MissingRun | MissingTask | RunLogUnavailable | SchedulerRunLogUnavailable | Unavailable | InvalidInput | OtherError

  // The submission task's result: nothing was committed, or it may have been, or it was.
  datatype LaunchResult = Submitted(run: RunId) | Rejected(error: DaemonError) | Unknown(known: Option<RunId>)

  // A status and the run id its body carries, if it carries one.
  datatype Response = Response(status: nat, runId: Option<RunId>)

  datatype ClientOutcome = NotSubmitted | SubmittedOrReused(run: RunId) | RejectedByCore(status: nat) | Ambiguous

  // --- The HTTP mapping ---

  function RunHttpError(error: DaemonError): nat {
    match error
    case MissingRun => 404
    case MissingTask => 404
    case RunLogUnavailable => 503
    case SchedulerRunLogUnavailable => 503
    case _ => 409
  }

  function HttpLaunchRun(result: LaunchResult): Response {
    match result
    case Submitted(run) => Response(200, Some(run))
    case Rejected(error) => Response(RunHttpError(error), None)
    case Unknown(run) => Response(503, run)
  }

  function Classify(response: Response): ClientOutcome {
    if response.status / 100 == 5 then Ambiguous
    else if response.status / 100 != 2 then RejectedByCore(response.status)
    else if response.runId.None? || Blank(response.runId.value) then Ambiguous
    else SubmittedOrReused(response.runId.value)
  }

  /**
   A client reads success from the run id alone, a rejection from any status that is neither a
   success nor a server error, and everything else is ambiguous to it.
   */
  lemma ClassifyExactly(response: Response)
    ensures forall run :: Classify(response) == SubmittedOrReused(run) <==>
                          200 <= response.status < 300 && response.runId == Some(run) && !Blank(run)
    ensures forall status :: Classify(response) == RejectedByCore(status) <==>
                             status == response.status && !(200 <= status < 300) && !(500 <= status < 600)
    ensures Classify(response) != NotSubmitted
  {
  }

  /**
   Through the wire the client reads a rejection only from a rejection that is not a run log
   failure, and a run only from a submission that returned that run.
   */
  lemma ClassifiesExactly(result: LaunchResult)
    ensures Classify(HttpLaunchRun(result)).RejectedByCore? <==>
            result.Rejected? && !result.error.RunLogUnavailable? && !result.error.SchedulerRunLogUnavailable?
    ensures forall run :: Classify(HttpLaunchRun(result)) == SubmittedOrReused(run) <==>
                          result == Submitted(run) && !Blank(run)
    ensures Classify(HttpLaunchRun(result)) != NotSubmitted
  {
  }

  // --- The step system ---

  datatype Client = Idle | Posted | Finished(outcome: ClientOutcome)

  // Where the submission is inside the Core.
  datatype Stage =
    | NotArrived
    | Lost
    | Refused
    | CheckingLog
    | ProbingStore
    | Choosing
    | Planning
    | Ticking
    | Auditing(run: RunId)
    | Done(result: LaunchResult)

  // `waiter`: the handler still awaits the task. `wire`: a response on its way.
  datatype Submission = Submission(purpose: Purpose, client: Client, stage: Stage, waiter: bool, wire: Option<Response>)

  // A run in the Store, and the submission that committed it, if one did.
  datatype Commit = Commit(run: RunId, author: Option<nat>)

  datatype World = World(closed: bool, drained: bool, commits: seq<Commit>, subs: map<nat, Submission>)

  datatype Step =
    | NotReady(s: nat)
    | Post(s: nat)
    | LoseRequest(s: nat)
    | Refuse(s: nat, status: nat)
    | Admit(s: nat)
    | CheckLog(s: nat, ready: bool)
    | Probe(s: nat, canonical: Result<bool, DaemonError>)
    | Choose(s: nat, observer: bool, identity: bool)
    | PlanFails(s: nat, error: DaemonError)
    | PlanCommits(s: nat, run: RunId)
    | PlanUnknown(s: nat, run: RunId, landed: bool, reported: bool)
    | TickReserves(s: nat, run: RunId, newly: bool)
    | TickNothing(s: nat)
    | TickFails(s: nat, error: DaemonError)
    | TickUnknown(s: nat, run: RunId, landed: bool, reported: bool)
    | Audit(s: nat, ok: bool)
    | Die(s: nat)
    | DropWaiter(s: nat)
    | Respond(s: nat)
    | LoseResponse(s: nat)
    | Deliver(s: nat)
    | TimeOut(s: nat)
    | Close
    | Drain
    | AutoReserve(run: RunId)

  predicate Running(stage: Stage) {
    !(stage.NotArrived? || stage.Lost? || stage.Refused? || stage.Done?)
  }

  predicate InStore(commits: seq<Commit>, run: RunId) {
    exists i :: 0 <= i < |commits| && commits[i].run == run
  }

  function Reported(run: RunId, reported: bool): Option<RunId> {
    if reported then Some(run) else None
  }

  // A step of one submission; the others are the Core's own.
  predicate OfSubmission(step: Step) {
    !step.Close? && !step.Drain? && !step.AutoReserve?
  }

  // What a step needs of its submission.
  predicate SubCan(sub: Submission, step: Step, closed: bool, commits: seq<Commit>)
    requires OfSubmission(step)
  {
    match step
    case NotReady(_) => sub.client.Idle?
    case Post(_) => sub.client.Idle?
    case LoseRequest(_) => sub.client != Idle && sub.client != Finished(NotSubmitted) && sub.stage.NotArrived?
    case Refuse(_, status) =>
      sub.client != Idle && sub.client != Finished(NotSubmitted) && sub.stage.NotArrived? && 400 <= status < 500
    case Admit(_) => sub.client != Idle && sub.client != Finished(NotSubmitted) && sub.stage.NotArrived?
    case CheckLog(_, _) => sub.stage.CheckingLog?
    case Probe(_, _) => sub.stage.ProbingStore?
    case Choose(_, _, _) => sub.stage.Choosing?
    case PlanFails(_, _) => sub.stage.Planning?
    case PlanCommits(_, run) => sub.stage.Planning? && !InStore(commits, run)
    case PlanUnknown(_, run, landed, reported) =>
      sub.stage.Planning? && !InStore(commits, run) && (reported ==> landed)
    case TickReserves(_, run, newly) => sub.stage.Ticking? && newly == !InStore(commits, run)
    case TickNothing(_) => sub.stage.Ticking?
    case TickFails(_, _) => sub.stage.Ticking?
    case TickUnknown(_, run, landed, reported) =>
      sub.stage.Ticking? && !InStore(commits, run) && (reported ==> landed)
    case Audit(_, _) => sub.stage.Auditing?
    case Die(_) => Running(sub.stage)
    case DropWaiter(_) => sub.waiter
    case Respond(_) => sub.waiter && sub.stage.Done?
    case LoseResponse(_) => sub.wire.Some?
    case Deliver(_) => sub.wire.Some? && sub.client.Posted?
    case TimeOut(_) => sub.client.Posted?
  }

  // What becomes of the submission.
  function Moved(sub: Submission, step: Step, closed: bool): Submission
    requires OfSubmission(step)
  {
    match step
    case NotReady(_) => sub.(client := Finished(NotSubmitted))
    case Post(_) => sub.(client := Posted)
    case LoseRequest(_) => sub.(stage := Lost)
    case Refuse(_, status) => sub.(stage := Refused, wire := Some(Response(status, None)))
    case Admit(_) => sub.(waiter := true, stage := if closed then Done(Rejected(Unavailable)) else CheckingLog)
    case CheckLog(_, ready) => sub.(stage := if ready then ProbingStore else Done(Rejected(RunLogUnavailable)))
    case Probe(_, canonical) =>
      sub.(stage :=
        if canonical.Failure? then Done(Rejected(canonical.error))
        else if !canonical.value then Done(Rejected(InvalidInput))
        else Choosing)
    case Choose(_, observer, identity) =>
      sub.(stage :=
        match sub.purpose
        case PositionPlan => Planning
        case Paper => if observer && identity then Ticking else Done(Rejected(InvalidInput))
        case OtherPurpose => Done(Rejected(InvalidInput)))
    case PlanFails(_, error) => sub.(stage := Done(Rejected(error)))
    case PlanCommits(_, run) => sub.(stage := Auditing(run))
    case PlanUnknown(_, run, _, reported) => sub.(stage := Done(Unknown(Reported(run, reported))))
    case TickReserves(_, run, newly) => sub.(stage := if newly then Auditing(run) else Done(Submitted(run)))
    case TickNothing(_) => sub.(stage := Done(Rejected(InvalidInput)))
    case TickFails(_, error) => sub.(stage := Done(Rejected(error)))
    case TickUnknown(_, run, _, reported) => sub.(stage := Done(Unknown(Reported(run, reported))))
    case Audit(_, ok) =>
      if sub.stage.Auditing?
      then sub.(stage := Done(if ok then Submitted(sub.stage.run) else Unknown(Some(sub.stage.run))))
      else sub
    case Die(_) => sub.(stage := Done(Unknown(None)))
    case DropWaiter(_) => sub.(waiter := false)
    case Respond(_) =>
      if sub.stage.Done? then sub.(waiter := false, wire := Some(HttpLaunchRun(sub.stage.result))) else sub
    case LoseResponse(_) => sub.(wire := None)
    case Deliver(_) =>
      if sub.wire.Some? then sub.(wire := None, client := Finished(Classify(sub.wire.value))) else sub
    case TimeOut(_) => sub.(client := Finished(Ambiguous))
  }

  // The runs a step commits: at most one.
  function Added(step: Step): seq<Commit> {
    match step
    case PlanCommits(s, run) => [Commit(run, Some(s))]
    case PlanUnknown(s, run, landed, _) => if landed then [Commit(run, Some(s))] else []
    case TickReserves(s, run, newly) => if newly then [Commit(run, Some(s))] else []
    case TickUnknown(s, run, landed, _) => if landed then [Commit(run, Some(s))] else []
    case AutoReserve(run) => [Commit(run, None)]
    case _ => []
  }

  predicate Can(w: World, step: Step) {
    if OfSubmission(step) then step.s in w.subs && SubCan(w.subs[step.s], step, w.closed, w.commits)
    else
      match step
      case AutoReserve(run) => !InStore(w.commits, run)
      case Drain => w.closed && forall s :: s in w.subs ==> !Running(w.subs[s].stage)
      case _ => true
  }

  function Next(w: World, step: Step): World
    requires Can(w, step)
  {
    World(w.closed || step.Close?, w.drained || step.Drain?, w.commits + Added(step),
          if OfSubmission(step) then w.subs[step.s := Moved(w.subs[step.s], step, w.closed)] else w.subs)
  }

  predicate Initial(w: World) {
    && !w.closed && !w.drained
    && (forall i :: 0 <= i < |w.commits| ==> w.commits[i].author == None)
    && forall s :: s in w.subs ==> w.subs[s] == Submission(w.subs[s].purpose, Idle, NotArrived, false, None)
  }

  ghost predicate IsRun(worlds: seq<World>, steps: seq<Step>) {
    && |worlds| == |steps| + 1 && Initial(worlds[0])
    && forall i {:trigger steps[i]} :: 0 <= i < |steps| ==>
         Can(worlds[i], steps[i]) && worlds[i + 1] == Next(worlds[i], steps[i])
  }

  // --- The invariant ---

  // How many runs a submission has committed.
  function CountBy(commits: seq<Commit>, s: nat): nat {
    if commits == [] then 0
    else CountBy(commits[..|commits| - 1], s) + (if commits[|commits| - 1].author == Some(s) then 1 else 0)
  }

  // What a submission's place says about what it has committed.
  predicate StageTells(stage: Stage, count: nat, commits: seq<Commit>) {
    match stage
    case Auditing(run) => count == 1 && InStore(commits, run)
    case Done(Submitted(run)) => count <= 1 && InStore(commits, run)
    case Done(Rejected(_)) => count == 0
    case Done(Unknown(run)) => count <= 1 && (run.Some? ==> InStore(commits, run.value))
    case _ => count == 0
  }

  // What the wire and the client can hold.
  predicate ClientTells(sub: Submission) {
    && (sub.client.Idle? || sub.client == Finished(NotSubmitted) ==> sub.stage.NotArrived?)
    && (sub.waiter ==> Running(sub.stage) || sub.stage.Done?)
    && (sub.wire.Some? ==>
          || (sub.stage.Refused? && 400 <= sub.wire.value.status < 500 && sub.wire.value.runId == None)
          || (sub.stage.Done? && sub.wire.value == HttpLaunchRun(sub.stage.result)))
    && (match sub.client
        case Finished(RejectedByCore(_)) => sub.stage.Refused? || (sub.stage.Done? && sub.stage.result.Rejected?)
        case Finished(SubmittedOrReused(run)) => sub.stage == Done(Submitted(run))
        case _ => true)
  }

  predicate Inv(w: World) {
    && (forall s :: s in w.subs ==> StageTells(w.subs[s].stage, CountBy(w.commits, s), w.commits))
    && (forall s :: s in w.subs ==> ClientTells(w.subs[s]))
    && (w.drained ==> w.closed && forall s :: s in w.subs ==> !Running(w.subs[s].stage))
  }

  // A world the submissions can be in.
  type SafeWorld = w: World | Inv(w) witness World(false, false, [], map[])

  lemma CountAdds(commits: seq<Commit>, step: Step, s: nat)
    ensures CountBy(commits + Added(step), s) ==
            CountBy(commits, s) + if Added(step) != [] && Added(step)[0].author == Some(s) then 1 else 0
  {
    if Added(step) != [] {
      assert (commits + Added(step))[..|commits|] == commits;
    } else {
      assert commits + Added(step) == commits;
    }
  }

  lemma StoreGrows(commits: seq<Commit>, more: seq<Commit>)
    ensures forall run :: InStore(commits, run) ==> InStore(commits + more, run)
    ensures forall c :: c in more ==> InStore(commits + more, c.run)
  {
    var all := commits + more;
    forall run | InStore(commits, run) ensures InStore(all, run) {
      var i :| 0 <= i < |commits| && commits[i].run == run;
      assert all[i].run == run;
    }
    forall c | c in more ensures InStore(all, c.run) {
      var i :| 0 <= i < |more| && more[i] == c;
      assert all[|commits| + i] == c;
    }
  }

  lemma CommittingKept(sub: Submission, step: Step, closed: bool, commits: seq<Commit>)
    requires OfSubmission(step) && Added(step) != []
    requires SubCan(sub, step, closed, commits) && StageTells(sub.stage, CountBy(commits, step.s), commits)
    ensures var after := commits + Added(step);
            StageTells(Moved(sub, step, closed).stage, CountBy(after, step.s), after)
  {
    CountAdds(commits, step, step.s);
    StoreGrows(commits, Added(step));
    assert Added(step)[0] in Added(step);
  }

  lemma SilentKept(sub: Submission, step: Step, closed: bool, commits: seq<Commit>)
    requires OfSubmission(step) && Added(step) == []
    requires SubCan(sub, step, closed, commits) && StageTells(sub.stage, CountBy(commits, step.s), commits)
    ensures StageTells(Moved(sub, step, closed).stage, CountBy(commits, step.s), commits)
  {
  }

  lemma StageKept(sub: Submission, step: Step, closed: bool, commits: seq<Commit>)
    requires OfSubmission(step)
    requires SubCan(sub, step, closed, commits) && StageTells(sub.stage, CountBy(commits, step.s), commits)
    ensures var after := commits + Added(step);
            StageTells(Moved(sub, step, closed).stage, CountBy(after, step.s), after)
  {
    if Added(step) == [] {
      assert commits + Added(step) == commits;
      SilentKept(sub, step, closed, commits);
    } else {
      CommittingKept(sub, step, closed, commits);
    }
  }

  lemma ClientKept(sub: Submission, step: Step, closed: bool, commits: seq<Commit>)
    requires OfSubmission(step)
    requires SubCan(sub, step, closed, commits) && ClientTells(sub)
    ensures ClientTells(Moved(sub, step, closed))
  {
    if step.Deliver? && sub.stage.Done? {
      ClassifiesExactly(sub.stage.result);
    }
  }

  // More commits by others do not change what a stage says.
  lemma TellsStill(stage: Stage, count: nat, commits: seq<Commit>, more: seq<Commit>)
    requires StageTells(stage, count, commits)
    ensures StageTells(stage, count, commits + more)
  {
    StoreGrows(commits, more);
  }

  // A step that is not about submission s adds nothing to its count.
  lemma OthersKept(stage: Stage, step: Step, commits: seq<Commit>, s: nat)
    requires StageTells(stage, CountBy(commits, s), commits)
    requires !About(step, s)
    ensures StageTells(stage, CountBy(commits + Added(step), s), commits + Added(step))
  {
    CountAdds(commits, step, s);
    TellsStill(stage, CountBy(commits, s), commits, Added(step));
  }

  predicate About(step: Step, s: nat) {
    OfSubmission(step) && step.s == s
  }

  lemma NextParts(w: World, step: Step)
    requires Can(w, step)
    ensures Next(w, step).commits == w.commits + Added(step)
    ensures Next(w, step).subs.Keys == w.subs.Keys
    ensures forall s :: s in w.subs && !About(step, s) ==> Next(w, step).subs[s] == w.subs[s]
    ensures forall s :: s in w.subs && About(step, s) ==>
                          SubCan(w.subs[s], step, w.closed, w.commits)
                          && Next(w, step).subs[s] == Moved(w.subs[s], step, w.closed)
  {
  }

  lemma SubKept(sub: Submission, after: Submission, step: Step, s: nat, closed: bool, commits: seq<Commit>)
    requires StageTells(sub.stage, CountBy(commits, s), commits) && ClientTells(sub)
    requires About(step, s) ==> SubCan(sub, step, closed, commits) && after == Moved(sub, step, closed)
    requires !About(step, s) ==> after == sub
    ensures StageTells(after.stage, CountBy(commits + Added(step), s), commits + Added(step)) && ClientTells(after)
  {
    if About(step, s) {
      StageKept(sub, step, closed, commits);
      ClientKept(sub, step, closed, commits);
    } else {
      OthersKept(sub.stage, step, commits, s);
    }
  }

  // Nothing starts once the submissions are closed, so nothing runs once they are drained.
  lemma StaysDrained(w: World, step: Step, s: nat)
    requires Can(w, step) && s in w.subs && w.closed && !Running(w.subs[s].stage)
    ensures !Running(Next(w, step).subs[s].stage)
  {
    NextParts(w, step);
  }

  lemma StepKeepsSub(w: World, step: Step, s: nat)
    requires Can(w, step) && s in w.subs
    requires StageTells(w.subs[s].stage, CountBy(w.commits, s), w.commits) && ClientTells(w.subs[s])
    ensures var next := Next(w, step);
            && s in next.subs && StageTells(next.subs[s].stage, CountBy(next.commits, s), next.commits)
            && ClientTells(next.subs[s])
  {
    NextParts(w, step);
    SubKept(w.subs[s], Next(w, step).subs[s], step, s, w.closed, w.commits);
  }

  lemma StepKeepsDrained(w: World, step: Step)
    requires Inv(w) && Can(w, step)
    ensures var next := Next(w, step);
            next.drained ==> next.closed && forall s :: s in next.subs ==> !Running(next.subs[s].stage)
  {
    NextParts(w, step);
    if w.drained {
      forall s | s in Next(w, step).subs ensures !Running(Next(w, step).subs[s].stage) {
        StaysDrained(w, step, s);
      }
    }
  }

  lemma StepKeepsInvariant(w: World, step: Step)
    requires Inv(w) && Can(w, step)
    ensures Inv(Next(w, step))
  {
    var next := Next(w, step);
    NextParts(w, step);
    forall s | s in next.subs
      ensures StageTells(next.subs[s].stage, CountBy(next.commits, s), next.commits) && ClientTells(next.subs[s])
    {
      StepKeepsSub(w, step, s);
    }
    StepKeepsDrained(w, step);
  }

  lemma {:induction false} RunKeepsInvariant(worlds: seq<World>, steps: seq<Step>, i: nat)
    requires IsRun(worlds, steps) && i < |worlds|
    ensures Inv(worlds[i])
  {
    if i == 0 {
      forall s | s in worlds[0].subs ensures CountBy(worlds[0].commits, s) == 0 {
        NoneBy(worlds[0].commits, s);
      }
    } else {
      RunKeepsInvariant(worlds, steps, i - 1);
      StepKeepsInvariant(worlds[i - 1], steps[i - 1]);
    }
  }

  lemma {:induction false} NoneBy(commits: seq<Commit>, s: nat)
    requires forall i :: 0 <= i < |commits| ==> commits[i].author == None
    ensures CountBy(commits, s) == 0
  {
    if commits != [] {
      NoneBy(commits[..|commits| - 1], s);
    }
  }

  // --- What a client may conclude ---

  // A client's answer is final, commits are never undone, and shutdown is not taken back.
  ghost predicate Grows(w: World, later: World) {
    && w.subs.Keys == later.subs.Keys
    && (forall run :: InStore(w.commits, run) ==> InStore(later.commits, run))
    && (forall s :: CountBy(w.commits, s) <= CountBy(later.commits, s))
    && (forall s :: s in w.subs && w.subs[s].client.Finished? ==> later.subs[s].client == w.subs[s].client)
    && (w.drained ==> later.drained)
  }

  lemma StepGrows(w: World, step: Step)
    requires Can(w, step)
    ensures Grows(w, Next(w, step))
  {
    var next := Next(w, step);
    NextParts(w, step);
    StoreGrows(w.commits, Added(step));
    forall s: nat ensures CountBy(w.commits, s) <= CountBy(next.commits, s) {
      CountAdds(w.commits, step, s);
    }
    forall s | s in w.subs && w.subs[s].client.Finished? ensures next.subs[s].client == w.subs[s].client {
      if About(step, s) {
        assert SubCan(w.subs[s], step, w.closed, w.commits);
      }
    }
  }

  lemma {:induction false} OnlyGrows(worlds: seq<World>, steps: seq<Step>, i: nat, j: nat)
    requires IsRun(worlds, steps) && i <= j < |worlds|
    ensures Grows(worlds[i], worlds[j])
    decreases j - i
  {
    if i < j {
      OnlyGrows(worlds, steps, i, j - 1);
      StepGrows(worlds[j - 1], steps[j - 1]);
    }
  }

  /**
   A client told "rejected" committed nothing: not before, not when it was told, and not at any
   later time, whatever was lost, died or shut down.
   */
  lemma RejectedMeansNothing(worlds: seq<World>, steps: seq<Step>, i: nat, j: nat, s: nat)
    requires IsRun(worlds, steps) && i < |worlds| && j < |worlds|
    requires s in worlds[i].subs && worlds[i].subs[s].client.Finished?
             && worlds[i].subs[s].client.outcome.RejectedByCore?
    ensures CountBy(worlds[j].commits, s) == 0
  {
    if i <= j {
      OnlyGrows(worlds, steps, i, j);
      RunKeepsInvariant(worlds, steps, j);
    } else {
      OnlyGrows(worlds, steps, j, i);
      RunKeepsInvariant(worlds, steps, i);
    }
  }

  /** A client given a run id was given a run that is in the Store, then and ever after. */
  lemma SubmittedMeansCommitted(worlds: seq<World>, steps: seq<Step>, i: nat, j: nat, s: nat)
    requires IsRun(worlds, steps) && i <= j < |worlds|
    requires s in worlds[i].subs && worlds[i].subs[s].client.Finished?
             && worlds[i].subs[s].client.outcome.SubmittedOrReused?
    ensures InStore(worlds[j].commits, worlds[i].subs[s].client.outcome.run)
  {
    OnlyGrows(worlds, steps, i, j);
    RunKeepsInvariant(worlds, steps, j);
  }

  /** One start commits at most one run, whatever the client is told. */
  lemma OneStartOneCommit(worlds: seq<World>, steps: seq<Step>, i: nat, s: nat)
    requires IsRun(worlds, steps) && i < |worlds| && s in worlds[i].subs
    ensures CountBy(worlds[i].commits, s) <= 1
  {
    RunKeepsInvariant(worlds, steps, i);
  }

  // The commits made by submissions, in order.
  function BySubmissions(commits: seq<Commit>): seq<Commit> {
    if commits == [] then []
    else
      var last := commits[|commits| - 1];
      BySubmissions(commits[..|commits| - 1]) + (if last.author.Some? then [last] else [])
  }

  /** Once the submissions are closed and waited for, no submission commits anything more. */
  lemma {:induction false} DrainedIsQuiet(worlds: seq<World>, steps: seq<Step>, i: nat, j: nat)
    requires IsRun(worlds, steps) && i <= j < |worlds| && worlds[i].drained
    ensures BySubmissions(worlds[j].commits) == BySubmissions(worlds[i].commits)
    decreases j - i
  {
    if i < j {
      DrainedIsQuiet(worlds, steps, i, j - 1);
      OnlyGrows(worlds, steps, i, j - 1);
      RunKeepsInvariant(worlds, steps, j - 1);
      QuietStep(worlds[j - 1], steps[j - 1]);
    }
  }

  lemma OnlyRunningCommits(w: World, step: Step)
    requires Can(w, step) && !step.AutoReserve? && forall s :: s in w.subs ==> !Running(w.subs[s].stage)
    ensures Added(step) == []
  {
  }

  lemma QuietStep(w: World, step: Step)
    requires Inv(w) && w.drained && Can(w, step)
    ensures BySubmissions(Next(w, step).commits) == BySubmissions(w.commits)
  {
    NextParts(w, step);
    if step.AutoReserve? {
      assert (w.commits + Added(step))[..|w.commits|] == w.commits;
    } else {
      OnlyRunningCommits(w, step);
      assert w.commits + [] == w.commits;
    }
  }

  // --- Why the third answer exists ---

  // A Core with a single submission.
  function Alone(sub: Submission, commits: seq<Commit>): World {
    World(false, false, commits, map[0 := sub])
  }

  const FRESH := Submission(PositionPlan, Idle, NotArrived, false, None)

  // Some run of a fresh client alone with the Core ends like this.
  ghost predicate Reaches(sub: Submission, commits: seq<Commit>) {
    exists worlds, steps ::
      IsRun(worlds, steps) && worlds[0] == Alone(FRESH, []) && worlds[|steps|] == Alone(sub, commits)
  }

  lemma RunExtends(worlds: seq<World>, steps: seq<Step>, step: Step)
    requires IsRun(worlds, steps) && Can(worlds[|steps|], step)
    ensures IsRun(worlds + [Next(worlds[|steps|], step)], steps + [step])
  {
    var more, moreSteps := worlds + [Next(worlds[|steps|], step)], steps + [step];
    forall i | 0 <= i < |moreSteps| ensures Can(more[i], moreSteps[i]) && more[i + 1] == Next(more[i], moreSteps[i]) {
      if i < |steps| {
        assert more[i] == worlds[i] && more[i + 1] == worlds[i + 1] && moreSteps[i] == steps[i];
      }
    }
  }

  lemma AloneMoves(sub: Submission, commits: seq<Commit>, step: Step)
    requires About(step, 0) && SubCan(sub, step, false, commits)
    ensures Can(Alone(sub, commits), step)
    ensures Next(Alone(sub, commits), step) == Alone(Moved(sub, step, false), commits + Added(step))
  {
    assert Next(Alone(sub, commits), step).subs == map[0 := Moved(sub, step, false)];
  }

  lemma Extends(sub: Submission, commits: seq<Commit>, step: Step)
    requires Reaches(sub, commits) && About(step, 0) && SubCan(sub, step, false, commits)
    ensures Reaches(Moved(sub, step, false), commits + Added(step))
  {
    var worlds, steps :|
      IsRun(worlds, steps) && worlds[0] == Alone(FRESH, []) && worlds[|steps|] == Alone(sub, commits);
    AloneMoves(sub, commits, step);
    RunExtends(worlds, steps, step);
    var more, moreSteps := worlds + [Next(worlds[|steps|], step)], steps + [step];
    assert more[|moreSteps|] == Alone(Moved(sub, step, false), commits + Added(step));
  }

  lemma StartReached()
    ensures Reaches(FRESH, [])
  {
    var worlds, steps: seq<Step> := [Alone(FRESH, [])], [];
    assert IsRun(worlds, steps) && worlds[|steps|] == Alone(FRESH, []);
  }

  lemma UnansweredReached()
    ensures Reaches(FRESH.(client := Finished(Ambiguous), stage := Lost), [])
  {
    var posted := FRESH.(client := Posted);
    StartReached();
    Extends(FRESH, [], Post(0));
    Extends(posted, [], LoseRequest(0));
    Extends(posted.(stage := Lost), [], TimeOut(0));
  }

  const ADMITTED := Submission(PositionPlan, Posted, CheckingLog, true, None)

  lemma AdmittedReached()
    ensures Reaches(ADMITTED, [])
  {
    StartReached();
    Extends(FRESH, [], Post(0));
    Extends(FRESH.(client := Posted), [], Admit(0));
  }

  lemma PlanningReached()
    ensures Reaches(ADMITTED.(stage := Planning), [])
  {
    AdmittedReached();
    Extends(ADMITTED, [], CheckLog(0, true));
    Extends(ADMITTED.(stage := ProbingStore), [], Probe(0, Success(true)));
    Extends(ADMITTED.(stage := Choosing), [], Choose(0, false, false));
  }

  lemma CommittedReached()
    ensures Reaches(ADMITTED.(client := Finished(Ambiguous), stage := Auditing("run")), [Commit("run", Some(0))])
  {
    PlanningReached();
    Extends(ADMITTED.(stage := Planning), [], PlanCommits(0, "run"));
    Extends(ADMITTED.(stage := Auditing("run")), [Commit("run", Some(0))], TimeOut(0));
  }

  /**
   An ambiguous answer carries no information: the same silence follows a request that never
   arrived and a committed run whose response has not come.
   */
  lemma AmbiguityIsReal()
    ensures exists sub, commits ::
              Reaches(sub, commits) && sub.client == Finished(Ambiguous) && CountBy(commits, 0) == 0
    ensures exists sub, commits ::
              Reaches(sub, commits) && sub.client == Finished(Ambiguous) && CountBy(commits, 0) == 1
  {
    UnansweredReached();
    CommittedReached();
    var commits := [Commit("run", Some(0))];
    assert commits[..0] == [];
    assert CountBy(commits, 0) == 1;
  }
}
