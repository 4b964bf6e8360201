/**
 The plaintext run log and the scanner that recovery and sealing trust.

 A log is a sequence of records plus a flag for a torn last record. `Scan` is the
 scanner's bookkeeping folded over the records; the lemmas say what that bookkeeping
 means without mentioning how it is computed, and that crash recovery closes every log
 it is able to close.
 */
module RunLogScan {
  import opened Wrappers

  datatype Phase = Startup | T0 | T1 | T3 | T5

  datatype RunId = Formal(name: string) | CoreStartup(session: string)

  datatype Kind =
    | TaskClaimed | TaskResult
    | Request | Terminal | UnknownAfterCrash | UnknownAfterCancel | UnreconciledAfterCrash
    | Other(name: string)

  // The identity every record of one log must repeat.
  datatype Origin = Origin(run: RunId, phase: Phase, session: string, offset: string, store: Option<string>)

  datatype Scope = Scope(task: Option<string>, attempt: Option<string>, call: Option<string>)

  datatype Line = Line(origin: Origin, cursor: int, scope: Scope, kind: Kind)

  datatype File = File(lines: seq<Line>, torn: bool)

  // The logger has one error: the log is unavailable.
  datatype Unavailable = Unavailable

  datatype Inspection = Inspection(
    count: nat, pending: seq<Scope>, unknown: nat, active: set<string>,
    completed: seq<Scope>, unreconciled: nat, marked: set<string>)

  const NOTHING_SEEN := Inspection(0, [], 0, {}, [], 0, {})

  // A startup probe has no Run of its own; every other phase belongs to a formal Run.
  predicate ValidIdentity(origin: Origin) {
    origin.phase.Startup? <==> origin.run.CoreStartup?
  }

  function FindCall(scopes: seq<Scope>, call: Option<string>): (i: nat)
    ensures i <= |scopes|
    ensures i < |scopes| ==> scopes[i].call == call
    ensures forall j :: 0 <= j < i ==> scopes[j].call != call
  {
    if scopes == [] || scopes[0].call == call then 0 else 1 + FindCall(scopes[1..], call)
  }

  function Without<T>(s: seq<T>, i: nat): seq<T>
    requires i < |s|
  {
    s[..i] + s[i + 1..]
  }

  function Activity(active: set<string>, line: Line): set<string> {
    if line.scope.attempt.None? then active
    else if line.kind.TaskClaimed? then active + {line.scope.attempt.value}
    else if line.kind.TaskResult? then active - {line.scope.attempt.value}
    else active
  }

  function ActiveOf(lines: seq<Line>): set<string> {
    if lines == [] then {} else Activity(ActiveOf(lines[..|lines| - 1]), lines[|lines| - 1])
  }

  function Visit(seen: Inspection, line: Line): Result<Inspection, Unavailable> {
    var next := seen.(count := seen.count + 1, active := Activity(seen.active, line));
    match line.kind
    case Request =>
      Success(next.(pending := seen.pending + [line.scope]))
    case Terminal | UnknownAfterCrash | UnknownAfterCancel =>
      var i := FindCall(seen.pending, line.scope.call);
      if i == |seen.pending| then Failure(Unavailable)
      else
        var rest := next.(pending := Without(seen.pending, i));
        if line.kind.Terminal? then Success(rest.(completed := seen.completed + [seen.pending[i]]))
        else Success(rest.(unknown := seen.unknown + 1))
    case UnreconciledAfterCrash =>
      if line.scope.call.None?
         || FindCall(seen.completed, line.scope.call) == |seen.completed|
         || line.scope.call.value in seen.marked
      then Failure(Unavailable)
      else Success(next.(marked := seen.marked + {line.scope.call.value}, unreconciled := seen.unreconciled + 1))
    case _ => Success(next)
  }

  function Scan(lines: seq<Line>): Result<Inspection, Unavailable> {
    if lines == [] then Success(NOTHING_SEEN)
    else
      var seen :- Scan(lines[..|lines| - 1]);
      Visit(seen, lines[|lines| - 1])
  }

  predicate OneOrigin(lines: seq<Line>) {
    forall i :: 0 <= i < |lines| ==> lines[i].origin == lines[0].origin
  }

  predicate Readable(file: File) {
    !file.torn && file.lines != [] && OneOrigin(file.lines) && ValidIdentity(file.lines[0].origin)
  }

  function Inspect(file: File): Result<Inspection, Unavailable> {
    if Readable(file) then Scan(file.lines) else Failure(Unavailable)
  }

  lemma PrefixGrows(lines: seq<Line>, i: nat)
    requires i < |lines|
    ensures lines[..i + 1][..i] == lines[..i] && lines[..i + 1][i] == lines[i]
  {
  }

  // One more record.
  lemma ScanOneMore(lines: seq<Line>, i: nat, seen: Inspection)
    requires i < |lines| && Scan(lines[..i]) == Success(seen)
    ensures Scan(lines[..i + 1]) == Visit(seen, lines[i])
  {
    PrefixGrows(lines, i);
  }

  // A refused record spoils the whole log.
  lemma RefusedRecord(file: File, i: nat)
    requires i < |file.lines| && Scan(file.lines[..i + 1]).Failure?
    ensures Inspect(file) == Failure(Unavailable)
  {
    if Scan(file.lines).Success? {
      ScanPrefix(file.lines, i + 1);
      assert false;
    }
    assert Inspect(file).error == Unavailable;
  }

  // The scanner itself: one pass, updating the bookkeeping record by record.
  method InspectSource(file: File) returns (r: Result<Inspection, Unavailable>)
    ensures r == Inspect(file)
  {
    var inspection := NOTHING_SEEN;
    var i := 0;
    while i < |file.lines|
      invariant 0 <= i <= |file.lines|
      invariant forall j :: 0 <= j < i ==> file.lines[j].origin == file.lines[0].origin
      invariant i > 0 ==> ValidIdentity(file.lines[0].origin)
      invariant Scan(file.lines[..i]) == Success(inspection)
    {
      var line := file.lines[i];
      ScanOneMore(file.lines, i, inspection);
      if (i == 0 && !ValidIdentity(line.origin)) || line.origin != file.lines[0].origin {
        assert !Readable(file);
        return Failure(Unavailable);
      }
      var next := Visit(inspection, line);
      if next.Failure? {
        RefusedRecord(file, i);
        return Failure(Unavailable);
      }
      inspection := next.value;
      i := i + 1;
    }
    assert file.lines[..i] == file.lines;
    if file.torn || i == 0 {
      return Failure(Unavailable);
    }
    return Success(inspection);
  }

  lemma {:induction false} ScanPrefix(lines: seq<Line>, k: nat)
    requires k <= |lines| && Scan(lines).Success?
    ensures Scan(lines[..k]).Success?
    decreases |lines|
  {
    if k == |lines| {
      assert lines[..k] == lines;
    } else {
      var init := lines[..|lines| - 1];
      assert init[..k] == lines[..k];
      ScanPrefix(init, k);
    }
  }

  // --- What the bookkeeping means ---

  // The call identities seen so far: asked for, answered, given up as unknown, and disowned
  // (answered, but with no durable accounting).
  datatype Tally = Tally(
    asked: multiset<Option<string>>, answered: multiset<Option<string>>,
    lost: multiset<Option<string>>, disowned: multiset<Option<string>>)

  function Count(t: Tally, line: Line): Tally {
    match line.kind
    case Request => t.(asked := t.asked + multiset{line.scope.call})
    case Terminal => t.(answered := t.answered + multiset{line.scope.call})
    case UnknownAfterCrash | UnknownAfterCancel => t.(lost := t.lost + multiset{line.scope.call})
    case UnreconciledAfterCrash => t.(disowned := t.disowned + multiset{line.scope.call})
    case _ => t
  }

  function TallyOf(lines: seq<Line>): Tally {
    if lines == [] then Tally(multiset{}, multiset{}, multiset{}, multiset{})
    else Count(TallyOf(lines[..|lines| - 1]), lines[|lines| - 1])
  }

  // Where in the log a record of this kind has this call id.
  function Where(lines: seq<Line>, kind: Kind, call: Option<string>): set<nat> {
    set i: nat | i < |lines| && lines[i].kind == kind && lines[i].scope.call == call
  }

  lemma WhereLast(init: seq<Line>, last: Line, kind: Kind, call: Option<string>)
    ensures |Where(init + [last], kind, call)|
            == |Where(init, kind, call)| + if last.kind == kind && last.scope.call == call then 1 else 0
  {
    var lines := init + [last];
    if last.kind == kind && last.scope.call == call {
      assert Where(lines, kind, call) == Where(init, kind, call) + {|init|};
    } else {
      assert Where(lines, kind, call) == Where(init, kind, call);
    }
  }

  // The tally has this id as often as the log has such records.
  ghost predicate Counts(t: Tally, lines: seq<Line>, call: Option<string>) {
    && t.asked[call] == |Where(lines, Request, call)|
    && t.answered[call] == |Where(lines, Terminal, call)|
    && t.lost[call] == |Where(lines, UnknownAfterCrash, call)| + |Where(lines, UnknownAfterCancel, call)|
    && t.disowned[call] == |Where(lines, UnreconciledAfterCrash, call)|
  }

  lemma CountsOneMore(t: Tally, init: seq<Line>, last: Line, call: Option<string>)
    requires Counts(t, init, call)
    ensures Counts(Count(t, last), init + [last], call)
  {
    WhereLast(init, last, Request, call);
    WhereLast(init, last, Terminal, call);
    WhereLast(init, last, UnknownAfterCrash, call);
    WhereLast(init, last, UnknownAfterCancel, call);
    WhereLast(init, last, UnreconciledAfterCrash, call);
  }

  /** The tally counts the log's requests, answers, unknown and disowning records of each id. */
  lemma {:induction false} TallyExactly(lines: seq<Line>, call: Option<string>)
    ensures Counts(TallyOf(lines), lines, call)
  {
    if lines != [] {
      var init, last := lines[..|lines| - 1], lines[|lines| - 1];
      TallyExactly(init, call);
      CountsOneMore(TallyOf(init), init, last, call);
      assert init + [last] == lines;
    }
  }

  function Ids(scopes: seq<Scope>): (ids: seq<Option<string>>)
    ensures |ids| == |scopes|
    ensures forall i :: 0 <= i < |scopes| ==> ids[i] == scopes[i].call
  {
    seq(|scopes|, i requires 0 <= i < |scopes| => scopes[i].call)
  }

  lemma IdsWithout(scopes: seq<Scope>, i: nat)
    requires i < |scopes|
    ensures multiset(Ids(scopes)) == multiset(Ids(Without(scopes, i))) + multiset{scopes[i].call}
  {
    assert Ids(scopes) == Ids(scopes)[..i] + ([scopes[i].call] + Ids(scopes)[i + 1..]);
    assert Ids(Without(scopes, i)) == Ids(scopes)[..i] + Ids(scopes)[i + 1..];
  }

  lemma IdsAppend(scopes: seq<Scope>, scope: Scope)
    ensures multiset(Ids(scopes + [scope])) == multiset(Ids(scopes)) + multiset{scope.call}
  {
    assert Ids(scopes + [scope]) == Ids(scopes) + [scope.call];
  }

  lemma FindCallExactly(scopes: seq<Scope>, call: Option<string>)
    ensures FindCall(scopes, call) < |scopes| <==> call in multiset(Ids(scopes))
  {
    if FindCall(scopes, call) < |scopes| {
      assert Ids(scopes)[FindCall(scopes, call)] == call;
    } else {
      forall id | id in Ids(scopes) ensures id != call {
        var j :| 0 <= j < |scopes| && Ids(scopes)[j] == id;
      }
    }
  }

  // Every request identity is pending, answered or given up as unknown, with multiplicity.
  ghost predicate CallsBalance(t: Tally, seen: Inspection) {
    && t.asked == multiset(Ids(seen.pending)) + t.answered + t.lost
    && t.answered == multiset(Ids(seen.completed))
  }

  ghost predicate CountsAgree(t: Tally, seen: Inspection) {
    && seen.unknown == |t.lost|
    && seen.unreconciled == |seen.marked|
    && None !in t.disowned
    && (forall c: string :: c in seen.marked <==> Some(c) in t.disowned)
  }

  // Everything the scanner keeps, stated from the tally of the records alone.
  ghost predicate Bookkept(t: Tally, seen: Inspection) {
    CallsBalance(t, seen) && CountsAgree(t, seen)
  }

  lemma CloseBalances(t: Tally, seen: Inspection, line: Line)
    requires CallsBalance(t, seen) && Visit(seen, line).Success?
    requires line.kind.Terminal? || line.kind.UnknownAfterCrash? || line.kind.UnknownAfterCancel?
    ensures CallsBalance(Count(t, line), Visit(seen, line).value)
  {
    var i := FindCall(seen.pending, line.scope.call);
    IdsWithout(seen.pending, i);
    if line.kind.Terminal? {
      IdsAppend(seen.completed, seen.pending[i]);
      assert Visit(seen, line).value.completed == seen.completed + [seen.pending[i]];
    } else {
      assert Visit(seen, line).value.completed == seen.completed;
    }
  }

  lemma VisitBalances(t: Tally, seen: Inspection, line: Line)
    requires CallsBalance(t, seen) && Visit(seen, line).Success?
    ensures CallsBalance(Count(t, line), Visit(seen, line).value)
  {
    if line.kind.Request? {
      IdsAppend(seen.pending, line.scope);
    } else if line.kind.Terminal? || line.kind.UnknownAfterCrash? || line.kind.UnknownAfterCancel? {
      CloseBalances(t, seen, line);
    }
  }

  lemma DisownCounts(t: Tally, seen: Inspection, line: Line)
    requires CountsAgree(t, seen) && line.kind.UnreconciledAfterCrash?
    requires line.scope.call.Some? && line.scope.call.value !in seen.marked
    ensures CountsAgree(Count(t, line), seen.(marked := seen.marked + {line.scope.call.value},
                                              unreconciled := seen.unreconciled + 1))
  {
    var c, u := line.scope.call.value, Count(t, line);
    forall d: string ensures d in seen.marked + {c} <==> Some(d) in u.disowned {
      assert d in seen.marked <==> Some(d) in t.disowned;
    }
  }

  lemma VisitCounts(t: Tally, seen: Inspection, line: Line)
    requires CountsAgree(t, seen) && Visit(seen, line).Success?
    ensures CountsAgree(Count(t, line), Visit(seen, line).value)
  {
    var next, u := Visit(seen, line).value, Count(t, line);
    if line.kind.UnreconciledAfterCrash? {
      DisownCounts(t, seen, line);
    } else {
      assert next.marked == seen.marked && next.unreconciled == seen.unreconciled;
      assert u.disowned == t.disowned;
      if line.kind.UnknownAfterCrash? || line.kind.UnknownAfterCancel? {
        assert |t.lost + multiset{line.scope.call}| == |t.lost| + 1;
      }
    }
  }

  lemma ScanUnfold(lines: seq<Line>)
    requires lines != [] && Scan(lines).Success?
    ensures Scan(lines[..|lines| - 1]).Success?
    ensures Visit(Scan(lines[..|lines| - 1]).value, lines[|lines| - 1]) == Scan(lines)
    ensures TallyOf(lines) == Count(TallyOf(lines[..|lines| - 1]), lines[|lines| - 1])
  {
  }

  lemma {:induction false} ScanBalances(lines: seq<Line>)
    requires Scan(lines).Success?
    ensures CallsBalance(TallyOf(lines), Scan(lines).value)
  {
    if lines != [] {
      ScanUnfold(lines);
      ScanBalances(lines[..|lines| - 1]);
      VisitBalances(TallyOf(lines[..|lines| - 1]), Scan(lines[..|lines| - 1]).value, lines[|lines| - 1]);
    }
  }

  lemma {:induction false} ScanCounts(lines: seq<Line>)
    requires Scan(lines).Success?
    ensures CountsAgree(TallyOf(lines), Scan(lines).value)
  {
    if lines != [] {
      ScanUnfold(lines);
      ScanCounts(lines[..|lines| - 1]);
      VisitCounts(TallyOf(lines[..|lines| - 1]), Scan(lines[..|lines| - 1]).value, lines[|lines| - 1]);
    }
  }

  lemma {:induction false} ScanLength(lines: seq<Line>)
    requires Scan(lines).Success?
    ensures Scan(lines).value.count == |lines|
    ensures Scan(lines).value.active == ActiveOf(lines)
  {
    if lines != [] {
      ScanLength(lines[..|lines| - 1]);
    }
  }

  /** Conservation: the request identities are exactly those still pending, answered, or unknown. */
  lemma ScanConserves(lines: seq<Line>)
    requires Scan(lines).Success?
    ensures Bookkept(TallyOf(lines), Scan(lines).value)
  {
    ScanBalances(lines);
    ScanCounts(lines);
  }

  // The next record closes an open request, or disowns an answered call not disowned before.
  ghost predicate Pairs(t: Tally, line: Line) {
    match line.kind
    case Terminal | UnknownAfterCrash | UnknownAfterCancel =>
      t.answered[line.scope.call] + t.lost[line.scope.call] < t.asked[line.scope.call]
    case UnreconciledAfterCrash =>
      line.scope.call.Some? && line.scope.call in t.answered && line.scope.call !in t.disowned
    case _ => true
  }

  ghost predicate WellPaired(lines: seq<Line>) {
    forall k :: 0 <= k < |lines| ==> Pairs(TallyOf(lines[..k]), lines[k])
  }

  lemma WellPairedLast(lines: seq<Line>)
    requires lines != []
    ensures WellPaired(lines) <==>
            WellPaired(lines[..|lines| - 1]) && Pairs(TallyOf(lines[..|lines| - 1]), lines[|lines| - 1])
  {
    var init := lines[..|lines| - 1];
    forall k | 0 <= k < |init| ensures init[..k] == lines[..k] && init[k] == lines[k] {}
    if WellPaired(lines) {
      forall k | 0 <= k < |init| ensures Pairs(TallyOf(init[..k]), init[k]) {
        assert Pairs(TallyOf(lines[..k]), lines[k]);
      }
    }
    if WellPaired(init) && Pairs(TallyOf(init), lines[|init|]) {
      forall k | 0 <= k < |lines| ensures Pairs(TallyOf(lines[..k]), lines[k]) {
        assert k < |init| ==> Pairs(TallyOf(init[..k]), init[k]);
      }
    }
  }

  /** The scanner accepts exactly the logs in which every record pairs up. */
  lemma {:induction false} ScanAcceptsExactly(lines: seq<Line>)
    ensures Scan(lines).Success? <==> WellPaired(lines)
  {
    if lines != [] {
      var init, line := lines[..|lines| - 1], lines[|lines| - 1];
      ScanAcceptsExactly(init);
      WellPairedLast(lines);
      if Scan(init).Success? {
        var seen := Scan(init).value;
        ScanConserves(init);
        FindCallExactly(seen.pending, line.scope.call);
        FindCallExactly(seen.completed, line.scope.call);
        assert multiset(Ids(seen.pending))[line.scope.call]
            == TallyOf(init).asked[line.scope.call] - TallyOf(init).answered[line.scope.call] - TallyOf(init).lost[line.scope.call];
      }
    }
  }

  /** A file is accepted exactly if it is whole, all its records repeat one valid identity, and they pair up. */
  lemma InspectAcceptsExactly(file: File)
    ensures Inspect(file).Success? <==>
            && !file.torn && file.lines != []
            && (forall i, j :: 0 <= i < |file.lines| && 0 <= j < |file.lines| ==> file.lines[i].origin == file.lines[j].origin)
            && (file.lines[0].origin.phase == Startup <==> file.lines[0].origin.run.CoreStartup?)
            && WellPaired(file.lines)
  {
    ScanAcceptsExactly(file.lines);
  }

  // The scopes of the log's requests.
  function Requested(lines: seq<Line>): multiset<Scope> {
    if lines == [] then multiset{}
    else
      var last := lines[|lines| - 1];
      Requested(lines[..|lines| - 1]) + if last.kind.Request? then multiset{last.scope} else multiset{}
  }

  lemma ClosesOne(seen: Inspection, line: Line)
    requires Visit(seen, line).Success?
    requires line.kind.Terminal? || line.kind.UnknownAfterCrash? || line.kind.UnknownAfterCancel?
    ensures var (i, next) := (FindCall(seen.pending, line.scope.call), Visit(seen, line).value);
            && i < |seen.pending|
            && multiset(seen.pending) == multiset(next.pending) + multiset{seen.pending[i]}
            && multiset(next.completed)
               == multiset(seen.completed) + if line.kind.Terminal? then multiset{seen.pending[i]} else multiset{}
  {
    var i := FindCall(seen.pending, line.scope.call);
    assert seen.pending == seen.pending[..i] + ([seen.pending[i]] + seen.pending[i + 1..]);
    assert Visit(seen, line).value.pending == seen.pending[..i] + seen.pending[i + 1..];
  }

  lemma VisitRequested(seen: Inspection, line: Line, requested: multiset<Scope>)
    requires multiset(seen.pending) + multiset(seen.completed) <= requested && Visit(seen, line).Success?
    ensures var next := Visit(seen, line).value;
            multiset(next.pending) + multiset(next.completed)
            <= requested + if line.kind.Request? then multiset{line.scope} else multiset{}
  {
    if line.kind.Request? {
      assert multiset(seen.pending + [line.scope]) == multiset(seen.pending) + multiset{line.scope};
    } else if line.kind.Terminal? || line.kind.UnknownAfterCrash? || line.kind.UnknownAfterCancel? {
      ClosesOne(seen, line);
    }
  }

  /** What is pending or answered are scopes of requests, each request once; an answer never brings a scope of its own. */
  lemma {:induction false} ScopesAreRequested(lines: seq<Line>)
    requires Scan(lines).Success?
    ensures multiset(Scan(lines).value.pending) + multiset(Scan(lines).value.completed) <= Requested(lines)
  {
    if lines != [] {
      ScanUnfold(lines);
      ScopesAreRequested(lines[..|lines| - 1]);
      VisitRequested(Scan(lines[..|lines| - 1]).value, lines[|lines| - 1], Requested(lines[..|lines| - 1]));
    }
  }

  // The last claim-or-result record of the attempt is a claim.
  ghost predicate LeftOpen(lines: seq<Line>, attempt: string) {
    exists i :: 0 <= i < |lines| && lines[i].kind.TaskClaimed? && lines[i].scope.attempt == Some(attempt)
                && forall j :: i < j < |lines| ==> !(lines[j].kind.TaskResult? && lines[j].scope.attempt == Some(attempt))
  }

  lemma LeftOpenLast(lines: seq<Line>, attempt: string)
    requires lines != []
    ensures LeftOpen(lines, attempt) <==>
            var last := lines[|lines| - 1];
            if last.scope.attempt == Some(attempt) && last.kind.TaskClaimed? then true
            else if last.scope.attempt == Some(attempt) && last.kind.TaskResult? then false
            else LeftOpen(lines[..|lines| - 1], attempt)
  {
    var init, n := lines[..|lines| - 1], |lines| - 1;
    if lines[n].scope.attempt == Some(attempt) && lines[n].kind.TaskClaimed? {
      assert LeftOpen(lines, attempt);
    } else if LeftOpen(init, attempt) && !(lines[n].scope.attempt == Some(attempt) && lines[n].kind.TaskResult?) {
      var i :| 0 <= i < |init| && init[i].kind.TaskClaimed? && init[i].scope.attempt == Some(attempt)
               && forall j :: i < j < |init| ==> !(init[j].kind.TaskResult? && init[j].scope.attempt == Some(attempt));
      forall j | i < j < |lines| ensures !(lines[j].kind.TaskResult? && lines[j].scope.attempt == Some(attempt)) {
        assert j < |init| ==> lines[j] == init[j];
      }
      assert lines[i] == init[i];
    }
  }

  /** An attempt is reported active exactly when its last claim/result record is a claim. */
  lemma {:induction false} ActiveExactly(lines: seq<Line>, attempt: string)
    ensures attempt in ActiveOf(lines) <==> LeftOpen(lines, attempt)
  {
    if lines != [] {
      ActiveExactly(lines[..|lines| - 1], attempt);
      LeftOpenLast(lines, attempt);
    }
  }
}
