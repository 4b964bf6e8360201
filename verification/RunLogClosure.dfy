/**
 How crash recovery closes a log that has no archive yet: one "unknown" record for every
 request still pending, then one "unreconciled" record for every answered call that the
 Store cannot account for.
 */
module RunLogClosure {
  import opened Wrappers
  import opened RunLogScan

  function Mark(origin: Origin, cursor: int, kind: Kind, scopes: seq<Scope>): (marks: seq<Line>)
    ensures |marks| == |scopes|
    ensures forall i :: 0 <= i < |scopes| ==> marks[i] == Line(origin, cursor, scopes[i], kind)
  {
    seq(|scopes|, i requires 0 <= i < |scopes| => Line(origin, cursor, scopes[i], kind))
  }

  // Formal phases prove their answered calls against the Store; a startup probe does not.
  function Unaccounted(phase: Phase, completed: seq<Scope>, accounted: set<Scope>): seq<Scope> {
    if completed == [] || phase.Startup? then []
    else (if completed[0] in accounted then [] else [completed[0]]) + Unaccounted(phase, completed[1..], accounted)
  }

  lemma {:induction false} UnaccountedSplit(phase: Phase, a: seq<Scope>, b: seq<Scope>, accounted: set<Scope>)
    ensures Unaccounted(phase, a + b, accounted) == Unaccounted(phase, a, accounted) + Unaccounted(phase, b, accounted)
  {
    if a == [] {
      assert a + b == b;
    } else {
      assert (a + b)[0] == a[0] && (a + b)[1..] == a[1..] + b;
      UnaccountedSplit(phase, a[1..], b, accounted);
    }
  }

  lemma {:induction false} UnaccountedExactly(phase: Phase, completed: seq<Scope>, accounted: set<Scope>, scope: Scope)
    ensures scope in Unaccounted(phase, completed, accounted) <==>
            !phase.Startup? && scope in completed && scope !in accounted
  {
    if completed != [] {
      UnaccountedExactly(phase, completed[1..], accounted, scope);
    }
  }

  function Unmarked(scopes: seq<Scope>, marked: set<string>): seq<Scope> {
    if scopes == [] then []
    else
      (if scopes[0].call.Some? && scopes[0].call.value in marked then [] else [scopes[0]])
      + Unmarked(scopes[1..], marked)
  }

  lemma {:induction false} UnmarkedExactly(scopes: seq<Scope>, marked: set<string>, scope: Scope)
    ensures scope in Unmarked(scopes, marked) <==>
            scope in scopes && (scope.call.None? || scope.call.value !in marked)
  {
    if scopes != [] {
      UnmarkedExactly(scopes[1..], marked, scope);
    }
  }

  // The answered calls this recovery has to disown, in log order.
  function ToDisown(phase: Phase, seen: Inspection, accounted: set<Scope>): seq<Scope> {
    Unmarked(Unaccounted(phase, seen.completed, accounted), seen.marked)
  }

  lemma ToDisownExactly(phase: Phase, seen: Inspection, accounted: set<Scope>)
    ensures forall scope :: scope in ToDisown(phase, seen, accounted) <==>
              && !phase.Startup? && scope in seen.completed && scope !in accounted
              && (scope.call.None? || scope.call.value !in seen.marked)
  {
    forall scope
      ensures scope in ToDisown(phase, seen, accounted) <==>
              && !phase.Startup? && scope in seen.completed && scope !in accounted
              && (scope.call.None? || scope.call.value !in seen.marked)
    {
      UnmarkedExactly(Unaccounted(phase, seen.completed, accounted), seen.marked, scope);
      UnaccountedExactly(phase, seen.completed, accounted, scope);
    }
  }

  // The records recovery appends, given the log's first record and what the scan has seen.
  function Closing(first: Line, seen: Inspection, accounted: set<Scope>): seq<Line> {
    Mark(first.origin, first.cursor, UnknownAfterCrash, seen.pending)
    + Mark(first.origin, first.cursor, UnreconciledAfterCrash, ToDisown(first.origin.phase, seen, accounted))
  }

  function ClosingLines(lines: seq<Line>, accounted: set<Scope>): seq<Line>
    requires lines != [] && Scan(lines).Success?
  {
    Closing(lines[0], Scan(lines).value, accounted)
  }

  // Every call carries an identity and no two share one.
  predicate Nameable(scopes: seq<Scope>) {
    && (forall i :: 0 <= i < |scopes| ==> scopes[i].call.Some?)
    && (forall i, j :: 0 <= i < j < |scopes| ==> scopes[i].call != scopes[j].call)
  }

  function Names(scopes: seq<Scope>): set<string> {
    set i | 0 <= i < |scopes| && scopes[i].call.Some? :: scopes[i].call.value
  }

  // The scanner resumed from what it has seen so far.
  function ScanFrom(seen: Inspection, lines: seq<Line>): Result<Inspection, Unavailable>
    decreases |lines|
  {
    if lines == [] then Success(seen)
    else
      var next :- Visit(seen, lines[0]);
      ScanFrom(next, lines[1..])
  }

  // One record at a time.
  lemma VisitFirst(seen: Inspection, line: Line, rest: seq<Line>)
    ensures ScanFrom(seen, [line] + rest) ==
            if Visit(seen, line).Success? then ScanFrom(Visit(seen, line).value, rest) else Failure(Unavailable)
  {
    assert ([line] + rest)[1..] == rest;
    assert Visit(seen, line).Failure? ==> Visit(seen, line).error == Unavailable;
  }

  lemma MarkFirst(origin: Origin, cursor: int, kind: Kind, head: Scope, rest: seq<Scope>)
    ensures Mark(origin, cursor, kind, [head] + rest) == [Line(origin, cursor, head, kind)] + Mark(origin, cursor, kind, rest)
  {
  }

  lemma {:induction false} ScanSplit(a: seq<Line>, b: seq<Line>)
    requires Scan(a).Success?
    ensures Scan(a + b) == ScanFrom(Scan(a).value, b)
    decreases |b|
  {
    if b == [] {
      assert a + b == a;
    } else {
      var a' := a + [b[0]];
      assert a'[..|a|] == a && a' + b[1..] == a + b;
      if Visit(Scan(a).value, b[0]).Success? {
        ScanSplit(a', b[1..]);
      } else if Scan(a + b).Success? {
        assert (a + b)[..|a'|] == a';
        ScanPrefix(a + b, |a'|);
        assert false;
      } else {
        assert Scan(a + b).error == Unavailable;
      }
    }
  }

  function Closed(seen: Inspection, k: nat): Inspection
    requires k <= |seen.pending|
  {
    seen.(count := seen.count + k, pending := seen.pending[k..], unknown := seen.unknown + k)
  }

  // Marking the first k pending requests unknown closes exactly those.
  lemma {:induction false} UnknownCloses(seen: Inspection, origin: Origin, cursor: int, k: nat)
    requires k <= |seen.pending|
    ensures ScanFrom(seen, Mark(origin, cursor, UnknownAfterCrash, seen.pending[..k])) == Success(Closed(seen, k))
    decreases k
  {
    if k == 0 {
      assert seen.pending[0..] == seen.pending;
    } else {
      var head, rest := seen.pending[0], seen.pending[1..];
      var mark := Line(origin, cursor, head, UnknownAfterCrash);
      VisitUnknown(seen, mark);
      MarkFirst(origin, cursor, UnknownAfterCrash, head, rest[..k - 1]);
      VisitFirst(seen, mark, Mark(origin, cursor, UnknownAfterCrash, rest[..k - 1]));
      UnknownCloses(Closed(seen, 1), origin, cursor, k - 1);
      ClosedOneMore(seen, k);
    }
  }

  lemma ClosedOneMore(seen: Inspection, k: nat)
    requires 0 < k <= |seen.pending|
    ensures seen.pending[..k] == [seen.pending[0]] + seen.pending[1..][..k - 1]
    ensures Closed(Closed(seen, 1), k - 1) == Closed(seen, k)
  {
    assert seen.pending[1..][k - 1..] == seen.pending[k..];
  }

  lemma VisitUnknown(seen: Inspection, mark: Line)
    requires mark.kind.UnknownAfterCrash? && seen.pending != [] && mark.scope == seen.pending[0]
    ensures Visit(seen, mark) == Success(Closed(seen, 1))
  {
    assert Without(seen.pending, 0) == seen.pending[1..];
  }

  predicate NoneMarked(scopes: seq<Scope>, marked: set<string>) {
    forall scope :: scope in scopes && scope.call.Some? ==> scope.call.value !in marked
  }

  // What the scanner checks one record at a time; `CanDisownExactly` says what it amounts to.
  predicate CanDisown(scopes: seq<Scope>, marked: set<string>) {
    scopes == []
    || (scopes[0].call.Some? && scopes[0].call.value !in marked
        && CanDisown(scopes[1..], marked + {scopes[0].call.value}))
  }

  lemma NameableTail(scopes: seq<Scope>, marked: set<string>)
    requires scopes != [] && Nameable(scopes) && NoneMarked(scopes, marked)
    ensures scopes[0].call.Some? && scopes[0].call.value !in marked
    ensures Nameable(scopes[1..]) && NoneMarked(scopes[1..], marked + {scopes[0].call.value})
  {
    var rest := scopes[1..];
    assert scopes[0] in scopes;
    forall scope | scope in rest && scope.call.Some?
      ensures scope.call.value !in marked + {scopes[0].call.value}
    {
      var i :| 0 <= i < |rest| && rest[i] == scope;
      assert scopes[0].call != scopes[i + 1].call;
      assert scopes[i + 1] in scopes;
    }
  }

  lemma NameableCons(head: Scope, rest: seq<Scope>, marked: set<string>)
    requires head.call.Some? && head.call.value !in marked
    requires Nameable(rest) && NoneMarked(rest, marked + {head.call.value})
    ensures Nameable([head] + rest) && NoneMarked([head] + rest, marked)
  {
    var all := [head] + rest;
    forall i, j | 0 <= i < j < |all| ensures all[i].call != all[j].call {
      assert rest[j - 1] in rest && rest[j - 1].call.Some?;
      assert i > 0 ==> rest[i - 1].call != rest[j - 1].call;
    }
  }

  lemma {:induction false} CanDisownExactly(scopes: seq<Scope>, marked: set<string>)
    ensures CanDisown(scopes, marked) <==> Nameable(scopes) && NoneMarked(scopes, marked)
    decreases |scopes|
  {
    if scopes != [] {
      var head, rest := scopes[0], scopes[1..];
      assert scopes == [head] + rest;
      if head.call.Some? {
        CanDisownExactly(rest, marked + {head.call.value});
      }
      if CanDisown(scopes, marked) {
        NameableCons(head, rest, marked);
      } else if Nameable(scopes) && NoneMarked(scopes, marked) {
        NameableTail(scopes, marked);
      }
    }
  }

  lemma NamesCons(head: Scope, rest: seq<Scope>)
    requires head.call.Some?
    ensures Names([head] + rest) == {head.call.value} + Names(rest)
  {
    var all := [head] + rest;
    forall c: string | c in {head.call.value} + Names(rest) ensures c in Names(all) {
      if c == head.call.value {
        assert all[0].call.value == c;
      } else {
        var i :| 0 <= i < |rest| && rest[i].call.Some? && rest[i].call.value == c;
        assert all[i + 1].call.value == c;
      }
    }
    forall c: string | c in Names(all) ensures c in {head.call.value} + Names(rest) {
      var i :| 0 <= i < |all| && all[i].call.Some? && all[i].call.value == c;
      assert i > 0 ==> rest[i - 1].call.value == c;
    }
  }

  function Disowned(seen: Inspection, scopes: seq<Scope>): Inspection {
    seen.(count := seen.count + |scopes|, marked := seen.marked + Names(scopes),
          unreconciled := seen.unreconciled + |scopes|)
  }

  lemma FindsMember(scopes: seq<Scope>, scope: Scope)
    requires scope in scopes
    ensures FindCall(scopes, scope.call) < |scopes|
  {
  }

  lemma VisitUnreconciled(seen: Inspection, line: Line)
    requires line.kind.UnreconciledAfterCrash? && line.scope in seen.completed
    ensures Visit(seen, line) ==
            if line.scope.call.None? || line.scope.call.value in seen.marked then Failure(Unavailable)
            else Success(seen.(count := seen.count + 1, marked := seen.marked + {line.scope.call.value},
                               unreconciled := seen.unreconciled + 1))
  {
    FindsMember(seen.completed, line.scope);
  }

  lemma DisownedCons(seen: Inspection, head: Scope, rest: seq<Scope>)
    requires head.call.Some?
    ensures Disowned(Disowned(seen, [head]), rest) == Disowned(seen, [head] + rest)
    ensures Disowned(seen, [head]).marked == seen.marked + {head.call.value}
  {
    NamesCons(head, rest);
    NamesCons(head, []);
    assert [head] + [] == [head];
    assert Names([]) == {};
    assert seen.marked + {head.call.value} + Names(rest) == seen.marked + ({head.call.value} + Names(rest));
  }

  lemma {:induction false} DisownSteps(seen: Inspection, origin: Origin, cursor: int, scopes: seq<Scope>)
    requires forall scope :: scope in scopes ==> scope in seen.completed
    ensures ScanFrom(seen, Mark(origin, cursor, UnreconciledAfterCrash, scopes)) ==
            if CanDisown(scopes, seen.marked) then Success(Disowned(seen, scopes)) else Failure(Unavailable)
    decreases |scopes|
  {
    if scopes == [] {
      assert Disowned(seen, scopes) == seen;
    } else {
      var head, rest := scopes[0], scopes[1..];
      assert head in scopes && forall scope :: scope in rest ==> scope in scopes;
      var mark := Line(origin, cursor, head, UnreconciledAfterCrash);
      assert scopes == [head] + rest;
      MarkFirst(origin, cursor, UnreconciledAfterCrash, head, rest);
      VisitFirst(seen, mark, Mark(origin, cursor, UnreconciledAfterCrash, rest));
      DisownFirst(seen, mark, rest);
      if head.call.Some? && head.call.value !in seen.marked {
        DisownSteps(Disowned(seen, [head]), origin, cursor, rest);
      }
    }
  }

  // Disowning the first of several calls.
  lemma DisownFirst(seen: Inspection, mark: Line, rest: seq<Scope>)
    requires mark.kind.UnreconciledAfterCrash? && mark.scope in seen.completed
    ensures var all := [mark.scope] + rest;
            if mark.scope.call.None? || mark.scope.call.value in seen.marked
            then Visit(seen, mark).Failure? && !CanDisown(all, seen.marked)
            else
              var next := Disowned(seen, [mark.scope]);
              && Visit(seen, mark) == Success(next)
              && Disowned(next, rest) == Disowned(seen, all)
              && (CanDisown(all, seen.marked) <==> CanDisown(rest, next.marked))
  {
    VisitUnreconciled(seen, mark);
    assert ([mark.scope] + rest)[1..] == rest;
    if mark.scope.call.Some? {
      DisownedCons(seen, mark.scope, rest);
    }
  }

  /**
   A log stays acceptable after disowning answered calls exactly when each of them carries an
   identity, none was disowned before and no identity repeats; then only the marks have grown.
   */
  lemma DisownExactly(seen: Inspection, origin: Origin, cursor: int, scopes: seq<Scope>)
    requires forall scope :: scope in scopes ==> scope in seen.completed
    ensures var after := ScanFrom(seen, Mark(origin, cursor, UnreconciledAfterCrash, scopes));
            && (after.Success? <==> Nameable(scopes) && NoneMarked(scopes, seen.marked))
            && (after.Success? ==> after.value == Disowned(seen, scopes))
  {
    DisownSteps(seen, origin, cursor, scopes);
    CanDisownExactly(scopes, seen.marked);
  }

  lemma {:induction false} ScanFromSplit(seen: Inspection, a: seq<Line>, b: seq<Line>)
    requires ScanFrom(seen, a).Success?
    ensures ScanFrom(seen, a + b) == ScanFrom(ScanFrom(seen, a).value, b)
    decreases |a|
  {
    if a == [] {
      assert a + b == b;
    } else {
      assert (a + b)[0] == a[0] && (a + b)[1..] == a[1..] + b;
      ScanFromSplit(Visit(seen, a[0]).value, a[1..], b);
    }
  }

  /**
   Recovery closure. Appending the closing records gives an acceptable log exactly when the
   calls to disown are nameable; that log has nothing pending, the same answered calls, and
   every unaccounted answered call is marked.
   */
  lemma RecoveryCloses(lines: seq<Line>, accounted: set<Scope>)
    requires lines != [] && Scan(lines).Success?
    ensures var seen := Scan(lines).value;
            var phase := lines[0].origin.phase;
            var disowned := ToDisown(phase, seen, accounted);
            var after := Scan(lines + ClosingLines(lines, accounted));
            && (after.Success? <==> Nameable(disowned))
            && (after.Success? ==>
                  && after.value == Disowned(Closed(seen, |seen.pending|), disowned)
                  && after.value.pending == []
                  && forall scope :: scope in Unaccounted(phase, seen.completed, accounted) ==>
                       scope.call.Some? && scope.call.value in after.value.marked)
  {
    var seen, first := Scan(lines).value, lines[0];
    var disowned := ToDisown(first.origin.phase, seen, accounted);
    var unknowns := Mark(first.origin, first.cursor, UnknownAfterCrash, seen.pending);
    var marks := Mark(first.origin, first.cursor, UnreconciledAfterCrash, disowned);
    ScanSplit(lines, unknowns + marks);
    assert seen.pending[..|seen.pending|] == seen.pending;
    UnknownCloses(seen, first.origin, first.cursor, |seen.pending|);
    ScanFromSplit(seen, unknowns, marks);
    ToDisownExactly(first.origin.phase, seen, accounted);
    DisownExactly(Closed(seen, |seen.pending|), first.origin, first.cursor, disowned);
    if Nameable(disowned) {
      forall scope | scope in Unaccounted(first.origin.phase, seen.completed, accounted)
        ensures scope.call.Some? && scope.call.value in seen.marked + Names(disowned)
      {
        UnaccountedExactly(first.origin.phase, seen.completed, accounted, scope);
        if scope.call.None? || scope.call.value !in seen.marked {
          var i :| 0 <= i < |disowned| && disowned[i] == scope;
          assert disowned[i].call.Some?;
        }
      }
    }
  }

  lemma {:induction false} UnmarkedTwice(scopes: seq<Scope>, marked: set<string>, more: set<string>)
    ensures Unmarked(scopes, marked + more) == Unmarked(Unmarked(scopes, marked), more)
  {
    if scopes != [] {
      UnmarkedTwice(scopes[1..], marked, more);
      var rest := Unmarked(scopes[1..], marked);
      if !(scopes[0].call.Some? && scopes[0].call.value in marked) {
        assert Unmarked(scopes, marked) == [scopes[0]] + rest;
        assert ([scopes[0]] + rest)[1..] == rest;
      } else {
        assert Unmarked(scopes, marked) == rest;
        assert [] + Unmarked(scopes[1..], marked + more) == Unmarked(scopes[1..], marked + more);
      }
    }
  }

  lemma {:induction false} UnmarkedSplit(a: seq<Scope>, b: seq<Scope>, marked: set<string>)
    ensures Unmarked(a + b, marked) == Unmarked(a, marked) + Unmarked(b, marked)
  {
    if a == [] {
      assert a + b == b;
    } else {
      assert (a + b)[0] == a[0] && (a + b)[1..] == a[1..] + b;
      UnmarkedSplit(a[1..], b, marked);
    }
  }

  lemma UnmarkedNone(scopes: seq<Scope>, marked: set<string>)
    requires forall scope :: scope in scopes ==> scope.call.Some? && scope.call.value in marked
    ensures Unmarked(scopes, marked) == []
  {
  }

  lemma UnmarkedAll(scopes: seq<Scope>, marked: set<string>)
    requires forall scope :: scope in scopes ==> scope.call.Some? && scope.call.value !in marked
    ensures Unmarked(scopes, marked) == scopes
  {
  }

  // Of calls with distinct names, the first k are marked by their names and the others are not.
  lemma NamesOfFirst(left: seq<Scope>, k: nat)
    requires Nameable(left) && k <= |left|
    ensures forall scope :: scope in left[..k] ==> scope.call.Some? && scope.call.value in Names(left[..k])
    ensures forall scope :: scope in left[k..] ==> scope.call.Some? && scope.call.value !in Names(left[..k])
  {
    forall scope | scope in left[..k] ensures scope.call.Some? && scope.call.value in Names(left[..k]) {
      var i :| 0 <= i < k && left[..k][i] == scope;
      assert left[i].call.Some?;
    }
    forall scope | scope in left[k..] ensures scope.call.Some? && scope.call.value !in Names(left[..k]) {
      var i :| 0 <= i < |left| - k && left[k..][i] == scope;
      assert left[k + i].call.Some?;
    }
  }

  lemma UnmarkedParts(a: seq<Scope>, b: seq<Scope>, marked: set<string>)
    requires forall scope :: scope in a ==> scope.call.Some? && scope.call.value in marked
    requires forall scope :: scope in b ==> scope.call.Some? && scope.call.value !in marked
    ensures Unmarked(a + b, marked) == b
  {
    UnmarkedSplit(a, b, marked);
    UnmarkedNone(a, marked);
    UnmarkedAll(b, marked);
    assert [] + b == b;
  }

  lemma CutWhole<T>(s: seq<T>, k: nat)
    requires k <= |s|
    ensures s[..k] + s[k..] == s
  {
  }

  lemma UnmarkedByFirst(left: seq<Scope>, k: nat)
    requires Nameable(left) && k <= |left|
    ensures Unmarked(left, Names(left[..k])) == left[k..]
  {
    NamesOfFirst(left, k);
    UnmarkedParts(left[..k], left[k..], Names(left[..k]));
    CutWhole(left, k);
  }

  // Once the first k nameable calls are marked, exactly the others remain to be disowned.
  lemma UnmarkedDrops(scopes: seq<Scope>, marked: set<string>, k: nat)
    requires Nameable(Unmarked(scopes, marked)) && k <= |Unmarked(scopes, marked)|
    ensures var left := Unmarked(scopes, marked);
            Unmarked(scopes, marked + Names(left[..k])) == left[k..]
  {
    var left := Unmarked(scopes, marked);
    UnmarkedTwice(scopes, marked, Names(left[..k]));
    UnmarkedByFirst(left, k);
  }

  // The closing records, cut after the first k.
  lemma ClosingCut(first: Line, pending: seq<Scope>, disowned: seq<Scope>, closing: seq<Line>, k: nat)
    requires closing == Mark(first.origin, first.cursor, UnknownAfterCrash, pending)
                     + Mark(first.origin, first.cursor, UnreconciledAfterCrash, disowned)
    requires k <= |closing|
    ensures k <= |pending| ==>
              && closing[..k] == Mark(first.origin, first.cursor, UnknownAfterCrash, pending[..k])
              && closing[k..] == Mark(first.origin, first.cursor, UnknownAfterCrash, pending[k..])
                               + Mark(first.origin, first.cursor, UnreconciledAfterCrash, disowned)
    ensures k > |pending| ==>
              && closing[..k] == Mark(first.origin, first.cursor, UnknownAfterCrash, pending)
                               + Mark(first.origin, first.cursor, UnreconciledAfterCrash, disowned[..k - |pending|])
              && closing[k..] == Mark(first.origin, first.cursor, UnreconciledAfterCrash, disowned[k - |pending|..])
  {
  }

  // The scanner's view after the first k closing records, and the calls still to disown.
  lemma AfterPartial(first: Line, seen: Inspection, disowned: seq<Scope>, closing: seq<Line>, k: nat)
    returns (after: Inspection, left: seq<Scope>)
    requires Nameable(disowned) && NoneMarked(disowned, seen.marked)
    requires forall scope :: scope in disowned ==> scope in seen.completed
    requires closing == Mark(first.origin, first.cursor, UnknownAfterCrash, seen.pending)
                     + Mark(first.origin, first.cursor, UnreconciledAfterCrash, disowned)
    requires k <= |closing|
    ensures ScanFrom(seen, closing[..k]) == Success(after)
    ensures after.completed == seen.completed
    ensures |left| <= |disowned| && left == disowned[|disowned| - |left|..]
    ensures after.marked == seen.marked + Names(disowned[..|disowned| - |left|])
    ensures closing[k..] == Mark(first.origin, first.cursor, UnknownAfterCrash, after.pending)
                          + Mark(first.origin, first.cursor, UnreconciledAfterCrash, left)
  {
    var n := |seen.pending|;
    ClosingCut(first, seen.pending, disowned, closing, k);
    if k <= n {
      UnknownCloses(seen, first.origin, first.cursor, k);
      after, left := Closed(seen, k), disowned;
      NoneDropped(disowned, seen.marked);
    } else {
      after := AfterMarks(first, seen, disowned, k - n);
      left := disowned[k - n..];
      assert Mark(first.origin, first.cursor, UnknownAfterCrash, []) == [];
    }
  }

  lemma NoneDropped(scopes: seq<Scope>, marked: set<string>)
    ensures scopes[0..] == scopes && marked + Names(scopes[..0]) == marked
  {
    assert Names(scopes[..0]) == {};
  }

  lemma AfterMarks(first: Line, seen: Inspection, disowned: seq<Scope>, k: nat) returns (after: Inspection)
    requires Nameable(disowned) && NoneMarked(disowned, seen.marked) && k <= |disowned|
    requires forall scope :: scope in disowned ==> scope in seen.completed
    ensures ScanFrom(seen, Mark(first.origin, first.cursor, UnknownAfterCrash, seen.pending)
                         + Mark(first.origin, first.cursor, UnreconciledAfterCrash, disowned[..k])) == Success(after)
    ensures after == Disowned(Closed(seen, |seen.pending|), disowned[..k])
  {
    var unknowns := Mark(first.origin, first.cursor, UnknownAfterCrash, seen.pending);
    var midway, some := Closed(seen, |seen.pending|), disowned[..k];
    assert seen.pending[..|seen.pending|] == seen.pending;
    UnknownCloses(seen, first.origin, first.cursor, |seen.pending|);
    ScanFromSplit(seen, unknowns, Mark(first.origin, first.cursor, UnreconciledAfterCrash, some));
    assert forall scope :: scope in some ==> scope in disowned;
    DisownExactly(midway, first.origin, first.cursor, some);
    after := Disowned(midway, some);
  }

  lemma ResumeFromSeen(first: Line, seen: Inspection, accounted: set<Scope>, closing: seq<Line>, k: nat)
    returns (after: Inspection)
    requires Nameable(ToDisown(first.origin.phase, seen, accounted))
    requires closing == Closing(first, seen, accounted) && k <= |closing|
    ensures ScanFrom(seen, closing[..k]) == Success(after)
    ensures Closing(first, after, accounted) == closing[k..]
  {
    var phase := first.origin.phase;
    var disowned := ToDisown(phase, seen, accounted);
    var left;
    ToDisownExactly(phase, seen, accounted);
    after, left := AfterPartial(first, seen, disowned, closing, k);
    UnmarkedDrops(Unaccounted(phase, seen.completed, accounted), seen.marked, |disowned| - |left|);
    assert ToDisown(phase, after, accounted) == left;
  }

  /**
   Recovery resumes. After a crash that left any number of the closing records behind, the
   next recovery writes exactly the rest, so the finished log is the same in every case.
   */
  lemma RecoveryResumes(lines: seq<Line>, accounted: set<Scope>, closing: seq<Line>, k: nat)
    requires lines != [] && Scan(lines).Success?
    requires closing == ClosingLines(lines, accounted)
    requires Nameable(ToDisown(lines[0].origin.phase, Scan(lines).value, accounted))
    requires k <= |closing|
    ensures Scan(lines + closing[..k]).Success?
    ensures ClosingLines(lines + closing[..k], accounted) == closing[k..]
  {
    var after := ResumeFromSeen(lines[0], Scan(lines).value, accounted, closing, k);
    ScanSplit(lines, closing[..k]);
  }
}
