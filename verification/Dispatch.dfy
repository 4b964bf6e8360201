/**
 The dependency closure of a terminal task: a worklist over a task graph that may contain
 cycles, and the choice of the one artifact of a kind among the closure's outputs.
 */
module Dispatch {
  import opened Wrappers
  import opened Ordering

  datatype TaskStatus = Pending | Leased | Running | Succeeded | Failed | Cancelled | Skipped

  datatype Task = Task(status: TaskStatus, dependencies: seq<string>)

  // Artifact identities are totally ordered; only their order matters here.
  datatype Artifact = Artifact(id: int, kind: string)

  datatype DispatchError =
    | UnknownDependency(task: string) | UnfinishedDependency(task: string) | StoreFailure
    | NoInput | AmbiguousInput

  type Graph = map<string, Task>

  // The Store's answer for a task's committed outputs.
  type Outputs = string -> Result<seq<Artifact>, ()>

  predicate Passable(tasks: Graph, id: string) {
    id in tasks && (tasks[id].status.Succeeded? || tasks[id].status.Skipped?)
  }

  // A chain of dependencies from a root, through succeeded or skipped tasks, to its last task.
  ghost predicate Chain(tasks: Graph, roots: seq<string>, path: seq<string>) {
    && path != [] && path[0] in roots
    && forall i :: 0 <= i < |path| - 1 ==> Passable(tasks, path[i]) && path[i + 1] in tasks[path[i]].dependencies
  }

  ghost predicate Reached(tasks: Graph, roots: seq<string>, id: string) {
    exists path :: Chain(tasks, roots, path) && path[|path| - 1] == id
  }

  // Every reached task is known, finished and, if it produced outputs, readable.
  ghost predicate Settled(tasks: Graph, roots: seq<string>, read: Outputs) {
    forall id :: Reached(tasks, roots, id) ==> Passable(tasks, id) && (tasks[id].status.Succeeded? ==> read(id).Success?)
  }

  // The artifact is an output of a reached, succeeded task.
  ghost predicate Produced(tasks: Graph, roots: seq<string>, read: Outputs, artifact: Artifact) {
    exists id :: Reached(tasks, roots, id) && id in tasks && tasks[id].status.Succeeded?
                 && read(id).Success? && artifact in read(id).value
  }

  // An artifact identity names one artifact.
  ghost predicate IdsAgree(tasks: Graph, roots: seq<string>, read: Outputs) {
    forall a, b :: Produced(tasks, roots, read, a) && Produced(tasks, roots, read, b) && a.id == b.id ==> a == b
  }

  lemma RootReached(tasks: Graph, roots: seq<string>, id: string)
    requires id in roots
    ensures Reached(tasks, roots, id)
  {
    assert Chain(tasks, roots, [id]);
  }

  lemma DependencyReached(tasks: Graph, roots: seq<string>, id: string, next: string)
    requires Reached(tasks, roots, id) && Passable(tasks, id) && next in tasks[id].dependencies
    ensures Reached(tasks, roots, next)
  {
    var path :| Chain(tasks, roots, path) && path[|path| - 1] == id;
    assert Chain(tasks, roots, path + [next]);
    assert (path + [next])[|path + [next]| - 1] == next;
  }

  // A set that holds the roots and is closed under dependencies holds everything reached.
  lemma {:induction false} ClosedHoldsChain(tasks: Graph, roots: seq<string>, visited: set<string>, path: seq<string>)
    requires forall id :: id in roots ==> id in visited
    requires forall id, next :: id in visited && id in tasks && next in tasks[id].dependencies ==> next in visited
    requires Chain(tasks, roots, path)
    ensures path[|path| - 1] in visited
    decreases |path|
  {
    if |path| > 1 {
      var init := path[..|path| - 1];
      assert Chain(tasks, roots, init);
      ClosedHoldsChain(tasks, roots, visited, init);
    }
  }

  lemma ClosedHoldsReached(tasks: Graph, roots: seq<string>, visited: set<string>)
    requires forall id :: id in roots ==> id in visited
    requires forall id, next :: id in visited && id in tasks && next in tasks[id].dependencies ==> next in visited
    ensures forall id :: Reached(tasks, roots, id) ==> id in visited
  {
    forall id | Reached(tasks, roots, id) ensures id in visited {
      var path :| Chain(tasks, roots, path) && path[|path| - 1] == id;
      ClosedHoldsChain(tasks, roots, visited, path);
    }
  }

  // Graphs and roots that list the same dependencies, in any order and number.
  ghost predicate SameGraph(tasks: Graph, other: Graph, roots: seq<string>, otherRoots: seq<string>) {
    && (forall x :: x in roots <==> x in otherRoots)
    && tasks.Keys == other.Keys
    && forall x :: x in tasks ==> tasks[x].status == other[x].status
                                  && forall d :: d in tasks[x].dependencies <==> d in other[x].dependencies
  }

  /** Reachability sees dependencies as sets: their order and repetitions do not matter. */
  lemma ReachedIgnoresOrder(tasks: Graph, other: Graph, roots: seq<string>, otherRoots: seq<string>, id: string)
    requires SameGraph(tasks, other, roots, otherRoots)
    ensures Reached(tasks, roots, id) <==> Reached(other, otherRoots, id)
  {
    forall path ensures Chain(tasks, roots, path) <==> Chain(other, otherRoots, path) {}
  }

  // What the worklist keeps about the artifacts it has gathered.
  ghost predicate Gathered(tasks: Graph, read: Outputs, visited: set<string>, outputs: map<int, Artifact>) {
    && (forall id :: id in visited && id in tasks && tasks[id].status.Succeeded? ==> read(id).Success?)
    && (forall id :: id in visited && id in tasks && tasks[id].status.Succeeded? ==>
          forall a :: a in read(id).value ==> a.id in outputs)
    && (forall k :: k in outputs ==> outputs[k].id == k)
    && (forall k :: k in outputs ==>
          exists id :: id in visited && id in tasks && tasks[id].status.Succeeded? && outputs[k] in read(id).value)
  }

  // Adds one task's outputs, later ones replacing earlier ones with the same identity.
  method AddOutputs(outputs: map<int, Artifact>, more: seq<Artifact>) returns (all: map<int, Artifact>)
    requires forall k :: k in outputs ==> outputs[k].id == k
    ensures forall k :: k in all ==> all[k].id == k && (all[k] in more || (k in outputs && all[k] == outputs[k]))
    ensures forall a :: a in more ==> a.id in all
    ensures forall k :: k in outputs ==> k in all
  {
    all := outputs;
    for i := 0 to |more|
      invariant forall k :: k in all ==> all[k].id == k && (all[k] in more || (k in outputs && all[k] == outputs[k]))
      invariant forall j :: 0 <= j < i ==> more[j].id in all
      invariant forall k :: k in outputs ==> k in all
    {
      all := all[more[i].id := more[i]];
    }
  }

  // The outputs of one passable task are read and added; a skipped task has none.
  method GatherFrom(tasks: Graph, read: Outputs, id: string, ghost visited: set<string>, outputs: map<int, Artifact>)
    returns (r: Result<map<int, Artifact>, DispatchError>)
    requires Passable(tasks, id) && Gathered(tasks, read, visited, outputs)
    ensures r.Success? ==> Gathered(tasks, read, visited + {id}, r.value)
    ensures r.Failure? ==> r.error.StoreFailure? && tasks[id].status.Succeeded? && read(id).Failure?
  {
    if tasks[id].status.Skipped? {
      return Success(outputs);
    }
    if read(id).Failure? {
      return Failure(StoreFailure);
    }
    var all := AddOutputs(outputs, read(id).value);
    return Success(all);
  }

  // What is pending or visited lies in `reach`, and nothing a visited task depends on is forgotten.
  ghost predicate Worklist(tasks: Graph, roots: seq<string>, reach: iset<string>, pending: seq<string>,
      visited: set<string>)
  {
    && (forall id :: id in pending ==> id in reach)
    && (forall id :: id in visited ==> id in reach && Passable(tasks, id))
    && (forall id :: id in roots ==> id in visited || id in pending)
    && (forall id, next :: id in visited && id in tasks && next in tasks[id].dependencies ==>
          next in visited || next in pending)
  }

  lemma Skips(tasks: Graph, roots: seq<string>, reach: iset<string>, pending: seq<string>, visited: set<string>)
    requires Worklist(tasks, roots, reach, pending, visited) && pending != [] && pending[|pending| - 1] in visited
    ensures Worklist(tasks, roots, reach, pending[..|pending| - 1], visited)
  {
    var rest, id := pending[..|pending| - 1], pending[|pending| - 1];
    assert pending == rest + [id];
    forall x | x in rest ensures x in pending {}
    forall x | x in pending ensures x in rest || x in visited {}
  }

  lemma Visits(tasks: Graph, roots: seq<string>, reach: iset<string>, pending: seq<string>, visited: set<string>)
    requires Worklist(tasks, roots, reach, pending, visited) && pending != []
    requires var id := pending[|pending| - 1];
             Passable(tasks, id) && forall next :: next in tasks[id].dependencies ==> next in reach
    ensures var id := pending[|pending| - 1];
            Worklist(tasks, roots, reach, pending[..|pending| - 1] + tasks[id].dependencies, visited + {id})
  {
    var rest, id := pending[..|pending| - 1], pending[|pending| - 1];
    assert pending == rest + [id];
    assert id in pending;
    forall x | x in rest ensures x in pending {}
    forall x | x in pending ensures x in rest || x == id {}
  }

  lemma Shrinks(keys: set<string>, seen: set<string>, id: string)
    requires id in keys && id !in seen
    ensures |keys - (seen + {id})| < |keys - seen|
  {
    assert keys - seen == (keys - (seen + {id})) + {id};
  }

  // The loop, relative to any set that holds the roots and is closed under passable tasks.
  method Explore(tasks: Graph, roots: seq<string>, read: Outputs, ghost reach: iset<string>)
    returns (r: Result<map<int, Artifact>, DispatchError>, ghost visited: set<string>, ghost culprit: string)
    requires forall id :: id in roots ==> id in reach
    requires forall id, next :: id in reach && Passable(tasks, id) && next in tasks[id].dependencies ==> next in reach
    ensures r.Success? ==> Worklist(tasks, roots, reach, [], visited) && Gathered(tasks, read, visited, r.value)
    ensures r.Failure? ==>
              && culprit in reach
              && match r.error
                 case UnknownDependency(id) => id == culprit && id !in tasks
                 case UnfinishedDependency(id) => id == culprit && id in tasks && !Passable(tasks, id)
                 case StoreFailure => culprit in tasks && tasks[culprit].status.Succeeded? && read(culprit).Failure?
                 case _ => false
  {
    var pending, seen: set<string> := roots, {};
    var outputs: map<int, Artifact> := map[];
    culprit := "";
    while pending != []
      invariant Worklist(tasks, roots, reach, pending, seen)
      invariant Gathered(tasks, read, seen, outputs)
      invariant seen <= tasks.Keys
      decreases |tasks.Keys - seen|, |pending|
    {
      var id, rest := pending[|pending| - 1], pending[..|pending| - 1];
      if id in seen {
        Skips(tasks, roots, reach, pending, seen);
        pending := rest;
        continue;
      }
      if id !in tasks {
        return Failure(UnknownDependency(id)), seen, id;
      }
      if !(tasks[id].status.Succeeded? || tasks[id].status.Skipped?) {
        return Failure(UnfinishedDependency(id)), seen, id;
      }
      var gathered := GatherFrom(tasks, read, id, seen, outputs);
      if gathered.Failure? {
        return Failure(gathered.error), seen, id;
      }
      Visits(tasks, roots, reach, pending, seen);
      Shrinks(tasks.Keys, seen, id);
      seen, outputs, pending := seen + {id}, gathered.value, rest + tasks[id].dependencies;
    }
    return Success(outputs), seen, culprit;
  }

  lemma Concludes(tasks: Graph, roots: seq<string>, read: Outputs, reach: iset<string>, visited: set<string>,
      outputs: map<int, Artifact>)
    requires forall id :: id in reach <==> Reached(tasks, roots, id)
    requires Worklist(tasks, roots, reach, [], visited) && Gathered(tasks, read, visited, outputs)
    ensures Settled(tasks, roots, read)
    ensures forall a :: Produced(tasks, roots, read, a) ==> a.id in outputs
    ensures forall k :: k in outputs ==> outputs[k].id == k && Produced(tasks, roots, read, outputs[k])
  {
    ClosedHoldsReached(tasks, roots, visited);
    forall a | Produced(tasks, roots, read, a) ensures a.id in outputs {
      ProducedGathered(tasks, roots, read, visited, outputs, a);
    }
    forall k | k in outputs ensures Produced(tasks, roots, read, outputs[k]) {
      GatheredProduced(tasks, roots, read, reach, visited, outputs, k);
    }
  }

  lemma ProducedGathered(tasks: Graph, roots: seq<string>, read: Outputs, visited: set<string>,
      outputs: map<int, Artifact>, a: Artifact)
    requires Gathered(tasks, read, visited, outputs) && Produced(tasks, roots, read, a)
    requires forall id :: Reached(tasks, roots, id) ==> id in visited
    ensures a.id in outputs
  {
    var id :| Reached(tasks, roots, id) && id in tasks && tasks[id].status.Succeeded?
              && read(id).Success? && a in read(id).value;
    assert id in visited;
  }

  lemma GatheredProduced(tasks: Graph, roots: seq<string>, read: Outputs, reach: iset<string>, visited: set<string>,
      outputs: map<int, Artifact>, k: int)
    requires forall id :: id in reach <==> Reached(tasks, roots, id)
    requires Worklist(tasks, roots, reach, [], visited) && Gathered(tasks, read, visited, outputs) && k in outputs
    ensures Produced(tasks, roots, read, outputs[k])
  {
    var id :| id in visited && id in tasks && tasks[id].status.Succeeded? && outputs[k] in read(id).value;
    assert id in reach;
  }

  /**
   The worklist. It ends for every finite graph, succeeds exactly when everything reached is
   finished and readable, and gathers exactly the identities of the produced artifacts.
   */
  method AncestorOutputs(tasks: Graph, roots: seq<string>, read: Outputs)
    returns (r: Result<map<int, Artifact>, DispatchError>)
    ensures r.Success? <==> Settled(tasks, roots, read)
    ensures r.Success? ==>
              && (forall a :: Produced(tasks, roots, read, a) ==> a.id in r.value)
              && (forall k :: k in r.value ==> r.value[k].id == k && Produced(tasks, roots, read, r.value[k]))
    ensures r.Failure? ==>
              match r.error
              case UnknownDependency(id) => Reached(tasks, roots, id) && id !in tasks
              case UnfinishedDependency(id) => Reached(tasks, roots, id) && id in tasks && !Passable(tasks, id)
              case StoreFailure =>
                exists id :: Reached(tasks, roots, id) && id in tasks && tasks[id].status.Succeeded? && read(id).Failure?
              case _ => false
  {
    ghost var reach := iset id | Reached(tasks, roots, id);
    forall id | id in roots ensures id in reach { RootReached(tasks, roots, id); }
    forall id, next | id in reach && Passable(tasks, id) && next in tasks[id].dependencies ensures next in reach {
      DependencyReached(tasks, roots, id, next);
    }
    ghost var visited, culprit;
    r, visited, culprit := Explore(tasks, roots, read, reach);
    if r.Success? {
      Concludes(tasks, roots, read, reach, visited, r.value);
    } else {
      assert Reached(tasks, roots, culprit);
    }
  }

  // --- The unique typed input ---

  // The values of an ordered map, in key order.
  method IntoValues(m: map<int, Artifact>) returns (values: seq<Artifact>)
    requires forall k :: k in m ==> m[k].id == k
    ensures forall a :: a in values <==> a.id in m && m[a.id] == a
    ensures forall i, j :: 0 <= i < j < |values| ==> values[i].id < values[j].id
  {
    values := [];
    var left := m.Keys;
    while left != {}
      invariant left <= m.Keys && Taken(m, left, values)
      decreases |left|
    {
      LeastExists(left);
      var k :| k in left && forall other :: other in left ==> k <= other;
      TakeLeast(m, left, values, k);
      values := values + [m[k]];
      left := left - {k};
    }
  }

  // Everything but what is left was taken, in key order, and comes before what is left.
  ghost predicate Taken(m: map<int, Artifact>, left: set<int>, values: seq<Artifact>) {
    && (forall a :: a in values <==> a.id in m.Keys - left && m[a.id] == a)
    && (forall i, j :: 0 <= i < j < |values| ==> values[i].id < values[j].id)
    && (forall i, k :: 0 <= i < |values| && k in left ==> values[i].id < k)
  }

  lemma TakeLeast(m: map<int, Artifact>, left: set<int>, values: seq<Artifact>, k: int)
    requires forall k :: k in m ==> m[k].id == k
    requires left <= m.Keys && Taken(m, left, values) && k in left && forall other :: other in left ==> k <= other
    ensures Taken(m, left - {k}, values + [m[k]])
  {
    forall a ensures a in values + [m[k]] <==> a.id in m.Keys - (left - {k}) && m[a.id] == a {
      assert a in values + [m[k]] <==> a in values || a == m[k];
    }
  }

  lemma EmptyOrNot(s: set<int>)
    ensures s == {} || exists x :: x in s
  {
    if forall x :: x !in s {
      assert s == {};
    }
  }

  lemma LeastExists(s: set<int>)
    requires s != {}
    ensures exists k :: k in s && forall other :: other in s ==> k <= other
    decreases |s|
  {
    EmptyOrNot(s);
    var x :| x in s;
    var rest := s - {x};
    if rest != {} {
      LeastExists(rest);
      var k :| k in rest && forall other :: other in rest ==> k <= other;
      var least := if x <= k then x else k;
      assert least in s && forall other :: other in s ==> other == x || other in rest;
    } else {
      assert s == {x};
    }
  }

  function IdsOfKind(values: seq<Artifact>, kind: string): (ids: seq<int>)
    ensures forall id :: id in ids <==> exists a :: a in values && a.kind == kind && a.id == id
  {
    if values == [] then []
    else
      assert values == [values[0]] + values[1..];
      (if values[0].kind == kind then [values[0].id] else []) + IdsOfKind(values[1..], kind)
  }

  const UPWARD: (int, int) -> bool := (a: int, b: int) => a <= b

  // One element, none, or several.
  lemma SingletonExactly(ids: seq<int>)
    requires NoRepeats(ids)
    ensures |ids| == 1 <==> ids != [] && forall id :: id in ids ==> id == ids[0]
  {
    if |ids| > 1 {
      assert ids[1] in ids && ids[0] != ids[1];
    } else if |ids| == 1 {
      forall id | id in ids ensures id == ids[0] {}
    }
  }

  // The distinct ids of a kind, in order.
  method MatchingIds(values: seq<Artifact>, kind: string) returns (matching: seq<int>)
    ensures NoRepeats(matching)
    ensures forall id :: id in matching <==> exists a :: a in values && a.kind == kind && a.id == id
  {
    var ids := IdsOfKind(values, kind);
    matching := Canonical(ids, UPWARD);
    CanonicalElements(ids, UPWARD);
  }

  function OneInput(matching: seq<int>): (r: Result<int, DispatchError>)
    ensures forall id :: r == Success(id) <==> matching == [id]
    ensures r == Failure(NoInput) <==> matching == []
    ensures r.Failure? ==> r.error.NoInput? || r.error.AmbiguousInput?
  {
    if |matching| == 1 then Success(matching[0])
    else if |matching| == 0 then Failure(NoInput)
    else Failure(AmbiguousInput)
  }

  // The artifact is the only produced one of its kind.
  ghost predicate OnlyInput(tasks: Graph, roots: seq<string>, read: Outputs, kind: string, id: int) {
    && (exists a :: Produced(tasks, roots, read, a) && a.kind == kind && a.id == id)
    && (forall a :: Produced(tasks, roots, read, a) && a.kind == kind ==> a.id == id)
  }

  /**
   The terminal input exists exactly when everything reached is settled and exactly one
   artifact of the kind was produced; by `ReachedIgnoresOrder` the order in which dependencies
   are listed is immaterial.
   */
  method TerminalInput(tasks: Graph, roots: seq<string>, read: Outputs, kind: string)
    returns (r: Result<int, DispatchError>)
    ensures IdsAgree(tasks, roots, read) ==>
              forall id :: r == Success(id) <==> Settled(tasks, roots, read) && OnlyInput(tasks, roots, read, kind, id)
    ensures IdsAgree(tasks, roots, read) && Settled(tasks, roots, read) ==>
              (r == Failure(NoInput) <==> forall a :: Produced(tasks, roots, read, a) ==> a.kind != kind)
    ensures r.Failure? ==> (r.error.NoInput? || r.error.AmbiguousInput? <==> Settled(tasks, roots, read))
    ensures r.Success? ==>
              forall id :: Reached(tasks, roots, id) ==>
                             id in tasks && (tasks[id].status == Succeeded || tasks[id].status == Skipped)
  {
    var outputs := AncestorOutputs(tasks, roots, read);
    if outputs.Failure? {
      return Failure(outputs.error);
    }
    var values := IntoValues(outputs.value);
    var matching := MatchingIds(values, kind);
    MatchingIsProduced(tasks, roots, read, kind, outputs.value, values, matching);
    return OneInput(matching);
  }

  lemma ProducedIgnoresOrder(tasks: Graph, other: Graph, roots: seq<string>, otherRoots: seq<string>, read: Outputs,
      artifact: Artifact)
    requires SameGraph(tasks, other, roots, otherRoots) && Produced(tasks, roots, read, artifact)
    ensures Produced(other, otherRoots, read, artifact)
  {
    var id :| Reached(tasks, roots, id) && id in tasks && tasks[id].status.Succeeded?
              && read(id).Success? && artifact in read(id).value;
    ReachedIgnoresOrder(tasks, other, roots, otherRoots, id);
  }

  lemma SettledIgnoresOrder(tasks: Graph, other: Graph, roots: seq<string>, otherRoots: seq<string>, read: Outputs)
    requires SameGraph(tasks, other, roots, otherRoots)
    ensures Settled(tasks, roots, read) <==> Settled(other, otherRoots, read)
  {
    forall id ensures Reached(tasks, roots, id) <==> Reached(other, otherRoots, id) {
      ReachedIgnoresOrder(tasks, other, roots, otherRoots, id);
    }
  }

  /**
   The terminal input does not depend on how dependencies are listed: on graphs that agree up
   to order and repetition, any two results that keep `TerminalInput`'s contract succeed alike.
   */
  lemma InputIgnoresOrder(tasks: Graph, other: Graph, roots: seq<string>, otherRoots: seq<string>, read: Outputs,
      kind: string, r: Result<int, DispatchError>, q: Result<int, DispatchError>)
    requires SameGraph(tasks, other, roots, otherRoots) && IdsAgree(tasks, roots, read)
    requires forall id :: r == Success(id) <==> Settled(tasks, roots, read) && OnlyInput(tasks, roots, read, kind, id)
    requires forall id :: q == Success(id) <==>
                          Settled(other, otherRoots, read) && OnlyInput(other, otherRoots, read, kind, id)
    ensures IdsAgree(other, otherRoots, read)
    ensures forall id :: r == Success(id) <==> q == Success(id)
  {
    SettledIgnoresOrder(tasks, other, roots, otherRoots, read);
    forall a ensures Produced(tasks, roots, read, a) <==> Produced(other, otherRoots, read, a) {
      if Produced(tasks, roots, read, a) {
        ProducedIgnoresOrder(tasks, other, roots, otherRoots, read, a);
      }
      if Produced(other, otherRoots, read, a) {
        ProducedIgnoresOrder(other, tasks, otherRoots, roots, read, a);
      }
    }
    forall id ensures OnlyInput(tasks, roots, read, kind, id) <==> OnlyInput(other, otherRoots, read, kind, id) {}
  }

  lemma MatchingIsProduced(tasks: Graph, roots: seq<string>, read: Outputs, kind: string,
      outputs: map<int, Artifact>, values: seq<Artifact>, matching: seq<int>)
    requires forall a :: Produced(tasks, roots, read, a) ==> a.id in outputs
    requires forall k :: k in outputs ==> outputs[k].id == k && Produced(tasks, roots, read, outputs[k])
    requires forall a :: a in values <==> a.id in outputs && outputs[a.id] == a
    requires forall id :: id in matching <==> exists a :: a in values && a.kind == kind && a.id == id
    requires NoRepeats(matching)
    ensures IdsAgree(tasks, roots, read) ==>
              && (forall id :: OnlyInput(tasks, roots, read, kind, id) <==> matching == [id])
              && (matching == [] <==> forall a :: Produced(tasks, roots, read, a) ==> a.kind != kind)
  {
    if IdsAgree(tasks, roots, read) {
      forall id ensures id in matching <==> exists a :: Produced(tasks, roots, read, a) && a.kind == kind && a.id == id {
        if a :| Produced(tasks, roots, read, a) && a.kind == kind && a.id == id {
          assert outputs[a.id] == a && a in values;
        }
      }
      forall id ensures OnlyInput(tasks, roots, read, kind, id) <==> matching == [id] {
        if OnlyInput(tasks, roots, read, kind, id) {
          assert id in matching;
          forall other | other in matching ensures other == id {
            var a :| Produced(tasks, roots, read, a) && a.kind == kind && a.id == other;
          }
          SingletonExactly(matching);
          assert matching[0] in matching;
          assert matching == [id];
        }
        if matching == [id] {
          assert id in matching;
          forall a | Produced(tasks, roots, read, a) && a.kind == kind ensures a.id == id {
            assert a.id in matching;
          }
        }
      }
      forall a | Produced(tasks, roots, read, a) && a.kind == kind ensures a.id in matching {}
      if matching != [] {
        assert matching[0] in matching;
      }
    }
  }
}
