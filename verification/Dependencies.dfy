/** The health of a Core's external dependencies: what permits new risk, and the incidents that explain a refusal. */
module Dependencies {
  import opened Wrappers
  import opened Arithmetic

  datatype Kind =
    | ModelProvider | NewsProvider | MarketData | MacroData | Broker | Dns | MarketClock | Storage | Identity
    | ComplianceData

  datatype Status = Healthy | Degraded | Partial | Unavailable | Stale | NotRequired | NotApplicable

  datatype DegradationClass = Read | Decision | Execution | Reconciliation | Compliance

  // Times are in nanoseconds. `wellFormed`: the text fields are filled in.
  datatype Snapshot = Snapshot(
    kind: Kind, expectedFreshness: nat, observedAt: int, status: Status, configured: string, actual: string,
    wellFormed: bool)

  datatype Closure = Closure(capturedAt: int, dependencies: map<Kind, Snapshot>)

  datatype Reason = Switched | Outdated | Reported(status: Status)

  datatype Incident = Incident(
    kind: Kind, degradation: DegradationClass, status: Status, configured: string, actual: string, observedAt: int, reason: Reason)

  datatype ClosureError = MissingKind | InvalidSnapshot | InactiveStatus | MisplacedSnapshot

  // The kinds in key order.
  const ALL :=
    [ModelProvider, NewsProvider, MarketData, MacroData, Broker, Dns, MarketClock, Storage, Identity, ComplianceData]

  const FOR_REDUCTION := [MarketData, Broker, MarketClock, Storage, ComplianceData]

  const NANOS := 1_000_000_000

  predicate MayBeInactive(kind: Kind) {
    kind.NewsProvider? || kind.MacroData? || kind.Dns? || kind.Identity?
  }

  predicate Inactive(status: Status) {
    status.NotRequired? || status.NotApplicable?
  }

  function ClassOf(kind: Kind): DegradationClass {
    match kind
    case NewsProvider => Read
    case MacroData => Read
    case Dns => Read
    case ModelProvider => Decision
    case Storage => Reconciliation
    case ComplianceData => Compliance
    case _ => Execution
  }

  function CheckSnapshot(s: Snapshot): Result<(), ClosureError> {
    if !s.wellFormed || s.expectedFreshness == 0 then Failure(InvalidSnapshot)
    else if Inactive(s.status) && (!MayBeInactive(s.kind) || s.configured != s.actual) then Failure(InactiveStatus)
    else Success(())
  }

  // Whole seconds between two instants, either way round.
  function Age(now: int, s: Snapshot): nat {
    Magnitude(now - s.observedAt) / NANOS
  }

  predicate PermitsNewRisk(s: Snapshot, now: int) {
    && CheckSnapshot(s).Success? && s.configured == s.actual
    && match s.status
       case Healthy => Age(now, s) <= s.expectedFreshness
       case NotRequired => MayBeInactive(s.kind)
       case NotApplicable => MayBeInactive(s.kind)
       case _ => false
  }

  predicate ClosureValid(c: Closure) {
    && (forall k :: k in ALL ==> k in c.dependencies)
    && (forall k :: k in c.dependencies ==>
          CheckSnapshot(c.dependencies[k]).Success? && c.dependencies[k].kind == k
          && c.dependencies[k].observedAt <= c.capturedAt)
  }

  predicate ClosurePermitsNewRisk(c: Closure, now: int) {
    ClosureValid(c) && forall k :: k in c.dependencies ==> PermitsNewRisk(c.dependencies[k], now)
  }

  predicate PermitsRiskReduction(c: Closure, now: int) {
    ClosureValid(c) && forall k :: k in FOR_REDUCTION ==> k in c.dependencies && PermitsNewRisk(c.dependencies[k], now)
  }

  /**
   Risk may be reduced exactly if every dependency does its part that neither may be switched off
   nor serves only to decide; the others are not looked at.
   */
  lemma ReductionExactly(c: Closure, now: int)
    ensures PermitsRiskReduction(c, now) <==>
            ClosureValid(c)
            && forall k :: k in c.dependencies && !MayBeInactive(k) && !k.ModelProvider? ==>
                 PermitsNewRisk(c.dependencies[k], now)
  {
    assert forall k: Kind :: k in FOR_REDUCTION <==> !MayBeInactive(k) && !k.ModelProvider?;
    if ClosureValid(c) {
      forall k ensures k in c.dependencies {
        AllInOrder(k);
      }
    }
  }

  /** The class of a dependency says whether it may be switched off and whether reducing risk needs it. */
  lemma ClassesExactly(kind: Kind)
    ensures ClassOf(kind) == Read <==> MayBeInactive(kind) && kind != Identity
    ensures ClassOf(kind) == Decision <==> kind == ModelProvider
    ensures ClassOf(kind) == Reconciliation <==> kind == Storage
    ensures ClassOf(kind) == Compliance <==> kind == ComplianceData
    ensures kind in FOR_REDUCTION <==> ClassOf(kind) != Read && ClassOf(kind) != Decision && kind != Identity
  {
  }

  /** A healthy snapshot permits new risk until its age exceeds the expected freshness by a whole second. */
  lemma FreshExactly(s: Snapshot, now: int)
    requires s.status.Healthy?
    ensures PermitsNewRisk(s, now) <==>
            && s.wellFormed && s.expectedFreshness > 0 && s.configured == s.actual
            && -((s.expectedFreshness + 1) * 1_000_000_000) < now - s.observedAt
            && now - s.observedAt < (s.expectedFreshness + 1) * 1_000_000_000
  {
    var m := Magnitude(now - s.observedAt);
    assert m == Age(now, s) * NANOS + m % NANOS;
  }

  // --- Incidents ---

  function IncidentFor(kind: Kind, s: Snapshot, now: int): Incident {
    Incident(kind, ClassOf(kind), s.status, s.configured, s.actual, s.observedAt,
      if s.configured != s.actual then Switched
      else if Age(now, s) > s.expectedFreshness then Outdated
      else Reported(s.status))
  }

  // Position in key order.
  function Rank(kind: Kind): nat {
    match kind
    case ModelProvider => 0
    case NewsProvider => 1
    case MarketData => 2
    case MacroData => 3
    case Broker => 4
    case Dns => 5
    case MarketClock => 6
    case Storage => 7
    case Identity => 8
    case ComplianceData => 9
  }

  predicate InOrder(incidents: seq<Incident>) {
    forall i, j :: 0 <= i < j < |incidents| ==> Rank(incidents[i].kind) < Rank(incidents[j].kind)
  }

  predicate Lists(incidents: seq<Incident>, kind: Kind) {
    exists i :: 0 <= i < |incidents| && incidents[i].kind == kind
  }

  // The loop's own test for skipping a dependency.
  predicate Quiet(s: Snapshot, now: int) {
    var stale, switched := Age(now, s) > s.expectedFreshness, s.configured != s.actual;
    (s.status.Healthy? && !stale && !switched) || (Inactive(s.status) && !switched)
  }

  /** For a snapshot that passes its own check, the loop skips it exactly when it permits new risk. */
  lemma QuietExactly(s: Snapshot, now: int)
    requires CheckSnapshot(s).Success?
    ensures Quiet(s, now) <==> PermitsNewRisk(s, now)
  {
  }

  lemma AllInOrder(kind: Kind)
    ensures |ALL| == 10 && ALL[Rank(kind)] == kind && kind in ALL
    ensures forall i :: 0 <= i < |ALL| ==> Rank(ALL[i]) == i
  {
    assert ALL[Rank(kind)] == kind;
  }

  lemma ListsGrows(incidents: seq<Incident>, more: Incident)
    ensures forall k :: Lists(incidents + [more], k) <==> Lists(incidents, k) || k == more.kind
  {
    var all := incidents + [more];
    assert all[|incidents|] == more;
    forall k ensures Lists(all, k) <==> Lists(incidents, k) || k == more.kind {
      if Lists(incidents, k) {
        var i :| 0 <= i < |incidents| && incidents[i].kind == k;
        assert all[i].kind == k;
      }
    }
  }

  lemma ListedAreRefused(c: Closure, now: int, incidents: seq<Incident>)
    requires forall k :: Lists(incidents, k) <==> k in c.dependencies && !Quiet(c.dependencies[k], now)
    ensures ClosureValid(c) ==>
              forall k :: Lists(incidents, k) <==> k in c.dependencies && !PermitsNewRisk(c.dependencies[k], now)
  {
    if ClosureValid(c) {
      forall k | k in c.dependencies ensures Quiet(c.dependencies[k], now) <==> PermitsNewRisk(c.dependencies[k], now) {
        QuietExactly(c.dependencies[k], now);
      }
    }
  }

  lemma RankOf(n: nat)
    requires n < 10
    ensures Rank(ALL[n]) == n && forall k :: Rank(k) == n ==> k == ALL[n]
  {
  }

  // One incident for each of the first kinds that does not pass the loop's test, in key order.
  ghost predicate Raised(c: Closure, now: int, incidents: seq<Incident>, n: nat) {
    && InOrder(incidents)
    && (forall i :: 0 <= i < |incidents| ==>
          && incidents[i].kind in c.dependencies && Rank(incidents[i].kind) < n
          && incidents[i] == IncidentFor(incidents[i].kind, c.dependencies[incidents[i].kind], now)
          && !Quiet(c.dependencies[incidents[i].kind], now))
    && (forall k :: k in c.dependencies && Rank(k) < n && !Quiet(c.dependencies[k], now) ==> Lists(incidents, k))
  }

  lemma RaiseOne(c: Closure, now: int, incidents: seq<Incident>, n: nat)
    requires Raised(c, now, incidents, n) && n < 10
    requires ALL[n] in c.dependencies && !Quiet(c.dependencies[ALL[n]], now)
    ensures Raised(c, now, incidents + [IncidentFor(ALL[n], c.dependencies[ALL[n]], now)], n + 1)
  {
    var more := IncidentFor(ALL[n], c.dependencies[ALL[n]], now);
    RankOf(n);
    ListsGrows(incidents, more);
    LastInOrder(incidents, more);
    assert (incidents + [more])[|incidents|] == more;
  }

  lemma LastInOrder(incidents: seq<Incident>, more: Incident)
    requires InOrder(incidents) && forall i :: 0 <= i < |incidents| ==> Rank(incidents[i].kind) < Rank(more.kind)
    ensures InOrder(incidents + [more])
  {
  }

  /**
   One incident per dependency that does not pass the loop's test, in key order. For a valid
   closure these are exactly the dependencies that do not permit new risk.
   */
  method Incidents(c: Closure, now: int) returns (incidents: seq<Incident>)
    ensures InOrder(incidents)
    ensures forall i :: 0 <= i < |incidents| ==>
              incidents[i].kind in c.dependencies
              && incidents[i] == IncidentFor(incidents[i].kind, c.dependencies[incidents[i].kind], now)
    ensures forall k :: k in c.dependencies ==> (Lists(incidents, k) <==> !Quiet(c.dependencies[k], now))
    ensures ClosureValid(c) ==>
              forall k :: Lists(incidents, k) <==> k in c.dependencies && !PermitsNewRisk(c.dependencies[k], now)
  {
    incidents := [];
    for n := 0 to 10
      invariant Raised(c, now, incidents, n)
    {
      var kind := ALL[n];
      RankOf(n);
      if kind in c.dependencies && !Quiet(c.dependencies[kind], now) {
        RaiseOne(c, now, incidents, n);
        incidents := incidents + [IncidentFor(kind, c.dependencies[kind], now)];
      }
    }
    forall k | Lists(incidents, k) ensures k in c.dependencies && !Quiet(c.dependencies[k], now) {
      var i :| 0 <= i < |incidents| && incidents[i].kind == k;
    }
    ListedAreRefused(c, now, incidents);
  }

  /** No incident exactly when the closure permits new risk, which then permits risk reduction. */
  lemma NoIncidentExactly(c: Closure, now: int, incidents: seq<Incident>)
    requires ClosureValid(c)
    requires forall k :: Lists(incidents, k) <==> k in c.dependencies && !PermitsNewRisk(c.dependencies[k], now)
    ensures incidents == [] <==> ClosurePermitsNewRisk(c, now)
    ensures incidents == [] ==> PermitsRiskReduction(c, now)
    ensures PermitsRiskReduction(c, now) <==> forall k :: k in FOR_REDUCTION ==> !Lists(incidents, k)
  {
    if incidents != [] {
      assert Lists(incidents, incidents[0].kind);
    }
    forall k ensures k in c.dependencies {
      AllInOrder(k);
    }
  }
}
