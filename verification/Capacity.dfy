/**
 Market capacity of a target held by many identical agents: checked fixed-width arithmetic
 that never overflows where it is checked, and a verdict that is monotone in every input.
 */
module Capacity {
  import opened Wrappers
  import opened Arithmetic
  import opened DecisionEvidence

  datatype Policy = Policy(maxParticipation: UInt32, maxSlippage: UInt32, slope: UInt32)

  datatype Assessment = Assessment(
    asset: Asset, aggregate: Int64, volume: Int64, participation: UInt32, slippage: UInt32,
    fillProbability: UInt32, within: bool)

  datatype Scenario = Scenario(notional: Int64, agents: UInt32, assets: seq<Assessment>, within: bool)

  datatype CapacityError = InvalidPolicy | InvalidUniverse | InvalidScenario | NotionalOverflow | MissingVolume

  predicate PolicyValid(p: Policy) {
    0 < p.maxParticipation <= SCALE && p.maxSlippage <= SCALE && p.slope <= 10 * SCALE
  }

  predicate UniverseValid(target: map<Asset, UInt32>) {
    |target| == 4 && forall a :: a in EXECUTABLE ==> a in target
  }

  // --- The plain account, in unbounded integers ---

  function Capped(x: int): UInt32
    requires x >= 0
  {
    if x <= U32_MAX then x else U32_MAX
  }

  function Notional(notional: int, weight: int, agents: int): int {
    notional * weight * agents / SCALE
  }

  function Participation(aggregate: Int64, volume: Int64): UInt32
    requires aggregate >= 0 && volume > 0
  {
    Capped(aggregate * SCALE / volume)
  }

  function Slippage(participation: UInt32, slope: UInt32): UInt32 {
    Capped(participation * slope / SCALE)
  }

  // An order of so much against a volume stays inside the policy.
  predicate Fits(policy: Policy, aggregate: Int64, volume: Int64)
    requires aggregate >= 0 && volume > 0
  {
    var participation := Participation(aggregate, volume);
    participation <= policy.maxParticipation && Slippage(participation, policy.slope) <= policy.maxSlippage
  }

  // The asset's order fits 64 bits and its volume is known and positive.
  predicate Assessable(weight: UInt32, notional: Int64, agents: UInt32, volumes: map<Asset, Int64>, asset: Asset) {
    0 <= Notional(notional, weight, agents) <= I64_MAX && asset in volumes && volumes[asset] > 0
  }

  function Assess(policy: Policy, asset: Asset, aggregate: Int64, volume: Int64): Assessment
    requires aggregate >= 0 && volume > 0
  {
    var participation := Participation(aggregate, volume);
    Assessment(asset, aggregate, volume, participation, Slippage(participation, policy.slope),
      if participation >= SCALE then 0 else SCALE - participation, Fits(policy, aggregate, volume))
  }

  // --- No overflow ---

  /** The product of any 64-bit amount, 32-bit weight and 32-bit count fits 128 bits, and so does every step to it. */
  lemma NotionalNeverOverflows(notional: Int64, weight: UInt32, agents: UInt32)
    ensures IsI128(notional * weight) && IsI128(notional * weight * agents)
  {
    assert IsI64(notional);
    var m, wa := Magnitude(notional), weight * agents;
    MulMonotone(0, weight, agents);
    MulMonotone(weight, U32_MAX, agents);
    MulMonotone(agents, U32_MAX, U32_MAX);
    assert 0 <= wa <= U32_MAX * U32_MAX;
    Bounded(notional, weight, U32_MAX);
    Bounded(notional, wa, U32_MAX * U32_MAX);
    assert notional * weight * agents == notional * wa by { Regroup(notional, weight, agents); }
  }

  lemma Regroup(a: int, b: int, c: int)
    ensures a * b * c == a * (b * c)
  {
  }

  lemma Bounded(a: Int64, b: int, limit: int)
    requires 0 <= b <= limit
    ensures I64_MIN * limit <= a * b <= I64_MAX * limit
  {
    assert IsI64(a);
    MulMonotone(a, I64_MAX, b);
    MulMonotone(I64_MIN, a, b);
    MulMonotone(b, limit, I64_MAX);
    MulMonotone(b, limit, 0 - I64_MIN);
    assert I64_MIN * b == -((0 - I64_MIN) * b) && I64_MIN * limit == -((0 - I64_MIN) * limit);
    assert (0 - I64_MIN) * b == b * (0 - I64_MIN) && (0 - I64_MIN) * limit == limit * (0 - I64_MIN);
    assert I64_MAX * b == b * I64_MAX && I64_MAX * limit == limit * I64_MAX;
  }

  lemma NonNegativeTruncates(n: int, d: int)
    requires n >= 0 && d > 0
    ensures TruncDiv(n, d) == n / d && 0 <= n / d <= n
  {
    MulMonotone(1, d, n);
    DivBetween(n, d, 0, n);
  }

  // --- The computation ---

  // The aggregate order, checked at every step.
  method AggregateOrder(notional: Int64, weight: UInt32, agents: UInt32) returns (r: Option<Int64>)
    requires notional > 0
    ensures r == if IsI64(Notional(notional, weight, agents)) then Some(Notional(notional, weight, agents)) else None
    ensures Notional(notional, weight, agents) >= 0
  {
    NotionalNeverOverflows(notional, weight, agents);
    assert IsI64(notional);
    MulMonotone(0, notional, weight);
    MulMonotone(0, notional * weight, agents);
    NonNegativeTruncates(notional * weight * agents, SCALE);
    var first := CheckedMul(notional, weight);
    var second := CheckedMul(first.value, agents);
    var quotient := CheckedDiv(second.value, SCALE);
    if quotient.None? || !IsI64(quotient.value) {
      return None;
    }
    return Some(quotient.value);
  }

  // Participation and slippage, saturating at 32 bits.
  method AssessOrder(policy: Policy, asset: Asset, aggregate: Int64, volume: Int64) returns (r: Assessment)
    requires aggregate >= 0 && volume > 0
    ensures r == Assess(policy, asset, aggregate, volume)
  {
    assert IsI64(aggregate) && IsI64(volume);
    NonNegativeTruncates(aggregate * SCALE, volume);
    var scaled := CheckedMul(aggregate, SCALE);
    var ratio := CheckedDiv(scaled.value, volume);
    var participation: UInt32 := if ratio.value <= U32_MAX then ratio.value else U32_MAX;
    MulMonotone(0, participation, policy.slope);
    var product := participation * policy.slope / SCALE;
    var slippage: UInt32 := if product <= U32_MAX then product else U32_MAX;
    var capped := if participation <= SCALE then participation else SCALE;
    var within := participation <= policy.maxParticipation && slippage <= policy.maxSlippage;
    r := Assessment(asset, aggregate, volume, participation, slippage, SCALE - capped, within);
  }

  // Every asset with weight can be assessed.
  predicate AllAssessable(target: map<Asset, UInt32>, notional: Int64, agents: UInt32, volumes: map<Asset, Int64>)
    requires UniverseValid(target)
  {
    forall a :: a in EXECUTABLE && target[a] != 0 ==> Assessable(target[a], notional, agents, volumes, a)
  }

  predicate CanAssess(policy: Policy, target: map<Asset, UInt32>, notional: Int64, agents: UInt32, volumes: map<Asset, Int64>) {
    PolicyValid(policy) && UniverseValid(target) && notional > 0 && agents != 0
    && AllAssessable(target, notional, agents, volumes)
  }

  // Some asset has weight, and each one's order stays inside the policy.
  predicate WithinCapacity(policy: Policy, target: map<Asset, UInt32>, notional: Int64, agents: UInt32, volumes: map<Asset, Int64>)
    requires CanAssess(policy, target, notional, agents, volumes)
  {
    && (exists a :: a in EXECUTABLE && target[a] != 0)
    && forall a :: a in EXECUTABLE && target[a] != 0 ==>
         Fits(policy, Notional(notional, target[a], agents), volumes[a])
  }

  predicate HasRow(rows: seq<Assessment>, asset: Asset) {
    exists i :: 0 <= i < |rows| && rows[i].asset == asset
  }

  predicate RowsCover(target: map<Asset, UInt32>, k: nat, rows: seq<Assessment>)
    requires k <= 4 && UniverseValid(target)
  {
    forall a :: a in EXECUTABLE[..k] && target[a] != 0 ==> HasRow(rows, a)
  }

  predicate RowsInOrder(rows: seq<Assessment>) {
    forall i, j :: 0 <= i < j < |rows| ==> Before(rows, i, j)
  }

  // The exact row of an asset with weight.
  predicate IsRow(policy: Policy, target: map<Asset, UInt32>, notional: Int64, agents: UInt32, volumes: map<Asset, Int64>,
      row: Assessment)
    requires UniverseValid(target)
  {
    && row.asset in EXECUTABLE && target[row.asset] != 0
    && Assessable(target[row.asset], notional, agents, volumes, row.asset)
    && row == Assess(policy, row.asset, Notional(notional, target[row.asset], agents), volumes[row.asset])
  }

  // Row i comes before row j in the order of the universe.
  predicate Before(rows: seq<Assessment>, i: nat, j: nat)
    requires i < |rows| && j < |rows|
  {
    forall p, q :: 0 <= p < 4 && 0 <= q < 4 && rows[i].asset == EXECUTABLE[p] && rows[j].asset == EXECUTABLE[q] ==> p < q
  }

  // One row for each asset with weight among the first k, in order.
  ghost predicate RowsFor(policy: Policy, target: map<Asset, UInt32>, notional: Int64, agents: UInt32,
      volumes: map<Asset, Int64>, k: nat, rows: seq<Assessment>)
    requires k <= 4 && UniverseValid(target)
  {
    && (forall i :: 0 <= i < |rows| ==> rows[i].asset in EXECUTABLE[..k] && IsRow(policy, target, notional, agents, volumes, rows[i]))
    && RowsCover(target, k, rows) && RowsInOrder(rows)
  }

  // The row of one asset with weight.
  method AssessAsset(policy: Policy, asset: Asset, weight: UInt32, notional: Int64, agents: UInt32,
      volumes: map<Asset, Int64>) returns (r: Result<Assessment, CapacityError>)
    requires notional > 0
    ensures r.Success? <==> Assessable(weight, notional, agents, volumes, asset)
    ensures r.Success? ==> r.value == Assess(policy, asset, Notional(notional, weight, agents), volumes[asset])
    ensures r.Failure? ==> r.error.NotionalOverflow? || r.error.MissingVolume?
  {
    var aggregate := AggregateOrder(notional, weight, agents);
    if aggregate.None? {
      return Failure(NotionalOverflow);
    }
    if asset !in volumes || volumes[asset] <= 0 {
      return Failure(MissingVolume);
    }
    var row := AssessOrder(policy, asset, aggregate.value, volumes[asset]);
    return Success(row);
  }

  lemma NextAsset(k: nat)
    requires k < 4
    ensures EXECUTABLE[..k + 1] == EXECUTABLE[..k] + [EXECUTABLE[k]] && EXECUTABLE[k] !in EXECUTABLE[..k]
  {
  }

  lemma NoRow(policy: Policy, target: map<Asset, UInt32>, notional: Int64, agents: UInt32, volumes: map<Asset, Int64>,
      k: nat, rows: seq<Assessment>)
    requires k < 4 && UniverseValid(target) && RowsFor(policy, target, notional, agents, volumes, k, rows)
    requires EXECUTABLE[k] in EXECUTABLE && target[EXECUTABLE[k]] == 0
    ensures RowsFor(policy, target, notional, agents, volumes, k + 1, rows)
  {
    NextAsset(k);
  }

  lemma OneMoreRow(policy: Policy, target: map<Asset, UInt32>, notional: Int64, agents: UInt32, volumes: map<Asset, Int64>,
      k: nat, rows: seq<Assessment>, row: Assessment)
    requires k < 4 && UniverseValid(target) && RowsFor(policy, target, notional, agents, volumes, k, rows)
    requires row.asset == EXECUTABLE[k] && IsRow(policy, target, notional, agents, volumes, row)
    ensures RowsFor(policy, target, notional, agents, volumes, k + 1, rows + [row])
  {
    NextAsset(k);
    MoreCover(target, k, rows, row);
    MoreInOrder(k, rows, row);
  }

  lemma MoreCover(target: map<Asset, UInt32>, k: nat, rows: seq<Assessment>, row: Assessment)
    requires k < 4 && UniverseValid(target) && RowsCover(target, k, rows) && row.asset == EXECUTABLE[k]
    ensures RowsCover(target, k + 1, rows + [row])
  {
    NextAsset(k);
    var more := rows + [row];
    assert more[|rows|].asset == row.asset;
    forall a | a in EXECUTABLE[..k + 1] && target[a] != 0 ensures HasRow(more, a) {
      if a != row.asset {
        assert HasRow(rows, a);
        var i :| 0 <= i < |rows| && rows[i].asset == a;
        assert more[i].asset == a;
      }
    }
  }

  lemma MoreInOrder(k: nat, rows: seq<Assessment>, row: Assessment)
    requires k < 4 && row.asset == EXECUTABLE[k] && RowsInOrder(rows)
    requires forall i :: 0 <= i < |rows| ==> rows[i].asset in EXECUTABLE[..k]
    ensures RowsInOrder(rows + [row])
  {
    var more := rows + [row];
    forall i, j | 0 <= i < j < |more| ensures Before(more, i, j) {
      if j < |rows| {
        assert Before(rows, i, j);
      } else {
        assert rows[i].asset in EXECUTABLE[..k];
        NextAsset(k);
      }
    }
  }

  /**
   The scenario is assessed exactly when the policy and universe are valid, the notional and
   count positive, and every weighted asset assessable; it then holds one exact row per such
   asset, and is within capacity exactly when every row is and there is one.
   */
  method AssessCapacity(policy: Policy, target: map<Asset, UInt32>, notional: Int64, agents: UInt32, volumes: map<Asset, Int64>)
    returns (r: Result<Scenario, CapacityError>)
    ensures r.Success? <==> CanAssess(policy, target, notional, agents, volumes)
    ensures r.Success? ==>
              && RowsFor(policy, target, notional, agents, volumes, 4, r.value.assets)
              && (r.value.within <==> WithinCapacity(policy, target, notional, agents, volumes))
              && r.value.notional == notional && r.value.agents == agents
    ensures r == Failure(InvalidPolicy) <==> !PolicyValid(policy)
    ensures r == Failure(InvalidUniverse) <==> PolicyValid(policy) && !UniverseValid(target)
    ensures r == Failure(InvalidScenario) <==>
              PolicyValid(policy) && UniverseValid(target) && (notional <= 0 || agents == 0)
  {
    if !PolicyValid(policy) {
      return Failure(InvalidPolicy);
    }
    if !UniverseValid(target) {
      return Failure(InvalidUniverse);
    }
    if notional <= 0 || agents == 0 {
      return Failure(InvalidScenario);
    }
    var rows: seq<Assessment> := [];
    for k := 0 to 4
      invariant RowsFor(policy, target, notional, agents, volumes, k, rows)
    {
      var asset := EXECUTABLE[k];
      assert asset in EXECUTABLE;
      if target[asset] == 0 {
        NoRow(policy, target, notional, agents, volumes, k, rows);
      } else {
        var row := AssessAsset(policy, asset, target[asset], notional, agents, volumes);
        if row.Failure? {
          return Failure(row.error);
        }
        OneMoreRow(policy, target, notional, agents, volumes, k, rows, row.value);
        rows := rows + [row.value];
      }
    }
    assert EXECUTABLE[..4] == EXECUTABLE;
    var within := rows != [] && forall i :: 0 <= i < |rows| ==> rows[i].within;
    RowsDecide(policy, target, notional, agents, volumes, rows);
    return Success(Scenario(notional, agents, rows, within));
  }

  lemma RowsDecide(policy: Policy, target: map<Asset, UInt32>, notional: Int64, agents: UInt32, volumes: map<Asset, Int64>,
      rows: seq<Assessment>)
    requires PolicyValid(policy) && UniverseValid(target) && notional > 0 && agents != 0
    requires RowsFor(policy, target, notional, agents, volumes, 4, rows)
    ensures CanAssess(policy, target, notional, agents, volumes)
    ensures (rows != [] && forall i :: 0 <= i < |rows| ==> rows[i].within) <==>
            WithinCapacity(policy, target, notional, agents, volumes)
  {
    assert EXECUTABLE[..4] == EXECUTABLE;
    forall a | a in EXECUTABLE && target[a] != 0 ensures Assessable(target[a], notional, agents, volumes, a) {
      assert HasRow(rows, a);
      var i :| 0 <= i < |rows| && rows[i].asset == a;
    }
    if rows != [] {
      assert rows[0].asset in EXECUTABLE;
    }
    if WithinCapacity(policy, target, notional, agents, volumes) {
      var a :| a in EXECUTABLE && target[a] != 0;
      assert HasRow(rows, a);
      var i :| 0 <= i < |rows| && rows[i].asset == a;
    }
    forall a | (forall i :: 0 <= i < |rows| ==> rows[i].within) && a in EXECUTABLE && target[a] != 0
      ensures Fits(policy, Notional(notional, target[a], agents), volumes[a]) {
      assert HasRow(rows, a);
      var i :| 0 <= i < |rows| && rows[i].asset == a;
    }
  }

  // --- Monotonicity ---

  lemma DivMonotone(a: int, b: int, c: int, d: int)
    requires 0 <= a <= b && 0 < d <= c
    ensures a / c <= b / d
  {
    var q := b / d;
    assert b == q * d + b % d;
    assert b < (q + 1) * d by { assert (q + 1) * d == q * d + d; }
    MulMonotone(d, c, q + 1);
    assert (q + 1) * d == d * (q + 1) && (q + 1) * c == c * (q + 1);
    var p := a / c;
    assert a == p * c + a % c;
    MulCancel(p, q, c);
  }

  lemma NotionalMonotone(notional: int, smaller: int, weight: int, agents: int, fewer: int)
    requires 0 < smaller <= notional && 0 <= fewer <= agents && 0 <= weight
    ensures 0 <= Notional(smaller, weight, fewer) <= Notional(notional, weight, agents)
  {
    MulMonotone(smaller, notional, weight);
    MulMonotone(0, smaller, weight);
    MulMonotone(smaller * weight, notional * weight, fewer);
    MulMonotone(fewer, agents, notional * weight);
    MulMonotone(0, smaller * weight, fewer);
    assert notional * weight * fewer == fewer * (notional * weight);
    assert notional * weight * agents == agents * (notional * weight);
    DivMonotone(smaller * weight * fewer, notional * weight * agents, SCALE, SCALE);
  }

  lemma FitsMonotone(policy: Policy, aggregate: Int64, volume: Int64, less: Int64, more: Int64)
    requires 0 <= less <= aggregate && 0 < volume <= more
    requires Fits(policy, aggregate, volume)
    ensures Fits(policy, less, more)
  {
    DivMonotone(less * SCALE, aggregate * SCALE, more, volume);
    var p, q := Participation(less, more), Participation(aggregate, volume);
    MulMonotone(p, q, policy.slope);
    MulMonotone(0, p, policy.slope);
    DivMonotone(p * policy.slope, q * policy.slope, SCALE, SCALE);
  }

  /**
   For a fixed target, a smaller positive account, fewer agents or larger volumes keep both
   the assessment and the verdict.
   */
  lemma CapacityIsMonotone(policy: Policy, target: map<Asset, UInt32>, notional: Int64, agents: UInt32,
      volumes: map<Asset, Int64>, smaller: Int64, fewer: UInt32, larger: map<Asset, Int64>)
    requires CanAssess(policy, target, notional, agents, volumes)
    requires 0 < smaller <= notional && 0 < fewer <= agents
    requires forall a :: a in volumes ==> a in larger && volumes[a] <= larger[a]
    ensures CanAssess(policy, target, smaller, fewer, larger)
    ensures WithinCapacity(policy, target, notional, agents, volumes) ==>
              WithinCapacity(policy, target, smaller, fewer, larger)
  {
    forall a | a in EXECUTABLE && target[a] != 0
      ensures Assessable(target[a], smaller, fewer, larger, a)
      ensures Fits(policy, Notional(notional, target[a], agents), volumes[a]) ==>
                Fits(policy, Notional(smaller, target[a], fewer), larger[a])
    {
      assert Assessable(target[a], notional, agents, volumes, a);
      NotionalMonotone(notional, smaller, target[a], agents, fewer);
      if Fits(policy, Notional(notional, target[a], agents), volumes[a]) {
        FitsMonotone(policy, Notional(notional, target[a], agents), volumes[a], Notional(smaller, target[a], fewer), larger[a]);
      }
    }
  }

  lemma QuotientExactly(n: int, d: int, m: int)
    requires d > 0
    ensures n / d <= m <==> n < (m + 1) * d
  {
    var q := n / d;
    assert n == q * d + n % d;
    assert (q + 1) * d == q * d + d && (m + 1) * d == m * d + d;
    if q <= m {
      MulMonotone(q, m, d);
    } else {
      MulMonotone(m + 1, q, d);
    }
  }

  /** The participation test is exactly the strict bound on the order, rounded up by one part of the volume. */
  lemma ShareExactly(policy: Policy, aggregate: Int64, volume: Int64)
    requires PolicyValid(policy) && aggregate >= 0 && volume > 0
    ensures Participation(aggregate, volume) <= policy.maxParticipation <==>
            aggregate * SCALE < (policy.maxParticipation + 1) * volume
  {
    QuotientExactly(aggregate * SCALE, volume, policy.maxParticipation);
  }

  /** The slippage test on a share of the volume is a bound on the share times the impact slope. */
  lemma SlippageExactly(participation: UInt32, slope: UInt32, limit: UInt32)
    requires limit < U32_MAX
    ensures Slippage(participation, slope) <= limit <==> participation * slope < (limit + 1) * SCALE
  {
    MulMonotone(0, participation, slope);
    QuotientExactly(participation * slope, SCALE, limit);
  }

  /** What is not taken of the volume is what is filled, down to nothing; and a row is within exactly by both bounds. */
  lemma RowMeans(policy: Policy, asset: Asset, aggregate: Int64, volume: Int64)
    requires PolicyValid(policy) && aggregate >= 0 && volume > 0
    ensures var row := Assess(policy, asset, aggregate, volume);
            && row.asset == asset && row.aggregate == aggregate && row.volume == volume
            && (row.participation < SCALE ==> row.fillProbability + row.participation == SCALE)
            && (row.participation >= SCALE ==> row.fillProbability == 0)
            && (row.within <==> aggregate * SCALE < (policy.maxParticipation + 1) * volume
                                && row.participation * policy.slope < (policy.maxSlippage + 1) * SCALE)
  {
    ShareExactly(policy, aggregate, volume);
    SlippageExactly(Participation(aggregate, volume), policy.slope, policy.maxSlippage);
  }

  /** Within capacity, each weighted order is below the allowed share of its volume, rounded up by one part. */
  lemma WithinMeansShare(policy: Policy, target: map<Asset, UInt32>, notional: Int64, agents: UInt32,
      volumes: map<Asset, Int64>, asset: Asset)
    requires CanAssess(policy, target, notional, agents, volumes)
    requires WithinCapacity(policy, target, notional, agents, volumes)
    requires asset in EXECUTABLE && target[asset] != 0
    ensures var (aggregate, volume) := (Notional(notional, target[asset], agents), volumes[asset]);
            && aggregate * SCALE < (policy.maxParticipation + 1) * volume
            && Participation(aggregate, volume) * policy.slope < (policy.maxSlippage + 1) * SCALE
  {
    var aggregate, volume := Notional(notional, target[asset], agents), volumes[asset];
    ShareExactly(policy, aggregate, volume);
    SlippageExactly(Participation(aggregate, volume), policy.slope, policy.maxSlippage);
  }
}
