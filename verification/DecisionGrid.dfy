/**
 Two certificates by counting: a forecast list that covers the asset and horizon grid exactly
 once, and a research allocation whose weights and cash add up to one.
 */
module DecisionGrid {
  import opened Wrappers
  import opened Arithmetic
  import opened Ordering
  import opened DecisionEvidence

  datatype DomainError =
    | InvalidForecastProbability | InvalidThesis | InvalidForecastHorizons
    | InvalidTargetUniverse | InvalidRow | GrossOverflow | InvalidWeights

  // --- The forecast grid ---

  type Slot = (Asset, Horizon)

  const HORIZONS := [T1, T3, T5]

  const GRID: seq<Slot> :=
    [(Tqqq, T1), (Tqqq, T3), (Tqqq, T5), (Qqq, T1), (Qqq, T3), (Qqq, T5),
     (Soxx, T1), (Soxx, T3), (Soxx, T5), (Soxl, T1), (Soxl, T3), (Soxl, T5)]

  function CheckForecast(f: Forecast): Result<(), DomainError> {
    if f.probability > 1_000_000 then Failure(InvalidForecastProbability)
    else if !f.thesisFits then Failure(InvalidThesis)
    else Success(())
  }

  predicate AllValid(forecasts: seq<Forecast>) {
    forall i :: 0 <= i < |forecasts| ==> CheckForecast(forecasts[i]).Success?
  }

  // Every probability is at most one, and every thesis fits.
  predicate ProbableAndFitting(forecasts: seq<Forecast>) {
    forall i :: 0 <= i < |forecasts| ==> forecasts[i].probability <= 1_000_000 && forecasts[i].thesisFits
  }

  lemma ValidExactly(forecasts: seq<Forecast>)
    ensures AllValid(forecasts) <==> ProbableAndFitting(forecasts)
  {
    forall i | 0 <= i < |forecasts|
      ensures CheckForecast(forecasts[i]).Success? <==> forecasts[i].probability <= 1_000_000 && forecasts[i].thesisFits {
    }
  }

  function Slots(forecasts: seq<Forecast>): (r: seq<Slot>) {
    seq(|forecasts|, i requires 0 <= i < |forecasts| => (forecasts[i].asset, forecasts[i].horizon))
  }

  lemma GridHoldsAll(slot: Slot)
    ensures slot in GRID
  {
    match slot
    case (a, h) =>
      var i := match a case Tqqq => 0 case Qqq => 3 case Soxx => 6 case Soxl => 9;
      var j := match h case T1 => 0 case T3 => 1 case T5 => 2;
      assert GRID[i + j] == slot;
  }

  lemma GridDistinct()
    ensures NoRepeats(GRID)
  {
    forall i, j | 0 <= i < j < |GRID| ensures GRID[i] != GRID[j] {}
  }

  // A list is a permutation of one that holds everything once exactly when it holds everything once.
  lemma PermutationOf(slots: seq<Slot>, grid: seq<Slot>)
    requires NoRepeats(grid) && forall s :: s in grid
    ensures multiset(slots) == multiset(grid) <==> NoRepeats(slots) && forall s :: s in slots
  {
    forall s ensures multiset(grid)[s] == 1 {
      NoRepeatsMultiset(grid, s);
    }
    if multiset(slots) == multiset(grid) {
      DistinctByCount(slots);
      forall s ensures s in slots {
        assert s in multiset(slots);
      }
    }
    if NoRepeats(slots) && forall s :: s in slots {
      forall s ensures multiset(slots)[s] == multiset(grid)[s] {
        NoRepeatsMultiset(slots, s);
      }
    }
  }

  /** A list of slots is a permutation of the grid exactly when nothing repeats and nothing is missing. */
  lemma PermutationExactly(slots: seq<Slot>)
    ensures multiset(slots) == multiset(GRID) <==> NoRepeats(slots) && forall s :: s in slots
    ensures multiset(slots) == multiset(GRID) ==> |slots| == 12
  {
    GridDistinct();
    forall s ensures s in GRID {
      GridHoldsAll(s);
    }
    PermutationOf(slots, GRID);
    assert |multiset(slots)| == |slots| && |multiset(GRID)| == |GRID|;
  }

  // The first invalid forecast, with no repeated slot before it.
  predicate StopsAt(forecasts: seq<Forecast>, i: nat, error: DomainError)
    requires i < |forecasts|
  {
    && CheckForecast(forecasts[i]) == Failure(error)
    && AllValid(forecasts[..i]) && NoRepeats(Slots(forecasts[..i]))
  }

  lemma ValidNext(forecasts: seq<Forecast>, i: nat)
    requires i < |forecasts|
    ensures AllValid(forecasts[..i + 1]) <==> AllValid(forecasts[..i]) && CheckForecast(forecasts[i]).Success?
    ensures AllValid(forecasts) ==> CheckForecast(forecasts[i]).Success?
  {
    var more := forecasts[..i + 1];
    assert forall j :: 0 <= j < i ==> more[j] == forecasts[..i][j];
    assert more[i] == forecasts[i];
    if AllValid(forecasts[..i]) && CheckForecast(forecasts[i]).Success? {
      forall j | 0 <= j < |more| ensures CheckForecast(more[j]).Success? {
        assert j < i ==> more[j] == forecasts[..i][j];
      }
    }
  }

  lemma SlotsOfFirst(forecasts: seq<Forecast>, i: nat)
    requires i <= |forecasts|
    ensures Slots(forecasts[..i]) == Slots(forecasts)[..i]
  {
  }

  // The slots in order of appearance; the first invalid or repeated one stops.
  method CollectSlots(forecasts: seq<Forecast>) returns (r: Result<set<Slot>, DomainError>)
    ensures r.Success? <==> AllValid(forecasts) && NoRepeats(Slots(forecasts))
    ensures r.Success? ==> |r.value| == |forecasts| && forall s :: s in r.value <==> s in Slots(forecasts)
    ensures r.Failure? && r.error != InvalidForecastHorizons ==>
              exists i :: 0 <= i < |forecasts| && StopsAt(forecasts, i, r.error)
  {
    var coverage: set<Slot> := {};
    ghost var slots := Slots(forecasts);
    for i := 0 to |forecasts|
      invariant AllValid(forecasts[..i])
      invariant Seen(slots, i, coverage)
    {
      var checked := CheckForecast(forecasts[i]);
      ValidNext(forecasts, i);
      if checked.Failure? {
        SlotsOfFirst(forecasts, i);
        assert StopsAt(forecasts, i, checked.error);
        return Failure(checked.error);
      }
      var slot := (forecasts[i].asset, forecasts[i].horizon);
      SeeOne(slots, i, coverage);
      if slot in coverage {
        return Failure(InvalidForecastHorizons);
      }
      coverage := coverage + {slot};
    }
    assert slots[..|forecasts|] == slots && forecasts[..|forecasts|] == forecasts;
    return Success(coverage);
  }

  lemma ListsHoldAll()
    ensures forall a :: a in EXECUTABLE
    ensures forall h :: h in HORIZONS
  {
    forall a ensures a in EXECUTABLE {
      match a
      case Tqqq => assert EXECUTABLE[0] == a;
      case Qqq => assert EXECUTABLE[1] == a;
      case Soxx => assert EXECUTABLE[2] == a;
      case Soxl => assert EXECUTABLE[3] == a;
    }
    forall h ensures h in HORIZONS {
      match h
      case T1 => assert HORIZONS[0] == h;
      case T3 => assert HORIZONS[1] == h;
      case T5 => assert HORIZONS[2] == h;
    }
  }

  predicate Missing(coverage: set<Slot>) {
    exists a, h :: a in EXECUTABLE && h in HORIZONS && (a, h) !in coverage
  }

  lemma MissingExactly(coverage: set<Slot>)
    ensures Missing(coverage) <==> exists s: Slot :: s !in coverage
  {
    ListsHoldAll();
    if s: Slot :| s !in coverage {
      assert s == (s.0, s.1) && s.0 in EXECUTABLE && s.1 in HORIZONS;
    }
  }

  /**
   A forecast list is accepted exactly when every forecast is valid and the slots are a
   permutation of the twelve asset and horizon pairs.
   */
  method ValidateForecasts(forecasts: seq<Forecast>) returns (r: Result<(), DomainError>)
    ensures r.Success? <==>
              && ProbableAndFitting(forecasts)
              && multiset(Slots(forecasts)) == multiset(GRID)
    ensures r.Failure? && r.error != InvalidForecastHorizons ==>
              exists i :: 0 <= i < |forecasts| && StopsAt(forecasts, i, r.error)
  {
    var coverage := CollectSlots(forecasts);
    ValidExactly(forecasts);
    PermutationExactly(Slots(forecasts));
    if coverage.Failure? {
      return Failure(coverage.error);
    }
    MissingExactly(coverage.value);
    if |coverage.value| != |EXECUTABLE| * |HORIZONS| || Missing(coverage.value) {
      return Failure(InvalidForecastHorizons);
    }
    return Success(());
  }

  // --- The research allocation ---

  // `rowValid`: the row's own text, order and support rules.
  datatype Allocation = Allocation(asset: Asset, weight: nat, rowValid: bool)

  datatype Plan = Plan(cash: nat, allocations: seq<Allocation>)

  predicate RowValid(row: Allocation) {
    row.weight <= SCALE && row.rowValid
  }

  // The weight of an asset: that of its first row, or zero.
  function WeightIn(rows: seq<Allocation>, asset: Asset): nat {
    if rows == [] then 0
    else if rows[0].asset == asset then rows[0].weight
    else WeightIn(rows[1..], asset)
  }

  function Weight(plan: Plan, asset: Asset): nat {
    WeightIn(plan.allocations, asset)
  }

  function TotalWeight(rows: seq<Allocation>): nat {
    WeightIn(rows, Tqqq) + WeightIn(rows, Qqq) + WeightIn(rows, Soxx) + WeightIn(rows, Soxl)
  }

  function Gross(rows: seq<Allocation>): nat {
    if rows == [] then 0 else Gross(rows[..|rows| - 1]) + rows[|rows| - 1].weight
  }

  predicate DistinctAssets(rows: seq<Allocation>) {
    forall i, j :: 0 <= i < j < |rows| ==> rows[i].asset != rows[j].asset
  }

  lemma {:induction false} WeightAppends(rows: seq<Allocation>, row: Allocation, asset: Asset)
    requires forall i :: 0 <= i < |rows| ==> rows[i].asset != row.asset
    ensures WeightIn(rows + [row], asset) == if asset == row.asset then row.weight else WeightIn(rows, asset)
    ensures WeightIn(rows, row.asset) == 0
  {
    if rows != [] {
      WeightAppends(rows[1..], row, asset);
      assert (rows + [row])[1..] == rows[1..] + [row];
    } else {
      assert [row][1..] == [];
    }
  }

  /** For distinct assets, adding up the rows is adding up the assets. */
  lemma {:induction false} GrossIsTotal(rows: seq<Allocation>)
    requires DistinctAssets(rows)
    ensures Gross(rows) == TotalWeight(rows)
    decreases |rows|
  {
    if rows != [] {
      var init, last := rows[..|rows| - 1], rows[|rows| - 1];
      assert rows == init + [last];
      GrossIsTotal(init);
      WeightAppends(init, last, Tqqq);
      WeightAppends(init, last, Qqq);
      WeightAppends(init, last, Soxx);
      WeightAppends(init, last, Soxl);
    }
  }

  // Distinct assets are at most four, and four are all of them.
  lemma {:induction false} AssetsCounted(rows: seq<Allocation>, assets: set<Asset>)
    requires forall a :: a in assets <==> exists i :: 0 <= i < |rows| && rows[i].asset == a
    requires DistinctAssets(rows)
    ensures |assets| == |rows|
    decreases |rows|
  {
    if rows == [] {
      assert assets == {};
    } else {
      var init, last := rows[..|rows| - 1], rows[|rows| - 1];
      assert rows == init + [last];
      forall a ensures a in assets - {last.asset} <==> exists i :: 0 <= i < |init| && init[i].asset == a {
        if a in assets - {last.asset} {
          var i :| 0 <= i < |rows| && rows[i].asset == a;
          assert init[i].asset == a;
        }
        if i :| 0 <= i < |init| && init[i].asset == a {
          assert rows[i].asset == a;
        }
      }
      AssetsCounted(init, assets - {last.asset});
      assert rows[|rows| - 1].asset in assets;
    }
  }

  lemma FourAreAll(assets: set<Asset>)
    requires |assets| == 4
    ensures assets == {Tqqq, Qqq, Soxx, Soxl}
  {
    var all := {Tqqq, Qqq, Soxx, Soxl};
    forall a ensures a in all {
      match a
      case Tqqq =>
      case Qqq =>
      case Soxx =>
      case Soxl =>
    }
    assert assets <= all;
    assert |all - assets| == |all| - |assets|;
  }

  // The first rows, on distinct assets, and their weights added up.
  ghost predicate RowsSeen(rows: seq<Allocation>, i: nat, assets: set<Asset>, gross: nat) {
    && i <= |rows| && DistinctAssets(rows[..i])
    && (forall a :: a in assets <==> exists j :: 0 <= j < i && rows[j].asset == a)
    && gross == Gross(rows[..i]) <= i * SCALE
  }

  lemma RowSeen(rows: seq<Allocation>, i: nat, assets: set<Asset>, gross: nat)
    requires RowsSeen(rows, i, assets, gross) && i < |rows| && RowValid(rows[i])
    ensures if rows[i].asset in assets then !DistinctAssets(rows)
            else RowsSeen(rows, i + 1, assets + {rows[i].asset}, gross + rows[i].weight)
  {
    assert rows[..i + 1][..i] == rows[..i];
  }

  /**
   A plan is accepted exactly when it has four valid rows on distinct assets and the assets'
   weights with cash make one million; the overflow branch is never taken.
   */
  method ValidatePlan(plan: Plan) returns (r: Result<(), DomainError>)
    ensures r.Success? <==>
              && |plan.allocations| == 4 && DistinctAssets(plan.allocations)
              && (forall i :: 0 <= i < 4 ==> plan.allocations[i].weight <= 1_000_000 && plan.allocations[i].rowValid)
              && Weight(plan, Tqqq) + Weight(plan, Qqq) + Weight(plan, Soxx) + Weight(plan, Soxl) + plan.cash == SCALE
    ensures r != Failure(GrossOverflow)
  {
    var rows := plan.allocations;
    if plan.cash > SCALE || |rows| != |EXECUTABLE| {
      return Failure(InvalidTargetUniverse);
    }
    var assets: set<Asset>, gross: nat := {}, 0;
    for i := 0 to |rows|
      invariant forall j :: 0 <= j < i ==> RowValid(rows[j])
      invariant RowsSeen(rows, i, assets, gross)
    {
      if !RowValid(rows[i]) {
        return Failure(InvalidRow);
      }
      RowSeen(rows, i, assets, gross);
      if rows[i].asset in assets {
        return Failure(InvalidTargetUniverse);
      }
      if gross + rows[i].weight > U32_MAX {
        return Failure(GrossOverflow);
      }
      gross := gross + rows[i].weight;
      assets := assets + {rows[i].asset};
    }
    assert rows[..|rows|] == rows;
    AssetsCounted(rows, assets);
    FourAreAll(assets);
    GrossIsTotal(rows);
    if |assets| != |EXECUTABLE| || (exists a :: a in EXECUTABLE && a !in assets) || gross + plan.cash != SCALE {
      return Failure(InvalidWeights);
    }
    return Success(());
  }
}
