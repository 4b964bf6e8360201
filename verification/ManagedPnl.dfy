/**
 Average-cost profit and loss over a run's fills: the loop that works in fixed-width integers
 computes an exact account, and the account's rounding is bounded.
 */
module ManagedPnl {
  import opened Wrappers
  import opened Arithmetic

  datatype CostBasis = CostBasis(quantity: Int64, average: Int64)

  datatype Fill = Fill(symbol: string, side: string, quantity: Int64, price: Int64)

  datatype PnlError =
    | NonPositive | MissingBasis(symbol: string) | Oversell(symbol: string) | UnsupportedSide(side: string)
    | QuantityOverflow | DivisionFailed | AverageOverflow | RealizedOverflow

  type Basis = map<string, CostBasis>

  // Positions, and the profit realized so far, as a plain integer.
  datatype Books = Books(basis: Basis, realized: int)

  function HeldIn(basis: Basis, symbol: string): CostBasis {
    if symbol in basis then basis[symbol] else CostBasis(0, 0)
  }

  // The gain of a sale at the held average, in micros.
  function Gain(fill: Fill, average: Int64): int {
    TruncDiv(fill.quantity * Wrap64(fill.price - average), 1_000_000)
  }

  // One fill booked in unbounded integers.
  function Apply(books: Books, fill: Fill): Result<Books, PnlError> {
    var held := HeldIn(books.basis, fill.symbol);
    if fill.quantity <= 0 || fill.price <= 0 then Failure(NonPositive)
    else if fill.side == "buy" then
      var quantity := held.quantity + fill.quantity;
      if quantity > I64_MAX then Failure(QuantityOverflow)
      else if quantity == 0 then Failure(DivisionFailed)
      else
        var average := TruncDiv(held.quantity * held.average + fill.quantity * fill.price, quantity);
        if !IsI64(average) then Failure(AverageOverflow)
        else Success(books.(basis := books.basis[fill.symbol := CostBasis(quantity, average)]))
    else if fill.side == "sell" then
      if fill.symbol !in books.basis then Failure(MissingBasis(fill.symbol))
      else if fill.quantity > held.quantity then Failure(Oversell(fill.symbol))
      else Success(Books(
        books.basis[fill.symbol := CostBasis(held.quantity - fill.quantity, held.average)],
        books.realized + Gain(fill, held.average)))
    else Failure(UnsupportedSide(fill.side))
  }

  function Book(books: Books, fills: seq<Fill>): Result<Books, PnlError>
    decreases |fills|
  {
    if fills == [] then Success(books)
    else
      var next := Apply(books, fills[0]);
      if next.Failure? then next else Book(next.value, fills[1..])
  }

  function Outcome(opening: Basis, fills: seq<Fill>): Result<Int64, PnlError> {
    var end := Book(Books(opening, 0), fills);
    if end.Failure? then Failure(end.error)
    else if !IsI64(end.value.realized) then Failure(RealizedOverflow)
    else Success(end.value.realized)
  }

  // --- The loop ---

  const GAIN_BOUND := 0x800_0000_0000_0000_0000_0000_0000

  lemma GainFits(fill: Fill, average: Int64)
    ensures -TWO_126 <= fill.quantity * Wrap64(fill.price - average) <= TWO_126
    ensures -GAIN_BOUND <= Gain(fill, average) <= GAIN_BOUND
  {
    var wrapped: Int64 := Wrap64(fill.price - average);
    ProductFits(fill.quantity, wrapped);
    TruncDivBound(fill.quantity * wrapped, 1_000_000, GAIN_BOUND);
  }

  lemma DivisionFits(a: int, b: int)
    requires b != 0 && -I128_MAX <= a <= I128_MAX
    ensures IsI128(TruncDiv(a, b))
  {
    var m, d := Magnitude(a), Magnitude(b);
    MulMonotone(1, d, m);
    DivBetween(m, d, 0, m);
  }

  // A purchase in saturating 128-bit arithmetic.
  method Buy(basis: Basis, fill: Fill) returns (r: Result<Basis, PnlError>)
    requires fill.quantity > 0 && fill.price > 0 && fill.side == "buy"
    ensures forall g :: Apply(Books(basis, g), fill) == if r.Success? then Success(Books(r.value, g)) else Failure(r.error)
  {
    var entry := HeldIn(basis, fill.symbol);
    ProductFits(entry.quantity, entry.average);
    ProductFits(fill.quantity, fill.price);
    assert fill.quantity * fill.price <= TWO_126 - 1 by {
      MulMonotone(fill.quantity, I64_MAX, fill.price);
      MulMonotone(fill.price, I64_MAX, I64_MAX);
    }
    var prior := SaturatingMul(entry.quantity, entry.average);
    var paid := SaturatingMul(fill.quantity, fill.price);
    if entry.quantity + fill.quantity > I64_MAX {
      return Failure(QuantityOverflow);
    }
    var quantity: Int64 := entry.quantity + fill.quantity;
    var average := CheckedDiv(SaturatingAdd(prior, paid), quantity);
    assert fill.quantity * fill.price >= 0 by { MulMonotone(0, fill.quantity, fill.price); }
    if quantity != 0 {
      DivisionFits(prior + paid, quantity);
    }
    if average.None? {
      return Failure(DivisionFailed);
    }
    if !IsI64(average.value) {
      return Failure(AverageOverflow);
    }
    return Success(basis[fill.symbol := CostBasis(quantity, average.value)]);
  }

  // A sale: what is left of the position, and the gain.
  method Sell(basis: Basis, fill: Fill) returns (r: Result<(Basis, Int128), PnlError>)
    requires fill.quantity > 0 && fill.price > 0 && fill.side == "sell"
    ensures forall g :: Apply(Books(basis, g), fill) ==
                        if r.Success? then Success(Books(r.value.0, g + r.value.1)) else Failure(r.error)
    ensures r.Success? ==> -GAIN_BOUND <= r.value.1 <= GAIN_BOUND
  {
    if fill.symbol !in basis {
      return Failure(MissingBasis(fill.symbol));
    }
    var entry := basis[fill.symbol];
    if fill.quantity > entry.quantity {
      return Failure(Oversell(fill.symbol));
    }
    GainFits(fill, entry.average);
    return Success((basis[fill.symbol := CostBasis(entry.quantity - fill.quantity, entry.average)], Gain(fill, entry.average)));
  }

  // Adding one bounded gain to at most a million of them does not saturate.
  lemma GainAdds(realized: Int128, gain: int, i: nat)
    requires i < 1_000_000 && -(i * GAIN_BOUND) <= realized <= i * GAIN_BOUND && -GAIN_BOUND <= gain <= GAIN_BOUND
    ensures IsI128(gain) && SaturatingAdd(realized, gain) == realized + gain
    ensures -((i + 1) * GAIN_BOUND) <= realized + gain <= (i + 1) * GAIN_BOUND
  {
  }

  lemma BookNext(books: Books, fills: seq<Fill>, i: nat)
    requires i < |fills|
    ensures Book(books, fills[i..]) ==
            var next := Apply(books, fills[i]);
            if next.Failure? then next else Book(next.value, fills[i + 1..])
  {
    assert fills[i..][1..] == fills[i + 1..];
  }

  /**
   The loop computes the exact account: with at most a million fills no 128-bit operation
   saturates, whatever the opening positions.
   */
  method ManagedRealizedPnl(opening: Basis, fills: seq<Fill>) returns (r: Result<Int64, PnlError>)
    ensures |fills| <= 1_000_000 ==> r == Outcome(opening, fills)
  {
    var basis, realized: Int128 := opening, 0;
    for i := 0 to |fills|
      invariant |fills| <= 1_000_000 ==> -(i * GAIN_BOUND) <= realized <= i * GAIN_BOUND
      invariant |fills| <= 1_000_000 ==>
                  Book(Books(opening, 0), fills) == Book(Books(basis, realized), fills[i..])
    {
      var fill := fills[i];
      BookNext(Books(basis, realized), fills, i);
      if fill.quantity <= 0 || fill.price <= 0 {
        return Failure(NonPositive);
      }
      if fill.side == "buy" {
        var bought := Buy(basis, fill);
        if bought.Failure? {
          return Failure(bought.error);
        }
        basis := bought.value;
      } else if fill.side == "sell" {
        var sold := Sell(basis, fill);
        if sold.Failure? {
          return Failure(sold.error);
        }
        if |fills| <= 1_000_000 {
          GainAdds(realized, sold.value.1, i);
        }
        basis, realized := sold.value.0, SaturatingAdd(realized, sold.value.1);
      } else {
        return Failure(UnsupportedSide(fill.side));
      }
    }
    assert fills[|fills|..] == [];
    if !IsI64(realized) {
      return Failure(RealizedOverflow);
    }
    return Success(realized);
  }
}
