/**
 What the account means: cash and book value are conserved up to a stated rounding, averages
 stay between the old average and the price paid, and exactly the covered fills are booked.
 */
module PnlAccount {
  import opened Wrappers
  import opened Arithmetic
  import opened ManagedPnl

  // No short position and no negative cost.
  predicate Covered(basis: Basis) {
    forall s :: s in basis ==> basis[s].quantity >= 0 && basis[s].average >= 0
  }

  // --- Book value ---

  function Value(b: CostBasis): int {
    b.quantity * b.average
  }

  lemma Smaller(basis: Basis, s: string)
    requires s in basis
    ensures |basis - {s}| < |basis|
  {
    assert basis.Keys == (basis - {s}).Keys + {s};
  }

  // Quantity times average, summed over the symbols.
  ghost function Worth(basis: Basis): int
    decreases |basis|
  {
    if |basis| == 0 then 0
    else
      var s :| s in basis;
      Smaller(basis, s);
      Value(basis[s]) + Worth(basis - {s})
  }

  // The symbol the sum happens to start from.
  lemma WorthStart(basis: Basis) returns (t: string)
    requires basis != map[]
    ensures t in basis && Worth(basis) == Value(basis[t]) + Worth(basis - {t})
  {
    assert |basis| != 0;
    t :| t in basis && Worth(basis) == Value(basis[t]) + Worth(basis - {t});
  }

  lemma DropsCommute(basis: Basis, s: string, t: string)
    requires s in basis && t in basis && s != t
    ensures basis - {t} - {s} == basis - {s} - {t}
    ensures s in basis - {t} && (basis - {t})[s] == basis[s]
    ensures |basis - {t}| < |basis|
  {
    Smaller(basis, t);
  }

  // The sum may start from any symbol.
  lemma {:induction false} WorthWithout(basis: Basis, s: string)
    requires s in basis
    ensures Worth(basis) == Value(basis[s]) + Worth(basis - {s})
    decreases |basis|
  {
    var t := WorthStart(basis);
    if t != s {
      DropsCommute(basis, s, t);
      DropsCommute(basis, t, s);
      WorthWithout(basis - {t}, s);
      WorthWithout(basis - {s}, t);
    }
  }

  lemma WorthUpdate(basis: Basis, s: string, b: CostBasis)
    ensures Worth(basis[s := b]) == Worth(basis) - Value(HeldIn(basis, s)) + Value(b)
  {
    WorthWithout(basis[s := b], s);
    assert basis[s := b] - {s} == basis - {s};
    WorthAt(basis, s);
  }

  lemma WorthAt(basis: Basis, s: string)
    ensures Worth(basis) == Value(HeldIn(basis, s)) + Worth(basis - {s})
  {
    if s in basis {
      WorthWithout(basis, s);
    } else {
      assert basis - {s} == basis;
    }
  }

  // --- One fill ---

  lemma MixNonNegative(held: CostBasis, fill: Fill)
    requires held.quantity >= 0 && held.average >= 0 && fill.quantity > 0 && fill.price > 0
    ensures Value(held) >= 0 && fill.quantity * fill.price > 0
  {
    MulMonotone(0, held.quantity, held.average);
    MulMonotone(1, fill.quantity, fill.price);
  }

  /** The new average lies between the old one and the price, and is the price when nothing was held. */
  lemma AverageBetween(held: CostBasis, fill: Fill)
    requires held.quantity >= 0 && held.average >= 0 && fill.quantity > 0 && fill.price > 0
    ensures var average := TruncDiv(Value(held) + fill.quantity * fill.price, held.quantity + fill.quantity);
            && (held.average <= fill.price ==> held.average <= average <= fill.price)
            && (fill.price <= held.average ==> fill.price <= average <= held.average)
            && (held.quantity == 0 ==> average == fill.price)
  {
    var n, d := Value(held) + fill.quantity * fill.price, held.quantity + fill.quantity;
    MixNonNegative(held, fill);
    TruncDivRemainder(n, d);
    var low := if held.average <= fill.price then held.average else fill.price;
    var high := if held.average <= fill.price then fill.price else held.average;
    Mixes(held.quantity, fill.quantity, held.average, fill.price, low, high);
    DivBetween(n, d, low, high);
    if held.quantity == 0 {
      assert n == fill.price * d;
      DivBetween(n, d, fill.price, fill.price);
    }
  }

  lemma Mixes(q: int, f: int, a: int, p: int, low: int, high: int)
    requires q >= 0 && f >= 0 && low <= a <= high && low <= p <= high
    ensures low * (q + f) <= q * a + f * p <= high * (q + f)
  {
    MulMonotone(low, a, q);
    MulMonotone(a, high, q);
    MulMonotone(low, p, f);
    MulMonotone(p, high, f);
    assert low * (q + f) == low * q + low * f && high * (q + f) == high * q + high * f;
  }

  // Money received less money paid, in micros squared.
  function CashOf(fill: Fill): int {
    if fill.side == "sell" then fill.quantity * fill.price else -(fill.quantity * fill.price)
  }

  // How far one booked fill may round down.
  function RoomBelow(next: Books, fill: Fill): int {
    if fill.side == "sell" then 999_999 else HeldIn(next.basis, fill.symbol).quantity - 1
  }

  lemma BuyRounds(books: Books, fill: Fill)
    requires Covered(books.basis) && Apply(books, fill).Success? && fill.side == "buy"
    ensures var next := Apply(books, fill).value;
            -RoomBelow(next, fill) <= CashOf(fill) + Worth(next.basis) - Worth(books.basis) <= 0
  {
    var held, next := HeldIn(books.basis, fill.symbol), Apply(books, fill).value;
    var n, d := Value(held) + fill.quantity * fill.price, held.quantity + fill.quantity;
    MixNonNegative(held, fill);
    TruncDivRemainder(n, d);
    WorthUpdate(books.basis, fill.symbol, next.basis[fill.symbol]);
  }

  lemma SaleArithmetic(q: int, average: int, sold: int, price: int)
    ensures var left := sold * price + (q - sold) * average - q * average
                        - 1_000_000 * TruncDiv(sold * (price - average), 1_000_000);
            -999_999 <= left <= 999_999
  {
    TruncDivRemainder(sold * (price - average), 1_000_000);
    assert (q - sold) * average == q * average - sold * average;
    assert sold * (price - average) == sold * price - sold * average;
  }

  // A booked sale takes from the position at its average; the wrapped difference is exact.
  lemma SaleBooked(books: Books, fill: Fill)
    requires Covered(books.basis) && Apply(books, fill).Success? && fill.side == "sell"
    ensures var (held, next) := (HeldIn(books.basis, fill.symbol), Apply(books, fill).value);
            && next.basis == books.basis[fill.symbol := CostBasis(held.quantity - fill.quantity, held.average)]
            && next.realized == books.realized + TruncDiv(fill.quantity * (fill.price - held.average), 1_000_000)
  {
    assert IsI64(fill.price - HeldIn(books.basis, fill.symbol).average);
  }

  function SoldFrom(held: CostBasis, fill: Fill): CostBasis
    requires IsI64(held.quantity - fill.quantity)
  {
    CostBasis(held.quantity - fill.quantity, held.average)
  }

  lemma SaleWorth(books: Books, fill: Fill)
    requires Covered(books.basis) && Apply(books, fill).Success? && fill.side == "sell"
    ensures var held := HeldIn(books.basis, fill.symbol);
            Worth(Apply(books, fill).value.basis) == Worth(books.basis) - Value(held) + Value(SoldFrom(held, fill))
  {
    SaleBooked(books, fill);
    WorthUpdate(books.basis, fill.symbol, SoldFrom(HeldIn(books.basis, fill.symbol), fill));
  }

  lemma SaleCash(books: Books, fill: Fill)
    requires Covered(books.basis) && Apply(books, fill).Success? && fill.side == "sell"
    ensures var held := HeldIn(books.basis, fill.symbol);
            -999_999 <= CashOf(fill) + Value(SoldFrom(held, fill)) - Value(held)
                        - 1_000_000 * (Apply(books, fill).value.realized - books.realized) <= 999_999
  {
    var held := HeldIn(books.basis, fill.symbol);
    SaleBooked(books, fill);
    SaleArithmetic(held.quantity, held.average, fill.quantity, fill.price);
  }

  lemma SellRounds(books: Books, fill: Fill)
    requires Covered(books.basis) && Apply(books, fill).Success? && fill.side == "sell"
    ensures var next := Apply(books, fill).value;
            -999_999 <= CashOf(fill) + Worth(next.basis) - Worth(books.basis)
                        - 1_000_000 * (next.realized - books.realized) <= 999_999
  {
    SaleWorth(books, fill);
    SaleCash(books, fill);
  }

  lemma ApplyCovers(books: Books, fill: Fill)
    requires Covered(books.basis) && Apply(books, fill).Success?
    ensures Covered(Apply(books, fill).value.basis)
  {
    if fill.side == "buy" {
      AverageBetween(HeldIn(books.basis, fill.symbol), fill);
    }
  }

  // --- Whole accounts ---

  function Cash(fills: seq<Fill>): int {
    if fills == [] then 0 else CashOf(fills[0]) + Cash(fills[1..])
  }

  function Sells(fills: seq<Fill>): nat {
    if fills == [] then 0 else (if fills[0].side == "sell" then 1 else 0) + Sells(fills[1..])
  }

  // The quantities held right after each purchase, each less one, summed.
  function PurchaseRoom(books: Books, fills: seq<Fill>): int
    decreases |fills|
  {
    if fills == [] || Apply(books, fills[0]).Failure? then 0
    else
      var next := Apply(books, fills[0]).value;
      (if fills[0].side == "buy" then HeldIn(next.basis, fills[0].symbol).quantity - 1 else 0)
      + PurchaseRoom(next, fills[1..])
  }

  /**
   Cash received, less cash paid, plus the change in book value, is a million times the
   realized profit up to rounding: under a million per sale, and under the quantity held
   after it per purchase, purchases only ever rounding down.
   */
  lemma {:induction false} AccountConserves(books: Books, fills: seq<Fill>)
    requires Covered(books.basis) && Book(books, fills).Success?
    ensures var end := Book(books, fills).value;
            var error := Cash(fills) + Worth(end.basis) - Worth(books.basis)
                         - 1_000_000 * (end.realized - books.realized);
            -(999_999 * Sells(fills) + PurchaseRoom(books, fills)) <= error <= 999_999 * Sells(fills)
    ensures Covered(Book(books, fills).value.basis)
    decreases |fills|
  {
    if fills != [] {
      var next := Apply(books, fills[0]).value;
      ApplyCovers(books, fills[0]);
      if fills[0].side == "buy" {
        BuyRounds(books, fills[0]);
      } else {
        SellRounds(books, fills[0]);
      }
      AccountConserves(next, fills[1..]);
    }
  }

  // The source's promise, on its own terms.
  lemma PnlConserves(opening: Basis, fills: seq<Fill>, profit: Int64)
    requires Covered(opening) && Outcome(opening, fills) == Success(profit)
    ensures var start := Books(opening, 0);
            var end := Book(start, fills).value;
            var error := Cash(fills) + Worth(end.basis) - Worth(opening) - 1_000_000 * profit;
            && Covered(end.basis)
            && -(999_999 * Sells(fills) + PurchaseRoom(start, fills)) <= error <= 999_999 * Sells(fills)
  {
    AccountConserves(Books(opening, 0), fills);
  }

  // --- Which fills are booked ---

  // What a fill adds to the position in its symbol.
  function Moved(fill: Fill): int {
    if fill.side == "buy" then fill.quantity else 0 - fill.quantity
  }

  function Net(fills: seq<Fill>, symbol: string): int {
    if fills == [] then 0
    else
      var last := fills[|fills| - 1];
      Net(fills[..|fills| - 1], symbol) + (if last.symbol == symbol then Moved(last) else 0)
  }

  predicate Known(opening: Basis, fills: seq<Fill>, symbol: string) {
    symbol in opening || exists i :: 0 <= i < |fills| && fills[i].side == "buy" && fills[i].symbol == symbol
  }

  // What is held of a symbol after the fills: opening quantity plus purchases less sales.
  function Held(opening: Basis, fills: seq<Fill>, symbol: string): int {
    HeldIn(opening, symbol).quantity + Net(fills, symbol)
  }

  // The fill can be booked after those before it.
  predicate Admissible(opening: Basis, before: seq<Fill>, fill: Fill) {
    && fill.quantity > 0 && fill.price > 0
    && (fill.side == "buy" || fill.side == "sell")
    && (fill.side == "buy" ==> Held(opening, before, fill.symbol) + fill.quantity <= I64_MAX)
    && (fill.side == "sell" ==>
          Known(opening, before, fill.symbol) && fill.quantity <= Held(opening, before, fill.symbol))
  }

  lemma {:induction false} BookAppends(books: Books, fills: seq<Fill>, last: Fill)
    ensures Book(books, fills + [last]) ==
            var init := Book(books, fills);
            if init.Failure? then init else Apply(init.value, last)
    decreases |fills|
  {
    if fills == [] {
      assert ([last])[1..] == [];
    } else {
      assert (fills + [last])[1..] == fills[1..] + [last];
      var next := Apply(books, fills[0]);
      if next.Success? {
        BookAppends(next.value, fills[1..], last);
      }
    }
  }

  // The booked positions are the opening ones moved by the fills.
  ghost predicate Tracks(opening: Basis, fills: seq<Fill>, basis: Basis) {
    && Covered(basis)
    && forall s :: (s in basis <==> Known(opening, fills, s))
                   && HeldIn(basis, s).quantity == Held(opening, fills, s)
  }

  lemma KnownGrows(opening: Basis, fills: seq<Fill>, last: Fill, s: string)
    ensures Known(opening, fills + [last], s) <==> Known(opening, fills, s) || (last.side == "buy" && last.symbol == s)
  {
    var all := fills + [last];
    assert all[|fills|] == last;
    forall i | 0 <= i < |fills| ensures all[i] == fills[i] {}
  }

  lemma HeldGrows(opening: Basis, fills: seq<Fill>, last: Fill, s: string)
    ensures Held(opening, fills + [last], s) == Held(opening, fills, s) + if last.symbol == s then Moved(last) else 0
  {
    assert (fills + [last])[..|fills|] == fills;
  }

  lemma BooksWhenAdmissible(opening: Basis, fills: seq<Fill>, last: Fill, books: Books)
    requires Tracks(opening, fills, books.basis)
    ensures Apply(books, last).Success? <==> Admissible(opening, fills, last)
  {
    var held := HeldIn(books.basis, last.symbol);
    assert Known(opening, fills, last.symbol) <==> last.symbol in books.basis;
    assert held.quantity == Held(opening, fills, last.symbol);
    if last.quantity > 0 && last.price > 0 {
      AverageBetween(held, last);
    }
  }

  lemma StepTracks(opening: Basis, fills: seq<Fill>, last: Fill, books: Books)
    requires Tracks(opening, fills, books.basis) && Apply(books, last).Success?
    ensures Tracks(opening, fills + [last], Apply(books, last).value.basis)
  {
    var next := Apply(books, last).value.basis;
    ApplyCovers(books, last);
    assert next.Keys == books.basis.Keys + {last.symbol};
    assert last.side == "buy" || last.symbol in books.basis;
    assert HeldIn(next, last.symbol).quantity == HeldIn(books.basis, last.symbol).quantity + Moved(last);
    forall s ensures (s in next <==> Known(opening, fills + [last], s))
                     && HeldIn(next, s).quantity == Held(opening, fills + [last], s) {
      KnownGrows(opening, fills, last, s);
      HeldGrows(opening, fills, last, s);
      assert (s in books.basis <==> Known(opening, fills, s))
             && HeldIn(books.basis, s).quantity == Held(opening, fills, s);
    }
  }

  // Every fill can be booked after those before it.
  predicate AllAdmissible(opening: Basis, fills: seq<Fill>) {
    forall i :: 0 <= i < |fills| ==> Admissible(opening, fills[..i], fills[i])
  }

  lemma AdmissibleAppends(opening: Basis, fills: seq<Fill>, last: Fill)
    ensures AllAdmissible(opening, fills + [last]) <==> AllAdmissible(opening, fills) && Admissible(opening, fills, last)
  {
    var all := fills + [last];
    assert all[..|fills|] == fills && all[|fills|] == last;
    forall i | 0 <= i < |fills| ensures all[..i] == fills[..i] && all[i] == fills[i] {}
  }

  /**
   With covered opening positions the account is booked exactly when every fill is admissible
   after those before it, so no purchase fails on its average, and no position turns negative.
   */
  lemma {:induction false} BooksExactly(opening: Basis, realized: int, fills: seq<Fill>)
    requires Covered(opening)
    ensures Book(Books(opening, realized), fills).Success? <==> AllAdmissible(opening, fills)
    ensures Book(Books(opening, realized), fills).Success? ==>
              Tracks(opening, fills, Book(Books(opening, realized), fills).value.basis)
    decreases |fills|
  {
    var start := Books(opening, realized);
    if fills != [] {
      var init, last := fills[..|fills| - 1], fills[|fills| - 1];
      assert fills == init + [last];
      BooksExactly(opening, realized, init);
      BookAppends(start, init, last);
      AdmissibleAppends(opening, init, last);
      if Book(start, init).Success? {
        var books := Book(start, init).value;
        BooksWhenAdmissible(opening, init, last, books);
        if Apply(books, last).Success? {
          StepTracks(opening, init, last, books);
        }
      }
    }
  }

  /** The run's profit is reported exactly when every fill is admissible and the total fits 64 bits. */
  lemma ReportsExactly(opening: Basis, fills: seq<Fill>)
    requires Covered(opening)
    ensures !AllAdmissible(opening, fills) ==> Outcome(opening, fills).Failure? && !Outcome(opening, fills).error.RealizedOverflow?
    ensures AllAdmissible(opening, fills) ==>
              && Book(Books(opening, 0), fills).Success?
              && (Outcome(opening, fills).Success? <==> IsI64(Book(Books(opening, 0), fills).value.realized))
  {
    BooksExactly(opening, 0, fills);
    NeverOverflowsEarly(Books(opening, 0), fills);
  }

  lemma {:induction false} NeverOverflowsEarly(books: Books, fills: seq<Fill>)
    ensures Book(books, fills).Failure? ==> !Book(books, fills).error.RealizedOverflow?
    decreases |fills|
  {
    if fills != [] && Apply(books, fills[0]).Success? {
      NeverOverflowsEarly(Apply(books, fills[0]).value, fills[1..]);
    }
  }
}
