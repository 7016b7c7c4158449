/** At which prices `apply_fills` values the positions, and which averages it leaves, by position in the batch. */
module Valuation {
  import opened Collections
  import opened Contracts
  import opened PaperLedger

  /** Fill `n` is the last one of its instrument in the batch. */
  ghost predicate IsLastFillOf(fills: seq<Fill>, k: string, n: nat) {
    n < |fills| && fills[n].instrumentId == k && forall j :: n < j < |fills| ==> fills[j].instrumentId != k
  }

  ghost predicate Untraded(fills: seq<Fill>, k: string) {
    forall j :: 0 <= j < |fills| ==> fills[j].instrumentId != k
  }

  lemma {:induction false} LastPriceExactly(fills: seq<Fill>, k: string)
    ensures forall n: nat :: IsLastFillOf(fills, k, n) ==> LastPrice(fills, k) == Some(fills[n].price)
    ensures Untraded(fills, k) ==> LastPrice(fills, k) == None
  {
    if fills != [] {
      var front := fills[..|fills| - 1];
      LastPriceExactly(front, k);
      if fills[|fills| - 1].instrumentId != k {
        forall n: nat | IsLastFillOf(fills, k, n) ensures IsLastFillOf(front, k, n) {}
      }
    }
  }

  lemma {:induction false} TradedOrNot(fills: seq<Fill>, k: string)
    ensures Untraded(fills, k) || exists n: nat :: IsLastFillOf(fills, k, n)
  {
    if fills != [] {
      var n := |fills| - 1;
      TradedOrNot(fills[..n], k);
      if fills[n].instrumentId == k {
        assert IsLastFillOf(fills, k, n);
      } else if i: nat :| IsLastFillOf(fills[..n], k, i) {
        assert IsLastFillOf(fills, k, i);
      }
    }
  }

  /** The price of an instrument after a batch: that of its last fill, its average price if it was not traded. */
  ghost predicate MarkedAt(b: Book, fills: seq<Fill>, k: string, price: real) {
    && (forall n: nat :: IsLastFillOf(fills, k, n) ==> price == fills[n].price)
    && (Untraded(fills, k) ==> price == Get(b.average, k))
  }

  /** Every instrument has exactly one such price. */
  lemma MarkedOnce(b: Book, fills: seq<Fill>, k: string, price: real)
    ensures MarkedAt(b, fills, k, price) <==> price == Mark(b, fills, k)
  {
    LastPriceExactly(fills, k);
    TradedOrNot(fills, k);
  }

  function Value(quantity: real, price: real): real { quantity * price }

  function Gain(quantity: real, price: real, average: real): real { (price - average) * quantity }

  function ValueAt(b: Book, prices: string -> real): string -> real {
    k => Value(Get(b.quantity, k), prices(k))
  }

  function SizeAt(b: Book, prices: string -> real): string -> real {
    k => Abs(Value(Get(b.quantity, k), prices(k)))
  }

  function GainAt(b: Book, prices: string -> real): string -> real {
    k => Gain(Get(b.quantity, k), prices(k), Get(b.average, k))
  }

  lemma SameMeasures(b: Book, fills: seq<Fill>, k: string)
    ensures ExposureAt(b, fills, k) == Value(Get(b.quantity, k), Mark(b, fills, k))
    ensures OpenProfitAt(b, fills, k) == Gain(Get(b.quantity, k), Mark(b, fills, k), Get(b.average, k))
  {
  }

  lemma ValuesAtPrices(b: Book, fills: seq<Fill>, prices: string -> real, k: string)
    requires MarkedAt(b, fills, k, prices(k))
    ensures Exposure(b, fills)(k) == ValueAt(b, prices)(k)
    ensures AbsExposure(b, fills)(k) == SizeAt(b, prices)(k)
    ensures OpenProfit(b, fills)(k) == GainAt(b, prices)(k)
  {
    MarkedOnce(b, fills, k, prices(k));
    SameMeasures(b, fills, k);
  }

  /**
   * An update values every position at the price of the last fill of its instrument in the batch, or at its average
   * price if the batch does not trade it, and is dated by the last fill.
   */
  lemma UpdateIsValuedAt(quote: string, p: PortfolioState, fills: seq<Fill>, prices: string -> real)
    requires Applied(quote, p, fills).Ok?
    requires var b := Applied(quote, p, fills).value.book;
      forall k :: k in b.quantity ==> MarkedAt(b, fills, k, prices(k))
    ensures var q := Applied(quote, p, fills).value;
      && q.netExposure == SumOver(ValueAt(q.book, prices), q.book.quantity.Keys)
      && q.grossExposure == SumOver(SizeAt(q.book, prices), q.book.quantity.Keys)
      && q.unrealized == SumOver(GainAt(q.book, prices), q.book.quantity.Keys)
      && q.asOf == if fills == [] then p.asOf else fills[|fills| - 1].occurredAt
  {
    var b := Applied(quote, p, fills).value.book;
    forall k | k in b.quantity
      ensures Exposure(b, fills)(k) == ValueAt(b, prices)(k)
      ensures AbsExposure(b, fills)(k) == SizeAt(b, prices)(k)
      ensures OpenProfit(b, fills)(k) == GainAt(b, prices)(k)
    {
      ValuesAtPrices(b, fills, prices, k);
    }
    SumOverSame(Exposure(b, fills), ValueAt(b, prices), b.quantity.Keys);
    SumOverSame(AbsExposure(b, fills), SizeAt(b, prices), b.quantity.Keys);
    SumOverSame(OpenProfit(b, fills), GainAt(b, prices), b.quantity.Keys);
  }

  // ------------------------------------------------------------ average prices

  /** What is left of an average price after a fill of its instrument. */
  ghost predicate AverageAfter(held: real, average: real, f: Fill, left: real, after: real) {
    if f.side.Sell? then left == held - f.quantity && after == if left == 0.0 then 0.0 else average
    else left == held + f.quantity && after * left == held * average + f.quantity * f.price
  }

  lemma {:induction false} AverageUntouched(quote: string, b: Book, fills: seq<Fill>, n: nat, k: string)
    requires n <= |fills| && PostAll(quote, b, fills).Some?
    requires forall j :: n <= j < |fills| ==> fills[j].instrumentId != k
    ensures PostAll(quote, b, fills[..n]).Some?
    ensures var before, after := PostAll(quote, b, fills[..n]).value, PostAll(quote, b, fills).value;
      Get(after.average, k) == Get(before.average, k) && Get(after.quantity, k) == Get(before.quantity, k)
    decreases |fills|
  {
    if n < |fills| {
      var front := fills[..|fills| - 1];
      AverageUntouched(quote, b, front, n, k);
      assert front[..n] == fills[..n];
    } else {
      assert fills[..n] == fills;
    }
  }

  /**
   * The last fill of an instrument decides its average price: a purchase averages the cost so far with its own, a sale
   * keeps the average until nothing is held any more. An instrument without a fill keeps average and quantity.
   */
  lemma AverageIsDecidedByLastFill(quote: string, b: Book, fills: seq<Fill>, k: string)
    requires PostAll(quote, b, fills).Some?
    ensures var after := PostAll(quote, b, fills).value;
      && (Untraded(fills, k) ==>
            Get(after.average, k) == Get(b.average, k) && Get(after.quantity, k) == Get(b.quantity, k))
      && forall n: nat :: IsLastFillOf(fills, k, n) ==>
           && PostAll(quote, b, fills[..n]).Some?
           && var c := PostAll(quote, b, fills[..n]).value;
              AverageAfter(Get(c.quantity, k), Get(c.average, k), fills[n], Get(after.quantity, k),
                Get(after.average, k))
  {
    if Untraded(fills, k) {
      AverageUntouched(quote, b, fills, 0, k);
      assert fills[..0] == [];
    }
    forall n: nat | IsLastFillOf(fills, k, n)
      ensures PostAll(quote, b, fills[..n]).Some?
      ensures var c, after := PostAll(quote, b, fills[..n]).value, PostAll(quote, b, fills).value;
        AverageAfter(Get(c.quantity, k), Get(c.average, k), fills[n], Get(after.quantity, k), Get(after.average, k))
    {
      AverageUntouched(quote, b, fills, n + 1, k);
      assert fills[..n + 1][..n] == fills[..n];
      AverageOfPost(quote, PostAll(quote, b, fills[..n]).value, fills[n]);
    }
  }

  lemma AverageOfPost(quote: string, b: Book, f: Fill)
    requires Post(quote, b, f).Some?
    ensures var c, k := Post(quote, b, f).value, f.instrumentId;
      AverageAfter(Get(b.quantity, k), Get(b.average, k), f, Get(c.quantity, k), Get(c.average, k))
  {
    var k := f.instrumentId;
    if f.side.Buy? {
      NewAverageKeepsCost(Get(b.quantity, k), Get(b.average, k), f.quantity, f.price);
      var after := NewAverage(Get(b.quantity, k), Get(b.average, k), f.quantity, f.price);
      Commutes(Get(b.quantity, k) + f.quantity, after);
    }
  }

  lemma Commutes(x: real, y: real)
    ensures x * y == y * x
  {
  }
}
