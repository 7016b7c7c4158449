/** `OrderLifecycleMachine` of `app/execution/order_lifecycle.py`. */
module OrderLifecycle {
  import opened Collections
  import opened Contracts
  import opened PaperLedger
  import opened LiveTranslation

  datatype IntentRecord = IntentRecord(
    intentId: string, venue: string, instrumentId: string, side: OrderSide, orderType: OrderType,
    quantity: real, submittedAt: int, limitPrice: Option<real>)
  {
    predicate Valid() {
      && quantity > 0.0
      && (orderType.Limit? ==> limitPrice.Some?)
      && (limitPrice.Some? ==> limitPrice.value >= 0.0)
    }
  }

  /** An execution intent that its constructor accepted. */
  type Intent = i: IntentRecord | i.Valid()
    witness IntentRecord("", "", "", Buy, Market, 1.0, 0, None)

  function NewFromIntent(i: Intent): OrderState {
    OrderRecord(i.venue, "pending:" + i.intentId, i.intentId, i.instrumentId, i.side, i.orderType, New,
                i.quantity, 0.0, i.quantity, i.submittedAt, i.limitPrice, None, None)
  }

  function Acknowledge(o: OrderState, orderId: string, at: int): OrderState {
    o.(orderId := if orderId != "" then orderId else o.orderId, status := Acknowledged, lastUpdate := at)
  }

  function MarkRecovering(o: OrderState, at: int, r: ReconciliationState): OrderState {
    o.(status := Recovering, lastUpdate := at, reconciliation := Some(r))
  }

  function MarkUnreconciled(o: OrderState, at: int): OrderState {
    o.(status := Unreconciled, lastUpdate := at, reconciliation := Some(UnreconciledManualAttention))
  }

  function ResolveRecovery(o: OrderState, resolved: OrderStatus, at: int): OrderState {
    o.(status := resolved, lastUpdate := at, reconciliation := Some(RecoveredTerminalState))
  }

  /** `_average_fill_price` */
  function AverageFillPrice(o: OrderState, f: Fill): real {
    var prior := if o.averageFillPrice.Some? then o.averageFillPrice.value else 0.0;
    (o.filled * prior + f.quantity * f.price) / (o.filled + f.quantity)
  }

  /** `None` when the cumulative quantity exceeds the request, which the order constructor refuses. */
  function ApplyFill(o: OrderState, f: Fill): Option<OrderState> {
    var cumulative := o.filled + f.quantity;
    var remaining := o.requested - cumulative;
    if remaining < 0.0 then None
    else
      AverageIsPrice(o, f);
      Some(o.(status := if remaining == 0.0 then Filled else PartiallyFilled,
              filled := cumulative, remaining := remaining, lastUpdate := f.occurredAt,
              averageFillPrice := Some(AverageFillPrice(o, f))))
  }

  lemma AverageIsPrice(o: OrderState, f: Fill)
    ensures AverageFillPrice(o, f) >= 0.0
    ensures AverageFillPrice(o, f) * (o.filled + f.quantity)
         == o.filled * (if o.averageFillPrice.Some? then o.averageFillPrice.value else 0.0) + Notional(f)
  {
    var prior := if o.averageFillPrice.Some? then o.averageFillPrice.value else 0.0;
    ProductNonNegative(o.filled, prior);
    ProductNonNegative(f.quantity, f.price);
    QuotientOfPositive(o.filled * prior + f.quantity * f.price, o.filled + f.quantity);
  }

  lemma ProductNonNegative(x: real, y: real)
    requires x >= 0.0 && y >= 0.0
    ensures x * y >= 0.0
  {
  }

  lemma QuotientOfPositive(n: real, d: real)
    requires d > 0.0
    ensures n / d * d == n
    ensures n >= 0.0 ==> n / d >= 0.0
  {
  }

  function ApplyFills(o: OrderState, fills: seq<Fill>): Option<OrderState> {
    if fills == [] then Some(o)
    else
      match ApplyFills(o, fills[..|fills| - 1])
      case None => None
      case Some(before) => ApplyFill(before, fills[|fills| - 1])
  }

  /** What the filled part of an order has cost so far. */
  function Spent(o: OrderState): real {
    o.filled * (if o.averageFillPrice.Some? then o.averageFillPrice.value else 0.0)
  }

  lemma FillNext(o: OrderState, f: Fill)
    ensures ApplyFill(o, f).Some? <==> o.filled + f.quantity <= o.requested
    ensures ApplyFill(o, f).Some? ==>
      var next := ApplyFill(o, f).value;
      && next.requested == o.requested && next.filled == o.filled + f.quantity
      && next.averageFillPrice.Some? && Spent(next) == Spent(o) + Notional(f)
      && next.status == if next.remaining == 0.0 then Filled else PartiallyFilled
  {
    AverageIsPrice(o, f);
  }

  /**
   * Filling an order step by step is possible exactly up to the request, and then its quantity, notional and status
   * are those of the whole batch.
   */
  lemma {:induction false} StepwiseFilling(i: Intent, fills: seq<Fill>)
    ensures ApplyFills(NewFromIntent(i), fills).Some? <==> TotalQuantity(fills) <= i.quantity
    ensures ApplyFills(NewFromIntent(i), fills).Some? ==>
      var o := ApplyFills(NewFromIntent(i), fills).value;
      && o.requested == i.quantity && o.filled == TotalQuantity(fills) && o.remaining == i.quantity - o.filled
      && Spent(o) == TotalNotional(fills)
      && (fills != [] ==>
            && o.averageFillPrice.Some?
            && o.status == if o.remaining == 0.0 then Filled else PartiallyFilled)
  {
    if fills != [] {
      var front, f := fills[..|fills| - 1], fills[|fills| - 1];
      StepwiseFilling(i, front);
      assert TotalQuantity(fills) == TotalQuantity(front) + f.quantity;
      assert TotalNotional(fills) == TotalNotional(front) + Notional(f);
      if ApplyFills(NewFromIntent(i), front).Some? { FillNext(ApplyFills(NewFromIntent(i), front).value, f); }
    }
  }

  /** The stepwise average is the average the live translator reports for the same batch. */
  lemma StepwiseAverageIsBatchAverage(i: Intent, fills: seq<Fill>)
    requires fills != [] && TotalQuantity(fills) <= i.quantity
    ensures ApplyFills(NewFromIntent(i), fills).Some?
    ensures ApplyFills(NewFromIntent(i), fills).value.averageFillPrice
      == Some(Aggregate(i.intentId, fills).averagePrice)
  {
    StepwiseFilling(i, fills);
    PositiveTotal(fills);
    SameQuotient(ApplyFills(NewFromIntent(i), fills).value.averageFillPrice.value, TotalNotional(fills),
      TotalQuantity(fills));
  }

  lemma SameQuotient(a: real, n: real, d: real)
    requires d > 0.0 && a * d == n
    ensures a == n / d
  {
  }

  /** The batch average lies between the lowest and the highest price of the batch. */
  lemma AverageWithinPrices(orderId: string, fills: seq<Fill>, low: real, high: real)
    requires fills != [] && forall f :: f in fills ==> low <= f.price <= high
    ensures low <= Aggregate(orderId, fills).averagePrice <= high
  {
    PositiveTotal(fills);
    NotionalBounds(fills, low, high);
    QuotientBounds(TotalNotional(fills), TotalQuantity(fills), low, high);
  }

  lemma QuotientBounds(n: real, d: real, low: real, high: real)
    requires d > 0.0 && low * d <= n <= high * d
    ensures low <= n / d <= high
  {
    QuotientOfPositive(n, d);
  }

  lemma {:induction false} NotionalBounds(fills: seq<Fill>, low: real, high: real)
    requires forall f :: f in fills ==> low <= f.price <= high
    ensures low * TotalQuantity(fills) <= TotalNotional(fills) <= high * TotalQuantity(fills)
  {
    if fills != [] {
      var front, f := fills[..|fills| - 1], fills[|fills| - 1];
      assert forall g :: g in front ==> g in fills;
      NotionalBounds(front, low, high);
      assert TotalQuantity(fills) == TotalQuantity(front) + f.quantity;
      assert TotalNotional(fills) == TotalNotional(front) + Notional(f);
      assert f in fills;
      NextBounds(TotalQuantity(front), TotalNotional(front), f, low, high);
    }
  }

  lemma NextBounds(quantity: real, notional: real, f: Fill, low: real, high: real)
    requires low * quantity <= notional <= high * quantity && low <= f.price <= high
    ensures low * (quantity + f.quantity) <= notional + Notional(f) <= high * (quantity + f.quantity)
  {
    PriceBounds(f.quantity, f.price, low, high);
    AddBounds(low, high, quantity, f.quantity, notional, Notional(f));
  }

  lemma PriceBounds(quantity: real, price: real, low: real, high: real)
    requires quantity > 0.0 && low <= price <= high
    ensures low * quantity <= quantity * price <= high * quantity
  {
  }

  lemma AddBounds(low: real, high: real, x: real, y: real, m: real, n: real)
    requires low * x <= m <= high * x && low * y <= n <= high * y
    ensures low * (x + y) <= m + n <= high * (x + y)
  {
  }

  /** Bought from a flat position, the ledger's average entry price is the same batch average. */
  lemma {:induction false} LedgerAverageIsBatchAverage(quote: string, b: Book, instrument: string, fills: seq<Fill>)
    requires fills != [] && Get(b.quantity, instrument) == 0.0
    requires forall f :: f in fills ==> f.side.Buy? && f.instrumentId == instrument
    ensures PostAll(quote, b, fills).Some?
    ensures var c := PostAll(quote, b, fills).value;
      && Get(c.quantity, instrument) == TotalQuantity(fills)
      && Get(c.average, instrument) == TotalNotional(fills) / TotalQuantity(fills)
  {
    var front, f := fills[..|fills| - 1], fills[|fills| - 1];
    assert f in fills && forall g :: g in front ==> g in fills;
    assert TotalQuantity(fills) == TotalQuantity(front) + f.quantity;
    assert TotalNotional(fills) == TotalNotional(front) + Notional(f);
    if front == [] {
      assert PostAll(quote, b, fills) == Post(quote, b, f);
      QuotientOfPositive(f.quantity * f.price, f.quantity);
      SameQuotient(f.price, f.quantity * f.price, f.quantity);
    } else {
      LedgerAverageIsBatchAverage(quote, b, instrument, front);
      PositiveTotal(front);
      var c := PostAll(quote, b, front).value;
      assert PostAll(quote, b, fills) == Post(quote, c, f);
      NextAverage(TotalQuantity(front), TotalNotional(front), f);
    }
  }

  lemma NextAverage(held: real, cost: real, f: Fill)
    requires held > 0.0
    ensures NewAverage(held, cost / held, f.quantity, f.price) == (cost + Notional(f)) / (held + f.quantity)
  {
    QuotientOfPositive(cost, held);
  }
}
