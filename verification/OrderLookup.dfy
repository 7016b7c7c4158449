/** The recovered order and fill that `app/exchanges/binance/order_client.py` builds from a status answer. */
module OrderLookup {
  import opened Collections
  import opened Contracts
  import opened LiveTranslation
  import opened OrderLifecycle
  import opened OneFillOrders

  /** The typed fields of an order-status answer; `exchangeId` is its `orderId`. */
  datatype StatusAnswer = StatusAnswer(
    exchangeId: string, clientOrderId: string, instrumentId: string, side: OrderSide, orderType: OrderType,
    status: OrderStatus, original: real, executed: real, quoteQuantity: Option<real>, price: Option<real>, at: int)

  /** `_build_recovered_order_state`; `None` when the order constructor refuses the quantities. */
  function RecoveredOrder(a: StatusAnswer): Option<OrderState> {
    var average := if a.executed > 0.0 && a.quoteQuantity.Some? then Some(a.quoteQuantity.value / a.executed) else None;
    var limit := if a.price == Some(0.0) then None else a.price;
    var o := OrderRecord(
      "binance", if a.exchangeId != "" then a.exchangeId else a.clientOrderId,
      if a.clientOrderId != "" then a.clientOrderId else a.exchangeId, a.instrumentId, a.side, a.orderType, a.status,
      a.original, a.executed, a.original - a.executed, a.at, limit, average, None);
    if o.Valid() then Some(o) else None
  }

  /** `instrument_id.split("-")[-1]` */
  function FeeAsset(instrumentId: string): string
    decreases |instrumentId|
  {
    if '-' in instrumentId then FeeAsset(AfterDash(instrumentId)) else instrumentId
  }

  function AfterDash(s: string): (r: string)
    requires '-' in s
    ensures |r| < |s|
  {
    if s[0] == '-' then s[1..] else AfterDash(s[1..])
  }

  /** `_build_recovered_fill_events`: one fill for the whole executed quantity of a FILLED order. */
  function RecoveredFills(a: StatusAnswer, o: OrderState): seq<Fill> {
    if !o.status.Filled? || o.filled <= 0.0 || o.averageFillPrice.None? || o.averageFillPrice.value <= 0.0 then []
    else
      [FillRecord("binance", o.orderId, o.orderId + RECOVERED_MARK + a.exchangeId, o.instrumentId, o.side, o.filled,
                  o.averageFillPrice.value, 0.0, FeeAsset(o.instrumentId), a.at, UnknownRole)]
  }

  /** The recovered fill has the answer's executed quantity and costs exactly its cumulative quote quantity. */
  lemma RecoveredFillKeepsValue(a: StatusAnswer)
    requires RecoveredOrder(a).Some? && RecoveredFills(a, RecoveredOrder(a).value) != []
    ensures var f := RecoveredFills(a, RecoveredOrder(a).value)[0];
      f.quantity == a.executed && Some(Notional(f)) == a.quoteQuantity
  {
    var price := a.quoteQuantity.value / a.executed;
    QuotientOfPositive(a.quoteQuantity.value, a.executed);
    ProductCommutes(a.executed, price);
    var f := RecoveredFills(a, RecoveredOrder(a).value)[0];
    assert f.price == price;
    assert Notional(f) == a.executed * price == a.quoteQuantity.value;
  }

  lemma ProductCommutes(x: real, y: real)
    ensures x * y == y * x
  {
  }

  /** The recovered fill names its order, and alone it settles the recovered order completely. */
  lemma RecoveredFillSettles(a: StatusAnswer, recoveredBefore: bool)
    requires RecoveredOrder(a).Some? && RecoveredFills(a, RecoveredOrder(a).value) != []
    requires ':' !in RecoveredOrder(a).value.orderId
    ensures var o, f := RecoveredOrder(a).value, RecoveredFills(a, RecoveredOrder(a).value)[0];
      && RecoveredOrderId(f.fillId) == Some(o.orderId)
      && Judge(o.orderId, Some(o), [f], recoveredBefore).applied == [f]
      && !Judge(o.orderId, Some(o), [f], recoveredBefore).pending
  {
    var o, f := RecoveredOrder(a).value, RecoveredFills(a, RecoveredOrder(a).value)[0];
    RecoveredIdNamesItsOrder(o.orderId, a.exchangeId);
    SingleFill(f);
    assert IsRecovered(f);
    SingleFillSettles(o, f);
  }

  /**
   * The order constructor accepts an answer exactly if nothing in it is negative: no quantity, price or executed value,
   * and no more executed than ordered. The order is then known by the exchange id, or by the client id without one.
   */
  lemma RecoveredOrderExactly(a: StatusAnswer)
    ensures RecoveredOrder(a).Some? <==>
      && 0.0 <= a.executed <= a.original && (a.price.Some? ==> a.price.value >= 0.0)
      && (a.executed > 0.0 && a.quoteQuantity.Some? ==> a.quoteQuantity.value >= 0.0)
    ensures RecoveredOrder(a).Some? ==>
      var o := RecoveredOrder(a).value;
      && o.orderId == (if a.exchangeId != "" then a.exchangeId else a.clientOrderId)
      && o.clientOrderId == (if a.clientOrderId != "" then a.clientOrderId else a.exchangeId)
      && o.instrumentId == a.instrumentId && o.side == a.side && o.orderType == a.orderType && o.status == a.status
      && o.requested == a.original && o.filled == a.executed && o.lastUpdate == a.at
      && (o.limitPrice.Some? <==> a.price.Some? && a.price.value > 0.0)
      && (o.limitPrice.Some? ==> o.limitPrice == a.price) && o.reconciliation.None?
  {
    if a.executed > 0.0 && a.quoteQuantity.Some? {
      QuotientOfPositive(a.quoteQuantity.value, a.executed);
      NegativeQuotient(a.quoteQuantity.value, a.executed);
    }
  }

  lemma NegativeQuotient(n: real, d: real)
    requires d > 0.0
    ensures n < 0.0 ==> n / d < 0.0
    ensures n > 0.0 ==> n / d > 0.0
  {
    QuotientOfPositive(n, d);
  }

  /** A fill is recovered exactly from a FILLED order that was executed for a positive quote value, and dated by it. */
  lemma RecoveredFillExactly(a: StatusAnswer)
    requires RecoveredOrder(a).Some?
    ensures var fills := RecoveredFills(a, RecoveredOrder(a).value);
      && |fills| <= 1
      && (fills != [] <==>
            a.status.Filled? && a.executed > 0.0 && a.quoteQuantity.Some? && a.quoteQuantity.value > 0.0)
      && (fills != [] ==>
            var f, o := fills[0], RecoveredOrder(a).value;
            && f.orderId == o.orderId && f.fillId == o.orderId + ":recovered:" + a.exchangeId
            && f.instrumentId == o.instrumentId && f.side == o.side && f.occurredAt == a.at && f.fee == 0.0)
  {
    if a.executed > 0.0 && a.quoteQuantity.Some? { NegativeQuotient(a.quoteQuantity.value, a.executed); }
  }

  /** The fee is charged in the asset behind the last dash. */
  lemma {:induction false} FeeInQuoteAsset(base: string, quote: string)
    requires '-' !in quote
    ensures FeeAsset(base + "-" + quote) == quote
    decreases |base|
  {
    var whole := base + "-" + quote;
    assert whole[|base|] == '-';
    if '-' in base {
      AfterDashOfJoin(base, "-" + quote);
      assert base + ("-" + quote) == whole && AfterDash(base) + ("-" + quote) == AfterDash(base) + "-" + quote;
      FeeInQuoteAsset(AfterDash(base), quote);
    } else {
      AfterDashOfPlain(base, quote);
    }
  }

  lemma {:induction false} AfterDashOfJoin(a: string, b: string)
    requires '-' in a
    ensures AfterDash(a + b) == AfterDash(a) + b
  {
    assert (a + b)[1..] == a[1..] + b;
    if a[0] != '-' { AfterDashOfJoin(a[1..], b); }
  }

  lemma {:induction false} AfterDashOfPlain(a: string, b: string)
    requires '-' !in a
    ensures '-' in a + "-" + b && AfterDash(a + "-" + b) == b
  {
    assert (a + "-" + b)[|a|] == '-';
    if a == [] {
      assert a + "-" + b == "-" + b;
    } else {
      assert (a + "-" + b)[1..] == a[1..] + "-" + b;
      AfterDashOfPlain(a[1..], b);
    }
  }
}
