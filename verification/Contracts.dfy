/** The canonical records of `app/contracts/models.py` that the live path exchanges. */
module Contracts {
  import opened Collections

  datatype OrderSide = Buy | Sell

  datatype OrderType = Market | Limit

  datatype OrderStatus =
    | New | Acknowledged | PartiallyFilled | Filled | Canceled | Rejected | Expired | Recovering | Unreconciled

  datatype ReconciliationState =
    | SubmitSent | UnknownExecution | StatusQueryPending | RecoveredTerminalState | UnreconciledManualAttention

  datatype LiquidityRole = Maker | Taker | UnknownRole

  datatype OrderRecord = OrderRecord(
    venue: string, orderId: string, clientOrderId: string, instrumentId: string,
    side: OrderSide, orderType: OrderType, status: OrderStatus,
    requested: real, filled: real, remaining: real, lastUpdate: int,
    limitPrice: Option<real>, averageFillPrice: Option<real>, reconciliation: Option<ReconciliationState>)
  {
    predicate Valid() {
      && requested >= 0.0 && filled >= 0.0 && remaining >= 0.0
      && filled + remaining == requested
      && (limitPrice.Some? ==> limitPrice.value >= 0.0)
      && (averageFillPrice.Some? ==> averageFillPrice.value >= 0.0)
    }
  }

  /** An order that its constructor accepted. */
  type OrderState = o: OrderRecord | o.Valid()
    witness OrderRecord("", "", "", "", Buy, Market, New, 0.0, 0.0, 0.0, 0, None, None, None)

  datatype FillRecord = FillRecord(
    venue: string, orderId: string, fillId: string, instrumentId: string, side: OrderSide,
    quantity: real, price: real, fee: real, feeAsset: string, occurredAt: int, liquidityRole: LiquidityRole)
  {
    predicate Valid() {
      quantity > 0.0 && price >= 0.0 && fee >= 0.0
    }
  }

  /** A fill that its constructor accepted. */
  type Fill = f: FillRecord | f.Valid()
    witness FillRecord("", "", "", "", Buy, 1.0, 0.0, 0.0, "", 0, UnknownRole)

  /** The part of a portfolio that fills post to; exposures are derived from it. */
  datatype Book = Book(
    cash: map<string, real>, quantity: map<string, real>, average: map<string, real>, realized: real)
  {
    predicate Valid() {
      && (forall a :: a in cash ==> cash[a] >= 0.0)
      && (forall i :: i in average ==> average[i] >= 0.0)
    }
  }

  datatype PortfolioState = PortfolioState(
    asOf: int, book: Book, unrealized: real, grossExposure: real, netExposure: real)
  {
    predicate Valid() {
      grossExposure >= 0.0 && book.Valid()
    }
  }

  /** `mapping.get(key, Decimal("0"))` */
  function Get(m: map<string, real>, k: string): real {
    if k in m then m[k] else 0.0
  }

  /** The exceptions a portfolio update can raise. */
  datatype LedgerError = DivisionByZero | NegativeBalance

  predicate InRecovery(o: OrderState) {
    o.status.Recovering? || o.status.Unreconciled?
  }

  predicate TerminalStatus(s: OrderStatus) {
    s.Filled? || s.Canceled? || s.Rejected? || s.Expired?
  }

  function Quantity(f: Fill): real { f.quantity }

  function Notional(f: Fill): real { f.quantity * f.price }

  function TotalQuantity(fills: seq<Fill>): real { Sum(Quantity, fills) }

  function TotalNotional(fills: seq<Fill>): real { Sum(Notional, fills) }

  function Ids(fills: seq<Fill>): (r: seq<string>)
    ensures |r| == |fills| && forall i :: 0 <= i < |r| ==> r[i] == fills[i].fillId
  {
    seq(|fills|, i requires 0 <= i < |fills| => fills[i].fillId)
  }
}
