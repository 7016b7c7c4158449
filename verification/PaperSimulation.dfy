/** `PaperExecutionSimulator` of `app/execution/paper.py`: immediate acceptance and full fill. */
module PaperSimulation {
  import opened Collections
  import opened Contracts
  import opened PaperLedger
  import opened LiveTranslation
  import opened OrderLifecycle
  import opened OneFillOrders

  function PaperFill(i: Intent, price: real, feeBps: real, feeAsset: string, at: int): (f: Fill)
    requires price >= 0.0 && feeBps >= 0.0
  {
    FeeIsNonNegative(i.quantity, price, feeBps);
    FillRecord(i.venue, "paper:" + i.intentId, "fill:" + i.intentId, i.instrumentId, i.side, i.quantity, price,
               i.quantity * price * feeBps / 10000.0, feeAsset, at, UnknownRole)
  }

  lemma FeeIsNonNegative(quantity: real, price: real, feeBps: real)
    requires quantity >= 0.0 && price >= 0.0 && feeBps >= 0.0
    ensures quantity * price * feeBps / 10000.0 >= 0.0
  {
    assert quantity * price >= 0.0;
  }

  function PaperOrder(i: Intent, f: Fill): Option<OrderState> {
    ApplyFill(Acknowledge(NewFromIntent(i), "paper:" + i.intentId, f.occurredAt), f)
  }

  /** One order and one fill per intent, the order filled in full by that fill at the simulated price. */
  ghost predicate Simulated(
    intents: seq<Intent>, price: real, feeBps: real, feeAsset: string, at: int, orders: seq<OrderState>,
    fills: seq<Fill>)
    requires price >= 0.0 && feeBps >= 0.0
  {
    && |orders| == |fills| == |intents|
    && forall k :: 0 <= k < |intents| ==>
         && fills[k] == PaperFill(intents[k], price, feeBps, feeAsset, at)
         && PaperOrder(intents[k], fills[k]) == Some(orders[k])
         && FilledBy(orders[k], fills[k]) && orders[k].averageFillPrice == Some(price)
  }

  method Simulate(intents: seq<Intent>, price: real, feeBps: real, feeAsset: string, at: int)
    returns (orders: seq<OrderState>, fills: seq<Fill>)
    requires price >= 0.0 && feeBps >= 0.0
    ensures Simulated(intents, price, feeBps, feeAsset, at, orders, fills)
  {
    orders, fills := [], [];
    for n := 0 to |intents|
      invariant Simulated(intents[..n], price, feeBps, feeAsset, at, orders, fills)
    {
      var f := PaperFill(intents[n], price, feeBps, feeAsset, at);
      fills := fills + [f];
      var acknowledged := Acknowledge(NewFromIntent(intents[n]), "paper:" + intents[n].intentId, at);
      FullFillAverage(acknowledged, f);
      var filled := ApplyFill(acknowledged, f);
      orders := orders + [filled.value];
    }
    assert intents[..|intents|] == intents;
  }

  /** The simulated fill executes the intent in full at the given price, and charges its fee in basis points. */
  lemma PaperFillExactly(i: Intent, price: real, feeBps: real, feeAsset: string, at: int)
    requires price >= 0.0 && feeBps >= 0.0
    ensures var f := PaperFill(i, price, feeBps, feeAsset, at);
      && f.orderId == "paper:" + i.intentId && f.fillId == "fill:" + i.intentId && f.venue == i.venue
      && f.instrumentId == i.instrumentId && f.side == i.side && f.quantity == i.quantity && f.price == price
      && f.fee * 10000.0 == i.quantity * price * feeBps && f.feeAsset == feeAsset && f.occurredAt == at
  {
    PerTenThousand(i.quantity * price * feeBps);
  }

  lemma PerTenThousand(x: real)
    ensures x / 10000.0 * 10000.0 == x
  {
  }

  lemma FullFillAverage(o: OrderState, f: Fill)
    requires o.filled == 0.0 && o.requested == f.quantity
    ensures AverageFillPrice(o, f) == f.price
  {
    AverageIsPrice(o, f);
    SameQuotient(f.price, f.quantity * f.price, f.quantity);
  }

  // ------------------------------------- simulated output passes the live safeguard

  lemma {:induction false} SoleOrder(orders: seq<OrderState>, k: nat)
    requires k < |orders| && forall j, l :: 0 <= j < l < |orders| ==> orders[j].orderId != orders[l].orderId
    ensures FindOrder(orders, orders[k].orderId) == Some(orders[k])
  {
    if k < |orders| - 1 { SoleOrder(orders[..|orders| - 1], k); }
  }

  lemma SimulatedIsOneToOne(
    intents: seq<Intent>, price: real, feeBps: real, feeAsset: string, at: int, orders: seq<OrderState>,
    fills: seq<Fill>)
    requires price >= 0.0 && feeBps >= 0.0 && Simulated(intents, price, feeBps, feeAsset, at, orders, fills)
    requires forall j, k :: 0 <= j < k < |intents| ==> intents[j].intentId != intents[k].intentId
    ensures OneToOne(orders, fills)
  {
    forall j, k | 0 <= j < k < |fills|
      ensures fills[j].fillId != fills[k].fillId && fills[j].orderId != fills[k].orderId
    {
      var a, b := intents[j].intentId, intents[k].intentId;
      assert ("fill:" + a)[5..] == a && ("fill:" + b)[5..] == b;
      assert ("paper:" + a)[6..] == a && ("paper:" + b)[6..] == b;
    }
    forall k | 0 <= k < |orders|
      ensures FindOrder(orders, orders[k].orderId) == Some(orders[k])
      ensures orders[k].orderId == fills[k].orderId && fills[k] in fills
    {
      SoleOrder(orders, k);
    }
  }

  /**
   * Translating what the simulator produced for intents with distinct ids fails only if the ledger does; otherwise
   * every fill is posted, in intent order, with nothing ignored or pending.
   */
  lemma SimulatedPassApplies(
    p: PortfolioState, intents: seq<Intent>, price: real, feeBps: real, feeAsset: string, at: int,
    orders: seq<OrderState>, fills: seq<Fill>)
    requires price >= 0.0 && feeBps >= 0.0 && Simulated(intents, price, feeBps, feeAsset, at, orders, fills)
    requires forall j, k :: 0 <= j < k < |intents| ==> intents[j].intentId != intents[k].intentId
    ensures var r, a := Translated(p, Pass(orders, fills, [], None, [])), Applied(QUOTE_ASSET, p, fills);
      && (r.Err? <==> a.Err?)
      && (r.Ok? ==>
            && r.value.status.AppliedAll? && r.value.portfolio == a.value
            && r.value.appliedIds == Ids(fills) && r.value.ignoredIds == [] && r.value.pendingIds == [])
  {
    SimulatedIsOneToOne(intents, price, feeBps, feeAsset, at, orders, fills);
    OneToOnePosts(p, orders, fills);
  }
}
