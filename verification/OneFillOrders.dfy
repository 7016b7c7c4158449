/** Passes in which every order is FILLED by exactly one fill. */
module OneFillOrders {
  import opened Collections
  import opened Contracts
  import opened PaperLedger
  import opened LiveTranslation
  import opened TranslationSafety

  /** The order reports exactly this fill and nothing else. */
  ghost predicate FilledBy(o: OrderState, f: Fill) {
    o.orderId == f.orderId && o.status.Filled? && o.filled == o.requested == f.quantity
  }

  /** The verdict applies this one fill and leaves nothing open. */
  ghost predicate AppliesFill(v: Verdict, f: Fill) {
    !v.ambiguous && !v.pending && v.applied == [f] && v.ignored == []
  }

  lemma SingleFill(f: Fill)
    ensures TotalQuantity([f]) == f.quantity && SortFills([f]) == [f]
    ensures Select([f], IsRecovered(f)) == [f] && Select([f], !IsRecovered(f)) == []
  {
    assert [f][..0] == [];
    assert Sum(Quantity, []) == 0.0;
    assert TotalQuantity([f]) == Sum(Quantity, [f][..0]) + Quantity(f);
  }

  /** A FILLED order that reports exactly one fill applies it and leaves nothing pending. */
  lemma SingleFillSettles(o: OrderState, f: Fill)
    requires o.status.Filled? && o.filled == f.quantity
    ensures AppliesFill(Settle(o, f.orderId, [f], []), f)
  {
    SingleFill(f);
  }

  /** Every order is FILLED by exactly one of the fills, every fill fills one of the orders, and no id is repeated. */
  ghost predicate OneToOne(orders: seq<OrderState>, fills: seq<Fill>) {
    && (forall j, k :: 0 <= j < k < |fills| ==> fills[j].fillId != fills[k].fillId)
    && (forall j, k :: 0 <= j < k < |fills| ==> fills[j].orderId != fills[k].orderId)
    && (forall k :: 0 <= k < |fills| ==>
          FindOrder(orders, fills[k].orderId).Some? && FilledBy(FindOrder(orders, fills[k].orderId).value, fills[k]))
    && (forall k :: 0 <= k < |orders| ==>
          orders[k].status.Filled? && exists f :: f in fills && f.orderId == orders[k].orderId)
  }

  lemma {:induction false} AllNew(fills: seq<Fill>, already: seq<string>)
    requires forall j, k :: 0 <= j < k < |fills| ==> fills[j].fillId != fills[k].fillId
    requires forall f :: f in fills ==> f.fillId !in already
    ensures Fresh(fills, already) == fills && !Conflicting(fills, already) && Redelivered(fills, already) == []
  {
    if fills != [] {
      var front, f := fills[..|fills| - 1], fills[|fills| - 1];
      assert fills == front + [f];
      AllNew(front, already);
    }
  }

  lemma {:induction false} SoleFill(fills: seq<Fill>, k: nat)
    requires k < |fills| && forall j, l :: 0 <= j < l < |fills| ==> fills[j].orderId != fills[l].orderId
    ensures OfOrder(fills, fills[k].orderId) == [fills[k]]
  {
    var front := fills[..|fills| - 1];
    if k < |front| {
      SoleFill(front, k);
    } else {
      GroupMembers(front, fills[k].orderId);
      GroupsAreInhabited(front, fills[k].orderId);
      assert forall f :: f in front ==> f.orderId != fills[k].orderId;
    }
  }

  /** With one fill per order the groups are the orders of the fills, in their order. */
  lemma {:induction false} OneGroupEach(fills: seq<Fill>)
    requires forall j, k :: 0 <= j < k < |fills| ==> fills[j].orderId != fills[k].orderId
    ensures |GroupIds(fills)| == |fills| && forall k :: 0 <= k < |fills| ==> GroupIds(fills)[k] == fills[k].orderId
  {
    if fills != [] { OneGroupEach(fills[..|fills| - 1]); }
  }

  lemma JudgedBySettling(o: OrderState, id: string, fills: seq<Fill>, recoveredBefore: bool)
    requires fills != [] && !InRecovery(o)
    requires !Superseded(o, fills, recoveredBefore) && !PreferPrivate(o, fills)
    ensures Judge(id, Some(o), fills, recoveredBefore) == Settle(o, id, fills, [])
  {
  }

  lemma SingleFillIsEffective(o: OrderState, f: Fill)
    ensures !Superseded(o, [f], false) && !PreferPrivate(o, [f])
  {
    SingleFill(f);
  }

  lemma SingleFillVerdict(o: OrderState, f: Fill)
    requires FilledBy(o, f)
    ensures AppliesFill(Judge(f.orderId, Some(o), [f], false), f)
  {
    SingleFillIsEffective(o, f);
    JudgedBySettling(o, f.orderId, [f], false);
    SingleFillSettles(o, f);
  }

  ghost predicate AppliesOnly(orders: seq<OrderState>, fills: seq<Fill>, id: string, f: Fill) {
    OfOrder(fills, id) != [] && AppliesFill(VerdictOn(orders, fills, [], id), f)
  }

  lemma OneToOneVerdict(orders: seq<OrderState>, fills: seq<Fill>, k: nat)
    requires OneToOne(orders, fills) && k < |fills|
    ensures AppliesOnly(orders, fills, fills[k].orderId, fills[k])
  {
    SoleFill(fills, k);
    SingleFillVerdict(FindOrder(orders, fills[k].orderId).value, fills[k]);
  }

  /** The tally applies these fills and leaves nothing open. */
  ghost predicate TallyApplies(t: Tally, fills: seq<Fill>) {
    !t.ambiguous && t.applied == fills && t.ignored == [] && t.pending == []
  }

  /** The tally of these verdicts on these orders. */
  function AddAll(ids: seq<string>, verdicts: seq<Verdict>, start: Tally): Tally
    requires |ids| == |verdicts|
  {
    if ids == [] then start
    else
      var n := |ids| - 1;
      AddVerdict(AddAll(ids[..n], verdicts[..n], start), ids[n], verdicts[n])
  }

  lemma {:induction false} TallyOfVerdicts(
    orders: seq<OrderState>, seen: seq<Fill>, ids: seq<string>, verdicts: seq<Verdict>, start: Tally)
    requires |ids| == |verdicts|
    requires forall id :: id in ids ==> OfOrder(seen, id) != []
    requires forall k :: 0 <= k < |ids| ==> verdicts[k] == VerdictOn(orders, seen, [], ids[k])
    ensures TallyUp(orders, seen, [], ids, start) == AddAll(ids, verdicts, start)
  {
    if ids != [] {
      var n := |ids| - 1;
      forall id | id in ids[..n] ensures OfOrder(seen, id) != [] { assert id in ids; }
      TallyOfVerdicts(orders, seen, ids[..n], verdicts[..n], start);
      TallyUpLast(orders, seen, ids, start);
    }
  }

  lemma TallyUpLast(orders: seq<OrderState>, seen: seq<Fill>, ids: seq<string>, start: Tally)
    requires ids != [] && forall id :: id in ids ==> OfOrder(seen, id) != []
    ensures var n := |ids| - 1;
      TallyUp(orders, seen, [], ids, start)
        == AddVerdict(TallyUp(orders, seen, [], ids[..n], start), ids[n], VerdictOn(orders, seen, [], ids[n]))
  {
  }

  /** Verdicts that each apply one fill apply these fills in their order and leave nothing open. */
  lemma {:induction false} AddAllApplies(ids: seq<string>, verdicts: seq<Verdict>, fills: seq<Fill>, start: Tally)
    requires |ids| == |verdicts| == |fills| && TallyApplies(start, [])
    requires forall k :: 0 <= k < |fills| ==> AppliesFill(verdicts[k], fills[k])
    ensures TallyApplies(AddAll(ids, verdicts, start), fills)
  {
    if ids != [] {
      var n := |ids| - 1;
      AddAllApplies(ids[..n], verdicts[..n], fills[..n], start);
      AddOne(AddAll(ids[..n], verdicts[..n], start), ids[n], verdicts[n], fills[..n], fills[n]);
      assert fills == fills[..n] + [fills[n]];
    }
  }

  lemma AddOne(t: Tally, id: string, v: Verdict, fills: seq<Fill>, f: Fill)
    requires AppliesFill(v, f) && TallyApplies(t, fills)
    ensures TallyApplies(AddVerdict(t, id, v), fills + [f])
  {
    assert Ids(v.ignored) == [];
  }

  lemma {:induction false} NobodyWaits(orders: seq<OrderState>, ids: seq<string>)
    requires forall k :: 0 <= k < |orders| ==> orders[k].status.Filled?
    ensures Waiting(orders, ids) == []
  {
    if orders != [] { NobodyWaits(orders[..|orders| - 1], ids); }
  }

  /** The verdicts on the orders, one per fill. */
  lemma OneToOneVerdicts(orders: seq<OrderState>, fills: seq<Fill>) returns (verdicts: seq<Verdict>)
    requires OneToOne(orders, fills)
    ensures |verdicts| == |fills| == |GroupIds(fills)|
    ensures forall id :: id in GroupIds(fills) ==> OfOrder(fills, id) != []
    ensures forall k :: 0 <= k < |fills| ==>
      verdicts[k] == VerdictOn(orders, fills, [], GroupIds(fills)[k]) && AppliesFill(verdicts[k], fills[k])
  {
    OneGroupEach(fills);
    forall k | 0 <= k < |fills| ensures AppliesOnly(orders, fills, fills[k].orderId, fills[k]) {
      OneToOneVerdict(orders, fills, k);
    }
    forall id | id in GroupIds(fills) ensures OfOrder(fills, id) != [] { GroupsAreInhabited(fills, id); }
    verdicts := seq(|fills|, k requires 0 <= k < |fills| => VerdictOn(orders, fills, [], GroupIds(fills)[k]));
  }

  lemma OneToOneTally(orders: seq<OrderState>, fills: seq<Fill>)
    requires OneToOne(orders, fills)
    ensures forall id :: id in GroupIds(fills) ==> OfOrder(fills, id) != []
    ensures TallyApplies(TallyUp(orders, fills, [], GroupIds(fills), Tally(false, [], [], [], [])), fills)
  {
    var verdicts := OneToOneVerdicts(orders, fills);
    TallyOfVerdicts(orders, fills, GroupIds(fills), verdicts, Tally(false, [], [], [], []));
    AddAllApplies(GroupIds(fills), verdicts, fills, Tally(false, [], [], [], []));
  }

  /** A pass over such orders and fills is unambiguous, leaves nothing pending and applies the fills as delivered. */
  lemma OneToOneApplies(orders: seq<OrderState>, fills: seq<Fill>)
    requires OneToOne(orders, fills)
    ensures TallyApplies(Assess(Pass(orders, fills, [], None, [])), fills)
  {
    AllNew(fills, []);
    OneToOneTally(orders, fills);
    NobodyWaits(orders, GroupIds(fills));
    forall k | 0 <= k < |orders| ensures !LacksFills(orders[k], GroupIds(fills)) {
      GroupMembers(fills, orders[k].orderId);
    }
  }

  /** What the live translator then returns or raises is what posting the fills in that order returns or raises. */
  lemma OneToOnePosts(p: PortfolioState, orders: seq<OrderState>, fills: seq<Fill>)
    requires OneToOne(orders, fills)
    ensures var r, a := Translated(p, Pass(orders, fills, [], None, [])), Applied(QUOTE_ASSET, p, fills);
      && (r.Err? <==> a.Err?) && (r.Err? ==> r.error == a.error)
      && (r.Ok? ==>
            && r.value.status.AppliedAll? && !r.value.manualAttention && r.value.portfolio == a.value
            && r.value.appliedIds == Ids(fills) && r.value.ignoredIds == [] && r.value.pendingIds == [])
  {
    OneToOneApplies(orders, fills);
  }
}
