/** Exactly when the gate lets a cycle change the portfolio, and what it hands to the translator. */
module GateDecision {
  import opened Collections
  import opened Contracts
  import opened LiveTranslation
  import opened Coordinator
  import opened ReconciliationStore
  import opened Reconciliation
  import opened OrderMerge
  import opened LivePortfolioGate
  import opened GateSafety
  import opened OrderTracking

  // ------------------------------------------------------- payload contents

  lemma {:induction false} OrdersExactly(payloads: seq<Payload>)
    ensures forall o :: o in Orders(payloads) <==> exists y :: y in payloads && y.translation.order == Some(o)
  {
    if payloads != [] {
      var front, last := payloads[..|payloads| - 1], payloads[|payloads| - 1];
      assert payloads == front + [last];
      OrdersExactly(front);
      assert forall y :: y in payloads <==> y in front || y == last;
    }
  }

  lemma {:induction false} FillsExactly(payloads: seq<Payload>)
    ensures forall f :: f in Fills(payloads) <==> exists y :: y in payloads && y.translation.fill == Some(f)
  {
    if payloads != [] {
      var front, last := payloads[..|payloads| - 1], payloads[|payloads| - 1];
      assert payloads == front + [last];
      FillsExactly(front);
      assert forall y :: y in payloads <==> y in front || y == last;
    }
  }

  lemma {:induction false} OrderEventsExactly(payloads: seq<Payload>)
    ensures forall e :: e in OrderEvents(payloads) <==>
      exists y :: y in payloads && y.family.OrderUpdate? && y.event == e
  {
    if payloads != [] {
      var front, last := payloads[..|payloads| - 1], payloads[|payloads| - 1];
      assert payloads == front + [last];
      OrderEventsExactly(front);
      assert forall y :: y in payloads <==> y in front || y == last;
    }
  }

  // ----------------------------------------------------- the pass condition

  /** A private payload reports the order or a fill of it, or one of these recovered fills is of it. */
  ghost predicate IsMentioned(payloads: seq<Payload>, recovered: seq<Fill>, id: string) {
    || (exists y :: y in payloads && y.translation.order.Some? && y.translation.order.value.orderId == id)
    || (exists y :: y in payloads && y.translation.fill.Some? && y.translation.fill.value.orderId == id)
    || (exists f :: f in recovered && f.orderId == id)
  }

  lemma MentionedExactly(payloads: seq<Payload>, recovered: seq<Fill>, id: string)
    ensures MentionsOrder(Orders(payloads), Fills(payloads) + recovered, id) <==> IsMentioned(payloads, recovered, id)
  {
    OrdersExactly(payloads);
    FillsExactly(payloads);
    var orders, fills := Orders(payloads), Fills(payloads) + recovered;
    assert (exists i :: 0 <= i < |orders| && orders[i].orderId == id) <==> exists o :: o in orders && o.orderId == id;
    assert (exists i :: 0 <= i < |fills| && fills[i].orderId == id) <==> exists f :: f in fills && f.orderId == id;
    assert forall f :: f in fills <==> f in Fills(payloads) || f in recovered;
  }

  /** The order still needs recovery or an operator. */
  ghost predicate IsOpen(o: OrderState) {
    || o.status.Recovering? || o.status.Unreconciled?
    || o.reconciliation == Some(UnknownExecution) || o.reconciliation == Some(StatusQueryPending)
    || o.reconciliation == Some(UnreconciledManualAttention)
  }

  lemma {:induction false} PendingIdsExactly(states: seq<OrderState>)
    ensures forall id :: id in PendingIds(states) <==> exists o :: o in states && IsOpen(o) && o.orderId == id
  {
    if states != [] {
      var front, last := states[..|states| - 1], states[|states| - 1];
      assert states == front + [last];
      PendingIdsExactly(front);
      assert forall o :: o in states <==> o in front || o == last;
    }
  }

  /** What the gate checks before it translates, for a cycle with this workflow. */
  ghost predicate IsClear(input: GateInput, w: Workflow) {
    && (forall y :: y in input.payloads ==> !y.translation.status.PayloadMalformed?)
    && ((exists y :: y in input.payloads && y.translation.invalidated) ==>
          forall id :: id in input.expected ==> IsMentioned(input.payloads, w.recoveredFills, id))
    && (forall o :: o in Merged(Orders(input.payloads), w.states) ==> !IsOpen(o))
    && (input.canSubmit ==> input.clockWithinTolerance)
  }

  lemma Emptiness(ids: seq<string>)
    ensures ids == [] <==> forall id :: id !in ids
  {
    if ids != [] { assert ids[0] in ids; }
  }

  lemma ClearExactly(input: GateInput, w: Workflow)
    ensures StopReason(input, w).None? <==> IsClear(input, w)
  {
    var merged := Merged(Orders(input.payloads), w.states);
    FlagsExactly(input.payloads);
    UnconfirmedExactly(input.expected, Orders(input.payloads), Fills(input.payloads) + w.recoveredFills);
    Emptiness(Unconfirmed(input.expected, Orders(input.payloads), Fills(input.payloads) + w.recoveredFills));
    forall id ensures MentionsOrder(Orders(input.payloads), Fills(input.payloads) + w.recoveredFills, id)
        <==> IsMentioned(input.payloads, w.recoveredFills, id) {
      MentionedExactly(input.payloads, w.recoveredFills, id);
    }
    PendingIdsExactly(merged);
    Emptiness(PendingIds(merged));
    forall o | o in merged && IsOpen(o) ensures o.orderId in PendingIds(merged) {}
  }

  lemma FlagsExactly(payloads: seq<Payload>)
    ensures SomeMalformed(payloads) <==> exists y :: y in payloads && y.translation.status.PayloadMalformed?
    ensures Invalidated(payloads) <==> exists y :: y in payloads && y.translation.invalidated
  {
    if y :| y in payloads && y.translation.status.PayloadMalformed? {
      var i :| 0 <= i < |payloads| && payloads[i] == y;
    }
    if y :| y in payloads && y.translation.invalidated {
      var i :| 0 <= i < |payloads| && payloads[i] == y;
    }
    if SomeMalformed(payloads) {
      var i :| 0 <= i < |payloads| && payloads[i].translation.status.PayloadMalformed?;
      assert payloads[i] in payloads;
    }
    if Invalidated(payloads) {
      var i :| 0 <= i < |payloads| && payloads[i].translation.invalidated;
      assert payloads[i] in payloads;
    }
  }

  /**
   * A mutation is applied if and only if something was polled, no payload is malformed, after an invalidation every
   * expected order is mentioned, no merged order is open, a submitting run has a ready clock, and the translation
   * succeeds without review. With all of this but the translation, the gate raises exactly if the translation does.
   */
  lemma PassesExactly(s: Snapshot, p: PortfolioState, input: GateInput, already: seq<string>)
    ensures var w := Reconciled(s, CycleOf(input)).workflow;
      var t := Translated(p, PassOf(input, already, w));
      && (PassedMutation(s, p, input, already) <==>
            input.payloads != [] && IsClear(input, w) && t.Ok? && !t.value.manualAttention)
      && (Gated(s, p, input, already).Err? <==> input.payloads != [] && IsClear(input, w) && t.Err?)
      && (PassedMutation(s, p, input, already) ==>
            Gated(s, p, input, already).value.portfolio == t.value.portfolio
            && Gated(s, p, input, already).value.translation == t.value)
  {
    ClearExactly(input, Reconciled(s, CycleOf(input)).workflow);
  }

  /** A cycle that polled something attempts the mutation; one that polled nothing changes and reports nothing. */
  lemma AttemptedExactly(s: Snapshot, p: PortfolioState, input: GateInput, already: seq<string>)
    requires Gated(s, p, input, already).Ok?
    ensures var g := Gated(s, p, input, already).value;
      && (g.attempted <==> input.payloads != [])
      && (input.payloads == [] ==>
            !g.applied && g.portfolio == p && g.events == [] && !g.translation.manualAttention
            && GateSnapshot(s, input) == s)
      && (input.payloads != [] ==> g.events == Reconciled(s, CycleOf(input)).workflow.events)
  {
  }

  // ---------------------------------------------------- the reported reason

  /**
   * A cycle that is stopped before translation asks for review and reports as pending: after an invalidation the
   * expected orders that nothing mentions, else the orders that are open, else nothing.
   */
  lemma StoppedReports(s: Snapshot, p: PortfolioState, input: GateInput, already: seq<string>, id: string)
    requires input.payloads != [] && !IsClear(input, Reconciled(s, CycleOf(input)).workflow)
    ensures Gated(s, p, input, already).Ok?
    ensures var g, w := Gated(s, p, input, already).value, Reconciled(s, CycleOf(input)).workflow;
      && !g.applied && g.translation.manualAttention && g.translation.status.AmbiguousReviewRequired?
      && (id in g.translation.pendingIds <==>
            && (forall y :: y in input.payloads ==> !y.translation.status.PayloadMalformed?)
            && if SomeUnmentioned(input, w)
               then id in input.expected && !IsMentioned(input.payloads, w.recoveredFills, id)
               else exists o :: o in Merged(Orders(input.payloads), w.states) && IsOpen(o) && o.orderId == id)
  {
    var w := Reconciled(s, CycleOf(input)).workflow;
    ClearExactly(input, w);
    FlagsExactly(input.payloads);
    UnmentionedExactly(input, w);
    PendingIdsExactly(Merged(Orders(input.payloads), w.states));
  }

  ghost predicate SomeUnmentioned(input: GateInput, w: Workflow) {
    && (exists y :: y in input.payloads && y.translation.invalidated)
    && exists id :: id in input.expected && !IsMentioned(input.payloads, w.recoveredFills, id)
  }

  lemma UnmentionedExactly(input: GateInput, w: Workflow)
    ensures var ids := Unconfirmed(input.expected, Orders(input.payloads), Fills(input.payloads) + w.recoveredFills);
      && (forall id :: id in ids <==> id in input.expected && !IsMentioned(input.payloads, w.recoveredFills, id))
      && (SomeUnmentioned(input, w) <==> Invalidated(input.payloads) && ids != [])
  {
    FlagsExactly(input.payloads);
    UnconfirmedExactly(input.expected, Orders(input.payloads), Fills(input.payloads) + w.recoveredFills);
    Emptiness(Unconfirmed(input.expected, Orders(input.payloads), Fills(input.payloads) + w.recoveredFills));
    forall id ensures MentionsOrder(Orders(input.payloads), Fills(input.payloads) + w.recoveredFills, id)
        <==> IsMentioned(input.payloads, w.recoveredFills, id) {
      MentionedExactly(input.payloads, w.recoveredFills, id);
    }
  }

  // --------------------------------------------- what the translator is given

  /** Payload `i` brings the last full account snapshot. */
  ghost predicate BringsSnapshot(payloads: seq<Payload>, i: nat, a: AccountSnapshot) {
    && i < |payloads| && payloads[i].translation.account == Some(a) && !a.isPartial
    && forall j :: i < j < |payloads| ==>
         payloads[j].translation.account.None? || payloads[j].translation.account.value.isPartial
  }

  lemma {:induction false} LatestSnapshotExactly(payloads: seq<Payload>)
    ensures forall a :: LatestFullSnapshot(payloads) == Some(a) <==> exists i: nat :: BringsSnapshot(payloads, i, a)
  {
    if payloads != [] {
      var n := |payloads| - 1;
      var t := payloads[n].translation;
      LatestSnapshotExactly(payloads[..n]);
      if t.account.Some? && !t.account.value.isPartial {
        assert BringsSnapshot(payloads, n, t.account.value);
      } else {
        forall a, i: nat ensures BringsSnapshot(payloads, i, a) <==> BringsSnapshot(payloads[..n], i, a) {}
      }
    }
  }

  ghost predicate IsStated(balances: seq<Balance>, j: nat, asset: string, amount: real) {
    && j < |balances| && balances[j].asset == asset && (balances[j].free.Some? || balances[j].locked.Some?)
    && amount == (if balances[j].free.Some? then balances[j].free.value else 0.0)
         + (if balances[j].locked.Some? then balances[j].locked.value else 0.0)
    && forall k :: j < k < |balances| && balances[k].asset == asset ==>
         balances[k].free.None? && balances[k].locked.None?
  }

  /** The last balance of the asset that states an amount states this one, free and locked together. */
  ghost predicate States(balances: seq<Balance>, asset: string, amount: real) {
    exists j: nat :: IsStated(balances, j, asset, amount)
  }

  lemma {:induction false} CashExactly(balances: seq<Balance>, asset: string, amount: real)
    ensures asset in CashOf(balances) && CashOf(balances)[asset] == amount <==> States(balances, asset, amount)
  {
    if balances != [] {
      var n := |balances| - 1;
      var b := balances[n];
      CashExactly(balances[..n], asset, amount);
      if b.asset == asset && (b.free.Some? || b.locked.Some?) {
        assert amount == OrZero(b.free) + OrZero(b.locked) ==> IsStated(balances, n, asset, amount);
        forall j: nat | IsStated(balances, j, asset, amount) ensures j == n {}
      } else {
        forall j: nat ensures IsStated(balances, j, asset, amount) <==> IsStated(balances[..n], j, asset, amount) {}
      }
    }
  }

  lemma {:induction false} AssetsExactly(balances: seq<Balance>)
    ensures forall a :: a in AssetsOf(balances) <==> exists b :: b in balances && b.asset == a
  {
    if balances != [] {
      var front, last := balances[..|balances| - 1], balances[|balances| - 1];
      assert balances == front + [last];
      AssetsExactly(front);
      assert forall b :: b in balances <==> b in front || b == last;
    }
  }

  /**
   * The translator is given the merged orders, the private and recovered fills, and as account snapshot what the last
   * full one states of every asset it mentions, if any came.
   */
  lemma PassContents(input: GateInput, already: seq<string>, w: Workflow)
    ensures var pass := PassOf(input, already, w);
      && pass.orders == Merged(Orders(input.payloads), w.states) && pass.already == already
      && (forall f :: f in pass.fills <==>
            f in w.recoveredFills || exists y :: y in input.payloads && y.translation.fill == Some(f))
      && (pass.snapshot.Some? <==> exists i: nat, a :: BringsSnapshot(input.payloads, i, a))
      && forall i: nat, a :: BringsSnapshot(input.payloads, i, a) ==> GivenSnapshot(pass, a.balances)
  {
    FillsExactly(input.payloads);
    LatestSnapshotExactly(input.payloads);
    var pass, latest := PassOf(input, already, w), LatestFullSnapshot(input.payloads);
    assert forall f :: f in pass.fills <==> f in Fills(input.payloads) || f in w.recoveredFills;
    if latest.Some? {
      AssetsExactly(latest.value.balances);
      forall asset, amount
        ensures asset in pass.snapshot.value && pass.snapshot.value[asset] == amount
           <==> States(latest.value.balances, asset, amount)
      {
        CashExactly(latest.value.balances, asset, amount);
      }
    }
  }

  ghost predicate GivenSnapshot(pass: Pass, balances: seq<Balance>) {
    && pass.snapshot.Some?
    && (forall asset, amount ::
          asset in pass.snapshot.value && pass.snapshot.value[asset] == amount <==> States(balances, asset, amount))
    && forall a :: a in pass.assets <==> exists b :: b in balances && b.asset == a
  }

  // -------------------------------------------------------- ordinary cycles

  lemma {:induction false} MergedStaySettled(translated: seq<OrderState>, entries: seq<OrderState>)
    requires forall o :: o in translated ==> !IsOpen(o)
    requires forall o :: o in entries ==> o.reconciliation == Some(SubmitSent) && !IsOpen(o)
    ensures forall o :: o in Merged(translated, entries) ==> !IsOpen(o)
  {
    if entries == [] {
      IndexedAreTranslated(translated);
    } else {
      var front, last := entries[..|entries| - 1], entries[|entries| - 1];
      assert entries == front + [last];
      MergedStaySettled(translated, front);
      OneStatePerId(translated, front);
      MergeStaysSettled(Merged(translated, front), last);
    }
  }

  lemma {:induction false} IndexedAreTranslated(translated: seq<OrderState>)
    ensures forall o :: o in Indexed(translated) ==> o in translated
  {
    if translated != [] {
      var front, last := translated[..|translated| - 1], translated[|translated| - 1];
      assert translated == front + [last];
      IndexedAreTranslated(front);
      IndexedFacts(front);
      PutFacts(Indexed(front), last);
    }
  }

  lemma MergeStaysSettled(states: seq<OrderState>, o: OrderState)
    requires UniqueIds(states) && o.reconciliation == Some(SubmitSent) && !IsOpen(o)
    requires forall x :: x in states ==> !IsOpen(x)
    ensures forall x :: x in MergeInto(states, o) ==> !IsOpen(x)
  {
    FoundHasId(states, o.orderId);
    PutFacts(states, o);
    if FindOrder(states, o.orderId).Some? { PutFacts(states, MergeOrder(FindOrder(states, o.orderId).value, o)); }
  }

  lemma {:induction false} MatchedAreSettled(ids: seq<string>, at: int)
    ensures forall o :: o in Entries(ids, x => MatchedEntry(x, at)) ==>
      o.reconciliation == Some(SubmitSent) && !IsOpen(o)
  {
    if ids != [] { MatchedAreSettled(ids[..|ids| - 1], at); }
  }

  /** The workflow of a cycle with nothing to recover consists of the matched entries. */
  lemma NothingToRecover(s: Snapshot, cycle: CycleInput)
    requires var c := Reconciled(s, cycle).classification; c.missing == [] && c.unknown == []
    ensures var r := Reconciled(s, cycle);
      && r.workflow.states == Entries(r.classification.matched, x => MatchedEntry(x, cycle.coordinatedAt))
      && r.workflow.recoveredFills == []
  {
    var r := Reconciled(s, cycle);
    NothingLookedUp(s, cycle);
    assert r.workflow.states == Classified(r.classification, cycle.coordinatedAt).states;
  }

  /**
   * A cycle that saw every expected and formerly unresolved order, and no other, changes the portfolio exactly when its
   * translation succeeds without review, provided no payload is malformed, no private report calls an order open, an
   * invalidated stream mentions every expected order, and a submitting run has a ready clock.
   */
  lemma OrdinaryCyclePasses(s: Snapshot, p: PortfolioState, input: GateInput, already: seq<string>)
    requires input.payloads != [] && (input.canSubmit ==> input.clockWithinTolerance)
    requires forall y :: y in input.payloads ==> !y.translation.status.PayloadMalformed?
    requires forall y :: y in input.payloads && y.translation.order.Some? ==> !IsOpen(y.translation.order.value)
    requires (exists y :: y in input.payloads && y.translation.invalidated) ==>
      forall id :: id in input.expected ==> IsMentioned(input.payloads, [], id)
    requires var c := Reconciled(s, CycleOf(input)).classification; c.missing == [] && c.unknown == []
    ensures var t := Translated(p, PassOf(input, already, Reconciled(s, CycleOf(input)).workflow));
      PassedMutation(s, p, input, already) <==> t.Ok? && !t.value.manualAttention
  {
    var r := Reconciled(s, CycleOf(input));
    NothingToRecover(s, CycleOf(input));
    OrdersExactly(input.payloads);
    MatchedAreSettled(r.classification.matched, input.coordinatedAt);
    MergedStaySettled(Orders(input.payloads), r.workflow.states);
    PassesExactly(s, p, input, already);
  }

  /** The gate hands neither a cursor nor a gap to reconciliation, so it never changes what is on record of them. */
  lemma GateKeepsCursorAndGap(s: Snapshot, input: GateInput)
    ensures GateSnapshot(s, input).gapActive == s.gapActive && GateSnapshot(s, input).cursor == s.cursor
  {
    CycleRecords(s, CycleOf(input));
  }
}
