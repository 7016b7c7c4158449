/** After a stream invalidation a terminal lookup alone satisfies the confirmation check. */
module LookupConfirmation {
  import opened Collections
  import opened Contracts
  import opened PaperLedger
  import opened LiveTranslation
  import opened OrderLifecycle
  import opened OneFillOrders
  import opened Recovery
  import opened Coordinator
  import opened ReconciliationStore
  import opened Reconciliation
  import opened OrderMerge
  import opened LivePortfolioGate
  import opened GateSafety

  /** A cycle that polled nothing but the invalidation of the stream, while one order is expected. */
  function InvalidatedCycle(id: string, l: Lookup, at: int): GateInput {
    GateInput(
      [Payload(StreamStatus, OrderEvent("", "", ""), PayloadTranslation(PayloadTranslated, None, None, None, true))],
      [id], (n: nat, field: string, value: string) => Reply(l, None), false, false, at, at)
  }

  /** The answer: the order is filled, and here are its state and its one recovered fill. */
  ghost predicate FilledAnswer(id: string, l: Lookup, o: OrderState, f: Fill) {
    && l.found && l.value == id && l.status == Some("filled") && l.recoveredState == Some(o) && l.recoveredFills == [f]
    && o.orderId == f.orderId == id && o.filled == o.requested == f.quantity
  }

  function ResolvedEntry(o: OrderState, at: int): OrderState {
    ResolveRecovery(o, Filled, at).(reconciliation := Some(RecoveredTerminalState))
  }

  lemma DistinctSingleton<T>(x: T)
    ensures Distinct([x]) == [x]
  {
    assert [x][..0] == [];
    assert Distinct([x][..0]) == [];
  }

  lemma LoneMissing(id: string)
    requires id != ""
    ensures Classify([id], []) == Classification([], [id], [], [], [])
  {
    assert [id][..0] == [] && !Seen([], id);
    assert KeepSeen([id][..0], [], false) == [] && KeepSeen([id][..0], [], true) == [];
  }

  lemma LonePlan(id: string)
    ensures PlanFor(Classification([], [id], [], [], []), false, false)
         == Plan([(EXCHANGE_FIELD, id)], MissingPrivateUpdates, true, false, false)
  {
    var wanted := AskBy(EXCHANGE_FIELD, [id]);
    assert [id][..0] == [] && AskBy(EXCHANGE_FIELD, [id][..0]) == [];
    assert wanted == [(EXCHANGE_FIELD, id)];
    assert WantedLookups(Classification([], [id], [], [], [])) == wanted + [] + [] == wanted;
    DistinctSingleton((EXCHANGE_FIELD, id));
  }

  lemma LoneRecovery(id: string, plan: Plan, script: Script, l: Lookup)
    requires plan.automatic && plan.requests == [(EXCHANGE_FIELD, id)]
    requires Terminal(l) && forall n: nat, field, value :: script(n, field, value) == Reply(l, None)
    ensures Recovered(plan, map[], script).search.results == [l]
  {
    assert plan.requests[..0] == [];
    var s := Round(Search0(), plan.requests, map[], script);
    assert Round(Search0(), plan.requests[..0], map[], script) == Search0();
    assert s == Ask(Search0(), (EXCHANGE_FIELD, id), map[], script);
    assert s.latest == map[l.value := l] && s.results == [l];
    assert AllTerminal(s.latest);
  }

  lemma LoneRegistration(l: Lookup, cursor: Option<string>, at: int)
    ensures exists k :: Registered([], [l], cursor, at).lookups == [l.(attempt := k)]
  {
    assert [l][..0] == [];
    assert Registered([], [l], cursor, at) == RegisterOne(Registration([], []), l, cursor, at);
    assert Registered([], [l], cursor, at).lookups == [l.(attempt := NewAttempt([], l, cursor, at).number)];
  }

  lemma LoneAttempts(l: Lookup)
    ensures LookedUpValues([l]) == [l.value] && AttemptsAt([l], l.value) == [l]
  {
    assert [l][..0] == [];
    assert LookedUpValues([l][..0]) == [] && AttemptsAt([l][..0], l.value) == [];
  }

  lemma LoneWorkflow(id: string, l: Lookup, o: OrderState, f: Fill, at: int)
    requires FilledAnswer(id, l, o, f)
    ensures var w := Coordinated(Classification([], [id], [], [], []), [l], at);
      w.states == [PendingEntry(id, at), ResolvedEntry(o, at)] && w.recoveredFills == [f]
  {
    var c := Classification([], [id], [], [], []);
    assert [id][..0] == [];
    LoneAttempts(l);
    var start := Classified(c, at);
    assert Entries([id], x => PendingEntry(x, at)) == [PendingEntry(id, at)];
    assert start.states == [PendingEntry(id, at)] && start.recoveredFills == [];
    assert LastTerminal([l]) == Some(l);
    assert ResolveAll([id], [l], at, start) == AddResolution(start, id, 1, Resolve(id, [l], at));
  }

  lemma LoneMerge(id: string, o: OrderState, at: int)
    requires o.orderId == id
    ensures Merged([], [PendingEntry(id, at), ResolvedEntry(o, at)])
      == [MergeOrder(PendingEntry(id, at), ResolvedEntry(o, at))]
  {
    var entries := [PendingEntry(id, at), ResolvedEntry(o, at)];
    assert entries[..1] == [PendingEntry(id, at)] && entries[..1][..0] == [];
    assert Merged([], entries[..1]) == [PendingEntry(id, at)];
    assert FindOrder([PendingEntry(id, at)], id) == Some(PendingEntry(id, at));
  }

  /** The reconciliation cycle behind the invalidated cycle. */
  lemma LoneReconciliation(id: string, l: Lookup, o: OrderState, f: Fill, at: int)
    requires id != "" && FilledAnswer(id, l, o, f)
    ensures var w := Reconciled(EmptySnapshot(), CycleOf(InvalidatedCycle(id, l, at))).workflow;
      w.states == [PendingEntry(id, at), ResolvedEntry(o, at)] && w.recoveredFills == [f]
  {
    var cycle := CycleOf(InvalidatedCycle(id, l, at));
    assert cycle.payloads[..0] == [];
    assert OrderEvents(cycle.payloads) == [];
    assert [id] + [] == [id];
    DistinctSingleton(id);
    LoneMissing(id);
    LonePlan(id);
    LoneRecovery(id, Plan([(EXCHANGE_FIELD, id)], MissingPrivateUpdates, true, false, false), cycle.script, l);
    LoneRegistration(l, None, at);
    var k :| Registered([], [l], None, at).lookups == [l.(attempt := k)];
    LoneWorkflow(id, l.(attempt := k), o, f, at);
  }

  lemma LoneFill(f: Fill)
    ensures Fresh([f], []) == [f] && GroupIds([f]) == [f.orderId] && OfOrder([f], f.orderId) == [f]
    ensures !Conflicting([f], []) && Redelivered([f], []) == []
  {
    assert [f][..0] == [];
    assert Fresh([f][..0], []) == [] && GroupIds([f][..0]) == [] && OfOrder([f][..0], f.orderId) == [];
    assert Redelivered([f][..0], []) == [] && !Conflicting([f][..0], []);
  }

  lemma LoneTally(m: OrderState, f: Fill, v: Verdict)
    requires m.orderId == f.orderId && v == Judge(m.orderId, Some(m), [f], false)
    ensures var pass, id := Pass([m], [f], [], None, []), m.orderId;
      && OfOrder([f], id) == [f]
      && Assess(pass) == (
           var t := AddVerdict(Tally(false, [], [], [], []), id, v);
           t.(pending := t.pending + Waiting([m], [id])))
  {
    var id := m.orderId;
    LoneFill(f);
    assert [m][..0] == [] && [id][..0] == [];
    assert FindOrder([m], id) == Some(m) && !RecoveredBefore([], id);
    var start := Tally(false, [], [], [], []);
    assert TallyUp([m], [f], [], [id][..0], start) == start;
    assert TallyUp([m], [f], [], [id], start) == AddVerdict(start, id, v);
    assert !SomeLacksFills([m], [id]);
  }

  lemma LoneAssessment(m: OrderState, f: Fill)
    requires FilledBy(m, f)
    ensures var t := Assess(Pass([m], [f], [], None, [])); !t.ambiguous && t.applied == [f]
  {
    SingleFillVerdict(m, f);
    LoneTally(m, f, Judge(m.orderId, Some(m), [f], false));
  }

  lemma LoneConfirmation(id: string, l: Lookup, f: Fill, at: int)
    requires f.orderId == id
    ensures var input := InvalidatedCycle(id, l, at);
      && Orders(input.payloads) == [] && Fills(input.payloads) == [] && LatestFullSnapshot(input.payloads) == None
      && Invalidated(input.payloads) && !SomeMalformed(input.payloads)
      && Unconfirmed(input.expected, [], [] + [f]) == []
  {
    var input := InvalidatedCycle(id, l, at);
    var none := input.payloads[..0];
    assert none == [] && input.expected[..0] == [];
    assert Orders(none) == [] && Fills(none) == [] && LatestFullSnapshot(none) == None;
    assert input.payloads[0].translation.invalidated;
    assert ([] + [f])[0].orderId == id;
  }

  ghost predicate Passes(p: PortfolioState, input: GateInput, w: Workflow) {
    Decided(p, input, [], w).Ok? && Decided(p, input, [], w).value.applied
  }

  lemma PassedIfDecided(s: Snapshot, p: PortfolioState, input: GateInput)
    requires input.payloads != [] && Passes(p, input, Reconciled(s, CycleOf(input)).workflow)
    ensures PassedMutation(s, p, input, [])
  {
  }

  lemma LoneDecision(p: PortfolioState, id: string, l: Lookup, o: OrderState, f: Fill, at: int)
    requires id != "" && FilledAnswer(id, l, o, f) && Applied(QUOTE_ASSET, p, [f]).Ok?
    ensures var input := InvalidatedCycle(id, l, at);
      Passes(p, input, Reconciled(EmptySnapshot(), CycleOf(input)).workflow)
  {
    var input := InvalidatedCycle(id, l, at);
    LoneConfirmation(id, l, f, at);
    LoneReconciliation(id, l, o, f, at);
    LoneMerge(id, o, at);
    LoneMergedState(o, at);
    LonePass(p, input, Reconciled(EmptySnapshot(), CycleOf(input)).workflow,
      MergeOrder(PendingEntry(id, at), ResolvedEntry(o, at)), f);
  }

  /**
   * The gate posts a fill that only a lookup reported, although the stream was invalidated and no private payload
   * mentions the order: the check accepts a recovered fill as the private confirmation it asks for.
   */
  lemma LookupAloneConfirms(p: PortfolioState, id: string, l: Lookup, o: OrderState, f: Fill, at: int)
    requires id != "" && FilledAnswer(id, l, o, f) && Applied(QUOTE_ASSET, p, [f]).Ok?
    ensures var input := InvalidatedCycle(id, l, at);
      && PassedMutation(EmptySnapshot(), p, input, [])
      && Invalidated(input.payloads) && id in input.expected
      && !MentionsOrder(Orders(input.payloads), Fills(input.payloads), id)
  {
    LoneConfirmation(id, l, f, at);
    LonePasses(p, id, l, o, f, at);
    assert !MentionsOrder([], [], id);
  }

  lemma LonePasses(p: PortfolioState, id: string, l: Lookup, o: OrderState, f: Fill, at: int)
    requires id != "" && FilledAnswer(id, l, o, f) && Applied(QUOTE_ASSET, p, [f]).Ok?
    ensures PassedMutation(EmptySnapshot(), p, InvalidatedCycle(id, l, at), [])
  {
    LoneDecision(p, id, l, o, f, at);
    PassedIfDecided(EmptySnapshot(), p, InvalidatedCycle(id, l, at));
  }

  lemma LoneMergedState(o: OrderState, at: int)
    ensures var m := MergeOrder(PendingEntry(o.orderId, at), ResolvedEntry(o, at));
      m.orderId == o.orderId && m.status.Filled? && m.filled == o.filled && m.requested == o.requested && !IsPending(m)
  {
  }

  /** With nothing pending, the gate hands this single order and fill to the translator, which posts the fill. */
  lemma LonePass(p: PortfolioState, input: GateInput, w: Workflow, m: OrderState, f: Fill)
    requires Orders(input.payloads) == [] && Fills(input.payloads) == [] && LatestFullSnapshot(input.payloads) == None
    requires !SomeMalformed(input.payloads) && !input.canSubmit
    requires w.recoveredFills == [f] && Unconfirmed(input.expected, [], [] + [f]) == []
    requires Merged([], w.states) == [m] && !IsPending(m)
    requires FilledBy(m, f) && Applied(QUOTE_ASSET, p, [f]).Ok?
    ensures Passes(p, input, w)
  {
    assert [m][..0] == [];
    assert PendingIds([m][..0]) == [] && PendingIds([m]) == [];
    assert [] + [f] == [f];
    LoneAssessment(m, f);
    assert StopReason(input, w) == None;
    assert PassOf(input, [], w) == Pass([m], [f], [], None, []);
  }
}
