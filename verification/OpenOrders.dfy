/** What the gate does with fills of an expected order that the private stream reports as still open. */
module OpenOrders {
  import opened Collections
  import opened Contracts
  import opened LiveTranslation
  import opened TranslationSafety
  import opened DeliveryOrder
  import opened Recovery
  import opened Coordinator
  import opened ReconciliationStore
  import opened Reconciliation
  import opened OrderTracking
  import opened OrderMerge
  import opened LivePortfolioGate
  import opened GateSafety

  /** The quantities of a workflow stub. */
  predicate Empty(o: OrderState) {
    o.requested == 0.0 && o.filled == 0.0 && o.remaining == 0.0
  }

  lemma {:induction false} EntriesAreEmpty(ids: seq<string>, entry: string -> OrderState)
    requires forall x :: Empty(entry(x))
    ensures forall o :: o in Entries(ids, entry) ==> Empty(o)
  {
    if ids != [] { EntriesAreEmpty(ids[..|ids| - 1], entry); }
  }

  lemma ClassifiedAreEmpty(c: Classification, at: int)
    ensures forall o :: o in Classified(c, at).states ==> Empty(o)
  {
    EntriesAreEmpty(c.matched, x => MatchedEntry(x, at));
    EntriesAreEmpty(c.unknown, x => UnknownEntry(x, at));
    EntriesAreEmpty(c.missing, x => PendingEntry(x, at));
  }

  /** Empty entries erase the quantities of an order that still has something remaining. */
  lemma {:induction false} EmptyEntriesErase(translated: seq<OrderState>, entries: seq<OrderState>, id: string)
    requires forall o :: o in entries ==> Empty(o)
    requires FindOrder(translated, id).Some? && FindOrder(translated, id).value.remaining > 0.0
    requires FindOrder(entries, id).Some?
    ensures FindOrder(Merged(translated, entries), id).Some?
    ensures FindOrder(Merged(translated, entries), id).value.filled == 0.0
  {
    var front, last := entries[..|entries| - 1], entries[|entries| - 1];
    assert entries == front + [last] && last in entries && forall o :: o in front ==> o in entries;
    MergeLast(translated, front, last);
    if FindOrder(front, id).Some? {
      EmptyEntriesErase(translated, front, id);
    } else {
      UnreconciledKeepsState(translated, front, id);
    }
  }

  lemma {:induction false} OthersLeaveAlone(
    translated: seq<OrderState>, before: seq<OrderState>, after: seq<OrderState>, id: string)
    requires FindOrder(after, id).None?
    ensures FindOrder(Merged(translated, before + after), id) == FindOrder(Merged(translated, before), id)
  {
    if after == [] {
      assert before + after == before;
    } else {
      var front, last := after[..|after| - 1], after[|after| - 1];
      assert before + after == (before + front) + [last];
      OthersLeaveAlone(translated, before, front, id);
      MergeLast(translated, before + front, last);
    }
  }

  /** Fills of an order that reports nothing filled are always ambiguous. */
  lemma UnfilledOrderIsAmbiguous(id: string, o: OrderState, fills: seq<Fill>, recoveredBefore: bool)
    requires fills != [] && o.filled == 0.0
    ensures Judge(id, Some(o), fills, recoveredBefore).ambiguous
  {
    PositiveTotal(fills);
    if Select(fills, false) != [] { PositiveTotal(Select(fills, false)); }
  }

  lemma NewFillOfUnfilledOrder(pass: Pass, f: Fill)
    requires f in pass.fills && f.fillId !in pass.already
    requires FindOrder(pass.orders, f.orderId).Some? && FindOrder(pass.orders, f.orderId).value.filled == 0.0
    ensures Assess(pass).ambiguous
  {
    AssessFacts(pass);
    if !Conflicting(pass.fills, pass.already) {
      NewFillsAreUndelivered(pass.fills, pass.already);
      GroupMembers(pass.Fills(), f.orderId);
      UnfilledOrderIsAmbiguous(f.orderId, FindOrder(pass.orders, f.orderId).value, OfOrder(pass.Fills(), f.orderId),
                               RecoveredBefore(pass.already, f.orderId));
    }
  }

  /** A lookup result answers at this id or carries it. */
  ghost predicate Touches(lookups: seq<Lookup>, id: string) {
    exists l :: l in lookups && (l.value == id || Carries(l, id))
  }

  /** Lookups that neither answer at an id nor carry it leave its entry alone. */
  lemma {:induction false} UntouchedEntry(
    values: seq<string>, lookups: seq<Lookup>, at: int, start: Workflow, id: string)
    requires forall v :: v in values ==> AttemptsAt(lookups, v) != []
    requires !Touches(lookups, id)
    ensures FindOrder(ResolveAll(values, lookups, at, start).states, id) == FindOrder(start.states, id)
  {
    if values != [] {
      var front, v := values[..|values| - 1], values[|values| - 1];
      assert values == front + [v];
      UntouchedEntry(front, lookups, at, start, id);
      UntouchedBy(v, lookups, at, id);
    }
  }

  lemma UntouchedBy(v: string, lookups: seq<Lookup>, at: int, id: string)
    requires AttemptsAt(lookups, v) != [] && !Touches(lookups, id)
    ensures Resolve(v, AttemptsAt(lookups, v), at).order.orderId != id
  {
    var attempts := AttemptsAt(lookups, v);
    ValuesHaveAttempts(lookups, v);
    assert attempts[0] in attempts;
    assert v != id;
    var terminal := LastTerminal(attempts);
    assert terminal.Some? ==> terminal.value in lookups && !Carries(terminal.value, id);
  }

  lemma RenumberingKeepsTouches(results: seq<Lookup>, lookups: seq<Lookup>, id: string)
    requires Renumbered(results, lookups) && Touches(lookups, id)
    ensures Touches(results, id)
  {
    var l :| l in lookups && (l.value == id || Carries(l, id));
    var i :| 0 <= i < |lookups| && lookups[i] == l;
    assert results[i] in results && (results[i].value == id || Carries(results[i], id));
  }

  /** The last entry of a matched order that no lookup touches is the matched one. */
  lemma UntouchedStaysMatched(s: Snapshot, input: CycleInput, id: string)
    requires id in Reconciled(s, input).classification.matched
    requires !Touches(Reconciled(s, input).outcome.search.results, id)
    ensures FindOrder(Reconciled(s, input).workflow.states, id) == Some(MatchedEntry(id, input.coordinatedAt))
  {
    var r := Reconciled(s, input);
    StoreRenumbers(s, input);
    if Touches(r.lookups, id) { RenumberingKeepsTouches(r.outcome.search.results, r.lookups, id); }
    MatchedIsNothingElse(Distinct(input.expected + s.unresolved), OrderEvents(input.payloads), id);
    UntouchedWorkflow(r.classification, r.lookups, input.coordinatedAt, id);
    ClassifiedEntries(r.classification, input.coordinatedAt, id);
  }

  lemma MatchedIsNothingElse(expected: seq<string>, events: seq<OrderEvent>, id: string)
    requires id in Classify(expected, events).matched
    ensures id !in Classify(expected, events).missing && id !in Classify(expected, events).unknown
  {
    SeenSplit(expected, events, true);
    SeenSplit(expected, events, false);
    UnknownSplit(expected, events);
  }

  lemma UntouchedWorkflow(c: Classification, lookups: seq<Lookup>, at: int, id: string)
    requires !Touches(lookups, id)
    ensures FindOrder(Coordinated(c, lookups, at).states, id) == FindOrder(Classified(c, at).states, id)
  {
    forall v | v in LookedUpValues(lookups) ensures AttemptsAt(lookups, v) != [] { ValuesHaveAttempts(lookups, v); }
    UntouchedEntry(LookedUpValues(lookups), lookups, at, Classified(c, at), id);
  }

  /**
   * An expected order that is matched, still open and touched by no lookup can not be filled: its all-zero workflow
   * entry overwrites the quantities of the private report, so any new fill of it makes the cycle ambiguous and nothing
   * is applied.
   */
  lemma OpenExpectedOrderBlocks(s: Snapshot, p: PortfolioState, input: GateInput, already: seq<string>, f: Fill)
    requires f.orderId in Reconciled(s, CycleOf(input)).classification.matched
    requires !Touches(Reconciled(s, CycleOf(input)).outcome.search.results, f.orderId)
    requires FindOrder(Orders(input.payloads), f.orderId).Some?
    requires FindOrder(Orders(input.payloads), f.orderId).value.remaining > 0.0
    requires f in Fills(input.payloads) && f.fillId !in already
    ensures !PassedMutation(s, p, input, already)
  {
    UntouchedStaysMatched(s, CycleOf(input), f.orderId);
    MatchedEntryBlocks(s, p, input, already, f);
  }

  lemma MatchedEntryBlocks(s: Snapshot, p: PortfolioState, input: GateInput, already: seq<string>, f: Fill)
    requires var r := Reconciled(s, CycleOf(input));
      FindOrder(r.workflow.states, f.orderId) == Some(MatchedEntry(f.orderId, input.coordinatedAt))
    requires FindOrder(Orders(input.payloads), f.orderId).Some?
    requires FindOrder(Orders(input.payloads), f.orderId).value.remaining > 0.0
    requires f in Fills(input.payloads) && f.fillId !in already
    ensures !PassedMutation(s, p, input, already)
  {
    var r, id := Reconciled(s, CycleOf(input)), f.orderId;
    MatchedEntryErases(r.classification, r.lookups, input.coordinatedAt, Orders(input.payloads), id);
    NewFillOfUnfilledOrder(PassOf(input, already, r.workflow), f);
  }

  lemma MatchedEntryErases(c: Classification, lookups: seq<Lookup>, at: int, translated: seq<OrderState>, id: string)
    requires FindOrder(Coordinated(c, lookups, at).states, id) == Some(MatchedEntry(id, at))
    requires FindOrder(translated, id).Some? && FindOrder(translated, id).value.remaining > 0.0
    ensures FindOrder(Merged(translated, Coordinated(c, lookups, at).states), id).Some?
    ensures FindOrder(Merged(translated, Coordinated(c, lookups, at).states), id).value.filled == 0.0
  {
    forall v | v in LookedUpValues(lookups) ensures AttemptsAt(lookups, v) != [] { ValuesHaveAttempts(lookups, v); }
    var start := Classified(c, at);
    var states := ResolveAll(LookedUpValues(lookups), lookups, at, start).states;
    ResolvedStates(LookedUpValues(lookups), lookups, at, start);
    ResolvedEntries(LookedUpValues(lookups), lookups, at, start, id);
    var tail := states[|start.states|..];
    assert states == start.states + tail;
    FindInConcat(start.states, tail, id);
    FoundHasId(tail, id);
    ClassifiedAreEmpty(c, at);
    EmptyEntriesErase(translated, start.states, id);
    OthersLeaveAlone(translated, start.states, tail, id);
  }
}
