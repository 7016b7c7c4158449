/** What a mutation that passed the gate guarantees, end to end. */
module GateSafety {
  import opened Collections
  import opened Contracts
  import opened PaperLedger
  import opened LiveTranslation
  import opened TranslationSafety
  import opened Recovery
  import opened Coordinator
  import opened ReconciliationStore
  import opened Reconciliation
  import opened OrderTracking
  import opened OrderMerge
  import opened LivePortfolioGate

  lemma {:induction false} NothingPending(states: seq<OrderState>)
    requires PendingIds(states) == []
    ensures forall o :: o in states ==> !IsPending(o)
  {
    if states != [] {
      assert states == states[..|states| - 1] + [states[|states| - 1]];
      NothingPending(states[..|states| - 1]);
    }
  }

  /** Splitting a list at the last entry of an id. */
  lemma {:induction false} SplitAtLast(states: seq<OrderState>, id: string) returns (i: nat)
    requires FindOrder(states, id).Some?
    ensures i < |states| && states[i] == FindOrder(states, id).value && states[i].orderId == id
    ensures forall o :: o in states[i + 1..] ==> o.orderId != id
  {
    if states[|states| - 1].orderId == id {
      i := |states| - 1;
    } else {
      i := SplitAtLast(states[..|states| - 1], id);
      assert states[i + 1..] == states[..|states| - 1][i + 1..] + [states[|states| - 1]];
    }
  }

  /** A pending last workflow entry leaves a pending merged state. */
  lemma PendingSurvivesMerge(translated: seq<OrderState>, reconciled: seq<OrderState>, id: string)
    requires FindOrder(reconciled, id).Some? && FindOrder(reconciled, id).value.reconciliation.Some?
    requires !FindOrder(reconciled, id).value.reconciliation.value.SubmitSent?
    requires IsPending(FindOrder(reconciled, id).value)
    ensures PendingIds(Merged(translated, reconciled)) != []
  {
    var i := SplitAtLast(reconciled, id);
    assert reconciled == reconciled[..i] + [reconciled[i]] + reconciled[i + 1..];
    LastEntryDecides(translated, reconciled[..i], reconciled[i], reconciled[i + 1..]);
    FoundHasId(Merged(translated, reconciled), id);
    if PendingIds(Merged(translated, reconciled)) == [] { NothingPending(Merged(translated, reconciled)); }
  }

  /** The entries after the classified ones record how a lookup ended. */
  lemma LookedUpEntries(c: Classification, lookups: seq<Lookup>, at: int) returns (tail: seq<OrderState>)
    ensures Coordinated(c, lookups, at).states == Classified(c, at).states + tail
    ensures forall o :: o in tail ==> o.reconciliation.Some? && !o.reconciliation.value.SubmitSent?
  {
    forall v | v in LookedUpValues(lookups) ensures AttemptsAt(lookups, v) != [] { ValuesHaveAttempts(lookups, v); }
    var start := Classified(c, at);
    var w := ResolveAll(LookedUpValues(lookups), lookups, at, start);
    ResolvedStates(LookedUpValues(lookups), lookups, at, start);
    tail := w.states[|start.states|..];
  }

  /** A pending workflow entry is never SUBMIT_SENT. */
  lemma PendingEntryState(c: Classification, lookups: seq<Lookup>, at: int, id: string)
    requires FindOrder(Coordinated(c, lookups, at).states, id).Some?
    requires IsPending(FindOrder(Coordinated(c, lookups, at).states, id).value)
    ensures var o := FindOrder(Coordinated(c, lookups, at).states, id).value;
      o.reconciliation.Some? && !o.reconciliation.value.SubmitSent?
  {
    var tail := LookedUpEntries(c, lookups, at);
    FindInConcat(Classified(c, at).states, tail, id);
    if FindOrder(tail, id).Some? { FoundHasId(tail, id); } else { ClassifiedEntries(c, at, id); }
  }

  lemma {:induction false} ResolvedStates(values: seq<string>, lookups: seq<Lookup>, at: int, start: Workflow)
    requires forall v :: v in values ==> AttemptsAt(lookups, v) != []
    ensures var w := ResolveAll(values, lookups, at, start);
      && |start.states| <= |w.states| && w.states[..|start.states|] == start.states
      && forall o :: o in w.states[|start.states|..] ==> o.reconciliation.Some? && !o.reconciliation.value.SubmitSent?
  {
    if values != [] {
      var front, v := values[..|values| - 1], values[|values| - 1];
      ResolvedStates(front, lookups, at, start);
      var w, r := ResolveAll(front, lookups, at, start), Resolve(v, AttemptsAt(lookups, v), at);
      var entry: OrderState := r.order.(reconciliation := Some(r.state));
      assert ResolveAll(values, lookups, at, start).states == w.states + [entry];
      TailGrows(w.states, entry, |start.states|);
    }
  }

  // ---------------------------------------------------------------- theorems

  ghost predicate PassedMutation(s: Snapshot, p: PortfolioState, input: GateInput, already: seq<string>) {
    Gated(s, p, input, already).Ok? && Gated(s, p, input, already).value.applied
  }

  lemma PassedDecision(p: PortfolioState, input: GateInput, already: seq<string>, w: Workflow)
    requires Decided(p, input, already, w).Ok? && Decided(p, input, already, w).value.applied
    ensures PendingIds(Merged(Orders(input.payloads), w.states)) == []
  {
  }

  lemma PassedHasNothingPending(s: Snapshot, p: PortfolioState, input: GateInput, already: seq<string>)
    requires PassedMutation(s, p, input, already)
    ensures input.payloads != []
    ensures PendingIds(Merged(Orders(input.payloads), Reconciled(s, CycleOf(input)).workflow.states)) == []
  {
    PassedDecision(p, input, already, Reconciled(s, CycleOf(input)).workflow);
  }

  lemma NothingPendingUnresolved(s: Snapshot, cycle: CycleInput, translated: seq<OrderState>, id: string)
    requires PendingIds(Merged(translated, Reconciled(s, cycle).workflow.states)) == []
    ensures id !in Reconciled(s, cycle).snapshot.unresolved
  {
    var r := Reconciled(s, cycle);
    UnresolvedExactly(s, cycle, id);
    if id in r.snapshot.unresolved {
      PendingEntryState(r.classification, r.lookups, cycle.coordinatedAt, id);
      PendingSurvivesMerge(translated, r.workflow.states, id);
    }
  }

  /** After a passed mutation no order is left unresolved on record, and none awaits manual attention. */
  lemma PassedLeavesNothingUnresolved(
    s: Snapshot, p: PortfolioState, input: GateInput, already: seq<string>, id: string)
    requires PassedMutation(s, p, input, already)
    ensures id !in GateSnapshot(s, input).unresolved
    ensures StoreInvariant(s) ==> id !in GateSnapshot(s, input).manual
  {
    PassedHasNothingPending(s, p, input, already);
    NothingPendingUnresolved(s, CycleOf(input), Orders(input.payloads), id);
    if StoreInvariant(s) { CycleKeepsStore(s, CycleOf(input)); }
  }

  /** Every order the cycle found missing or unknown was recovered by a terminal answer that carries its id. */
  lemma PassedMeansRecovered(s: Snapshot, p: PortfolioState, input: GateInput, already: seq<string>, id: string)
    requires PassedMutation(s, p, input, already)
    requires var c := Reconciled(s, CycleOf(input)).classification; id in c.missing || id in c.unknown
    ensures var r := Reconciled(s, CycleOf(input));
      && FindOrder(r.workflow.states, id).Some? && IsRecoveredEntry(FindOrder(r.workflow.states, id).value)
      && Carried(r.outcome.search.results, id)
  {
    var r := Reconciled(s, CycleOf(input));
    PassedLeavesNothingUnresolved(s, p, input, already, id);
    UnresolvedExactly(s, CycleOf(input), id);
    LastEntry(r.classification, r.lookups, input.coordinatedAt, id);
    StoreRenumbers(s, CycleOf(input));
    if Carried(r.lookups, id) { RenumberingKeepsCarriers(r.outcome.search.results, r.lookups, id); }
  }

  lemma {:induction false} UnconfirmedExactly(expected: seq<string>, orders: seq<OrderState>, fills: seq<Fill>)
    ensures forall id :: id in Unconfirmed(expected, orders, fills) <==>
      id in expected && !MentionsOrder(orders, fills, id)
  {
    if expected != [] {
      assert expected == expected[..|expected| - 1] + [expected[|expected| - 1]];
      UnconfirmedExactly(expected[..|expected| - 1], orders, fills);
    }
  }

  /**
   * A passed mutation had no malformed payload and a ready clock; if the stream was invalidated, every expected order
   * is mentioned by a translated order, a private fill, or a fill recovered by lookup.
   */
  lemma PassedMeansClean(s: Snapshot, p: PortfolioState, input: GateInput, already: seq<string>)
    requires PassedMutation(s, p, input, already)
    ensures !SomeMalformed(input.payloads) && (input.canSubmit ==> input.clockWithinTolerance)
    ensures Invalidated(input.payloads) ==> forall id :: id in input.expected ==>
      MentionsOrder(Orders(input.payloads),
        Fills(input.payloads) + Reconciled(s, CycleOf(input)).workflow.recoveredFills, id)
  {
    UnconfirmedExactly(input.expected, Orders(input.payloads),
      Fills(input.payloads) + Reconciled(s, CycleOf(input)).workflow.recoveredFills);
  }

  // ---------------------------------------- private confirmation after invalidation

  /** The last terminal answer at some looked-up value reports this fill. */
  ghost predicate AnswerReports(answers: seq<Lookup>, f: Fill) {
    exists v :: ReportsAt(answers, v, f)
  }

  predicate ReportsAt(answers: seq<Lookup>, v: string, f: Fill) {
    var last := LastTerminal(AttemptsAt(answers, v)); last.Some? && f in last.value.recoveredFills
  }

  lemma {:induction false} ResolvedFills(values: seq<string>, lookups: seq<Lookup>, at: int, start: Workflow, f: Fill)
    requires forall v :: v in values ==> AttemptsAt(lookups, v) != []
    ensures f in ResolveAll(values, lookups, at, start).recoveredFills <==>
      f in start.recoveredFills || exists v :: v in values && ReportsAt(lookups, v, f)
  {
    if values != [] {
      var front, last := values[..|values| - 1], values[|values| - 1];
      assert values == front + [last];
      ResolvedFills(front, lookups, at, start, f);
      assert f in Resolve(last, AttemptsAt(lookups, last), at).fills <==> ReportsAt(lookups, last, f);
    }
  }

  /** The recovered fills of a workflow are those that terminal answers report. */
  lemma RecoveredFillsExactly(c: Classification, lookups: seq<Lookup>, at: int, f: Fill)
    ensures f in Coordinated(c, lookups, at).recoveredFills <==> AnswerReports(lookups, f)
  {
    var values := LookedUpValues(lookups);
    forall v | v in values ensures AttemptsAt(lookups, v) != [] { ValuesHaveAttempts(lookups, v); }
    ResolvedFills(values, lookups, at, Classified(c, at), f);
    forall v | ReportsAt(lookups, v, f) ensures v in values { ValuesHaveAttempts(lookups, v); }
  }

  lemma {:induction false} RenumberedAttempts(results: seq<Lookup>, lookups: seq<Lookup>, v: string)
    requires Renumbered(results, lookups)
    ensures Renumbered(AttemptsAt(results, v), AttemptsAt(lookups, v))
  {
    if results != [] { RenumberedAttempts(results[..|results| - 1], lookups[..|lookups| - 1], v); }
  }

  lemma {:induction false} RenumberedTerminal(results: seq<Lookup>, lookups: seq<Lookup>)
    requires Renumbered(results, lookups)
    ensures LastTerminal(results).Some? <==> LastTerminal(lookups).Some?
    ensures LastTerminal(results).Some? ==>
      LastTerminal(results).value.recoveredFills == LastTerminal(lookups).value.recoveredFills
  {
    if results != [] { RenumberedTerminal(results[..|results| - 1], lookups[..|lookups| - 1]); }
  }

  /** A cycle's recovered fills are those the transport's terminal answers report. */
  lemma RecoveredFillsWereAnswered(s: Snapshot, cycle: CycleInput, f: Fill)
    ensures f in Reconciled(s, cycle).workflow.recoveredFills <==>
      AnswerReports(Reconciled(s, cycle).outcome.search.results, f)
  {
    var r := Reconciled(s, cycle);
    var results := r.outcome.search.results;
    StoreRenumbers(s, cycle);
    RecoveredFillsExactly(r.classification, r.lookups, cycle.coordinatedAt, f);
    forall v ensures ReportsAt(results, v, f) <==> ReportsAt(r.lookups, v, f) {
      RenumberedAttempts(results, r.lookups, v);
      RenumberedTerminal(AttemptsAt(results, v), AttemptsAt(r.lookups, v));
    }
  }

  predicate MentionedPrivately(input: GateInput, id: string) {
    MentionsOrder(Orders(input.payloads), Fills(input.payloads), id)
  }

  /** No terminal answer reports a fill of an expected order that no private payload mentions. */
  ghost predicate AnswersOnlyMentioned(input: GateInput, answers: seq<Lookup>) {
    forall f :: AnswerReports(answers, f) && f.orderId in input.expected ==> MentionedPrivately(input, f.orderId)
  }

  lemma MentionedOrRecovered(orders: seq<OrderState>, fills: seq<Fill>, recovered: seq<Fill>, id: string)
    requires MentionsOrder(orders, fills + recovered, id)
    ensures MentionsOrder(orders, fills, id) || exists f :: f in recovered && f.orderId == id
  {
    if i :| 0 <= i < |fills + recovered| && (fills + recovered)[i].orderId == id {
      assert if i < |fills| then fills[i].orderId == id else recovered[i - |fills|] in recovered;
    }
  }

  /**
   * After a passed mutation on an invalidated stream every expected order was mentioned privately exactly when no
   * terminal lookup answer reports a fill of an expected order that the private payloads do not mention.
   */
  lemma PrivatelyConfirmedExactly(s: Snapshot, p: PortfolioState, input: GateInput, already: seq<string>)
    requires PassedMutation(s, p, input, already) && Invalidated(input.payloads)
    ensures (forall id :: id in input.expected ==> MentionedPrivately(input, id))
       <==> AnswersOnlyMentioned(input, Reconciled(s, CycleOf(input)).outcome.search.results)
  {
    var r := Reconciled(s, CycleOf(input));
    var answers := r.outcome.search.results;
    PassedMeansClean(s, p, input, already);
    if AnswersOnlyMentioned(input, answers) {
      forall id | id in input.expected ensures MentionedPrivately(input, id) {
        if !MentionedPrivately(input, id) {
          MentionedOrRecovered(Orders(input.payloads), Fills(input.payloads), r.workflow.recoveredFills, id);
          var f :| f in r.workflow.recoveredFills && f.orderId == id;
          RecoveredFillsWereAnswered(s, CycleOf(input), f);
        }
      }
    }
  }

  lemma UnpassedDecision(p: PortfolioState, input: GateInput, already: seq<string>, w: Workflow)
    requires Decided(p, input, already, w).Ok? && !Decided(p, input, already, w).value.applied
    ensures Decided(p, input, already, w).value.portfolio == p
    ensures Decided(p, input, already, w).value.translation.appliedIds == []
  {
    if StopReason(input, w).None? { AllOrNothing(p, PassOf(input, already, w)); }
  }

  /** In every other outcome the portfolio is the one that was passed in and no fill id is reported applied. */
  lemma UnpassedChangesNothing(s: Snapshot, p: PortfolioState, input: GateInput, already: seq<string>)
    requires Gated(s, p, input, already).Ok? && !Gated(s, p, input, already).value.applied
    ensures Gated(s, p, input, already).value.portfolio == p
    ensures Gated(s, p, input, already).value.translation.appliedIds == []
  {
    if input.payloads != [] { UnpassedDecision(p, input, already, Reconciled(s, CycleOf(input)).workflow); }
  }

  /** A passed mutation posts exactly the fills the translator applied. */
  lemma PassedPostsItsPass(s: Snapshot, p: PortfolioState, input: GateInput, already: seq<string>)
    requires PassedMutation(s, p, input, already)
    ensures var g, pass := Gated(s, p, input, already).value,
      PassOf(input, already, Reconciled(s, CycleOf(input)).workflow);
      && g.translation.appliedIds == Ids(Assess(pass).applied)
      && Applied(QUOTE_ASSET, p, Assess(pass).applied) == Ok(g.portfolio)
  {
    AllOrNothing(p, PassOf(input, already, Reconciled(s, CycleOf(input)).workflow));
  }
}
