/** No order is forgotten: what every run of reconciliation cycles keeps in the persistent state. */
module OrderTracking {
  import opened Collections
  import opened Contracts
  import opened LiveTranslation
  import opened Recovery
  import opened RecoveryBounds
  import opened Coordinator
  import opened ReconciliationStore
  import opened ReplaySafety
  import opened Reconciliation
  import opened Runs

  // ------------------------------------------------ the last entry decides

  lemma {:induction false} UnresolvedByLastEntry(states: seq<OrderState>, before: set<string>, id: string)
    ensures id in UnresolvedAfter(states, before) <==>
      match FindOrder(states, id) case Some(o) => IsPending(o) case None => id in before
  {
    if states != [] { UnresolvedByLastEntry(states[..|states| - 1], before, id); }
  }

  lemma {:induction false} ManualByLastEntry(states: seq<OrderState>, before: set<string>, id: string)
    ensures id in ManualAfter(states, before) <==>
      match FindOrder(states, id) case Some(o) => NeedsManualAttention(o) case None => id in before
  {
    if states != [] { ManualByLastEntry(states[..|states| - 1], before, id); }
  }

  lemma {:induction false} FindInConcat(a: seq<OrderState>, b: seq<OrderState>, id: string)
    ensures FindOrder(a + b, id) == if FindOrder(b, id).Some? then FindOrder(b, id) else FindOrder(a, id)
  {
    if b == [] {
      assert a + b == a;
    } else {
      assert (a + b)[..|a + b| - 1] == a + b[..|b| - 1];
      FindInConcat(a, b[..|b| - 1], id);
    }
  }

  lemma {:induction false} FindEntry(ids: seq<string>, entry: string -> OrderState, id: string)
    requires forall x :: entry(x).orderId == x
    ensures FindOrder(Entries(ids, entry), id) == if id in ids then Some(entry(id)) else None
  {
    if ids != [] {
      assert ids == ids[..|ids| - 1] + [ids[|ids| - 1]];
      FindEntry(ids[..|ids| - 1], entry, id);
    }
  }

  /** A terminal answer whose resolved order carries this id. */
  predicate Carries(l: Lookup, id: string) {
    Terminal(l) && (if l.recoveredState.Some? then l.recoveredState.value.orderId else l.value) == id
  }

  ghost predicate Carried(lookups: seq<Lookup>, id: string) {
    exists l :: l in lookups && Carries(l, id)
  }

  /** The entry a carrying answer leaves. */
  predicate IsRecoveredEntry(o: OrderState) {
    o.reconciliation == Some(RecoveredTerminalState) && TerminalStatus(o.status)
  }

  /** Entries of looked-up values are pending, or recovered by a terminal answer that carries their id. */
  lemma {:induction false} ResolvedEntries(
    values: seq<string>, lookups: seq<Lookup>, at: int, start: Workflow, id: string)
    requires forall v :: v in values ==> AttemptsAt(lookups, v) != []
    ensures var w := ResolveAll(values, lookups, at, start);
      && |start.states| <= |w.states| && w.states[..|start.states|] == start.states
      && (FindOrder(w.states[|start.states|..], id).Some? ==>
            var o := FindOrder(w.states[|start.states|..], id).value;
            IsPending(o) || (IsRecoveredEntry(o) && Carried(lookups, id)))
  {
    if values != [] {
      var front, v := values[..|values| - 1], values[|values| - 1];
      assert values == front + [v];
      ResolvedEntries(front, lookups, at, start, id);
      ResolvedEntry(v, lookups, at);
      var w := ResolveAll(front, lookups, at, start);
      var r := Resolve(v, AttemptsAt(lookups, v), at);
      var o: OrderState := r.order.(reconciliation := Some(r.state));
      assert ResolveAll(values, lookups, at, start).states == w.states + [o];
      TailGrows(w.states, o, |start.states|);
      FindInConcat(w.states[|start.states|..], [o], id);
      assert [o][..0] == [];
    }
  }

  lemma ResolvedEntry(v: string, lookups: seq<Lookup>, at: int)
    requires AttemptsAt(lookups, v) != []
    ensures var r := Resolve(v, AttemptsAt(lookups, v), at);
      var o: OrderState := r.order.(reconciliation := Some(r.state));
      IsPending(o) || (IsRecoveredEntry(o) && Carried(lookups, o.orderId))
  {
    ValuesHaveAttempts(lookups, v);
    var terminal := LastTerminal(AttemptsAt(lookups, v));
    if terminal.Some? {
      assert terminal.value in lookups && terminal.value.value == v;
      assert Carries(terminal.value, Resolved(v, terminal.value, at).orderId);
    }
  }

  /** The classified orders enter the workflow as matched, then unknown, then missing. */
  lemma ClassifiedEntries(c: Classification, at: int, id: string)
    ensures FindOrder(Classified(c, at).states, id) ==
      if id in c.missing then Some(PendingEntry(id, at))
      else if id in c.unknown then Some(UnknownEntry(id, at))
      else if id in c.matched then Some(MatchedEntry(id, at))
      else None
  {
    var m, u, p := Entries(c.matched, x => MatchedEntry(x, at)), Entries(c.unknown, x => UnknownEntry(x, at)),
                   Entries(c.missing, x => PendingEntry(x, at));
    FindEntry(c.matched, x => MatchedEntry(x, at), id);
    FindEntry(c.unknown, x => UnknownEntry(x, at), id);
    FindEntry(c.missing, x => PendingEntry(x, at), id);
    FindInConcat(m + u, p, id);
    FindInConcat(m, u, id);
    assert Classified(c, at).states == m + u + p;
  }

  /** The last workflow entry of an id: pending, or matched, or recovered by a terminal answer that carries the id. */
  lemma LastEntry(c: Classification, lookups: seq<Lookup>, at: int, id: string)
    ensures var last := FindOrder(Coordinated(c, lookups, at).states, id);
      && (last.None? ==> id !in c.matched && id !in c.missing && id !in c.unknown)
      && (last.Some? ==>
            || IsPending(last.value)
            || (IsRecoveredEntry(last.value) && Carried(lookups, id))
            || (id in c.matched && id !in c.missing && id !in c.unknown && last.value == MatchedEntry(id, at)))
  {
    forall v | v in LookedUpValues(lookups) ensures AttemptsAt(lookups, v) != [] { ValuesHaveAttempts(lookups, v); }
    var start := Classified(c, at);
    var w := ResolveAll(LookedUpValues(lookups), lookups, at, start);
    ResolvedEntries(LookedUpValues(lookups), lookups, at, start, id);
    assert w.states == start.states + w.states[|start.states|..];
    FindInConcat(start.states, w.states[|start.states|..], id);
    ClassifiedEntries(c, at, id);
  }

  // ------------------------------------------------------------- one cycle

  /** The cycle saw a private event of this expected order, or a terminal answer that carries its id. */
  ghost predicate Settles(s: Snapshot, input: CycleInput, id: string) {
    id in Reconciled(s, input).classification.matched || Carried(Reconciled(s, input).outcome.search.results, id)
  }

  ghost predicate Uncertain(s: Snapshot, input: CycleInput, id: string) {
    id in s.unresolved || id in Reconciled(s, input).classification.missing
      || id in Reconciled(s, input).classification.unknown
  }

  /** The two lists differ in attempt numbers only. */
  ghost predicate Renumbered(results: seq<Lookup>, lookups: seq<Lookup>) {
    |results| == |lookups| && forall i :: 0 <= i < |results| ==>
      lookups[i] == results[i].(attempt := lookups[i].attempt)
  }

  lemma StoreRenumbers(s: Snapshot, input: CycleInput)
    ensures Renumbered(Reconciled(s, input).outcome.search.results, Reconciled(s, input).lookups)
  {
    OnRecord(s.attempts, Reconciled(s, input).outcome.search.results, input.cursor, input.at);
  }

  lemma RenumberingKeepsCarriers(results: seq<Lookup>, lookups: seq<Lookup>, id: string)
    requires Renumbered(results, lookups) && Carried(lookups, id)
    ensures Carried(results, id)
  {
    var l :| l in lookups && Carries(l, id);
    var i :| 0 <= i < |lookups| && lookups[i] == l;
    assert results[i] in results && Carries(results[i], id);
  }

  /** Every id left unresolved by an earlier cycle is classified by the next one. */
  lemma UnresolvedIsClassified(s: Snapshot, input: CycleInput, id: string)
    requires id in s.unresolved
    ensures id in Reconciled(s, input).classification.matched || id in Reconciled(s, input).classification.missing
  {
    var expected, events := Distinct(input.expected + s.unresolved), OrderEvents(input.payloads);
    DistinctMembers(input.expected + s.unresolved);
    assert id in input.expected + s.unresolved;
    SeenSplit(expected, events, true);
    SeenSplit(expected, events, false);
  }

  /** After a cycle an id is unresolved exactly when its last workflow entry is pending. */
  lemma UnresolvedExactly(s: Snapshot, input: CycleInput, id: string)
    ensures id in Reconciled(s, input).snapshot.unresolved <==>
      FindOrder(Reconciled(s, input).workflow.states, id).Some?
        && IsPending(FindOrder(Reconciled(s, input).workflow.states, id).value)
  {
    SortedSetFacts(UnresolvedAfter(Reconciled(s, input).workflow.states, Elements(s.unresolved)));
    UnresolvedByLastEntry(Reconciled(s, input).workflow.states, Elements(s.unresolved), id);
    LastEntry(Reconciled(s, input).classification, Reconciled(s, input).lookups, input.coordinatedAt, id);
    if id in s.unresolved { UnresolvedIsClassified(s, input, id); }
  }

  /** An uncertain order stays on record unless this very cycle settled it. */
  lemma NoOrderForgotten(s: Snapshot, input: CycleInput, id: string)
    requires Uncertain(s, input, id) && !Settles(s, input, id)
    ensures id in Reconciled(s, input).snapshot.unresolved
  {
    if id in s.unresolved { UnresolvedIsClassified(s, input, id); }
    LastEntry(Reconciled(s, input).classification, Reconciled(s, input).lookups, input.coordinatedAt, id);
    StoreRenumbers(s, input);
    if Carried(Reconciled(s, input).lookups, id) {
      RenumberingKeepsCarriers(Reconciled(s, input).outcome.search.results, Reconciled(s, input).lookups, id);
    }
    UnresolvedExactly(s, input, id);
  }

  // ------------------------------------------------------------ whole runs

  ghost function Settling(id: string): (Snapshot, CycleInput) -> bool {
    (s: Snapshot, input: CycleInput) => Settles(s, input, id)
  }

  ghost function OnFile(id: string): Snapshot -> bool {
    (s: Snapshot) => id in s.unresolved
  }

  lemma OnFileUntilSettled(id: string)
    ensures forall s, input :: OnFile(id)(s) && !Settling(id)(s, input) ==> OnFile(id)(CycleStep(s, input))
  {
    forall s, input | OnFile(id)(s) && !Settling(id)(s, input) ensures OnFile(id)(CycleStep(s, input)) {
      NoOrderForgotten(s, input, id);
    }
  }

  /** An order uncertain in some cycle of a run is on record at its end unless that or a later cycle settled it. */
  lemma TrackedUntilSettled(s: Snapshot, inputs: seq<CycleInput>, k: nat, id: string)
    requires k < |inputs| && Uncertain(Iterate(CycleStep, s, inputs[..k]), inputs[k], id)
    requires !SometimeSince(CycleStep, Settling(id), s, inputs, k)
    ensures OnFile(id)(Iterate(CycleStep, s, inputs))
  {
    OnFileUntilSettled(id);
    NoEarlierEvent(CycleStep, Settling(id), s, inputs, k);
    NoOrderForgotten(Iterate(CycleStep, s, inputs[..k]), inputs[k], id);
    HoldsUntilEvent(CycleStep, Settling(id), OnFile(id), s, inputs, k);
  }

  ghost predicate StoreInvariant(s: Snapshot) {
    && (forall id :: id in s.manual ==> id in s.unresolved)
    && StrictlySorted(s.unresolved) && StrictlySorted(s.manual)
    && Numbered(s.attempts)
  }

  lemma CycleKeepsStore(s: Snapshot, input: CycleInput)
    requires StoreInvariant(s)
    ensures StoreInvariant(Reconciled(s, input).snapshot)
  {
    RegistrationKeepsNumbering(s.attempts, Reconciled(s, input).outcome.search.results, input.cursor, input.at);
    var t, states := Reconciled(s, input).snapshot, Reconciled(s, input).workflow.states;
    SortedSetFacts(UnresolvedAfter(states, Elements(s.unresolved)));
    SortedSetFacts(ManualAfter(states, Elements(s.manual)));
    forall id | id in t.manual ensures id in t.unresolved {
      ManualByLastEntry(states, Elements(s.manual), id);
      UnresolvedByLastEntry(states, Elements(s.unresolved), id);
    }
  }

  /**
   * Over every run from the empty state: manual-attention ids are unresolved ids, both lists are sorted and
   * duplicate-free, and attempts are numbered 1, 2, 3, ... per field and value under unique fingerprints.
   */
  lemma StoreOverRuns(inputs: seq<CycleInput>)
    ensures StoreInvariant(Iterate(CycleStep, EmptySnapshot(), inputs))
  {
    var inv := (s: Snapshot) => StoreInvariant(s);
    forall s: Snapshot, input: CycleInput | inv(s) ensures inv(CycleStep(s, input)) { CycleKeepsStore(s, input); }
    InvariantOverRun(CycleStep, inv, EmptySnapshot(), inputs);
  }

  function HadGap(): (Snapshot, CycleInput) -> bool { (s: Snapshot, input: CycleInput) => input.hasGap }

  /** Over every run from the empty state the gap flag is up exactly when some cycle so far had a gap. */
  lemma {:induction false} GapOverRuns(inputs: seq<CycleInput>)
    ensures Iterate(CycleStep, EmptySnapshot(), inputs).gapActive
       <==> SometimeSince(CycleStep, HadGap(), EmptySnapshot(), inputs, 0)
  {
    var flag := (s: Snapshot) => s.gapActive;
    forall s: Snapshot, input: CycleInput ensures flag(CycleStep(s, input)) <==> flag(s) || HadGap()(s, input) {
      CycleKeepsGap(s, input);
    }
    FlagRecordsEvents(CycleStep, HadGap(), flag, EmptySnapshot(), inputs);
  }

  lemma CycleKeepsGap(s: Snapshot, input: CycleInput)
    ensures Reconciled(s, input).snapshot.gapActive == (input.hasGap || s.gapActive)
  {
  }

  /** The causes of a cycle: a gap now or on record, unresolved orders from before, then what its events show. */
  lemma CycleTrigger(s: Snapshot, input: CycleInput)
    ensures var r := Reconciled(s, input);
      && r.plan.gap == (input.hasGap || s.gapActive) && r.plan.resumed == (s.unresolved != [])
      && r.plan.trigger ==
           if input.hasGap || s.gapActive then PrivateStreamGap else if s.unresolved != [] then RestartResume
           else if r.classification.unknown != [] then UnknownExecutionSeen
           else if r.classification.missing != [] then MissingPrivateUpdates else NotRequired
  {
  }

  /** What a cycle records beside the orders: a cursor only if it is not empty, and when it last needed an operator. */
  lemma CycleRecords(s: Snapshot, input: CycleInput)
    ensures var r := Reconciled(s, input);
      && r.snapshot.updatedAt == Some(input.at)
      && r.snapshot.cursor == (if input.cursor.Some? && input.cursor.value != "" then input.cursor else s.cursor)
      && r.snapshot.lastConvergence == Some(r.workflow.convergence)
      && r.snapshot.lastTrigger == Some(r.plan.trigger) && r.snapshot.lastAutomatic == r.plan.automatic
      && r.snapshot.lastManualAt == if r.workflow.convergence.ManualAttention? then Some(input.at) else s.lastManualAt
  {
  }

  // --------------------------------------------------- convergence of a cycle

  lemma {:induction false} SummaryPerValue(values: seq<string>, lookups: seq<Lookup>, at: int, start: Workflow)
    requires forall v :: v in values ==> AttemptsAt(lookups, v) != []
    ensures var w := ResolveAll(values, lookups, at, start);
      && |w.summaries| == |start.summaries| + |values|
      && forall i :: 0 <= i < |values| ==>
           w.summaries[|start.summaries| + i].convergence
             == Resolve(values[i], AttemptsAt(lookups, values[i]), at).convergence
  {
    if values != [] {
      var front := values[..|values| - 1];
      assert values == front + [values[|values| - 1]];
      SummaryPerValue(front, lookups, at, start);
      forall i | 0 <= i < |front| ensures values[i] == front[i] {}
    }
  }

  lemma SummariesOfWorkflow(c: Classification, lookups: seq<Lookup>, at: int)
    ensures |Coordinated(c, lookups, at).summaries| == |LookedUpValues(lookups)|
    ensures forall i :: 0 <= i < |LookedUpValues(lookups)| ==>
      && AttemptsAt(lookups, LookedUpValues(lookups)[i]) != []
      && Coordinated(c, lookups, at).summaries[i].convergence
         == Resolve(LookedUpValues(lookups)[i], AttemptsAt(lookups, LookedUpValues(lookups)[i]), at).convergence
  {
    forall v | v in LookedUpValues(lookups) ensures AttemptsAt(lookups, v) != [] { ValuesHaveAttempts(lookups, v); }
    SummaryPerValue(LookedUpValues(lookups), lookups, at, Classified(c, at));
  }

  ghost predicate Mirrors(summaries: seq<Summary>, lookups: seq<Lookup>, values: seq<string>) {
    && |summaries| == |values|
    && forall i :: 0 <= i < |summaries| ==>
         !summaries[i].convergence.NotNeeded?
           && (summaries[i].convergence.ConvergedTerminal? <==> AnsweredAt(lookups, values[i]))
  }

  lemma SummariesMirror(c: Classification, lookups: seq<Lookup>, at: int)
    ensures Mirrors(Coordinated(c, lookups, at).summaries, lookups, LookedUpValues(lookups))
  {
    SummariesOfWorkflow(c, lookups, at);
    forall i | 0 <= i < |LookedUpValues(lookups)| ensures ValueConverges(lookups, LookedUpValues(lookups)[i], at) {
      ConvergenceOfValue(lookups, LookedUpValues(lookups)[i], at);
    }
  }

  lemma ConvergenceOfLookups(c: Classification, lookups: seq<Lookup>, at: int)
    ensures var convergence := Coordinated(c, lookups, at).convergence;
      && (convergence.NotNeeded? <==> lookups == [])
      && (convergence.ConvergedTerminal? <==> lookups != [] && Answered(lookups))
  {
    SummariesMirror(c, lookups, at);
    MirroredConvergence(Coordinated(c, lookups, at).summaries, lookups);
  }

  lemma MirroredConvergence(summaries: seq<Summary>, lookups: seq<Lookup>)
    requires Mirrors(summaries, lookups, LookedUpValues(lookups))
    ensures Converge(summaries).NotNeeded? <==> lookups == []
    ensures Converge(summaries).ConvergedTerminal? <==> lookups != [] && Answered(lookups)
  {
    AnsweredEverywhere(lookups);
    ConvergenceOfSummaries(summaries);
  }

  ghost predicate ValueConverges(lookups: seq<Lookup>, v: string, at: int)
    requires AttemptsAt(lookups, v) != []
  {
    var c := Resolve(v, AttemptsAt(lookups, v), at).convergence;
    !c.NotNeeded? && (c.ConvergedTerminal? <==> AnsweredAt(lookups, v))
  }

  lemma ConvergenceOfValue(lookups: seq<Lookup>, v: string, at: int)
    requires AttemptsAt(lookups, v) != []
    ensures ValueConverges(lookups, v, at)
  {
    ValuesHaveAttempts(lookups, v);
    assert AttemptsAt(lookups, v)[0] in AttemptsAt(lookups, v);
    ValueAnswered(lookups, AttemptsAt(lookups, v)[0]);
  }

  lemma AnsweredEverywhere(lookups: seq<Lookup>)
    ensures var values := LookedUpValues(lookups);
      && (values == [] <==> lookups == [])
      && (Answered(lookups) <==> forall i :: 0 <= i < |values| ==> AnsweredAt(lookups, values[i]))
  {
    var values := LookedUpValues(lookups);
    forall l | l in lookups ensures l.value in values { ValueAnswered(lookups, l); }
    forall v | v in values ensures exists l :: l in lookups && l.value == v {
      ValuesHaveAttempts(lookups, v);
      assert AttemptsAt(lookups, v)[0] in AttemptsAt(lookups, v);
    }
    if lookups != [] { assert lookups[0] in lookups; }
    if values != [] { assert values[0] in values; }
    if Answered(lookups) {
      forall i | 0 <= i < |values| ensures AnsweredAt(lookups, values[i]) {
        assert values[i] in values;
      }
    }
  }

  lemma ConvergenceOfSummaries(summaries: seq<Summary>)
    requires forall i :: 0 <= i < |summaries| ==> !summaries[i].convergence.NotNeeded?
    ensures Converge(summaries).NotNeeded? <==> summaries == []
    ensures Converge(summaries).ConvergedTerminal? <==>
      summaries != [] && forall i :: 0 <= i < |summaries| ==> summaries[i].convergence.ConvergedTerminal?
  {
  }

  lemma ValueAnswered(lookups: seq<Lookup>, l: Lookup)
    requires l in lookups
    ensures l.value in LookedUpValues(lookups)
    ensures AnsweredAt(lookups, l.value) <==> LastTerminal(AttemptsAt(lookups, l.value)).Some?
  {
    ValuesHaveAttempts(lookups, l.value);
    assert l in AttemptsAt(lookups, l.value);
    if AnsweredAt(lookups, l.value) {
      var m :| m in lookups && m.value == l.value && Terminal(m);
      assert m in AttemptsAt(lookups, l.value);
    }
  }

  lemma RenumberingKeepsAnswered(results: seq<Lookup>, lookups: seq<Lookup>)
    requires Renumbered(results, lookups) && Answered(results)
    ensures Answered(lookups)
  {
    forall l | l in lookups ensures AnsweredAt(lookups, l.value) {
      var i :| 0 <= i < |lookups| && lookups[i] == l;
      assert results[i] in results;
      assert AnsweredAt(results, results[i].value);
      var m :| m in results && m.value == results[i].value && Terminal(m);
      var j :| 0 <= j < |results| && results[j] == m;
      assert lookups[j] in lookups && lookups[j].value == l.value && Terminal(lookups[j]);
    }
  }

  /**
   * Recovery is reported as not required exactly when nothing is missing or unknown; leaving the loop by the
   * all-terminal test means convergence; manual attention is only reported after all rounds were used.
   */
  lemma ConvergenceOfCycle(s: Snapshot, input: CycleInput)
    ensures var r := Reconciled(s, input);
      && (r.workflow.convergence.NotNeeded? <==> r.classification.missing == [] && r.classification.unknown == [])
      && (r.outcome.settled ==> r.workflow.convergence.ConvergedTerminal?)
      && (r.workflow.convergence.ManualAttention? ==>
        !r.outcome.settled && r.outcome.rounds == MAX_AUTOMATIC_RECOVERY_ROUNDS)
  {
    var plan, o := Reconciled(s, input).plan, Reconciled(s, input).outcome;
    var fallbacks := FallbackMap(Distinct(input.expected + s.unresolved), OrderEvents(input.payloads));
    AutomaticWhenNeeded(Distinct(input.expected + s.unresolved), OrderEvents(input.payloads), plan.gap, plan.resumed);
    LoopBound(plan, fallbacks, input.script);
    LoopAgreement(plan, fallbacks, input.script);
    StoreRenumbers(s, input);
    ConvergenceOfLookups(Reconciled(s, input).classification, Reconciled(s, input).lookups, input.coordinatedAt);
    SizeOfProduct(o.rounds, |plan.requests|);
    if o.settled {
      SettlesOnlyAutomatically(plan, fallbacks, input.script, RoundLimit(plan), 0, Search0());
      RenumberingKeepsAnswered(o.search.results, Reconciled(s, input).lookups);
    }
  }

  lemma {:induction false} SettlesOnlyAutomatically(
    plan: Plan, fallbacks: map<string, string>, script: Script, limit: nat, round: nat, s: Search)
    requires round <= limit
    ensures Rounds(plan, fallbacks, script, limit, round, s).settled ==> plan.automatic
    decreases limit - round
  {
    if round < limit {
      SettlesOnlyAutomatically(plan, fallbacks, script, limit, round + 1, Round(s, plan.requests, fallbacks, script));
    }
  }

  lemma SizeOfProduct(rounds: nat, size: nat)
    requires rounds >= 1
    ensures rounds * size == 0 <==> size == 0
  {
  }

  lemma NoLookupsNoEntries(c: Classification, lookups: seq<Lookup>, at: int)
    requires LookedUpValues(lookups) == []
    ensures Coordinated(c, lookups, at).events == Classified(c, at).events
    ensures Coordinated(c, lookups, at).states == Classified(c, at).states
  {
  }

  lemma NothingLookedUp(s: Snapshot, input: CycleInput)
    requires var c := Reconciled(s, input).classification; c.missing == [] && c.unknown == []
    ensures LookedUpValues(Reconciled(s, input).lookups) == []
  {
    ConvergenceOfCycle(s, input);
    ConvergenceOfLookups(Reconciled(s, input).classification, Reconciled(s, input).lookups, input.coordinatedAt);
  }
}
