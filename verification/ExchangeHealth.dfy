/** `BinanceExchangeHealthService` of `app/monitoring/exchange_health.py`: component states and the overall state. */
module ExchangeHealth {
  import opened Collections
  import opened Contracts
  import opened LiveTranslation
  import opened Recovery
  import opened Coordinator
  import opened ReconciliationStore
  import opened Reconciliation
  import opened OrderTracking
  import opened PrivateStreamSession

  datatype HealthState = Healthy | Degraded | Fatal | Unknown

  /** The four components in the order the service aggregates them. */
  datatype ExchangeSnapshot = ExchangeSnapshot(
    overall: HealthState, stream: HealthState, reconciliation: HealthState, clock: HealthState,
    statusQuery: HealthState)

  predicate Announced(events: seq<ReconciliationEvent>, state: ReconciliationState) {
    exists i | 0 <= i < |events| :: events[i].state == state
  }

  /** `_private_stream_component` */
  function StreamComponent(h: Option<StreamHealth>): HealthState {
    if h.None? then Unknown
    else if h.value.state.Streaming? && h.value.authoritative then Healthy
    else if h.value.state.Terminated? then Fatal
    else HealthState.Degraded
  }

  /** `_reconciliation_component` */
  function ReconciliationComponent(w: Option<Workflow>, cursor: Option<Snapshot>): HealthState {
    var events := if w.Some? then w.value.events else [];
    if w.None? && cursor.None? then Unknown
    else if (cursor.Some? && cursor.value.manual != []) || Announced(events, UnreconciledManualAttention) then Fatal
    else if (cursor.Some? && (cursor.value.unresolved != [] || cursor.value.gapActive))
            || Announced(events, UnknownExecution) || Announced(events, StatusQueryPending) then HealthState.Degraded
    else Healthy
  }

  /** `_clock_component`: a status says whether the clock is certain and within tolerance. */
  function ClockComponent(ready: Option<bool>): HealthState {
    if ready.None? then Unknown else if ready.value then Healthy else Fatal
  }

  /** `_status_query_component`: only the latest query counts. */
  function StatusQueryComponent(queries: seq<QueryHealth>): HealthState {
    if queries == [] then Unknown
    else if queries[|queries| - 1].state.QuerySucceeded? then Healthy
    else HealthState.Degraded
  }

  /** `_overall_state` */
  function Overall(states: seq<HealthState>): HealthState {
    if Fatal in states then Fatal
    else if HealthState.Degraded in states then HealthState.Degraded
    else if forall s :: s in states ==> s == Unknown then Unknown
    else Healthy
  }

  function Combine(
    stream: HealthState, reconciliation: HealthState, clock: HealthState, statusQuery: HealthState): ExchangeSnapshot
  {
    ExchangeSnapshot(Overall([stream, reconciliation, clock, statusQuery]), stream, reconciliation, clock, statusQuery)
  }

  /** Fatal if any component is; healthy exactly if some component is and the others are healthy or unknown. */
  lemma OverallIsWorst(states: seq<HealthState>)
    ensures Overall(states).Fatal? <==> Fatal in states
    ensures Overall(states).Unknown? <==> forall s :: s in states ==> s.Unknown?
    ensures Overall(states).Healthy? <==> Healthy in states && forall s :: s in states ==> s.Healthy? || s.Unknown?
  {
    if Overall(states).Healthy? {
      var s :| s in states && s != Unknown;
      assert s.Healthy?;
    }
  }

  /** When each component is healthy, fatal or unknown; only the latest status query counts. */
  lemma ComponentsExactly(h: Option<StreamHealth>, ready: Option<bool>, queries: seq<QueryHealth>)
    ensures StreamComponent(h).Healthy? <==> h.Some? && h.value.authoritative && h.value.state.Streaming?
    ensures StreamComponent(h).Fatal? <==> h.Some? && h.value.state.Terminated?
    ensures StreamComponent(h).Unknown? <==> h.None?
    ensures ClockComponent(ready).Healthy? <==> ready == Some(true)
    ensures ClockComponent(ready).Fatal? <==> ready == Some(false)
    ensures StatusQueryComponent(queries).Healthy? <==>
      queries != [] && queries[|queries| - 1].state.QuerySucceeded?
    ensures StatusQueryComponent(queries).Unknown? <==> queries == []
    ensures !StatusQueryComponent(queries).Fatal?
  {
  }

  // ------------------------------------------------ health of a reconciliation cycle

  lemma {:induction false} AnnouncedAll(ids: seq<string>, state: ReconciliationState)
    ensures forall s :: Announced(Announce(ids, state), s) <==> ids != [] && s == state
  {
    if ids != [] {
      var n := |ids| - 1;
      AnnouncedAll(ids[..n], state);
      AnnouncedSplit(Announce(ids[..n], state), [ReconciliationEvent(ids[n], state)]);
      assert [ReconciliationEvent(ids[n], state)][0].state == state;
    }
  }

  lemma AnnouncedSplit(a: seq<ReconciliationEvent>, b: seq<ReconciliationEvent>)
    ensures forall s :: Announced(a + b, s) <==> Announced(a, s) || Announced(b, s)
  {
    forall s ensures Announced(a + b, s) <==> Announced(a, s) || Announced(b, s) {
      if Announced(a, s) {
        var i :| 0 <= i < |a| && a[i].state == s;
        assert (a + b)[i].state == s;
      }
      if Announced(b, s) {
        var i :| 0 <= i < |b| && b[i].state == s;
        assert (a + b)[|a| + i].state == s;
      }
      if Announced(a + b, s) {
        var i :| 0 <= i < |a + b| && (a + b)[i].state == s;
        if i < |a| { assert a[i].state == s; } else { assert b[i - |a|].state == s; }
      }
    }
  }

  lemma {:induction false} EventsGrow(
    values: seq<string>, lookups: seq<Lookup>, at: int, start: Workflow, state: ReconciliationState)
    requires forall v :: v in values ==> AttemptsAt(lookups, v) != []
    requires Announced(start.events, state)
    ensures Announced(ResolveAll(values, lookups, at, start).events, state)
  {
    if values != [] {
      var n := |values| - 1;
      EventsGrow(values[..n], lookups, at, start, state);
      var r := Resolve(values[n], AttemptsAt(lookups, values[n]), at);
      AnnouncedSplit(ResolveAll(values[..n], lookups, at, start).events, [ReconciliationEvent(values[n], r.state)]);
    }
  }

  /** A value that ends in manual attention is announced. */
  lemma {:induction false} ManualIsAnnounced(values: seq<string>, lookups: seq<Lookup>, at: int, start: Workflow)
    requires forall v :: v in values ==> AttemptsAt(lookups, v) != []
    requires start.summaries == []
    ensures var w := ResolveAll(values, lookups, at, start);
      && |w.summaries| == |values|
      && (SomeSummary(w.summaries, ManualAttention) ==> Announced(w.events, UnreconciledManualAttention))
  {
    if values != [] {
      var n := |values| - 1;
      ManualIsAnnounced(values[..n], lookups, at, start);
      var w, t := ResolveAll(values[..n], lookups, at, start), ResolveAll(values, lookups, at, start);
      var last := ReconciliationEvent(values[n], Resolve(values[n], AttemptsAt(lookups, values[n]), at).state);
      AnnouncedSplit(w.events, [last]);
      assert Announced([last], [last][0].state);
      SummaryAdded(w.summaries, t.summaries[n]);
    }
  }

  lemma SummaryAdded(summaries: seq<Summary>, last: Summary)
    ensures SomeSummary(summaries + [last], ManualAttention) ==>
      SomeSummary(summaries, ManualAttention) || last.convergence.ManualAttention?
  {
    var all := summaries + [last];
    if i :| 0 <= i < |all| && all[i].convergence == ManualAttention {
      assert if i < |summaries| then summaries[i] == all[i] else last == all[i];
    }
  }

  lemma ClassifiedAnnouncements(c: Classification, lookups: seq<Lookup>, at: int)
    ensures c.unknown != [] ==> Announced(Coordinated(c, lookups, at).events, UnknownExecution)
    ensures c.missing != [] ==> Announced(Coordinated(c, lookups, at).events, StatusQueryPending)
    ensures Coordinated(c, lookups, at).convergence.ManualAttention? ==>
      Announced(Coordinated(c, lookups, at).events, UnreconciledManualAttention)
  {
    var values, start := LookedUpValues(lookups), Classified(c, at);
    forall v | v in values ensures AttemptsAt(lookups, v) != [] { ValuesHaveAttempts(lookups, v); }
    AnnouncedAll(c.unknown, UnknownExecution);
    AnnouncedAll(c.missing, StatusQueryPending);
    AnnouncedSplit(Announce(c.unknown, UnknownExecution), Announce(c.missing, StatusQueryPending));
    if c.unknown != [] { EventsGrow(values, lookups, at, start, UnknownExecution); }
    if c.missing != [] { EventsGrow(values, lookups, at, start, StatusQueryPending); }
    ManualIsAnnounced(values, lookups, at, start);
  }

  function CycleHealth(r: CycleResult): HealthState {
    ReconciliationComponent(Some(r.workflow), Some(r.snapshot))
  }

  /** A cycle that ends in manual attention is reported fatal. */
  lemma ManualAttentionIsFatal(s: Snapshot, input: CycleInput)
    requires Reconciled(s, input).workflow.convergence.ManualAttention?
    ensures CycleHealth(Reconciled(s, input)).Fatal?
  {
    var r := Reconciled(s, input);
    ClassifiedAnnouncements(r.classification, r.lookups, input.coordinatedAt);
  }

  ghost predicate Calm(w: Workflow) {
    !Announced(w.events, UnreconciledManualAttention) && forall o :: o in w.states ==> !NeedsManualAttention(o)
  }

  /** Manual attention enters the workflow through a value that ends in it and in no other way. */
  lemma {:induction false} CalmUnlessManual(values: seq<string>, lookups: seq<Lookup>, at: int, start: Workflow)
    requires forall v :: v in values ==> AttemptsAt(lookups, v) != []
    requires Calm(start) && start.summaries == []
    ensures var w := ResolveAll(values, lookups, at, start);
      |w.summaries| == |values| && (SomeSummary(w.summaries, ManualAttention) || Calm(w))
  {
    if values != [] {
      var n := |values| - 1;
      CalmUnlessManual(values[..n], lookups, at, start);
      CalmNext(ResolveAll(values[..n], lookups, at, start), values[n], AttemptsAt(lookups, values[n]), at);
    }
  }

  lemma CalmNext(w: Workflow, v: string, attempts: seq<Lookup>, at: int)
    requires attempts != [] && (SomeSummary(w.summaries, ManualAttention) || Calm(w))
    ensures var next := AddResolution(w, v, |attempts|, Resolve(v, attempts, at));
      SomeSummary(next.summaries, ManualAttention) || Calm(next)
  {
    var r := Resolve(v, attempts, at);
    var next := AddResolution(w, v, |attempts|, r);
    if i :| 0 <= i < |w.summaries| && w.summaries[i].convergence == ManualAttention {
      assert next.summaries[i].convergence == ManualAttention;
    } else if r.convergence == ManualAttention {
      assert next.summaries[|w.summaries|].convergence == ManualAttention;
    } else {
      AnnouncedSplit(w.events, [ReconciliationEvent(v, r.state)]);
    }
  }

  lemma ClassifiedIsCalm(c: Classification, at: int)
    ensures Calm(Classified(c, at))
  {
    AnnouncedAll(c.unknown, UnknownExecution);
    AnnouncedAll(c.missing, StatusQueryPending);
    AnnouncedSplit(Announce(c.unknown, UnknownExecution), Announce(c.missing, StatusQueryPending));
    EntriesAreCalm(c.matched, x => MatchedEntry(x, at));
    EntriesAreCalm(c.unknown, x => UnknownEntry(x, at));
    EntriesAreCalm(c.missing, x => PendingEntry(x, at));
  }

  lemma {:induction false} EntriesAreCalm(ids: seq<string>, entry: string -> OrderState)
    requires forall x :: !NeedsManualAttention(entry(x))
    ensures forall o :: o in Entries(ids, entry) ==> !NeedsManualAttention(o)
  {
    if ids != [] { EntriesAreCalm(ids[..|ids| - 1], entry); }
  }

  lemma CoordinatedIsCalm(c: Classification, lookups: seq<Lookup>, at: int)
    ensures Coordinated(c, lookups, at).convergence.ManualAttention? || Calm(Coordinated(c, lookups, at))
  {
    forall v | v in LookedUpValues(lookups) ensures AttemptsAt(lookups, v) != [] { ValuesHaveAttempts(lookups, v); }
    ClassifiedIsCalm(c, at);
    CalmUnlessManual(LookedUpValues(lookups), lookups, at, Classified(c, at));
  }

  /** An id on the manual-attention list was put there by this very cycle. */
  lemma ManualIsNew(s: Snapshot, input: CycleInput, id: string)
    requires StoreInvariant(s) && id in Reconciled(s, input).snapshot.manual
    ensures !Calm(Reconciled(s, input).workflow)
  {
    var r := Reconciled(s, input);
    SortedSetFacts(ManualAfter(r.workflow.states, Elements(s.manual)));
    ManualByLastEntry(r.workflow.states, Elements(s.manual), id);
    LastEntry(r.classification, r.lookups, input.coordinatedAt, id);
    if id in s.manual { UnresolvedIsClassified(s, input, id); }
    FoundHasId(r.workflow.states, id);
  }

  /** A cycle is reported fatal exactly when it ends in manual attention: no earlier cycle's verdict lingers. */
  lemma FatalCycle(s: Snapshot, input: CycleInput)
    requires StoreInvariant(s)
    ensures var r := Reconciled(s, input); CycleHealth(r).Fatal? <==> r.workflow.convergence.ManualAttention?
  {
    var r := Reconciled(s, input);
    CoordinatedIsCalm(r.classification, r.lookups, input.coordinatedAt);
    if r.workflow.convergence.ManualAttention? { ManualAttentionIsFatal(s, input); }
    EmptyWithoutMembers(r.snapshot.manual);
    if r.snapshot.manual != [] { ManualIsNew(s, input, r.snapshot.manual[0]); }
  }

  lemma NothingUnresolved(s: Snapshot, input: CycleInput, id: string)
    requires var c := Reconciled(s, input).classification; c.missing == [] && c.unknown == []
    ensures id !in Reconciled(s, input).snapshot.unresolved
  {
    var r := Reconciled(s, input);
    NothingLookedUp(s, input);
    NoLookupsNoEntries(r.classification, r.lookups, input.coordinatedAt);
    ClassifiedEntries(r.classification, input.coordinatedAt, id);
    UnresolvedExactly(s, input, id);
  }

  lemma NothingUncertain(s: Snapshot, input: CycleInput)
    requires var c := Reconciled(s, input).classification; c.missing == [] && c.unknown == []
    ensures Reconciled(s, input).workflow.events == []
    ensures forall id :: id !in Reconciled(s, input).snapshot.unresolved
  {
    var r := Reconciled(s, input);
    NothingLookedUp(s, input);
    NoLookupsNoEntries(r.classification, r.lookups, input.coordinatedAt);
    forall id ensures id !in r.snapshot.unresolved { NothingUnresolved(s, input, id); }
  }

  lemma EmptyWithoutMembers(ids: seq<string>)
    ensures ids == [] || exists id :: id in ids
  {
    if ids != [] { assert ids[0] in ids; }
  }

  /**
   * A cycle is reported healthy exactly when it saw every expected and every formerly unresolved order, saw no other
   * order, and no gap was ever recorded.
   */
  lemma HealthyCycle(s: Snapshot, input: CycleInput)
    requires StoreInvariant(s)
    ensures var r := Reconciled(s, input);
      CycleHealth(r).Healthy? <==>
        r.classification.missing == [] && r.classification.unknown == [] && !r.snapshot.gapActive
  {
    var r := Reconciled(s, input);
    ClassifiedAnnouncements(r.classification, r.lookups, input.coordinatedAt);
    CycleKeepsStore(s, input);
    if r.classification.missing == [] && r.classification.unknown == [] {
      NothingUncertain(s, input);
      EmptyWithoutMembers(r.snapshot.unresolved);
      EmptyWithoutMembers(r.snapshot.manual);
    }
  }

  /** A cycle whose recovery completed is reported degraded. */
  lemma CompletedRecoveryIsDegraded(s: Snapshot, input: CycleInput)
    requires StoreInvariant(s) && Reconciled(s, input).workflow.convergence.ConvergedTerminal?
    ensures CycleHealth(Reconciled(s, input)).Degraded?
  {
    FatalCycle(s, input);
    HealthyCycle(s, input);
    ConvergenceOfCycle(s, input);
  }
}
