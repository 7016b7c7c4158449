/** When a reconciliation cycle gives an order up to manual attention, and what a terminal answer makes of it. */
module Escalation {
  import opened Collections
  import opened Contracts
  import opened Recovery
  import opened RecoveryBounds
  import opened LookupAnswers
  import opened Coordinator
  import opened ReconciliationStore
  import opened Reconciliation
  import opened OrderTracking
  import opened ExchangeHealth

  // ---------------------------------------------------- attempts by position

  ghost predicate Increasing(indices: seq<nat>) {
    forall a, b :: 0 <= a < b < |indices| ==> indices[a] < indices[b]
  }

  /** These are the positions of the lookups at this value, in order. */
  ghost predicate PositionsOf(lookups: seq<Lookup>, v: string, indices: seq<nat>) {
    && Increasing(indices)
    && forall i: nat :: i in indices <==> i < |lookups| && lookups[i].value == v
  }

  lemma {:induction false} AttemptsByPosition(lookups: seq<Lookup>, v: string) returns (indices: seq<nat>)
    ensures PositionsOf(lookups, v, indices) && |indices| == |AttemptsAt(lookups, v)|
    ensures forall a :: 0 <= a < |indices| ==>
      indices[a] < |lookups| && AttemptsAt(lookups, v)[a] == lookups[indices[a]]
  {
    if lookups == [] {
      indices := [];
    } else {
      var n := |lookups| - 1;
      indices := AttemptsByPosition(lookups[..n], v);
      forall a | 0 <= a < |indices| ensures indices[a] < n { assert indices[a] in indices; }
      if lookups[n].value == v { indices := indices + [n]; }
    }
  }

  // ------------------------------------------------------ manual attention

  ghost predicate GivenUpAt(answers: seq<Lookup>, v: string, i: nat, j: nat, k: nat) {
    && i < j < k < |answers| && answers[i].value == answers[j].value == answers[k].value == v
    && (forall n :: k < n < |answers| ==> answers[n].value != v)
    && !answers[k].found
    && forall l :: l in answers && l.value == v ==> !Terminal(l)
  }

  /** The value was looked up at least three times, never with a terminal answer, and the last time not found. */
  ghost predicate GivenUp(answers: seq<Lookup>, v: string) {
    exists i: nat, j: nat, k: nat :: GivenUpAt(answers, v, i, j, k)
  }

  lemma ResolvedToManual(lookups: seq<Lookup>, v: string, at: int)
    requires AttemptsAt(lookups, v) != []
    ensures Resolve(v, AttemptsAt(lookups, v), at).convergence.ManualAttention? <==> GivenUp(lookups, v)
  {
    if i: nat, j: nat, k: nat :| GivenUpAt(lookups, v, i, j, k) { GivenUpIsManual(lookups, v, at, i, j, k); }
    if Resolve(v, AttemptsAt(lookups, v), at).convergence.ManualAttention? { ManualIsGivenUp(lookups, v, at); }
  }

  lemma GivenUpIsManual(lookups: seq<Lookup>, v: string, at: int, i: nat, j: nat, k: nat)
    requires AttemptsAt(lookups, v) != [] && GivenUpAt(lookups, v, i, j, k)
    ensures Resolve(v, AttemptsAt(lookups, v), at).convergence.ManualAttention?
  {
    var indices := AttemptsByPosition(lookups, v);
    ValuesHaveAttempts(lookups, v);
    GivenUpPositions(lookups, v, indices, i, j, k);
    assert LastTerminal(AttemptsAt(lookups, v)).None?;
  }

  lemma ManualIsGivenUp(lookups: seq<Lookup>, v: string, at: int)
    requires AttemptsAt(lookups, v) != []
    requires Resolve(v, AttemptsAt(lookups, v), at).convergence.ManualAttention?
    ensures GivenUp(lookups, v)
  {
    ValuesHaveAttempts(lookups, v);
    forall l | l in lookups && l.value == v ensures !Terminal(l) { assert l in AttemptsAt(lookups, v); }
    ThreeAttempts(lookups, v);
  }

  /** Three attempts without a terminal answer of which the last is not found. */
  lemma ThreeAttempts(lookups: seq<Lookup>, v: string)
    requires |AttemptsAt(lookups, v)| >= 3 && !AttemptsAt(lookups, v)[|AttemptsAt(lookups, v)| - 1].found
    requires forall l :: l in lookups && l.value == v ==> !Terminal(l)
    ensures GivenUp(lookups, v)
  {
    var indices := AttemptsByPosition(lookups, v);
    assert AttemptsAt(lookups, v)[|indices| - 1] == lookups[indices[|indices| - 1]];
    ThreePositions(lookups, v, indices);
  }

  lemma ThreePositions(lookups: seq<Lookup>, v: string, indices: seq<nat>)
    requires PositionsOf(lookups, v, indices) && |indices| >= 3
    requires indices[|indices| - 1] < |lookups| && !lookups[indices[|indices| - 1]].found
    requires forall l :: l in lookups && l.value == v ==> !Terminal(l)
    ensures GivenUp(lookups, v)
  {
    var n := |indices|;
    var i, j, k := indices[n - 3], indices[n - 2], indices[n - 1];
    assert i in indices && j in indices && k in indices;
    LastPosition(lookups, v, indices);
    assert GivenUpAt(lookups, v, i, j, k);
  }

  lemma LastPosition(lookups: seq<Lookup>, v: string, indices: seq<nat>)
    requires PositionsOf(lookups, v, indices) && indices != []
    ensures forall m :: indices[|indices| - 1] < m < |lookups| ==> lookups[m].value != v
  {
    LastIsGreatest(indices);
    forall m: nat | indices[|indices| - 1] < m < |lookups| ensures m !in indices {}
  }

  lemma LastIsGreatest(indices: seq<nat>)
    requires Increasing(indices) && indices != []
    ensures forall i :: i in indices ==> i <= indices[|indices| - 1]
  {
  }

  lemma GivenUpPositions(lookups: seq<Lookup>, v: string, indices: seq<nat>, i: nat, j: nat, k: nat)
    requires PositionsOf(lookups, v, indices) && GivenUpAt(lookups, v, i, j, k)
    ensures |indices| >= 3 && indices[|indices| - 1] == k
  {
    assert i in indices && j in indices && k in indices;
    var a :| 0 <= a < |indices| && indices[a] == i;
    var b :| 0 <= b < |indices| && indices[b] == j;
    var c :| 0 <= c < |indices| && indices[c] == k;
    assert a < b < c;
    assert indices[|indices| - 1] in indices;
  }

  lemma ManualOfLookups(c: Classification, lookups: seq<Lookup>, at: int)
    ensures Coordinated(c, lookups, at).convergence.ManualAttention? <==> exists v :: GivenUp(lookups, v)
  {
    var values, summaries := LookedUpValues(lookups), Coordinated(c, lookups, at).summaries;
    SummariesOfWorkflow(c, lookups, at);
    forall i | 0 <= i < |values|
      ensures summaries[i].convergence.ManualAttention? <==> GivenUp(lookups, values[i])
    {
      ResolvedToManual(lookups, values[i], at);
    }
    forall v | GivenUp(lookups, v) ensures v in values {
      var i: nat, j: nat, k: nat :| GivenUpAt(lookups, v, i, j, k);
      ValuesHaveAttempts(lookups, v);
      assert lookups[k] in AttemptsAt(lookups, v);
    }
    if v :| GivenUp(lookups, v) {
      var i :| 0 <= i < |values| && values[i] == v;
      assert summaries[i].convergence == ManualAttention;
    }
  }

  lemma RenumberedGivenUp(results: seq<Lookup>, lookups: seq<Lookup>, v: string)
    requires Renumbered(results, lookups)
    ensures GivenUp(results, v) <==> GivenUp(lookups, v)
  {
    forall n | 0 <= n < |results|
      ensures lookups[n].value == results[n].value && (Terminal(lookups[n]) <==> Terminal(results[n])) {}
    forall i: nat, j: nat, k: nat ensures GivenUpAt(results, v, i, j, k) <==> GivenUpAt(lookups, v, i, j, k) {}
  }

  /**
   * A cycle ends in manual attention exactly when some value was looked up at least three times in it, never with a
   * terminal answer, and the last time not found.
   */
  lemma ManualAttentionExactly(s: Snapshot, input: CycleInput)
    ensures Reconciled(s, input).workflow.convergence.ManualAttention?
       <==> exists v :: GivenUp(Reconciled(s, input).outcome.search.results, v)
  {
    var r := Reconciled(s, input);
    StoreRenumbers(s, input);
    ManualOfLookups(r.classification, r.lookups, input.coordinatedAt);
    forall v ensures GivenUp(r.outcome.search.results, v) <==> GivenUp(r.lookups, v) {
      RenumberedGivenUp(r.outcome.search.results, r.lookups, v);
    }
  }

  // ---------------------------------------- a transport that finds nothing

  /** Every lookup is answered at the value it asks for, and nothing is found. */
  ghost predicate FindsNothing(script: Script) {
    forall n: nat, field, value ::
      script(n, field, value).lookup.value == value && !script(n, field, value).lookup.found
  }

  lemma {:induction false} NothingFoundInRound(
    s: Search, asked: seq<Request>, fallbacks: map<string, string>, script: Script)
    requires FindsNothing(script) && forall l :: l in s.results ==> !l.found
    ensures forall l :: l in Round(s, asked, fallbacks, script).results ==> !l.found
  {
    if asked != [] {
      NothingFoundInRound(s, asked[..|asked| - 1], fallbacks, script);
      NothingFoundOnce(Round(s, asked[..|asked| - 1], fallbacks, script), asked[|asked| - 1], fallbacks, script);
    }
  }

  lemma NothingFoundOnce(s: Search, q: Request, fallbacks: map<string, string>, script: Script)
    requires FindsNothing(script) && forall l :: l in s.results ==> !l.found
    ensures forall l :: l in Ask(s, q, fallbacks, script).results ==> !l.found
  {
    var t := Ask(s, q, fallbacks, script);
    assert t.results == s.results + [t.results[|s.results|]];
  }

  lemma {:induction false} NothingFoundInRounds(
    plan: Plan, fallbacks: map<string, string>, script: Script, limit: nat, round: nat, s: Search)
    requires round <= limit && FindsNothing(script) && forall l :: l in s.results ==> !l.found
    ensures forall l :: l in Rounds(plan, fallbacks, script, limit, round, s).search.results ==> !l.found
    decreases limit - round
  {
    if round < limit {
      NothingFoundInRound(s, plan.requests, fallbacks, script);
      NothingFoundInRounds(plan, fallbacks, script, limit, round + 1, Round(s, plan.requests, fallbacks, script));
    }
  }

  /** Such a recovery uses all three rounds and finds nothing. */
  lemma NothingFound(plan: Plan, fallbacks: map<string, string>, script: Script)
    requires plan.automatic && plan.requests != [] && FindsNothing(script)
    ensures var o := Recovered(plan, fallbacks, script);
      && o.rounds == 3 && |o.search.results| == 3 * |plan.requests|
      && forall l :: l in o.search.results ==> !l.found
  {
    var o := Recovered(plan, fallbacks, script);
    NothingFoundInRounds(plan, fallbacks, script, RoundLimit(plan), 0, Search0());
    LoopBound(plan, fallbacks, script);
    LoopAgreement(plan, fallbacks, script);
    AtLeastOne(o.rounds, |plan.requests|);
    NothingAnswered(o.search.results);
  }

  lemma NothingAnswered(results: seq<Lookup>)
    requires results != [] && forall l :: l in results ==> !l.found
    ensures !Answered(results)
  {
    assert results[0] in results && !AnsweredAt(results, results[0].value);
  }

  lemma AtLeastOne(m: nat, n: nat)
    requires m >= 1 && n >= 1
    ensures m * n >= 1
  {
  }

  /** A request that is answered under the same value in every round. */
  lemma SteadyRequest(plan: Plan, fallbacks: map<string, string>, script: Script) returns (i: nat, v: string)
    requires plan.requests != [] && FindsNothing(script)
    ensures i < |plan.requests|
    ensures forall t :: SwitchedAsPlanned(t, plan.requests, fallbacks) ==>
      AnswersAs(v)(OnRecordAfter(t, plan.requests[i], fallbacks, script))
  {
    if c :| c in fallbacks && (CLIENT_FIELD, c) in plan.requests {
      i :| 0 <= i < |plan.requests| && plan.requests[i] == (CLIENT_FIELD, c);
      v := fallbacks[c];
      forall t | SwitchedAsPlanned(t, plan.requests, fallbacks)
        ensures AnswersAs(v)(OnRecordAfter(t, plan.requests[i], fallbacks, script)) {}
    } else {
      i, v := 0, plan.requests[0].1;
      assert plan.requests[0] in plan.requests;
      forall t | SwitchedAsPlanned(t, plan.requests, fallbacks)
        ensures AnswersAs(v)(OnRecordAfter(t, plan.requests[i], fallbacks, script))
      {
        assert v !in t.switched;
      }
    }
  }

  function AnswersAs(v: string): Lookup -> bool { (l: Lookup) => l.value == v }

  /** A value on record in each of three rounds, with nothing found, is given up. */
  lemma OnRecordThreeTimes(results: seq<Lookup>, size: nat, i: nat, v: string)
    requires i < size && |results| == 3 * size && forall l :: l in results ==> !l.found
    requires EveryRoundHolds(results, 0, 3, size, i, AnswersAs(v))
    ensures GivenUp(results, v)
  {
    assert RecordHolds(results, 0, 0, size, i, AnswersAs(v)) && RecordHolds(results, 0, 1, size, i, AnswersAs(v));
    assert RecordHolds(results, 0, 2, size, i, AnswersAs(v));
    var indices := AttemptsByPosition(results, v);
    assert i in indices && size + i in indices && 2 * size + i in indices;
    ThreeMembers(indices, i, size + i, 2 * size + i);
    var attempts := AttemptsAt(results, v);
    assert attempts[|attempts| - 1] == results[indices[|attempts| - 1]];
    assert results[indices[|attempts| - 1]] in results;
    ThreeAttempts(results, v);
  }

  lemma ThreeMembers(indices: seq<nat>, i: nat, j: nat, k: nat)
    requires i in indices && j in indices && k in indices && i < j < k
    ensures |indices| >= 3
  {
    var a :| 0 <= a < |indices| && indices[a] == i;
    var b :| 0 <= b < |indices| && indices[b] == j;
    var c :| 0 <= c < |indices| && indices[c] == k;
    assert a != b && b != c && a != c;
  }

  /**
   * If some order is missing or unknown and the transport finds nothing, the cycle ends in manual attention and is
   * reported fatal.
   */
  lemma NothingFoundIsEscalated(s: Snapshot, input: CycleInput)
    requires FindsNothing(input.script)
    requires var c := Reconciled(s, input).classification; c.missing != [] || c.unknown != []
    ensures Reconciled(s, input).workflow.convergence.ManualAttention?
    ensures CycleHealth(Reconciled(s, input)).Fatal?
  {
    var r := Reconciled(s, input);
    var expected, events := Distinct(input.expected + s.unresolved), OrderEvents(input.payloads);
    var fallbacks := FallbackMap(expected, events);
    AutomaticWhenNeeded(expected, events, input.hasGap || s.gapActive, s.unresolved != []);
    NothingFound(r.plan, fallbacks, input.script);
    var i, v := SteadyRequest(r.plan, fallbacks, input.script);
    RoundsRecord(r.plan, i, fallbacks, input.script, AnswersAs(v), RoundLimit(r.plan), 0, Search0());
    OnRecordThreeTimes(r.outcome.search.results, |r.plan.requests|, i, v);
    ManualAttentionExactly(s, input);
    ManualAttentionIsFatal(s, input);
  }

  // ------------------------------------- a transport that knows the orders

  /** The lookup is answered terminally, by itself or by the exchange id that the first such event offers. */
  ghost predicate ResolvableIn(script: Script, expected: seq<string>, events: seq<OrderEvent>, q: Request) {
    || AlwaysTerminal(script, q.0, q.1)
    || (q.0 == "client_order_id"
        && exists i: nat :: FirstOffer(expected, events, q.1, i)
             && AlwaysTerminal(script, "exchange_order_id", events[i].exchangeOrderId))
  }

  lemma SameExpectations(one: seq<string>, other: seq<string>, events: seq<OrderEvent>, q: Request, script: Script)
    requires forall id :: id in one <==> id in other
    ensures Needed(one, events, q) <==> Needed(other, events, q)
    ensures ResolvableIn(script, one, events, q) <==> ResolvableIn(script, other, events, q)
  {
    forall e ensures IsUnknown(one, e) <==> IsUnknown(other, e) {}
    forall i: nat ensures FirstOffer(one, events, q.1, i) <==> FirstOffer(other, events, q.1, i) {}
  }

  lemma ResolvableByFallback(script: Script, expected: seq<string>, events: seq<OrderEvent>, q: Request)
    requires ResolvableIn(script, expected, events, q) && Needed(expected, events, q)
    ensures Resolvable(script, FallbackMap(expected, events), q)
  {
    FallbacksExactly(expected, events);
    assert FallbackIs(expected, events, q.1, FallbackMap(expected, events));
  }

  /**
   * If something is missing or unknown and the transport gives a terminal answer to every lookup that is needed, or to
   * the exchange id that an event offers for it, the cycle converges in one round.
   */
  lemma ResolvableCycleConverges(s: Snapshot, input: CycleInput, needed: Request)
    requires Needed(input.expected + s.unresolved, OrderEvents(input.payloads), needed)
    requires forall q :: Needed(input.expected + s.unresolved, OrderEvents(input.payloads), q) ==>
      ResolvableIn(input.script, input.expected + s.unresolved, OrderEvents(input.payloads), q)
    ensures var r := Reconciled(s, input);
      r.outcome.rounds == 1 && r.outcome.settled && r.workflow.convergence.ConvergedTerminal?
  {
    var all, events := input.expected + s.unresolved, OrderEvents(input.payloads);
    var expected, r := Distinct(all), Reconciled(s, input);
    DistinctMembers(all);
    PlanAsksExactly(expected, events, input.hasGap || s.gapActive, s.unresolved != []);
    AutomaticWhenNeeded(expected, events, input.hasGap || s.gapActive, s.unresolved != []);
    SameExpectations(all, expected, events, needed, input.script);
    assert needed in r.plan.requests;
    forall q | q in r.plan.requests ensures Resolvable(input.script, FallbackMap(expected, events), q) {
      SameExpectations(all, expected, events, q, input.script);
      ResolvableByFallback(input.script, expected, events, q);
    }
    ResolvablePlanSettles(r.plan, FallbackMap(expected, events), input.script);
    ConvergenceOfCycle(s, input);
  }

  // ------------------------------------------------ what an answer decides

  /** The status that the answer states in words. */
  ghost predicate StatesStatus(l: Lookup, status: OrderStatus) {
    || (l.status == Some("filled") && status.Filled?)
    || (l.status == Some("cancelled") && status.Canceled?)
    || (l.status == Some("rejected") && status.Rejected?)
    || (l.status == Some("expired") && status.Expired?)
  }

  /** Answer `n` is the last found one at its value that states one of the four terminal statuses. */
  ghost predicate IsLastTerminalAt(lookups: seq<Lookup>, n: nat) {
    && n < |lookups| && lookups[n].found && (exists status :: StatesStatus(lookups[n], status))
    && forall m, status :: n < m < |lookups| && lookups[m].value == lookups[n].value && lookups[m].found ==>
         !StatesStatus(lookups[m], status)
  }

  /** The entry that this answer leaves: the recovered order, or one that only the value names. */
  ghost predicate EntryOf(l: Lookup, at: int, o: OrderState) {
    && StatesStatus(l, o.status) && o.reconciliation == Some(RecoveredTerminalState) && o.lastUpdate == at
    && if l.recoveredState.Some? then
         var known := l.recoveredState.value;
         o == known.(status := o.status, lastUpdate := at, reconciliation := Some(RecoveredTerminalState))
       else o.orderId == l.value && o.requested == o.filled == o.remaining == 0.0
  }

  lemma {:induction false} LastTerminalByPosition(lookups: seq<Lookup>, n: nat)
    requires IsLastTerminalAt(lookups, n)
    ensures LastTerminal(AttemptsAt(lookups, lookups[n].value)) == Some(lookups[n])
  {
    var last := |lookups| - 1;
    forall l ensures Terminal(l) <==> l.found && exists status :: StatesStatus(l, status) { TerminalStates(l); }
    if n < last {
      forall m, status | n < m < last && lookups[m].value == lookups[n].value && lookups[m].found
        ensures !StatesStatus(lookups[..last][m], status) {}
      LastTerminalByPosition(lookups[..last], n);
      var rest := AttemptsAt(lookups[..last], lookups[n].value);
      assert (rest + [lookups[last]])[..|rest|] == rest;
    }
  }

  lemma TerminalStates(l: Lookup)
    ensures Terminal(l) <==> l.found && exists status :: StatesStatus(l, status)
  {
    assert l.status == Some("filled") ==> StatesStatus(l, Filled);
    assert l.status == Some("cancelled") ==> StatesStatus(l, Canceled);
    assert l.status == Some("rejected") ==> StatesStatus(l, Rejected);
    assert l.status == Some("expired") ==> StatesStatus(l, OrderStatus.Expired);
  }

  lemma ResolvedByAnswer(lookups: seq<Lookup>, n: nat, at: int)
    requires IsLastTerminalAt(lookups, n)
    ensures AttemptsAt(lookups, lookups[n].value) != []
    ensures var r := Resolve(lookups[n].value, AttemptsAt(lookups, lookups[n].value), at);
      EntryOf(lookups[n], at, r.order.(reconciliation := Some(r.state)))
  {
    LastTerminalByPosition(lookups, n);
    TerminalStates(lookups[n]);
  }

  lemma {:induction false} EntriesOfValues(
    values: seq<string>, lookups: seq<Lookup>, at: int, start: Workflow, v: string)
    requires forall x :: x in values ==> AttemptsAt(lookups, x) != []
    requires v in values
    ensures var r := Resolve(v, AttemptsAt(lookups, v), at);
      r.order.(reconciliation := Some(r.state)) in ResolveAll(values, lookups, at, start).states
  {
    var front := values[..|values| - 1];
    assert values == front + [values[|values| - 1]];
    if v in front { EntriesOfValues(front, lookups, at, start, v); }
  }

  /**
   * The last terminal answer at a value enters the workflow: with the status that the answer states, and the recovered
   * order's quantities when the order could be rebuilt.
   */
  lemma TerminalAnswerDecides(c: Classification, lookups: seq<Lookup>, at: int, n: nat)
    requires IsLastTerminalAt(lookups, n)
    ensures exists o :: o in Coordinated(c, lookups, at).states && EntryOf(lookups[n], at, o)
  {
    var v := lookups[n].value;
    forall x | x in LookedUpValues(lookups) ensures AttemptsAt(lookups, x) != [] { ValuesHaveAttempts(lookups, x); }
    ResolvedByAnswer(lookups, n, at);
    ValuesHaveAttempts(lookups, v);
    EntriesOfValues(LookedUpValues(lookups), lookups, at, Classified(c, at), v);
  }

  // ------------------------------------------------------------- the events

  /** A value whose answers end in this state. */
  ghost predicate EndsIn(lookups: seq<Lookup>, v: string, state: ReconciliationState) {
    && (exists l :: l in lookups && l.value == v)
    && if AnsweredAt(lookups, v) then state.RecoveredTerminalState?
       else if GivenUp(lookups, v) then state.UnreconciledManualAttention? else state.StatusQueryPending?
  }

  lemma {:induction false} AnnouncedExactly(ids: seq<string>, state: ReconciliationState)
    ensures forall e :: e in Announce(ids, state) <==> e.orderId in ids && e.state == state
  {
    if ids != [] {
      assert ids == ids[..|ids| - 1] + [ids[|ids| - 1]];
      AnnouncedExactly(ids[..|ids| - 1], state);
    }
  }

  lemma {:induction false} ResolvedEvents(values: seq<string>, lookups: seq<Lookup>, at: int, start: Workflow)
    requires forall v :: v in values ==> AttemptsAt(lookups, v) != []
    ensures forall e :: e in ResolveAll(values, lookups, at, start).events <==>
      e in start.events || (e.orderId in values && EndsIn(lookups, e.orderId, e.state))
  {
    if values != [] {
      var front, v := values[..|values| - 1], values[|values| - 1];
      assert values == front + [v];
      ResolvedEvents(front, lookups, at, start);
      ResolvedEnd(lookups, v, at);
    }
  }

  lemma ResolvedEnd(lookups: seq<Lookup>, v: string, at: int)
    requires AttemptsAt(lookups, v) != []
    ensures forall state :: EndsIn(lookups, v, state) <==> state == Resolve(v, AttemptsAt(lookups, v), at).state
  {
    ValuesHaveAttempts(lookups, v);
    assert AttemptsAt(lookups, v)[0] in AttemptsAt(lookups, v);
    ValueAnswered(lookups, AttemptsAt(lookups, v)[0]);
    ResolvedToManual(lookups, v, at);
  }

  /**
   * The events of a cycle: unknown executions, missing orders, and for every value that was looked up how its lookups
   * ended.
   */
  lemma EventsExactly(c: Classification, lookups: seq<Lookup>, at: int)
    ensures forall e :: e in Coordinated(c, lookups, at).events <==>
      || (e.orderId in c.unknown && e.state.UnknownExecution?)
      || (e.orderId in c.missing && e.state.StatusQueryPending?)
      || EndsIn(lookups, e.orderId, e.state)
  {
    var values := LookedUpValues(lookups);
    forall v | v in values ensures AttemptsAt(lookups, v) != [] { ValuesHaveAttempts(lookups, v); }
    AnnouncedExactly(c.unknown, UnknownExecution);
    AnnouncedExactly(c.missing, StatusQueryPending);
    ResolvedEvents(values, lookups, at, Classified(c, at));
    forall l | l in lookups ensures l.value in values { ValueAnswered(lookups, l); }
  }

  // ------------------------------------------------- entries without an answer

  /** An entry that only its id names. */
  ghost predicate IsStub(o: OrderState, id: string, at: int) {
    && o.orderId == o.clientOrderId == id && o.instrumentId == "UNKNOWN" && o.lastUpdate == at
    && o.requested == o.filled == o.remaining == 0.0 && o.limitPrice.None? && o.averageFillPrice.None?
  }

  /** Matched, unknown and missing orders enter the workflow as stubs in these states. */
  lemma StubsExactly(id: string, at: int)
    ensures IsStub(MatchedEntry(id, at), id, at) && IsStub(UnknownEntry(id, at), id, at)
    ensures IsStub(PendingEntry(id, at), id, at)
    ensures MatchedEntry(id, at).status.Acknowledged? && MatchedEntry(id, at).reconciliation == Some(SubmitSent)
    ensures UnknownEntry(id, at).status.Recovering? && UnknownEntry(id, at).reconciliation == Some(UnknownExecution)
    ensures PendingEntry(id, at).status.Recovering? && PendingEntry(id, at).reconciliation == Some(StatusQueryPending)
  {
  }

  /** A value without a terminal answer leaves a stub: unreconciled if it was given up, else recovering. */
  lemma UnansweredEntry(c: Classification, lookups: seq<Lookup>, at: int, v: string)
    requires (exists l :: l in lookups && l.value == v) && !AnsweredAt(lookups, v)
    ensures exists o ::
      && o in Coordinated(c, lookups, at).states && IsStub(o, v, at)
      && if GivenUp(lookups, v)
         then o.status.Unreconciled? && o.reconciliation == Some(UnreconciledManualAttention)
         else o.status.Recovering? && o.reconciliation == Some(StatusQueryPending)
  {
    var l :| l in lookups && l.value == v;
    forall x | x in LookedUpValues(lookups) ensures AttemptsAt(lookups, x) != [] { ValuesHaveAttempts(lookups, x); }
    ValueAnswered(lookups, l);
    ResolvedToManual(lookups, v, at);
    EntriesOfValues(LookedUpValues(lookups), lookups, at, Classified(c, at), v);
  }
}
