/** `BinanceReconciliationCoordinator.coordinate`: one workflow entry per order and per looked-up value. */
module Coordinator {
  import opened Collections
  import opened Contracts
  import opened OrderLifecycle
  import opened Recovery

  const MAX_RECOVERY_ATTEMPTS: nat := 3

  datatype Convergence = NotNeeded | Pending | ConvergedTerminal | ManualAttention

  datatype ReconciliationEvent = ReconciliationEvent(orderId: string, state: ReconciliationState)

  datatype Summary = Summary(orderId: string, attempts: nat, convergence: Convergence)

  datatype Workflow = Workflow(
    states: seq<OrderState>, recoveredFills: seq<Fill>, events: seq<ReconciliationEvent>, summaries: seq<Summary>,
    convergence: Convergence)

  // -------------------------------------------------------- workflow entries

  /** `_make_order_state`: an order of unknown shape. */
  function Stub(id: string, r: ReconciliationState, at: int): OrderState {
    OrderRecord("binance", id, id, "UNKNOWN", Buy, Market, New, 0.0, 0.0, 0.0, at, None, None, Some(r))
  }

  function MatchedEntry(id: string, at: int): OrderState {
    Acknowledge(Stub(id, SubmitSent, at), id, at)
  }

  function UnknownEntry(id: string, at: int): OrderState {
    MarkRecovering(Stub(id, UnknownExecution, at), at, UnknownExecution)
  }

  function PendingEntry(id: string, at: int): OrderState {
    MarkRecovering(Stub(id, StatusQueryPending, at), at, StatusQueryPending)
  }

  function StatusOf(l: Lookup): OrderStatus
    requires Terminal(l)
  {
    if l.status.value == "filled" then Filled
    else if l.status.value == "cancelled" then Canceled
    else if l.status.value == "rejected" then Rejected
    else Expired
  }

  /** The most recent terminal answer, if any. */
  function LastTerminal(attempts: seq<Lookup>): (r: Option<Lookup>)
    ensures r.Some? ==> Terminal(r.value) && r.value in attempts
    ensures r.None? ==> forall l :: l in attempts ==> !Terminal(l)
  {
    if attempts == [] then None
    else if Terminal(attempts[|attempts| - 1]) then Some(attempts[|attempts| - 1])
    else LastTerminal(attempts[..|attempts| - 1])
  }

  function AttemptsAt(lookups: seq<Lookup>, value: string): seq<Lookup> {
    if lookups == [] then []
    else
      var rest, l := AttemptsAt(lookups[..|lookups| - 1], value), lookups[|lookups| - 1];
      if l.value == value then rest + [l] else rest
  }

  function LookedUpValues(lookups: seq<Lookup>): seq<string> {
    if lookups == [] then []
    else
      var values, l := LookedUpValues(lookups[..|lookups| - 1]), lookups[|lookups| - 1];
      if l.value in values then values else values + [l.value]
  }

  /** The order a terminal answer resolves: the recovered one when it could be built, else the stub of the value. */
  function Resolved(value: string, l: Lookup, at: int): OrderState
    requires Terminal(l)
  {
    ResolveRecovery(if l.recoveredState.Some? then l.recoveredState.value else PendingEntry(value, at), StatusOf(l), at)
  }

  datatype Resolution = Resolution(
    order: OrderState, state: ReconciliationState, convergence: Convergence, fills: seq<Fill>)

  /** What the attempts at one value amount to. */
  function Resolve(value: string, attempts: seq<Lookup>, at: int): Resolution
    requires attempts != []
  {
    var base := PendingEntry(value, at);
    var terminal := LastTerminal(attempts);
    if terminal.Some? then
      Resolution(Resolved(value, terminal.value, at), RecoveredTerminalState, ConvergedTerminal,
        terminal.value.recoveredFills)
    else if attempts[|attempts| - 1].found then Resolution(base, StatusQueryPending, Pending, [])
    else if |attempts| >= MAX_RECOVERY_ATTEMPTS then
      Resolution(MarkUnreconciled(base, at), UnreconciledManualAttention, ManualAttention, [])
    else Resolution(base, StatusQueryPending, Pending, [])
  }

  // ------------------------------------------------------------- the workflow

  function Entries(ids: seq<string>, entry: string -> OrderState): seq<OrderState> {
    if ids == [] then [] else Entries(ids[..|ids| - 1], entry) + [entry(ids[|ids| - 1])]
  }

  function Announce(ids: seq<string>, r: ReconciliationState): seq<ReconciliationEvent> {
    if ids == [] then [] else Announce(ids[..|ids| - 1], r) + [ReconciliationEvent(ids[|ids| - 1], r)]
  }

  /** The workflow after the first `values` were resolved; `start` holds the classified orders. */
  function ResolveAll(values: seq<string>, lookups: seq<Lookup>, at: int, start: Workflow): Workflow
    requires forall v :: v in values ==> AttemptsAt(lookups, v) != []
  {
    if values == [] then start
    else
      var w, v := ResolveAll(values[..|values| - 1], lookups, at, start), values[|values| - 1];
      AddResolution(w, v, |AttemptsAt(lookups, v)|, Resolve(v, AttemptsAt(lookups, v), at))
  }

  function AddResolution(w: Workflow, value: string, attempts: nat, r: Resolution): Workflow {
    var entry: OrderState := r.order.(reconciliation := Some(r.state));
    Workflow(
      w.states + [entry],
      w.recoveredFills + r.fills,
      w.events + [ReconciliationEvent(value, r.state)],
      w.summaries + [Summary(value, attempts, r.convergence)],
      w.convergence)
  }

  predicate SomeSummary(summaries: seq<Summary>, c: Convergence) {
    exists i | 0 <= i < |summaries| :: summaries[i].convergence == c
  }

  function Converge(summaries: seq<Summary>): Convergence {
    if summaries == [] then NotNeeded
    else if SomeSummary(summaries, ManualAttention) then ManualAttention
    else if SomeSummary(summaries, Pending) then Pending
    else ConvergedTerminal
  }

  function Classified(c: Classification, at: int): Workflow {
    Workflow(
      Entries(c.matched, id => MatchedEntry(id, at)) + Entries(c.unknown, id => UnknownEntry(id, at))
        + Entries(c.missing, id => PendingEntry(id, at)),
      [],
      Announce(c.unknown, UnknownExecution) + Announce(c.missing, StatusQueryPending),
      [], NotNeeded)
  }

  lemma {:induction false} ValuesHaveAttempts(lookups: seq<Lookup>, v: string)
    ensures v in LookedUpValues(lookups) <==> AttemptsAt(lookups, v) != []
    ensures forall l :: l in AttemptsAt(lookups, v) <==> l in lookups && l.value == v
    ensures NoDup(LookedUpValues(lookups))
  {
    if lookups != [] {
      assert lookups == lookups[..|lookups| - 1] + [lookups[|lookups| - 1]];
      ValuesHaveAttempts(lookups[..|lookups| - 1], v);
    }
  }

  /** What `coordinate` returns. */
  function Coordinated(c: Classification, lookups: seq<Lookup>, at: int): Workflow {
    forall v | v in LookedUpValues(lookups) ensures AttemptsAt(lookups, v) != [] { ValuesHaveAttempts(lookups, v); }
    var w := ResolveAll(LookedUpValues(lookups), lookups, at, Classified(c, at));
    w.(convergence := Converge(w.summaries))
  }

  method GroupLookups(lookups: seq<Lookup>) returns (values: seq<string>, attempts: map<string, seq<Lookup>>)
    ensures values == LookedUpValues(lookups)
    ensures forall v :: v in attempts <==> v in values
    ensures forall v :: v in attempts ==> attempts[v] == AttemptsAt(lookups, v) && attempts[v] != []
  {
    values, attempts := [], map[];
    for i := 0 to |lookups|
      invariant values == LookedUpValues(lookups[..i])
      invariant forall v :: v in attempts <==> v in values
      invariant forall v :: AttemptsAt(lookups[..i], v) == if v in attempts then attempts[v] else []
      invariant forall v :: v in attempts ==> attempts[v] != []
    {
      var l := lookups[i];
      assert lookups[..i + 1][..i] == lookups[..i];
      if l.value !in attempts {
        values := values + [l.value];
        attempts := attempts[l.value := []];
      }
      attempts := attempts[l.value := attempts[l.value] + [l]];
    }
    assert lookups[..|lookups|] == lookups;
  }

  method AddEntries(ids: seq<string>, entry: string -> OrderState, start: seq<OrderState>)
    returns (states: seq<OrderState>)
    ensures states == start + Entries(ids, entry)
  {
    states := start;
    for i := 0 to |ids|
      invariant states == start + Entries(ids[..i], entry)
    {
      assert ids[..i + 1][..i] == ids[..i];
      states := states + [entry(ids[i])];
    }
    assert ids[..|ids|] == ids;
  }

  method AddClassified(c: Classification, at: int) returns (w: Workflow)
    ensures w == Classified(c, at)
  {
    var states := AddEntries(c.matched, id => MatchedEntry(id, at), []);
    states := AddEntries(c.unknown, id => UnknownEntry(id, at), states);
    states := AddEntries(c.missing, id => PendingEntry(id, at), states);
    w := Workflow(states, [], Announce(c.unknown, UnknownExecution) + Announce(c.missing, StatusQueryPending), [],
      NotNeeded);
    assert [] + Entries(c.matched, id => MatchedEntry(id, at)) == Entries(c.matched, id => MatchedEntry(id, at));
  }

  method AddResolutions(
    values: seq<string>, attempts: map<string, seq<Lookup>>, at: int, start: Workflow, ghost lookups: seq<Lookup>)
    returns (w: Workflow)
    requires forall v :: v in values ==> v in attempts && attempts[v] == AttemptsAt(lookups, v) && attempts[v] != []
    ensures w == ResolveAll(values, lookups, at, start)
  {
    w := start;
    for i := 0 to |values|
      invariant w == ResolveAll(values[..i], lookups, at, start)
    {
      assert values[..i + 1][..i] == values[..i];
      var v := values[i];
      w := AddResolution(w, v, |attempts[v]|, Resolve(v, attempts[v], at));
    }
    assert values[..|values|] == values;
  }

  method Coordinate(c: Classification, lookups: seq<Lookup>, at: int) returns (w: Workflow)
    ensures w == Coordinated(c, lookups, at)
  {
    var start := AddClassified(c, at);
    var values, attempts := GroupLookups(lookups);
    w := AddResolutions(values, attempts, at, start, lookups);
    w := w.(convergence := Converge(w.summaries));
  }
}
