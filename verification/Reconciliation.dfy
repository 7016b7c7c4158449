/** One transport-backed reconciliation cycle over the persistent state: `reconcile_with_transports`. */
module Reconciliation {
  import opened Collections
  import opened Contracts
  import opened Recovery
  import opened Coordinator
  import opened ReconciliationStore

  datatype EventFamily = OrderUpdate | AccountUpdate | StreamStatus

  datatype PayloadStatus = PayloadTranslated | PayloadIgnored | PayloadMalformed

  datatype Balance = Balance(asset: string, free: Option<real>, locked: Option<real>)

  datatype AccountSnapshot = AccountSnapshot(balances: seq<Balance>, isPartial: bool)

  datatype PayloadTranslation = PayloadTranslation(
    status: PayloadStatus, order: Option<OrderState>, fill: Option<Fill>, account: Option<AccountSnapshot>,
    invalidated: bool)

  /** A private payload after event normalization and canonical translation. */
  datatype Payload = Payload(family: EventFamily, event: OrderEvent, translation: PayloadTranslation)

  datatype CycleInput = CycleInput(
    expected: seq<string>, payloads: seq<Payload>, script: Script, cursor: Option<string>, hasGap: bool,
    at: int, coordinatedAt: int)

  datatype CycleResult = CycleResult(
    classification: Classification, plan: Plan, outcome: Outcome, lookups: seq<Lookup>, workflow: Workflow,
    snapshot: Snapshot)

  /** `events_for_reconciliation` */
  function OrderEvents(payloads: seq<Payload>): seq<OrderEvent> {
    if payloads == [] then []
    else
      var rest, p := OrderEvents(payloads[..|payloads| - 1]), payloads[|payloads| - 1];
      if p.family.OrderUpdate? then rest + [p.event] else rest
  }

  /** The whole cycle as a step over the persistent snapshot. */
  function Reconciled(s: Snapshot, input: CycleInput): CycleResult {
    var expected := Distinct(input.expected + s.unresolved);
    var events := OrderEvents(input.payloads);
    var classification := Classify(expected, events);
    var plan := PlanFor(classification, input.hasGap || s.gapActive, s.unresolved != []);
    var outcome := Recovered(plan, FallbackMap(expected, events), input.script);
    var registration := Registered(s.attempts, outcome.search.results, input.cursor, input.at);
    var workflow := Coordinated(classification, registration.lookups, input.coordinatedAt);
    CycleResult(classification, plan, outcome, registration.lookups, workflow,
      Persisted(AfterRegistration(s, outcome.search.results, input.cursor, input.at),
                Cycle(workflow, plan.trigger, plan.automatic, input.at, input.cursor, plan.gap)))
  }

  method SelectOrderEvents(payloads: seq<Payload>) returns (events: seq<OrderEvent>)
    ensures events == OrderEvents(payloads)
  {
    events := [];
    for i := 0 to |payloads|
      invariant events == OrderEvents(payloads[..i])
    {
      assert payloads[..i + 1][..i] == payloads[..i];
      if payloads[i].family.OrderUpdate? { events := events + [payloads[i].event]; }
    }
    assert payloads[..|payloads|] == payloads;
  }

  method ReconcileWithTransports(store: StateStore, input: CycleInput) returns (r: CycleResult)
    modifies store
    ensures r == Reconciled(old(store.snapshot), input)
    ensures store.snapshot == r.snapshot
  {
    var resume := store.snapshot;
    var expected := store.Resume(input.expected);
    var events := SelectOrderEvents(input.payloads);
    var classification := Classify(expected, events);
    var gap := input.hasGap || resume.gapActive;
    var plan := BuildPlan(classification, gap, resume.unresolved != []);
    var fallbacks := BuildFallbacks(expected, events);
    var outcome := RunRecovery(plan, fallbacks, input.script);
    var lookups := store.RegisterLookupResults(outcome.search.results, input.at, input.cursor);
    var workflow := Coordinate(classification, lookups, input.coordinatedAt);
    store.PersistWorkflowState(Cycle(workflow, plan.trigger, plan.automatic, input.at, input.cursor, gap));
    r := CycleResult(classification, plan, outcome, lookups, workflow, store.snapshot);
  }

  /** A cycle as a step of a run; a restart reloads the snapshot and changes nothing. */
  function CycleStep(s: Snapshot, input: CycleInput): Snapshot {
    Reconciled(s, input).snapshot
  }
}
