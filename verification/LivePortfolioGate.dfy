/** `BinanceRestrictedLivePortfolioGate.apply_with_details`: the guarded portfolio mutation of one cycle. */
module LivePortfolioGate {
  import opened Collections
  import opened Contracts
  import opened LiveTranslation
  import opened Recovery
  import opened Coordinator
  import opened ReconciliationStore
  import opened Reconciliation
  import opened OrderMerge

  /** One polled cycle; the gate passes neither cursor nor gap to reconciliation. */
  datatype GateInput = GateInput(
    payloads: seq<Payload>, expected: seq<string>, script: Script, canSubmit: bool, clockWithinTolerance: bool,
    at: int, coordinatedAt: int)

  datatype GateOutcome = GateOutcome(
    attempted: bool, applied: bool, portfolio: PortfolioState, translation: TranslationResult,
    events: seq<ReconciliationEvent>)

  function Orders(payloads: seq<Payload>): seq<OrderState> {
    if payloads == [] then []
    else
      var rest, t := Orders(payloads[..|payloads| - 1]), payloads[|payloads| - 1].translation;
      if t.order.Some? then rest + [t.order.value] else rest
  }

  function Fills(payloads: seq<Payload>): seq<Fill> {
    if payloads == [] then []
    else
      var rest, t := Fills(payloads[..|payloads| - 1]), payloads[|payloads| - 1].translation;
      if t.fill.Some? then rest + [t.fill.value] else rest
  }

  /** `_latest_full_account_snapshot` */
  function LatestFullSnapshot(payloads: seq<Payload>): Option<AccountSnapshot> {
    if payloads == [] then None
    else
      var t := payloads[|payloads| - 1].translation;
      if t.account.Some? && !t.account.value.isPartial then t.account
      else LatestFullSnapshot(payloads[..|payloads| - 1])
  }

  function OrZero(x: Option<real>): real {
    if x.Some? then x.value else 0.0
  }

  function CashOf(balances: seq<Balance>): map<string, real> {
    if balances == [] then map[]
    else
      var rest, b := CashOf(balances[..|balances| - 1]), balances[|balances| - 1];
      if b.free.Some? || b.locked.Some? then rest[b.asset := OrZero(b.free) + OrZero(b.locked)] else rest
  }

  function AssetsOf(balances: seq<Balance>): seq<string> {
    if balances == [] then [] else AssetsOf(balances[..|balances| - 1]) + [balances[|balances| - 1].asset]
  }

  predicate SomeMalformed(payloads: seq<Payload>) {
    exists i | 0 <= i < |payloads| :: payloads[i].translation.status.PayloadMalformed?
  }

  predicate Invalidated(payloads: seq<Payload>) {
    exists i | 0 <= i < |payloads| :: payloads[i].translation.invalidated
  }

  predicate MentionsOrder(orders: seq<OrderState>, fills: seq<Fill>, id: string) {
    (exists i | 0 <= i < |orders| :: orders[i].orderId == id) || (exists i | 0 <= i < |fills| :: fills[i].orderId == id)
  }

  /** Expected orders that neither a translated order nor any fill, private or recovered, mentions. */
  function Unconfirmed(expected: seq<string>, orders: seq<OrderState>, fills: seq<Fill>): seq<string> {
    if expected == [] then []
    else
      var rest, id := Unconfirmed(expected[..|expected| - 1], orders, fills), expected[|expected| - 1];
      if MentionsOrder(orders, fills, id) then rest else rest + [id]
  }

  function PendingIds(states: seq<OrderState>): seq<string> {
    if states == [] then []
    else
      var rest, o := PendingIds(states[..|states| - 1]), states[|states| - 1];
      if IsPending(o) then rest + [o.orderId] else rest
  }

  /** The translation result of a cycle that the gate stops before translating. */
  function Held(p: PortfolioState, pending: seq<string>): TranslationResult {
    TranslationResult(AmbiguousReviewRequired, p, [], [], pending, [], true)
  }

  function Stopped(p: PortfolioState, pending: seq<string>, events: seq<ReconciliationEvent>): GateOutcome {
    GateOutcome(true, false, p, Held(p, pending), events)
  }

  function Idle(p: PortfolioState): GateOutcome {
    GateOutcome(false, false, p, TranslationResult(AppliedAll, p, [], [], [], [], false), [])
  }

  function CycleOf(input: GateInput): CycleInput {
    CycleInput(input.expected, input.payloads, input.script, None, false, input.at, input.coordinatedAt)
  }

  /** Everything the translator is given once the gate lets a cycle through. */
  function PassOf(input: GateInput, already: seq<string>, w: Workflow): Pass {
    var snapshot := LatestFullSnapshot(input.payloads);
    Pass(Merged(Orders(input.payloads), w.states), Fills(input.payloads) + w.recoveredFills, already,
         if snapshot.Some? then Some(CashOf(snapshot.value.balances)) else None,
         if snapshot.Some? then AssetsOf(snapshot.value.balances) else [])
  }

  /** Why the gate stops a cycle before translation, as the pending ids it reports; `None` lets the cycle through. */
  function StopReason(input: GateInput, w: Workflow): Option<seq<string>> {
    var unconfirmed := Unconfirmed(input.expected, Orders(input.payloads), Fills(input.payloads) + w.recoveredFills);
    var pending := PendingIds(Merged(Orders(input.payloads), w.states));
    if SomeMalformed(input.payloads) then Some([])
    else if Invalidated(input.payloads) && unconfirmed != [] then Some(unconfirmed)
    else if pending != [] then Some(pending)
    else if input.canSubmit && !input.clockWithinTolerance then Some([])
    else None
  }

  /** The gate's answer to a cycle with this workflow. */
  ghost function Decided(
    p: PortfolioState, input: GateInput, already: seq<string>, w: Workflow): Result<GateOutcome, LedgerError>
  {
    match StopReason(input, w)
    case Some(pending) => Ok(Stopped(p, pending, w.events))
    case None =>
      match Translated(p, PassOf(input, already, w))
      case Err(e) => Err(e)
      case Ok(r) => Ok(GateOutcome(true, !r.manualAttention, r.portfolio, r, w.events))
  }

  /** The persistent state after a gate cycle; it is written before translation. */
  function GateSnapshot(s: Snapshot, input: GateInput): Snapshot {
    if input.payloads == [] then s else Reconciled(s, CycleOf(input)).snapshot
  }

  /** What `apply_with_details` returns or raises. */
  ghost function Gated(
    s: Snapshot, p: PortfolioState, input: GateInput, already: seq<string>): Result<GateOutcome, LedgerError>
  {
    if input.payloads == [] then Ok(Idle(p)) else Decided(p, input, already, Reconciled(s, CycleOf(input)).workflow)
  }

  method CollectTranslations(payloads: seq<Payload>)
    returns (orders: seq<OrderState>, fills: seq<Fill>, snapshot: Option<AccountSnapshot>)
    ensures orders == Orders(payloads) && fills == Fills(payloads) && snapshot == LatestFullSnapshot(payloads)
  {
    orders, fills, snapshot := [], [], None;
    for i := 0 to |payloads|
      invariant orders == Orders(payloads[..i])
      invariant fills == Fills(payloads[..i])
      invariant snapshot == LatestFullSnapshot(payloads[..i])
    {
      var t := payloads[i].translation;
      assert payloads[..i + 1][..i] == payloads[..i];
      if t.order.Some? { orders := orders + [t.order.value]; }
      if t.fill.Some? { fills := fills + [t.fill.value]; }
      if t.account.Some? && !t.account.value.isPartial { snapshot := t.account; }
    }
    assert payloads[..|payloads|] == payloads;
  }

  method Decide(p: PortfolioState, input: GateInput, already: seq<string>, w: Workflow)
    returns (r: Result<GateOutcome, LedgerError>)
    ensures r == Decided(p, input, already, w)
  {
    if SomeMalformed(input.payloads) { return Ok(Stopped(p, [], w.events)); }
    var orders, fills, snapshot := CollectTranslations(input.payloads);
    fills := fills + w.recoveredFills;
    var states := MergeOrderStates(orders, w.states);
    if Invalidated(input.payloads) {
      var unconfirmed := Unconfirmed(input.expected, orders, fills);
      if unconfirmed != [] { return Ok(Stopped(p, unconfirmed, w.events)); }
    }
    var pending := PendingIds(states);
    if pending != [] { return Ok(Stopped(p, pending, w.events)); }
    if input.canSubmit && !input.clockWithinTolerance { return Ok(Stopped(p, [], w.events)); }
    var t := Translate(p, Pass(states, fills, already,
      if snapshot.Some? then Some(CashOf(snapshot.value.balances)) else None,
      if snapshot.Some? then AssetsOf(snapshot.value.balances) else []));
    match t
    case Err(e) => return Err(e);
    case Ok(v) => return Ok(GateOutcome(true, !v.manualAttention, v.portfolio, v, w.events));
  }

  /** The reconciliation cycle behind a gate result; there is none when nothing was polled. */
  function GateCycle(s: Snapshot, input: GateInput): Option<CycleResult> {
    if input.payloads == [] then None else Some(Reconciled(s, CycleOf(input)))
  }

  method ApplyWithDetails(store: StateStore, p: PortfolioState, input: GateInput, already: seq<string>)
    returns (r: Result<GateOutcome, LedgerError>, cycle: Option<CycleResult>)
    modifies store
    ensures r == Gated(old(store.snapshot), p, input, already)
    ensures cycle == GateCycle(old(store.snapshot), input)
    ensures store.snapshot == GateSnapshot(old(store.snapshot), input)
  {
    if input.payloads == [] { return Ok(Idle(p)), None; }
    var details := ReconcileWithTransports(store, CycleOf(input));
    r := Decide(p, input, already, details.workflow);
    cycle := Some(details);
  }
}
