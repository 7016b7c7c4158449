/**
 * Whole restricted-live runs: the cycle loops of `app/monitoring/restricted_live_failure_injection.py` and
 * `app/monitoring/restricted_live_soak.py`, which carry the portfolio and the remembered fill ids from cycle to cycle.
 */
module RestrictedLiveRuns {
  import opened Collections
  import opened Contracts
  import opened PaperLedger
  import opened LiveTranslation
  import opened TranslationSafety
  import opened ReconciliationStore
  import opened Reconciliation
  import opened OrderTracking
  import opened LivePortfolioGate
  import opened GateSafety
  import opened Runs

  /**
   * What a run carries; `posted` is this model's record of the fills posted so far, `failed` marks a raised
   * exception.
   */
  datatype LiveState = LiveState(
    snapshot: Snapshot, portfolio: PortfolioState, already: seq<string>, posted: seq<Fill>, failed: bool)

  /** The ids a runner adds after a cycle: the soak runner also remembers ignored ids. */
  function Remembered(r: TranslationResult, rememberIgnored: bool): seq<string> {
    r.appliedIds + if rememberIgnored then r.ignoredIds else []
  }

  ghost function LiveStep(rememberIgnored: bool, st: LiveState, input: GateInput): LiveState {
    if st.failed then st
    else
      var snapshot := GateSnapshot(st.snapshot, input);
      match Gated(st.snapshot, st.portfolio, input, st.already)
      case Err(_) => st.(snapshot := snapshot, failed := true)
      case Ok(g) =>
        LiveState(
          snapshot,
          if g.applied then g.portfolio else st.portfolio,
          Distinct(st.already + Remembered(g.translation, rememberIgnored)),
          if g.applied then st.posted + Assess(PassAt(st, input)).applied else st.posted,
          false)
  }

  function PassAt(st: LiveState, input: GateInput): Pass {
    PassOf(input, st.already, Reconciled(st.snapshot, CycleOf(input)).workflow)
  }

  ghost function Stepper(rememberIgnored: bool): (LiveState, GateInput) -> LiveState {
    (st: LiveState, input: GateInput) => LiveStep(rememberIgnored, st, input)
  }

  function Start(p: PortfolioState, already: seq<string>): LiveState {
    LiveState(EmptySnapshot(), p, already, [], false)
  }

  /** In how many cycles of a run a mutation passed the gate. */
  ghost function PassedCycles(rememberIgnored: bool, start: LiveState, plans: seq<GateInput>): nat {
    if plans == [] then 0
    else
      var n := |plans| - 1;
      var st := Iterate(Stepper(rememberIgnored), start, plans[..n]);
      PassedCycles(rememberIgnored, start, plans[..n])
      + if !st.failed && PassedMutation(st.snapshot, st.portfolio, plans[n], st.already) then 1 else 0
  }

  ghost predicate Carries(st: LiveState, snapshot: Snapshot, portfolio: PortfolioState, remembered: seq<string>) {
    !st.failed && st.snapshot == snapshot && st.portfolio == portfolio && st.already == remembered
  }

  /** One cycle: carry the portfolio over when a mutation was applied, and remember the ids. */
  method LiveCycle(
    store: StateStore, ghost st: LiveState, p: PortfolioState, already: seq<string>, input: GateInput,
    rememberIgnored: bool)
    returns (failed: bool, passed: bool, portfolio: PortfolioState, remembered: seq<string>)
    requires Carries(st, store.snapshot, p, already)
    modifies store
    ensures failed == LiveStep(rememberIgnored, st, input).failed
    ensures !failed ==> Carries(LiveStep(rememberIgnored, st, input), store.snapshot, portfolio, remembered)
    ensures failed ==> portfolio == LiveStep(rememberIgnored, st, input).portfolio && remembered == already
    ensures passed <==> PassedMutation(st.snapshot, st.portfolio, input, st.already)
  {
    portfolio, remembered := p, already;
    var r, _ := ApplyWithDetails(store, p, input, already);
    if r.Err? { return true, false, p, already; }
    failed, passed := false, r.value.applied;
    if passed { portfolio := r.value.portfolio; }
    remembered := Distinct(already + Remembered(r.value.translation, rememberIgnored));
  }

  /** The cycle loop; it counts the cycles in which a mutation passed. */
  method RunCycles(p: PortfolioState, already: seq<string>, plans: seq<GateInput>, rememberIgnored: bool)
    returns (portfolio: PortfolioState, remembered: seq<string>, applied: nat, failed: bool)
    ensures var end := Iterate(Stepper(rememberIgnored), Start(p, already), plans);
      portfolio == end.portfolio && remembered == end.already && failed == end.failed
    ensures applied == PassedCycles(rememberIgnored, Start(p, already), plans)
  {
    var store := new StateStore();
    portfolio, remembered, applied, failed := p, already, 0, false;
    ghost var st := Start(p, already);
    var i := 0;
    while i < |plans|
      invariant i <= |plans| && !failed && fresh(store)
      invariant HasRun(st, applied, rememberIgnored, Start(p, already), plans[..i])
      invariant Carries(st, store.snapshot, portfolio, remembered)
    {
      var passed;
      OneMoreCycle(st, applied, rememberIgnored, Start(p, already), plans, i);
      failed, passed, portfolio, remembered :=
        LiveCycle(store, st, portfolio, remembered, plans[i], rememberIgnored);
      st := LiveStep(rememberIgnored, st, plans[i]);
      i := i + 1;
      if passed { applied := applied + 1; }
      if failed {
        FailureEndsTheRun(rememberIgnored, Start(p, already), plans, i);
        return;
      }
    }
    assert plans[..i] == plans;
  }

  /** The state after a run, and in how many of its cycles a mutation passed. */
  ghost predicate HasRun(st: LiveState, applied: nat, rememberIgnored: bool, start: LiveState, plans: seq<GateInput>) {
    st == Iterate(Stepper(rememberIgnored), start, plans) && applied == PassedCycles(rememberIgnored, start, plans)
  }

  lemma OneMoreCycle(
    st: LiveState, applied: nat, rememberIgnored: bool, start: LiveState, plans: seq<GateInput>, i: nat)
    requires i < |plans| && !st.failed && HasRun(st, applied, rememberIgnored, start, plans[..i])
    ensures HasRun(LiveStep(rememberIgnored, st, plans[i]),
      applied + (if PassedMutation(st.snapshot, st.portfolio, plans[i], st.already) then 1 else 0), rememberIgnored,
      start, plans[..i + 1])
  {
    assert plans[..i + 1][..i] == plans[..i];
  }

  lemma {:induction false} FailureEndsTheRun(rememberIgnored: bool, start: LiveState, plans: seq<GateInput>, n: nat)
    requires n <= |plans| && Iterate(Stepper(rememberIgnored), start, plans[..n]).failed
    ensures Iterate(Stepper(rememberIgnored), start, plans) == Iterate(Stepper(rememberIgnored), start, plans[..n])
    ensures PassedCycles(rememberIgnored, start, plans) == PassedCycles(rememberIgnored, start, plans[..n])
    decreases |plans|
  {
    if n < |plans| {
      assert plans[..|plans| - 1][..n] == plans[..n];
      FailureEndsTheRun(rememberIgnored, start, plans[..|plans| - 1], n);
    } else {
      assert plans[..n] == plans;
    }
  }

  /**
   * What one cycle does to a run: a passed mutation appends its fills and moves the portfolio by posting exactly them,
   * an exception fails the run, anything else leaves the books alone. Applied ids are remembered, and the ignored ones
   * if the runner remembers those.
   */
  lemma LiveStepExactly(rememberIgnored: bool, st: LiveState, input: GateInput)
    requires !st.failed
    ensures var g, next := Gated(st.snapshot, st.portfolio, input, st.already), LiveStep(rememberIgnored, st, input);
      && next.snapshot == GateSnapshot(st.snapshot, input) && (next.failed <==> g.Err?)
      && (if PassedMutation(st.snapshot, st.portfolio, input, st.already) then
            var batch := Assess(PassAt(st, input)).applied;
            next.posted == st.posted + batch && Applied("USDT", st.portfolio, batch) == Ok(next.portfolio)
          else next.posted == st.posted && next.portfolio == st.portfolio)
      && (g.Ok? ==> forall id :: id in next.already <==>
            || id in st.already || id in g.value.translation.appliedIds
            || (rememberIgnored && id in g.value.translation.ignoredIds))
  {
    var g := Gated(st.snapshot, st.portfolio, input, st.already);
    if g.Ok? {
      DistinctMembers(st.already + Remembered(g.value.translation, rememberIgnored));
      if g.value.applied { PassedPostsItsPass(st.snapshot, st.portfolio, input, st.already); }
    }
  }

  // -------------------------------------------------- at most once, one fold

  /** Posted ids are distinct, remembered and new, and the books are one fold over the posted fills. */
  ghost predicate Sound(p: PortfolioState, already: seq<string>, st: LiveState) {
    && NoDup(Ids(st.posted))
    && (forall id :: id in Ids(st.posted) ==> id in st.already && id !in already)
    && (forall id :: id in already ==> id in st.already)
    && PostAll(QUOTE_ASSET, p.book, st.posted) == Some(st.portfolio.book)
  }

  lemma IdsConcat(a: seq<Fill>, b: seq<Fill>)
    ensures Ids(a + b) == Ids(a) + Ids(b)
  {
  }

  lemma PostedBatch(st: LiveState, input: GateInput)
    requires PassedMutation(st.snapshot, st.portfolio, input, st.already)
    ensures var g, batch := Gated(st.snapshot, st.portfolio, input, st.already).value,
      Assess(PassAt(st, input)).applied;
      && g.translation.appliedIds == Ids(batch)
      && NoDup(Ids(batch)) && (forall id :: id in Ids(batch) ==> id !in st.already)
      && PostAll(QUOTE_ASSET, st.portfolio.book, batch) == Some(g.portfolio.book)
  {
    PassedPostsItsPass(st.snapshot, st.portfolio, input, st.already);
    AppliedOnce(PassAt(st, input));
  }

  lemma StepIsSound(p: PortfolioState, already: seq<string>, rememberIgnored: bool, st: LiveState, input: GateInput)
    requires Sound(p, already, st)
    ensures Sound(p, already, LiveStep(rememberIgnored, st, input))
  {
    var g := Gated(st.snapshot, st.portfolio, input, st.already);
    if !st.failed && g.Ok? {
      DistinctMembers(st.already + Remembered(g.value.translation, rememberIgnored));
      if g.value.applied {
        PostedBatch(st, input);
        var batch := Assess(PassAt(st, input)).applied;
        IdsConcat(st.posted, batch);
        NoDupConcat(Ids(st.posted), Ids(batch));
        PostAllConcat(QUOTE_ASSET, p.book, st.posted, batch);
      }
    }
  }

  /**
   * Over every run no fill id is posted twice, nor one remembered from before the run, and cash, quantities, averages
   * and realized profit are those of one fold over all posted fills.
   */
  lemma AtMostOnce(p: PortfolioState, already: seq<string>, rememberIgnored: bool, inputs: seq<GateInput>)
    ensures var end := Iterate(Stepper(rememberIgnored), Start(p, already), inputs);
      && NoDup(Ids(end.posted)) && (forall id :: id in Ids(end.posted) ==> id !in already)
      && PostAll(QUOTE_ASSET, p.book, end.posted) == Some(end.portfolio.book)
  {
    var step, inv := Stepper(rememberIgnored), (st: LiveState) => Sound(p, already, st);
    forall st: LiveState, input: GateInput | inv(st) ensures inv(step(st, input)) {
      StepIsSound(p, already, rememberIgnored, st, input);
    }
    InvariantOverRun(step, inv, Start(p, already), inputs);
  }

  /** The failure-injection runner, which does not remember ignored ids, remembers exactly what it posted. */
  lemma RememberedWerePosted(p: PortfolioState, inputs: seq<GateInput>, id: string)
    ensures var end := Iterate(Stepper(false), Start(p, []), inputs); id in end.already <==> id in Ids(end.posted)
  {
    var step := Stepper(false);
    var inv := (st: LiveState) => Sound(p, [], st) && forall x :: x in st.already ==> x in Ids(st.posted);
    forall st: LiveState, input: GateInput | inv(st) ensures inv(step(st, input)) {
      StepIsSound(p, [], false, st, input);
      OnlyPostedAreRemembered(st, input);
    }
    InvariantOverRun(step, inv, Start(p, []), inputs);
  }

  lemma OnlyPostedAreRemembered(st: LiveState, input: GateInput)
    requires forall x :: x in st.already ==> x in Ids(st.posted)
    ensures forall x :: x in LiveStep(false, st, input).already ==> x in Ids(LiveStep(false, st, input).posted)
  {
    var g := Gated(st.snapshot, st.portfolio, input, st.already);
    if !st.failed && g.Ok? {
      DistinctMembers(st.already + Remembered(g.value.translation, false));
      if g.value.applied {
        PostedBatch(st, input);
        IdsConcat(st.posted, Assess(PassAt(st, input)).applied);
      } else {
        UnpassedChangesNothing(st.snapshot, st.portfolio, input, st.already);
      }
    }
  }

  // --------------------------------- recovered orders stay closed over a run

  /** The cycle reports the order in another status than FILLED, or brings a new recovered fill of it. */
  ghost function Reopens(orderId: string): (LiveState, GateInput) -> bool {
    (st: LiveState, input: GateInput) =>
      var pass := PassAt(st, input);
      || (FindOrder(pass.orders, orderId).Some? && !FindOrder(pass.orders, orderId).value.status.Filled?)
      || exists f :: f in pass.fills && f.orderId == orderId && IsRecovered(f) && f.fillId !in st.already
  }

  lemma PassKeepsClosed(pass: Pass, orderId: string, trade: string)
    requires ':' !in orderId && orderId + RECOVERED_MARK + trade in pass.already
    requires FindOrder(pass.orders, orderId).Some? ==> FindOrder(pass.orders, orderId).value.status.Filled?
    requires forall f :: f in pass.fills && f.orderId == orderId && IsRecovered(f) ==> f.fillId in pass.already
    requires !Assess(pass).ambiguous
    ensures OfOrder(Assess(pass).applied, orderId) == []
  {
    if FindOrder(pass.orders, orderId).Some? {
      RecoveredNotDoubleCounted(pass, orderId, trade);
    } else {
      AssessFacts(pass);
    }
  }

  lemma StepKeepsClosed(rememberIgnored: bool, st: LiveState, input: GateInput, orderId: string, trade: string)
    requires ':' !in orderId && orderId + RECOVERED_MARK + trade in st.already
    requires !Reopens(orderId)(st, input)
    ensures var next := LiveStep(rememberIgnored, st, input);
      orderId + RECOVERED_MARK + trade in next.already && OfOrder(next.posted, orderId) == OfOrder(st.posted, orderId)
  {
    var g := Gated(st.snapshot, st.portfolio, input, st.already);
    if !st.failed && g.Ok? {
      DistinctMembers(st.already + Remembered(g.value.translation, rememberIgnored));
      if g.value.applied {
        var pass := PassAt(st, input);
        PassedIsUnambiguous(st, input);
        PassKeepsClosed(pass, orderId, trade);
        OfOrderConcat(st.posted, Assess(pass).applied, orderId);
      }
    }
  }

  lemma PassedIsUnambiguous(st: LiveState, input: GateInput)
    requires PassedMutation(st.snapshot, st.portfolio, input, st.already)
    ensures !Assess(PassAt(st, input)).ambiguous
  {
  }

  /**
   * Once a recovered fill of an order was applied, no later cycle of the run posts any fill of that order, as long as
   * the order is not reported in another status than FILLED and no new recovered fill of it is delivered.
   */
  lemma RecoveredOrderStaysClosed(
    rememberIgnored: bool, st: LiveState, inputs: seq<GateInput>, orderId: string, trade: string)
    requires ':' !in orderId && orderId + RECOVERED_MARK + trade in st.already
    requires !SometimeSince(Stepper(rememberIgnored), Reopens(orderId), st, inputs, 0)
    ensures OfOrder(Iterate(Stepper(rememberIgnored), st, inputs).posted, orderId) == OfOrder(st.posted, orderId)
  {
    var step, event, id := Stepper(rememberIgnored), Reopens(orderId), orderId + RECOVERED_MARK + trade;
    var holds := (t: LiveState) => id in t.already && OfOrder(t.posted, orderId) == OfOrder(st.posted, orderId);
    forall t: LiveState, input: GateInput | holds(t) && !event(t, input) ensures holds(step(t, input)) {
      StepKeepsClosed(rememberIgnored, t, input, orderId, trade);
    }
    HoldsThroughout(step, event, holds, st, inputs);
  }

  // ------------------------------------------- orders tracked by a live run

  /** A gate cycle with payloads moves the persistent state by one reconciliation cycle, whatever else it does. */
  lemma LiveStepTracks(rememberIgnored: bool, st: LiveState, input: GateInput, id: string)
    requires !st.failed && input.payloads != []
    requires Uncertain(st.snapshot, CycleOf(input), id) && !Settles(st.snapshot, CycleOf(input), id)
    ensures var next := LiveStep(rememberIgnored, st, input);
      id in next.snapshot.unresolved && next.portfolio == st.portfolio && next.posted == st.posted
  {
    NoOrderForgotten(st.snapshot, CycleOf(input), id);
    var g := Gated(st.snapshot, st.portfolio, input, st.already);
    if g.Ok? {
      if g.value.applied {
        PassedLeavesNothingUnresolved(st.snapshot, st.portfolio, input, st.already, id);
      }
    }
  }

  /** The cycle polls something and settles the order. */
  ghost function SettlingCycle(id: string): (LiveState, GateInput) -> bool {
    (st: LiveState, input: GateInput) => !st.failed && input.payloads != [] && Settles(st.snapshot, CycleOf(input), id)
  }

  /** The order is on record and the books are still these. */
  ghost function Frozen(id: string, p: PortfolioState, posted: seq<Fill>): LiveState -> bool {
    (st: LiveState) => id in st.snapshot.unresolved && st.portfolio == p && st.posted == posted
  }

  lemma StepKeepsFrozen(
    rememberIgnored: bool, st: LiveState, input: GateInput, id: string, p: PortfolioState, posted: seq<Fill>)
    requires Frozen(id, p, posted)(st) && !SettlingCycle(id)(st, input)
    ensures Frozen(id, p, posted)(LiveStep(rememberIgnored, st, input))
  {
    if !st.failed && input.payloads != [] { LiveStepTracks(rememberIgnored, st, input, id); }
  }

  /**
   * Over a run, from a cycle on that finds an order missing, unknown or still unresolved, the order stays on record and
   * the portfolio does not change at all until a cycle settles the order.
   */
  lemma UnsettledOrderFreezesPortfolio(
    rememberIgnored: bool, start: LiveState, inputs: seq<GateInput>, k: nat, id: string)
    requires k < |inputs| && inputs[k].payloads != []
    requires var st := Iterate(Stepper(rememberIgnored), start, inputs[..k]);
      !st.failed && Uncertain(st.snapshot, CycleOf(inputs[k]), id)
    requires !SometimeSince(Stepper(rememberIgnored), SettlingCycle(id), start, inputs, k)
    ensures var st, end := Iterate(Stepper(rememberIgnored), start, inputs[..k]),
      Iterate(Stepper(rememberIgnored), start, inputs);
      id in end.snapshot.unresolved && end.portfolio == st.portfolio && end.posted == st.posted
  {
    var step, event := Stepper(rememberIgnored), SettlingCycle(id);
    var st := Iterate(step, start, inputs[..k]);
    var holds := Frozen(id, st.portfolio, st.posted);
    NoEarlierEvent(step, event, start, inputs, k);
    LiveStepTracks(rememberIgnored, st, inputs[k], id);
    forall t: LiveState, input: GateInput | holds(t) && !event(t, input) ensures holds(step(t, input)) {
      StepKeepsFrozen(rememberIgnored, t, input, id, st.portfolio, st.posted);
    }
    HoldsUntilEvent(step, event, holds, start, inputs, k);
  }
}
