/** `RestrictedLiveSoakRunner.run` of `app/monitoring/restricted_live_soak.py` over the real gate cycle. */
module SoakRun {
  import opened Collections
  import opened Contracts
  import opened Recovery
  import opened ReconciliationStore
  import opened Reconciliation
  import opened LivePortfolioGate
  import opened RestrictedLiveRuns
  import opened PrivateStreamSession
  import opened ExchangeHealth

  /** Times and durations are integer microseconds. */
  datatype Criteria = Criteria(
    maxCycles: Option<int>, maxDuration: Option<int>, pollInterval: int, maxBlocked: int, abortOnFatal: bool,
    abortOnManual: bool)

  datatype StopReason = RunCompleted | FatalExchangeHealth | ManualAttentionNeeded | MaxBlockedMutations

  /** What the n-th cycle meets; `gate` is absent when the cycle ends before it calls the mutation gate. */
  datatype SoakCycle = SoakCycle(gate: Option<GateInput>, stream: Option<StreamHealth>, stats: Stats)

  type SoakScript = nat -> SoakCycle

  /** The result the recording gate keeps until its next call. */
  datatype Record = Record(outcome: GateOutcome, transport: Option<CycleResult>)

  /** Counters and records of a run. */
  datatype Counters = Counters(
    last: Option<Record>, blocked: nat, attempts: nat, successes: nat, health: Option<ExchangeSnapshot>,
    reconnectDeltas: seq<int>, refreshDeltas: seq<int>, reconnects: int, refreshes: int)

  datatype Progress = Progress(live: LiveState, counters: Counters)

  // ---------------------------------------------------------------- one cycle

  predicate IsBlocked(r: Option<Record>) {
    r.Some? && r.value.outcome.attempted && !r.value.outcome.applied
  }

  function Transport(r: Option<Record>): Option<CycleResult> {
    if r.Some? then r.value.transport else None
  }

  function Queries(r: Option<Record>): seq<QueryHealth> {
    if Transport(r).Some? then Transport(r).value.outcome.search.health else []
  }

  predicate Converged(r: Option<Record>) {
    Transport(r).Some? && Transport(r).value.workflow.convergence.ConvergedTerminal?
  }

  /** `RestrictedLiveSoakExchangeHealthProvider.current_health`; it knows no clock status. */
  function CurrentHealth(stream: Option<StreamHealth>, r: Option<Record>): ExchangeSnapshot {
    var t := Transport(r);
    Combine(
      StreamComponent(stream),
      ReconciliationComponent(
        if t.Some? then Some(t.value.workflow) else None,
        if t.Some? then Some(t.value.snapshot) else None),
      ClockComponent(None),
      StatusQueryComponent(Queries(r)))
  }

  /** A counter change is recorded only when the counter grew. */
  function NoteDelta(deltas: seq<int>, now: int, before: int): seq<int> {
    if now - before > 0 then deltas + [now - before] else deltas
  }

  function Count(t: Counters, r: Option<Record>, c: SoakCycle): Counters {
    Counters(
      r,
      t.blocked + (if IsBlocked(r) then 1 else 0),
      t.attempts + |Queries(r)|,
      t.successes + (if Converged(r) then 1 else 0),
      Some(CurrentHealth(c.stream, r)),
      NoteDelta(t.reconnectDeltas, c.stats.reconnectCount, t.reconnects),
      NoteDelta(t.refreshDeltas, c.stats.refreshAttempts, t.refreshes),
      c.stats.reconnectCount,
      c.stats.refreshAttempts)
  }

  /** The gate result on record after a cycle that did not raise. */
  ghost function Recorded(st: Progress, c: SoakCycle): Option<Record> {
    if c.gate.None? then st.counters.last
    else
      match Gated(st.live.snapshot, st.live.portfolio, c.gate.value, st.live.already)
      case Ok(g) => Some(Record(g, GateCycle(st.live.snapshot, c.gate.value)))
      case Err(_) => st.counters.last
  }

  /**
   * A cycle that does not reach the gate leaves portfolio and remembered ids alone, but is counted by the old result.
   */
  ghost function SoakStep(st: Progress, c: SoakCycle): Progress {
    var live := if c.gate.Some? then LiveStep(true, st.live, c.gate.value) else st.live;
    if live.failed then Progress(live, st.counters) else Progress(live, Count(st.counters, Recorded(st, c), c))
  }

  function Fresh(p: PortfolioState): Progress {
    Progress(Start(p, []), Counters(None, 0, 0, 0, None, [], [], 0, 0))
  }

  ghost function After(p: PortfolioState, script: SoakScript, n: nat): Progress {
    if n == 0 then Fresh(p) else SoakStep(After(p, script, n - 1), script(n - 1))
  }

  // ------------------------------------------------------------ stop criteria

  function StopFor(criteria: Criteria, t: Counters): StopReason {
    if criteria.abortOnFatal && t.health.Some? && t.health.value.overall.Fatal? then FatalExchangeHealth
    else if criteria.abortOnManual && t.health.Some? && t.health.value.reconciliation.Fatal? then ManualAttentionNeeded
    else if t.blocked >= criteria.maxBlocked then MaxBlockedMutations
    else RunCompleted
  }

  /** A fatal reconciliation component makes the exchange fatal, so that abort always comes first. */
  lemma ManualAttentionNeverStops(criteria: Criteria, t: Counters, r: Option<Record>, c: SoakCycle)
    requires criteria.abortOnFatal
    ensures !StopFor(criteria, Count(t, r, c)).ManualAttentionNeeded?
  {
    var h := CurrentHealth(c.stream, r);
    assert [h.stream, h.reconciliation, h.clock, h.statusQuery][1] == h.reconciliation;
  }

  // ----------------------------------------------------------------- the loop

  class Clock {
    const script: nat -> int
    var ticks: nat

    constructor (script: nat -> int)
      ensures this.script == script && ticks == 0
    {
      this.script, ticks := script, 0;
    }

    method Now() returns (t: int)
      modifies this
      ensures t == script(old(ticks)) && ticks == old(ticks) + 1
    {
      t := script(ticks);
      ticks := ticks + 1;
    }
  }

  method RecordDelta(deltas: seq<int>, now: int, before: int) returns (r: seq<int>)
    ensures r == NoteDelta(deltas, now, before)
  {
    r := deltas;
    var delta := now - before;
    if delta > 0 { r := r + [delta]; }
  }

  method CountCycle(t: Counters, r: Option<Record>, c: SoakCycle) returns (u: Counters)
    ensures u == Count(t, r, c)
  {
    var blocked, attempts, successes := t.blocked, t.attempts, t.successes;
    if r.Some? && r.value.outcome.attempted && !r.value.outcome.applied { blocked := blocked + 1; }
    if r.Some? && r.value.transport.Some? {
      attempts := attempts + |r.value.transport.value.outcome.search.health|;
      if r.value.transport.value.workflow.convergence.ConvergedTerminal? { successes := successes + 1; }
    }
    var reconnectDeltas := RecordDelta(t.reconnectDeltas, c.stats.reconnectCount, t.reconnects);
    var refreshDeltas := RecordDelta(t.refreshDeltas, c.stats.refreshAttempts, t.refreshes);
    u := Counters(r, blocked, attempts, successes, Some(CurrentHealth(c.stream, r)), reconnectDeltas, refreshDeltas,
                  c.stats.reconnectCount, c.stats.refreshAttempts);
  }

  /** Portfolio and remembered ids already contain what the result on record reports. */
  ghost predicate UpToDate(portfolio: PortfolioState, remembered: seq<string>, last: Option<Record>) {
    && NoDup(remembered)
    && (last.Some? ==>
          && (last.value.outcome.applied ==> portfolio == last.value.outcome.portfolio)
          && forall id :: id in Remembered(last.value.outcome.translation, true) ==> id in remembered)
  }

  lemma {:induction false} DistinctUnchanged<T(!new)>(s: seq<T>, more: seq<T>)
    requires NoDup(s) && forall x :: x in more ==> x in s
    ensures Distinct(s + more) == s
  {
    if more != [] {
      var n := |more| - 1;
      assert (s + more)[..|s + more| - 1] == s + more[..n];
      assert more[n] in more && forall x :: x in more[..n] ==> x in more;
      DistinctUnchanged(s, more[..n]);
    } else if s != [] {
      var n := |s| - 1;
      assert s + more == s == s[..n] + [s[n]];
      assert (s + more)[..n] == s[..n] == s[..n] + [];
      DistinctUnchanged(s[..n], []);
    }
  }

  /** What the loop carries from turn to turn. */
  datatype Locals = Locals(portfolio: PortfolioState, remembered: seq<string>, counters: Counters)

  ghost predicate Tracks(st: Progress, snapshot: Snapshot, l: Locals) {
    && !st.live.failed && st.live.snapshot == snapshot && st.live.portfolio == l.portfolio
    && st.live.already == l.remembered && st.counters == l.counters
    && UpToDate(l.portfolio, l.remembered, l.counters.last)
  }

  /** One cycle of the loop: the gate when it is reached, then the carry-over from whatever result is on record. */
  method RunCycle(store: StateStore, ghost st: Progress, l: Locals, c: SoakCycle) returns (raised: bool, next: Locals)
    requires Tracks(st, store.snapshot, l)
    modifies store
    ensures raised == SoakStep(st, c).live.failed
    ensures !raised ==> Tracks(SoakStep(st, c), store.snapshot, next)
  {
    raised, next := false, l;
    var portfolio, remembered, last := l.portfolio, l.remembered, l.counters.last;
    if c.gate.Some? {
      var r, transport := ApplyWithDetails(store, portfolio, c.gate.value, remembered);
      if r.Err? {
        raised := true;
        return;
      }
      last := Some(Record(r.value, transport));
    }
    if last.Some? {
      var outcome := last.value.outcome;
      if c.gate.None? { DistinctUnchanged(remembered, Remembered(outcome.translation, true)); }
      if outcome.applied { portfolio := outcome.portfolio; }
      DistinctMembers(remembered + Remembered(outcome.translation, true));
      remembered := Distinct(remembered + Remembered(outcome.translation, true));
    }
    var counters := CountCycle(l.counters, last, c);
    next := Locals(portfolio, remembered, counters);
  }

  method DeadlineReached(clock: Clock, deadline: Option<int>) returns (reached: bool)
    modifies clock
    ensures deadline.None? ==> !reached && clock.ticks == old(clock.ticks)
    ensures deadline.Some? ==>
      clock.ticks == old(clock.ticks) + 1 && reached == (clock.script(old(clock.ticks)) >= deadline.value)
  {
    if deadline.None? { return false; }
    var now := clock.Now();
    reached := now >= deadline.value;
  }

  /** Of the readings since `first` exactly the last one is past the deadline if the time is `over`, and else none. */
  ghost predicate InTime(clock: Clock, first: nat, deadline: Option<int>, over: bool)
    reads clock
  {
    if deadline.None? then !over
    else
      && (over ==> clock.ticks > first && clock.script(clock.ticks - 1) >= deadline.value)
      && forall k: nat :: first <= k < clock.ticks - (if over then 1 else 0) ==> clock.script(k) < deadline.value
  }

  /** The end of a turn: past the deadline, or no time left to sleep. */
  method NoTimeLeft(clock: Clock, deadline: Option<int>, pollInterval: int, ghost first: nat) returns (over: bool)
    requires InTime(clock, first, deadline, false) && first <= clock.ticks
    modifies clock
    ensures InTime(clock, first, deadline, over)
    ensures clock.ticks >= old(clock.ticks) && (deadline.None? ==> !over)
  {
    over := DeadlineReached(clock, deadline);
    if !over && pollInterval > 0 { over := DeadlineReached(clock, deadline); }
  }

  /** A clock that stays at or past the deadline from its `horizon`-th reading on. */
  ghost predicate Expires(clock: Clock, duration: int, horizon: nat)
    reads clock
  {
    forall k: nat :: k >= horizon ==> clock.script(k) >= clock.script(clock.ticks) + duration
  }

  ghost predicate EarlierTurnsGoOn(criteria: Criteria, p: PortfolioState, script: SoakScript, n: nat) {
    forall k :: 0 < k < n ==> StopFor(criteria, After(p, script, k).counters).RunCompleted?
  }

  /** The locals of the loop after `n` turns, none of which met a stop criterion. */
  ghost predicate Running(
    criteria: Criteria, p: PortfolioState, script: SoakScript, n: nat, store: StateStore, l: Locals)
    reads store
  {
    && Tracks(After(p, script, n), store.snapshot, l)
    && EarlierTurnsGoOn(criteria, p, script, n + 1)
    && WithinLimit(criteria, n)
  }

  predicate WithinLimit(criteria: Criteria, n: nat) {
    criteria.maxCycles.Some? ==> n <= AtLeastZero(criteria.maxCycles.value)
  }

  /** The run ended after `n` complete turns, for this reason; a run that raised did so in the turn after them. */
  ghost predicate Ended(
    criteria: Criteria, p: PortfolioState, script: SoakScript, n: nat, raised: bool, reason: StopReason, l: Locals)
  {
    && EarlierTurnsGoOn(criteria, p, script, n)
    && WithinLimit(criteria, n)
    && (raised ==> After(p, script, n + 1).live.failed)
    && (!raised ==>
          var st := After(p, script, n);
          && !st.live.failed && l.portfolio == st.live.portfolio && l.counters == st.counters
          && reason == if n == 0 then RunCompleted else StopFor(criteria, l.counters))
  }

  lemma RunningMayEnd(criteria: Criteria, p: PortfolioState, script: SoakScript, n: nat, store: StateStore, l: Locals)
    requires Running(criteria, p, script, n, store, l)
    ensures Ended(criteria, p, script, n, false, RunCompleted, l)
  {
  }

  lemma NothingRunYet(criteria: Criteria, p: PortfolioState, script: SoakScript, store: StateStore)
    requires store.snapshot == EmptySnapshot()
    ensures Running(criteria, p, script, 0, store, Locals(p, [], Fresh(p).counters))
  {
  }

  /** One turn without its time checks. */
  method Turn(
    criteria: Criteria, ghost p: PortfolioState, script: SoakScript, n: nat, store: StateStore, l: Locals)
    returns (raised: bool, reason: StopReason, next: Locals)
    requires Running(criteria, p, script, n, store, l) && WithinLimit(criteria, n + 1)
    modifies store
    ensures raised ==> Ended(criteria, p, script, n, true, reason, next)
    ensures !raised ==> Ended(criteria, p, script, n + 1, false, reason, next)
    ensures !raised && reason.RunCompleted? ==> Running(criteria, p, script, n + 1, store, next)
  {
    raised, next := RunCycle(store, After(p, script, n), l, script(n));
    reason := if raised then RunCompleted else StopFor(criteria, next.counters);
    if !raised { TurnDone(criteria, p, script, n, store, next); }
  }

  lemma TurnDone(criteria: Criteria, p: PortfolioState, script: SoakScript, n: nat, store: StateStore, next: Locals)
    requires EarlierTurnsGoOn(criteria, p, script, n + 1) && WithinLimit(criteria, n + 1)
    requires Tracks(After(p, script, n + 1), store.snapshot, next)
    ensures Ended(criteria, p, script, n + 1, false, StopFor(criteria, next.counters), next)
    ensures StopFor(criteria, next.counters).RunCompleted? ==> Running(criteria, p, script, n + 1, store, next)
  {
  }

  /** A turn and the time checks after it. */
  method TimedTurn(
    criteria: Criteria, ghost p: PortfolioState, script: SoakScript, n: nat, store: StateStore, l: Locals,
    clock: Clock, deadline: Option<int>, ghost first: nat)
    returns (over: bool, cycles: nat, raised: bool, reason: StopReason, next: Locals)
    requires Running(criteria, p, script, n, store, l) && WithinLimit(criteria, n + 1)
    requires InTime(clock, first, deadline, false) && first <= clock.ticks
    modifies store, clock
    ensures InTime(clock, first, deadline, over && !raised && reason.RunCompleted?)
    ensures over ==> Ended(criteria, p, script, cycles, raised, reason, next)
    ensures !over ==>
      cycles == n + 1 && Running(criteria, p, script, cycles, store, next) && !raised && reason.RunCompleted?
    ensures clock.ticks >= old(clock.ticks)
    ensures deadline.None? && over ==> raised || !reason.RunCompleted?
  {
    raised, reason, next := Turn(criteria, p, script, n, store, l);
    if raised { return true, n, raised, reason, next; }
    over, cycles := true, n + 1;
    if reason.RunCompleted? { over := NoTimeLeft(clock, deadline, criteria.pollInterval, first); }
  }

  /** One pass of the loop: its two exits, then a turn. */
  method NextTurn(
    criteria: Criteria, ghost p: PortfolioState, script: SoakScript, n: nat, store: StateStore, l: Locals,
    clock: Clock, deadline: Option<int>, ghost first: nat)
    returns (over: bool, cycles: nat, raised: bool, reason: StopReason, next: Locals, ghost late: bool)
    requires Running(criteria, p, script, n, store, l)
    requires InTime(clock, first, deadline, false) && first <= clock.ticks
    modifies store, clock
    ensures over ==> Ended(criteria, p, script, cycles, raised, reason, next)
    ensures !over ==>
      cycles == n + 1 && Running(criteria, p, script, cycles, store, next) && !raised && reason.RunCompleted?
    ensures InTime(clock, first, deadline, late) && (late ==> over && !raised && reason.RunCompleted?)
    ensures over && !late && !raised && reason.RunCompleted? ==>
      criteria.maxCycles.Some? && cycles >= criteria.maxCycles.value
    ensures clock.ticks >= old(clock.ticks)
    ensures !over && deadline.Some? ==>
      clock.ticks > old(clock.ticks) && clock.script(old(clock.ticks)) < deadline.value
    ensures !over && criteria.maxCycles.Some? ==> n < criteria.maxCycles.value
  {
    RunningMayEnd(criteria, p, script, n, store, l);
    over, cycles, raised, reason, next, late := true, n, false, RunCompleted, l, false;
    if criteria.maxCycles.Some? && n >= criteria.maxCycles.value { return; }
    var expired := DeadlineReached(clock, deadline);
    if expired {
      late := true;
      return;
    }
    over, cycles, raised, reason, next := TimedTurn(criteria, p, script, n, store, l, clock, deadline, first);
    late := over && !raised && reason.RunCompleted?;
  }

  /**
   * The loop ends whenever the number of cycles is limited, or a deadline is set that the clock reaches. It ends after
   * the first cycle that meets a stop criterion, and reports that criterion. It is cut off `late` exactly when its last
   * clock reading is past the deadline, and then no earlier one was; if it meets no criterion and is not cut off, it
   * has done all its cycles.
   */
  method Soak(criteria: Criteria, script: SoakScript, clock: Clock, p: PortfolioState, ghost horizon: nat)
    returns (cycles: nat, raised: bool, reason: StopReason, l: Locals, ghost late: bool)
    requires criteria.maxCycles.None? ==>
      criteria.maxDuration.Some? && Expires(clock, criteria.maxDuration.value, horizon)
    modifies clock
    ensures Ended(criteria, p, script, cycles, raised, reason, l)
    ensures criteria.maxCycles.Some? && criteria.maxDuration.None? && !raised && reason.RunCompleted? ==>
      cycles == AtLeastZero(criteria.maxCycles.value)
    ensures InTime(clock, old(clock.ticks) + 1, DeadlineOf(criteria, clock.script(old(clock.ticks))), late)
    ensures late ==> !raised && reason.RunCompleted?
    ensures !late && !raised && reason.RunCompleted? ==>
      criteria.maxCycles.Some? && cycles >= criteria.maxCycles.value
  {
    var store := new StateStore();
    cycles, raised, reason, l := 0, false, RunCompleted, Locals(p, [], Fresh(p).counters);
    late := false;
    NothingRunYet(criteria, p, script, store);
    var startedAt := clock.Now();
    ghost var first := clock.ticks;
    var deadline := DeadlineOf(criteria, startedAt);
    while true
      invariant fresh(store) && Running(criteria, p, script, cycles, store, l) && !raised && reason.RunCompleted?
      invariant !late && first <= clock.ticks && InTime(clock, first, deadline, false)
      decreases if criteria.maxCycles.Some? then AtLeastZero(criteria.maxCycles.value - cycles)
                else AtLeastZero(horizon - clock.ticks)
    {
      var over;
      over, cycles, raised, reason, l, late := NextTurn(criteria, p, script, cycles, store, l, clock, deadline, first);
      if over { return; }
    }
  }

  function DeadlineOf(criteria: Criteria, startedAt: int): Option<int> {
    if criteria.maxDuration.Some? then Some(startedAt + criteria.maxDuration.value) else None
  }
}
