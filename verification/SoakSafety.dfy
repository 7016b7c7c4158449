/** What a soak run keeps and reports, for every script of cycles. */
module SoakSafety {
  import opened Collections
  import opened Contracts
  import opened LiveTranslation
  import opened Reconciliation
  import opened LivePortfolioGate
  import opened RestrictedLiveRuns
  import opened SoakRun
  import opened ExchangeHealth

  // ------------------------------------------------------------- stop reasons

  /** The stream is terminated, or the reconciliation cycle on record is fatal: no other component can be. */
  ghost predicate FatalOnRecord(c: SoakCycle, r: Option<Record>) {
    || (c.stream.Some? && c.stream.value.state.Terminated?)
    || NeedsOperator(r)
  }

  /** The reconciliation cycle on record left an order to an operator, or announced it. */
  ghost predicate NeedsOperator(r: Option<Record>) {
    && r.Some? && r.value.transport.Some?
    && (r.value.transport.value.snapshot.manual != []
        || exists e :: e in r.value.transport.value.workflow.events && e.state.UnreconciledManualAttention?)
  }

  lemma NeedsOperatorExactly(c: SoakCycle, r: Option<Record>)
    ensures CurrentHealth(c.stream, r).reconciliation.Fatal? <==> NeedsOperator(r)
  {
    if r.Some? && r.value.transport.Some? {
      var events := r.value.transport.value.workflow.events;
      if Announced(events, UnreconciledManualAttention) {
        var i :| 0 <= i < |events| && events[i].state == UnreconciledManualAttention;
        assert events[i] in events;
      }
      if e :| e in events && e.state.UnreconciledManualAttention? {
        var i :| 0 <= i < |events| && events[i] == e;
        assert events[i].state == UnreconciledManualAttention;
      }
    }
  }

  lemma FatalExactly(c: SoakCycle, r: Option<Record>)
    ensures CurrentHealth(c.stream, r).overall.Fatal? <==> FatalOnRecord(c, r)
  {
    var h := CurrentHealth(c.stream, r);
    NeedsOperatorExactly(c, r);
    var states := [h.stream, h.reconciliation, h.clock, h.statusQuery];
    assert states[0] in states && states[1] in states;
    OverallIsWorst(states);
  }

  /**
   * What the criteria make of the n-th cycle of a run: the first that applies of the abort on fatal health, the abort
   * on manual attention, and the limit of blocked mutations; none of them lets the run go on.
   */
  lemma StopsExactly(criteria: Criteria, p: PortfolioState, script: SoakScript, n: nat)
    requires !After(p, script, n + 1).live.failed
    ensures var t, c := After(p, script, n + 1).counters, script(n);
      var reason := StopFor(criteria, t);
      var fatal := criteria.abortOnFatal && FatalOnRecord(c, t.last);
      var manual := criteria.abortOnManual && NeedsOperator(t.last);
      && (reason.FatalExchangeHealth? <==> fatal)
      && (reason.ManualAttentionNeeded? <==> manual && !fatal)
      && (reason.MaxBlockedMutations? <==> t.blocked >= criteria.maxBlocked && !manual && !fatal)
  {
    var st, c := After(p, script, n), script(n);
    assert After(p, script, n + 1) == SoakStep(st, c);
    StepCounts(st, c);
    FatalExactly(c, Recorded(st, c));
    NeedsOperatorExactly(c, Recorded(st, c));
  }

  /**
   * With an abort on fatal health or on manual attention, no run goes on after a cycle whose gate call ends in manual
   * attention.
   */
  lemma ManualAttentionEndsTheRun(criteria: Criteria, p: PortfolioState, script: SoakScript, n: nat, input: GateInput)
    requires criteria.abortOnFatal || criteria.abortOnManual
    requires script(n).gate == Some(input) && input.payloads != [] && !After(p, script, n + 1).live.failed
    requires var live := After(p, script, n).live;
      Reconciled(live.snapshot, CycleOf(input)).workflow.convergence.ManualAttention?
    ensures !StopFor(criteria, After(p, script, n + 1).counters).RunCompleted?
  {
    var st, c := After(p, script, n), script(n);
    assert After(p, script, n + 1) == SoakStep(st, c);
    StepCounts(st, c);
    ManualAttentionIsFatal(st.live.snapshot, CycleOf(input));
    NeedsOperatorExactly(c, Recorded(st, c));
    FatalExactly(c, Recorded(st, c));
  }

  /** With the abort on fatal exchange health, no run ends for manual attention. */
  lemma NeverEndsForManualAttention(
    criteria: Criteria, p: PortfolioState, script: SoakScript, n: nat, raised: bool, reason: StopReason, l: Locals)
    requires Ended(criteria, p, script, n, raised, reason, l) && !raised && criteria.abortOnFatal
    ensures !reason.ManualAttentionNeeded?
  {
    if n > 0 {
      var st, c := After(p, script, n - 1), script(n - 1);
      assert After(p, script, n) == SoakStep(st, c);
      ManualAttentionNeverStops(criteria, st.counters, Recorded(st, c), c);
    }
  }

  /** A limit of at least one blocked mutation is never exceeded. */
  lemma BlockedWithinLimit(criteria: Criteria, p: PortfolioState, script: SoakScript, n: nat)
    requires EarlierTurnsGoOn(criteria, p, script, n) && criteria.maxBlocked >= 1
    ensures After(p, script, n).counters.blocked <= criteria.maxBlocked
  {
    if n > 1 { assert StopFor(criteria, After(p, script, n - 1).counters).RunCompleted?; }
  }

  // ------------------------------------------------------------------- deltas

  function Total(deltas: seq<int>): int {
    if deltas == [] then 0 else Total(deltas[..|deltas| - 1]) + deltas[|deltas| - 1]
  }

  lemma TotalOfNoted(deltas: seq<int>, now: int, before: int)
    requires now >= before
    ensures Total(NoteDelta(deltas, now, before)) == Total(deltas) + (now - before)
  {
    if now > before { assert (deltas + [now - before])[..|deltas|] == deltas; }
  }

  /** The counters of the payload source never fall, as every poll guarantees. */
  ghost predicate CountersGrow(script: SoakScript) {
    forall n: nat ::
      && script(n).stats.reconnectCount <= script(n + 1).stats.reconnectCount
      && script(n).stats.refreshAttempts <= script(n + 1).stats.refreshAttempts
  }

  ghost predicate Balanced(t: Counters) {
    Total(t.reconnectDeltas) == t.reconnects && Total(t.refreshDeltas) == t.refreshes
  }

  /** The last counters of the first `n` cycles. */
  ghost predicate UpTo(t: Counters, script: SoakScript, n: nat) {
    n > 0 ==>
      t.reconnects == script(n - 1).stats.reconnectCount && t.refreshes == script(n - 1).stats.refreshAttempts
  }

  lemma StepCounts(st: Progress, c: SoakCycle)
    requires !SoakStep(st, c).live.failed
    ensures !st.live.failed && SoakStep(st, c).counters == Count(st.counters, Recorded(st, c), c)
  {
  }

  /** The recorded deltas add up to the final counters. */
  lemma {:induction false} DeltasAddUp(p: PortfolioState, script: SoakScript, n: nat)
    requires CountersGrow(script) && !After(p, script, n).live.failed
    ensures Balanced(After(p, script, n).counters) && UpTo(After(p, script, n).counters, script, n)
  {
    if n > 0 {
      var st, c := After(p, script, n - 1), script(n - 1);
      StepCounts(st, c);
      DeltasAddUp(p, script, n - 1);
      if n > 1 { assert script(n - 2).stats.reconnectCount <= script(n - 2 + 1).stats.reconnectCount; }
      CountedDeltas(st.counters, Recorded(st, c), c);
    }
  }

  ghost predicate OnlyGrowth(deltas: seq<int>) {
    forall d :: d in deltas ==> d > 0
  }

  ghost predicate RecordsGrowth(t: Counters) {
    OnlyGrowth(t.reconnectDeltas) && OnlyGrowth(t.refreshDeltas)
  }

  lemma CountingRecordsGrowth(t: Counters, r: Option<Record>, c: SoakCycle)
    requires RecordsGrowth(t)
    ensures RecordsGrowth(Count(t, r, c))
  {
  }

  /** Only growth is recorded: no recorded delta is zero or negative. */
  lemma {:induction false} DeltasAreGrowth(p: PortfolioState, script: SoakScript, n: nat)
    ensures RecordsGrowth(After(p, script, n).counters)
  {
    if n > 0 {
      DeltasAreGrowth(p, script, n - 1);
      var st, c := After(p, script, n - 1), script(n - 1);
      CountingRecordsGrowth(st.counters, Recorded(st, c), c);
    }
  }

  lemma CountedDeltas(t: Counters, r: Option<Record>, c: SoakCycle)
    requires Balanced(t) && t.reconnects <= c.stats.reconnectCount && t.refreshes <= c.stats.refreshAttempts
    ensures Balanced(Count(t, r, c))
  {
    TotalOfNoted(t.reconnectDeltas, c.stats.reconnectCount, t.reconnects);
    TotalOfNoted(t.refreshDeltas, c.stats.refreshAttempts, t.refreshes);
  }

  // ------------------------------------------------------- fills over a run

  /** No fill id is posted twice in a soak run, and its books are one fold over everything it posted. */
  lemma {:induction false} SoakPostsOnce(p: PortfolioState, script: SoakScript, n: nat)
    ensures Sound(p, [], After(p, script, n).live)
  {
    if n > 0 {
      SoakPostsOnce(p, script, n - 1);
      var st, c := After(p, script, n - 1), script(n - 1);
      if c.gate.Some? { StepIsSound(p, [], true, st.live, c.gate.value); }
    } else {
      assert Ids([]) == [];
    }
  }

  ghost predicate RememberedUnposted(st: LiveState, id: string) {
    id in st.already && id !in Ids(st.posted)
  }

  lemma SoakStepKeepsUnposted(st: Progress, c: SoakCycle, id: string)
    requires RememberedUnposted(st.live, id)
    ensures RememberedUnposted(SoakStep(st, c).live, id)
  {
    if c.gate.Some? { StepKeepsUnposted(st.live, c.gate.value, id); }
  }

  /**
   * What the runner remembers without having posted it, such as ids ignored by a blocked pass, is never posted later.
   */
  lemma {:induction false} RememberedStaysUnposted(p: PortfolioState, script: SoakScript, k: nat, n: nat, id: string)
    requires k <= n && RememberedUnposted(After(p, script, k).live, id)
    ensures RememberedUnposted(After(p, script, n).live, id)
  {
    if k < n {
      RememberedStaysUnposted(p, script, k, n - 1, id);
      SoakStepKeepsUnposted(After(p, script, n - 1), script(n - 1), id);
    }
  }

  lemma StepKeepsUnposted(st: LiveState, input: GateInput, id: string)
    requires RememberedUnposted(st, id)
    ensures RememberedUnposted(LiveStep(true, st, input), id)
  {
    var g := Gated(st.snapshot, st.portfolio, input, st.already);
    if !st.failed && g.Ok? {
      DistinctMembers(st.already + Remembered(g.value.translation, true));
      if g.value.applied {
        PostedBatch(st, input);
        IdsConcat(st.posted, Assess(PassAt(st, input)).applied);
      }
    }
  }

  // ------------------------------------------------------------ stale results

  /** The n-th cycle did not reach the gate while a blocked mutation was on record. */
  ghost predicate RepeatsBlock(p: PortfolioState, script: SoakScript, n: nat) {
    script(n).gate.None? && IsBlocked(After(p, script, n).counters.last)
  }

  /** How many of the first `n` cycles had a mutation of their own blocked. */
  ghost function BlockedByGate(p: PortfolioState, script: SoakScript, n: nat): nat {
    if n == 0 then 0
    else
      BlockedByGate(p, script, n - 1)
      + if script(n - 1).gate.Some? && IsBlocked(After(p, script, n).counters.last) then 1 else 0
  }

  ghost function Repeats(p: PortfolioState, script: SoakScript, n: nat): nat {
    if n == 0 then 0 else Repeats(p, script, n - 1) + if RepeatsBlock(p, script, n - 1) then 1 else 0
  }

  lemma {:induction false} BlockedCount(p: PortfolioState, script: SoakScript, n: nat)
    requires !After(p, script, n).live.failed
    ensures After(p, script, n).counters.blocked == BlockedByGate(p, script, n) + Repeats(p, script, n)
  {
    if n > 0 { BlockedCount(p, script, n - 1); }
  }

  lemma {:induction false} NoRepeats(p: PortfolioState, script: SoakScript, n: nat)
    ensures Repeats(p, script, n) == 0 <==> forall k :: 0 <= k < n ==> !RepeatsBlock(p, script, k)
  {
    if n > 0 { NoRepeats(p, script, n - 1); }
  }

  /**
   * The reported number of blocked mutations is the true one exactly when no cycle without a gate call repeated a
   * block.
   */
  lemma BlockedCountExact(p: PortfolioState, script: SoakScript, n: nat)
    requires !After(p, script, n).live.failed
    ensures After(p, script, n).counters.blocked == BlockedByGate(p, script, n)
       <==> forall k :: 0 <= k < n ==> !RepeatsBlock(p, script, k)
  {
    BlockedCount(p, script, n);
    NoRepeats(p, script, n);
  }

  // ------------------------------------------------------------ counters

  /** The status queries of the result on record after the n-th cycle. */
  ghost function QueriesOnRecord(p: PortfolioState, script: SoakScript, n: nat): nat {
    var last := After(p, script, n).counters.last;
    if last.Some? && last.value.transport.Some? then |last.value.transport.value.outcome.search.health| else 0
  }

  ghost predicate ConvergedOnRecord(p: PortfolioState, script: SoakScript, n: nat) {
    var last := After(p, script, n).counters.last;
    && last.Some? && last.value.transport.Some?
    && last.value.transport.value.workflow.convergence.ConvergedTerminal?
  }

  ghost function QueriesUpTo(p: PortfolioState, script: SoakScript, n: nat): nat {
    if n == 0 then 0 else QueriesUpTo(p, script, n - 1) + QueriesOnRecord(p, script, n)
  }

  ghost function ConvergedUpTo(p: PortfolioState, script: SoakScript, n: nat): nat {
    if n == 0 then 0 else ConvergedUpTo(p, script, n - 1) + if ConvergedOnRecord(p, script, n) then 1 else 0
  }

  /** Recovery attempts and successes are those of the results on record, cycle by cycle. */
  lemma {:induction false} RecoveriesAddUp(p: PortfolioState, script: SoakScript, n: nat)
    requires !After(p, script, n).live.failed
    ensures After(p, script, n).counters.attempts == QueriesUpTo(p, script, n)
    ensures After(p, script, n).counters.successes == ConvergedUpTo(p, script, n)
  {
    if n > 0 {
      StepCounts(After(p, script, n - 1), script(n - 1));
      RecoveriesAddUp(p, script, n - 1);
    }
  }

  /** The result on record is that of the last gate call, and there is none before the first. */
  lemma RecordIsLastGateCall(p: PortfolioState, script: SoakScript, n: nat)
    requires !After(p, script, n + 1).live.failed
    ensures var st, last := After(p, script, n), After(p, script, n + 1).counters.last;
      match script(n).gate
      case None => last == st.counters.last
      case Some(input) =>
        var g := Gated(st.live.snapshot, st.live.portfolio, input, st.live.already);
        && g.Ok? && last.Some? && last.value.outcome == g.value
        && (last.value.transport.Some? <==> input.payloads != [])
        && (last.value.transport.Some? ==>
              last.value.transport.value == Reconciled(st.live.snapshot, CycleOf(input)))
  {
    StepCounts(After(p, script, n), script(n));
  }
}
