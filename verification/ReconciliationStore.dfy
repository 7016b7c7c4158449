/** `JsonBinanceReconciliationStateStore` of `app/storage/reconciliation_state.py`; the state file is a field. */
module ReconciliationStore {
  import opened Collections
  import opened Contracts
  import opened Recovery
  import opened Coordinator

  datatype Attempt = Attempt(
    fingerprint: string, field: string, value: string, source: string, number: int, found: bool,
    status: Option<string>, alert: Option<string>, cursor: Option<string>, firstSeen: int, lastSeen: int)

  datatype Snapshot = Snapshot(
    updatedAt: Option<int>, cursor: Option<string>, gapActive: bool, unresolved: seq<string>, manual: seq<string>,
    lastTrigger: Option<Trigger>, lastAutomatic: bool, lastConvergence: Option<Convergence>,
    lastManualAt: Option<int>, attempts: seq<Attempt>)

  /** What `load_snapshot` returns when there is no state file. */
  function EmptySnapshot(): Snapshot {
    Snapshot(None, None, false, [], [], None, false, None, None, [])
  }

  // ----------------------------------------------------------- fingerprints

  function Join(parts: seq<string>): string {
    if parts == [] then "" else if |parts| == 1 then parts[0] else parts[0] + "|" + Join(parts[1..])
  }

  function OrEmpty(s: Option<string>): string {
    if s.Some? then s.value else ""
  }

  function FingerprintParts(l: Lookup, cursor: Option<string>): seq<string> {
    [l.field, l.value, l.source, OrEmpty(l.status), OrEmpty(l.alert),
     if l.found then "found" else "missing", OrEmpty(cursor)]
  }

  /** `_fingerprint` */
  function Fingerprint(l: Lookup, cursor: Option<string>): string {
    Join(FingerprintParts(l, cursor))
  }

  // ------------------------------------------------------- attempt numbering

  function FindAttempt(attempts: seq<Attempt>, fingerprint: string): Option<Attempt> {
    if attempts == [] then None
    else if attempts[|attempts| - 1].fingerprint == fingerprint then Some(attempts[|attempts| - 1])
    else FindAttempt(attempts[..|attempts| - 1], fingerprint)
  }

  function Max(a: int, b: int): int { if a < b then b else a }

  /** `max(..., default=0)` over the attempts recorded for this field and value. */
  function HighestNumber(attempts: seq<Attempt>, field: string, value: string): int {
    if attempts == [] then 0
    else
      var rest, a := HighestNumber(attempts[..|attempts| - 1], field, value), attempts[|attempts| - 1];
      if a.field == field && a.value == value
      then (if Recorded(attempts[..|attempts| - 1], field, value) == 0 then a.number else Max(rest, a.number))
      else rest
  }

  /** How many attempts are recorded for this field and value. */
  function Recorded(attempts: seq<Attempt>, field: string, value: string): nat {
    if attempts == [] then 0
    else
      Recorded(attempts[..|attempts| - 1], field, value)
      + (if attempts[|attempts| - 1].field == field && attempts[|attempts| - 1].value == value then 1 else 0)
  }

  function NewAttempt(attempts: seq<Attempt>, l: Lookup, cursor: Option<string>, at: int): Attempt {
    Attempt(Fingerprint(l, cursor), l.field, l.value, l.source, 1 + HighestNumber(attempts, l.field, l.value), l.found,
            l.status, l.alert, cursor, at, at)
  }

  datatype Registration = Registration(attempts: seq<Attempt>, lookups: seq<Lookup>)

  function RegisterOne(r: Registration, l: Lookup, cursor: Option<string>, at: int): Registration {
    match FindAttempt(r.attempts, Fingerprint(l, cursor))
    case Some(a) => Registration(r.attempts, r.lookups + [l.(attempt := a.number)])
    case None =>
      var a := NewAttempt(r.attempts, l, cursor, at);
      Registration(r.attempts + [a], r.lookups + [l.(attempt := a.number)])
  }

  function Registered(attempts: seq<Attempt>, lookups: seq<Lookup>, cursor: Option<string>, at: int): Registration {
    if lookups == [] then Registration(attempts, [])
    else RegisterOne(Registered(attempts, lookups[..|lookups| - 1], cursor, at), lookups[|lookups| - 1], cursor, at)
  }

  // ------------------------------------------------------- unresolved orders

  predicate IsPending(o: OrderState) {
    || InRecovery(o)
    || (o.reconciliation.Some?
        && (o.reconciliation.value.UnknownExecution? || o.reconciliation.value.StatusQueryPending?
            || o.reconciliation.value.UnreconciledManualAttention?))
  }

  predicate NeedsManualAttention(o: OrderState) {
    o.reconciliation == Some(UnreconciledManualAttention)
  }

  function UnresolvedAfter(states: seq<OrderState>, before: set<string>): set<string> {
    if states == [] then before
    else
      var rest, o := UnresolvedAfter(states[..|states| - 1], before), states[|states| - 1];
      if IsPending(o) then rest + {o.orderId} else rest - {o.orderId}
  }

  function ManualAfter(states: seq<OrderState>, before: set<string>): set<string> {
    if states == [] then before
    else
      var rest, o := ManualAfter(states[..|states| - 1], before), states[|states| - 1];
      if NeedsManualAttention(o) then rest + {o.orderId} else rest - {o.orderId}
  }

  /** Workflow facts that `persist_workflow_state` stores beside the order sets. */
  datatype Cycle = Cycle(
    workflow: Workflow, trigger: Trigger, automatic: bool, at: int, cursor: Option<string>, gap: bool)

  function OrElse(first: Option<string>, second: Option<string>): Option<string> {
    if first.Some? && first.value != "" then first else second
  }

  function Persisted(s: Snapshot, c: Cycle): Snapshot {
    s.(updatedAt := Some(c.at),
       cursor := OrElse(c.cursor, s.cursor),
       gapActive := c.gap,
       unresolved := SortedSet(UnresolvedAfter(c.workflow.states, Elements(s.unresolved))),
       manual := SortedSet(ManualAfter(c.workflow.states, Elements(s.manual))),
       lastTrigger := Some(c.trigger),
       lastAutomatic := c.automatic,
       lastConvergence := Some(c.workflow.convergence),
       lastManualAt := if c.workflow.convergence.ManualAttention? then Some(c.at) else s.lastManualAt)
  }

  function AfterRegistration(s: Snapshot, lookups: seq<Lookup>, cursor: Option<string>, at: int): Snapshot {
    s.(updatedAt := Some(at), cursor := OrElse(cursor, s.cursor),
      attempts := Registered(s.attempts, lookups, cursor, at).attempts)
  }

  class StateStore {
    var snapshot: Snapshot

    constructor ()
      ensures snapshot == EmptySnapshot()
    {
      snapshot := EmptySnapshot();
    }

    /**
     * `resume_expected_order_ids`: the expected and the unresolved ids, each once, in the order in which they first
     * occur, so that the expected ones come first.
     */
    method Resume(expected: seq<string>) returns (ids: seq<string>)
      ensures NoDup(ids) && forall id :: id in ids <==> id in expected || id in snapshot.unresolved
      ensures forall k :: 0 <= k <= |expected| ==> Distinct(expected[..k]) <= ids
      ensures ids == Distinct(expected + snapshot.unresolved)
    {
      var all := expected + snapshot.unresolved;
      ids := [];
      for i := 0 to |all|
        invariant ids == Distinct(all[..i])
      {
        assert all[..i + 1][..i] == all[..i];
        if all[i] !in ids { ids := ids + [all[i]]; }
      }
      assert all[..|all|] == all;
      DistinctMembers(all);
      forall k | 0 <= k <= |expected| ensures Distinct(expected[..k]) <= ids {
        DistinctGrows(all, k);
        assert all[..k] == expected[..k];
      }
    }

    method RegisterLookupResults(lookups: seq<Lookup>, at: int, cursor: Option<string>)
      returns (normalized: seq<Lookup>)
      modifies this
      ensures snapshot == AfterRegistration(old(snapshot), lookups, cursor, at)
      ensures normalized == Registered(old(snapshot).attempts, lookups, cursor, at).lookups
    {
      var s := snapshot;
      var byFingerprint: map<string, Attempt> := map[];
      for i := 0 to |s.attempts|
        invariant forall p ::
          FindAttempt(s.attempts[..i], p) == if p in byFingerprint then Some(byFingerprint[p]) else None
      {
        assert s.attempts[..i + 1][..i] == s.attempts[..i];
        byFingerprint := byFingerprint[s.attempts[i].fingerprint := s.attempts[i]];
      }
      assert s.attempts[..|s.attempts|] == s.attempts;
      var attempts := s.attempts;
      normalized := [];
      for i := 0 to |lookups|
        invariant Registration(attempts, normalized) == Registered(s.attempts, lookups[..i], cursor, at)
        invariant forall p :: FindAttempt(attempts, p) == if p in byFingerprint then Some(byFingerprint[p]) else None
      {
        var l := lookups[i];
        assert lookups[..i + 1][..i] == lookups[..i];
        var fingerprint := Fingerprint(l, cursor);
        if fingerprint in byFingerprint {
          normalized := normalized + [l.(attempt := byFingerprint[fingerprint].number)];
        } else {
          var a := NewAttempt(attempts, l, cursor, at);
          AppendedAttempt(attempts, a);
          attempts := attempts + [a];
          byFingerprint := byFingerprint[fingerprint := a];
          normalized := normalized + [l.(attempt := a.number)];
        }
      }
      assert lookups[..|lookups|] == lookups;
      snapshot := s.(updatedAt := Some(at), cursor := OrElse(cursor, s.cursor), attempts := attempts);
    }

    method PersistWorkflowState(c: Cycle)
      modifies this
      ensures snapshot == Persisted(old(snapshot), c)
    {
      var s := snapshot;
      var unresolved, manual := Elements(s.unresolved), Elements(s.manual);
      var states := c.workflow.states;
      for i := 0 to |states|
        invariant unresolved == UnresolvedAfter(states[..i], Elements(s.unresolved))
        invariant manual == ManualAfter(states[..i], Elements(s.manual))
      {
        var o := states[i];
        assert states[..i + 1][..i] == states[..i];
        if IsPending(o) { unresolved := unresolved + {o.orderId}; } else { unresolved := unresolved - {o.orderId}; }
        if o.reconciliation == Some(UnreconciledManualAttention) {
          manual := manual + {o.orderId};
        } else {
          manual := manual - {o.orderId};
        }
      }
      assert states[..|states|] == states;
      snapshot := s.(
        updatedAt := Some(c.at), cursor := OrElse(c.cursor, s.cursor), gapActive := c.gap,
        unresolved := SortedSet(unresolved), manual := SortedSet(manual), lastTrigger := Some(c.trigger),
        lastAutomatic := c.automatic, lastConvergence := Some(c.workflow.convergence),
        lastManualAt := if c.workflow.convergence.ManualAttention? then Some(c.at) else s.lastManualAt);
    }
  }

  lemma AppendedAttempt(attempts: seq<Attempt>, a: Attempt)
    ensures forall p ::
      FindAttempt(attempts + [a], p) == if p == a.fingerprint then Some(a) else FindAttempt(attempts, p)
  {
    assert (attempts + [a])[..|attempts|] == attempts;
    forall p
      ensures FindAttempt(attempts + [a], p) == if p == a.fingerprint then Some(a) else FindAttempt(attempts, p)
    {
    }
  }
}
