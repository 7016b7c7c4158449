/** `_merge_order_states` of `app/exchanges/binance/live_portfolio_gate.py`. */
module OrderMerge {
  import opened Collections
  import opened Contracts
  import opened LiveTranslation
  import opened Coordinator

  /** The reconciled entry knows the order's shape and the earlier state does not. */
  predicate PreferShape(existing: OrderState) {
    existing.instrumentId == "UNKNOWN" || existing.requested == 0.0
  }

  predicate Richer(existing: OrderState, o: OrderState) {
    o.filled > existing.filled || o.remaining < existing.remaining
    || (TerminalStatus(o.status) && !TerminalStatus(existing.status))
  }

  /** One reconciled entry merged into an earlier state of the same order. */
  function MergeOrder(existing: OrderState, o: OrderState): OrderState {
    var shape, quantities := PreferShape(existing), PreferShape(existing) || Richer(existing, o);
    OrderRecord(
      if shape then o.venue else existing.venue,
      existing.orderId,
      if shape && o.clientOrderId != "" then o.clientOrderId else existing.clientOrderId,
      if shape then o.instrumentId else existing.instrumentId,
      if shape then o.side else existing.side,
      if shape then o.orderType else existing.orderType,
      if o.reconciliation == Some(SubmitSent) then existing.status else o.status,
      if quantities || (existing.requested == 0.0 && o.requested > 0.0) then o.requested else existing.requested,
      if quantities then o.filled else existing.filled,
      if quantities then o.remaining else existing.remaining,
      if existing.lastUpdate < o.lastUpdate then o.lastUpdate else existing.lastUpdate,
      if shape then o.limitPrice else existing.limitPrice,
      if shape || (Richer(existing, o) && o.averageFillPrice.Some?) then o.averageFillPrice
      else existing.averageFillPrice,
      o.reconciliation)
  }

  // -------------------------- insertion-ordered dictionary keyed by order id

  function Put(states: seq<OrderState>, o: OrderState): seq<OrderState> {
    if states == [] then [o]
    else if states[0].orderId == o.orderId then [o] + states[1..]
    else [states[0]] + Put(states[1..], o)
  }

  ghost predicate UniqueIds(states: seq<OrderState>) {
    forall i, j :: 0 <= i < j < |states| ==> states[i].orderId != states[j].orderId
  }

  lemma {:induction false} PutFacts(states: seq<OrderState>, o: OrderState)
    requires UniqueIds(states)
    ensures UniqueIds(Put(states, o))
    ensures forall s :: s in Put(states, o) <==> s == o || (s in states && s.orderId != o.orderId)
    ensures forall id :: FindOrder(Put(states, o), id) == if id == o.orderId then Some(o) else FindOrder(states, id)
  {
    if states != [] && states[0].orderId != o.orderId {
      PutFacts(states[1..], o);
      FindHead(states);
      FindHead(Put(states, o));
    } else if states != [] {
      FindHead(states);
      FindHead(Put(states, o));
    } else {
      assert [o][..0] == [];
    }
  }

  lemma {:induction false} FindHead(states: seq<OrderState>)
    requires states != [] && UniqueIds(states)
    ensures forall id ::
      FindOrder(states, id) == if id == states[0].orderId then Some(states[0]) else FindOrder(states[1..], id)
  {
    if |states| == 1 {
      assert states[..0] == [] && states[1..] == [];
    } else {
      FindHead(states[..|states| - 1]);
      assert states[..|states| - 1][1..] == states[1..][..|states| - 2];
    }
  }

  /** The dictionary of the privately translated states: the last state of each id. */
  function Indexed(states: seq<OrderState>): seq<OrderState> {
    if states == [] then [] else Put(Indexed(states[..|states| - 1]), states[|states| - 1])
  }

  function MergeInto(states: seq<OrderState>, o: OrderState): seq<OrderState> {
    match FindOrder(states, o.orderId)
    case None => Put(states, o)
    case Some(existing) => Put(states, MergeOrder(existing, o))
  }

  function Merged(translated: seq<OrderState>, reconciled: seq<OrderState>): seq<OrderState> {
    if reconciled == [] then Indexed(translated)
    else MergeInto(Merged(translated, reconciled[..|reconciled| - 1]), reconciled[|reconciled| - 1])
  }

  /** A map and its insertion order hold these states. */
  ghost predicate Represents(keys: seq<string>, byId: map<string, OrderState>, states: seq<OrderState>) {
    && |keys| == |states| && UniqueIds(states)
    && (forall i :: 0 <= i < |keys| ==> keys[i] in byId && byId[keys[i]] == states[i] && states[i].orderId == keys[i])
    && (forall id :: id in byId ==> id in keys)
  }

  lemma {:induction false} PutAppendsOrReplaces(states: seq<OrderState>, o: OrderState)
    ensures (forall i :: 0 <= i < |states| ==> states[i].orderId != o.orderId) ==> Put(states, o) == states + [o]
    ensures forall i :: 0 <= i < |states| && states[i].orderId == o.orderId && UniqueIds(states) ==>
      Put(states, o) == states[i := o]
  {
    if states != [] && states[0].orderId != o.orderId { PutAppendsOrReplaces(states[1..], o); }
  }

  lemma {:induction false} FindAt(states: seq<OrderState>, i: nat)
    requires UniqueIds(states) && i < |states|
    ensures FindOrder(states, states[i].orderId) == Some(states[i])
  {
    if i < |states| - 1 { FindAt(states[..|states| - 1], i); }
  }

  lemma RepresentedLookup(keys: seq<string>, byId: map<string, OrderState>, states: seq<OrderState>, id: string)
    requires Represents(keys, byId, states)
    ensures FindOrder(states, id) == if id in byId then Some(byId[id]) else None
  {
    FoundHasId(states, id);
    if id in byId {
      var i :| 0 <= i < |keys| && keys[i] == id;
      FindAt(states, i);
    }
  }

  method Store(keys: seq<string>, byId: map<string, OrderState>, o: OrderState, ghost states: seq<OrderState>)
    returns (newKeys: seq<string>, newById: map<string, OrderState>)
    requires Represents(keys, byId, states)
    ensures Represents(newKeys, newById, Put(states, o))
  {
    PutFacts(states, o);
    newById := byId[o.orderId := o];
    if o.orderId in byId {
      newKeys := keys;
      Replaced(keys, byId, states, o);
    } else {
      newKeys := keys + [o.orderId];
      PutAppendsOrReplaces(states, o);
      assert Put(states, o) == states + [o];
    }
  }

  lemma Replaced(keys: seq<string>, byId: map<string, OrderState>, states: seq<OrderState>, o: OrderState)
    requires Represents(keys, byId, states) && o.orderId in byId
    ensures Represents(keys, byId[o.orderId := o], Put(states, o))
  {
    PutFacts(states, o);
    PutAppendsOrReplaces(states, o);
    var i :| 0 <= i < |keys| && keys[i] == o.orderId;
    assert Put(states, o) == states[i := o];
  }

  /** The dictionary loops of the gate. */
  method MergeOrderStates(translated: seq<OrderState>, reconciled: seq<OrderState>) returns (states: seq<OrderState>)
    ensures states == Merged(translated, reconciled)
  {
    var keys: seq<string>, byId: map<string, OrderState> := [], map[];
    for i := 0 to |translated|
      invariant Represents(keys, byId, Indexed(translated[..i]))
    {
      assert translated[..i + 1][..i] == translated[..i];
      keys, byId := Store(keys, byId, translated[i], Indexed(translated[..i]));
    }
    assert translated[..|translated|] == translated;
    for i := 0 to |reconciled|
      invariant Represents(keys, byId, Merged(translated, reconciled[..i]))
    {
      var o := reconciled[i];
      assert reconciled[..i + 1][..i] == reconciled[..i];
      RepresentedLookup(keys, byId, Merged(translated, reconciled[..i]), o.orderId);
      var merged := if o.orderId in byId then MergeOrder(byId[o.orderId], o) else o;
      keys, byId := Store(keys, byId, merged, Merged(translated, reconciled[..i]));
    }
    assert reconciled[..|reconciled|] == reconciled;
    states := seq(|keys|, i requires 0 <= i < |keys| && keys[i] in byId => byId[keys[i]]);
  }

  // ------------------------------------------------------------------ theorems

  lemma {:induction false} IndexedFacts(translated: seq<OrderState>)
    ensures UniqueIds(Indexed(translated))
    ensures forall id :: FindOrder(Indexed(translated), id) == FindOrder(translated, id)
  {
    if translated != [] {
      IndexedFacts(translated[..|translated| - 1]);
      PutFacts(Indexed(translated[..|translated| - 1]), translated[|translated| - 1]);
    }
  }

  ghost function StateAfterMerge(states: seq<OrderState>, o: OrderState, id: string): Option<OrderState> {
    if id != o.orderId then FindOrder(states, id)
    else if FindOrder(states, id).Some? then Some(MergeOrder(FindOrder(states, id).value, o))
    else Some(o)
  }

  lemma MergeStep(states: seq<OrderState>, o: OrderState)
    requires UniqueIds(states)
    ensures UniqueIds(MergeInto(states, o))
    ensures forall id :: FindOrder(MergeInto(states, o), id) == StateAfterMerge(states, o, id)
  {
    FoundHasId(states, o.orderId);
    PutFacts(states, o);
    if FindOrder(states, o.orderId).Some? { PutFacts(states, MergeOrder(FindOrder(states, o.orderId).value, o)); }
  }

  /** Merging yields one state per id, over the ids of both sides. */
  lemma {:induction false} OneStatePerId(translated: seq<OrderState>, reconciled: seq<OrderState>)
    ensures UniqueIds(Merged(translated, reconciled))
    ensures forall id :: FindOrder(Merged(translated, reconciled), id).Some? <==>
      FindOrder(translated, id).Some? || FindOrder(reconciled, id).Some?
  {
    if reconciled == [] {
      IndexedFacts(translated);
    } else {
      OneStatePerId(translated, reconciled[..|reconciled| - 1]);
      MergeStep(Merged(translated, reconciled[..|reconciled| - 1]), reconciled[|reconciled| - 1]);
    }
  }

  ghost predicate DecidedBy(o: OrderState, earlier: Option<OrderState>, merged: Option<OrderState>) {
    && merged.Some? && merged.value.reconciliation == o.reconciliation
    && merged.value.status ==
         if o.reconciliation == Some(SubmitSent) && earlier.Some? then earlier.value.status else o.status
  }

  /**
   * The last reconciled entry of an id decides its reconciliation state, and its status unless the entry is
   * SUBMIT_SENT, which keeps the status the order had before.
   */
  lemma {:induction false} LastEntryDecides(
    translated: seq<OrderState>, before: seq<OrderState>, o: OrderState, after: seq<OrderState>)
    requires forall s :: s in after ==> s.orderId != o.orderId
    ensures DecidedBy(o, FindOrder(Merged(translated, before), o.orderId),
                      FindOrder(Merged(translated, before + [o] + after), o.orderId))
  {
    if after == [] {
      assert before + [o] + after == before + [o];
      MergeLast(translated, before, o);
    } else {
      var front, last := after[..|after| - 1], after[|after| - 1];
      assert before + [o] + after == (before + [o] + front) + [last];
      assert last in after && forall s :: s in front ==> s in after;
      LastEntryDecides(translated, before, o, front);
      MergeLast(translated, before + [o] + front, last);
    }
  }

  lemma MergeLast(translated: seq<OrderState>, before: seq<OrderState>, o: OrderState)
    ensures forall id ::
      FindOrder(Merged(translated, before + [o]), id) == StateAfterMerge(Merged(translated, before), o, id)
  {
    assert (before + [o])[..|before|] == before;
    OneStatePerId(translated, before);
    MergeStep(Merged(translated, before), o);
  }

  /** Ids without a reconciled entry keep their last private state. */
  lemma {:induction false} UnreconciledKeepsState(translated: seq<OrderState>, reconciled: seq<OrderState>, id: string)
    requires FindOrder(reconciled, id).None?
    ensures FindOrder(Merged(translated, reconciled), id) == FindOrder(translated, id)
  {
    if reconciled == [] {
      IndexedFacts(translated);
    } else {
      UnreconciledKeepsState(translated, reconciled[..|reconciled| - 1], id);
      OneStatePerId(translated, reconciled[..|reconciled| - 1]);
      MergeStep(Merged(translated, reconciled[..|reconciled| - 1]), reconciled[|reconciled| - 1]);
    }
  }

  /**
   * Merging the all-zero entry of a matched order keeps the privately reported fill exactly when nothing was filled
   * or nothing remains: an open, partially filled order loses its fill.
   */
  lemma MatchedEntryKeepsFill(existing: OrderState, at: int)
    ensures MergeOrder(existing, MatchedEntry(existing.orderId, at)).filled == existing.filled <==>
      existing.filled == 0.0 || (existing.remaining == 0.0 && existing.instrumentId != "UNKNOWN")
  {
  }

  /** The earlier state does not say which instrument the order is for, or how much of it was requested. */
  ghost predicate KnowsLess(existing: OrderState) {
    existing.instrumentId == "UNKNOWN" || existing.requested == 0.0
  }

  ghost predicate HasEnded(o: OrderState) {
    o.status.Filled? || o.status.Canceled? || o.status.Rejected? || o.status.Expired?
  }

  /** The entry reports more filled, less remaining, or an end of the order that was not known before. */
  ghost predicate KnowsMore(existing: OrderState, o: OrderState) {
    o.filled > existing.filled || o.remaining < existing.remaining || (HasEnded(o) && !HasEnded(existing))
  }

  /**
   * What merging an entry into an earlier state yields, field by field: the three quantities stay together, the shape
   * of the order is replaced only where it was unknown, and the later of the two times stands.
   */
  lemma MergedExactly(existing: OrderState, o: OrderState)
    ensures var m := MergeOrder(existing, o);
      var shape, quantities :=
        if KnowsLess(existing) then o else existing,
        if KnowsLess(existing) || KnowsMore(existing, o) then o else existing;
      && m.orderId == existing.orderId && m.reconciliation == o.reconciliation
      && m.status == (if o.reconciliation == Some(SubmitSent) then existing.status else o.status)
      && m.venue == shape.venue && m.instrumentId == shape.instrumentId && m.side == shape.side
      && m.orderType == shape.orderType && m.limitPrice == shape.limitPrice
      && m.clientOrderId == (if shape.clientOrderId != "" then shape.clientOrderId else existing.clientOrderId)
      && m.requested == quantities.requested && m.filled == quantities.filled && m.remaining == quantities.remaining
      && m.averageFillPrice ==
           (if KnowsLess(existing) || (KnowsMore(existing, o) && o.averageFillPrice.Some?) then o.averageFillPrice
            else existing.averageFillPrice)
      && m.lastUpdate >= existing.lastUpdate && m.lastUpdate >= o.lastUpdate
      && (m.lastUpdate == existing.lastUpdate || m.lastUpdate == o.lastUpdate)
  {
  }

  /** Whatever was reported before, a recovered entry brings its status, and its quantities if it knows more. */
  lemma RecoveredEntryIsTakenOver(translated: seq<OrderState>, before: seq<OrderState>, o: OrderState)
    requires o.reconciliation == Some(RecoveredTerminalState)
    ensures var merged, earlier := FindOrder(Merged(translated, before + [o]), o.orderId),
        FindOrder(Merged(translated, before), o.orderId);
      && merged.Some? && merged.value.status == o.status && merged.value.reconciliation == o.reconciliation
      && (earlier.None? || KnowsLess(earlier.value) || KnowsMore(earlier.value, o) ==>
            && merged.value.requested == o.requested && merged.value.filled == o.filled
            && merged.value.remaining == o.remaining)
  {
    MergeLast(translated, before, o);
  }
}
