/** What one translation pass guarantees about the fills it is given. */
module TranslationSafety {
  import opened Collections
  import opened Contracts
  import opened PaperLedger
  import opened LiveTranslation

  // ------------------------------------------------------ filtering facts

  lemma {:induction false} NewFills(fills: seq<Fill>, already: seq<string>)
    ensures forall f :: f in Fresh(fills, already) ==> f in fills && f.fillId !in already
    ensures forall i, j :: 0 <= i < j < |Fresh(fills, already)| ==>
      Fresh(fills, already)[i].fillId != Fresh(fills, already)[j].fillId
    ensures forall f :: f in fills ==> f.fillId in already || HasId(Fresh(fills, already), f.fillId)
    ensures forall id :: id in Redelivered(fills, already) ==> HasId(fills, id)
    ensures forall f :: f in fills && f.fillId in already ==> f.fillId in Redelivered(fills, already)
  {
    if fills != [] {
      var front, f := fills[..|fills| - 1], fills[|fills| - 1];
      assert fills == front + [f];
      NewFills(front, already);
      var kept := Fresh(front, already);
      AppendedFill(kept, f);
      AppendedFill(front, f);
      assert forall g :: g in fills <==> g in front || g == f;
    }
  }

  /** Within the new fills an id names one fill. */
  lemma IdNamesFill(fills: seq<Fill>, already: seq<string>, f: Fill, g: Fill)
    requires f in Fresh(fills, already) && g in Fresh(fills, already) && f.fillId == g.fillId
    ensures f == g
  {
    NewFills(fills, already);
    var s := Fresh(fills, already);
    var i :| 0 <= i < |s| && s[i] == f;
    var j :| 0 <= j < |s| && s[j] == g;
    assert !(i < j) && !(j < i);
  }

  lemma {:induction false} OrderMembers(fills: seq<Fill>, id: string)
    ensures forall f :: f in OfOrder(fills, id) <==> f in fills && f.orderId == id
    ensures NoDup(fills) ==> NoDup(OfOrder(fills, id))
  {
    if fills != [] {
      var front, f := fills[..|fills| - 1], fills[|fills| - 1];
      assert fills == front + [f];
      OrderMembers(front, id);
      assert NoDup(fills) ==> f !in front;
    }
  }

  lemma {:induction false} SelectMembers(fills: seq<Fill>, recovered: bool)
    ensures forall f :: f in Select(fills, recovered) <==> f in fills && IsRecovered(f) == recovered
    ensures NoDup(fills) ==> NoDup(Select(fills, recovered))
  {
    if fills != [] {
      var front, f := fills[..|fills| - 1], fills[|fills| - 1];
      assert fills == front + [f];
      SelectMembers(front, recovered);
      assert NoDup(fills) ==> f !in front;
    }
  }

  lemma {:induction false} GroupMembers(fills: seq<Fill>, id: string)
    ensures id in GroupIds(fills) <==> exists f :: f in fills && f.orderId == id
  {
    if fills != [] {
      var front, f := fills[..|fills| - 1], fills[|fills| - 1];
      assert fills == front + [f];
      GroupMembers(front, id);
    }
  }

  lemma {:induction false} OfOrderConcat(a: seq<Fill>, b: seq<Fill>, id: string)
    ensures OfOrder(a + b, id) == OfOrder(a, id) + OfOrder(b, id)
  {
    if b == [] {
      assert a + b == a;
    } else {
      assert (a + b)[..|a + b| - 1] == a + b[..|b| - 1];
      OfOrderConcat(a, b[..|b| - 1], id);
    }
  }

  lemma {:induction false} OfOneOrder(fills: seq<Fill>, owner: string, id: string)
    requires forall f :: f in fills ==> f.orderId == owner
    ensures OfOrder(fills, id) == if id == owner then fills else []
  {
    if fills != [] {
      assert forall f :: f in fills[..|fills| - 1] ==> f in fills;
      OfOneOrder(fills[..|fills| - 1], owner, id);
      assert fills == fills[..|fills| - 1] + [fills[|fills| - 1]];
    }
  }

  lemma NoDupPermuted<T(!new)>(a: seq<T>, b: seq<T>)
    requires NoDup(a) && multiset(a) == multiset(b)
    ensures NoDup(b)
  {
    forall i, j | 0 <= i < j < |b| ensures b[i] != b[j] {
      NoDupCount(a, b[j]);
      assert b == b[..j] + [b[j]] + b[j + 1..];
      assert multiset(b) == multiset(b[..j]) + multiset{b[j]} + multiset(b[j + 1..]);
      assert multiset(b)[b[j]] <= 1;
      assert b[j] !in b[..j];
      assert b[i] in b[..j];
    }
  }

  lemma NoDupConcat<T(!new)>(a: seq<T>, b: seq<T>)
    requires NoDup(a) && NoDup(b) && forall x :: x in a ==> x !in b
    ensures NoDup(a + b)
  {
    forall i, j | 0 <= i < j < |a + b| ensures (a + b)[i] != (a + b)[j] {
      if i < |a| <= j { assert a[i] in a && b[j - |a|] in b; }
    }
  }

  // ------------------------------------------------------- one order's verdict

  lemma SettleFacts(o: OrderState, id: string, effective: seq<Fill>, ignored: seq<Fill>)
    requires effective != []
    ensures var v := Settle(o, id, effective, ignored);
      && v.ignored == ignored
      && (forall f :: f in v.applied ==> f in effective)
      && (!v.ambiguous ==> forall f :: f in effective ==> f in v.applied)
      && (NoDup(effective) ==> NoDup(v.applied))
      && (v.applied != [] ==> !v.ambiguous && TotalQuantity(v.applied) <= o.filled)
      && (v.applied != [] && o.status.Filled? ==> TotalQuantity(v.applied) == o.filled)
  {
    SameElements(SortFills(effective), effective);
    SumPermuted(Quantity, SortFills(effective), effective);
    if NoDup(effective) { NoDupPermuted(effective, SortFills(effective)); }
  }

  /** A verdict applies or ignores every fill of its order and never more than the order reports filled. */
  lemma JudgeFacts(id: string, order: Option<OrderState>, fills: seq<Fill>, recoveredBefore: bool)
    requires fills != []
    ensures var v := Judge(id, order, fills, recoveredBefore);
      && (forall f :: f in v.applied || f in v.ignored ==> f in fills)
      && (!v.ambiguous ==> forall f :: f in fills ==> f in v.applied || f in v.ignored)
      && (NoDup(fills) ==> NoDup(v.applied))
      && (v.applied != [] ==> order.Some? && !v.ambiguous && TotalQuantity(v.applied) <= order.value.filled)
      && (v.applied != [] && order.value.status.Filled? ==> TotalQuantity(v.applied) == order.value.filled)
  {
    SelectMembers(fills, false);
    SelectMembers(fills, true);
    if order.Some? {
      if PreferPrivate(order.value, fills) {
        SettleFacts(order.value, id, Select(fills, false), Select(fills, true));
      }
      SettleFacts(order.value, id, fills, []);
    }
  }

  lemma {:induction false} SelectPermuted(a: seq<Fill>, b: seq<Fill>, recovered: bool)
    requires NoDup(a) && NoDup(b) && multiset(a) == multiset(b)
    ensures multiset(Select(a, recovered)) == multiset(Select(b, recovered))
  {
    SelectMembers(a, recovered);
    SelectMembers(b, recovered);
    SameElements(a, b);
    NoDupSameElements(Select(a, recovered), Select(b, recovered));
  }

  lemma SameSize<T>(a: seq<T>, b: seq<T>)
    requires multiset(a) == multiset(b)
    ensures |a| == |b|
  {
    assert |a| == |multiset(a)| && |b| == |multiset(b)|;
  }

  ghost predicate SameVerdict(v: Verdict, w: Verdict) {
    && v.ambiguous == w.ambiguous && v.pending == w.pending
    && multiset(v.applied) == multiset(w.applied) && multiset(v.ignored) == multiset(w.ignored)
  }

  lemma SettlePermuted(o: OrderState, id: string, a: seq<Fill>, b: seq<Fill>, i: seq<Fill>, j: seq<Fill>)
    requires a != [] && b != [] && multiset(a) == multiset(b) && multiset(i) == multiset(j)
    ensures SameVerdict(Settle(o, id, a, i), Settle(o, id, b, j))
  {
    SumPermuted(Quantity, a, b);
  }

  /** A verdict does not depend on the order in which the order's fills arrived. */
  lemma JudgePermuted(id: string, order: Option<OrderState>, a: seq<Fill>, b: seq<Fill>, recoveredBefore: bool)
    requires a != [] && b != [] && NoDup(a) && NoDup(b) && multiset(a) == multiset(b)
    ensures SameVerdict(Judge(id, order, a, recoveredBefore), Judge(id, order, b, recoveredBefore))
  {
    if order.Some? && !InRecovery(order.value) {
      GuardsPermuted(order.value, a, b, recoveredBefore);
      SelectPermuted(a, b, false);
      SelectPermuted(a, b, true);
      if Superseded(order.value, a, recoveredBefore) {
      } else if PreferPrivate(order.value, a) {
        SettlePermuted(order.value, id, Select(a, false), Select(b, false), Select(a, true), Select(b, true));
      } else {
        SettlePermuted(order.value, id, a, b, [], []);
      }
    }
  }

  lemma GuardsPermuted(o: OrderState, a: seq<Fill>, b: seq<Fill>, recoveredBefore: bool)
    requires NoDup(a) && NoDup(b) && multiset(a) == multiset(b)
    ensures Superseded(o, a, recoveredBefore) == Superseded(o, b, recoveredBefore)
    ensures PreferPrivate(o, a) == PreferPrivate(o, b)
  {
    SelectPermuted(a, b, false);
    SelectPermuted(a, b, true);
    SameSize(Select(a, false), Select(b, false));
    SameSize(Select(a, true), Select(b, true));
    SumPermuted(Quantity, Select(a, false), Select(b, false));
  }

  // --------------------------------------------------------------- the tally

  lemma {:induction false} TallyAmbiguous(
    orders: seq<OrderState>, seen: seq<Fill>, already: seq<string>, ids: seq<string>, start: Tally)
    requires forall id :: id in ids ==> OfOrder(seen, id) != []
    ensures TallyUp(orders, seen, already, ids, start).ambiguous
       <==> start.ambiguous || exists id :: id in ids && VerdictOn(orders, seen, already, id).ambiguous
  {
    if ids != [] {
      var front, id := ids[..|ids| - 1], ids[|ids| - 1];
      assert ids == front + [id];
      TallyAmbiguous(orders, seen, already, front, start);
    }
  }

  /** One order's applied fills are exactly what its verdict applied. */
  lemma {:induction false} TallyOfOrder(
    orders: seq<OrderState>, seen: seq<Fill>, already: seq<string>, ids: seq<string>, start: Tally, other: string)
    requires forall id :: id in ids ==> OfOrder(seen, id) != []
    requires NoDup(ids) && start.applied == []
    ensures OfOrder(TallyUp(orders, seen, already, ids, start).applied, other)
         == if other in ids then VerdictOn(orders, seen, already, other).applied else []
  {
    if ids != [] {
      var front, id := ids[..|ids| - 1], ids[|ids| - 1];
      assert ids == front + [id];
      TallyOfOrder(orders, seen, already, front, start, other);
      VerdictWithinOrder(orders, seen, already, id);
      var t, v := TallyUp(orders, seen, already, front, start), VerdictOn(orders, seen, already, id);
      OfOrderConcat(t.applied, v.applied, other);
      OfOneOrder(v.applied, id, other);
      assert id !in front;
    }
  }

  lemma VerdictWithinOrder(orders: seq<OrderState>, seen: seq<Fill>, already: seq<string>, id: string)
    requires OfOrder(seen, id) != []
    ensures var v := VerdictOn(orders, seen, already, id);
      && (forall f :: f in v.applied || f in v.ignored ==> f in seen && f.orderId == id)
      && (!v.ambiguous ==> forall f :: f in seen && f.orderId == id ==> f in v.applied || f in v.ignored)
      && (NoDup(seen) ==> NoDup(v.applied))
  {
    OrderMembers(seen, id);
    JudgeFacts(id, FindOrder(orders, id), OfOrder(seen, id), RecoveredBefore(already, id));
  }

  lemma {:induction false} TallyFacts(
    orders: seq<OrderState>, seen: seq<Fill>, already: seq<string>, ids: seq<string>, start: Tally)
    requires forall id :: id in ids ==> OfOrder(seen, id) != []
    requires NoDup(ids) && NoDup(seen) && start.applied == []
    ensures var t := TallyUp(orders, seen, already, ids, start);
      && (forall f :: f in t.applied <==> f.orderId in ids && f in VerdictOn(orders, seen, already, f.orderId).applied)
      && NoDup(t.applied)
  {
    if ids != [] {
      var front, id := ids[..|ids| - 1], ids[|ids| - 1];
      assert ids == front + [id];
      TallyFacts(orders, seen, already, front, start);
      VerdictWithinOrder(orders, seen, already, id);
      assert id !in front;
      NoDupConcat(TallyUp(orders, seen, already, front, start).applied, VerdictOn(orders, seen, already, id).applied);
    }
  }

  /** A verdict of the pass sets this fill id aside. */
  ghost predicate SetAside(orders: seq<OrderState>, seen: seq<Fill>, already: seq<string>, order: string, id: string) {
    OfOrder(seen, order) != [] && HasId(VerdictOn(orders, seen, already, order).ignored, id)
  }

  lemma {:induction false} TallySetAside(
    orders: seq<OrderState>, seen: seq<Fill>, already: seq<string>, ids: seq<string>, start: Tally, id: string)
    requires forall g :: g in ids ==> OfOrder(seen, g) != []
    ensures id in TallyUp(orders, seen, already, ids, start).ignored
       <==> id in start.ignored || exists g :: g in ids && SetAside(orders, seen, already, g, id)
  {
    if ids != [] {
      var front, last := ids[..|ids| - 1], ids[|ids| - 1];
      assert ids == front + [last];
      TallySetAside(orders, seen, already, front, start, id);
      var t, v := TallyUp(orders, seen, already, front, start), VerdictOn(orders, seen, already, last);
      assert TallyUp(orders, seen, already, ids, start) == AddVerdict(t, last, v);
      IdsMembers(v.ignored, id);
      assert id in Ids(v.ignored) <==> SetAside(orders, seen, already, last, id);
    }
  }

  lemma IdsMembers(fills: seq<Fill>, id: string)
    ensures id in Ids(fills) <==> HasId(fills, id)
  {
    if HasId(fills, id) {
      var i :| 0 <= i < |fills| && fills[i].fillId == id;
      assert Ids(fills)[i] == id;
    }
  }

  lemma MemberHasId(fills: seq<Fill>, f: Fill)
    requires f in fills
    ensures HasId(fills, f.fillId) && f.fillId in Ids(fills)
  {
    var i :| 0 <= i < |fills| && fills[i] == f;
    IdsMembers(fills, f.fillId);
  }

  lemma NewFillsDistinct(fills: seq<Fill>, already: seq<string>)
    ensures NoDup(Fresh(fills, already))
  {
    NewFills(fills, already);
  }

  function Start(pass: Pass): Tally {
    Tally(Conflicting(pass.fills, pass.already), [], Redelivered(pass.fills, pass.already), [], [])
  }

  /** The facts about a pass that the theorems below share. */
  lemma AssessFacts(pass: Pass)
    ensures var t := Assess(pass);
      && NoDup(t.applied) && NoDup(pass.Fills())
      && (forall id :: id in pass.Groups() ==> OfOrder(pass.Fills(), id) != [])
      && (t.ambiguous <==>
            || Conflicting(pass.fills, pass.already)
            || (exists id :: id in pass.Groups() && VerdictOn(pass.orders, pass.Fills(), pass.already, id).ambiguous)
            || SomeLacksFills(pass.orders, pass.Groups()))
      && (forall f :: f in t.applied <==>
            f.orderId in pass.Groups() && f in VerdictOn(pass.orders, pass.Fills(), pass.already, f.orderId).applied)
      && (forall id :: OfOrder(t.applied, id) ==
            if id in pass.Groups() then VerdictOn(pass.orders, pass.Fills(), pass.already, id).applied else [])
  {
    forall id | id in pass.Groups() ensures OfOrder(pass.Fills(), id) != [] { GroupsAreInhabited(pass.Fills(), id); }
    NewFillsDistinct(pass.fills, pass.already);
    var start := Start(pass);
    TallyAmbiguous(pass.orders, pass.Fills(), pass.already, pass.Groups(), start);
    TallyFacts(pass.orders, pass.Fills(), pass.already, pass.Groups(), start);
    forall id ensures OfOrder(Assess(pass).applied, id) ==
        if id in pass.Groups() then VerdictOn(pass.orders, pass.Fills(), pass.already, id).applied else [] {
      TallyOfOrder(pass.orders, pass.Fills(), pass.already, pass.Groups(), start, id);
    }
  }

  lemma AppliedAreNew(pass: Pass, f: Fill)
    requires f in Assess(pass).applied
    ensures f in pass.Fills() && f in pass.fills && f.fillId !in pass.already
  {
    AssessFacts(pass);
    VerdictWithinOrder(pass.orders, pass.Fills(), pass.already, f.orderId);
    NewFills(pass.fills, pass.already);
  }

  // ---------------------------------------------------------------- theorems

  /** Applied ids are distinct and none of them was applied before. */
  lemma AppliedOnce(pass: Pass)
    ensures NoDup(Ids(Assess(pass).applied))
    ensures forall id :: id in Ids(Assess(pass).applied) ==> id !in pass.already && HasId(pass.fills, id)
  {
    var applied := Assess(pass).applied;
    AssessFacts(pass);
    forall i, j | 0 <= i < j < |applied| ensures applied[i].fillId != applied[j].fillId {
      AppliedAreNew(pass, applied[i]);
      AppliedAreNew(pass, applied[j]);
      if applied[i].fillId == applied[j].fillId {
        IdNamesFill(pass.fills, pass.already, applied[i], applied[j]);
        assert false;
      }
    }
    forall id | id in Ids(applied) ensures id !in pass.already && HasId(pass.fills, id) {
      IdsMembers(applied, id);
      var i :| 0 <= i < |applied| && applied[i].fillId == id;
      AppliedAreNew(pass, applied[i]);
      MemberHasId(pass.fills, applied[i]);
    }
  }

  /** A successful pass accounts for every delivered fill id, and for no other. */
  lemma NothingDropped(p: PortfolioState, pass: Pass, id: string)
    requires Translated(p, pass).Ok? && !Translated(p, pass).value.manualAttention
    ensures var r := Translated(p, pass).value;
      HasId(pass.fills, id) <==> id in r.appliedIds || id in r.ignoredIds
  {
    AllOrNothing(p, pass);
    var t := Assess(pass);
    SortedSetFacts(Elements(t.ignored));
    assert id in Translated(p, pass).value.ignoredIds <==> id in t.ignored;
    AppliedOnce(pass);
    if id in t.ignored { IgnoredWereDelivered(pass, id); }
    if HasId(pass.fills, id) {
      EveryFillIsSettled(pass, id);
    }
  }

  lemma IgnoredWereDelivered(pass: Pass, id: string)
    requires id in Assess(pass).ignored
    ensures HasId(pass.fills, id)
  {
    AssessFacts(pass);
    NewFills(pass.fills, pass.already);
    TallySetAside(pass.orders, pass.Fills(), pass.already, pass.Groups(), Start(pass), id);
    if id !in Redelivered(pass.fills, pass.already) {
      var g :| g in pass.Groups() && SetAside(pass.orders, pass.Fills(), pass.already, g, id);
      var ignored := VerdictOn(pass.orders, pass.Fills(), pass.already, g).ignored;
      var i :| 0 <= i < |ignored| && ignored[i].fillId == id;
      VerdictWithinOrder(pass.orders, pass.Fills(), pass.already, g);
      assert ignored[i] in ignored;
      MemberHasId(pass.fills, ignored[i]);
    }
  }

  lemma EveryFillIsSettled(pass: Pass, id: string)
    requires !Assess(pass).ambiguous && HasId(pass.fills, id)
    ensures id in Ids(Assess(pass).applied) || id in Assess(pass).ignored
  {
    AssessFacts(pass);
    NewFills(pass.fills, pass.already);
    TallySetAside(pass.orders, pass.Fills(), pass.already, pass.Groups(), Start(pass), id);
    var i :| 0 <= i < |pass.fills| && pass.fills[i].fillId == id;
    if id !in pass.already { EveryNewFillIsSettled(pass, id); }
  }

  lemma EveryNewFillIsSettled(pass: Pass, id: string)
    requires !Assess(pass).ambiguous && HasId(pass.Fills(), id)
    ensures id in Ids(Assess(pass).applied) || id in Assess(pass).ignored
  {
    AssessFacts(pass);
    var i :| 0 <= i < |pass.Fills()| && pass.Fills()[i].fillId == id;
    var f := pass.Fills()[i];
    GroupMembers(pass.Fills(), f.orderId);
    VerdictWithinOrder(pass.orders, pass.Fills(), pass.already, f.orderId);
    if f in Assess(pass).applied {
      MemberHasId(Assess(pass).applied, f);
    } else {
      MemberHasId(VerdictOn(pass.orders, pass.Fills(), pass.already, f.orderId).ignored, f);
      assert SetAside(pass.orders, pass.Fills(), pass.already, f.orderId, id);
      TallySetAside(pass.orders, pass.Fills(), pass.already, pass.Groups(), Start(pass), id);
    }
  }

  /** No order receives more than it reports filled; a FILLED order that receives fills receives exactly that. */
  lemma NeverOverfilled(pass: Pass, id: string)
    requires OfOrder(Assess(pass).applied, id) != []
    ensures FindOrder(pass.orders, id).Some?
    ensures var o, total := FindOrder(pass.orders, id).value, TotalQuantity(OfOrder(Assess(pass).applied, id));
      total <= o.filled && (o.status.Filled? ==> total == o.filled)
  {
    AssessFacts(pass);
    JudgeFacts(id, FindOrder(pass.orders, id), OfOrder(pass.Fills(), id), RecoveredBefore(pass.already, id));
  }

  /**
   * Once a recovered fill of an order is in the applied set, a FILLED order takes no fill from a pass that brings
   * no further recovered fill of it: late private fills are ignored or the pass is ambiguous.
   */
  lemma RecoveredNotDoubleCounted(pass: Pass, orderId: string, trade: string)
    requires ':' !in orderId
    requires orderId + RECOVERED_MARK + trade in pass.already
    requires FindOrder(pass.orders, orderId).Some? && FindOrder(pass.orders, orderId).value.status.Filled?
    requires forall f :: f in pass.fills && f.orderId == orderId && IsRecovered(f) ==> f.fillId in pass.already
    ensures OfOrder(Assess(pass).applied, orderId) == []
  {
    var id := orderId + RECOVERED_MARK + trade;
    RecoveredIdNamesItsOrder(orderId, trade);
    var i :| 0 <= i < |pass.already| && pass.already[i] == id;
    assert RecoveredBefore(pass.already, orderId);
    AssessFacts(pass);
    if orderId in pass.Groups() {
      var fills := OfOrder(pass.Fills(), orderId);
      OrderMembers(pass.Fills(), orderId);
      NewFills(pass.fills, pass.already);
      LatePrivateFills(orderId, FindOrder(pass.orders, orderId).value, fills);
    }
  }

  lemma LatePrivateFills(id: string, o: OrderState, fills: seq<Fill>)
    requires fills != [] && o.status.Filled?
    requires forall f :: f in fills ==> !IsRecovered(f)
    ensures var v := Judge(id, Some(o), fills, true); v.applied == []
  {
    AllPrivate(fills);
  }

  lemma {:induction false} AllPrivate(fills: seq<Fill>)
    requires forall f :: f in fills ==> !IsRecovered(f)
    ensures Select(fills, false) == fills && Select(fills, true) == []
  {
    if fills != [] {
      assert forall f :: f in fills[..|fills| - 1] ==> f in fills;
      AllPrivate(fills[..|fills| - 1]);
    }
  }

  /** A pass either asks for review and changes nothing, or posts exactly its applied fills. */
  lemma AllOrNothing(p: PortfolioState, pass: Pass)
    requires Translated(p, pass).Ok?
    ensures var r := Translated(p, pass).value;
      && (r.manualAttention <==> r.status.AmbiguousReviewRequired?)
      && (r.manualAttention ==> r.portfolio == p && r.appliedIds == [])
      && (!r.manualAttention ==>
            r.appliedIds == Ids(Assess(pass).applied)
            && Applied(QUOTE_ASSET, p, Assess(pass).applied) == Ok(r.portfolio))
  {
  }
}
