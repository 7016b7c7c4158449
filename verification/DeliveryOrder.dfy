/** The order in which the exchange delivers fills does not decide what a translation pass does. */
module DeliveryOrder {
  import opened Collections
  import opened Contracts
  import opened PaperLedger
  import opened LiveTranslation
  import opened TranslationSafety

  /** The same pass with its fills delivered in another order. */
  ghost predicate Permuted(pass: Pass, other: Pass) {
    other == pass.(fills := other.fills) && multiset(pass.fills) == multiset(other.fills)
  }

  /** Two deliveries of one id, not applied before, with different contents. */
  ghost predicate Contradicts(fills: seq<Fill>, already: seq<string>) {
    exists f, g :: f in fills && g in fills && f != g && f.fillId == g.fillId && f.fillId !in already
  }

  lemma {:induction false} ConflictMeansContradiction(fills: seq<Fill>, already: seq<string>)
    ensures Conflicting(fills, already) <==> Contradicts(fills, already)
  {
    if fills != [] {
      var front, last := fills[..|fills| - 1], fills[|fills| - 1];
      assert fills == front + [last];
      assert forall x :: x in fills <==> x in front || x == last;
      ConflictMeansContradiction(front, already);
      NewFills(front, already);
      var first := FindFill(Fresh(front, already), last.fillId);
      if Contradicts(fills, already) && !Contradicts(front, already) {
        var f, g :| f in fills && g in fills && f != g && f.fillId == g.fillId && f.fillId !in already;
        var other := if f == last then g else f;
        assert other in front && other.fillId == last.fillId;
        assert first.Some?;
        assert first.value == other;
      }
    }
  }

  /** Without contradictions the new fills are all deliveries not applied before. */
  lemma NewFillsAreUndelivered(fills: seq<Fill>, already: seq<string>)
    requires !Conflicting(fills, already)
    ensures forall f :: f in Fresh(fills, already) <==> f in fills && f.fillId !in already
  {
    ConflictMeansContradiction(fills, already);
    NewFills(fills, already);
    var seen := Fresh(fills, already);
    forall f | f in fills && f.fillId !in already ensures f in seen {
      var i :| 0 <= i < |seen| && seen[i].fillId == f.fillId;
      assert seen[i] in fills;
    }
  }

  lemma NewFillsPermuted(a: seq<Fill>, b: seq<Fill>, already: seq<string>)
    requires multiset(a) == multiset(b)
    ensures Conflicting(a, already) == Conflicting(b, already)
    ensures !Conflicting(a, already) ==> multiset(Fresh(a, already)) == multiset(Fresh(b, already))
  {
    SameElements(a, b);
    ConflictMeansContradiction(a, already);
    ConflictMeansContradiction(b, already);
    if !Conflicting(a, already) {
      NewFillsAreUndelivered(a, already);
      NewFillsAreUndelivered(b, already);
      NewFillsDistinct(a, already);
      NewFillsDistinct(b, already);
      NoDupSameElements(Fresh(a, already), Fresh(b, already));
    }
  }

  lemma GroupsPermuted(a: seq<Fill>, b: seq<Fill>, id: string)
    requires NoDup(a) && NoDup(b) && multiset(a) == multiset(b)
    ensures id in GroupIds(a) <==> id in GroupIds(b)
    ensures multiset(OfOrder(a, id)) == multiset(OfOrder(b, id))
  {
    SameElements(a, b);
    GroupMembers(a, id);
    GroupMembers(b, id);
    OrderMembers(a, id);
    OrderMembers(b, id);
    NoDupSameElements(OfOrder(a, id), OfOrder(b, id));
  }

  lemma {:induction false} WaitingSame(orders: seq<OrderState>, a: seq<string>, b: seq<string>)
    requires forall id :: id in a <==> id in b
    ensures Waiting(orders, a) == Waiting(orders, b)
  {
    if orders != [] { WaitingSame(orders[..|orders| - 1], a, b); }
  }

  lemma LackingSame(orders: seq<OrderState>, a: seq<string>, b: seq<string>)
    requires forall id :: id in a <==> id in b
    ensures SomeLacksFills(orders, a) == SomeLacksFills(orders, b)
  {
    forall i | 0 <= i < |orders| ensures LacksFills(orders[i], a) == LacksFills(orders[i], b) {}
  }

  lemma {:induction false} TallyPending(
    orders: seq<OrderState>, seen: seq<Fill>, already: seq<string>, ids: seq<string>, start: Tally, id: string)
    requires forall g :: g in ids ==> OfOrder(seen, g) != []
    ensures id in TallyUp(orders, seen, already, ids, start).pending
       <==> id in start.pending || (id in ids && VerdictOn(orders, seen, already, id).pending)
  {
    if ids != [] {
      var front, last := ids[..|ids| - 1], ids[|ids| - 1];
      assert ids == front + [last];
      TallyPending(orders, seen, already, front, start, id);
    }
  }

  // ---------------------------------------------------------- redelivered ids

  /** Without contradictions an id is redelivered if it was applied before or is delivered at least twice. */
  lemma {:induction false} RedeliveredExactly(fills: seq<Fill>, already: seq<string>, id: string)
    requires !Conflicting(fills, already)
    ensures id in Redelivered(fills, already) <==>
      if id in already then id in Ids(fills) else multiset(Ids(fills))[id] >= 2
  {
    if fills != [] {
      var front, f := fills[..|fills| - 1], fills[|fills| - 1];
      assert fills == front + [f];
      RedeliveredExactly(front, already, id);
      RedeliveredNext(front, f, already, id);
      IdCount(front, f, id);
      IdsMembers(front, id);
    }
  }

  lemma IdCount(front: seq<Fill>, f: Fill, id: string)
    ensures multiset(Ids(front + [f]))[id] == multiset(Ids(front))[id] + if f.fillId == id then 1 else 0
    ensures id in Ids(front + [f]) <==> id in Ids(front) || f.fillId == id
    ensures id in Ids(front) <==> multiset(Ids(front))[id] >= 1
  {
    assert Ids(front + [f]) == Ids(front) + [f.fillId];
    assert id in Ids(front) <==> id in multiset(Ids(front));
  }

  lemma RedeliveredNext(front: seq<Fill>, f: Fill, already: seq<string>, id: string)
    requires !Conflicting(front + [f], already)
    ensures id in Redelivered(front + [f], already)
       <==> id in Redelivered(front, already) || (id == f.fillId && (id in already || HasId(front, id)))
  {
    var fills := front + [f];
    assert fills[..|fills| - 1] == front;
    if f.fillId !in already { NewHasId(front, already, f.fillId); }
  }

  lemma NewHasId(fills: seq<Fill>, already: seq<string>, id: string)
    requires id !in already
    ensures HasId(Fresh(fills, already), id) <==> HasId(fills, id)
  {
    NewFills(fills, already);
    if HasId(fills, id) {
      var i :| 0 <= i < |fills| && fills[i].fillId == id;
      assert fills[i] in fills;
    }
    if HasId(Fresh(fills, already), id) {
      var i :| 0 <= i < |Fresh(fills, already)| && Fresh(fills, already)[i].fillId == id;
      MemberHasId(fills, Fresh(fills, already)[i]);
    }
  }

  lemma {:induction false} IdsPermuted(a: seq<Fill>, b: seq<Fill>)
    requires multiset(a) == multiset(b)
    ensures multiset(Ids(a)) == multiset(Ids(b))
  {
    SameSize(a, b);
    if a != [] {
      var n := |a| - 1;
      assert a[n] in multiset(b);
      var i :| 0 <= i < |b| && b[i] == a[n];
      MultisetWithout(a, n);
      MultisetWithout(b, i);
      IdsPermuted(Without(a, n), Without(b, i));
      IdsWithout(a, n);
      IdsWithout(b, i);
    }
  }

  lemma IdsWithout(fills: seq<Fill>, i: nat)
    requires i < |fills|
    ensures multiset(Ids(fills)) == multiset(Ids(Without(fills, i))) + multiset{fills[i].fillId}
  {
    var ids := Ids(fills);
    assert ids == ids[..i] + [ids[i]] + ids[i + 1..];
    assert Ids(Without(fills, i)) == ids[..i] + ids[i + 1..];
  }

  lemma HasIdPermuted(a: seq<Fill>, b: seq<Fill>, id: string)
    requires multiset(a) == multiset(b)
    ensures HasId(a, id) <==> HasId(b, id)
    ensures id in Ids(a) <==> id in Ids(b)
  {
    IdsPermuted(a, b);
    IdsMembers(a, id);
    IdsMembers(b, id);
    SameElements(Ids(a), Ids(b));
  }

  lemma RedeliveredPermuted(a: seq<Fill>, b: seq<Fill>, already: seq<string>, id: string)
    requires multiset(a) == multiset(b) && !Conflicting(a, already) && !Conflicting(b, already)
    ensures id in Redelivered(a, already) <==> id in Redelivered(b, already)
  {
    RedeliveredExactly(a, already, id);
    RedeliveredExactly(b, already, id);
    IdsPermuted(a, b);
    HasIdPermuted(a, b, id);
  }

  /** The verdict on every order is the same for both deliveries. */
  lemma VerdictsPermuted(pass: Pass, other: Pass, id: string)
    requires Permuted(pass, other)
    requires !Conflicting(pass.fills, pass.already)
    ensures id in pass.Groups() <==> id in other.Groups()
    ensures OfOrder(pass.Fills(), id) != [] <==> id in pass.Groups()
    ensures OfOrder(other.Fills(), id) != [] <==> id in other.Groups()
    ensures id in pass.Groups() ==>
      SameVerdict(VerdictOn(pass.orders, pass.Fills(), pass.already, id),
        VerdictOn(other.orders, other.Fills(), other.already, id))
  {
    NewFillsPermuted(pass.fills, other.fills, pass.already);
    NewFillsDistinct(pass.fills, pass.already);
    NewFillsDistinct(other.fills, pass.already);
    GroupsPermuted(pass.Fills(), other.Fills(), id);
    GroupsAreInhabited(pass.Fills(), id);
    GroupsAreInhabited(other.Fills(), id);
    if id in pass.Groups() {
      OrderMembers(pass.Fills(), id);
      OrderMembers(other.Fills(), id);
      JudgePermuted(id, FindOrder(pass.orders, id), OfOrder(pass.Fills(), id), OfOrder(other.Fills(), id),
        RecoveredBefore(pass.already, id));
    }
  }

  /**
   * Both deliveries are assessed alike: same ambiguity, same applied fills, same pending orders, same ids set aside.
   */
  lemma AssessPermuted(pass: Pass, other: Pass)
    requires Permuted(pass, other)
    ensures Assess(pass).ambiguous == Assess(other).ambiguous
    ensures !Assess(pass).ambiguous ==>
      && multiset(Assess(pass).applied) == multiset(Assess(other).applied)
      && (forall id :: id in Assess(pass).pending <==> id in Assess(other).pending)
      && (forall id :: id in Assess(pass).ignored <==> id in Assess(other).ignored)
  {
    AssessFacts(pass);
    AssessFacts(other);
    NewFillsPermuted(pass.fills, other.fills, pass.already);
    if !Conflicting(pass.fills, pass.already) {
      AmbiguityPermuted(pass, other);
      AppliedPermuted(pass, other);
      forall id
        ensures id in Assess(pass).pending <==> id in Assess(other).pending
        ensures id in Assess(pass).ignored <==> id in Assess(other).ignored
      {
        PendingPermuted(pass, other, id);
        IgnoredPermuted(pass, other, id);
      }
    }
  }

  lemma AmbiguityPermuted(pass: Pass, other: Pass)
    requires Permuted(pass, other)
    requires !Conflicting(pass.fills, pass.already)
    ensures Assess(pass).ambiguous == Assess(other).ambiguous
  {
    AssessFacts(pass);
    AssessFacts(other);
    NewFillsPermuted(pass.fills, other.fills, pass.already);
    forall id
      ensures id in pass.Groups() <==> id in other.Groups()
      ensures id in pass.Groups() ==>
        SameVerdict(VerdictOn(pass.orders, pass.Fills(), pass.already, id),
          VerdictOn(other.orders, other.Fills(), other.already, id))
    {
      VerdictsPermuted(pass, other, id);
    }
    LackingSame(pass.orders, pass.Groups(), other.Groups());
  }

  lemma AppliedPermuted(pass: Pass, other: Pass)
    requires Permuted(pass, other)
    requires !Conflicting(pass.fills, pass.already)
    ensures multiset(Assess(pass).applied) == multiset(Assess(other).applied)
  {
    AssessFacts(pass);
    AssessFacts(other);
    forall f ensures f in Assess(pass).applied <==> f in Assess(other).applied {
      VerdictsPermuted(pass, other, f.orderId);
      if f.orderId in pass.Groups() {
        SameElements(VerdictOn(pass.orders, pass.Fills(), pass.already, f.orderId).applied,
                     VerdictOn(other.orders, other.Fills(), other.already, f.orderId).applied);
      }
    }
    NoDupSameElements(Assess(pass).applied, Assess(other).applied);
  }

  lemma PendingPermuted(pass: Pass, other: Pass, id: string)
    requires Permuted(pass, other)
    requires !Conflicting(pass.fills, pass.already)
    ensures id in Assess(pass).pending <==> id in Assess(other).pending
  {
    forall g
      ensures g in pass.Groups() <==> g in other.Groups()
      ensures g in pass.Groups() ==> OfOrder(pass.Fills(), g) != [] && OfOrder(other.Fills(), g) != []
    {
      VerdictsPermuted(pass, other, g);
    }
    VerdictsPermuted(pass, other, id);
    WaitingSame(pass.orders, pass.Groups(), other.Groups());
    TallyPending(pass.orders, pass.Fills(), pass.already, pass.Groups(), Start(pass), id);
    TallyPending(other.orders, other.Fills(), other.already, other.Groups(), Start(other), id);
  }

  lemma IgnoredPermuted(pass: Pass, other: Pass, id: string)
    requires Permuted(pass, other)
    requires !Conflicting(pass.fills, pass.already)
    ensures id in Assess(pass).ignored <==> id in Assess(other).ignored
  {
    NewFillsPermuted(pass.fills, other.fills, pass.already);
    RedeliveredPermuted(pass.fills, other.fills, pass.already, id);
    forall g
      ensures g in pass.Groups() <==> g in other.Groups()
      ensures g in pass.Groups() ==> OfOrder(pass.Fills(), g) != [] && OfOrder(other.Fills(), g) != []
      ensures g in pass.Groups() ==>
        (SetAside(pass.orders, pass.Fills(), pass.already, g, id) <==>
          SetAside(other.orders, other.Fills(), other.already, g, id))
    {
      VerdictsPermuted(pass, other, g);
      if g in pass.Groups() {
        HasIdPermuted(VerdictOn(pass.orders, pass.Fills(), pass.already, g).ignored,
                      VerdictOn(other.orders, other.Fills(), other.already, g).ignored, id);
      }
    }
    TallySetAside(pass.orders, pass.Fills(), pass.already, pass.Groups(), Start(pass), id);
    TallySetAside(other.orders, other.Fills(), other.already, other.Groups(), Start(other), id);
  }

  lemma SettledChronologically(o: OrderState, id: string, effective: seq<Fill>, ignored: seq<Fill>)
    requires effective != []
    ensures Chronological(Settle(o, id, effective, ignored).applied)
  {
    SortedChronologically(effective);
  }

  lemma VerdictIsChronological(id: string, order: Option<OrderState>, fills: seq<Fill>, recoveredBefore: bool)
    requires fills != []
    ensures Chronological(Judge(id, order, fills, recoveredBefore).applied)
  {
    if order.Some? {
      if PreferPrivate(order.value, fills) {
        SettledChronologically(order.value, id, Select(fills, false), Select(fills, true));
      }
      SettledChronologically(order.value, id, fills, []);
    }
  }

  /** Whatever the delivery order, one order's fills are posted in one and the same sequence. */
  lemma PostedSequence(pass: Pass, other: Pass, id: string)
    requires Permuted(pass, other)
    requires !Conflicting(pass.fills, pass.already)
    ensures OfOrder(Assess(pass).applied, id) == OfOrder(Assess(other).applied, id)
  {
    AssessFacts(pass);
    AssessFacts(other);
    VerdictsPermuted(pass, other, id);
    if id in pass.Groups() {
      var one := VerdictOn(pass.orders, pass.Fills(), pass.already, id);
      var two := VerdictOn(other.orders, other.Fills(), other.already, id);
      VerdictIsChronological(id, FindOrder(pass.orders, id), OfOrder(pass.Fills(), id),
        RecoveredBefore(pass.already, id));
      VerdictIsChronological(id, FindOrder(other.orders, id), OfOrder(other.Fills(), id),
        RecoveredBefore(other.already, id));
      VerdictWithinOrder(pass.orders, pass.Fills(), pass.already, id);
      forall f, g | f in one.applied && g in one.applied && f.fillId == g.fillId ensures f == g {
        IdNamesFill(pass.fills, pass.already, f, g);
      }
      ChronologicalOnce(one.applied, two.applied);
    }
  }

  lemma DisagreementSame(a: Book, b: Book, snapshot: Option<map<string, real>>, assets: seq<string>)
    requires a.cash == b.cash && a.quantity == b.quantity
    ensures SnapshotDisagrees(a, snapshot, assets) == SnapshotDisagrees(b, snapshot, assets)
  {
    forall asset ensures Projected(a, asset) == Projected(b, asset) {
      assert Matching(a, asset) == Matching(b, asset);
      if |Matching(a, asset)| == 1 { OnlyElement(Matching(a, asset)); }
    }
    if snapshot.Some? {
      forall i | 0 <= i < |assets|
        ensures Mismatched(a, snapshot.value, assets[i]) == Mismatched(b, snapshot.value, assets[i]) {}
    }
  }

  lemma NoMembers(a: seq<string>, b: seq<string>)
    requires forall id :: id in a <==> id in b
    ensures a == [] <==> b == []
  {
    if a != [] { assert a[0] in a; }
    if b != [] { assert b[0] in b; }
  }

  /** Two posted permutations agree on every balance, and with the account snapshot or both not. */
  lemma PostedAlike(
    p: PortfolioState, a: seq<Fill>, b: seq<Fill>, snapshot: Option<map<string, real>>, assets: seq<string>)
    requires multiset(a) == multiset(b)
    requires Applied(QUOTE_ASSET, p, a).Ok? && Applied(QUOTE_ASSET, p, b).Ok?
    ensures var s, t := Applied(QUOTE_ASSET, p, a).value.book, Applied(QUOTE_ASSET, p, b).value.book;
      s.cash == t.cash && s.quantity == t.quantity
        && SnapshotDisagrees(s, snapshot, assets) == SnapshotDisagrees(t, snapshot, assets)
  {
    PermutedPostings(QUOTE_ASSET, p.book, a, b);
    DisagreementSame(Applied(QUOTE_ASSET, p, a).value.book, Applied(QUOTE_ASSET, p, b).value.book, snapshot, assets);
  }

  /**
   * Permuting the delivered fills changes neither the status, nor which ids are applied, nor any cash balance, nor any
   * position, under duplicates, contradictory duplicates and the account snapshot check alike.
   */
  lemma DeliveryOrderIrrelevant(p: PortfolioState, pass: Pass, other: Pass)
    requires Permuted(pass, other)
    requires Translated(p, pass).Ok? && Translated(p, other).Ok?
    ensures var r, s := Translated(p, pass).value, Translated(p, other).value;
      && r.status == s.status
      && (forall id :: id in r.appliedIds <==> id in s.appliedIds)
      && r.portfolio.book.cash == s.portfolio.book.cash
      && r.portfolio.book.quantity == s.portfolio.book.quantity
  {
    AssessPermuted(pass, other);
    var t, u := Assess(pass), Assess(other);
    if !t.ambiguous {
      assert t.pending == [] <==> u.pending == [] by { NoMembers(t.pending, u.pending); }
      PostedAlike(p, t.applied, u.applied, pass.snapshot, pass.assets);
      forall id ensures id in Ids(t.applied) <==> id in Ids(u.applied) { HasIdPermuted(t.applied, u.applied, id); }
    }
  }
}
