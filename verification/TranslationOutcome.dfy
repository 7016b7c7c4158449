/** The exact outcome of one translation pass, in terms of what was delivered and reported. */
module TranslationOutcome {
  import opened Collections
  import opened Contracts
  import opened PaperLedger
  import opened LiveTranslation
  import opened TranslationSafety
  import opened DeliveryOrder

  // ------------------------------------------------------- account snapshot

  lemma {:induction false} BeforeFirstExactly(s: string, c: char, p: string)
    ensures BeforeFirst(s, c) == p <==> c !in p && (s == p || p + [c] <= s)
  {
    if s == [] {
      assert |p + [c]| > 0;
    } else if s[0] == c {
      if p != [] {
        assert p + [c] <= s ==> (p + [c])[0] == s[0];
        assert s == p ==> p[0] == c;
      }
    } else if p == [] {
      assert (p + [c])[0] == c;
    } else {
      BeforeFirstExactly(s[1..], c, p[1..]);
      assert p == [p[0]] + p[1..] && s == [s[0]] + s[1..];
      assert p + [c] == [p[0]] + (p[1..] + [c]);
      assert c in p <==> p[0] == c || c in p[1..];
      assert p + [c] <= s <==> p[0] == s[0] && p[1..] + [c] <= s[1..];
    }
  }

  /** The instrument is the asset itself, or the asset followed by a dash and something else. */
  predicate NamedAfter(instrument: string, asset: string) {
    '-' !in asset && (instrument == asset || asset + "-" <= instrument)
  }

  ghost predicate OnlyInstrument(b: Book, asset: string, k: string) {
    && k in b.quantity && NamedAfter(k, asset)
    && forall j :: j in b.quantity && NamedAfter(j, asset) ==> j == k
  }

  /** The book holds this amount of the asset: as cash, else as its only position, else not at all. */
  ghost predicate Holds(b: Book, asset: string, amount: real) {
    if asset in b.cash then b.cash[asset] == amount
    else
      && (forall k :: OnlyInstrument(b, asset, k) ==> b.quantity[k] == amount)
      && ((forall k :: !OnlyInstrument(b, asset, k)) ==> amount == 0.0)
  }

  lemma ProjectedIsHeld(b: Book, asset: string, amount: real)
    ensures Holds(b, asset, amount) <==> Projected(b, asset) == amount
  {
    var matching := Matching(b, asset);
    forall k | k in b.quantity ensures k in matching <==> NamedAfter(k, asset) { BeforeFirstExactly(k, '-', asset); }
    forall k | OnlyInstrument(b, asset, k) ensures |matching| == 1 {
      assert matching == {k};
    }
    if |matching| == 1 {
      OnlyElement(matching);
      var k :| k in matching;
      assert OnlyInstrument(b, asset, k);
    }
  }

  /** The asset is unstated in the snapshot, or stated with another amount than the book holds. */
  ghost predicate Disputed(b: Book, snapshot: map<string, real>, asset: string) {
    asset !in snapshot || !Holds(b, asset, snapshot[asset])
  }

  /**
   * An unambiguous pass that posts asks for review exactly when an account snapshot came with it and disputes the
   * amount of some updated asset after posting.
   */
  lemma ReviewedExactly(p: PortfolioState, pass: Pass)
    requires !Assess(pass).ambiguous && Applied("USDT", p, Assess(pass).applied).Ok?
    ensures Translated(p, pass).Ok?
    ensures var r, b := Translated(p, pass).value, Applied("USDT", p, Assess(pass).applied).value.book;
      && (r.manualAttention <==>
            pass.snapshot.Some? && exists a :: a in pass.assets && Disputed(b, pass.snapshot.value, a))
      && (r.manualAttention ==> r.portfolio == p)
      && (!r.manualAttention ==> Ok(r.portfolio) == Applied("USDT", p, Assess(pass).applied))
  {
    var b := Applied("USDT", p, Assess(pass).applied).value.book;
    if pass.snapshot.Some? { DisputedExactly(b, pass.snapshot.value, pass.assets); }
  }

  lemma DisputedExactly(b: Book, snapshot: map<string, real>, assets: seq<string>)
    ensures SnapshotDisagrees(b, Some(snapshot), assets) <==> exists a :: a in assets && Disputed(b, snapshot, a)
  {
    forall a ensures Mismatched(b, snapshot, a) <==> Disputed(b, snapshot, a) {
      if a in snapshot { ProjectedIsHeld(b, a, snapshot[a]); }
    }
    if a :| a in assets && Disputed(b, snapshot, a) {
      var i :| 0 <= i < |assets| && assets[i] == a;
      assert Mismatched(b, snapshot, assets[i]);
    }
    if SnapshotDisagrees(b, Some(snapshot), assets) {
      var i :| 0 <= i < |assets| && Mismatched(b, snapshot, assets[i]);
      assert assets[i] in assets && Disputed(b, snapshot, assets[i]);
    }
  }

  // -------------------------------------------------------- one order's fills

  ghost predicate IsLastOf(orders: seq<OrderState>, id: string, o: OrderState, i: nat) {
    i < |orders| && orders[i] == o && o.orderId == id && forall j :: i < j < |orders| ==> orders[j].orderId != id
  }

  /** The last state reported under this id. */
  ghost predicate LastOf(orders: seq<OrderState>, id: string, o: OrderState) {
    exists i: nat :: IsLastOf(orders, id, o, i)
  }

  lemma {:induction false} FindOrderIsLast(orders: seq<OrderState>, id: string)
    ensures forall o :: FindOrder(orders, id) == Some(o) <==> LastOf(orders, id, o)
    ensures FindOrder(orders, id).None? <==> forall i :: 0 <= i < |orders| ==> orders[i].orderId != id
  {
    if orders != [] {
      var n := |orders| - 1;
      FindOrderIsLast(orders[..n], id);
      if orders[n].orderId == id {
        assert IsLastOf(orders, id, orders[n], n);
      } else {
        forall o, i: nat ensures IsLastOf(orders, id, o, i) <==> IsLastOf(orders[..n], id, o, i) {}
      }
    }
  }

  /** The id of a fill that was reconstructed from a lookup. */
  ghost predicate MarksRecovery(fillId: string) {
    exists i: nat :: i <= |fillId| && ":recovered:" <= fillId[i..]
  }

  lemma MarksRecoveryExactly(f: Fill)
    ensures IsRecovered(f) <==> MarksRecovery(f.fillId)
  {
    var id := f.fillId;
    forall i: nat | i <= |id| ensures OccursAt(id, RECOVERED_MARK, i) <==> ":recovered:" <= id[i..] {
      if OccursAt(id, RECOVERED_MARK, i) { assert id[i..][..|RECOVERED_MARK|] == id[i..i + |RECOVERED_MARK|]; }
    }
  }

  /** This fill of the order is delivered, and was not applied before. */
  ghost predicate IsNew(pass: Pass, id: string, f: Fill) {
    f in pass.fills && f.fillId !in pass.already && f.orderId == id
  }

  /** The order's new fills, private and recovered, each once, in any order. */
  ghost predicate NewFillsOf(pass: Pass, id: string, own: seq<Fill>, recovered: seq<Fill>) {
    && NoDup(own) && NoDup(recovered)
    && (forall f :: f in own <==> IsNew(pass, id, f) && !MarksRecovery(f.fillId))
    && (forall f :: f in recovered <==> IsNew(pass, id, f) && MarksRecovery(f.fillId))
  }

  lemma NewFillsListed(pass: Pass, id: string)
    requires !Conflicting(pass.fills, pass.already)
    ensures var fills := OfOrder(pass.Fills(), id); NewFillsOf(pass, id, Select(fills, false), Select(fills, true))
  {
    var fills := OfOrder(pass.Fills(), id);
    NewFillsAreUndelivered(pass.fills, pass.already);
    NewFillsDistinct(pass.fills, pass.already);
    OrderMembers(pass.Fills(), id);
    SelectMembers(fills, false);
    SelectMembers(fills, true);
    forall f ensures IsRecovered(f) <==> MarksRecovery(f.fillId) { MarksRecoveryExactly(f); }
  }

  lemma ListedOnce(pass: Pass, id: string, own: seq<Fill>, recovered: seq<Fill>)
    requires !Conflicting(pass.fills, pass.already) && NewFillsOf(pass, id, own, recovered)
    ensures var fills := OfOrder(pass.Fills(), id);
      && multiset(Select(fills, false)) == multiset(own) && multiset(Select(fills, true)) == multiset(recovered)
  {
    var fills := OfOrder(pass.Fills(), id);
    NewFillsListed(pass, id);
    NoDupSameElements(Select(fills, false), own);
    NoDupSameElements(Select(fills, true), recovered);
  }

  /** Some id applied before marks a recovered fill of this order. */
  ghost predicate RecoveredEarlier(already: seq<string>, id: string) {
    ':' !in id && exists a :: a in already && MarksRecovery(a) && id + ":" <= a
  }

  lemma RecoveredEarlierExactly(already: seq<string>, id: string)
    ensures RecoveredBefore(already, id) <==> RecoveredEarlier(already, id)
  {
    forall a ensures RecoveredOrderId(a) == Some(id) <==> MarksRecovery(a) && ':' !in id && id + ":" <= a {
      MarkedId(a, id);
    }
    if a :| a in already && RecoveredOrderId(a) == Some(id) {
      var i :| 0 <= i < |already| && already[i] == a;
      assert RecoveredOrderId(already[i]) == Some(id);
    }
    if RecoveredBefore(already, id) {
      var i :| 0 <= i < |already| && RecoveredOrderId(already[i]) == Some(id);
      assert already[i] in already;
    }
  }

  lemma MarkedId(a: string, id: string)
    ensures RecoveredOrderId(a) == Some(id) <==> MarksRecovery(a) && ':' !in id && id + ":" <= a
  {
    MarkedText(a);
    BeforeFirstExactly(a, ':', id);
    if i: nat :| i <= |a| && ":recovered:" <= a[i..] {
      assert a[i..][0] == ':' && a[i] in a;
    }
  }

  lemma MarkedText(a: string)
    ensures Contains(a, RECOVERED_MARK) <==> MarksRecovery(a)
  {
    forall i: nat | i <= |a| ensures OccursAt(a, RECOVERED_MARK, i) <==> ":recovered:" <= a[i..] {
      if OccursAt(a, RECOVERED_MARK, i) { assert a[i..][..|RECOVERED_MARK|] == a[i..i + |RECOVERED_MARK|]; }
    }
  }

  /** Private fills that arrive after a recovered fill already settled their FILLED order. */
  ghost predicate ComeLate(o: OrderState, own: seq<Fill>, recovered: seq<Fill>, earlier: bool) {
    own != [] && recovered == [] && o.status.Filled? && earlier && TotalQuantity(own) <= o.filled
  }

  /** Private fills that make the recovered ones superfluous. */
  ghost predicate Suffice(o: OrderState, own: seq<Fill>, recovered: seq<Fill>) {
    own != [] && recovered != [] && TotalQuantity(own) <= o.filled
  }

  /** The quantity that counts for the order. */
  ghost function Counting(o: OrderState, own: seq<Fill>, recovered: seq<Fill>): real {
    TotalQuantity(own) + if Suffice(o, own, recovered) then 0.0 else TotalQuantity(recovered)
  }

  ghost predicate Contradictory(o: OrderState, own: seq<Fill>, recovered: seq<Fill>) {
    var total := Counting(o, own, recovered);
    total > o.filled || total > o.requested || (o.status.Filled? && total < o.filled)
  }

  /** New fills of an order that is unknown, in recovery, or reported with other quantities. */
  ghost predicate Unexplained(pass: Pass, id: string, own: seq<Fill>, recovered: seq<Fill>) {
    forall o :: LastOf(pass.orders, id, o) ==>
      || o.status.Recovering? || o.status.Unreconciled?
      || (!ComeLate(o, own, recovered, RecoveredEarlier(pass.already, id)) && Contradictory(o, own, recovered))
  }

  lemma {:induction false} TotalOfKinds(fills: seq<Fill>)
    ensures TotalQuantity(fills) == TotalQuantity(Select(fills, false)) + TotalQuantity(Select(fills, true))
  {
    if fills != [] {
      var front, f := fills[..|fills| - 1], fills[|fills| - 1];
      TotalOfKinds(front);
      SumNext(Quantity, Select(front, IsRecovered(f)), f);
    }
  }

  /** The fills of one order, as the verdict sees them. */
  ghost predicate Sorted(fills: seq<Fill>, own: seq<Fill>, recovered: seq<Fill>) {
    multiset(Select(fills, false)) == multiset(own) && multiset(Select(fills, true)) == multiset(recovered)
  }

  ghost predicate AsReported(v: Verdict, o: OrderState, own: seq<Fill>, recovered: seq<Fill>, earlier: bool) {
    var late, suffice := ComeLate(o, own, recovered, earlier), Suffice(o, own, recovered);
    && (v.ambiguous <==> InRecovery(o) || (!late && Contradictory(o, own, recovered)))
    && (!v.ambiguous ==>
          && (forall f :: f in v.applied <==> !late && (f in own || (f in recovered && !suffice)))
          && (forall f :: f in v.ignored <==> (f in own && late) || (f in recovered && suffice))
          && (v.pending <==> !late && (Counting(o, own, recovered) < o.filled || o.status.PartiallyFilled?)))
  }

  lemma GuardsAsReported(o: OrderState, fills: seq<Fill>, own: seq<Fill>, recovered: seq<Fill>, earlier: bool)
    requires Sorted(fills, own, recovered)
    ensures Superseded(o, fills, earlier) <==> ComeLate(o, own, recovered, earlier)
    ensures PreferPrivate(o, fills) <==> Suffice(o, own, recovered)
    ensures TotalQuantity(if PreferPrivate(o, fills) then Select(fills, false) else fills)
         == Counting(o, own, recovered)
  {
    SameSize(Select(fills, false), own);
    SameSize(Select(fills, true), recovered);
    SumPermuted(Quantity, Select(fills, false), own);
    SumPermuted(Quantity, Select(fills, true), recovered);
    TotalOfKinds(fills);
  }

  lemma KindsAsReported(fills: seq<Fill>, own: seq<Fill>, recovered: seq<Fill>)
    requires Sorted(fills, own, recovered)
    ensures forall f :: f in Select(fills, false) <==> f in own
    ensures forall f :: f in Select(fills, true) <==> f in recovered
    ensures forall f :: f in fills <==> f in own || f in recovered
  {
    SameElements(Select(fills, false), own);
    SameElements(Select(fills, true), recovered);
    SelectMembers(fills, false);
    SelectMembers(fills, true);
  }

  /** The quantities agree with the report, and these fills are posted. */
  ghost predicate Settled(v: Verdict, o: OrderState, total: real, effective: seq<Fill>, ignored: seq<Fill>) {
    && (v.ambiguous <==> total > o.filled || total > o.requested || (o.status.Filled? && total < o.filled))
    && (!v.ambiguous ==>
          && (forall f :: f in v.applied <==> f in effective)
          && v.ignored == ignored && (v.pending <==> total < o.filled || o.status.PartiallyFilled?))
  }

  lemma SettledExactly(o: OrderState, id: string, effective: seq<Fill>, ignored: seq<Fill>)
    requires effective != []
    ensures Settled(Settle(o, id, effective, ignored), o, TotalQuantity(effective), effective, ignored)
  {
    SameElements(SortFills(effective), effective);
  }

  lemma JudgedAsReported(
    id: string, o: OrderState, fills: seq<Fill>, own: seq<Fill>, recovered: seq<Fill>, earlier: bool)
    requires fills != [] && Sorted(fills, own, recovered)
    ensures AsReported(Judge(id, Some(o), fills, earlier), o, own, recovered, earlier)
  {
    GuardsAsReported(o, fills, own, recovered, earlier);
    KindsAsReported(fills, own, recovered);
    if PreferPrivate(o, fills) {
      SettledExactly(o, id, Select(fills, false), Select(fills, true));
    } else {
      SettledExactly(o, id, fills, []);
    }
  }

  // --------------------------------------------------------- the whole pass

  lemma OrderVerdict(pass: Pass, id: string, own: seq<Fill>, recovered: seq<Fill>)
    requires !Conflicting(pass.fills, pass.already) && NewFillsOf(pass, id, own, recovered)
    requires own != [] || recovered != []
    ensures id in pass.Groups() && OfOrder(pass.Fills(), id) != []
    ensures var v := VerdictOn(pass.orders, pass.Fills(), pass.already, id);
      && (v.ambiguous <==> Unexplained(pass, id, own, recovered))
      && forall o :: LastOf(pass.orders, id, o) ==>
           AsReported(v, o, own, recovered, RecoveredEarlier(pass.already, id))
  {
    var f := if own != [] then own[0] else recovered[0];
    assert f in own || f in recovered;
    NewFillsAreUndelivered(pass.fills, pass.already);
    GroupMembers(pass.Fills(), id);
    GroupsAreInhabited(pass.Fills(), id);
    ListedOnce(pass, id, own, recovered);
    FindOrderIsLast(pass.orders, id);
    RecoveredEarlierExactly(pass.already, id);
    var found := FindOrder(pass.orders, id);
    if found.Some? {
      JudgedAsReported(id, found.value, OfOrder(pass.Fills(), id), own, recovered,
        RecoveredBefore(pass.already, id));
    }
  }

  /** The lists of an order with new fills. */
  lemma GroupListed(pass: Pass, id: string) returns (own: seq<Fill>, recovered: seq<Fill>)
    requires !Conflicting(pass.fills, pass.already) && id in pass.Groups()
    ensures NewFillsOf(pass, id, own, recovered) && (own != [] || recovered != [])
  {
    var fills := OfOrder(pass.Fills(), id);
    own, recovered := Select(fills, false), Select(fills, true);
    NewFillsListed(pass, id);
    GroupsAreInhabited(pass.Fills(), id);
    SelectMembers(fills, false);
    SelectMembers(fills, true);
    assert fills[0] in own || fills[0] in recovered;
  }

  lemma GroupHasNewFill(pass: Pass, id: string)
    requires !Conflicting(pass.fills, pass.already)
    ensures id in pass.Groups() <==> exists f :: IsNew(pass, id, f)
  {
    NewFillsAreUndelivered(pass.fills, pass.already);
    GroupMembers(pass.Fills(), id);
    if f :| IsNew(pass, id, f) { assert f in pass.Fills() && f.orderId == id; }
    if id in pass.Groups() {
      var f :| f in pass.Fills() && f.orderId == id;
      assert IsNew(pass, id, f);
    }
  }

  /** New fills of this order do not agree with what is reported of it. */
  ghost predicate Suspect(pass: Pass, id: string) {
    exists own, recovered ::
      NewFillsOf(pass, id, own, recovered) && (own != [] || recovered != []) && Unexplained(pass, id, own, recovered)
  }

  /** A FILLED order without any new fill. */
  ghost predicate LacksNewFills(pass: Pass, o: OrderState) {
    o.status.Filled? && o.filled > 0.0 && forall f :: !IsNew(pass, o.orderId, f)
  }

  /**
   * A pass is ambiguous exactly when a new id was delivered with two contents, new fills of some order do not agree
   * with its report, or a FILLED order has no new fills.
   */
  lemma AmbiguousExactly(pass: Pass)
    ensures Assess(pass).ambiguous <==>
      || Contradicts(pass.fills, pass.already)
      || (exists id :: Suspect(pass, id))
      || (exists o :: o in pass.orders && LacksNewFills(pass, o))
  {
    AssessFacts(pass);
    ConflictMeansContradiction(pass.fills, pass.already);
    if !Conflicting(pass.fills, pass.already) {
      SuspectExactly(pass);
      LackingExactly(pass);
    }
  }

  lemma SuspectExactly(pass: Pass)
    requires !Conflicting(pass.fills, pass.already)
    requires forall id :: id in pass.Groups() ==> OfOrder(pass.Fills(), id) != []
    ensures (exists id :: Suspect(pass, id)) <==>
      exists id :: id in pass.Groups() && VerdictOn(pass.orders, pass.Fills(), pass.already, id).ambiguous
  {
    forall id | Suspect(pass, id)
      ensures id in pass.Groups() && VerdictOn(pass.orders, pass.Fills(), pass.already, id).ambiguous
    {
      var own, recovered :| NewFillsOf(pass, id, own, recovered) && (own != [] || recovered != [])
        && Unexplained(pass, id, own, recovered);
      OrderVerdict(pass, id, own, recovered);
    }
    forall id | id in pass.Groups() && VerdictOn(pass.orders, pass.Fills(), pass.already, id).ambiguous
      ensures Suspect(pass, id)
    {
      var own, recovered := GroupListed(pass, id);
      OrderVerdict(pass, id, own, recovered);
    }
  }

  lemma LackingExactly(pass: Pass)
    requires !Conflicting(pass.fills, pass.already)
    ensures SomeLacksFills(pass.orders, pass.Groups()) <==> exists o :: o in pass.orders && LacksNewFills(pass, o)
  {
    forall o ensures LacksFills(o, pass.Groups()) <==> LacksNewFills(pass, o) { GroupHasNewFill(pass, o.orderId); }
    if SomeLacksFills(pass.orders, pass.Groups()) {
      var i :| 0 <= i < |pass.orders| && LacksFills(pass.orders[i], pass.Groups());
      assert pass.orders[i] in pass.orders;
    }
    if o :| o in pass.orders && LacksNewFills(pass, o) {
      var i :| 0 <= i < |pass.orders| && pass.orders[i] == o;
      assert LacksFills(pass.orders[i], pass.Groups());
    }
  }

  /** New fills that count: private ones unless they come late, recovered ones unless they are superfluous. */
  ghost predicate Counts(pass: Pass, f: Fill) {
    exists own, recovered, o ::
      && NewFillsOf(pass, f.orderId, own, recovered) && LastOf(pass.orders, f.orderId, o)
      && !ComeLate(o, own, recovered, RecoveredEarlier(pass.already, f.orderId))
      && (f in own || (f in recovered && !Suffice(o, own, recovered)))
  }

  /** An unambiguous pass posts exactly the fills that count. */
  lemma AppliedExactly(pass: Pass, f: Fill)
    requires !Assess(pass).ambiguous
    ensures f in Assess(pass).applied <==> Counts(pass, f)
  {
    AssessFacts(pass);
    if Counts(pass, f) {
      var own, recovered, o :|
        && NewFillsOf(pass, f.orderId, own, recovered) && LastOf(pass.orders, f.orderId, o)
        && !ComeLate(o, own, recovered, RecoveredEarlier(pass.already, f.orderId))
        && (f in own || (f in recovered && !Suffice(o, own, recovered)));
      OrderVerdict(pass, f.orderId, own, recovered);
    }
    if f in Assess(pass).applied {
      var own, recovered := GroupListed(pass, f.orderId);
      OrderVerdict(pass, f.orderId, own, recovered);
      var o := KnownOrder(pass, f.orderId, own, recovered);
    }
  }

  /** An order with new fills that raise no suspicion is known. */
  lemma KnownOrder(pass: Pass, id: string, own: seq<Fill>, recovered: seq<Fill>) returns (o: OrderState)
    requires !Unexplained(pass, id, own, recovered)
    ensures LastOf(pass.orders, id, o)
  {
    o :| LastOf(pass.orders, id, o);
  }

  ghost predicate LeavesOpen(pass: Pass, id: string, own: seq<Fill>, recovered: seq<Fill>, o: OrderState) {
    && !ComeLate(o, own, recovered, RecoveredEarlier(pass.already, id))
    && (Counting(o, own, recovered) < o.filled || o.status.PartiallyFilled?)
  }

  /** The order's new fills do not complete what is reported filled, or the order is reported partially filled. */
  ghost predicate IsLeftOpen(pass: Pass, id: string) {
    exists own, recovered, o ::
      && NewFillsOf(pass, id, own, recovered) && (own != [] || recovered != []) && LastOf(pass.orders, id, o)
      && LeavesOpen(pass, id, own, recovered, o)
  }

  /** The order is reported partially filled without new fills. */
  ghost predicate WaitsForFills(pass: Pass, id: string) {
    && (exists o :: o in pass.orders && o.orderId == id && o.status.PartiallyFilled?)
    && forall f :: !IsNew(pass, id, f)
  }

  lemma {:induction false} WaitingMembers(orders: seq<OrderState>, ids: seq<string>)
    ensures forall id :: id in Waiting(orders, ids) <==>
      id !in ids && exists o :: o in orders && o.orderId == id && o.status.PartiallyFilled?
  {
    if orders != [] {
      var front, last := orders[..|orders| - 1], orders[|orders| - 1];
      assert orders == front + [last];
      WaitingMembers(front, ids);
      assert forall o :: o in orders <==> o in front || o == last;
    }
  }

  lemma LeftOpenExactly(pass: Pass, id: string)
    requires !Assess(pass).ambiguous && id in pass.Groups() && OfOrder(pass.Fills(), id) != []
    ensures VerdictOn(pass.orders, pass.Fills(), pass.already, id).pending <==> IsLeftOpen(pass, id)
  {
    AssessFacts(pass);
    var v := VerdictOn(pass.orders, pass.Fills(), pass.already, id);
    if IsLeftOpen(pass, id) {
      var own, recovered, o :| NewFillsOf(pass, id, own, recovered) && (own != [] || recovered != [])
        && LastOf(pass.orders, id, o) && LeavesOpen(pass, id, own, recovered, o);
      OrderVerdict(pass, id, own, recovered);
    }
    if v.pending {
      var own, recovered := GroupListed(pass, id);
      OrderVerdict(pass, id, own, recovered);
      var o := KnownOrder(pass, id, own, recovered);
      assert LeavesOpen(pass, id, own, recovered, o);
    }
  }

  lemma LeftOpenHasFills(pass: Pass, id: string)
    requires !Conflicting(pass.fills, pass.already) && IsLeftOpen(pass, id)
    ensures id in pass.Groups()
  {
    var own, recovered, o :| NewFillsOf(pass, id, own, recovered) && (own != [] || recovered != [])
      && LastOf(pass.orders, id, o) && LeavesOpen(pass, id, own, recovered, o);
    OrderVerdict(pass, id, own, recovered);
  }

  /** An unambiguous pass reports exactly the orders as pending that are left open or wait for fills. */
  lemma PendingExactly(pass: Pass, id: string)
    requires !Assess(pass).ambiguous
    ensures id in Assess(pass).pending <==> IsLeftOpen(pass, id) || WaitsForFills(pass, id)
  {
    AssessFacts(pass);
    TallyPending(pass.orders, pass.Fills(), pass.already, pass.Groups(), Start(pass), id);
    WaitingMembers(pass.orders, pass.Groups());
    GroupHasNewFill(pass, id);
    if id in pass.Groups() { LeftOpenExactly(pass, id); }
    if IsLeftOpen(pass, id) { LeftOpenHasFills(pass, id); }
  }

  ghost predicate IsSuperfluous(pass: Pass, f: Fill, own: seq<Fill>, recovered: seq<Fill>, o: OrderState) {
    || (f in own && ComeLate(o, own, recovered, RecoveredEarlier(pass.already, f.orderId)))
    || (f in recovered && Suffice(o, own, recovered))
  }

  /** The fill is delivered as new, but does not count. */
  ghost predicate Superfluous(pass: Pass, f: Fill) {
    exists own, recovered, o ::
      && NewFillsOf(pass, f.orderId, own, recovered) && LastOf(pass.orders, f.orderId, o)
      && IsSuperfluous(pass, f, own, recovered, o)
  }

  /** An unambiguous pass ignores exactly what is superfluous, was applied before, or is delivered again. */
  lemma IgnoredExactly(pass: Pass, id: string)
    requires !Assess(pass).ambiguous
    ensures id in Assess(pass).ignored <==>
      || (if id in pass.already then id in Ids(pass.fills) else multiset(Ids(pass.fills))[id] >= 2)
      || exists f: Fill :: f.fillId == id && Superfluous(pass, f)
  {
    AssessFacts(pass);
    RedeliveredExactly(pass.fills, pass.already, id);
    TallySetAside(pass.orders, pass.Fills(), pass.already, pass.Groups(), Start(pass), id);
    forall g | g in pass.Groups() && SetAside(pass.orders, pass.Fills(), pass.already, g, id)
      ensures exists f: Fill :: f.fillId == id && Superfluous(pass, f)
    {
      var f := SetAsideIsSuperfluous(pass, g, id);
    }
    forall f: Fill | f.fillId == id && Superfluous(pass, f)
      ensures f.orderId in pass.Groups()
      ensures SetAside(pass.orders, pass.Fills(), pass.already, f.orderId, id)
    {
      SuperfluousIsSetAside(pass, f);
    }
  }

  lemma SetAsideIsSuperfluous(pass: Pass, g: string, id: string) returns (f: Fill)
    requires !Assess(pass).ambiguous && g in pass.Groups()
    requires SetAside(pass.orders, pass.Fills(), pass.already, g, id)
    ensures f.fillId == id && Superfluous(pass, f)
  {
    AssessFacts(pass);
    var v := VerdictOn(pass.orders, pass.Fills(), pass.already, g);
    var i :| 0 <= i < |v.ignored| && v.ignored[i].fillId == id;
    f := v.ignored[i];
    assert f in v.ignored;
    VerdictWithinOrder(pass.orders, pass.Fills(), pass.already, g);
    IgnoredIsSuperfluous(pass, f);
  }

  lemma IgnoredIsSuperfluous(pass: Pass, f: Fill)
    requires !Assess(pass).ambiguous && f.orderId in pass.Groups() && OfOrder(pass.Fills(), f.orderId) != []
    requires f in VerdictOn(pass.orders, pass.Fills(), pass.already, f.orderId).ignored
    ensures Superfluous(pass, f)
  {
    AssessFacts(pass);
    var own, recovered := GroupListed(pass, f.orderId);
    OrderVerdict(pass, f.orderId, own, recovered);
    var o := KnownOrder(pass, f.orderId, own, recovered);
    assert IsSuperfluous(pass, f, own, recovered, o);
  }

  lemma SuperfluousIsSetAside(pass: Pass, f: Fill)
    requires !Assess(pass).ambiguous && Superfluous(pass, f)
    ensures f.orderId in pass.Groups()
    ensures SetAside(pass.orders, pass.Fills(), pass.already, f.orderId, f.fillId)
  {
    AssessFacts(pass);
    var own, recovered, o :|
      && NewFillsOf(pass, f.orderId, own, recovered) && LastOf(pass.orders, f.orderId, o)
      && IsSuperfluous(pass, f, own, recovered, o);
    OrderVerdict(pass, f.orderId, own, recovered);
    var v := VerdictOn(pass.orders, pass.Fills(), pass.already, f.orderId);
    assert f in v.ignored;
    MemberHasId(v.ignored, f);
  }

  /** A fill of this id counts. */
  ghost predicate CountsAs(pass: Pass, id: string) {
    exists f: Fill :: f.fillId == id && Counts(pass, f)
  }

  ghost predicate StaysOpen(pass: Pass, id: string) {
    IsLeftOpen(pass, id) || WaitsForFills(pass, id)
  }

  /** Earlier fills come first, and of fills at one time those with the smaller id. */
  ghost predicate InTimeOrder(fills: seq<Fill>) {
    forall i, j :: 0 <= i < j < |fills| ==>
      && fills[i].occurredAt <= fills[j].occurredAt
      && (fills[i].occurredAt == fills[j].occurredAt ==> LexLeq(fills[i].fillId, fills[j].fillId))
  }

  /**
   * What a pass that does not ask for review returns: it posts exactly what counts, each order's fills in
   * chronological order, and reports as pending exactly the orders that stay open.
   */
  lemma PostedOutcomeOfPass(p: PortfolioState, pass: Pass)
    requires Translated(p, pass).Ok? && !Translated(p, pass).value.manualAttention
    ensures var r := Translated(p, pass).value;
      && (forall id :: id in r.appliedIds <==> CountsAs(pass, id))
      && (forall id :: id in r.pendingIds <==> StaysOpen(pass, id))
      && (r.status.AppliedWithPending? <==> exists id :: StaysOpen(pass, id))
      && !r.status.AmbiguousReviewRequired?
    ensures forall id :: InTimeOrder(OfOrder(Assess(pass).applied, id))
  {
    AllOrNothing(p, pass);
    var t, r := Assess(pass), Translated(p, pass).value;
    forall id ensures id in r.appliedIds <==> CountsAs(pass, id) { AppliedIdExactly(pass, id); }
    DistinctMembers(t.pending);
    forall id ensures id in r.pendingIds <==> StaysOpen(pass, id) { PendingExactly(pass, id); }
    if t.pending != [] { assert t.pending[0] in t.pending; }
    forall id ensures InTimeOrder(OfOrder(t.applied, id)) { PostedChronologically(pass, id); }
  }

  lemma PostedChronologically(pass: Pass, id: string)
    ensures InTimeOrder(OfOrder(Assess(pass).applied, id))
  {
    AssessFacts(pass);
    if id in pass.Groups() {
      VerdictIsChronological(id, FindOrder(pass.orders, id), OfOrder(pass.Fills(), id),
        RecoveredBefore(pass.already, id));
    }
  }

  lemma AppliedIdExactly(pass: Pass, id: string)
    requires !Assess(pass).ambiguous
    ensures id in Ids(Assess(pass).applied) <==> CountsAs(pass, id)
  {
    var applied := Assess(pass).applied;
    IdsMembers(applied, id);
    if HasId(applied, id) {
      var i :| 0 <= i < |applied| && applied[i].fillId == id;
      assert applied[i] in applied;
      AppliedExactly(pass, applied[i]);
    }
    if f: Fill :| f.fillId == id && Counts(pass, f) {
      AppliedExactly(pass, f);
      MemberHasId(applied, f);
    }
  }

  /** A pass raises exactly when it is unambiguous and the ledger refuses what counts. */
  lemma RaisesExactly(p: PortfolioState, pass: Pass)
    ensures Translated(p, pass).Err? <==> !Assess(pass).ambiguous && Applied("USDT", p, Assess(pass).applied).Err?
    ensures Assess(pass).ambiguous ==> Translated(p, pass).value.manualAttention
  {
  }

  // ------------------------------------------------------------ aggregations

  lemma {:induction false} TallyAggregations(
    orders: seq<OrderState>, seen: seq<Fill>, already: seq<string>, ids: seq<string>, start: Tally, a: Aggregation)
    requires forall id :: id in ids ==> OfOrder(seen, id) != []
    ensures a in TallyUp(orders, seen, already, ids, start).aggregations
       <==> a in start.aggregations || exists g :: g in ids && Aggregates(orders, seen, already, g, a)
  {
    if ids != [] {
      var front, last := ids[..|ids| - 1], ids[|ids| - 1];
      assert ids == front + [last];
      TallyAggregations(orders, seen, already, front, start, a);
      var t, v := TallyUp(orders, seen, already, front, start), VerdictOn(orders, seen, already, last);
      assert TallyUp(orders, seen, already, ids, start) == AddVerdict(t, last, v);
      assert v.aggregation == Some(a) <==> Aggregates(orders, seen, already, last, a);
    }
  }

  /** The verdict on this order reports this aggregation. */
  ghost predicate Aggregates(
    orders: seq<OrderState>, seen: seq<Fill>, already: seq<string>, id: string, a: Aggregation)
  {
    OfOrder(seen, id) != [] && VerdictOn(orders, seen, already, id).aggregation == Some(a)
  }

  lemma {:induction false} NotionalOfKinds(fills: seq<Fill>)
    ensures TotalNotional(fills) == TotalNotional(Select(fills, false)) + TotalNotional(Select(fills, true))
  {
    if fills != [] {
      var front, f := fills[..|fills| - 1], fills[|fills| - 1];
      NotionalOfKinds(front);
      SumNext(Notional, Select(front, IsRecovered(f)), f);
    }
  }

  /** The quote value that counts for the order. */
  ghost function NotionalCounting(o: OrderState, own: seq<Fill>, recovered: seq<Fill>): real {
    TotalNotional(own) + if Suffice(o, own, recovered) then 0.0 else TotalNotional(recovered)
  }

  /** The average price of an aggregation is its quote value per quantity. */
  ghost predicate Averages(a: Aggregation, notional: real) {
    a.averagePrice * a.totalQuantity == notional
  }

  /** Total and average of the fills that count for the order. */
  ghost predicate Sums(a: Aggregation, id: string, o: OrderState, own: seq<Fill>, recovered: seq<Fill>) {
    && a.orderId == id && a.totalQuantity == Counting(o, own, recovered)
    && Averages(a, NotionalCounting(o, own, recovered))
  }

  lemma AggregateSums(id: string, fills: seq<Fill>)
    requires fills != []
    ensures var a := Aggregate(id, fills);
      a.orderId == id && a.totalQuantity == TotalQuantity(fills) && Averages(a, TotalNotional(fills))
  {
    PositiveTotal(fills);
    QuotientTimes(TotalNotional(fills), TotalQuantity(fills));
  }

  lemma QuotientTimes(n: real, d: real)
    requires d > 0.0
    ensures n / d * d == n
  {
  }

  lemma AggregationOfVerdict(id: string, o: OrderState, fills: seq<Fill>, earlier: bool)
    requires fills != [] && !InRecovery(o)
    ensures PreferPrivate(o, fills) ==> Select(fills, false) != []
    ensures Judge(id, Some(o), fills, earlier).aggregation ==
      if Superseded(o, fills, earlier) then None
      else Some(Aggregate(id, if PreferPrivate(o, fills) then Select(fills, false) else fills))
  {
  }

  lemma JudgedAggregation(
    id: string, o: OrderState, fills: seq<Fill>, own: seq<Fill>, recovered: seq<Fill>, earlier: bool)
    requires fills != [] && Sorted(fills, own, recovered) && !InRecovery(o)
    ensures var v := Judge(id, Some(o), fills, earlier);
      && (v.aggregation.Some? <==> !ComeLate(o, own, recovered, earlier))
      && (v.aggregation.Some? ==> Sums(v.aggregation.value, id, o, own, recovered))
  {
    AggregationOfVerdict(id, o, fills, earlier);
    GuardsAsReported(o, fills, own, recovered, earlier);
    NotionalAsReported(o, fills, own, recovered);
    AggregateSums(id, if PreferPrivate(o, fills) then Select(fills, false) else fills);
  }

  lemma NotionalAsReported(o: OrderState, fills: seq<Fill>, own: seq<Fill>, recovered: seq<Fill>)
    requires Sorted(fills, own, recovered)
    ensures TotalNotional(if PreferPrivate(o, fills) then Select(fills, false) else fills)
         == NotionalCounting(o, own, recovered)
  {
    GuardsAsReported(o, fills, own, recovered, false);
    NotionalOfKinds(fills);
    SumPermuted(Notional, Select(fills, false), own);
    SumPermuted(Notional, Select(fills, true), recovered);
  }

  /** An aggregation of this order's new fills. */
  ghost predicate SumsNewFills(pass: Pass, a: Aggregation) {
    exists own, recovered, o ::
      && NewFillsOf(pass, a.orderId, own, recovered) && (own != [] || recovered != [])
      && LastOf(pass.orders, a.orderId, o)
      && !ComeLate(o, own, recovered, RecoveredEarlier(pass.already, a.orderId))
      && Sums(a, a.orderId, o, own, recovered)
  }

  lemma GroupAggregation(pass: Pass, id: string)
    requires !Assess(pass).ambiguous && id in pass.Groups() && OfOrder(pass.Fills(), id) != []
    ensures var v := VerdictOn(pass.orders, pass.Fills(), pass.already, id);
      && (v.aggregation.Some? ==> v.aggregation.value.orderId == id && SumsNewFills(pass, v.aggregation.value))
      && (v.aggregation.None? ==> forall f :: f in v.applied ==> f.orderId != id)
  {
    AssessFacts(pass);
    var own, recovered := GroupListed(pass, id);
    OrderVerdict(pass, id, own, recovered);
    var o := KnownOrder(pass, id, own, recovered);
    FindOrderIsLast(pass.orders, id);
    ListedOnce(pass, id, own, recovered);
    RecoveredEarlierExactly(pass.already, id);
    JudgedAggregation(id, o, OfOrder(pass.Fills(), id), own, recovered, RecoveredBefore(pass.already, id));
  }

  /** Every order of which an unambiguous pass posts a fill is reported with an aggregation. */
  lemma PostedOrdersAreAggregated(pass: Pass, f: Fill)
    requires !Assess(pass).ambiguous && f in Assess(pass).applied
    ensures exists a :: a in Assess(pass).aggregations && a.orderId == f.orderId
  {
    AssessFacts(pass);
    GroupAggregation(pass, f.orderId);
    var a := VerdictOn(pass.orders, pass.Fills(), pass.already, f.orderId).aggregation.value;
    assert Aggregates(pass.orders, pass.Fills(), pass.already, f.orderId, a);
    TallyAggregations(pass.orders, pass.Fills(), pass.already, pass.Groups(), Start(pass), a);
  }

  /** Every aggregation that an unambiguous pass reports sums up the fills that count for its order. */
  lemma AggregationsSumUp(pass: Pass, a: Aggregation)
    requires !Assess(pass).ambiguous && a in Assess(pass).aggregations
    ensures SumsNewFills(pass, a)
  {
    AssessFacts(pass);
    TallyAggregations(pass.orders, pass.Fills(), pass.already, pass.Groups(), Start(pass), a);
    var g :| g in pass.Groups() && Aggregates(pass.orders, pass.Fills(), pass.already, g, a);
    GroupAggregation(pass, g);
  }
}
