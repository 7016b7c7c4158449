/** When the order in which the exchange delivers fills decides whether a translation pass raises. */
module DeliveryOutcome {
  import opened Collections
  import opened Contracts
  import opened PaperLedger
  import opened PostingOrder
  import opened LiveTranslation
  import opened TranslationSafety
  import opened OneFillOrders
  import opened DeliveryOrder

  // ------------------------------------------- one order per instrument

  /** No two orders with new fills trade the same instrument. */
  ghost predicate OneOrderPerInstrument(pass: Pass) {
    forall f, g :: f in pass.Fills() && g in pass.Fills() && f.instrumentId == g.instrumentId ==> f.orderId == g.orderId
  }

  lemma {:induction false} InstrumentOfOrder(fills: seq<Fill>, k: string, id: string)
    requires forall f :: f in fills && f.instrumentId == k ==> f.orderId == id
    ensures OfInstrument(fills, k) == OfInstrument(OfOrder(fills, id), k)
  {
    if fills != [] {
      var front, f := fills[..|fills| - 1], fills[|fills| - 1];
      assert fills == front + [f];
      InstrumentOfOrder(front, k, id);
      OfInstrumentConcat(OfOrder(front, id), [f], k);
      assert [f][..0] == [] && OfInstrument([f][..0], k) == [];
    }
  }

  lemma AppliedPerInstrument(pass: Pass, other: Pass)
    requires Permuted(pass, other) && !Conflicting(pass.fills, pass.already) && OneOrderPerInstrument(pass)
    ensures SamePerInstrument(Assess(pass).applied, Assess(other).applied)
  {
    NewFillsPermuted(pass.fills, other.fills, pass.already);
    SameElements(pass.Fills(), other.Fills());
    forall k ensures OfInstrument(Assess(pass).applied, k) == OfInstrument(Assess(other).applied, k) {
      var id := OrderOfInstrument(pass, k);
      forall f | f in Assess(pass).applied && f.instrumentId == k ensures f.orderId == id { AppliedAreNew(pass, f); }
      forall f | f in Assess(other).applied && f.instrumentId == k ensures f.orderId == id { AppliedAreNew(other, f); }
      InstrumentOfOrder(Assess(pass).applied, k, id);
      InstrumentOfOrder(Assess(other).applied, k, id);
      PostedSequence(pass, other, id);
    }
  }

  lemma OrderOfInstrument(pass: Pass, k: string) returns (id: string)
    requires OneOrderPerInstrument(pass)
    ensures forall f :: f in pass.Fills() && f.instrumentId == k ==> f.orderId == id
  {
    id := "";
    if f :| f in pass.Fills() && f.instrumentId == k { id := f.orderId; }
  }

  /**
   * Then the delivery order decides nothing but the time of the portfolio: both passes raise the same exception, or
   * both leave the same balances, positions, average prices, profits and exposures.
   */
  lemma OneOrderPerInstrumentOutcome(p: PortfolioState, pass: Pass, other: Pass)
    requires Permuted(pass, other) && OneOrderPerInstrument(pass)
    ensures var r, s := Translated(p, pass), Translated(p, other);
      && (r.Ok? <==> s.Ok?)
      && (r.Err? ==> s == r)
      && (r.Ok? ==>
            && s.value.status == r.value.status
            && s.value.portfolio == r.value.portfolio.(asOf := s.value.portfolio.asOf))
  {
    AssessPermuted(pass, other);
    var t, u := Assess(pass), Assess(other);
    if !t.ambiguous {
      AssessFacts(pass);
      AppliedPerInstrument(pass, other);
      InterleavedUpdates(QUOTE_ASSET, p, t.applied, u.applied);
      assert t.pending == [] <==> u.pending == [] by { NoMembers(t.pending, u.pending); }
    }
  }

  // --------------------------------------------------- the division by zero

  function OfOrders(fills: seq<Fill>, ids: set<string>): seq<Fill> {
    if fills == [] then []
    else
      var rest, f := OfOrders(fills[..|fills| - 1], ids), fills[|fills| - 1];
      if f.orderId in ids then rest + [f] else rest
  }

  lemma {:induction false} OneOrderMore(w: Fill -> real, fills: seq<Fill>, ids: set<string>, id: string)
    requires id !in ids
    ensures Sum(w, OfOrders(fills, ids + {id})) == Sum(w, OfOrders(fills, ids)) + Sum(w, OfOrder(fills, id))
  {
    if fills != [] {
      var front, f := fills[..|fills| - 1], fills[|fills| - 1];
      OneOrderMore(w, front, ids, id);
      SumNext(w, OfOrders(front, ids + {id}), f);
      SumNext(w, OfOrders(front, ids), f);
      SumNext(w, OfOrder(front, id), f);
    }
  }

  /** The fills of these orders, one order after the other. */
  function InTurn(fills: seq<Fill>, ids: seq<string>): seq<Fill> {
    if ids == [] then [] else InTurn(fills, ids[..|ids| - 1]) + OfOrder(fills, ids[|ids| - 1])
  }

  lemma {:induction false} InTurnSum(w: Fill -> real, fills: seq<Fill>, ids: seq<string>)
    requires NoDup(ids)
    ensures Sum(w, InTurn(fills, ids)) == Sum(w, OfOrders(fills, Elements(ids)))
  {
    if ids == [] {
      NoOrders(fills);
      assert Elements(ids) == {};
    } else {
      var front, id := ids[..|ids| - 1], ids[|ids| - 1];
      assert ids == front + [id];
      assert Elements(ids) == Elements(front) + {id} && id !in Elements(front);
      InTurnSum(w, fills, front);
      SumConcat(w, InTurn(fills, front), OfOrder(fills, id));
      OneOrderMore(w, fills, Elements(front), id);
    }
  }

  lemma {:induction false} NoOrders(fills: seq<Fill>)
    ensures OfOrders(fills, {}) == []
  {
    if fills != [] { NoOrders(fills[..|fills| - 1]); }
  }

  /** A pass posts its orders in the order of their first new fill. */
  lemma AppliedInTurn(pass: Pass)
    ensures Assess(pass).applied == InTurn(Assess(pass).applied, pass.Groups())
  {
    AssessFacts(pass);
    TalliedInTurn(pass, pass.Groups());
  }

  lemma {:induction false} TalliedInTurn(pass: Pass, ids: seq<string>)
    requires forall id :: id in ids ==> id in pass.Groups() && OfOrder(pass.Fills(), id) != []
    ensures TallyUp(pass.orders, pass.Fills(), pass.already, ids, Start(pass)).applied
         == InTurn(Assess(pass).applied, ids)
  {
    if ids != [] {
      assert ids == ids[..|ids| - 1] + [ids[|ids| - 1]];
      TalliedInTurn(pass, ids[..|ids| - 1]);
      AssessFacts(pass);
    }
  }

  /** After the fills of these other orders, one after the other, this fill of the order divides by zero. */
  ghost predicate OrdersZero(b: Book, applied: seq<Fill>, ids: set<string>, id: string, n: nat) {
    var fills := OfOrder(applied, id);
    id !in ids && n < |fills| && Zeroes(b, OfOrders(applied, ids) + fills[..n], fills[n])
  }

  ghost predicate Divides(p: PortfolioState, pass: Pass) {
    Translated(p, pass) == Err(DivisionByZero)
  }

  /**
   * Some delivery order of a pass divides by zero exactly when the pass is unambiguous and some of its orders,
   * followed by the beginning of a further order, bring a position from short to zero with a buy.
   */
  lemma DividesInSomeOrder(p: PortfolioState, pass: Pass)
    ensures (exists other :: Permuted(pass, other) && Divides(p, other)) <==>
      !Assess(pass).ambiguous && exists ids, id, n: nat :: OrdersZero(p.book, Assess(pass).applied, ids, id, n)
  {
    forall other | Permuted(pass, other) && Divides(p, other)
      ensures !Assess(pass).ambiguous
      ensures exists ids, id, n: nat :: OrdersZero(p.book, Assess(pass).applied, ids, id, n)
    {
      var ids, id, n := OrdersBeforeDivision(p, pass, other);
    }
    if ids, id, n: nat :| !Assess(pass).ambiguous && OrdersZero(p.book, Assess(pass).applied, ids, id, n) {
      var other := DividingDelivery(p, pass, ids, id, n);
    }
  }

  lemma OrdersBeforeDivision(p: PortfolioState, pass: Pass, other: Pass)
    returns (ids: set<string>, id: string, n: nat)
    requires Permuted(pass, other) && Divides(p, other)
    ensures !Assess(pass).ambiguous && OrdersZero(p.book, Assess(pass).applied, ids, id, n)
  {
    AssessPermuted(pass, other);
    var applied, groups := Assess(pass).applied, other.Groups();
    AppliedInTurn(other);
    AssessFacts(pass);
    InTurnSame(pass, other, groups);
    DividesExactly(QUOTE_ASSET, p.book, Assess(other).applied);
    var i: nat :| ZeroesAt(p.book, InTurn(applied, groups), i);
    ids, id, n := ZeroTurn(p.book, applied, groups, i);
  }

  lemma ZeroTurn(b: Book, fills: seq<Fill>, groups: seq<string>, i: nat) returns (ids: set<string>, id: string, n: nat)
    requires NoDup(groups) && ZeroesAt(b, InTurn(fills, groups), i)
    ensures OrdersZero(b, fills, ids, id, n)
  {
    var k;
    k, n := TurnOf(fills, groups, i);
    id, ids := groups[k], Elements(groups[..k]);
    SameZero(b, fills, groups[..k], OfOrder(fills, id)[..n], OfOrder(fills, id)[n]);
  }

  /** Element `i` is the fill `n` of the order whose turn is the `k`-th. */
  lemma {:induction false} TurnOf(fills: seq<Fill>, ids: seq<string>, i: nat) returns (k: nat, n: nat)
    requires i < |InTurn(fills, ids)|
    ensures k < |ids| && n < |OfOrder(fills, ids[k])|
    ensures InTurn(fills, ids)[..i] == InTurn(fills, ids[..k]) + OfOrder(fills, ids[k])[..n]
    ensures InTurn(fills, ids)[i] == OfOrder(fills, ids[k])[n]
  {
    var front, last := ids[..|ids| - 1], ids[|ids| - 1];
    var before, now := InTurn(fills, front), OfOrder(fills, last);
    assert InTurn(fills, ids) == before + now;
    if i < |before| {
      k, n := TurnOf(fills, front, i);
      assert ids[..k] == front[..k];
      assert (before + now)[..i] == before[..i];
    } else {
      k, n := |front|, i - |before|;
      assert (before + now)[..i] == before + now[..n];
    }
  }

  lemma InTurnSame(pass: Pass, other: Pass, ids: seq<string>)
    requires Permuted(pass, other) && !Conflicting(pass.fills, pass.already)
    ensures InTurn(Assess(pass).applied, ids) == InTurn(Assess(other).applied, ids)
  {
    if ids != [] {
      InTurnSame(pass, other, ids[..|ids| - 1]);
      PostedSequence(pass, other, ids[|ids| - 1]);
    }
  }

  /** The order in which the earlier orders had their turn does not matter. */
  lemma SameZero(b: Book, fills: seq<Fill>, ids: seq<string>, start: seq<Fill>, f: Fill)
    requires NoDup(ids)
    ensures Zeroes(b, InTurn(fills, ids) + start, f) <==> Zeroes(b, OfOrders(fills, Elements(ids)) + start, f)
  {
    var w := QuantityEffect(f.instrumentId);
    InTurnSum(w, fills, ids);
    SumConcat(w, InTurn(fills, ids), start);
    SumConcat(w, OfOrders(fills, Elements(ids)), start);
  }

  lemma DividingDelivery(p: PortfolioState, pass: Pass, ids: set<string>, id: string, n: nat) returns (other: Pass)
    requires !Assess(pass).ambiguous && OrdersZero(p.book, Assess(pass).applied, ids, id, n)
    ensures Permuted(pass, other) && Divides(p, other)
  {
    AssessFacts(pass);
    var applied, groups := Assess(pass).applied, Elements(pass.Groups());
    var first, last := SortedSet(ids * groups), SortedSet(groups - ids - {id});
    TurnsCover(groups, ids, id, first, last);
    other := DeliverInTurn(pass, first + [id] + last);
    AssessPermuted(pass, other);
    AppliedInTurn(other);
    InTurnSame(pass, other, other.Groups());
    SameOrders(applied, ids, Elements(first));
    SameZero(p.book, applied, first, OfOrder(applied, id)[..n], OfOrder(applied, id)[n]);
    ZeroInTurn(p.book, applied, first, id, last, n);
    DividesExactly(QUOTE_ASSET, p.book, Assess(other).applied);
  }

  lemma TurnsCover(groups: set<string>, ids: set<string>, id: string, first: seq<string>, last: seq<string>)
    requires id in groups && id !in ids
    requires first == SortedSet(ids * groups) && last == SortedSet(groups - ids - {id})
    ensures NoDup(first) && NoDup(first + [id] + last)
    ensures forall g :: g in first + [id] + last <==> g in groups
    ensures Elements(first) == ids * groups
  {
    SortedSetFacts(ids * groups);
    SortedSetFacts(groups - ids - {id});
    NoDupConcat(first, [id]);
    NoDupConcat(first + [id], last);
  }

  lemma {:induction false} SameOrders(fills: seq<Fill>, a: set<string>, b: set<string>)
    requires forall f :: f in fills ==> (f.orderId in a <==> f.orderId in b)
    ensures OfOrders(fills, a) == OfOrders(fills, b)
  {
    if fills != [] {
      assert fills == fills[..|fills| - 1] + [fills[|fills| - 1]];
      SameOrders(fills[..|fills| - 1], a, b);
    }
  }

  lemma ZeroInTurn(b: Book, fills: seq<Fill>, first: seq<string>, id: string, last: seq<string>, n: nat)
    requires n < |OfOrder(fills, id)|
    requires Zeroes(b, InTurn(fills, first) + OfOrder(fills, id)[..n], OfOrder(fills, id)[n])
    ensures exists i: nat :: ZeroesAt(b, InTurn(fills, first + [id] + last), i)
  {
    var before, now := InTurn(fills, first), OfOrder(fills, id);
    InTurnConcat(fills, first + [id], last);
    assert (first + [id])[..|first|] == first;
    var all := InTurn(fills, first + [id] + last);
    assert all == before + now + InTurn(fills, last);
    var i := |before| + n;
    assert all[..i] == before + now[..n] && all[i] == now[n];
    assert ZeroesAt(b, all, i);
  }

  lemma {:induction false} InTurnConcat(fills: seq<Fill>, a: seq<string>, b: seq<string>)
    ensures InTurn(fills, a + b) == InTurn(fills, a) + InTurn(fills, b)
  {
    if b == [] {
      assert a + b == a;
    } else {
      assert (a + b)[..|a + b| - 1] == a + b[..|b| - 1];
      InTurnConcat(fills, a, b[..|b| - 1]);
    }
  }

  /** The orders of a pass can be delivered in any sequence. */
  lemma DeliverInTurn(pass: Pass, ids: seq<string>) returns (other: Pass)
    requires NoDup(ids) && forall id :: id in ids <==> id in pass.Groups()
    ensures Permuted(pass, other) && other.Groups() == ids
  {
    var fills := pass.Fills();
    forall id | id in ids ensures OfOrder(fills, id) != [] { GroupsAreInhabited(fills, id); }
    NewFills(pass.fills, pass.already);
    NewFillsDistinct(pass.fills, pass.already);
    InTurnMembers(fills, ids);
    var delivered := InTurn(fills, ids);
    AllDelivered(pass, ids);
    PartOf(delivered, pass.fills);
    var rest := Completion(pass.fills, delivered);
    other := pass.(fills := delivered + rest);
    DeliveredAreNew(pass, delivered);
    SameElements(delivered + rest, pass.fills);
    RestIsKnown(delivered, rest, pass.already);
    GroupsInTurn(fills, ids);
  }

  lemma {:induction false} InTurnMembers(fills: seq<Fill>, ids: seq<string>)
    requires NoDup(fills) && NoDup(ids)
    ensures forall f :: f in InTurn(fills, ids) <==> f in fills && f.orderId in ids
    ensures NoDup(InTurn(fills, ids))
  {
    if ids != [] {
      var front, id := ids[..|ids| - 1], ids[|ids| - 1];
      assert ids == front + [id];
      InTurnMembers(fills, front);
      OrderMembers(fills, id);
      NoDupConcat(InTurn(fills, front), OfOrder(fills, id));
    }
  }

  lemma AllDelivered(pass: Pass, ids: seq<string>)
    requires NoDup(ids) && forall id :: id in ids <==> id in pass.Groups()
    ensures forall f :: f in InTurn(pass.Fills(), ids) <==> f in pass.Fills()
  {
    NewFillsDistinct(pass.fills, pass.already);
    InTurnMembers(pass.Fills(), ids);
    forall f | f in pass.Fills() ensures f.orderId in ids { GroupMembers(pass.Fills(), f.orderId); }
  }

  lemma PartOf<T(!new)>(part: seq<T>, whole: seq<T>)
    requires NoDup(part) && forall x :: x in part ==> x in whole
    ensures multiset(part) <= multiset(whole)
  {
    forall x ensures multiset(part)[x] <= multiset(whole)[x] {
      NoDupCount(part, x);
      assert x in whole <==> x in multiset(whole);
    }
  }

  lemma DeliveredAreNew(pass: Pass, delivered: seq<Fill>)
    requires NoDup(delivered) && forall f :: f in delivered <==> f in pass.Fills()
    ensures Fresh(delivered, pass.already) == delivered
    ensures forall f :: f in pass.fills ==> f.fillId in pass.already || HasId(delivered, f.fillId)
  {
    NewFills(pass.fills, pass.already);
    forall j, k | 0 <= j < k < |delivered| ensures delivered[j].fillId != delivered[k].fillId {
      if delivered[j].fillId == delivered[k].fillId {
        IdNamesFill(pass.fills, pass.already, delivered[j], delivered[k]);
        assert false;
      }
    }
    AllNew(delivered, pass.already);
    forall f | f in pass.fills && f.fillId !in pass.already ensures HasId(delivered, f.fillId) {
      var i :| 0 <= i < |pass.Fills()| && pass.Fills()[i].fillId == f.fillId;
      MemberHasId(delivered, pass.Fills()[i]);
    }
  }

  lemma {:induction false} RestIsKnown(known: seq<Fill>, rest: seq<Fill>, already: seq<string>)
    requires Fresh(known, already) == known
    requires forall f :: f in rest ==> f.fillId in already || HasId(known, f.fillId)
    ensures Fresh(known + rest, already) == known
  {
    if rest == [] {
      assert known + rest == known;
    } else {
      var front, f := rest[..|rest| - 1], rest[|rest| - 1];
      assert rest == front + [f];
      assert (known + rest)[..|known + rest| - 1] == known + front;
      RestIsKnown(known, front, already);
    }
  }

  lemma {:induction false} GroupsInTurn(fills: seq<Fill>, ids: seq<string>)
    requires NoDup(ids) && forall id :: id in ids ==> OfOrder(fills, id) != []
    ensures GroupIds(InTurn(fills, ids)) == ids
  {
    if ids != [] {
      var front, id := ids[..|ids| - 1], ids[|ids| - 1];
      assert ids == front + [id];
      GroupsInTurn(fills, front);
      forall f | f in OfOrder(fills, id) ensures f.orderId == id { OrderMembers(fills, id); }
      OneGroupMore(InTurn(fills, front), OfOrder(fills, id), id);
    }
  }

  lemma {:induction false} OneGroupMore(before: seq<Fill>, fills: seq<Fill>, id: string)
    requires fills != [] && id !in GroupIds(before) && forall f :: f in fills ==> f.orderId == id
    ensures GroupIds(before + fills) == GroupIds(before) + [id]
  {
    var front, last := fills[..|fills| - 1], fills[|fills| - 1];
    assert fills == front + [last];
    assert (before + fills)[..|before + fills| - 1] == before + front;
    if front == [] {
      assert before + front == before;
    } else {
      OneGroupMore(before, front, id);
    }
  }

  lemma {:induction false} SumOfPart(w: Fill -> real, part: seq<Fill>, whole: seq<Fill>)
    requires NoDup(part) && forall f :: f in part ==> f in whole
    requires forall f: Fill :: w(f) >= 0.0
    ensures Sum(w, part) <= Sum(w, whole)
  {
    if part == [] {
      SumNonNegative(w, whole);
    } else {
      var front, x := part[..|part| - 1], part[|part| - 1];
      assert part == front + [x];
      assert x in part;
      var i :| 0 <= i < |whole| && whole[i] == x;
      var rest := Without(whole, i);
      forall f | f in front ensures f in rest {
        assert f in part && f != x;
      }
      SumOfPart(w, front, rest);
      SumWithout(w, whole, i);
    }
  }

  /** When holdings cover what the new fills sell, even whether the pass raises is independent of delivery order. */
  lemma CoveredDelivery(p: PortfolioState, pass: Pass, other: Pass)
    requires Permuted(pass, other)
    requires p.Valid() && Covered(p.book, pass.Fills())
    ensures Translated(p, pass).Ok? <==> Translated(p, other).Ok?
  {
    AssessPermuted(pass, other);
    var t, u := Assess(pass), Assess(other);
    if !t.ambiguous {
      CoveredApplied(p.book, pass);
      forall k ensures Sum(Sold(k), t.applied) == Sum(Sold(k), u.applied) {
        SumPermuted(Sold(k), t.applied, u.applied);
      }
      CoveredOutcome(QUOTE_ASSET, p, t.applied);
      CoveredOutcome(QUOTE_ASSET, p, u.applied);
      SumPermuted(CashEffect, t.applied, u.applied);
      SameSize(t.applied, u.applied);
    }
  }

  lemma CoveredApplied(b: Book, pass: Pass)
    requires Covered(b, pass.Fills())
    ensures Covered(b, Assess(pass).applied)
  {
    AssessFacts(pass);
    forall f | f in Assess(pass).applied ensures f in pass.Fills() { AppliedAreNew(pass, f); }
    forall k ensures Get(b.quantity, k) >= Sum(Sold(k), Assess(pass).applied) {
      SumOfPart(Sold(k), Assess(pass).applied, pass.Fills());
    }
  }

  lemma BuyFirstPosts(p: PortfolioState, buy: Fill, sell: Fill)
    requires RoundTrip(p, buy, sell)
    ensures Applied(QUOTE_ASSET, p, [buy, sell]).Ok?
  {
    var k := buy.instrumentId;
    assert [buy, sell][..1] == [buy] && [buy][..0] == [];
    var bought := Book(map[QUOTE_ASSET := -10.0], map[k := 1.0], map[k := 10.0], 0.0);
    assert PostAll(QUOTE_ASSET, p.book, [buy]) == Post(QUOTE_ASSET, p.book, buy) == Some(bought);
    var sold := Post(QUOTE_ASSET, bought, sell).value;
    assert PostAll(QUOTE_ASSET, p.book, [buy, sell]) == Some(sold);
    assert sold == Book(map[QUOTE_ASSET := 0.0], map[k := 0.0], map[k := 0.0], 0.0);
    ValuedIsValid(p.asOf, sold, [buy, sell]);
  }

  lemma SellFirstDivides(p: PortfolioState, buy: Fill, sell: Fill)
    requires RoundTrip(p, buy, sell)
    ensures Applied(QUOTE_ASSET, p, [sell, buy]) == Err(DivisionByZero)
  {
    var w := QuantityEffect(buy.instrumentId);
    assert [sell, buy][..1] == [sell] && [sell][..0] == [];
    assert Sum(w, [sell]) == Sum(w, [sell][..0]) + w(sell) == -1.0;
    assert ZeroesAt(p.book, [sell, buy], 1);
    DividesExactly(QUOTE_ASSET, p.book, [sell, buy]);
  }

  lemma TwoOrders(bought: OrderState, sold: OrderState, buy: Fill, sell: Fill)
    requires BothFilled(bought, sold, buy, sell)
    ensures OneToOne([bought, sold], [buy, sell]) && OneToOne([bought, sold], [sell, buy])
  {
    var orders := [bought, sold];
    assert orders[..1] == [bought];
    assert FindOrder(orders, sell.orderId) == Some(sold) && FindOrder(orders, buy.orderId) == Some(bought);
    assert buy in [buy, sell] && sell in [buy, sell] && buy in [sell, buy] && sell in [sell, buy];
  }

  /** An empty account, and a purchase and a sale of one unit at 10 without fees. */
  ghost predicate RoundTrip(p: PortfolioState, buy: Fill, sell: Fill) {
    && p.book == Book(map[], map[], map[], 0.0) && buy.instrumentId == sell.instrumentId
    && buy.side.Buy? && sell.side.Sell? && buy.quantity == sell.quantity == 1.0
    && buy.price == sell.price == 10.0 && buy.fee == sell.fee == 0.0
  }

  /** Two orders that the two fills fill. */
  ghost predicate BothFilled(bought: OrderState, sold: OrderState, buy: Fill, sell: Fill) {
    FilledBy(bought, buy) && FilledBy(sold, sell) && buy.orderId != sell.orderId && buy.fillId != sell.fillId
  }

  lemma BuyFirstIsPosted(p: PortfolioState, bought: OrderState, sold: OrderState, buy: Fill, sell: Fill)
    requires RoundTrip(p, buy, sell) && BothFilled(bought, sold, buy, sell)
    ensures Translated(p, Pass([bought, sold], [buy, sell], [], None, [])).Ok?
  {
    TwoOrders(bought, sold, buy, sell);
    OneToOnePosts(p, [bought, sold], [buy, sell]);
    BuyFirstPosts(p, buy, sell);
  }

  lemma SellFirstIsRefused(p: PortfolioState, bought: OrderState, sold: OrderState, buy: Fill, sell: Fill)
    requires RoundTrip(p, buy, sell) && BothFilled(bought, sold, buy, sell)
    ensures Translated(p, Pass([bought, sold], [sell, buy], [], None, [])) == Err(DivisionByZero)
  {
    TwoOrders(bought, sold, buy, sell);
    OneToOnePosts(p, [bought, sold], [sell, buy]);
    SellFirstDivides(p, buy, sell);
  }

  /** From an empty account the arrival order of two FILLED orders decides between a result and an exception. */
  lemma UncoveredOrderMatters(p: PortfolioState, bought: OrderState, sold: OrderState, buy: Fill, sell: Fill)
    requires RoundTrip(p, buy, sell) && BothFilled(bought, sold, buy, sell)
    ensures multiset([buy, sell]) == multiset([sell, buy])
    ensures Translated(p, Pass([bought, sold], [buy, sell], [], None, [])).Ok?
    ensures Translated(p, Pass([bought, sold], [sell, buy], [], None, [])) == Err(DivisionByZero)
  {
    BuyFirstIsPosted(p, bought, sold, buy, sell);
    SellFirstIsRefused(p, bought, sold, buy, sell);
  }
}
