/** `derive_position_states` of `app/portfolio/paper.py` and the baseline builder of `app/portfolio/live.py`. */
module PositionTracing {
  import opened Collections
  import opened Contracts
  import opened PaperLedger
  import opened LiveTranslation
  import opened Reconciliation
  import opened LivePortfolioGate

  datatype PositionState = PositionState(
    instrumentId: string, quantity: real, average: real, mark: real, marketValue: real, unrealized: real)
  {
    predicate Valid() { quantity >= 0.0 && average >= 0.0 && mark >= 0.0 && marketValue >= 0.0 }
  }

  // ---------------------------------------------------------------- positions

  function MarkOf(b: Book, prices: map<string, real>, id: string): real {
    if id in prices then prices[id] else Get(b.average, id)
  }

  function PositionFor(id: string, quantity: real, average: real, mark: real): PositionState {
    PositionState(id, quantity, average, mark, quantity * mark, (mark - average) * quantity)
  }

  function PositionAt(b: Book, prices: map<string, real>, id: string): PositionState {
    PositionFor(id, Get(b.quantity, id), Get(b.average, id), MarkOf(b, prices, id))
  }

  function PositionsOf(b: Book, prices: map<string, real>, ids: seq<string>): (r: seq<PositionState>)
    ensures |r| == |ids|
  {
    if ids == [] then [] else [PositionAt(b, prices, ids[0])] + PositionsOf(b, prices, ids[1..])
  }

  lemma {:induction false} PositionsSplit(b: Book, prices: map<string, real>, ids: seq<string>, more: seq<string>)
    ensures PositionsOf(b, prices, ids + more) == PositionsOf(b, prices, ids) + PositionsOf(b, prices, more)
  {
    if ids == [] {
      assert ids + more == more;
    } else {
      assert (ids + more)[1..] == ids[1..] + more;
      PositionsSplit(b, prices, ids[1..], more);
    }
  }

  /** `None` stands for the exception of the position constructor, which is long-only. */
  method MakePosition(b: Book, prices: map<string, real>, id: string) returns (r: Option<PositionState>)
    requires id in b.quantity
    ensures r.Some? <==> LongAt(b, prices, id)
    ensures r.Some? ==> r.value == PositionAt(b, prices, id)
  {
    var quantity, average := b.quantity[id], Get(b.average, id);
    var mark := if id in prices then prices[id] else average;
    var position := PositionFor(id, quantity, average, mark);
    r := if position.Valid() then Some(position) else None;
  }

  ghost predicate LongAt(b: Book, prices: map<string, real>, id: string) { PositionAt(b, prices, id).Valid() }

  /** A position can be traced exactly if nothing about it is negative. */
  lemma LongExactly(b: Book, prices: map<string, real>, id: string)
    ensures LongAt(b, prices, id) <==>
      && Get(b.quantity, id) >= 0.0 && Get(b.average, id) >= 0.0
      && (if id in prices then prices[id] else Get(b.average, id)) >= 0.0
  {
    NoNegativeValue(Get(b.quantity, id), MarkOf(b, prices, id));
  }

  lemma NoNegativeValue(quantity: real, mark: real)
    ensures quantity >= 0.0 && mark >= 0.0 ==> quantity * mark >= 0.0
  {
  }

  /** One position per instrument in sorted order; it raises exactly when some position is not long. */
  method DerivePositions(b: Book, prices: map<string, real>) returns (r: Option<seq<PositionState>>)
    ensures r.Some? ==> r.value == PositionsOf(b, prices, SortedSet(b.quantity.Keys))
    ensures r.Some? <==> forall id :: id in b.quantity ==> LongAt(b, prices, id)
  {
    var ids := SortedSet(b.quantity.Keys);
    SortedSetFacts(b.quantity.Keys);
    assert forall id :: id in b.quantity <==> id in ids;
    var positions := [];
    for i := 0 to |ids|
      invariant positions == PositionsOf(b, prices, ids[..i])
      invariant forall id :: id in ids[..i] ==> LongAt(b, prices, id)
    {
      assert ids[i] in b.quantity;
      var position := MakePosition(b, prices, ids[i]);
      if position.None? { return None; }
      assert ids[..i + 1] == ids[..i] + [ids[i]];
      PositionsSplit(b, prices, ids[..i], [ids[i]]);
      positions := positions + [position.value];
    }
    assert ids[..|ids|] == ids;
    r := Some(positions);
  }

  function TotalValue(positions: seq<PositionState>): real {
    if positions == [] then 0.0 else positions[0].marketValue + TotalValue(positions[1..])
  }

  function TotalUnrealized(positions: seq<PositionState>): real {
    if positions == [] then 0.0 else positions[0].unrealized + TotalUnrealized(positions[1..])
  }

  /** The prices are the last fill prices of the batch. */
  ghost predicate LastPrices(prices: map<string, real>, fills: seq<Fill>) {
    forall k :: LastPrice(fills, k) == if k in prices then Some(prices[k]) else None
  }

  lemma PositionValues(b: Book, fills: seq<Fill>, prices: map<string, real>, id: string)
    requires LastPrices(prices, fills)
    ensures PositionAt(b, prices, id).marketValue == Exposure(b, fills)(id)
    ensures PositionAt(b, prices, id).unrealized == OpenProfit(b, fills)(id)
  {
    assert LastPrice(fills, id) == if id in prices then Some(prices[id]) else None;
    assert MarkOf(b, prices, id) == Mark(b, fills, id);
  }

  lemma TotalsOfFirst(x: PositionState, rest: seq<PositionState>)
    ensures TotalValue([x] + rest) == x.marketValue + TotalValue(rest)
    ensures TotalUnrealized([x] + rest) == x.unrealized + TotalUnrealized(rest)
  {
  }

  lemma {:induction false} TotalsOverKeys(b: Book, fills: seq<Fill>, prices: map<string, real>, keys: set<string>)
    requires LastPrices(prices, fills)
    ensures TotalValue(PositionsOf(b, prices, SortedSet(keys))) == SumOver(Exposure(b, fills), keys)
    ensures TotalUnrealized(PositionsOf(b, prices, SortedSet(keys))) == SumOver(OpenProfit(b, fills), keys)
  {
    if keys != {} {
      LeastExists(keys);
      var m :| Least(m, keys) && SortedSet(keys) == [m] + SortedSet(keys - {m});
      var rest := SortedSet(keys - {m});
      TotalsOverKeys(b, fills, prices, keys - {m});
      SumOverPick(Exposure(b, fills), keys, m);
      SumOverPick(OpenProfit(b, fills), keys, m);
      PositionValues(b, fills, prices, m);
      PositionsSplit(b, prices, [m], rest);
      assert PositionsOf(b, prices, [m]) == [PositionAt(b, prices, m)];
      TotalsOfFirst(PositionAt(b, prices, m), PositionsOf(b, prices, rest));
    }
  }

  /** Traced at the last prices of a batch, the positions add up to the portfolio's net exposure and open profit. */
  lemma PositionsAddUp(quote: string, p: PortfolioState, fills: seq<Fill>, prices: map<string, real>)
    requires Applied(quote, p, fills).Ok? && LastPrices(prices, fills)
    ensures var q := Applied(quote, p, fills).value;
      var positions := PositionsOf(q.book, prices, SortedSet(q.book.quantity.Keys));
      TotalValue(positions) == q.netExposure && TotalUnrealized(positions) == q.unrealized
  {
    var q := Applied(quote, p, fills).value;
    TotalsOverKeys(q.book, fills, prices, q.book.quantity.Keys);
  }

  // ----------------------------------------------------------------- baseline

  function TotalOf(b: Balance): real { OrZero(b.free) + OrZero(b.locked) }

  /** The total of the first balance of an asset, zero without one. */
  function FirstTotal(balances: seq<Balance>, asset: string): real {
    if balances == [] then 0.0
    else if balances[0].asset == asset then TotalOf(balances[0])
    else FirstTotal(balances[1..], asset)
  }

  function CashExcept(balances: seq<Balance>, base: string): map<string, real> {
    if balances == [] then map[]
    else
      var rest, b := CashExcept(balances[..|balances| - 1], base), balances[|balances| - 1];
      if b.asset != base && TotalOf(b) > 0.0 then rest[b.asset := TotalOf(b)] else rest
  }

  function BaselineBook(balances: seq<Balance>, instrument: string, base: string, quote: string): Book {
    var cash := CashExcept(balances, base);
    Book(if quote in cash then cash else cash[quote := FirstTotal(balances, quote)],
         map[instrument := FirstTotal(balances, base)], map[instrument := 0.0], 0.0)
  }

  /** `build_portfolio_baseline_from_account_snapshot` */
  method BuildBaseline(asOf: int, balances: seq<Balance>, instrument: string, base: string, quote: string)
    returns (p: PortfolioState)
    ensures p == PortfolioState(asOf, BaselineBook(balances, instrument, base, quote), 0.0, 0.0, 0.0)
  {
    var cash: map<string, real> := map[];
    for i := 0 to |balances|
      invariant cash == CashExcept(balances[..i], base)
    {
      assert balances[..i + 1][..i] == balances[..i];
      var total := OrZero(balances[i].free) + OrZero(balances[i].locked);
      if balances[i].asset != base && total > 0.0 { cash := cash[balances[i].asset := total]; }
    }
    assert balances[..|balances|] == balances;
    if quote !in cash { cash := cash[quote := FirstTotal(balances, quote)]; }
    p := PortfolioState(asOf, Book(cash, map[instrument := FirstTotal(balances, base)], map[instrument := 0.0], 0.0),
      0.0, 0.0, 0.0);
  }

  /** What the snapshot constructors accept. */
  ghost predicate Accepted(balances: seq<Balance>) {
    forall b :: b in balances ==>
      (b.free.Some? ==> b.free.value >= 0.0) && (b.locked.Some? ==> b.locked.value >= 0.0)
  }

  ghost predicate EverPositive(balances: seq<Balance>, asset: string) {
    exists b :: b in balances && b.asset == asset && TotalOf(b) > 0.0
  }

  /** The baseline keeps the last positive total of an asset, the snapshot the last one stated. */
  lemma {:induction false} KeptAndStated(balances: seq<Balance>, base: string, asset: string)
    requires Accepted(balances)
    ensures var kept, stated := CashExcept(balances, base), CashOf(balances);
      && (asset in kept <==> asset != base && EverPositive(balances, asset))
      && (asset in kept ==> kept[asset] > 0.0)
      && (asset in stated ==> stated[asset] >= 0.0)
      && (asset in stated && stated[asset] > 0.0 && asset != base ==> asset in kept && kept[asset] == stated[asset])
  {
    if balances != [] {
      var front, b := balances[..|balances| - 1], balances[|balances| - 1];
      assert balances == front + [b];
      assert forall c :: c in balances <==> c in front || c == b;
      KeptAndStated(front, base, asset);
    }
  }

  lemma {:induction false} FirstTotalSign(balances: seq<Balance>, asset: string)
    requires Accepted(balances)
    ensures !EverPositive(balances, asset) ==> FirstTotal(balances, asset) == 0.0
  {
    if balances != [] {
      assert balances == [balances[0]] + balances[1..];
      assert forall c :: c in balances <==> c in balances[1..] || c == balances[0];
      FirstTotalSign(balances[1..], asset);
    }
  }

  lemma {:induction false} AssetsAt(balances: seq<Balance>)
    ensures |AssetsOf(balances)| == |balances| && forall i :: 0 <= i < |balances| ==>
      AssetsOf(balances)[i] == balances[i].asset
  {
    if balances != [] { AssetsAt(balances[..|balances| - 1]); }
  }

  /** What the baseline projects for an asset. */
  lemma BaselineProjects(balances: seq<Balance>, instrument: string, base: string, quote: string, asset: string)
    requires Accepted(balances)
    ensures Projected(BaselineBook(balances, instrument, base, quote), asset) ==
      if asset in CashExcept(balances, base) then CashExcept(balances, base)[asset]
      else if asset == quote then FirstTotal(balances, asset)
      else if asset == BeforeFirst(instrument, '-') then FirstTotal(balances, base)
      else 0.0
  {
    var book := BaselineBook(balances, instrument, base, quote);
    assert Matching(book, asset) == if asset == BeforeFirst(instrument, '-') then {instrument} else {};
  }

  /**
   * The snapshot states the asset, and the baseline has the stated amount: of the base asset if it is the quote asset
   * or names the instrument and the first amount was repeated; of another asset if the last stated amount is positive,
   * or none ever was and the asset does not stand for a position.
   */
  ghost predicate Aligned(
    balances: seq<Balance>, instrument: string, base: string, quote: string, asset: string)
  {
    var stated := CashOf(balances);
    && asset in stated
    && if asset == base then
         stated[asset] == if base in {quote, BeforeFirst(instrument, '-')} then FirstTotal(balances, base) else 0.0
       else if EverPositive(balances, asset) then stated[asset] > 0.0
       else asset == BeforeFirst(instrument, '-') && asset != quote ==> FirstTotal(balances, base) == 0.0
  }

  lemma AlignedExactly(balances: seq<Balance>, instrument: string, base: string, quote: string, asset: string)
    requires Accepted(balances)
    ensures !Mismatched(BaselineBook(balances, instrument, base, quote), CashOf(balances), asset)
       <==> Aligned(balances, instrument, base, quote, asset)
  {
    KeptAndStated(balances, base, asset);
    FirstTotalSign(balances, asset);
    BaselineProjects(balances, instrument, base, quote, asset);
  }

  /** A baseline agrees with the snapshot it was built from exactly when every asset of the snapshot is aligned. */
  lemma BaselineAgrees(balances: seq<Balance>, instrument: string, base: string, quote: string)
    requires Accepted(balances)
    ensures !SnapshotDisagrees(BaselineBook(balances, instrument, base, quote), Some(CashOf(balances)),
      AssetsOf(balances))
       <==> forall b :: b in balances ==> Aligned(balances, instrument, base, quote, b.asset)
  {
    AssetsAt(balances);
    forall i | 0 <= i < |balances|
      ensures !Mismatched(BaselineBook(balances, instrument, base, quote), CashOf(balances), AssetsOf(balances)[i])
         <==> Aligned(balances, instrument, base, quote, balances[i].asset)
    {
      AlignedExactly(balances, instrument, base, quote, balances[i].asset);
    }
  }

  /** A balance that is repeated with nothing left disagrees: the baseline keeps the amount stated first. */
  lemma RepeatedBalanceDisagrees(asset: string, amount: real, instrument: string, base: string, quote: string)
    requires amount > 0.0 && asset != base
    ensures var balances := [Balance(asset, Some(amount), None), Balance(asset, Some(0.0), None)];
      SnapshotDisagrees(BaselineBook(balances, instrument, base, quote), Some(CashOf(balances)), AssetsOf(balances))
  {
    var first, second := Balance(asset, Some(amount), None), Balance(asset, Some(0.0), None);
    var balances := [first, second];
    assert balances[..1] == [first] && first in balances && TotalOf(first) == amount;
    assert CashOf(balances)[asset] == 0.0;
    assert !Aligned(balances, instrument, base, quote, asset);
    BaselineAgrees(balances, instrument, base, quote);
  }

  // ------------------------------------------------- one balance per asset

  ghost predicate OneBalancePerAsset(balances: seq<Balance>) {
    forall i, j :: 0 <= i < j < |balances| ==> balances[i].asset != balances[j].asset
  }

  predicate States(b: Balance) { b.free.Some? || b.locked.Some? }

  lemma {:induction false} OnlyBalance(balances: seq<Balance>, i: nat)
    requires OneBalancePerAsset(balances) && i < |balances|
    ensures var cash, b := CashOf(balances), balances[i];
      && (b.asset in cash <==> States(b)) && (b.asset in cash ==> cash[b.asset] == TotalOf(b))
  {
    var n := |balances| - 1;
    if i < n { OnlyBalance(balances[..n], i); } else { NotThere(balances[..n], balances[n].asset); }
  }

  lemma {:induction false} NotThere(balances: seq<Balance>, asset: string)
    requires forall i :: 0 <= i < |balances| ==> balances[i].asset != asset
    ensures asset !in CashOf(balances)
  {
    if balances != [] { NotThere(balances[..|balances| - 1], asset); }
  }

  lemma {:induction false} FirstIsOnly(balances: seq<Balance>, i: nat)
    requires OneBalancePerAsset(balances) && i < |balances|
    ensures FirstTotal(balances, balances[i].asset) == TotalOf(balances[i])
  {
    if i > 0 { FirstIsOnly(balances[1..], i - 1); }
  }

  /** With one balance per asset and an instrument named after its base asset, every balance must state an amount. */
  lemma OrdinaryBaselineAgrees(balances: seq<Balance>, instrument: string, base: string, quote: string)
    requires Accepted(balances) && OneBalancePerAsset(balances) && BeforeFirst(instrument, '-') == base
    ensures !SnapshotDisagrees(BaselineBook(balances, instrument, base, quote), Some(CashOf(balances)),
      AssetsOf(balances))
       <==> forall i :: 0 <= i < |balances| ==> States(balances[i])
  {
    BaselineAgrees(balances, instrument, base, quote);
    forall i | 0 <= i < |balances|
      ensures Aligned(balances, instrument, base, quote, balances[i].asset) <==> States(balances[i])
    {
      OnlyBalance(balances, i);
      FirstIsOnly(balances, i);
      if b :| b in balances && b.asset == balances[i].asset && TotalOf(b) > 0.0 {
        var j :| 0 <= j < |balances| && balances[j] == b;
        assert j == i;
      }
    }
  }

  // ------------------------------------------------------- single fields

  /** What a traced position states. */
  lemma PositionExactly(b: Book, prices: map<string, real>, id: string)
    ensures var x := PositionAt(b, prices, id);
      && x.instrumentId == id && x.quantity == Get(b.quantity, id) && x.average == Get(b.average, id)
      && x.mark == (if id in prices then prices[id] else Get(b.average, id))
      && x.marketValue == x.quantity * x.mark && x.unrealized == (x.mark - x.average) * x.quantity
  {
  }

  /** A baseline holds the base asset as its only position, at no cost, and as cash the quote and what was positive. */
  lemma BaselineExactly(balances: seq<Balance>, instrument: string, base: string, quote: string, asset: string)
    requires Accepted(balances)
    ensures var b := BaselineBook(balances, instrument, base, quote);
      && b.quantity == map[instrument := FirstTotal(balances, base)] && b.average == map[instrument := 0.0]
      && b.realized == 0.0
      && (asset in b.cash <==> asset == quote || (asset != base && EverPositive(balances, asset)))
  {
    KeptAndStated(balances, base, asset);
  }
}
