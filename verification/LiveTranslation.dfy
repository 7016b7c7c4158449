/** `LivePortfolioTranslator.translate` of `app/portfolio/live.py`: an all-or-nothing fill translation. */
module LiveTranslation {
  import opened Collections
  import opened Contracts
  import opened PaperLedger

  const QUOTE_ASSET := "USDT"
  const RECOVERED_MARK := ":recovered:"

  datatype TranslationStatus = AppliedAll | AppliedWithPending | AmbiguousReviewRequired

  datatype Aggregation = Aggregation(orderId: string, fillIds: seq<string>, totalQuantity: real, averagePrice: real)

  datatype TranslationResult = TranslationResult(
    status: TranslationStatus, portfolio: PortfolioState, appliedIds: seq<string>, ignoredIds: seq<string>,
    pendingIds: seq<string>, aggregations: seq<Aggregation>, manualAttention: bool)

  // -------------------------------------------------------- recovered fills

  predicate IsRecovered(f: Fill) {
    Contains(f.fillId, RECOVERED_MARK)
  }

  function RecoveredOrderId(fillId: string): Option<string> {
    if Contains(fillId, RECOVERED_MARK) then Some(BeforeFirst(fillId, ':')) else None
  }

  /** A recovered fill of this order has been applied by an earlier pass. */
  predicate RecoveredBefore(already: seq<string>, orderId: string) {
    exists i | 0 <= i < |already| :: RecoveredOrderId(already[i]) == Some(orderId)
  }

  lemma RecoveredIdNamesItsOrder(orderId: string, trade: string)
    requires ':' !in orderId
    ensures RecoveredOrderId(orderId + RECOVERED_MARK + trade) == Some(orderId)
  {
    var id := orderId + RECOVERED_MARK + trade;
    assert OccursAt(id, RECOVERED_MARK, |orderId|);
    assert id == orderId + [':'] + ("recovered:" + trade);
    BeforeFirstOfJoin(orderId, ':', "recovered:" + trade);
  }

  // ------------------------------------------------- first pass: duplicates

  predicate HasId(fills: seq<Fill>, id: string) {
    exists i | 0 <= i < |fills| :: fills[i].fillId == id
  }

  function FindFill(fills: seq<Fill>, id: string): (r: Option<Fill>)
    ensures r.Some? <==> HasId(fills, id)
    ensures r.Some? ==> r.value in fills && r.value.fillId == id
  {
    if fills == [] then None
    else if fills[|fills| - 1].fillId == id then Some(fills[|fills| - 1])
    else FindFill(fills[..|fills| - 1], id)
  }

  /** The fills a pass works on: the first delivery of every id not applied before. */
  function Fresh(fills: seq<Fill>, already: seq<string>): seq<Fill> {
    if fills == [] then []
    else
      var kept, f := Fresh(fills[..|fills| - 1], already), fills[|fills| - 1];
      if f.fillId in already || HasId(kept, f.fillId) then kept else kept + [f]
  }

  /** Ids skipped as applied before or as a faithful redelivery. */
  function Redelivered(fills: seq<Fill>, already: seq<string>): seq<string> {
    if fills == [] then []
    else
      var front, f := fills[..|fills| - 1], fills[|fills| - 1];
      var ids := Redelivered(front, already);
      if f.fillId in already || FindFill(Fresh(front, already), f.fillId) == Some(f) then ids + [f.fillId] else ids
  }

  /** Some id not applied before was delivered with two different contents. */
  predicate Conflicting(fills: seq<Fill>, already: seq<string>) {
    fills != [] &&
    var front, f := fills[..|fills| - 1], fills[|fills| - 1];
    Conflicting(front, already)
    || (f.fillId !in already && HasId(Fresh(front, already), f.fillId)
      && FindFill(Fresh(front, already), f.fillId) != Some(f))
  }

  method Deduplicate(fills: seq<Fill>, already: seq<string>)
    returns (seen: seq<Fill>, ignored: seq<string>, ambiguous: bool)
    ensures seen == Fresh(fills, already)
    ensures ignored == Redelivered(fills, already)
    ensures ambiguous == Conflicting(fills, already)
  {
    seen, ignored, ambiguous := [], [], false;
    var byId: map<string, Fill> := map[];
    for i := 0 to |fills|
      invariant seen == Fresh(fills[..i], already)
      invariant ignored == Redelivered(fills[..i], already)
      invariant ambiguous == Conflicting(fills[..i], already)
      invariant forall id :: id in byId <==> HasId(seen, id)
      invariant forall id :: id in byId ==> FindFill(seen, id) == Some(byId[id])
    {
      var f := fills[i];
      assert fills[..i + 1][..i] == fills[..i];
      if f.fillId in already {
        ignored := ignored + [f.fillId];
      } else if f.fillId !in byId {
        AppendedFill(seen, f);
        byId := byId[f.fillId := f];
        seen := seen + [f];
      } else if byId[f.fillId] != f {
        ambiguous := true;
      } else {
        ignored := ignored + [f.fillId];
      }
    }
    assert fills[..|fills|] == fills;
  }

  lemma AppendedFill(fills: seq<Fill>, f: Fill)
    ensures forall id :: FindFill(fills + [f], id) == if id == f.fillId then Some(f) else FindFill(fills, id)
    ensures forall id :: HasId(fills + [f], id) <==> id == f.fillId || HasId(fills, id)
  {
    assert (fills + [f])[..|fills|] == fills;
    forall id ensures FindFill(fills + [f], id) == if id == f.fillId then Some(f) else FindFill(fills, id) {}
    forall id ensures HasId(fills + [f], id) <==> FindFill(fills + [f], id).Some? {}
  }

  // ---------------------------------------------------- second pass: groups

  function GroupIds(fills: seq<Fill>): (r: seq<string>)
    ensures forall i, j :: 0 <= i < j < |r| ==> r[i] != r[j]
  {
    if fills == [] then []
    else
      var ids, f := GroupIds(fills[..|fills| - 1]), fills[|fills| - 1];
      if f.orderId in ids then ids else ids + [f.orderId]
  }

  function OfOrder(fills: seq<Fill>, id: string): seq<Fill> {
    if fills == [] then []
    else
      var rest, f := OfOrder(fills[..|fills| - 1], id), fills[|fills| - 1];
      if f.orderId == id then rest + [f] else rest
  }

  function Select(fills: seq<Fill>, recovered: bool): seq<Fill> {
    if fills == [] then []
    else
      var rest, f := Select(fills[..|fills| - 1], recovered), fills[|fills| - 1];
      if IsRecovered(f) == recovered then rest + [f] else rest
  }

  method GroupByOrder(fills: seq<Fill>) returns (ids: seq<string>, groups: map<string, seq<Fill>>)
    ensures ids == GroupIds(fills)
    ensures forall id :: id in groups <==> id in ids
    ensures forall id :: id in groups ==> groups[id] == OfOrder(fills, id) && groups[id] != []
  {
    ids, groups := [], map[];
    for i := 0 to |fills|
      invariant ids == GroupIds(fills[..i])
      invariant forall id :: id in groups <==> id in ids
      invariant forall id :: OfOrder(fills[..i], id) == if id in groups then groups[id] else []
      invariant forall id :: id in groups ==> groups[id] != []
    {
      var f := fills[i];
      assert fills[..i + 1][..i] == fills[..i];
      if f.orderId !in groups {
        ids := ids + [f.orderId];
        groups := groups[f.orderId := []];
      }
      groups := groups[f.orderId := groups[f.orderId] + [f]];
    }
    assert fills[..|fills|] == fills;
  }

  // ------------------------------------------------ the verdict on one order

  predicate FillBefore(a: Fill, b: Fill) {
    a.occurredAt < b.occurredAt || (a.occurredAt == b.occurredAt && LexLeq(a.fillId, b.fillId))
  }

  function InsertFill(sorted: seq<Fill>, f: Fill): (r: seq<Fill>)
    ensures multiset(r) == multiset(sorted) + multiset{f}
  {
    if sorted != [] && FillBefore(sorted[0], f) then
      assert sorted == [sorted[0]] + sorted[1..];
      [sorted[0]] + InsertFill(sorted[1..], f)
    else [f] + sorted
  }

  /** `sorted(fills, key=(occurred_at, fill_id))` */
  function SortFills(fills: seq<Fill>): (r: seq<Fill>)
    ensures multiset(r) == multiset(fills)
  {
    if fills == [] then []
    else
      assert fills == fills[..|fills| - 1] + [fills[|fills| - 1]];
      InsertFill(SortFills(fills[..|fills| - 1]), fills[|fills| - 1])
  }

  ghost predicate Chronological(fills: seq<Fill>) {
    forall i, j :: 0 <= i < j < |fills| ==> FillBefore(fills[i], fills[j])
  }

  lemma FillBeforeOrders(a: Fill, b: Fill, c: Fill)
    ensures FillBefore(a, b) || FillBefore(b, a)
    ensures FillBefore(a, b) && FillBefore(b, c) ==> FillBefore(a, c)
    ensures FillBefore(a, b) && FillBefore(b, a) ==> a.fillId == b.fillId
  {
    LexTotal(a.fillId, b.fillId);
    if LexLeq(a.fillId, b.fillId) && LexLeq(b.fillId, c.fillId) { LexTransitive(a.fillId, b.fillId, c.fillId); }
  }

  lemma {:induction false} InsertKeepsOrder(sorted: seq<Fill>, f: Fill)
    requires Chronological(sorted)
    ensures Chronological(InsertFill(sorted, f))
  {
    var r := InsertFill(sorted, f);
    if sorted != [] && FillBefore(sorted[0], f) {
      InsertKeepsOrder(sorted[1..], f);
      forall j | 0 < j < |r| ensures FillBefore(r[0], r[j]) { Inserted(sorted[1..], f, r[j]); }
    } else if sorted != [] {
      FillBeforeOrders(f, sorted[0], f);
      forall j | 0 < j < |r| ensures FillBefore(r[0], r[j]) { FillBeforeOrders(f, sorted[0], r[j]); }
    }
  }

  lemma Inserted(sorted: seq<Fill>, f: Fill, g: Fill)
    requires g in InsertFill(sorted, f)
    ensures g == f || g in sorted
  {
    assert g in multiset(InsertFill(sorted, f));
  }

  /** Sorting yields chronological order. */
  lemma {:induction false} SortedChronologically(fills: seq<Fill>)
    ensures Chronological(SortFills(fills))
  {
    if fills != [] {
      SortedChronologically(fills[..|fills| - 1]);
      InsertKeepsOrder(SortFills(fills[..|fills| - 1]), fills[|fills| - 1]);
    }
  }

  ghost predicate DistinctIds(fills: seq<Fill>) {
    forall f, g :: f in fills && g in fills && f.fillId == g.fillId ==> f == g
  }

  /** With distinct ids there is one chronological order. */
  lemma {:induction false} ChronologicalOnce(a: seq<Fill>, b: seq<Fill>)
    requires Chronological(a) && Chronological(b) && multiset(a) == multiset(b) && DistinctIds(a)
    ensures a == b
  {
    if a == [] {
      assert |multiset(b)| == 0;
    } else {
      assert a[0] in multiset(b);
      assert b != [] && b[0] in multiset(a);
      FirstIsFirst(a, b);
      MultisetTail(a);
      MultisetTail(b);
      ChronologicalOnce(a[1..], b[1..]);
    }
  }

  lemma FirstIsFirst(a: seq<Fill>, b: seq<Fill>)
    requires a != [] && b != [] && a[0] in b && b[0] in a
    requires Chronological(a) && Chronological(b) && DistinctIds(a)
    ensures a[0] == b[0]
  {
    var i :| 0 <= i < |b| && b[i] == a[0];
    var j :| 0 <= j < |a| && a[j] == b[0];
    if i > 0 && j > 0 { FillBeforeOrders(a[0], b[0], a[0]); }
  }

  datatype Verdict = Verdict(
    ambiguous: bool, applied: seq<Fill>, ignored: seq<Fill>, pending: bool, aggregation: Option<Aggregation>)

  lemma {:induction false} PositiveTotal(fills: seq<Fill>)
    requires fills != []
    ensures TotalQuantity(fills) > 0.0
  {
    var front, last := fills[..|fills| - 1], fills[|fills| - 1];
    assert TotalQuantity(fills) == TotalQuantity(front) + last.quantity;
    if front != [] { PositiveTotal(front); }
  }

  function Aggregate(orderId: string, fills: seq<Fill>): Aggregation
    requires fills != []
  {
    PositiveTotal(fills);
    Aggregation(orderId, Ids(fills), TotalQuantity(fills), TotalNotional(fills) / TotalQuantity(fills))
  }

  /** Late private fills of an order whose recovered fill was applied earlier. */
  predicate Superseded(o: OrderState, fills: seq<Fill>, recoveredBefore: bool) {
    && Select(fills, false) != [] && Select(fills, true) == []
    && o.status.Filled? && recoveredBefore
    && TotalQuantity(Select(fills, false)) <= o.filled
  }

  /** Private and recovered fills arrived together and the private ones do not overfill. */
  predicate PreferPrivate(o: OrderState, fills: seq<Fill>) {
    && Select(fills, false) != [] && Select(fills, true) != []
    && TotalQuantity(Select(fills, false)) <= o.filled
  }

  /** The quantity checks on the fills that count. */
  function Settle(o: OrderState, orderId: string, effective: seq<Fill>, ignored: seq<Fill>): Verdict
    requires effective != []
  {
    var total := TotalQuantity(effective);
    var aggregation := Some(Aggregate(orderId, effective));
    if total > o.filled || total > o.requested || (total < o.filled && o.status.Filled?)
    then Verdict(true, [], ignored, false, aggregation)
    else Verdict(false, SortFills(effective), ignored, total < o.filled || o.status.PartiallyFilled?, aggregation)
  }

  /** What one pass decides about one order's new fills. */
  function Judge(orderId: string, order: Option<OrderState>, fills: seq<Fill>, recoveredBefore: bool): Verdict
    requires fills != []
  {
    if order.None? || InRecovery(order.value) then Verdict(true, [], [], false, None)
    else if Superseded(order.value, fills, recoveredBefore) then Verdict(false, [], Select(fills, false), false, None)
    else if PreferPrivate(order.value, fills) then
      Settle(order.value, orderId, Select(fills, false), Select(fills, true))
    else Settle(order.value, orderId, fills, [])
  }

  /** `{order.order_id: order for order in order_states}.get(id)` */
  function FindOrder(orders: seq<OrderState>, id: string): Option<OrderState> {
    if orders == [] then None
    else if orders[|orders| - 1].orderId == id then Some(orders[|orders| - 1])
    else FindOrder(orders[..|orders| - 1], id)
  }

  lemma {:induction false} FoundHasId(states: seq<OrderState>, id: string)
    ensures FindOrder(states, id).Some? ==>
      FindOrder(states, id).value.orderId == id && FindOrder(states, id).value in states
    ensures FindOrder(states, id).Some? <==> exists o :: o in states && o.orderId == id
  {
    if states != [] {
      assert states == states[..|states| - 1] + [states[|states| - 1]];
      FoundHasId(states[..|states| - 1], id);
    }
  }

  function VerdictOn(orders: seq<OrderState>, seen: seq<Fill>, already: seq<string>, id: string): Verdict
    requires OfOrder(seen, id) != []
  {
    Judge(id, FindOrder(orders, id), OfOrder(seen, id), RecoveredBefore(already, id))
  }

  datatype Tally = Tally(
    ambiguous: bool, applied: seq<Fill>, ignored: seq<string>, pending: seq<string>, aggregations: seq<Aggregation>)

  function AddVerdict(t: Tally, id: string, v: Verdict): Tally {
    Tally(
      t.ambiguous || v.ambiguous,
      t.applied + v.applied,
      t.ignored + Ids(v.ignored),
      if v.pending then t.pending + [id] else t.pending,
      if v.aggregation.Some? then t.aggregations + [v.aggregation.value] else t.aggregations)
  }

  function TallyUp(
    orders: seq<OrderState>, seen: seq<Fill>, already: seq<string>, ids: seq<string>, start: Tally): Tally
    requires forall id :: id in ids ==> OfOrder(seen, id) != []
  {
    if ids == [] then start
    else
      var id := ids[|ids| - 1];
      AddVerdict(TallyUp(orders, seen, already, ids[..|ids| - 1], start), id, VerdictOn(orders, seen, already, id))
  }

  method JudgeGroups(
    orders: seq<OrderState>, ghost seen: seq<Fill>, already: seq<string>, ids: seq<string>,
    groups: map<string, seq<Fill>>, start: Tally)
    returns (t: Tally)
    requires forall id :: id in ids ==> id in groups && groups[id] == OfOrder(seen, id) && groups[id] != []
    ensures t == TallyUp(orders, seen, already, ids, start)
  {
    t := start;
    var orderMap: map<string, OrderState> := map[];
    for i := 0 to |orders|
      invariant forall id :: FindOrder(orders[..i], id) == if id in orderMap then Some(orderMap[id]) else None
    {
      assert orders[..i + 1][..i] == orders[..i];
      orderMap := orderMap[orders[i].orderId := orders[i]];
    }
    assert orders[..|orders|] == orders;
    for i := 0 to |ids|
      invariant t == TallyUp(orders, seen, already, ids[..i], start)
    {
      assert ids[..i + 1][..i] == ids[..i];
      var order := if ids[i] in orderMap then Some(orderMap[ids[i]]) else None;
      t := AddVerdict(t, ids[i], Judge(ids[i], order, groups[ids[i]], RecoveredBefore(already, ids[i])));
    }
    assert ids[..|ids|] == ids;
  }

  // ------------------------------------------- third pass: orders without fills

  function Waiting(orders: seq<OrderState>, ids: seq<string>): seq<string> {
    if orders == [] then []
    else
      var rest, o := Waiting(orders[..|orders| - 1], ids), orders[|orders| - 1];
      if o.status.PartiallyFilled? && o.orderId !in ids then rest + [o.orderId] else rest
  }

  predicate LacksFills(o: OrderState, ids: seq<string>) {
    o.status.Filled? && o.filled > 0.0 && o.orderId !in ids
  }

  predicate SomeLacksFills(orders: seq<OrderState>, ids: seq<string>) {
    exists i | 0 <= i < |orders| :: LacksFills(orders[i], ids)
  }

  method ScanOrders(orders: seq<OrderState>, ids: seq<string>) returns (pending: seq<string>, ambiguous: bool)
    ensures pending == Waiting(orders, ids)
    ensures ambiguous == SomeLacksFills(orders, ids)
  {
    pending, ambiguous := [], false;
    for i := 0 to |orders|
      invariant pending == Waiting(orders[..i], ids)
      invariant ambiguous == exists j | 0 <= j < i :: LacksFills(orders[j], ids)
    {
      assert orders[..i + 1][..i] == orders[..i];
      if orders[i].status.PartiallyFilled? && orders[i].orderId !in ids {
        pending := pending + [orders[i].orderId];
      }
      if orders[i].status.Filled? && orders[i].filled > 0.0 && orders[i].orderId !in ids {
        ambiguous := true;
      }
    }
    assert orders[..|orders|] == orders;
  }

  // ------------------------------------------------------- account snapshot

  function Matching(b: Book, asset: string): set<string> {
    set k | k in b.quantity && BeforeFirst(k, '-') == asset
  }

  lemma OnlyElement(s: set<string>)
    requires |s| == 1
    ensures exists k :: k in s
    ensures forall j, k :: j in s && k in s ==> j == k
  {
    var k :| k in s;
    assert |s - {k}| == 0;
    forall j | j in s ensures j == k {
      assert j == k || j in s - {k};
    }
  }

  /** `_projected_asset_balance` */
  function Projected(b: Book, asset: string): real {
    if asset in b.cash then b.cash[asset]
    else
      var matching := Matching(b, asset);
      if |matching| == 1 then
        OnlyElement(matching);
        var k :| k in matching;
        b.quantity[k]
      else 0.0
  }

  predicate Mismatched(b: Book, cash: map<string, real>, asset: string) {
    asset !in cash || cash[asset] != Projected(b, asset)
  }

  predicate SnapshotDisagrees(b: Book, snapshot: Option<map<string, real>>, assets: seq<string>) {
    snapshot.Some? && exists i | 0 <= i < |assets| :: Mismatched(b, snapshot.value, assets[i])
  }

  method MismatchedAssets(b: Book, cash: map<string, real>, assets: seq<string>) returns (mismatches: seq<string>)
    ensures forall a :: a in mismatches <==> a in assets && Mismatched(b, cash, a)
    ensures mismatches != [] <==> SnapshotDisagrees(b, Some(cash), assets)
  {
    mismatches := [];
    for i := 0 to |assets|
      invariant forall a :: a in mismatches <==> a in assets[..i] && Mismatched(b, cash, a)
    {
      if Mismatched(b, cash, assets[i]) {
        mismatches := mismatches + [assets[i]];
      }
    }
    assert assets[..|assets|] == assets;
    if mismatches != [] { assert mismatches[0] in assets; }
    if SnapshotDisagrees(b, Some(cash), assets) {
      var i :| 0 <= i < |assets| && Mismatched(b, cash, assets[i]);
      assert assets[i] in mismatches;
    }
  }

  // ---------------------------------------------------------------- the pass

  datatype Pass = Pass(
    orders: seq<OrderState>, fills: seq<Fill>, already: seq<string>, snapshot: Option<map<string, real>>,
    assets: seq<string>)
  {
    function Fills(): seq<Fill> { Fresh(fills, already) }

    function Groups(): seq<string> { GroupIds(Fills()) }
  }

  lemma {:induction false} GroupsAreInhabited(fills: seq<Fill>, id: string)
    ensures id in GroupIds(fills) <==> OfOrder(fills, id) != []
  {
    if fills != [] { GroupsAreInhabited(fills[..|fills| - 1], id); }
  }

  /** The three scans of a pass, before anything is posted. */
  function Assess(pass: Pass): Tally {
    forall id | id in pass.Groups() ensures OfOrder(pass.Fills(), id) != [] { GroupsAreInhabited(pass.Fills(), id); }
    var t := TallyUp(pass.orders, pass.Fills(), pass.already, pass.Groups(),
      Tally(Conflicting(pass.fills, pass.already), [], Redelivered(pass.fills, pass.already), [], []));
    t.(ambiguous := t.ambiguous || SomeLacksFills(pass.orders, pass.Groups()),
       pending := t.pending + Waiting(pass.orders, pass.Groups()))
  }

  function Blocked(p: PortfolioState, t: Tally): TranslationResult {
    TranslationResult(AmbiguousReviewRequired, p, [], SortedSet(Elements(t.ignored)), Distinct(t.pending),
      t.aggregations, true)
  }

  function Completed(p: PortfolioState, t: Tally): TranslationResult {
    TranslationResult(
      if t.pending != [] then AppliedWithPending else AppliedAll,
      p, Ids(t.applied), SortedSet(Elements(t.ignored)), Distinct(t.pending), t.aggregations, false)
  }

  /** What `translate` returns or raises. */
  ghost function Translated(p: PortfolioState, pass: Pass): Result<TranslationResult, LedgerError> {
    var t := Assess(pass);
    if t.ambiguous then Ok(Blocked(p, t))
    else
      match Applied(QUOTE_ASSET, p, t.applied)
      case Err(e) => Err(e)
      case Ok(q) => Ok(if SnapshotDisagrees(q.book, pass.snapshot, pass.assets) then Blocked(p, t) else Completed(q, t))
  }

  /** The scanning loops of `translate`. */
  method Scan(pass: Pass) returns (t: Tally)
    ensures t == Assess(pass)
  {
    var seen, ignored, conflicting := Deduplicate(pass.fills, pass.already);
    var ids, groups := GroupByOrder(seen);
    t := JudgeGroups(pass.orders, seen, pass.already, ids, groups, Tally(conflicting, [], ignored, [], []));
    var waiting, lacking := ScanOrders(pass.orders, ids);
    t := t.(ambiguous := t.ambiguous || lacking, pending := t.pending + waiting);
  }

  method Translate(p: PortfolioState, pass: Pass) returns (r: Result<TranslationResult, LedgerError>)
    ensures r == Translated(p, pass)
  {
    var t := Scan(pass);
    if t.ambiguous { return Ok(Blocked(p, t)); }
    var q := ApplyFills(QUOTE_ASSET, p, t.applied);
    if q.Err? { return Err(q.error); }
    if pass.snapshot.Some? && pass.assets != [] {
      var mismatches := MismatchedAssets(q.value.book, pass.snapshot.value, pass.assets);
      if mismatches != [] { return Ok(Blocked(p, t)); }
    }
    return Ok(Completed(q.value, t));
  }
}
