/**
 * Classification, recovery planning and the bounded lookup loop of `app/exchanges/binance/reconciliation.py`.
 * The lookup transport is an oracle: its answer may depend on everything asked before.
 */
module Recovery {
  import opened Collections
  import opened Contracts

  const CLIENT_FIELD := "client_order_id"
  const EXCHANGE_FIELD := "exchange_order_id"
  const TERMINAL_LOOKUP_STATUSES: set<string> := {"filled", "cancelled", "rejected", "expired"}
  const MAX_AUTOMATIC_RECOVERY_ROUNDS: nat := 3

  datatype Lookup = Lookup(
    found: bool, field: string, value: string, source: string, status: Option<string>, alert: Option<string>,
    recoveredState: Option<OrderState>, recoveredFills: seq<Fill>, attempt: int)

  datatype QueryState = QuerySucceeded | QueryFailed | QueryBlocked

  datatype QueryHealth = QueryHealth(state: QueryState, httpStatus: Option<int>)

  datatype Reply = Reply(lookup: Lookup, health: Option<QueryHealth>)

  /** The answer to the n-th lookup, asked by this field for this value. */
  type Script = (nat, string, string) -> Reply

  predicate Terminal(l: Lookup) {
    l.found && l.status.Some? && l.status.value in TERMINAL_LOOKUP_STATUSES
  }

  // ---------------------------------------------------------- classification

  /** A normalized order event; an absent id is the empty string. */
  datatype OrderEvent = OrderEvent(sequenceId: string, clientOrderId: string, exchangeOrderId: string)

  datatype Classification = Classification(
    matched: seq<string>, missing: seq<string>, unknown: seq<string>,
    unknownClientIds: seq<string>, unknownExchangeOnlyIds: seq<string>)

  predicate Seen(events: seq<OrderEvent>, id: string) {
    id != "" && exists i | 0 <= i < |events| :: events[i].sequenceId == id
  }

  predicate IsUnknown(expected: seq<string>, e: OrderEvent) {
    e.sequenceId != "" && e.sequenceId !in expected
  }

  function KeepSeen(expected: seq<string>, events: seq<OrderEvent>, seen: bool): seq<string> {
    if expected == [] then []
    else
      var rest, id := KeepSeen(expected[..|expected| - 1], events, seen), expected[|expected| - 1];
      if Seen(events, id) == seen then rest + [id] else rest
  }

  function UnknownIds(expected: seq<string>, events: seq<OrderEvent>): seq<string> {
    if events == [] then []
    else
      var rest, e := UnknownIds(expected, events[..|events| - 1]), events[|events| - 1];
      if IsUnknown(expected, e) then rest + [e.sequenceId] else rest
  }

  function UnknownClients(expected: seq<string>, events: seq<OrderEvent>): seq<string> {
    if events == [] then []
    else
      var rest, e := UnknownClients(expected, events[..|events| - 1]), events[|events| - 1];
      if IsUnknown(expected, e) && e.clientOrderId != "" then rest + [e.clientOrderId] else rest
  }

  function UnknownExchangeOnly(expected: seq<string>, events: seq<OrderEvent>): seq<string> {
    if events == [] then []
    else
      var rest, e := UnknownExchangeOnly(expected, events[..|events| - 1]), events[|events| - 1];
      if IsUnknown(expected, e) && e.clientOrderId == "" then rest + [e.sequenceId] else rest
  }

  /** `reconcile` */
  function Classify(expected: seq<string>, events: seq<OrderEvent>): Classification {
    Classification(
      KeepSeen(expected, events, true), KeepSeen(expected, events, false), UnknownIds(expected, events),
      Distinct(UnknownClients(expected, events)), Distinct(UnknownExchangeOnly(expected, events)))
  }

  lemma {:induction false} SeenSplit(expected: seq<string>, events: seq<OrderEvent>, seen: bool)
    ensures forall id :: id in KeepSeen(expected, events, seen) <==> id in expected && Seen(events, id) == seen
  {
    if expected != [] {
      assert expected == expected[..|expected| - 1] + [expected[|expected| - 1]];
      SeenSplit(expected[..|expected| - 1], events, seen);
    }
  }

  lemma {:induction false} UnknownSplit(expected: seq<string>, events: seq<OrderEvent>)
    ensures forall id :: id in UnknownIds(expected, events) ==> id !in expected && Seen(events, id)
    ensures forall id :: Seen(events, id) && id !in expected ==> id in UnknownIds(expected, events)
    ensures UnknownIds(expected, events) == [] <==>
      UnknownClients(expected, events) == [] && UnknownExchangeOnly(expected, events) == []
  {
    if events != [] {
      var front, e := events[..|events| - 1], events[|events| - 1];
      UnknownSplit(expected, front);
      forall id ensures Seen(events, id) <==> Seen(front, id) || (id != "" && e.sequenceId == id) {
        if Seen(front, id) {
          var i :| 0 <= i < |front| && front[i].sequenceId == id;
          assert events[i].sequenceId == id;
        }
      }
    }
  }

  ghost predicate IsReported(events: seq<OrderEvent>, id: string) {
    id != "" && exists e :: e in events && e.sequenceId == id
  }

  /** Expected ids are matched or missing by whether an event reports them; other reported ids are unknown. */
  lemma ClassifiedExactly(expected: seq<string>, events: seq<OrderEvent>, id: string)
    ensures var c := Classify(expected, events);
      && (id in c.matched <==> id in expected && IsReported(events, id))
      && (id in c.missing <==> id in expected && !IsReported(events, id))
      && (id in c.unknown <==> id !in expected && IsReported(events, id))
  {
    SeenSplit(expected, events, true);
    SeenSplit(expected, events, false);
    UnknownSplit(expected, events);
    if Seen(events, id) {
      var i :| 0 <= i < |events| && events[i].sequenceId == id;
      assert events[i] in events;
    }
    if e :| e in events && e.sequenceId == id {
      var i :| 0 <= i < |events| && events[i] == e;
    }
  }

  /** Unknown events are named by their client id where they have one and by their sequence id otherwise. */
  lemma {:induction false} UnknownCovered(expected: seq<string>, events: seq<OrderEvent>)
    ensures forall id :: id in UnknownClients(expected, events) <==>
      id != "" && exists e :: e in events && IsUnknown(expected, e) && e.clientOrderId == id
    ensures forall id :: id in UnknownExchangeOnly(expected, events) <==>
      exists e :: e in events && IsUnknown(expected, e) && e.clientOrderId == "" && e.sequenceId == id
  {
    if events != [] {
      var front, last := events[..|events| - 1], events[|events| - 1];
      assert events == front + [last];
      UnknownCovered(expected, front);
      assert forall e :: e in events <==> e in front || e == last;
    }
  }

  // ----------------------------------------------------------------- the plan

  type Request = (string, string)

  datatype Trigger = NotRequired | MissingPrivateUpdates | PrivateStreamGap | RestartResume | UnknownExecutionSeen

  datatype Plan = Plan(requests: seq<Request>, trigger: Trigger, automatic: bool, gap: bool, resumed: bool)

  function AskBy(field: string, ids: seq<string>): seq<Request> {
    if ids == [] then [] else AskBy(field, ids[..|ids| - 1]) + [(field, ids[|ids| - 1])]
  }

  function WantedLookups(c: Classification): seq<Request> {
    AskBy(EXCHANGE_FIELD, c.missing) + AskBy(CLIENT_FIELD, c.unknownClientIds)
    + AskBy(EXCHANGE_FIELD, c.unknownExchangeOnlyIds)
  }

  function TriggerOf(c: Classification, gap: bool, resumed: bool): Trigger {
    if gap then PrivateStreamGap
    else if resumed then RestartResume
    else if c.unknown != [] then UnknownExecutionSeen
    else if c.missing != [] then MissingPrivateUpdates
    else NotRequired
  }

  function PlanFor(c: Classification, gap: bool, resumed: bool): Plan {
    var requests, trigger := Distinct(WantedLookups(c)), TriggerOf(c, gap, resumed);
    Plan(requests, trigger, requests != [] && !trigger.NotRequired?, gap, resumed)
  }

  lemma {:induction false} AskByMembers(field: string, ids: seq<string>)
    ensures forall r :: r in AskBy(field, ids) <==> r.0 == field && r.1 in ids
  {
    if ids != [] {
      assert ids == ids[..|ids| - 1] + [ids[|ids| - 1]];
      AskByMembers(field, ids[..|ids| - 1]);
    }
  }

  /** This lookup is needed: an expected order no event mentions, or an event no expected order explains. */
  ghost predicate Needed(expected: seq<string>, events: seq<OrderEvent>, r: Request) {
    || (r.0 == EXCHANGE_FIELD && r.1 in expected && !Seen(events, r.1))
    || (r.0 == CLIENT_FIELD && r.1 != "" &&
        exists e :: e in events && IsUnknown(expected, e) && e.clientOrderId == r.1)
    || (r.0 == EXCHANGE_FIELD &&
        exists e :: e in events && IsUnknown(expected, e) && e.clientOrderId == "" && e.sequenceId == r.1)
  }

  /** The plan asks exactly for what is missing or unknown, an unknown event by its client id if it has one. */
  lemma PlanAsksExactly(expected: seq<string>, events: seq<OrderEvent>, gap: bool, resumed: bool)
    ensures forall r :: r in PlanFor(Classify(expected, events), gap, resumed).requests <==> Needed(expected, events, r)
  {
    var c := Classify(expected, events);
    SeenSplit(expected, events, false);
    UnknownCovered(expected, events);
    DistinctMembers(UnknownClients(expected, events));
    DistinctMembers(UnknownExchangeOnly(expected, events));
    DistinctMembers(WantedLookups(c));
    AskByMembers(EXCHANGE_FIELD, c.missing);
    AskByMembers(CLIENT_FIELD, c.unknownClientIds);
    AskByMembers(EXCHANGE_FIELD, c.unknownExchangeOnlyIds);
  }

  /** The trigger names the first cause: a gap, then a restart, then unknown executions, then missing updates. */
  lemma TriggerExactly(expected: seq<string>, events: seq<OrderEvent>, gap: bool, resumed: bool)
    ensures var plan := PlanFor(Classify(expected, events), gap, resumed);
      var unknown, missing := (exists e :: e in events && IsUnknown(expected, e)),
        (exists id :: id in expected && !Seen(events, id));
      && plan.gap == gap && plan.resumed == resumed
      && plan.trigger ==
           if gap then PrivateStreamGap else if resumed then RestartResume
           else if unknown then UnknownExecutionSeen else if missing then MissingPrivateUpdates else NotRequired
  {
    var c := Classify(expected, events);
    SeenSplit(expected, events, false);
    UnknownNonEmpty(expected, events);
    if c.missing != [] { assert c.missing[0] in c.missing; }
  }

  lemma {:induction false} UnknownNonEmpty(expected: seq<string>, events: seq<OrderEvent>)
    ensures UnknownIds(expected, events) != [] <==> exists e :: e in events && IsUnknown(expected, e)
  {
    if events != [] {
      var front, last := events[..|events| - 1], events[|events| - 1];
      assert events == front + [last];
      UnknownNonEmpty(expected, front);
    }
  }

  /** Where a lookup stands in the plan: missing orders first, then client ids, then the other unknown events. */
  ghost function Rank(expected: seq<string>, events: seq<OrderEvent>, r: Request): nat {
    if r.0 == "exchange_order_id" && r.1 in expected && !Seen(events, r.1) then 0
    else if r.0 == "client_order_id" then 1 else 2
  }

  ghost predicate Ranked(expected: seq<string>, events: seq<OrderEvent>, requests: seq<Request>) {
    forall i, j :: 0 <= i < j < |requests| ==>
      Rank(expected, events, requests[i]) <= Rank(expected, events, requests[j])
  }

  lemma {:induction false} DistinctKeepsRank(expected: seq<string>, events: seq<OrderEvent>, requests: seq<Request>)
    requires Ranked(expected, events, requests)
    ensures Ranked(expected, events, Distinct(requests))
  {
    if requests != [] {
      var front, last := requests[..|requests| - 1], requests[|requests| - 1];
      assert requests == front + [last];
      DistinctKeepsRank(expected, events, front);
      DistinctMembers(front);
      forall r | r in front ensures Rank(expected, events, r) <= Rank(expected, events, last) {
        var i :| 0 <= i < |front| && front[i] == r;
        assert requests[i] == r && requests[|requests| - 1] == last;
      }
      forall i | 0 <= i < |Distinct(front)| ensures Distinct(front)[i] in front {
        assert Distinct(front)[i] in Distinct(front);
      }
    }
  }

  lemma RankedConcat(expected: seq<string>, events: seq<OrderEvent>, a: seq<Request>, b: seq<Request>, rank: nat)
    requires Ranked(expected, events, a) && Ranked(expected, events, b)
    requires forall r :: r in a ==> Rank(expected, events, r) <= rank
    requires forall r :: r in b ==> Rank(expected, events, r) >= rank
    ensures Ranked(expected, events, a + b)
  {
    forall i, j | 0 <= i < j < |a + b|
      ensures Rank(expected, events, (a + b)[i]) <= Rank(expected, events, (a + b)[j])
    {
      if i < |a| <= j { assert a[i] in a && b[j - |a|] in b; }
    }
  }

  lemma RankedAlike(expected: seq<string>, events: seq<OrderEvent>, a: seq<Request>, rank: nat)
    requires forall r :: r in a ==> Rank(expected, events, r) == rank
    ensures Ranked(expected, events, a)
  {
    forall i | 0 <= i < |a| ensures Rank(expected, events, a[i]) == rank { assert a[i] in a; }
  }

  /** The plan looks up missing orders first, then client ids, then the other unknown events. */
  lemma PlanIsRanked(expected: seq<string>, events: seq<OrderEvent>, gap: bool, resumed: bool)
    ensures Ranked(expected, events, PlanFor(Classify(expected, events), gap, resumed).requests)
  {
    var c := Classify(expected, events);
    var missing, clients, others :=
      AskBy(EXCHANGE_FIELD, c.missing), AskBy(CLIENT_FIELD, c.unknownClientIds),
      AskBy(EXCHANGE_FIELD, c.unknownExchangeOnlyIds);
    SeenSplit(expected, events, false);
    UnknownCovered(expected, events);
    DistinctMembers(UnknownExchangeOnly(expected, events));
    AskByMembers(EXCHANGE_FIELD, c.missing);
    AskByMembers(CLIENT_FIELD, c.unknownClientIds);
    AskByMembers(EXCHANGE_FIELD, c.unknownExchangeOnlyIds);
    RankedAlike(expected, events, missing, 0);
    RankedAlike(expected, events, clients, 1);
    RankedAlike(expected, events, others, 2);
    RankedConcat(expected, events, missing, clients, 1);
    RankedConcat(expected, events, missing + clients, others, 2);
    DistinctKeepsRank(expected, events, WantedLookups(c));
  }

  lemma DistinctAppend<T>(s: seq<T>, x: T)
    ensures Distinct(s + [x]) == if x in Distinct(s) then Distinct(s) else Distinct(s) + [x]
  {
    assert (s + [x])[..|s|] == s;
  }

  lemma AskByStep(wanted: seq<Request>, field: string, ids: seq<string>, i: nat)
    requires i < |ids|
    ensures wanted + AskBy(field, ids[..i + 1]) == wanted + AskBy(field, ids[..i]) + [(field, ids[i])]
  {
    assert ids[..i + 1][..i] == ids[..i];
  }

  method AddRequests(field: string, ids: seq<string>, start: seq<Request>, ghost wanted: seq<Request>)
    returns (requests: seq<Request>)
    requires start == Distinct(wanted)
    ensures requests == Distinct(wanted + AskBy(field, ids))
  {
    requests := start;
    assert wanted + AskBy(field, []) == wanted;
    for i := 0 to |ids|
      invariant requests == Distinct(wanted + AskBy(field, ids[..i]))
    {
      AskByStep(wanted, field, ids, i);
      DistinctAppend(wanted + AskBy(field, ids[..i]), (field, ids[i]));
      if (field, ids[i]) !in requests {
        requests := requests + [(field, ids[i])];
      }
    }
    assert ids[..|ids|] == ids;
  }

  /** `build_automatic_recovery_plan` */
  method BuildPlan(c: Classification, gap: bool, resumed: bool) returns (plan: Plan)
    ensures plan == PlanFor(c, gap, resumed)
  {
    var missing := AskBy(EXCHANGE_FIELD, c.missing);
    var requests := AddRequests(EXCHANGE_FIELD, c.missing, [], []);
    assert [] + missing == missing;
    requests := AddRequests(CLIENT_FIELD, c.unknownClientIds, requests, missing);
    requests := AddRequests(EXCHANGE_FIELD, c.unknownExchangeOnlyIds, requests,
      missing + AskBy(CLIENT_FIELD, c.unknownClientIds));
    var trigger := TriggerOf(c, gap, resumed);
    plan := Plan(requests, trigger, requests != [] && !trigger.NotRequired?, gap, resumed);
  }

  /** A recovery is triggered automatically exactly when some order is missing or unknown. */
  lemma AutomaticWhenNeeded(expected: seq<string>, events: seq<OrderEvent>, gap: bool, resumed: bool)
    ensures var c, plan := Classify(expected, events), PlanFor(Classify(expected, events), gap, resumed);
      && (plan.automatic <==> plan.requests != [])
      && (plan.requests != [] <==> c.missing != [] || c.unknown != [])
  {
    var c := Classify(expected, events);
    UnknownSplit(expected, events);
    EmptyDistinct(UnknownClients(expected, events));
    EmptyDistinct(UnknownExchangeOnly(expected, events));
    EmptyDistinct(WantedLookups(c));
  }

  lemma EmptyDistinct<T(!new)>(s: seq<T>)
    ensures Distinct(s) == [] <==> s == []
  {
    DistinctMembers(s);
    if s != [] { assert s[0] in s; }
    if Distinct(s) != [] { assert Distinct(s)[0] in Distinct(s); }
  }

  // ------------------------------------------------- fallback to exchange ids

  function FallbackMap(expected: seq<string>, events: seq<OrderEvent>): map<string, string> {
    if events == [] then map[]
    else
      var m, e := FallbackMap(expected, events[..|events| - 1]), events[|events| - 1];
      if IsUnknown(expected, e) && e.clientOrderId != "" && e.exchangeOrderId != "" && e.clientOrderId !in m
      then m[e.clientOrderId := e.exchangeOrderId]
      else m
  }

  /** The event reports an unknown order under this client id together with its exchange id. */
  predicate Offers(expected: seq<string>, e: OrderEvent, c: string) {
    IsUnknown(expected, e) && e.clientOrderId == c != "" && e.exchangeOrderId != ""
  }

  predicate FirstOffer(expected: seq<string>, events: seq<OrderEvent>, c: string, i: nat) {
    i < |events| && Offers(expected, events[i], c) && forall j :: 0 <= j < i ==> !Offers(expected, events[j], c)
  }

  ghost predicate FallbackIs(expected: seq<string>, events: seq<OrderEvent>, c: string, m: map<string, string>) {
    && (c in m <==> exists i: nat :: FirstOffer(expected, events, c, i))
    && (forall i: nat :: FirstOffer(expected, events, c, i) ==> c in m && m[c] == events[i].exchangeOrderId)
  }

  /** Client ids map to the exchange id of the first event that offers one, and only such client ids are mapped. */
  ghost predicate FirstOffers(expected: seq<string>, events: seq<OrderEvent>, m: map<string, string>) {
    forall c :: FallbackIs(expected, events, c, m)
  }

  lemma FallbacksExactly(expected: seq<string>, events: seq<OrderEvent>)
    ensures FirstOffers(expected, events, FallbackMap(expected, events))
  {
    forall c ensures FallbackIs(expected, events, c, FallbackMap(expected, events)) { FallbackOf(expected, events, c); }
  }

  lemma {:induction false} FallbackOf(expected: seq<string>, events: seq<OrderEvent>, c: string)
    ensures FallbackIs(expected, events, c, FallbackMap(expected, events))
    ensures c in FallbackMap(expected, events) <==> exists i :: 0 <= i < |events| && Offers(expected, events[i], c)
  {
    if events != [] {
      var n := |events| - 1;
      var front := events[..n];
      FallbackOf(expected, front, c);
      forall i: nat | i < n ensures FirstOffer(expected, events, c, i) <==> FirstOffer(expected, front, c, i) {}
      if i :| 0 <= i < n && Offers(expected, events[i], c) {
        assert Offers(expected, front[i], c);
      } else if Offers(expected, events[n], c) {
        assert FirstOffer(expected, events, c, n);
      }
    }
  }

  /** `_build_unknown_execution_fallbacks` */
  method BuildFallbacks(expected: seq<string>, events: seq<OrderEvent>) returns (fallbacks: map<string, string>)
    ensures fallbacks == FallbackMap(expected, events)
    ensures FirstOffers(expected, events, fallbacks)
  {
    FallbacksExactly(expected, events);
    fallbacks := map[];
    for i := 0 to |events|
      invariant fallbacks == FallbackMap(expected, events[..i])
    {
      var e := events[i];
      assert events[..i + 1][..i] == events[..i];
      if e.sequenceId != "" && e.sequenceId !in expected && e.clientOrderId != "" && e.exchangeOrderId != ""
         && e.clientOrderId !in fallbacks {
        fallbacks := fallbacks[e.clientOrderId := e.exchangeOrderId];
      }
    }
    assert events[..|events|] == events;
  }

  function Lowered(s: string): string {
    if s == [] then [] else [if 'A' <= s[0] <= 'Z' then (s[0] as int + 32) as char else s[0]] + Lowered(s[1..])
  }

  /** `_should_use_unknown_execution_fallback` */
  predicate ShouldFallBack(l: Lookup, health: Option<QueryHealth>) {
    if Terminal(l) then false
    else if health.Some? && health.value.httpStatus.Some? && 400 <= health.value.httpStatus.value < 500 then true
    else
      var notTerminal := l.status.None? || l.status.value !in TERMINAL_LOOKUP_STATUSES;
      if l.alert.None? then !l.found || notTerminal
      else
        var text := Lowered(l.alert.value);
        Contains(text, "http error 4") || Contains(text, "bad request") || Contains(text, "does not exist")
        || Contains(text, "not found") || !l.found || notTerminal
  }

  /** Neither the HTTP status nor the wording of the alert matters: every non-terminal answer falls back. */
  lemma FallBackUnlessTerminal(l: Lookup, health: Option<QueryHealth>)
    ensures ShouldFallBack(l, health) <==> !Terminal(l)
  {
  }

  // ------------------------------------------------------------ the lookup loop

  /** Loop variables of the recovery loop; `fallbacksTaken` is this model's record of the client ids that fell back. */
  datatype Search = Search(
    calls: nat, switched: map<string, string>, latest: map<string, Lookup>, results: seq<Lookup>,
    health: seq<QueryHealth>, fallbacksTaken: seq<string>)

  function Observed(h: Option<QueryHealth>): seq<QueryHealth> {
    if h.Some? then [h.value] else []
  }

  /** One request; by `FallBackUnlessTerminal` a client id with a known exchange id falls back on every open answer. */
  function Ask(s: Search, request: Request, fallbacks: map<string, string>, script: Script): Search {
    var (field, value) := request;
    var target := if value in s.switched then s.switched[value] else value;
    var via := if field == CLIENT_FIELD && target != value then EXCHANGE_FIELD else field;
    var first := script(s.calls, via, target);
    if field == CLIENT_FIELD && value in fallbacks && via == CLIENT_FIELD && !Terminal(first.lookup)
    then
      var second := script(s.calls + 1, EXCHANGE_FIELD, fallbacks[value]);
      Search(s.calls + 2, s.switched[value := fallbacks[value]], s.latest[second.lookup.value := second.lookup],
             s.results + [second.lookup], s.health + Observed(first.health) + Observed(second.health),
             s.fallbacksTaken + [value])
    else
      Search(s.calls + 1, s.switched, s.latest[first.lookup.value := first.lookup],
             s.results + [first.lookup], s.health + Observed(first.health), s.fallbacksTaken)
  }

  function Round(s: Search, requests: seq<Request>, fallbacks: map<string, string>, script: Script): Search {
    if requests == [] then s
    else Ask(Round(s, requests[..|requests| - 1], fallbacks, script), requests[|requests| - 1], fallbacks, script)
  }

  predicate AllTerminal(latest: map<string, Lookup>) {
    forall v :: v in latest ==> Terminal(latest[v])
  }

  datatype Outcome = Outcome(search: Search, rounds: nat, settled: bool)

  function Search0(): Search { Search(0, map[], map[], [], [], []) }

  /** The loop from a given round on; `settled` tells whether it left by the all-terminal test. */
  function Rounds(
    plan: Plan, fallbacks: map<string, string>, script: Script, limit: nat, round: nat, s: Search): Outcome
    requires round <= limit
    decreases limit - round
  {
    if round == limit then Outcome(s, round, false)
    else
      var t := Round(s, plan.requests, fallbacks, script);
      if !plan.automatic || t.latest == map[] then Outcome(t, round + 1, false)
      else if AllTerminal(t.latest) then Outcome(t, round + 1, true)
      else Rounds(plan, fallbacks, script, limit, round + 1, t)
  }

  function RoundLimit(plan: Plan): nat {
    if plan.automatic then MAX_AUTOMATIC_RECOVERY_ROUNDS else 1
  }

  function Recovered(plan: Plan, fallbacks: map<string, string>, script: Script): Outcome {
    Rounds(plan, fallbacks, script, RoundLimit(plan), 0, Search0())
  }

  method AskOnce(s0: Search, request: Request, fallbacks: map<string, string>, script: Script) returns (s: Search)
    ensures s == Ask(s0, request, fallbacks, script)
  {
    var (field, value) := request;
    var target := if value in s0.switched then s0.switched[value] else value;
    var via := if field == CLIENT_FIELD && target != value then EXCHANGE_FIELD else field;
    var reply := script(s0.calls, via, target);
    var calls, switched, taken := s0.calls + 1, s0.switched, s0.fallbacksTaken;
    var health := s0.health + Observed(reply.health);
    FallBackUnlessTerminal(reply.lookup, reply.health);
    if field == CLIENT_FIELD && value in fallbacks && via == CLIENT_FIELD
       && ShouldFallBack(reply.lookup, reply.health)
    {
      switched := switched[value := fallbacks[value]];
      reply := script(calls, EXCHANGE_FIELD, fallbacks[value]);
      calls := calls + 1;
      health := health + Observed(reply.health);
      taken := taken + [value];
    }
    var latest := s0.latest[reply.lookup.value := reply.lookup];
    s := Search(calls, switched, latest, s0.results + [reply.lookup], health, taken);
  }

  method AskAll(s0: Search, requests: seq<Request>, fallbacks: map<string, string>, script: Script) returns (s: Search)
    ensures s == Round(s0, requests, fallbacks, script)
  {
    s := s0;
    for i := 0 to |requests|
      invariant s == Round(s0, requests[..i], fallbacks, script)
    {
      assert requests[..i + 1][..i] == requests[..i];
      s := AskOnce(s, requests[i], fallbacks, script);
    }
    assert requests[..|requests|] == requests;
  }

  /** The automatic recovery loop of `reconcile_with_transports`. */
  method RunRecovery(plan: Plan, fallbacks: map<string, string>, script: Script) returns (o: Outcome)
    ensures o == Recovered(plan, fallbacks, script)
  {
    var s := Search0();
    var round := 0;
    var settled := false;
    while round < RoundLimit(plan)
      invariant round <= RoundLimit(plan)
      invariant Recovered(plan, fallbacks, script) == Rounds(plan, fallbacks, script, RoundLimit(plan), round, s)
      invariant !settled
    {
      s := AskAll(s, plan.requests, fallbacks, script);
      round := round + 1;
      if !plan.automatic || s.latest == map[] { break; }
      if AllTerminal(s.latest) {
        settled := true;
        break;
      }
    }
    o := Outcome(s, round, settled);
  }
}
