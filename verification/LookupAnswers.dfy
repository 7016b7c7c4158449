/** What the automatic recovery loop asks the lookup transport, and what a transport that answers achieves. */
module LookupAnswers {
  import opened Recovery
  import opened RecoveryBounds

  // ------------------------------------------------------------- the questions

  /**
   * The loop may ask this: a planned lookup, or the exchange id of a planned client id, by the exchange field or by a
   * field under which the same value is planned.
   */
  ghost predicate Askable(requests: seq<Request>, fallbacks: map<string, string>, field: string, value: string) {
    (field, value) in requests || exists c :: ReplacedBy(requests, fallbacks, field, value, c)
  }

  ghost predicate ReplacedBy(
    requests: seq<Request>, fallbacks: map<string, string>, field: string, value: string, c: string)
  {
    && ("client_order_id", c) in requests && c in fallbacks && fallbacks[c] == value
    && (field == "exchange_order_id" || (field, c) in requests)
  }

  /** The scripts give the same answers to these questions. */
  ghost predicate AgreeOn(one: Script, other: Script, requests: seq<Request>, fallbacks: map<string, string>) {
    forall n: nat, field, value :: Askable(requests, fallbacks, field, value) ==>
      one(n, field, value) == other(n, field, value)
  }

  /** Only planned client ids have switched, each to its exchange id. */
  ghost predicate SwitchedAsPlanned(s: Search, requests: seq<Request>, fallbacks: map<string, string>) {
    forall c :: c in s.switched ==>
      ("client_order_id", c) in requests && c in fallbacks && s.switched[c] == fallbacks[c]
  }

  lemma AskOnlyAskable(
    s: Search, request: Request, requests: seq<Request>, fallbacks: map<string, string>, one: Script, other: Script)
    requires SwitchedAsPlanned(s, requests, fallbacks) && request in requests
    requires AgreeOn(one, other, requests, fallbacks)
    ensures Ask(s, request, fallbacks, one) == Ask(s, request, fallbacks, other)
    ensures SwitchedAsPlanned(Ask(s, request, fallbacks, one), requests, fallbacks)
  {
    var (field, value) := request;
    assert Askable(requests, fallbacks, field, value);
    if value in s.switched {
      assert ReplacedBy(requests, fallbacks, field, fallbacks[value], value);
    }
    if field == CLIENT_FIELD && value in fallbacks {
      assert ReplacedBy(requests, fallbacks, "exchange_order_id", fallbacks[value], value);
    }
  }

  lemma {:induction false} RoundOnlyAskable(
    s: Search, asked: seq<Request>, requests: seq<Request>, fallbacks: map<string, string>, one: Script, other: Script)
    requires SwitchedAsPlanned(s, requests, fallbacks) && forall q :: q in asked ==> q in requests
    requires AgreeOn(one, other, requests, fallbacks)
    ensures Round(s, asked, fallbacks, one) == Round(s, asked, fallbacks, other)
    ensures SwitchedAsPlanned(Round(s, asked, fallbacks, one), requests, fallbacks)
  {
    if asked != [] {
      var front, q := asked[..|asked| - 1], asked[|asked| - 1];
      assert asked == front + [q];
      RoundOnlyAskable(s, front, requests, fallbacks, one, other);
      AskOnlyAskable(Round(s, front, fallbacks, one), q, requests, fallbacks, one, other);
    }
  }

  lemma {:induction false} RoundsOnlyAskable(
    plan: Plan, fallbacks: map<string, string>, one: Script, other: Script, limit: nat, round: nat, s: Search)
    requires round <= limit && SwitchedAsPlanned(s, plan.requests, fallbacks)
    requires AgreeOn(one, other, plan.requests, fallbacks)
    ensures Rounds(plan, fallbacks, one, limit, round, s) == Rounds(plan, fallbacks, other, limit, round, s)
    decreases limit - round
  {
    if round < limit {
      RoundOnlyAskable(s, plan.requests, plan.requests, fallbacks, one, other);
      RoundsOnlyAskable(plan, fallbacks, one, other, limit, round + 1, Round(s, plan.requests, fallbacks, one));
    }
  }

  /** The outcome depends on nothing but the answers to planned lookups and exchange ids of planned client ids. */
  lemma OnlyPlannedAnswersMatter(plan: Plan, fallbacks: map<string, string>, one: Script, other: Script)
    requires AgreeOn(one, other, plan.requests, fallbacks)
    ensures Recovered(plan, fallbacks, one) == Recovered(plan, fallbacks, other)
  {
    RoundsOnlyAskable(plan, fallbacks, one, other, RoundLimit(plan), 0, Search0());
  }

  // ------------------------------------------------- a transport that answers

  /** Every planned lookup is answered terminally, whenever it is asked. */
  ghost predicate AnswersDirectly(script: Script, requests: seq<Request>) {
    forall n: nat, q :: q in requests ==> Terminal(script(n, q.0, q.1).lookup)
  }

  /** The answers to these requests, asked one after the other from the `calls`-th call on. */
  function Answers(script: Script, requests: seq<Request>, calls: nat): seq<Lookup> {
    seq(|requests|, i requires 0 <= i < |requests| => script(calls + i, requests[i].0, requests[i].1).lookup)
  }

  lemma {:induction false} RoundAnswers(requests: seq<Request>, fallbacks: map<string, string>, script: Script)
    requires AnswersDirectly(script, requests)
    ensures var t := Round(Search0(), requests, fallbacks, script);
      && t.results == Answers(script, requests, 0) && t.calls == |requests| && t.switched == map[]
      && t.fallbacksTaken == [] && AllTerminal(t.latest) && (requests != [] ==> t.latest != map[])
  {
    if requests != [] {
      var front, q := requests[..|requests| - 1], requests[|requests| - 1];
      assert requests == front + [q];
      forall n: nat, r | r in front ensures Terminal(script(n, r.0, r.1).lookup) { assert r in requests; }
      RoundAnswers(front, fallbacks, script);
      AskAnswers(Round(Search0(), front, fallbacks, script), q, fallbacks, script);
      assert Answers(script, requests, 0)
          == Answers(script, front, 0) + [script(|front|, q.0, q.1).lookup];
    }
  }

  lemma AskAnswers(s: Search, q: Request, fallbacks: map<string, string>, script: Script)
    requires s.switched == map[] && AllTerminal(s.latest) && Terminal(script(s.calls, q.0, q.1).lookup)
    ensures var t, answer := Ask(s, q, fallbacks, script), script(s.calls, q.0, q.1).lookup;
      && t.results == s.results + [answer] && t.calls == s.calls + 1 && t.switched == map[]
      && t.fallbacksTaken == s.fallbacksTaken && AllTerminal(t.latest) && answer.value in t.latest
  {
  }

  /**
   * If every planned lookup is answered terminally, the loop settles after one round, and records exactly these
   * answers, in the order of the plan.
   */
  lemma AnsweredPlanSettles(plan: Plan, fallbacks: map<string, string>, script: Script)
    requires plan.requests != [] && AnswersDirectly(script, plan.requests)
    ensures var o := Recovered(plan, fallbacks, script);
      && o.rounds == 1 && (o.settled <==> plan.automatic)
      && o.search.results == Answers(script, plan.requests, 0) && o.search.fallbacksTaken == []
  {
    RoundAnswers(plan.requests, fallbacks, script);
  }

  // --------------------------------------------------- answers by exchange id

  ghost predicate AlwaysTerminal(script: Script, field: string, value: string) {
    forall n: nat :: Terminal(script(n, field, value).lookup)
  }

  /** The lookup is answered terminally, directly or by the exchange id of its client id. */
  ghost predicate Resolvable(script: Script, fallbacks: map<string, string>, q: Request) {
    && (q.0 == "client_order_id" || q.0 == "exchange_order_id")
    && (AlwaysTerminal(script, q.0, q.1)
        || (q.0 == "client_order_id" && q.1 in fallbacks
            && AlwaysTerminal(script, "exchange_order_id", fallbacks[q.1])))
  }

  /** Only client ids with an answered exchange id have switched, and every answer so far is terminal. */
  ghost predicate AllResolved(s: Search, fallbacks: map<string, string>, script: Script) {
    && AllTerminal(s.latest)
    && forall c :: c in s.switched ==>
         c in fallbacks && s.switched[c] == fallbacks[c] && AlwaysTerminal(script, "exchange_order_id", fallbacks[c])
  }

  lemma AskResolves(s: Search, q: Request, fallbacks: map<string, string>, script: Script)
    requires AllResolved(s, fallbacks, script) && Resolvable(script, fallbacks, q)
    ensures var t := Ask(s, q, fallbacks, script); AllResolved(t, fallbacks, script) && t.latest != map[]
  {
    var t := Ask(s, q, fallbacks, script);
    assert t.results[|s.results|].value in t.latest;
  }

  lemma {:induction false} RoundResolves(s: Search, asked: seq<Request>, fallbacks: map<string, string>, script: Script)
    requires AllResolved(s, fallbacks, script) && forall q :: q in asked ==> Resolvable(script, fallbacks, q)
    ensures var t := Round(s, asked, fallbacks, script);
      AllResolved(t, fallbacks, script) && (asked != [] ==> t.latest != map[])
  {
    if asked != [] {
      var front, q := asked[..|asked| - 1], asked[|asked| - 1];
      assert asked == front + [q];
      RoundResolves(s, front, fallbacks, script);
      AskResolves(Round(s, front, fallbacks, script), q, fallbacks, script);
    }
  }

  /** If every planned lookup is answered in one of these ways, an automatic recovery settles after one round. */
  lemma ResolvablePlanSettles(plan: Plan, fallbacks: map<string, string>, script: Script)
    requires plan.automatic && plan.requests != []
    requires forall q :: q in plan.requests ==> Resolvable(script, fallbacks, q)
    ensures var o := Recovered(plan, fallbacks, script); o.settled && o.rounds == 1
  {
    RoundResolves(Search0(), plan.requests, fallbacks, script);
  }

  // ---------------------------------------------- what each request records

  /** The answer that asking this request in this state puts on record. */
  function OnRecordAfter(s: Search, q: Request, fallbacks: map<string, string>, script: Script): Lookup {
    var t := Ask(s, q, fallbacks, script);
    t.results[|t.results| - 1]
  }

  lemma {:induction false} RoundRecords(
    s: Search, asked: seq<Request>, i: nat, requests: seq<Request>, fallbacks: map<string, string>, script: Script,
    holds: Lookup -> bool)
    requires i < |asked| && SwitchedAsPlanned(s, requests, fallbacks) && forall q :: q in asked ==> q in requests
    requires forall t :: SwitchedAsPlanned(t, requests, fallbacks) ==>
      holds(OnRecordAfter(t, asked[i], fallbacks, script))
    ensures var t := Round(s, asked, fallbacks, script);
      && s.results <= t.results && |t.results| == |s.results| + |asked| && holds(t.results[|s.results| + i])
      && SwitchedAsPlanned(t, requests, fallbacks)
  {
    var n := |asked| - 1;
    assert asked == asked[..n] + [asked[n]];
    RoundAdds(s, asked, fallbacks, script);
    RoundAdds(s, asked[..n], fallbacks, script);
    RoundKeepsRecord(s, asked[..n], requests, fallbacks, script);
    RoundKeepsRecord(s, asked, requests, fallbacks, script);
    if i < n {
      RoundRecords(s, asked[..n], i, requests, fallbacks, script, holds);
    } else {
      assert holds(OnRecordAfter(Round(s, asked[..n], fallbacks, script), asked[i], fallbacks, script));
    }
  }

  lemma {:induction false} RoundKeepsRecord(
    s: Search, asked: seq<Request>, requests: seq<Request>, fallbacks: map<string, string>, script: Script)
    requires SwitchedAsPlanned(s, requests, fallbacks) && forall q :: q in asked ==> q in requests
    ensures var t := Round(s, asked, fallbacks, script);
      s.results <= t.results && SwitchedAsPlanned(t, requests, fallbacks)
  {
    if asked != [] {
      var front, q := asked[..|asked| - 1], asked[|asked| - 1];
      assert asked == front + [q];
      RoundKeepsRecord(s, front, requests, fallbacks, script);
      AskOnlyAskable(Round(s, front, fallbacks, script), q, requests, fallbacks, script, script);
    }
  }

  /** What request `i` of `size` put on record in the k-th round after `before` records. */
  ghost predicate RecordHolds(results: seq<Lookup>, before: nat, k: nat, size: nat, i: nat, holds: Lookup -> bool) {
    var j := before + k * size + i;
    j < |results| && holds(results[j])
  }

  ghost predicate EveryRoundHolds(
    results: seq<Lookup>, before: nat, rounds: int, size: nat, i: nat, holds: Lookup -> bool)
  {
    forall k: nat :: k < rounds ==> RecordHolds(results, before, k, size, i, holds)
  }

  lemma OneRoundMore(
    before: seq<Lookup>, after: seq<Lookup>, results: seq<Lookup>, rounds: nat, size: nat, i: nat,
    holds: Lookup -> bool)
    requires before <= after <= results && |after| == |before| + size && i < size && holds(after[|before| + i])
    requires EveryRoundHolds(results, |after|, rounds, size, i, holds)
    ensures before <= results && EveryRoundHolds(results, |before|, rounds + 1, size, i, holds)
  {
    forall k: nat | k < rounds + 1 ensures RecordHolds(results, |before|, k, size, i, holds) {
      if k > 0 {
        assert RecordHolds(results, |after|, k - 1, size, i, holds);
        assert (k - 1) * size + size == k * size;
      } else {
        assert 0 * size == 0;
      }
    }
  }

  /** If a request always records an answer of this kind, it does so in every round. */
  lemma {:induction false} RoundsRecord(
    plan: Plan, i: nat, fallbacks: map<string, string>, script: Script, holds: Lookup -> bool, limit: nat, round: nat,
    s: Search)
    requires i < |plan.requests| && round <= limit && SwitchedAsPlanned(s, plan.requests, fallbacks)
    requires forall t :: SwitchedAsPlanned(t, plan.requests, fallbacks) ==>
      holds(OnRecordAfter(t, plan.requests[i], fallbacks, script))
    ensures var o := Rounds(plan, fallbacks, script, limit, round, s);
      && s.results <= o.search.results
      && EveryRoundHolds(o.search.results, |s.results|, o.rounds - round, |plan.requests|, i, holds)
    decreases limit - round
  {
    if round < limit {
      var t := Round(s, plan.requests, fallbacks, script);
      RoundRecords(s, plan.requests, i, plan.requests, fallbacks, script, holds);
      RoundsFrom(plan, fallbacks, script, limit, round, s);
      if plan.automatic && t.latest != map[] && !AllTerminal(t.latest) {
        RoundsRecord(plan, i, fallbacks, script, holds, limit, round + 1, t);
      }
      var o := Rounds(plan, fallbacks, script, limit, round, s);
      assert EveryRoundHolds(t.results, |t.results|, 0, |plan.requests|, i, holds);
      OneRoundMore(s.results, t.results, o.search.results, o.rounds - round - 1, |plan.requests|, i, holds);
    }
  }

  lemma RoundsFrom(plan: Plan, fallbacks: map<string, string>, script: Script, limit: nat, round: nat, s: Search)
    requires round < limit
    ensures var t, o := Round(s, plan.requests, fallbacks, script), Rounds(plan, fallbacks, script, limit, round, s);
      && round < o.rounds
      && if plan.automatic && t.latest != map[] && !AllTerminal(t.latest)
         then o == Rounds(plan, fallbacks, script, limit, round + 1, t)
         else o.search == t && o.rounds == round + 1
  {
    RoundsCounted(plan, fallbacks, script, limit, round + 1, Round(s, plan.requests, fallbacks, script));
  }

  lemma {:induction false} RoundsCounted(
    plan: Plan, fallbacks: map<string, string>, script: Script, limit: nat, round: nat, s: Search)
    requires round <= limit
    ensures round <= Rounds(plan, fallbacks, script, limit, round, s).rounds <= limit
    decreases limit - round
  {
    if round < limit {
      RoundsCounted(plan, fallbacks, script, limit, round + 1, Round(s, plan.requests, fallbacks, script));
    }
  }

  /** An answer to this question, whenever it was asked. */
  ghost predicate AnswersTo(script: Script, field: string, value: string, l: Lookup) {
    exists n: nat :: script(n, field, value).lookup == l
  }

  ghost function AnswerTo(script: Script, field: string, value: string): Lookup -> bool {
    l => AnswersTo(script, field, value, l)
  }

  /**
   * A planned client id that is not its own exchange id and is never answered terminally by itself is looked up by its
   * exchange id in every round, and all its recorded answers are answers to that.
   */
  lemma SwitchedIdsAreAskedByExchangeId(
    plan: Plan, i: nat, fallbacks: map<string, string>, script: Script, c: string)
    requires i < |plan.requests| && plan.requests[i] == ("client_order_id", c)
    requires c in fallbacks && fallbacks[c] != c
    requires forall n: nat :: !Terminal(script(n, "client_order_id", c).lookup)
    ensures var o := Recovered(plan, fallbacks, script);
      EveryRoundHolds(o.search.results, 0, o.rounds, |plan.requests|, i,
        AnswerTo(script, "exchange_order_id", fallbacks[c]))
  {
    var holds := AnswerTo(script, "exchange_order_id", fallbacks[c]);
    forall t | SwitchedAsPlanned(t, plan.requests, fallbacks)
      ensures holds(OnRecordAfter(t, plan.requests[i], fallbacks, script))
    {
      RecordedByExchangeId(t, fallbacks, script, c);
    }
    RoundsRecord(plan, i, fallbacks, script, holds, RoundLimit(plan), 0, Search0());
  }

  lemma RecordedByExchangeId(t: Search, fallbacks: map<string, string>, script: Script, c: string)
    requires c in fallbacks && fallbacks[c] != c && (c in t.switched ==> t.switched[c] == fallbacks[c])
    requires forall n: nat :: !Terminal(script(n, "client_order_id", c).lookup)
    ensures AnswersTo(script, "exchange_order_id", fallbacks[c],
      OnRecordAfter(t, ("client_order_id", c), fallbacks, script))
  {
    var x := OnRecordAfter(t, ("client_order_id", c), fallbacks, script);
    assert x == script(if c in t.switched then t.calls else t.calls + 1, "exchange_order_id", fallbacks[c]).lookup;
  }
}
