/** Bounds and exit conditions of the automatic recovery loop, for every lookup transport. */
module RecoveryBounds {
  import opened Collections
  import opened Recovery

  /** How often a client id fell back to its exchange id. */
  function FallBacks(s: Search, c: string): nat {
    multiset(s.fallbacksTaken)[c]
  }

  /** The client id is not its own exchange id. */
  predicate Diverts(fallbacks: map<string, string>, c: string) {
    c in fallbacks ==> fallbacks[c] != c
  }

  /** Some recorded lookup of this value is terminal. */
  ghost predicate AnsweredAt(lookups: seq<Lookup>, value: string) {
    exists m :: m in lookups && m.value == value && Terminal(m)
  }

  ghost predicate Answered(lookups: seq<Lookup>) {
    forall l :: l in lookups ==> AnsweredAt(lookups, l.value)
  }

  /** Every recorded lookup is reflected by the latest answer at its value, and every call is accounted for. */
  ghost predicate Indexed(s: Search) {
    && s.calls == |s.results| + |s.fallbacksTaken|
    && (forall i :: 0 <= i < |s.results| ==> s.results[i].value in s.latest)
    && (forall v :: v in s.latest ==> s.latest[v] in s.results && s.latest[v].value == v)
  }

  /** Only planned client ids switch, each to its exchange id, and after a true switch not again. */
  ghost predicate Switching(s: Search, requests: seq<Request>, fallbacks: map<string, string>) {
    && (forall c :: c in s.switched ==> c in fallbacks && s.switched[c] == fallbacks[c])
    && (forall c :: c in s.fallbacksTaken ==> c in s.switched && (CLIENT_FIELD, c) in requests)
    && (forall c :: Diverts(fallbacks, c) ==> FallBacks(s, c) <= 1)
  }

  ghost predicate Consistent(s: Search, requests: seq<Request>, fallbacks: map<string, string>) {
    Indexed(s) && Switching(s, requests, fallbacks)
  }

  lemma AskKeepsIndex(s: Search, request: Request, fallbacks: map<string, string>, script: Script)
    requires Indexed(s)
    ensures Indexed(Ask(s, request, fallbacks, script))
  {
    var t := Ask(s, request, fallbacks, script);
    assert t.results == s.results + [t.results[|s.results|]];
  }

  lemma AskKeepsSwitches(
    s: Search, request: Request, requests: seq<Request>, fallbacks: map<string, string>, script: Script)
    requires Switching(s, requests, fallbacks) && request in requests
    ensures Switching(Ask(s, request, fallbacks, script), requests, fallbacks)
  {
    var t, value := Ask(s, request, fallbacks, script), request.1;
    if t.fallbacksTaken != s.fallbacksTaken {
      assert t.fallbacksTaken == s.fallbacksTaken + [value];
      assert Diverts(fallbacks, value) ==> value !in s.switched;
      if value !in s.fallbacksTaken { assert multiset(s.fallbacksTaken)[value] == 0; }
    }
  }

  lemma {:induction false} RoundKeeps(
    s: Search, asked: seq<Request>, requests: seq<Request>, fallbacks: map<string, string>, script: Script)
    requires Consistent(s, requests, fallbacks) && forall q :: q in asked ==> q in requests
    ensures Consistent(Round(s, asked, fallbacks, script), requests, fallbacks)
  {
    if asked != [] {
      var front, q := asked[..|asked| - 1], asked[|asked| - 1];
      assert asked == front + [q];
      RoundKeeps(s, front, requests, fallbacks, script);
      AskKeepsIndex(Round(s, front, fallbacks, script), q, fallbacks, script);
      AskKeepsSwitches(Round(s, front, fallbacks, script), q, requests, fallbacks, script);
    }
  }

  lemma {:induction false} RoundsKeep(
    plan: Plan, fallbacks: map<string, string>, script: Script, limit: nat, round: nat, s: Search)
    requires round <= limit && Consistent(s, plan.requests, fallbacks)
    ensures var o := Rounds(plan, fallbacks, script, limit, round, s);
      && Consistent(o.search, plan.requests, fallbacks)
      && (o.settled ==> AllTerminal(o.search.latest))
    decreases limit - round
  {
    if round < limit {
      RoundKeeps(s, plan.requests, plan.requests, fallbacks, script);
      RoundsKeep(plan, fallbacks, script, limit, round + 1, Round(s, plan.requests, fallbacks, script));
    }
  }

  lemma {:induction false} RoundAdds(s: Search, asked: seq<Request>, fallbacks: map<string, string>, script: Script)
    ensures |Round(s, asked, fallbacks, script).results| == |s.results| + |asked|
  {
    if asked != [] { RoundAdds(s, asked[..|asked| - 1], fallbacks, script); }
  }

  lemma RoundAsksSomething(plan: Plan, fallbacks: map<string, string>, script: Script, s: Search)
    requires Consistent(s, plan.requests, fallbacks)
    ensures plan.requests != [] ==> Round(s, plan.requests, fallbacks, script).latest != map[]
  {
    RoundKeeps(s, plan.requests, plan.requests, fallbacks, script);
    RoundAdds(s, plan.requests, fallbacks, script);
    var t := Round(s, plan.requests, fallbacks, script);
    if plan.requests != [] {
      assert t.results[|t.results| - 1].value in t.latest;
    }
  }

  lemma {:induction false} RoundsUsed(
    plan: Plan, fallbacks: map<string, string>, script: Script, limit: nat, round: nat, s: Search)
    requires round <= limit && Consistent(s, plan.requests, fallbacks)
    ensures var o := Rounds(plan, fallbacks, script, limit, round, s);
      && round <= o.rounds <= limit && (round < limit ==> round < o.rounds)
      && (plan.automatic && plan.requests != [] && !o.settled ==> o.rounds == limit)
    decreases limit - round
  {
    if round < limit {
      RoundKeeps(s, plan.requests, plan.requests, fallbacks, script);
      RoundAsksSomething(plan, fallbacks, script, s);
      RoundsUsed(plan, fallbacks, script, limit, round + 1, Round(s, plan.requests, fallbacks, script));
    }
  }

  /** So many rounds of so many requests each were added to the record. */
  ghost predicate Counted(after: int, before: int, rounds: int, size: int) {
    after == before + rounds * size
  }

  lemma CountedOneMore(after: int, before: int, rounds: int, size: int)
    requires Counted(after, before + size, rounds - 1, size)
    ensures Counted(after, before, rounds, size)
  {
  }

  lemma CountedOnce(before: int, size: int)
    ensures Counted(before + size, before, 1, size) && Counted(before, before, 0, size)
  {
  }

  lemma {:induction false} RoundsCount(
    plan: Plan, fallbacks: map<string, string>, script: Script, limit: nat, round: nat, s: Search)
    requires round <= limit
    ensures var o := Rounds(plan, fallbacks, script, limit, round, s);
      Counted(|o.search.results|, |s.results|, o.rounds - round, |plan.requests|)
    decreases limit - round
  {
    CountedOnce(|s.results|, |plan.requests|);
    if round < limit {
      var t, size := Round(s, plan.requests, fallbacks, script), |plan.requests|;
      RoundAdds(s, plan.requests, fallbacks, script);
      if plan.automatic && t.latest != map[] && !AllTerminal(t.latest) {
        var o := Rounds(plan, fallbacks, script, limit, round + 1, t);
        RoundsCount(plan, fallbacks, script, limit, round + 1, t);
        CountedOneMore(|o.search.results|, |s.results|, o.rounds - round, size);
      }
    }
  }

  /** The loop records one lookup per request and round, in at most three rounds, all of them unless it settles. */
  lemma LoopBound(plan: Plan, fallbacks: map<string, string>, script: Script)
    ensures var o := Recovered(plan, fallbacks, script);
      && 1 <= o.rounds <= (if plan.automatic then 3 else 1)
      && |o.search.results| == o.rounds * |plan.requests|
      && (plan.automatic && plan.requests != [] && !o.settled ==> o.rounds == 3)
  {
    RoundsUsed(plan, fallbacks, script, RoundLimit(plan), 0, Search0());
    RoundsCount(plan, fallbacks, script, RoundLimit(plan), 0, Search0());
  }

  /**
   * The transport is asked once per recorded lookup and once more per fallback; leaving by the all-terminal test
   * means every looked-up value reached a terminal answer.
   */
  lemma LoopAgreement(plan: Plan, fallbacks: map<string, string>, script: Script)
    ensures var o := Recovered(plan, fallbacks, script);
      && o.search.calls == |o.search.results| + |o.search.fallbacksTaken|
      && (o.settled ==> Answered(o.search.results))
  {
    RoundsKeep(plan, fallbacks, script, RoundLimit(plan), 0, Search0());
    var o := Recovered(plan, fallbacks, script);
    if o.settled { SettledMeansTerminal(o.search, plan.requests, fallbacks); }
  }

  lemma SettledMeansTerminal(s: Search, requests: seq<Request>, fallbacks: map<string, string>)
    requires Consistent(s, requests, fallbacks) && AllTerminal(s.latest)
    ensures Answered(s.results)
  {
    forall l | l in s.results ensures AnsweredAt(s.results, l.value) {
      var m := s.latest[l.value];
      assert m in s.results && m.value == l.value && Terminal(m);
    }
  }

  ghost predicate AlwaysObserved(script: Script) {
    forall n: nat, field, value :: script(n, field, value).health.Some?
  }

  lemma {:induction false} RoundObserves(s: Search, asked: seq<Request>, fallbacks: map<string, string>, script: Script)
    requires AlwaysObserved(script) && |s.health| == s.calls
    ensures var t := Round(s, asked, fallbacks, script); |t.health| == t.calls
  {
    if asked != [] {
      RoundObserves(s, asked[..|asked| - 1], fallbacks, script);
      AskObserves(Round(s, asked[..|asked| - 1], fallbacks, script), asked[|asked| - 1], fallbacks, script);
    }
  }

  lemma AskObserves(s: Search, request: Request, fallbacks: map<string, string>, script: Script)
    requires AlwaysObserved(script) && |s.health| == s.calls
    ensures var t := Ask(s, request, fallbacks, script); |t.health| == t.calls
  {
    forall n: nat, field, value ensures |Observed(script(n, field, value).health)| == 1 {}
  }

  lemma {:induction false} RoundsObserve(
    plan: Plan, fallbacks: map<string, string>, script: Script, limit: nat, round: nat, s: Search)
    requires round <= limit && AlwaysObserved(script) && |s.health| == s.calls
    ensures var t := Rounds(plan, fallbacks, script, limit, round, s).search; |t.health| == t.calls
    decreases limit - round
  {
    if round < limit {
      RoundObserves(s, plan.requests, fallbacks, script);
      RoundsObserve(plan, fallbacks, script, limit, round + 1, Round(s, plan.requests, fallbacks, script));
    }
  }

  /** A transport that reports its health with every answer leaves one health record per call. */
  lemma EveryCallIsObserved(plan: Plan, fallbacks: map<string, string>, script: Script)
    requires AlwaysObserved(script)
    ensures var t := Recovered(plan, fallbacks, script).search; |t.health| == t.calls
  {
    RoundsObserve(plan, fallbacks, script, RoundLimit(plan), 0, Search0());
  }

  /** A client id that is not its own exchange id falls back at most once, whatever the other ids do. */
  lemma FallBackOnce(plan: Plan, fallbacks: map<string, string>, script: Script, c: string)
    requires Diverts(fallbacks, c)
    ensures FallBacks(Recovered(plan, fallbacks, script).search, c) <= 1
  {
    RoundsKeep(plan, fallbacks, script, RoundLimit(plan), 0, Search0());
  }

  /** Only planned client ids with an exchange id on record fall back. */
  lemma OnlyPlannedFallBack(plan: Plan, fallbacks: map<string, string>, script: Script, c: string)
    requires (CLIENT_FIELD, c) !in plan.requests || c !in fallbacks
    ensures FallBacks(Recovered(plan, fallbacks, script).search, c) == 0
  {
    RoundsKeep(plan, fallbacks, script, RoundLimit(plan), 0, Search0());
  }

  // --------------------------------------- client ids that are their own exchange id

  ghost predicate NeverTerminal(script: Script) {
    forall n: nat, field, value :: !Terminal(script(n, field, value).lookup)
  }

  /** No terminal answer so far, and the client id was at most switched to itself. */
  ghost predicate Stuck(s: Search, c: string) {
    && (forall v :: v in s.latest ==> !Terminal(s.latest[v]))
    && (c in s.switched ==> s.switched[c] == c)
  }

  lemma AskStuck(s: Search, request: Request, fallbacks: map<string, string>, script: Script, c: string)
    requires NeverTerminal(script) && Stuck(s, c) && c in fallbacks && fallbacks[c] == c
    ensures var t := Ask(s, request, fallbacks, script);
      && Stuck(t, c) && t.latest != map[]
      && FallBacks(t, c) >= FallBacks(s, c) + if request == (CLIENT_FIELD, c) then 1 else 0
  {
    var t := Ask(s, request, fallbacks, script);
    assert t.latest[t.results[|s.results|].value] == t.results[|s.results|];
  }

  lemma {:induction false} RoundStuck(
    s: Search, asked: seq<Request>, fallbacks: map<string, string>, script: Script, c: string)
    requires NeverTerminal(script) && Stuck(s, c) && c in fallbacks && fallbacks[c] == c
    ensures var t := Round(s, asked, fallbacks, script);
      && Stuck(t, c) && (asked != [] ==> t.latest != map[])
      && FallBacks(t, c) >= FallBacks(s, c) + if (CLIENT_FIELD, c) in asked then 1 else 0
  {
    if asked != [] {
      var front, q := asked[..|asked| - 1], asked[|asked| - 1];
      assert asked == front + [q];
      RoundStuck(s, front, fallbacks, script, c);
      AskStuck(Round(s, front, fallbacks, script), q, fallbacks, script, c);
    }
  }

  /** A round that asks by this client id falls back again and does not settle. */
  lemma StuckRound(s: Search, asked: seq<Request>, fallbacks: map<string, string>, script: Script, c: string)
    requires NeverTerminal(script) && Stuck(s, c) && c in fallbacks && fallbacks[c] == c && (CLIENT_FIELD, c) in asked
    ensures var t := Round(s, asked, fallbacks, script);
      && Stuck(t, c) && t.latest != map[] && !AllTerminal(t.latest) && FallBacks(t, c) > FallBacks(s, c)
  {
    RoundStuck(s, asked, fallbacks, script, c);
    var v :| v in Round(s, asked, fallbacks, script).latest;
  }

  /** The loop goes on after such a round. */
  lemma StuckTurn(
    plan: Plan, fallbacks: map<string, string>, script: Script, c: string, limit: nat, round: nat, s: Search)
    returns (t: Search)
    requires round < limit && plan.automatic && (CLIENT_FIELD, c) in plan.requests
    requires NeverTerminal(script) && Stuck(s, c) && c in fallbacks && fallbacks[c] == c
    ensures Stuck(t, c) && FallBacks(t, c) > FallBacks(s, c)
    ensures Rounds(plan, fallbacks, script, limit, round, s) == Rounds(plan, fallbacks, script, limit, round + 1, t)
  {
    t := Round(s, plan.requests, fallbacks, script);
    StuckRound(s, plan.requests, fallbacks, script, c);
  }

  lemma {:induction false} RoundsStuck(
    plan: Plan, fallbacks: map<string, string>, script: Script, c: string, limit: nat, round: nat, s: Search)
    requires round <= limit && plan.automatic && (CLIENT_FIELD, c) in plan.requests
    requires NeverTerminal(script) && Stuck(s, c) && c in fallbacks && fallbacks[c] == c
    ensures FallBacks(Rounds(plan, fallbacks, script, limit, round, s).search, c) >= FallBacks(s, c) + (limit - round)
    decreases limit - round
  {
    if round < limit {
      var t := StuckTurn(plan, fallbacks, script, c, limit, round, s);
      RoundsStuck(plan, fallbacks, script, c, limit, round + 1, t);
    }
  }

  /** A planned client id that is its own exchange id falls back in every round while no answer is terminal. */
  lemma SelfFallBackRepeats(plan: Plan, fallbacks: map<string, string>, script: Script, c: string)
    requires plan.automatic && (CLIENT_FIELD, c) in plan.requests && c in fallbacks && fallbacks[c] == c
    requires NeverTerminal(script)
    ensures FallBacks(Recovered(plan, fallbacks, script).search, c) >= MAX_AUTOMATIC_RECOVERY_ROUNDS
  {
    RoundsStuck(plan, fallbacks, script, c, RoundLimit(plan), 0, Search0());
  }

  function NothingFound(): Script {
    (n: nat, field: string, value: string) => Reply(Lookup(false, field, value, "", None, None, None, [], 0), None)
  }

  /**
   * In an automatic recovery a client id falls back at most once under every transport, unless it is its own exchange
   * id.
   */
  lemma FallBackOnceExactly(plan: Plan, fallbacks: map<string, string>, c: string)
    requires plan.automatic
    ensures (forall script: Script :: FallBacks(Recovered(plan, fallbacks, script).search, c) <= 1)
       <==> !((CLIENT_FIELD, c) in plan.requests && c in fallbacks && fallbacks[c] == c)
  {
    if (CLIENT_FIELD, c) in plan.requests && c in fallbacks && fallbacks[c] == c {
      SelfFallBackRepeats(plan, fallbacks, NothingFound(), c);
    } else {
      forall script: Script ensures FallBacks(Recovered(plan, fallbacks, script).search, c) <= 1 {
        if (CLIENT_FIELD, c) in plan.requests && c in fallbacks {
          FallBackOnce(plan, fallbacks, script, c);
        } else {
          OnlyPlannedFallBack(plan, fallbacks, script, c);
        }
      }
    }
  }
}
