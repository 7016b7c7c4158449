/** `BinanceRequestWeightTracker` of `app/exchanges/binance/throttling.py`. Times are integer microseconds. */
module RequestWeight {
  import opened Collections

  datatype WeightSnapshot = WeightSnapshot(used: int, limit: int, remaining: int, windowStartedAt: int, throttled: bool)

  /** The weight header of a response, as far as it can be read. */
  datatype Headers = NoHeaders | Unreadable | UsedWeight(weight: int)

  /** A granted request: when, how much, and in which tumbling window. */
  datatype Grant = Grant(time: int, weight: int, window: int)

  // ------------------------------------------------------------ granted weight

  /** Weight granted in the tumbling window that began at `start`. */
  function WeightOf(grants: seq<Grant>, start: int): int {
    if grants == [] then 0
    else
      WeightOf(grants[..|grants| - 1], start)
      + if grants[|grants| - 1].window == start then grants[|grants| - 1].weight else 0
  }

  /** Weight granted between two times, both included. */
  function WeightBetween(grants: seq<Grant>, from: int, to: int): int {
    if grants == [] then 0
    else
      WeightBetween(grants[..|grants| - 1], from, to)
      + if from <= grants[|grants| - 1].time <= to then grants[|grants| - 1].weight else 0
  }

  /** Weight granted in an interval of this length, both ends included. */
  function WeightInInterval(grants: seq<Grant>, from: int, length: int): int {
    WeightBetween(grants, from, from + length)
  }

  ghost predicate InWindow(g: Grant, length: int) { g.weight >= 0 && g.window <= g.time < g.window + length }

  ghost predicate Apart(g: Grant, h: Grant, length: int) {
    g.window == h.window || g.window + length <= h.window || h.window + length <= g.window
  }

  /** Grants lie in windows of this length that do not overlap, and no window exceeds the cap. */
  ghost predicate Tumbling(grants: seq<Grant>, length: int, cap: int) {
    && (forall g :: g in grants ==> InWindow(g, length))
    && (forall g, h :: g in grants && h in grants ==> Apart(g, h, length))
    && (forall start :: WeightOf(grants, start) <= cap)
  }

  /** Every grant so far lies in the window begun at `start` or in one that had ended by then. */
  ghost predicate NoneLater(grants: seq<Grant>, start: int, length: int) {
    forall g :: g in grants ==> g.window == start || g.window + length <= start
  }

  /** The counter of the current window covers what was granted in it. */
  ghost predicate Accounts(grants: seq<Grant>, used: int, start: Option<int>, last: int, length: int, cap: int) {
    && Tumbling(grants, length, cap)
    && match start {
      case None => grants == []
      case Some(began) => began <= last && WeightOf(grants, began) <= used && NoneLater(grants, began, length)
    }
  }

  predicate Rolls(start: Option<int>, now: int, length: int) {
    start.None? || now - start.value >= length
  }

  ghost predicate Within(g: Grant, from: int, to: int) { from <= g.time <= to }

  lemma {:induction false} TwoWindowsCover(grants: seq<Grant>, from: int, to: int, one: int, two: int)
    requires forall g :: g in grants ==> g.weight >= 0
    requires forall g :: g in grants && Within(g, from, to) ==> g.window == one || g.window == two
    ensures WeightBetween(grants, from, to) <= WeightOf(grants, one) + WeightOf(grants, two)
  {
    if grants != [] {
      assert grants == grants[..|grants| - 1] + [grants[|grants| - 1]];
      TwoWindowsCover(grants[..|grants| - 1], from, to, one, two);
    }
  }

  /** An interval as long as a window meets at most two windows. */
  lemma NoThirdWindow(a: Grant, b: Grant, c: Grant, from: int, length: int)
    requires a.window + length <= b.window && b.window + length <= c.window
    requires a.time < a.window + length && c.window <= c.time
    ensures !(Within(a, from, from + length) && Within(c, from, from + length))
  {
  }

  /** Any interval of one window length contains at most twice the cap of granted weight. */
  lemma SlidingWindow(grants: seq<Grant>, length: int, cap: int, from: int)
    requires length > 0 && cap >= 0 && Tumbling(grants, length, cap)
    ensures WeightInInterval(grants, from, length) <= 2 * cap
  {
    var to := from + length;
    if a :| a in grants && Within(a, from, to) {
      if b :| b in grants && Within(b, from, to) && b.window != a.window {
        forall g | g in grants && Within(g, from, to) ensures g.window == a.window || g.window == b.window {
          if g.window != a.window && g.window != b.window {
            var low, mid, high := Sort3(a, b, g);
            NoThirdWindow(low, mid, high, from, length);
          }
        }
        TwoWindowsCover(grants, from, to, a.window, b.window);
      } else {
        TwoWindowsCover(grants, from, to, a.window, a.window);
      }
    } else {
      TwoWindowsCover(grants, from, to, 0, 0);
    }
  }

  lemma Sort3(a: Grant, b: Grant, c: Grant) returns (low: Grant, mid: Grant, high: Grant)
    requires a.window != b.window && b.window != c.window && a.window != c.window
    ensures low in {a, b, c} && mid in {a, b, c} && high in {a, b, c}
    ensures low.window < mid.window < high.window
  {
    low, mid, high := a, b, c;
    if low.window > mid.window { low, mid := mid, low; }
    if mid.window > high.window { mid, high := high, mid; }
    if low.window > mid.window { low, mid := mid, low; }
  }

  lemma {:induction false} NewWindowIsEmpty(grants: seq<Grant>, start: int)
    requires forall g :: g in grants ==> g.window < start
    ensures WeightOf(grants, start) == 0
  {
    if grants != [] {
      assert grants[|grants| - 1] in grants && forall g :: g in grants[..|grants| - 1] ==> g in grants;
      NewWindowIsEmpty(grants[..|grants| - 1], start);
    }
  }

  lemma Appended(grants: seq<Grant>, g: Grant)
    ensures forall start ::
      WeightOf(grants + [g], start) == WeightOf(grants, start) + if g.window == start then g.weight else 0
  {
    assert (grants + [g])[..|grants|] == grants;
  }

  lemma RollKeepsAccounts(grants: seq<Grant>, used: int, start: Option<int>, last: int, now: int, length: int, cap: int)
    requires length > 0 && now >= last && used >= 0 && Accounts(grants, used, start, last, length, cap)
    ensures if Rolls(start, now, length) then Accounts(grants, 0, Some(now), now, length, cap)
      else Accounts(grants, used, start, now, length, cap)
  {
    if Rolls(start, now, length) {
      if start.Some? {
        forall g | g in grants ensures g.window + length <= now {
          assert g.window == start.value || g.window + length <= start.value;
        }
      }
      NewWindowIsEmpty(grants, now);
    }
  }

  lemma GrantKeepsAccounts(grants: seq<Grant>, used: int, weight: int, began: int, now: int, length: int, cap: int)
    requires Accounts(grants, used, Some(began), now, length, cap) && !Rolls(Some(began), now, length)
    requires weight >= 0 && used + weight <= cap
    ensures Accounts(grants + [Grant(now, weight, began)], used + weight, Some(began), now, length, cap)
  {
    var g := Grant(now, weight, began);
    Appended(grants, g);
    assert InWindow(g, length);
    forall h | h in grants ensures Apart(g, h, length) {
      assert h.window == began || h.window + length <= began;
    }
    forall start ensures WeightOf(grants + [g], start) <= cap {
      assert WeightOf(grants, start) <= cap;
    }
  }

  // -------------------------------------------------------------- the tracker

  class Tracker {
    const maxWeight: int
    const window: int
    var usedWeight: int
    var windowStartedAt: Option<int>
    var lastSnapshot: Option<WeightSnapshot>

    ghost var grants: seq<Grant>
    ghost var lastCall: int

    ghost predicate Valid()
      reads this
    {
      window > 0 && usedWeight >= 0
        && Accounts(grants, usedWeight, windowStartedAt, lastCall, window, AtLeastZero(maxWeight))
    }

    constructor (maxWeight: int, window: int, now: int)
      requires window > 0
      ensures Valid() && this.maxWeight == maxWeight && this.window == window
      ensures grants == [] && usedWeight == 0 && lastCall == now && lastSnapshot == None && windowStartedAt == None
    {
      this.maxWeight, this.window := maxWeight, window;
      usedWeight, windowStartedAt, lastSnapshot := 0, None, None;
      grants, lastCall := [], now;
    }

    /** What a call at this time finds used: nothing, when it opens a new window. */
    ghost function UsedAt(now: int): int
      reads this
    {
      if windowStartedAt.Some? && now - windowStartedAt.value < window then usedWeight else 0
    }

    /** The window a call at this time falls into. */
    ghost function StartAt(now: int): int
      reads this
    {
      if windowStartedAt.Some? && now - windowStartedAt.value < window then windowStartedAt.value else now
    }

    /** The snapshot states the usage, the limit, and what is left of it, if anything. */
    ghost predicate Describes(r: WeightSnapshot, start: int, throttled: bool)
      reads this
    {
      && r.used == usedWeight && r.limit == maxWeight && r.windowStartedAt == start && r.throttled == throttled
      && r.remaining == if usedWeight < maxWeight then maxWeight - usedWeight else 0
    }

    function Snapshot(start: int, throttled: bool): WeightSnapshot
      reads this
    {
      WeightSnapshot(usedWeight, maxWeight, AtLeastZero(maxWeight - usedWeight), start, throttled)
    }

    /** `_roll_window` */
    method RollWindow(now: int)
      requires Valid() && now >= lastCall
      modifies this`usedWeight, this`windowStartedAt, this`lastCall
      ensures Valid() && lastCall == now && !Rolls(windowStartedAt, now, window)
      ensures usedWeight == old(UsedAt(now)) && windowStartedAt == Some(old(StartAt(now)))
    {
      RollKeepsAccounts(grants, usedWeight, windowStartedAt, lastCall, now, window, AtLeastZero(maxWeight));
      if windowStartedAt.None? || now - windowStartedAt.value >= window {
        windowStartedAt := Some(now);
        usedWeight := 0;
      }
      lastCall := now;
    }

    /**
     * A request is granted exactly when it fits into what the current window has left. A negative weight, which no
     * caller passes, would be granted as well, but would leave more to the window than its limit.
     */
    method Consume(weight: int, now: int) returns (r: WeightSnapshot)
      requires Valid() && now >= lastCall
      modifies this
      ensures weight >= 0 ==> Valid()
      ensures lastCall == now && lastSnapshot == Some(r) && windowStartedAt == Some(old(StartAt(now)))
      ensures r.throttled <==> old(UsedAt(now)) + weight > maxWeight
      ensures usedWeight == old(UsedAt(now)) + if r.throttled then 0 else weight
      ensures grants == if r.throttled then old(grants) else old(grants) + [Grant(now, weight, r.windowStartedAt)]
      ensures Describes(r, old(StartAt(now)), r.throttled)
    {
      RollWindow(now);
      var next := usedWeight + weight;
      var start := if windowStartedAt.Some? then windowStartedAt.value else now;
      if next > maxWeight {
        r := Snapshot(start, true);
      } else {
        if weight >= 0 { GrantKeepsAccounts(grants, usedWeight, weight, start, now, window, AtLeastZero(maxWeight)); }
        usedWeight := next;
        grants := grants + [Grant(now, weight, start)];
        r := Snapshot(start, false);
      }
      lastSnapshot := Some(r);
    }

    /** Headers can only raise the usage of the current window; without headers not even the window rolls. */
    method ObserveResponseHeaders(headers: Headers, now: int) returns (r: Option<WeightSnapshot>)
      requires Valid() && now >= lastCall
      modifies this
      ensures Valid() && grants == old(grants) && r == lastSnapshot
      ensures headers.NoHeaders? ==>
        && lastCall == old(lastCall) && usedWeight == old(usedWeight)
        && windowStartedAt == old(windowStartedAt) && lastSnapshot == old(lastSnapshot)
      ensures !headers.NoHeaders? ==>
        && lastCall == now && windowStartedAt == Some(old(StartAt(now)))
        && usedWeight ==
             if headers.UsedWeight? && headers.weight > old(UsedAt(now)) then headers.weight else old(UsedAt(now))
      ensures headers.Unreadable? ==> r == old(lastSnapshot)
      ensures headers.UsedWeight? ==> r.Some? && Describes(r.value, old(StartAt(now)), usedWeight >= maxWeight)
    {
      if headers.NoHeaders? { return lastSnapshot; }
      RollWindow(now);
      if headers.Unreadable? { return lastSnapshot; }
      usedWeight := if usedWeight < headers.weight then headers.weight else usedWeight;
      var start := if windowStartedAt.Some? then windowStartedAt.value else now;
      lastSnapshot := Some(Snapshot(start, usedWeight >= maxWeight));
      r := lastSnapshot;
    }
  }

  // ---------------------------------------------------- whole call sequences

  datatype Call = Reserve(weight: nat, at: int) | Observe(headers: Headers, at: int)

  /**
   * Any sequence of calls at non-decreasing times: the grants, read off the answers, stay within the limit in every
   * tumbling window and within twice the limit in every interval of one window length.
   */
  method RunCalls(tracker: Tracker, calls: seq<Call>) returns (granted: seq<Grant>)
    requires tracker.Valid() && tracker.grants == []
    requires forall i, j :: 0 <= i < j < |calls| ==> calls[i].at <= calls[j].at
    requires calls != [] ==> tracker.lastCall <= calls[0].at
    modifies tracker
    ensures tracker.Valid() && granted == tracker.grants
    ensures forall start :: WeightOf(granted, start) <= AtLeastZero(tracker.maxWeight)
    ensures forall from :: WeightInInterval(granted, from, tracker.window) <= 2 * AtLeastZero(tracker.maxWeight)
  {
    granted := [];
    for i := 0 to |calls|
      invariant tracker.Valid() && granted == tracker.grants
      invariant i < |calls| ==> tracker.lastCall <= calls[i].at
    {
      match calls[i]
      case Reserve(weight, at) =>
        var answer := tracker.Consume(weight, at);
        if !answer.throttled { granted := granted + [Grant(at, weight, answer.windowStartedAt)]; }
      case Observe(headers, at) => var _ := tracker.ObserveResponseHeaders(headers, at);
    }
    forall from ensures WeightInInterval(granted, from, tracker.window) <= 2 * AtLeastZero(tracker.maxWeight) {
      SlidingWindow(granted, tracker.window, AtLeastZero(tracker.maxWeight), from);
    }
  }
}
