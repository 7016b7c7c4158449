/**
 * The private-stream watchdog: `BinanceRestrictedLivePayloadSource` of `restricted_live_transport.py` over the session
 * functions of `private_stream_client.py`. Times are integer microseconds.
 */
module PrivateStreamSession {
  import opened Collections

  const HEARTBEAT_RECONNECT_GRACE_WINDOW := 30_000_000

  datatype StreamState = Subscribed | Streaming | Degraded | Terminated

  datatype Session = Session(
    state: StreamState, startedAt: int, expiresAt: Option<int>, connection: nat, lastMessageAt: Option<int>,
    lastKeepaliveAt: Option<int>, reconnectAttempts: nat)

  datatype StreamHealth = StreamHealth(state: StreamState, authoritative: bool)

  /** Client configuration. */
  datatype Config = Config(sessionTtl: int, rolloverWindow: int, heartbeatTimeout: int)

  datatype Stats = Stats(
    reconnectCount: nat, refreshAttempts: nat, refreshFailures: nat, heartbeatOverdueEvents: nat,
    heartbeatOverdueStreak: nat, bootstrapCount: nat, lastRefreshSucceeded: Option<bool>,
    lastHeartbeatReconnectExecuted: Option<bool>)

  // --------------------------------------------------------------- transport

  /** How the transport answers one call: it may raise, a read may time out, a subscription may state its expiry. */
  datatype TransportReply = TransportReply(raises: bool, timesOut: bool, expiresAt: Option<int>)

  /** The authenticated transport; every call may have any answer. */
  class Transport {
    const script: nat -> TransportReply
    var calls: nat

    constructor (script: nat -> TransportReply)
      ensures this.script == script && calls == 0
    {
      this.script := script;
      calls := 0;
    }

    /** Every further call raises. */
    ghost predicate Down()
      reads this
    {
      forall k: nat :: k >= calls ==> script(k).raises
    }

    method Call() returns (reply: TransportReply)
      modifies this
      ensures reply == script(old(calls)) && calls == old(calls) + 1
    {
      reply := script(calls);
      calls := calls + 1;
    }
  }

  // -------------------------------------------------------- session functions

  predicate Expired(s: Session, t: int) {
    s.expiresAt.Some? && t >= s.expiresAt.value
  }

  predicate Silent(c: Config, s: Session, t: int) {
    s.lastMessageAt.Some? && t - s.lastMessageAt.value > c.heartbeatTimeout
  }

  /** `check_runtime_health` reports an overdue heartbeat. */
  predicate Overdue(c: Config, s: Session, t: int) {
    !Expired(s, t) && Silent(c, s, t)
  }

  /** A poll at this time executes a heartbeat reconnect. */
  predicate ReconnectDue(c: Config, s: Session, streak: nat, t: int) {
    && Overdue(c, s, t)
    && t - s.lastMessageAt.value > c.heartbeatTimeout + HEARTBEAT_RECONNECT_GRACE_WINDOW
    && streak >= 1
  }

  /** `check_session_rollover` */
  predicate RolloverDue(c: Config, s: Session, t: int) {
    s.expiresAt.Some? && s.expiresAt.value - t <= c.sessionTtl - c.rolloverWindow
  }

  /** `build_health_snapshot` without a batch. */
  function HealthOf(c: Config, s: Session, t: int): StreamHealth {
    if s.state.Terminated? then StreamHealth(s.state, false)
    else if Expired(s, t) then StreamHealth(Terminated, false)
    else if Silent(c, s, t) then StreamHealth(Degraded, false)
    else StreamHealth(s.state, s.state.Streaming?)
  }

  // ------------------------------------------------------ one poll as a function

  /** The answers of the transport, by number of the call. */
  type Replies = nat -> TransportReply

  /** What the source keeps, with the number of transport calls so far. */
  datatype View = View(session: Option<Session>, health: Option<StreamHealth>, stats: Stats, calls: nat)

  /** Opening a connection and subscribing on it; the connection is named by the call that opened it. */
  function Opening(script: Replies, calls: nat): (Option<(nat, Option<int>)>, nat) {
    if script(calls).raises then (None, calls + 1)
    else if script(calls + 1).raises then (None, calls + 2)
    else (Some((calls, script(calls + 1).expiresAt)), calls + 2)
  }

  /** `bootstrap_session` */
  function NewSession(c: Config, script: Replies, calls: nat, t: int): (Option<Session>, nat) {
    var (receipt, after) := Opening(script, calls);
    (if receipt.None? then None
     else Some(Session(Subscribed, t, Some(if receipt.value.1.Some? then receipt.value.1.value else t + c.sessionTtl),
       receipt.value.0, None, None, 0)), after)
  }

  /** Closing the connection before opening another one. */
  function Reopening(script: Replies, calls: nat): (Option<(nat, Option<int>)>, nat) {
    if script(calls).raises then (None, calls + 1) else Opening(script, calls + 1)
  }

  /** `refresh_session` */
  function RenewedSession(c: Config, script: Replies, s: Session, calls: nat, t: int): (Option<Session>, nat) {
    var (receipt, after) := Reopening(script, calls);
    (if receipt.None? then None
     else Some(Session(Streaming, t, Some(if receipt.value.1.Some? then receipt.value.1.value else t + c.sessionTtl),
       receipt.value.0, s.lastMessageAt, Some(t), s.reconnectAttempts)), after)
  }

  /** `reconnect_session` */
  function ReplacedSession(script: Replies, s: Session, calls: nat, t: int): (Option<Session>, nat) {
    var (receipt, after) := Reopening(script, calls);
    (if receipt.None? then None
     else Some(Session(Streaming, s.startedAt, if receipt.value.1.Some? then receipt.value.1 else s.expiresAt,
       receipt.value.0, Some(t), s.lastKeepaliveAt, s.reconnectAttempts + 1)), after)
  }

  /** `_bootstrap_new_session` */
  function Bootstrapped(c: Config, script: Replies, v: View, t: int): (bool, View) {
    var (s, after) := NewSession(c, script, v.calls, t);
    if s.None? then (false, v.(calls := after))
    else
      (true, View(s, Some(HealthOf(c, s.value, t)),
        v.stats.(heartbeatOverdueStreak := 0, bootstrapCount := v.stats.bootstrapCount + 1,
          lastHeartbeatReconnectExecuted := None), after))
  }

  /** `_refresh_session` */
  function Refreshed(c: Config, script: Replies, v: View, t: int): View
    requires v.session.Some?
  {
    var (s, after) := RenewedSession(c, script, v.session.value, v.calls, t);
    var stats := v.stats.(refreshAttempts := v.stats.refreshAttempts + 1, lastRefreshSucceeded := Some(s.Some?));
    if s.Some? then v.(session := s, stats := stats, calls := after)
    else
      View(v.session, Some(StreamHealth(Terminated, false)),
           stats.(refreshFailures := stats.refreshFailures + 1), after)
  }

  /** `_reconnect` */
  function Reconnected(c: Config, script: Replies, v: View, t: int): (bool, View)
    requires v.session.Some?
  {
    var (s, after) := ReplacedSession(script, v.session.value, v.calls, t);
    var (ok, u) := if s.Some? then (true, View(s, Some(HealthOf(c, s.value, t)), v.stats, after))
      else Bootstrapped(c, script, v.(calls := after), t);
    (ok, if ok then u.(stats := u.stats.(reconnectCount := u.stats.reconnectCount + 1, heartbeatOverdueStreak := 0))
         else u)
  }

  /** The heartbeat-overdue branch; the result is absent when the poll goes on. */
  function AfterOverdue(c: Config, script: Replies, v: View, t: int): (Option<PollResult>, View)
    requires v.session.Some? && v.session.value.lastMessageAt.Some?
  {
    var silence, streak := t - v.session.value.lastMessageAt.value, v.stats.heartbeatOverdueStreak + 1;
    var waiting := View(v.session, Some(StreamHealth(Degraded, false)),
      v.stats.(heartbeatOverdueStreak := streak, lastHeartbeatReconnectExecuted := Some(false)), v.calls);
    if silence <= c.heartbeatTimeout + HEARTBEAT_RECONNECT_GRACE_WINDOW || streak < 2 then (Some(Nothing), waiting)
    else
      var (ok, u) := Reconnected(c, script,
        waiting.(stats := waiting.stats.(heartbeatOverdueEvents := v.stats.heartbeatOverdueEvents + 1,
          lastHeartbeatReconnectExecuted := Some(true))), t);
      (if ok then None else Some(Raised), u)
  }

  /** The watchdog part of a poll. */
  function Watched(c: Config, script: Replies, v: View, t: int): (Option<PollResult>, View)
    requires v.session.Some?
  {
    if Expired(v.session.value, t) then
      var (ok, u) := Bootstrapped(c, script, v.(health := Some(StreamHealth(Terminated, false))), t);
      (if ok then None else Some(Raised), u)
    else if Silent(c, v.session.value, t) then AfterOverdue(c, script, v, t)
    else (None, v)
  }

  /** The read that closes a poll. */
  function ReadOnce(c: Config, script: Replies, v: View, t: int): (PollResult, View)
    requires v.session.Some?
  {
    var reply, u := script(v.calls), v.(calls := v.calls + 1);
    if reply.timesOut then (Nothing, u.(health := Some(HealthOf(c, v.session.value, t))))
    else if reply.raises then
      var (ok, w) := Reconnected(c, script, u.(stats := u.stats.(heartbeatOverdueStreak := 0)), t);
      (if ok then StreamTerminated else Raised, w)
    else
      var s := v.session.value.(state := Streaming, lastMessageAt := Some(t));
      (Delivered, View(Some(s), Some(HealthOf(c, s, t)),
        v.stats.(heartbeatOverdueStreak := 0, lastHeartbeatReconnectExecuted := None), v.calls + 1))
  }

  /** A poll once there is a session. */
  function PolledSession(c: Config, script: Replies, v: View, t: int): (PollResult, View)
    requires v.session.Some?
  {
    var (early, u) := Watched(c, script, v, t);
    if early.Some? then (early.value, u)
    else ReadOnce(c, script, if RolloverDue(c, u.session.value, t) then Refreshed(c, script, u, t) else u, t)
  }

  /** `poll_private_payloads` */
  function PollOnce(c: Config, script: Replies, v: View, t: int): (PollResult, View) {
    if v.session.Some? then PolledSession(c, script, v, t)
    else
      var (ok, u) := Bootstrapped(c, script, v, t);
      if ok then PolledSession(c, script, u, t) else (Raised, u)
  }

  /** Neither opening a connection nor subscribing on it raises. */
  ghost predicate Opens(transport: Transport, call: nat) {
    !transport.script(call).raises && !transport.script(call + 1).raises
  }

  /** What the session functions return; `None` stands for the exception of the transport. */
  method OpenAndSubscribe(transport: Transport) returns (receipt: Option<(nat, Option<int>)>)
    modifies transport
    ensures (receipt, transport.calls) == Opening(transport.script, old(transport.calls))
    ensures transport.calls > old(transport.calls)
    ensures old(transport.Down()) ==> receipt.None?
    ensures Opens(transport, old(transport.calls)) ==>
      && transport.calls == old(transport.calls) + 2
      && receipt.Some? && receipt.value.1 == transport.script(old(transport.calls) + 1).expiresAt
  {
    var connection := transport.calls;
    var open := transport.Call();
    if open.raises { return None; }
    var subscription := transport.Call();
    if subscription.raises { return None; }
    receipt := Some((connection, subscription.expiresAt));
  }

  method Bootstrap(c: Config, transport: Transport, t: int) returns (s: Option<Session>)
    modifies transport
    ensures (s, transport.calls) == NewSession(c, transport.script, old(transport.calls), t)
    ensures s.Some? ==> s.value.lastMessageAt.None? && s.value.state.Subscribed? && s.value.startedAt == t
    ensures transport.calls >= old(transport.calls) && (old(transport.Down()) ==> s.None?)
    ensures Opens(transport, old(transport.calls)) ==>
      && transport.calls == old(transport.calls) + 2 && s.Some?
      && var stated := transport.script(old(transport.calls) + 1).expiresAt;
         s.value.expiresAt == if stated.Some? then stated else Some(t + c.sessionTtl)
  {
    var receipt := OpenAndSubscribe(transport);
    if receipt.None? { return None; }
    var (connection, expiresAt) := receipt.value;
    s := Some(Session(Subscribed, t, Some(if expiresAt.Some? then expiresAt.value else t + c.sessionTtl), connection,
      None, None, 0));
  }

  method Refresh(c: Config, transport: Transport, before: Session, t: int) returns (s: Option<Session>)
    modifies transport
    ensures (s, transport.calls) == RenewedSession(c, transport.script, before, old(transport.calls), t)
    ensures s.Some? ==> s.value.lastMessageAt == before.lastMessageAt && s.value.lastKeepaliveAt == Some(t)
    ensures transport.calls >= old(transport.calls) && (old(transport.Down()) ==> s.None?)
    ensures s.Some? ==> s.value.reconnectAttempts == before.reconnectAttempts
  {
    var close := transport.Call();
    if close.raises { return None; }
    var receipt := OpenAndSubscribe(transport);
    if receipt.None? { return None; }
    var (connection, expiresAt) := receipt.value;
    s := Some(Session(Streaming, t, Some(if expiresAt.Some? then expiresAt.value else t + c.sessionTtl), connection,
                      before.lastMessageAt, Some(t), before.reconnectAttempts));
  }

  method Reconnect(transport: Transport, before: Session, t: int) returns (s: Option<Session>)
    modifies transport
    ensures (s, transport.calls) == ReplacedSession(transport.script, before, old(transport.calls), t)
    ensures s.Some? ==> s.value.lastMessageAt == Some(t) && s.value.startedAt == before.startedAt
    ensures transport.calls >= old(transport.calls) && (old(transport.Down()) ==> s.None?)
    ensures s.Some? ==> s.value.reconnectAttempts == before.reconnectAttempts + 1
  {
    var close := transport.Call();
    if close.raises { return None; }
    var receipt := OpenAndSubscribe(transport);
    if receipt.None? { return None; }
    var (connection, expiresAt) := receipt.value;
    s := Some(Session(Streaming, before.startedAt, if expiresAt.Some? then expiresAt else before.expiresAt, connection,
                      Some(t), before.lastKeepaliveAt, before.reconnectAttempts + 1));
  }

  ghost predicate Reads(transport: Transport, call: nat) {
    !transport.script(call).timesOut && !transport.script(call).raises
  }

  // ------------------------------------------------------------ payload source

  datatype PollResult = Delivered | Nothing | StreamTerminated | Raised

  /** Any two of these times are more than `gap` apart, the later one after the earlier one. */
  ghost predicate Spaced(times: seq<int>, gap: int) {
    forall i, j :: 0 <= i < j < |times| ==> times[j] - times[i] > gap
  }

  class PayloadSource {
    const config: Config
    const transport: Transport
    var session: Option<Session>
    var lastHealth: Option<StreamHealth>
    var stats: Stats

    /** Time of the latest poll, and whether that poll found the heartbeat overdue. */
    ghost var lastPoll: int
    ghost var lastPollOverdue: bool
    /** Times of the polls that completed a heartbeat reconnect, and how many such attempts raised instead. */
    ghost var heartbeatReconnects: seq<int>
    ghost var raisedReconnects: nat
    /** Times of all heartbeat reconnect attempts, completed or raised. */
    ghost var attempts: seq<int>

    ghost function ReconnectGap(): int
      reads this
    {
      config.heartbeatTimeout + HEARTBEAT_RECONNECT_GRACE_WINDOW
    }

    ghost function Now(): View
      reads this, transport
    {
      View(session, lastHealth, stats, transport.calls)
    }

    ghost predicate Valid()
      reads this
    {
      && (session.Some? && session.value.lastMessageAt.Some? ==> session.value.lastMessageAt.value <= lastPoll)
      && (stats.heartbeatOverdueStreak > 0 ==>
            && session.Some?
            && (Expired(session.value, lastPoll) || (lastPollOverdue && Silent(config, session.value, lastPoll))))
      && Spaced(heartbeatReconnects, ReconnectGap())
      && (forall k :: 0 <= k < |heartbeatReconnects| ==>
            && heartbeatReconnects[k] <= lastPoll
            && (session.Some? && session.value.lastMessageAt.Some? ==>
                  heartbeatReconnects[k] <= session.value.lastMessageAt.value))
      && stats.heartbeatOverdueEvents == |heartbeatReconnects| + raisedReconnects == |attempts|
      && (raisedReconnects == 0 ==> attempts == heartbeatReconnects)
    }

    constructor (config: Config, transport: Transport, now: int)
      ensures Valid() && this.config == config && this.transport == transport
      ensures session == None && lastPoll == now && heartbeatReconnects == [] == attempts && raisedReconnects == 0
      ensures stats == Stats(0, 0, 0, 0, 0, 0, None, None)
    {
      this.config, this.transport := config, transport;
      session, lastHealth := None, None;
      stats := Stats(0, 0, 0, 0, 0, 0, None, None);
      lastPoll, lastPollOverdue, heartbeatReconnects, raisedReconnects, attempts := now, false, [], 0, [];
    }

    /** `_bootstrap_new_session`; on an exception nothing changes. */
    method BootstrapNewSession(t: int) returns (ok: bool)
      modifies this`session, this`lastHealth, this`stats, transport
      ensures (ok, Now()) == Bootstrapped(config, transport.script, old(Now()), t)
      ensures ok ==>
        && session.Some? && session.value.lastMessageAt.None?
        && stats == old(stats).(heartbeatOverdueStreak := 0, bootstrapCount := old(stats).bootstrapCount + 1,
                                lastHeartbeatReconnectExecuted := None)
        && lastHealth == Some(HealthOf(config, session.value, t))
      ensures !ok ==> session == old(session) && stats == old(stats) && lastHealth == old(lastHealth)
      ensures transport.calls >= old(transport.calls) && (old(transport.Down()) ==> !ok)
      ensures Opens(transport, old(transport.calls)) ==>
        && transport.calls == old(transport.calls) + 2 && ok
        && var stated := transport.script(old(transport.calls) + 1).expiresAt;
           session.value.expiresAt == if stated.Some? then stated else Some(t + config.sessionTtl)
    {
      var s := Bootstrap(config, transport, t);
      if s.None? { return false; }
      session := s;
      stats := stats.(heartbeatOverdueStreak := 0, bootstrapCount := stats.bootstrapCount + 1,
        lastHeartbeatReconnectExecuted := None);
      lastHealth := Some(HealthOf(config, s.value, t));
      ok := true;
    }

    /** `_refresh_session`; its exceptions are absorbed and only counted. */
    method RefreshSession(t: int)
      requires session.Some?
      modifies this`session, this`lastHealth, this`stats, transport
      ensures Now() == Refreshed(config, transport.script, old(Now()), t)
      ensures session.Some? && session.value.lastMessageAt == old(session).value.lastMessageAt
      ensures stats.refreshAttempts == old(stats).refreshAttempts + 1
      ensures stats.lastRefreshSucceeded == Some(true) ==> stats.refreshFailures == old(stats).refreshFailures
      ensures stats.lastRefreshSucceeded == Some(false) ==>
        stats.refreshFailures == old(stats).refreshFailures + 1 && session == old(session)
          && lastHealth == Some(StreamHealth(Terminated, false))
      ensures stats.lastRefreshSucceeded.Some? && stats.refreshFailures >= old(stats).refreshFailures
      ensures transport.calls >= old(transport.calls)
      ensures stats == old(stats).(refreshAttempts := stats.refreshAttempts, refreshFailures := stats.refreshFailures,
                                   lastRefreshSucceeded := stats.lastRefreshSucceeded)
    {
      var attempts := stats.refreshAttempts + 1;
      var s := Refresh(config, transport, session.value, t);
      if s.Some? {
        session := s;
        stats := stats.(refreshAttempts := attempts, lastRefreshSucceeded := Some(true));
      } else {
        stats := stats.(refreshAttempts := attempts, refreshFailures := stats.refreshFailures + 1,
          lastRefreshSucceeded := Some(false));
        lastHealth := Some(StreamHealth(Terminated, false));
      }
    }

    /** `_reconnect`: resubscribe, else bootstrap afresh; raises only when both fail. */
    method ReconnectSession(t: int) returns (ok: bool)
      requires session.Some?
      modifies this`session, this`lastHealth, this`stats, transport
      ensures (ok, Now()) == Reconnected(config, transport.script, old(Now()), t)
      ensures ok ==>
        && session.Some? && (session.value.lastMessageAt == Some(t) || session.value.lastMessageAt == None)
        && stats.reconnectCount == old(stats).reconnectCount + 1 && stats.heartbeatOverdueStreak == 0
        && stats == old(stats).(reconnectCount := stats.reconnectCount, heartbeatOverdueStreak := 0,
                                bootstrapCount := stats.bootstrapCount,
                                lastHeartbeatReconnectExecuted := stats.lastHeartbeatReconnectExecuted)
      ensures !ok ==> session == old(session) && stats == old(stats)
      ensures transport.calls >= old(transport.calls) && (old(transport.Down()) ==> !ok)
    {
      var s := Reconnect(transport, session.value, t);
      if s.Some? {
        session := s;
        lastHealth := Some(HealthOf(config, s.value, t));
      } else {
        var bootstrapped := BootstrapNewSession(t);
        if !bootstrapped { return false; }
      }
      stats := stats.(reconnectCount := stats.reconnectCount + 1, heartbeatOverdueStreak := 0);
      ok := true;
    }

    /** A heartbeat reconnect that is due. */
    method AttemptReconnect(t: int) returns (proceed: bool, early: PollResult)
      requires session.Some?
      modifies this`session, this`lastHealth, this`stats, this`attempts, this`heartbeatReconnects, this`raisedReconnects
      modifies transport
      ensures var before := old(Now());
        var due := before.stats.(heartbeatOverdueEvents := before.stats.heartbeatOverdueEvents + 1,
          lastHeartbeatReconnectExecuted := Some(true));
        (proceed, Now()) == Reconnected(config, transport.script, before.(stats := due), t)
      ensures attempts == old(attempts) + [t]
      ensures stats.heartbeatOverdueEvents == old(stats).heartbeatOverdueEvents + 1
      ensures stats.refreshAttempts == old(stats).refreshAttempts && stats.refreshFailures == old(stats).refreshFailures
      ensures stats.reconnectCount >= old(stats).reconnectCount
      ensures proceed ==>
        && session.Some? && (session.value.lastMessageAt == Some(t) || session.value.lastMessageAt == None)
        && stats.heartbeatOverdueStreak == 0
        && heartbeatReconnects == old(heartbeatReconnects) + [t] && raisedReconnects == old(raisedReconnects)
      ensures !proceed ==>
        && early.Raised? && session == old(session)
        && stats.heartbeatOverdueStreak == old(stats).heartbeatOverdueStreak
        && heartbeatReconnects == old(heartbeatReconnects) && raisedReconnects == old(raisedReconnects) + 1
      ensures transport.calls >= old(transport.calls) && (old(transport.Down()) ==> !proceed)
    {
      stats := stats.(heartbeatOverdueEvents := stats.heartbeatOverdueEvents + 1,
        lastHeartbeatReconnectExecuted := Some(true));
      attempts := attempts + [t];
      proceed := ReconnectSession(t);
      early := if proceed then Nothing else Raised;
      if proceed {
        heartbeatReconnects := heartbeatReconnects + [t];
      } else {
        raisedReconnects := raisedReconnects + 1;
      }
    }

    /** The heartbeat-overdue branch of a poll; `proceed` is false when the poll ends here with `early`. */
    method OnOverdue(t: int) returns (proceed: bool, early: PollResult)
      requires Valid() && t >= lastPoll && session.Some? && Overdue(config, session.value, t)
      modifies this, transport
      ensures (if proceed then None else Some(early), Now())
        == AfterOverdue(config, transport.script, old(Now()), t)
      ensures Valid() && lastPoll == t && lastPollOverdue
      ensures proceed ==> session.Some? && stats.heartbeatOverdueStreak == 0
      ensures !proceed ==> early.Nothing? || early.Raised?
      ensures WatchEffect(old(session.value), old(stats), old(heartbeatReconnects), t, proceed, early)
      ensures ReconnectDue(config, old(session.value), old(stats.heartbeatOverdueStreak), t) ==> old(lastPollOverdue)
      ensures Attempted(old(session.value), old(stats), old(attempts), old(transport.Down()), t, proceed)
      ensures transport.calls >= old(transport.calls)
      ensures Waited(old(session), old(stats), t, proceed, early)
    {
      proceed, early := true, Nothing;
      var s := session.value;
      lastHealth := Some(StreamHealth(Degraded, false));
      lastPoll, lastPollOverdue := t, true;
      var streak := stats.heartbeatOverdueStreak + 1;
      stats := stats.(heartbeatOverdueStreak := streak, lastHeartbeatReconnectExecuted := Some(false));
      if t - s.lastMessageAt.value <= config.heartbeatTimeout + HEARTBEAT_RECONNECT_GRACE_WINDOW {
        return false, Nothing;
      }
      if streak < 2 { return false, Nothing; }
      proceed, early := AttemptReconnect(t);
    }

    /** What the watchdog does to the counters and the session, as a function of the state before. */
    ghost predicate WatchEffect(
      s: Session, before: Stats, reconnects: seq<int>, t: int, proceed: bool, early: PollResult)
      reads this
    {
      var due := ReconnectDue(config, s, before.heartbeatOverdueStreak, t);
      && heartbeatReconnects == (if due && proceed then reconnects + [t] else reconnects)
      && stats.heartbeatOverdueEvents == before.heartbeatOverdueEvents + (if due then 1 else 0)
      && (due && !proceed ==>
            early.Raised? && session == Some(s) && stats.heartbeatOverdueStreak == before.heartbeatOverdueStreak + 1)
      && stats.reconnectCount >= before.reconnectCount
      && stats.refreshAttempts == before.refreshAttempts && stats.refreshFailures == before.refreshFailures
    }

    /** A due reconnect is attempted, and raises when every further call of the transport does. */
    ghost predicate Attempted(s: Session, before: Stats, times: seq<int>, down: bool, t: int, proceed: bool)
      reads this
    {
      var due := ReconnectDue(config, s, before.heartbeatOverdueStreak, t);
      attempts == (if due then times + [t] else times) && (due && down ==> !proceed)
    }

    /** An overdue poll without a due reconnect only counts. */
    ghost predicate Waited(s: Option<Session>, before: Stats, t: int, proceed: bool, early: PollResult)
      reads this
    {
      s.Some? && Overdue(config, s.value, t) && !ReconnectDue(config, s.value, before.heartbeatOverdueStreak, t) ==>
        && !proceed && early.Nothing? && session == s
        && stats.heartbeatOverdueStreak == before.heartbeatOverdueStreak + 1
    }

    /** The watchdog part of a poll. */
    method Watch(t: int) returns (proceed: bool, early: PollResult)
      requires Valid() && t >= lastPoll && session.Some?
      modifies this, transport
      ensures (if proceed then None else Some(early), Now()) == Watched(config, transport.script, old(Now()), t)
      ensures Valid() && lastPoll == t && lastPollOverdue == Overdue(config, old(session.value), t)
      ensures proceed ==> session.Some? && stats.heartbeatOverdueStreak == 0
      ensures !proceed ==> early.Nothing? || early.Raised?
      ensures WatchEffect(old(session.value), old(stats), old(heartbeatReconnects), t, proceed, early)
      ensures ReconnectDue(config, old(session.value), old(stats.heartbeatOverdueStreak), t) ==> old(lastPollOverdue)
      ensures Attempted(old(session.value), old(stats), old(attempts), old(transport.Down()), t, proceed)
      ensures transport.calls >= old(transport.calls)
      ensures Waited(old(session), old(stats), t, proceed, early)
      ensures !Expired(old(session.value), t) && !Silent(config, old(session.value), t) ==>
        proceed && session == old(session) && transport.calls == old(transport.calls)
    {
      proceed, early := true, Nothing;
      if Expired(session.value, t) {
        lastHealth := Some(StreamHealth(Terminated, false));
        lastPoll, lastPollOverdue := t, false;
        var ok := BootstrapNewSession(t);
        if !ok { proceed, early := false, Raised; }
      } else if Silent(config, session.value, t) {
        proceed, early := OnOverdue(t);
      } else {
        lastPoll, lastPollOverdue := t, false;
      }
    }

    /** A failed read: reconnect and report the stream as terminated. */
    method OnReadFailure(t: int) returns (r: PollResult)
      requires Valid() && lastPoll == t && session.Some? && stats.heartbeatOverdueStreak == 0
      modifies this`session, this`lastHealth, this`stats, transport
      ensures var (ok, u) := Reconnected(config, transport.script, old(Now()), t);
        Now() == u && r == if ok then StreamTerminated else Raised
      ensures Valid() && r == (if stats.reconnectCount > old(stats).reconnectCount then StreamTerminated else Raised)
      ensures stats.heartbeatOverdueEvents == old(stats).heartbeatOverdueEvents
      ensures stats.reconnectCount >= old(stats).reconnectCount
      ensures stats.refreshAttempts == old(stats).refreshAttempts && stats.refreshFailures == old(stats).refreshFailures
      ensures transport.calls >= old(transport.calls)
    {
      var ok := ReconnectSession(t);
      r := if ok then StreamTerminated else Raised;
    }

    /** The read that closes a poll. */
    method ReadPayload(t: int) returns (r: PollResult)
      requires Valid() && lastPoll == t && session.Some? && stats.heartbeatOverdueStreak == 0
      modifies this`session, this`lastHealth, this`stats, transport
      ensures (r, Now()) == ReadOnce(config, transport.script, old(Now()), t)
      ensures Valid() && stats.heartbeatOverdueEvents == old(stats).heartbeatOverdueEvents
      ensures r.Delivered? ==>
        session.Some? && session.value.lastMessageAt == Some(t) && stats.heartbeatOverdueStreak == 0
      ensures stats.reconnectCount >= old(stats).reconnectCount
      ensures stats.refreshAttempts == old(stats).refreshAttempts && stats.refreshFailures == old(stats).refreshFailures
      ensures transport.calls >= old(transport.calls)
      ensures Reads(transport, old(transport.calls)) ==>
        && r.Delivered? && session.value.expiresAt == old(session).value.expiresAt
        && transport.calls == old(transport.calls) + 1
    {
      var reply := transport.Call();
      if reply.timesOut {
        lastHealth := Some(HealthOf(config, session.value, t));
        return Nothing;
      }
      if reply.raises {
        r := OnReadFailure(t);
        return;
      }
      session := Some(session.value.(state := Streaming, lastMessageAt := Some(t)));
      stats := stats.(heartbeatOverdueStreak := 0, lastHeartbeatReconnectExecuted := None);
      lastHealth := Some(HealthOf(config, session.value, t));
      return Delivered;
    }

    /** A heartbeat reconnect is attempted at this time. */
    predicate Due(t: int)
      reads this
    {
      session.Some? && ReconnectDue(config, session.value, stats.heartbeatOverdueStreak, t)
    }

    /**
     * What a poll does about the heartbeat. A due reconnect is attempted; it completes, or the poll raises and leaves
     * the session as it was. An overdue poll without a due reconnect only counts.
     */
    ghost predicate Polled(
      s: Option<Session>, before: Stats, reconnects: seq<int>, times: seq<int>, down: bool, t: int, r: PollResult)
      reads this
    {
      var due := s.Some? && ReconnectDue(config, s.value, before.heartbeatOverdueStreak, t);
      && stats.heartbeatOverdueEvents == before.heartbeatOverdueEvents + (if due then 1 else 0)
      && attempts == (if due then times + [t] else times)
      && (heartbeatReconnects == reconnects || (due && heartbeatReconnects == reconnects + [t]))
      && (due && heartbeatReconnects == reconnects ==>
            r.Raised? && session == s && stats.heartbeatOverdueStreak == before.heartbeatOverdueStreak + 1)
      && (due && down ==> r.Raised? && heartbeatReconnects == reconnects)
      && (s.Some? && Overdue(config, s.value, t) && !due ==>
            r.Nothing? && session == s && stats.heartbeatOverdueStreak == before.heartbeatOverdueStreak + 1)
    }

    ghost predicate CountersGrow(before: Stats)
      reads this
    {
      && stats.reconnectCount >= before.reconnectCount
      && stats.refreshAttempts >= before.refreshAttempts && stats.refreshFailures >= before.refreshFailures
    }

    /** At this time the session is clear of expiry, silence and rollover, and the read succeeds. */
    ghost predicate Quiet(s: Session, call: nat, t: int)
      reads this
    {
      && !Expired(s, t) && !Silent(config, s, t) && !RolloverDue(config, s, t) && Reads(transport, call)
    }

    /** A poll once there is a session. */
    method PollSession(t: int) returns (r: PollResult)
      requires Valid() && t >= lastPoll && session.Some?
      modifies this, transport
      ensures (r, Now()) == PolledSession(config, transport.script, old(Now()), t)
      ensures Valid() && lastPoll == t && transport.calls >= old(transport.calls)
      ensures old(Due(t)) ==> old(lastPollOverdue) && lastPollOverdue
      ensures Polled(
        old(session), old(stats), old(heartbeatReconnects), old(attempts), old(transport.Down()), t, r)
      ensures r.Delivered? ==>
        session.Some? && session.value.lastMessageAt == Some(t) && stats.heartbeatOverdueStreak == 0
      ensures CountersGrow(old(stats))
      ensures Quiet(old(session).value, old(transport.calls), t) ==>
        && r.Delivered? && session.Some? && session.value.expiresAt == old(session).value.expiresAt
        && transport.calls == old(transport.calls) + 1
    {
      var proceed, early := Watch(t);
      if !proceed { return early; }
      if RolloverDue(config, session.value, t) { RefreshSession(t); }
      r := ReadPayload(t);
    }

    /** The first poll opens a session that stays clear of expiry and rollover, and its read succeeds. */
    ghost predicate StartsUp(t: int, expiry: int)
      reads this, transport
    {
      && session.None? && Opens(transport, transport.calls) && Reads(transport, transport.calls + 2)
      && transport.script(transport.calls + 1).expiresAt == Some(expiry)
      && expiry > t && expiry - t > config.sessionTtl - config.rolloverWindow
    }

    /**
     * `poll_private_payloads`. With non-decreasing poll times a heartbeat reconnect needs two overdue polls in a row,
     * and completed ones stay spaced (`Valid`), whatever the transport answers.
     */
    method Poll(t: int) returns (r: PollResult)
      requires Valid() && t >= lastPoll
      modifies this, transport
      ensures (r, Now()) == PollOnce(config, transport.script, old(Now()), t)
      ensures Valid() && lastPoll == t && transport.calls >= old(transport.calls)
      ensures old(Due(t)) ==> old(lastPollOverdue) && lastPollOverdue
      ensures Polled(
        old(session), old(stats), old(heartbeatReconnects), old(attempts), old(transport.Down()), t, r)
      ensures r.Delivered? ==>
        session.Some? && session.value.lastMessageAt == Some(t) && stats.heartbeatOverdueStreak == 0
      ensures CountersGrow(old(stats))
      ensures forall expiry :: old(StartsUp(t, expiry)) ==>
        && r.Delivered? && session.Some? && session.value.expiresAt == Some(expiry)
        && transport.calls == old(transport.calls) + 3
    {
      if session.None? {
        var ok := BootstrapNewSession(t);
        if !ok {
          lastPoll, lastPollOverdue := t, false;
          return Raised;
        }
        assert !Expired(session.value, t) ==> !Due(t);
      }
      r := PollSession(t);
    }
  }

  // ------------------------------------------------------------------- bounds

  lemma {:induction false} SpacedSpan(times: seq<int>, gap: int)
    requires times != [] && gap >= 0 && Spaced(times, gap)
    ensures times[|times| - 1] - times[0] >= (|times| - 1) * gap
  {
    if |times| > 1 {
      var n := |times| - 1;
      var front := times[..n];
      SpacedSpan(front, gap);
      assert times[n] - times[n - 1] > gap;
      OneMoreGap(n, gap);
    }
  }

  lemma OneMoreGap(n: int, gap: int)
    ensures n * gap == (n - 1) * gap + gap
  {
  }

  /** Within a horizon there are at most horizon / (timeout + grace) + 1 completed heartbeat reconnects. */
  lemma ReconnectsWithin(times: seq<int>, gap: int, start: int, horizon: nat)
    requires gap > 0 && Spaced(times, gap)
    requires forall i :: 0 <= i < |times| ==> start <= times[i] <= start + horizon
    ensures |times| <= horizon / gap + 1
  {
    if times != [] {
      SpacedSpan(times, gap);
      QuotientAtLeast(|times| - 1, gap, horizon);
    }
  }

  lemma QuotientAtLeast(n: int, gap: int, horizon: int)
    requires gap > 0 && n * gap <= horizon
    ensures n <= horizon / gap
  {
    var q := horizon / gap;
    assert horizon < (q + 1) * gap;
    if n >= q + 1 { ProductGrows(n, q + 1, gap); }
  }

  lemma ProductGrows(m: int, n: int, gap: int)
    requires m >= n && gap > 0
    ensures m * gap >= n * gap
  {
  }

  ghost predicate AllBetween(times: seq<int>, first: int, last: int) {
    forall k :: 0 <= k < |times| ==> first <= times[k] <= last
  }

  /** A poll adds at most its own time to the completed heartbeat reconnects. */
  method PollBetween(source: PayloadSource, t: int, ghost first: int, ghost last: int)
    requires source.Valid() && source.lastPoll <= t && first <= t <= last
    requires AllBetween(source.heartbeatReconnects, first, last)
    modifies source, source.transport
    ensures source.Valid() && source.lastPoll == t && AllBetween(source.heartbeatReconnects, first, last)
  {
    var _ := source.Poll(t);
  }

  /**
   * Polling a fresh source at non-decreasing times within a horizon completes at most horizon / gap + 1 of them. If no
   * attempt raises, the attempts themselves are spaced.
   */
  method RunPolls(source: PayloadSource, times: seq<int>, horizon: nat)
    requires source.Valid() && source.heartbeatReconnects == [] && source.config.heartbeatTimeout >= 0
    requires times != [] ==> source.lastPoll <= times[0] && times[|times| - 1] <= times[0] + horizon
    requires forall i, j :: 0 <= i < j < |times| ==> times[i] <= times[j]
    modifies source, source.transport
    ensures source.Valid()
    ensures |source.heartbeatReconnects|
         <= horizon / (source.config.heartbeatTimeout + HEARTBEAT_RECONNECT_GRACE_WINDOW) + 1
    ensures source.stats.heartbeatOverdueEvents == |source.heartbeatReconnects| + source.raisedReconnects
    ensures source.stats.heartbeatOverdueEvents == |source.attempts|
    ensures source.raisedReconnects == 0 ==> Spaced(source.attempts, source.ReconnectGap())
  {
    ghost var start := if times == [] then 0 else times[0];
    var i := 0;
    while i < |times|
      invariant 0 <= i <= |times| && source.Valid()
      invariant i == 0 ==> source.lastPoll == old(source.lastPoll)
      invariant i > 0 ==> source.lastPoll == times[i - 1]
      invariant AllBetween(source.heartbeatReconnects, start, start + horizon)
    {
      PollBetween(source, times[i], start, start + horizon);
      i := i + 1;
    }
    ReconnectsWithin(source.heartbeatReconnects, source.ReconnectGap(), start, horizon);
  }

  // ------------------------------------------------------ attempts that raise

  /**
   * Two polls no further apart than the gap: when a reconnect is due at the first one, the second one attempts a
   * reconnect again if and only if the first attempt raised, as long as the session does not expire in between.
   */
  method RaisedReconnectRepeats(source: PayloadSource, t: int, later: int)
    returns (first: PollResult, second: PollResult, ghost raised: bool)
    requires source.Valid() && t >= source.lastPoll && source.Due(t)
    requires t <= later <= t + source.ReconnectGap() && !Expired(source.session.value, later)
    modifies source, source.transport
    ensures source.Valid()
    ensures raised ==> first.Raised? && source.raisedReconnects > old(source.raisedReconnects)
    ensures !raised ==> source.raisedReconnects == old(source.raisedReconnects)
    ensures source.attempts == old(source.attempts) + (if raised then [t, later] else [t])
    ensures old(source.transport.Down()) ==>
      raised && second.Raised? && source.heartbeatReconnects == old(source.heartbeatReconnects)
  {
    first := source.Poll(t);
    raised := source.heartbeatReconnects == old(source.heartbeatReconnects);
    assert !raised ==> source.heartbeatReconnects[|old(source.heartbeatReconnects)|] == t;
    assert raised <==> source.Due(later);
    second := source.Poll(later);
    assert old(source.attempts) + [t] + [later] == old(source.attempts) + [t, later];
  }

  /** When every call but the first `n` raises. */
  function UpFor(n: nat, expiry: int): nat -> TransportReply {
    (k: nat) => TransportReply(k >= n, false, Some(expiry))
  }

  /**
   * A transport that goes down for good after the first message: from the second overdue poll on every poll attempts a
   * reconnect, one microsecond after the other, and raises.
   */
  method RaiseTwice(config: Config, start: int)
    returns (source: PayloadSource, first: PollResult, second: PollResult)
    requires config.heartbeatTimeout >= 0
    ensures source.Valid() && first.Raised? && second.Raised? && source.heartbeatReconnects == []
    ensures |source.attempts| == 2 && source.attempts[1] == source.attempts[0] + 1
  {
    var gap := config.heartbeatTimeout + HEARTBEAT_RECONNECT_GRACE_WINDOW;
    var expiry := start + 2 * gap + AtLeastZero(config.sessionTtl - config.rolloverWindow);
    var transport := new Transport(UpFor(3, expiry));
    source := new PayloadSource(config, transport, start);
    assert source.StartsUp(start, expiry);
    var _ := source.Poll(start);
    assert transport.Down();
    var _ := source.Poll(start + gap + 1);
    ghost var raised;
    first, second, raised := RaisedReconnectRepeats(source, start + gap + 2, start + gap + 3);
  }
}
