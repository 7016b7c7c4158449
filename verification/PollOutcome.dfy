/** What one poll of the private stream does, case by case, for every transport. */
module PollOutcome {
  import opened Collections
  import opened PrivateStreamSession

  /** Opening a connection and subscribing on it succeed, from this call on. */
  ghost predicate CanOpen(script: Replies, call: nat) {
    !script(call).raises && !script(call + 1).raises
  }

  /** Closing the connection, opening another one and subscribing on it succeed, from this call on. */
  ghost predicate CanReopen(script: Replies, call: nat) {
    !script(call).raises && CanOpen(script, call + 1)
  }

  /** The call after the one that failed when reopening. */
  ghost function AfterFailure(script: Replies, call: nat): nat {
    if script(call).raises then call + 1 else if script(call + 1).raises then call + 2 else call + 3
  }

  ghost predicate HasExpired(s: Session, t: int) {
    s.expiresAt.Some? && s.expiresAt.value <= t
  }

  /** No message for longer than the heartbeat allows; a session without any message is never silent. */
  ghost predicate IsSilent(c: Config, s: Session, t: int) {
    s.lastMessageAt.Some? && s.lastMessageAt.value + c.heartbeatTimeout < t
  }

  /** No more time is left than the rollover window leaves of a full session. */
  ghost predicate NearsExpiry(c: Config, s: Session, t: int) {
    s.expiresAt.Some? && s.expiresAt.value - t <= c.sessionTtl - c.rolloverWindow
  }

  /** The poll before already found the session silent, and the silence exceeds the timeout by more than 30 s. */
  ghost predicate MustReconnect(c: Config, v: View, t: int) {
    && v.session.Some? && !HasExpired(v.session.value, t)
    && v.session.value.lastMessageAt.Some?
    && t - v.session.value.lastMessageAt.value > c.heartbeatTimeout + 30_000_000
    && t - v.session.value.lastMessageAt.value > c.heartbeatTimeout
    && v.stats.heartbeatOverdueStreak >= 1
  }

  lemma DueExactly(c: Config, v: View, t: int)
    ensures v.session.Some? && ReconnectDue(c, v.session.value, v.stats.heartbeatOverdueStreak, t)
       <==> MustReconnect(c, v, t)
  {
  }

  /** Health as reported after a poll: terminated, degraded when silent, else authoritative exactly while streaming. */
  lemma HealthExactly(c: Config, s: Session, t: int)
    ensures var h := HealthOf(c, s, t);
      && (h.authoritative <==> s.state.Streaming? && !HasExpired(s, t) && !IsSilent(c, s, t))
      && h.state == if s.state.Terminated? || HasExpired(s, t) then Terminated
                    else if IsSilent(c, s, t) then Degraded else s.state
  {
  }

  /** What a reconnection leaves: the session on a new connection, else a new session, else everything as it was. */
  ghost predicate Reestablished(
    c: Config, script: Replies, before: View, call: nat, t: int, ok: bool, after: View)
    requires before.session.Some?
  {
    var s, retry := before.session.value, AfterFailure(script, call);
    if CanReopen(script, call) then
      && ok && after.calls == call + 3 && after.session.Some?
      && after.session.value.startedAt == s.startedAt && after.session.value.lastMessageAt == Some(t)
      && after.session.value.state.Streaming? && after.session.value.connection == call + 1
      && after.session.value.reconnectAttempts == s.reconnectAttempts + 1
      && after.session.value.expiresAt
           == (if script(call + 2).expiresAt.Some? then script(call + 2).expiresAt else s.expiresAt)
      && after.stats.reconnectCount == before.stats.reconnectCount + 1
      && after.stats.bootstrapCount == before.stats.bootstrapCount && after.stats.heartbeatOverdueStreak == 0
    else if CanOpen(script, retry) then
      && ok && IsNewSession(c, script, retry, t, after)
      && after.stats.reconnectCount == before.stats.reconnectCount + 1
      && after.stats.bootstrapCount == before.stats.bootstrapCount + 1 && after.stats.heartbeatOverdueStreak == 0
    else !ok && after.session == before.session && after.stats == before.stats
  }

  /** A session that was opened and subscribed by these two calls. */
  ghost predicate IsNewSession(c: Config, script: Replies, call: nat, t: int, after: View) {
    && after.calls == call + 2 && after.session.Some?
    && after.session.value.startedAt == t && after.session.value.lastMessageAt.None?
    && after.session.value.state.Subscribed? && after.session.value.connection == call
    && after.session.value.reconnectAttempts == 0
    && after.session.value.expiresAt
         == Some(if script(call + 1).expiresAt.Some? then script(call + 1).expiresAt.value else t + c.sessionTtl)
  }

  lemma ReconnectsExactly(c: Config, script: Replies, v: View, t: int)
    requires v.session.Some?
    ensures var (ok, u) := Reconnected(c, script, v, t); Reestablished(c, script, v, v.calls, t, ok, u)
  {
  }

  /** Opening and subscribing either leave a new session, counted once, or nothing but the spent calls. */
  lemma BootstrapsExactly(c: Config, script: Replies, v: View, t: int)
    ensures var (ok, u) := Bootstrapped(c, script, v, t);
      && (ok <==> CanOpen(script, v.calls))
      && (ok ==>
            && IsNewSession(c, script, v.calls, t, u)
            && u.stats == v.stats.(heartbeatOverdueStreak := 0, bootstrapCount := v.stats.bootstrapCount + 1,
                                   lastHeartbeatReconnectExecuted := None))
      && (!ok ==> u.session == v.session && u.stats == v.stats && u.health == v.health)
  {
  }

  /**
   * A read that times out changes nothing but the health; a read that raises reconnects and reports the termination, or
   * raises itself; any other read is delivered and makes the session stream.
   */
  ghost predicate ReadOutcome(c: Config, script: Replies, before: View, t: int, r: PollResult, after: View)
    requires before.session.Some?
  {
    var reply, s := script(before.calls), before.session.value;
    if reply.timesOut then
      && r.Nothing? && after.calls == before.calls + 1 && after.session == before.session && after.stats == before.stats
      && after.health == Some(HealthOf(c, s, t))
    else if reply.raises then
      && (r.StreamTerminated? || r.Raised?)
      && Reestablished(c, script, before.(stats := before.stats.(heartbeatOverdueStreak := 0)), before.calls + 1, t,
           r.StreamTerminated?, after)
    else
      && r.Delivered? && after.calls == before.calls + 1
      && after.session == Some(s.(state := Streaming, lastMessageAt := Some(t)))
      && after.stats == before.stats.(heartbeatOverdueStreak := 0, lastHeartbeatReconnectExecuted := None)
      && after.health == Some(HealthOf(c, after.session.value, t))
  }

  lemma RaisedRead(c: Config, script: Replies, v: View, t: int)
    requires v.session.Some? && script(v.calls).raises && !script(v.calls).timesOut
    ensures var (r, u) := ReadOnce(c, script, v, t);
      && (r.StreamTerminated? || r.Raised?)
      && Reestablished(c, script, v.(stats := v.stats.(heartbeatOverdueStreak := 0)), v.calls + 1, t,
           r.StreamTerminated?, u)
  {
    var before := v.(calls := v.calls + 1, stats := v.stats.(heartbeatOverdueStreak := 0));
    ReconnectsExactly(c, script, before, t);
    var (ok, u) := Reconnected(c, script, before, t);
    assert ReadOnce(c, script, v, t) == (if ok then StreamTerminated else Raised, u);
  }

  lemma ReadsExactly(c: Config, script: Replies, v: View, t: int)
    requires v.session.Some?
    ensures var (r, u) := ReadOnce(c, script, v, t); ReadOutcome(c, script, v, t, r, u)
  {
    if script(v.calls).raises && !script(v.calls).timesOut { RaisedRead(c, script, v, t); }
  }

  /** A renewal replaces the session when all its calls succeed; otherwise it counts a failure and keeps the session. */
  ghost predicate RenewalOutcome(c: Config, script: Replies, before: View, t: int, after: View)
    requires before.session.Some?
  {
    var s, call := before.session.value, before.calls;
    && after.stats.refreshAttempts == before.stats.refreshAttempts + 1
    && after.stats.lastRefreshSucceeded == Some(CanReopen(script, call))
    && after.stats.reconnectCount == before.stats.reconnectCount
    && if CanReopen(script, call) then
         && after.calls == call + 3 && after.stats.refreshFailures == before.stats.refreshFailures
         && after.session == Some(s.(
              state := Streaming, startedAt := t, connection := call + 1, lastKeepaliveAt := Some(t),
              expiresAt := Some(if script(call + 2).expiresAt.Some? then script(call + 2).expiresAt.value
                                else t + c.sessionTtl)))
         && after.health == before.health
       else
         && after.calls == AfterFailure(script, call) && after.session == before.session
         && after.stats.refreshFailures == before.stats.refreshFailures + 1
         && after.health == Some(StreamHealth(Terminated, false))
  }

  lemma RenewsExactly(c: Config, script: Replies, v: View, t: int)
    requires v.session.Some?
    ensures RenewalOutcome(c, script, v, t, Refreshed(c, script, v, t))
  {
  }

  /** After the watchdog a session that nears its expiry is renewed, and in any case the poll reads. */
  ghost predicate ReadsOn(c: Config, script: Replies, watched: View, t: int, r: PollResult, after: View) {
    && watched.session.Some?
    && if NearsExpiry(c, watched.session.value, t) then
         exists renewed: View :: renewed.session.Some? && RenewalOutcome(c, script, watched, t, renewed)
           && ReadOutcome(c, script, renewed, t, r, after)
       else ReadOutcome(c, script, watched, t, r, after)
  }

  lemma ReadsOnExactly(c: Config, script: Replies, u: View, t: int)
    requires u.session.Some?
    ensures var (r, after) :=
        ReadOnce(c, script, if RolloverDue(c, u.session.value, t) then Refreshed(c, script, u, t) else u, t);
      ReadsOn(c, script, u, t, r, after)
  {
    if RolloverDue(c, u.session.value, t) {
      RenewsExactly(c, script, u, t);
      ReadsExactly(c, script, Refreshed(c, script, u, t), t);
    } else {
      ReadsExactly(c, script, u, t);
    }
  }

  /** A session that has not expired and is not silent is read, after a renewal if it nears its expiry. */
  lemma QuietPoll(c: Config, script: Replies, v: View, t: int)
    requires v.session.Some? && !HasExpired(v.session.value, t) && !IsSilent(c, v.session.value, t)
    ensures var (r, after) := PollOnce(c, script, v, t); ReadsOn(c, script, v, t, r, after)
  {
    ReadsOnExactly(c, script, v, t);
  }

  /** Without a session the poll opens one and goes on as with that, or raises. */
  lemma FirstPoll(c: Config, script: Replies, v: View, t: int)
    requires v.session.None?
    ensures var (r, after) := PollOnce(c, script, v, t);
      if CanOpen(script, v.calls) then
        exists u: View :: IsNewSession(c, script, v.calls, t, u)
          && u.stats.bootstrapCount == v.stats.bootstrapCount + 1 && (r, after) == PollOnce(c, script, u, t)
      else r.Raised? && after.session.None? && after.stats == v.stats
  {
    BootstrapsExactly(c, script, v, t);
  }

  /** With an expired session the poll opens a new one and reads on it, or raises and keeps the expired one. */
  lemma ExpiredPoll(c: Config, script: Replies, v: View, t: int)
    requires v.session.Some? && HasExpired(v.session.value, t)
    ensures var (r, after) := PollOnce(c, script, v, t);
      if CanOpen(script, v.calls) then
        exists u: View :: IsNewSession(c, script, v.calls, t, u)
          && u.stats.bootstrapCount == v.stats.bootstrapCount + 1 && ReadsOn(c, script, u, t, r, after)
      else
        r.Raised? && after.session == v.session && after.stats == v.stats
          && after.health == Some(StreamHealth(Terminated, false))
  {
    var before := v.(health := Some(StreamHealth(Terminated, false)));
    BootstrapsExactly(c, script, before, t);
    var (ok, u) := Bootstrapped(c, script, before, t);
    if ok { ReadsOnExactly(c, script, u, t); }
  }

  /**
   * A silent session: a reconnection that must be attempted is, and the poll reads on it or raises; otherwise the poll
   * only counts the silence.
   */
  lemma SilentPoll(c: Config, script: Replies, v: View, t: int)
    requires v.session.Some? && !HasExpired(v.session.value, t) && IsSilent(c, v.session.value, t)
    ensures var (r, after) := PollOnce(c, script, v, t);
      if MustReconnect(c, v, t) then
        exists ok, u: View :: Reestablished(c, script, Counted(v), v.calls, t, ok, u)
          && if ok then ReadsOn(c, script, u, t, r, after) else r.Raised? && after == u
      else
        && r.Nothing? && after.calls == v.calls && after.session == v.session
        && after.health == Some(StreamHealth(Degraded, false))
        && after.stats == v.stats.(heartbeatOverdueStreak := v.stats.heartbeatOverdueStreak + 1,
                                   lastHeartbeatReconnectExecuted := Some(false))
  {
    var (early, u) := AfterOverdue(c, script, v, t);
    if MustReconnect(c, v, t) {
      var counted := Counted(v).(health := Some(StreamHealth(Degraded, false)));
      ReconnectsExactly(c, script, counted, t);
      assert Reestablished(c, script, Counted(v), v.calls, t, early.None?, u);
      if early.None? { ReadsOnExactly(c, script, u, t); }
    }
  }

  /** The counters when a heartbeat reconnect is attempted. */
  ghost function Counted(v: View): View {
    v.(stats := v.stats.(heartbeatOverdueStreak := v.stats.heartbeatOverdueStreak + 1,
                         heartbeatOverdueEvents := v.stats.heartbeatOverdueEvents + 1,
                         lastHeartbeatReconnectExecuted := Some(true)))
  }
}
