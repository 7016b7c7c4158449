/** Attempt numbers survive replay: what `register_lookup_results` keeps for every sequence of lookups. */
module ReplaySafety {
  import opened Collections
  import opened Recovery
  import opened ReconciliationStore

  /** Fingerprints are unique and the attempts at each field and value carry the numbers 1, 2, 3, ... in order. */
  ghost predicate Numbered(attempts: seq<Attempt>) {
    && (forall i, j :: 0 <= i < j < |attempts| ==> attempts[i].fingerprint != attempts[j].fingerprint)
    && (forall i :: 0 <= i < |attempts| ==>
          attempts[i].number == 1 + Recorded(attempts[..i], attempts[i].field, attempts[i].value))
  }

  lemma NumberedPrefix(attempts: seq<Attempt>, n: nat)
    requires Numbered(attempts) && n <= |attempts|
    ensures Numbered(attempts[..n])
  {
    forall i | 0 <= i < n ensures attempts[..n][..i] == attempts[..i] {}
  }

  lemma {:induction false} HighestIsCount(attempts: seq<Attempt>, field: string, value: string)
    requires Numbered(attempts)
    ensures HighestNumber(attempts, field, value) == Recorded(attempts, field, value)
  {
    if attempts != [] {
      var n := |attempts| - 1;
      NumberedPrefix(attempts, n);
      HighestIsCount(attempts[..n], field, value);
      assert attempts[n].number == 1 + Recorded(attempts[..n], attempts[n].field, attempts[n].value);
    }
  }

  lemma {:induction false} NotFoundMeansNew(attempts: seq<Attempt>, fingerprint: string)
    ensures FindAttempt(attempts, fingerprint).None? ==>
      forall i :: 0 <= i < |attempts| ==> attempts[i].fingerprint != fingerprint
  {
    if attempts != [] { NotFoundMeansNew(attempts[..|attempts| - 1], fingerprint); }
  }

  lemma NumberedAppend(attempts: seq<Attempt>, a: Attempt)
    requires Numbered(attempts) && FindAttempt(attempts, a.fingerprint).None?
    requires a.number == 1 + HighestNumber(attempts, a.field, a.value)
    ensures Numbered(attempts + [a])
  {
    NotFoundMeansNew(attempts, a.fingerprint);
    HighestIsCount(attempts, a.field, a.value);
    forall i | 0 <= i <= |attempts| ensures (attempts + [a])[..i] == attempts[..i] {}
  }

  /** Whatever is looked up, registering it keeps the numbering. */
  lemma {:induction false} RegistrationKeepsNumbering(
    attempts: seq<Attempt>, lookups: seq<Lookup>, cursor: Option<string>, at: int)
    requires Numbered(attempts)
    ensures Numbered(Registered(attempts, lookups, cursor, at).attempts)
  {
    if lookups != [] {
      var front, l := lookups[..|lookups| - 1], lookups[|lookups| - 1];
      RegistrationKeepsNumbering(attempts, front, cursor, at);
      var r := Registered(attempts, front, cursor, at);
      if FindAttempt(r.attempts, Fingerprint(l, cursor)).None? {
        NumberedAppend(r.attempts, NewAttempt(r.attempts, l, cursor, at));
      }
    }
  }

  /** A lookup is on record, and `registered` hands out the number it has there. */
  ghost predicate IsOnRecord(attempts: seq<Attempt>, lookup: Lookup, registered: Lookup, cursor: Option<string>) {
    && FindAttempt(attempts, Fingerprint(lookup, cursor)).Some?
    && registered == lookup.(attempt := FindAttempt(attempts, Fingerprint(lookup, cursor)).value.number)
  }

  lemma StaysOnRecord(attempts: seq<Attempt>, a: Attempt, lookup: Lookup, registered: Lookup, cursor: Option<string>)
    requires IsOnRecord(attempts, lookup, registered, cursor) && FindAttempt(attempts, a.fingerprint).None?
    ensures IsOnRecord(attempts + [a], lookup, registered, cursor)
  {
    AppendedAttempt(attempts, a);
  }

  ghost predicate AllOnRecord(
    attempts: seq<Attempt>, lookups: seq<Lookup>, registered: seq<Lookup>, cursor: Option<string>)
  {
    && |registered| == |lookups|
    && forall i :: 0 <= i < |lookups| ==> IsOnRecord(attempts, lookups[i], registered[i], cursor)
  }

  lemma OneMoreOnRecord(r: Registration, lookups: seq<Lookup>, l: Lookup, cursor: Option<string>, at: int)
    requires AllOnRecord(r.attempts, lookups, r.lookups, cursor)
    ensures var t := RegisterOne(r, l, cursor, at); AllOnRecord(t.attempts, lookups + [l], t.lookups, cursor)
  {
    var t, a := RegisterOne(r, l, cursor, at), NewAttempt(r.attempts, l, cursor, at);
    if FindAttempt(r.attempts, Fingerprint(l, cursor)).None? {
      AppendedAttempt(r.attempts, a);
      forall i | 0 <= i < |lookups| ensures IsOnRecord(t.attempts, lookups[i], r.lookups[i], cursor) {
        StaysOnRecord(r.attempts, a, lookups[i], r.lookups[i], cursor);
      }
    }
    assert IsOnRecord(t.attempts, l, t.lookups[|lookups|], cursor);
  }

  /** After a registration every lookup is on record under the number it was given. */
  lemma {:induction false} OnRecord(attempts: seq<Attempt>, lookups: seq<Lookup>, cursor: Option<string>, at: int)
    ensures var r := Registered(attempts, lookups, cursor, at); AllOnRecord(r.attempts, lookups, r.lookups, cursor)
  {
    if lookups != [] {
      var front, l := lookups[..|lookups| - 1], lookups[|lookups| - 1];
      OnRecord(attempts, front, cursor, at);
      OneMoreOnRecord(Registered(attempts, front, cursor, at), front, l, cursor, at);
      assert lookups == front + [l];
    }
  }

  /** Registering the same lookups under the same cursor again adds no attempt and hands out the same numbers. */
  lemma ReplayAddsNothing(attempts: seq<Attempt>, lookups: seq<Lookup>, cursor: Option<string>, at: int, later: int)
    ensures var r := Registered(attempts, lookups, cursor, at);
      Registered(r.attempts, lookups, cursor, later) == r
  {
    OnRecord(attempts, lookups, cursor, at);
    var r := Registered(attempts, lookups, cursor, at);
    ReplayKnown(r.attempts, lookups, r.lookups, cursor, later);
  }

  lemma {:induction false} ReplayKnown(
    attempts: seq<Attempt>, lookups: seq<Lookup>, registered: seq<Lookup>, cursor: Option<string>, later: int)
    requires AllOnRecord(attempts, lookups, registered, cursor)
    ensures Registered(attempts, lookups, cursor, later) == Registration(attempts, registered)
  {
    if lookups != [] {
      var n := |lookups| - 1;
      assert IsOnRecord(attempts, lookups[n], registered[n], cursor);
      ReplayKnown(attempts, lookups[..n], registered[..n], cursor, later);
      ReplayOne(attempts, registered[..n], lookups[n], registered[n], cursor, later);
      assert registered == registered[..n] + [registered[n]];
    }
  }

  lemma ReplayOne(
    attempts: seq<Attempt>, front: seq<Lookup>, lookup: Lookup, registered: Lookup, cursor: Option<string>, later: int)
    requires IsOnRecord(attempts, lookup, registered, cursor)
    ensures RegisterOne(Registration(attempts, front), lookup, cursor, later)
         == Registration(attempts, front + [registered])
  {
  }

  // -------------------------------------------------------------- fingerprints

  ghost predicate BarFree(parts: seq<string>) {
    forall i :: 0 <= i < |parts| ==> '|' !in parts[i]
  }

  lemma {:induction false} JoinInjective(a: seq<string>, b: seq<string>)
    requires |a| == |b| && BarFree(a) && BarFree(b) && Join(a) == Join(b)
    ensures a == b
  {
    if |a| == 1 {
      assert a == [a[0]] && b == [b[0]];
    } else if |a| > 1 {
      SameFirstPart(a, b);
      JoinInjective(a[1..], b[1..]);
      assert a == [a[0]] + a[1..] && b == [b[0]] + b[1..];
    }
  }

  /** Equal joins with separator-free first parts agree on the first part and on the join of the others. */
  lemma SameFirstPart(a: seq<string>, b: seq<string>)
    requires |a| == |b| > 1 && '|' !in a[0] && '|' !in b[0] && Join(a) == Join(b)
    ensures a[0] == b[0] && Join(a[1..]) == Join(b[1..])
  {
    BeforeFirstOfJoin(a[0], '|', Join(a[1..]));
    BeforeFirstOfJoin(b[0], '|', Join(b[1..]));
    assert Join(a) == a[0] + ['|'] + Join(a[1..]) && Join(b) == b[0] + ['|'] + Join(b[1..]);
    assert Join(a)[|a[0]| + 1..] == Join(a[1..]) && Join(b)[|b[0]| + 1..] == Join(b[1..]);
  }

  /** A separator-free text after the separator at |x| puts every separator at or before it. */
  lemma LastSeparator(x: string, c: string, k: nat)
    requires '|' !in c && k < |x| + 1 + |c| && (x + "|" + c)[k] == '|'
    ensures k <= |x|
  {
    var s := x + "|" + c;
    forall i | |x| < i < |s| ensures s[i] in c { assert s[i] == c[i - |x| - 1]; }
  }

  /** Texts that agree up to a separator-free last part agree before and after its separator. */
  lemma SameLastPart(x: string, y: string, c: string, d: string)
    requires '|' !in c && '|' !in d && x + "|" + c == y + "|" + d
    ensures x == y && c == d
  {
    var s := x + "|" + c;
    assert s[|x|] == '|' && s[|y|] == '|' && |s| == |x| + 1 + |c| == |y| + 1 + |d|;
    LastSeparator(x, c, |y|);
    LastSeparator(y, d, |x|);
    assert s[..|x|] == x && s[..|y|] == y && s[|x| + 1..] == c && s[|y| + 1..] == d;
  }

  /** Nothing but the alert text contains the separator. */
  ghost predicate Separable(l: Lookup, cursor: Option<string>) {
    '|' !in l.field && '|' !in l.value && '|' !in l.source && '|' !in OrEmpty(l.status) && '|' !in OrEmpty(cursor)
  }

  /** The last three parts; the alert may contain separators. */
  lemma SameTail(l: Lookup, m: Lookup, c: Option<string>, d: Option<string>)
    requires Separable(l, c) && Separable(m, d)
      && Join(FingerprintParts(l, c)[4..]) == Join(FingerprintParts(m, d)[4..])
    ensures OrEmpty(l.alert) == OrEmpty(m.alert) && l.found == m.found && OrEmpty(c) == OrEmpty(d)
  {
    var p, q := FingerprintParts(l, c)[4..], FingerprintParts(m, d)[4..];
    JoinThree(p);
    JoinThree(q);
    SameLastPart(p[0] + "|" + p[1], q[0] + "|" + q[1], p[2], q[2]);
    SameLastPart(p[0], q[0], p[1], q[1]);
    assert p[1] == q[1] && |"found"| != |"missing"|;
  }

  lemma JoinThree(p: seq<string>)
    requires |p| == 3
    ensures Join(p) == p[0] + "|" + p[1] + "|" + p[2]
  {
    assert Join(p[1..]) == p[1] + "|" + Join(p[1..][1..]) && p[1..][1..] == [p[2]];
    assert p[0] + "|" + (p[1] + "|" + p[2]) == p[0] + "|" + p[1] + "|" + p[2];
  }

  lemma SameHead(p: seq<string>, q: seq<string>, n: nat)
    requires |p| == |q| && n < |p| && Join(p) == Join(q)
    requires forall i :: 0 <= i < n ==> '|' !in p[i] && '|' !in q[i]
    ensures p[..n] == q[..n] && Join(p[n..]) == Join(q[n..])
  {
    if n > 0 {
      SameFirstPart(p, q);
      SameHead(p[1..], q[1..], n - 1);
      assert p[1..][..n - 1] == p[1..n] && q[1..][..n - 1] == q[1..n];
      assert p[..n] == [p[0]] + p[1..n] && q[..n] == [q[0]] + q[1..n];
      assert p[1..][n - 1..] == p[n..] && q[1..][n - 1..] == q[n..];
    } else {
      assert p[0..] == p && q[0..] == q;
    }
  }

  /**
   * As long as at most the alert text contains the separator, two lookups share a fingerprint exactly when they agree
   * on every part, an absent optional part counting as the empty one.
   */
  lemma FingerprintsDistinguish(l: Lookup, m: Lookup, c: Option<string>, d: Option<string>)
    requires Separable(l, c) && Separable(m, d)
    ensures Fingerprint(l, c) == Fingerprint(m, d) <==>
      && l.field == m.field && l.value == m.value && l.source == m.source
      && OrEmpty(l.status) == OrEmpty(m.status) && OrEmpty(l.alert) == OrEmpty(m.alert)
      && l.found == m.found && OrEmpty(c) == OrEmpty(d)
  {
    if Fingerprint(l, c) == Fingerprint(m, d) {
      var p, q := FingerprintParts(l, c), FingerprintParts(m, d);
      SameHead(p, q, 4);
      assert p[0] == p[..4][0] && p[1] == p[..4][1] && p[2] == p[..4][2] && p[3] == p[..4][3];
      assert q[0] == q[..4][0] && q[1] == q[..4][1] && q[2] == q[..4][2] && q[3] == q[..4][3];
      SameTail(l, m, c, d);
    }
  }

  const LOOKUP_SOURCE := "signed_rest_order_lookup"

  /** With the separator inside an id, failed lookups of different orders share a fingerprint and hence a number. */
  lemma SeparatorCollides(l: Lookup, text: string)
    requires !l.found && l.source == LOOKUP_SOURCE && l.status == None && l.alert == Some(LOOKUP_SOURCE + "||" + text)
    ensures var m := l.(value := l.value + "|" + LOOKUP_SOURCE + "|", alert := Some(text));
      m.value != l.value && Fingerprint(l, None) == Fingerprint(m, None)
  {
    var m := l.(value := l.value + "|" + LOOKUP_SOURCE + "|", alert := Some(text));
    var p, q := FingerprintParts(l, None), FingerprintParts(m, None);
    assert p[5..] == q[5..];
    JoinFive(p);
    JoinFive(q);
    Regrouped(l.value, LOOKUP_SOURCE, text, "|" + Join(p[5..]));
  }

  /** The parts after the first one. */
  function Parts(value: string, source: string, status: string, alert: string, tail: string): string {
    value + "|" + (source + "|" + (status + "|" + (alert + tail)))
  }

  lemma Regrouped(value: string, source: string, text: string, tail: string)
    ensures Parts(value, source, "", source + "||" + text, tail)
      == Parts(value + "|" + source + "|", source, "", text, tail)
  {
    var head := value + "|" + source + "|";
    assert "" + "|" + ((source + "||" + text) + tail) == "|" + source + "|" + ("|" + (text + tail));
    assert Parts(value, source, "", source + "||" + text, tail) == head + "|" + (source + "|" + ("|" + (text + tail)));
    assert "" + "|" + (text + tail) == "|" + (text + tail);
  }

  lemma JoinFrom(p: seq<string>, k: nat)
    requires k + 1 < |p|
    ensures Join(p[k..]) == p[k] + "|" + Join(p[k + 1..])
  {
    assert p[k..][1..] == p[k + 1..];
  }

  lemma JoinFive(p: seq<string>)
    requires |p| > 5
    ensures Join(p) == p[0] + "|" + Parts(p[1], p[2], p[3], p[4], "|" + Join(p[5..]))
  {
    assert p[0..] == p;
    JoinFrom(p, 0);
    JoinFrom(p, 1);
    JoinFrom(p, 2);
    JoinFrom(p, 3);
    JoinFrom(p, 4);
    assert p[4] + "|" + Join(p[5..]) == p[4] + ("|" + Join(p[5..]));
  }
}
