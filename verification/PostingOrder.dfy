/** When the order in which a batch of fills is posted decides what the ledger does. */
module PostingOrder {
  import opened Collections
  import opened Contracts
  import opened PaperLedger

  // ------------------------------------------------------ the division by zero

  /** After these fills this buy would bring its position to exactly zero, so that the new average divides by zero. */
  ghost predicate Zeroes(b: Book, before: seq<Fill>, f: Fill) {
    var k := f.instrumentId;
    f.side.Buy? && Get(b.quantity, k) + Sum(QuantityEffect(k), before) + f.quantity == 0.0
  }

  ghost predicate ZeroesAt(b: Book, fills: seq<Fill>, i: nat) {
    i < |fills| && Zeroes(b, fills[..i], fills[i])
  }

  /** A batch divides by zero exactly when one of its buys brings a position to zero after the fills before it. */
  lemma {:induction false} DividesExactly(quote: string, b: Book, fills: seq<Fill>)
    ensures PostAll(quote, b, fills).None? <==> exists i: nat :: ZeroesAt(b, fills, i)
  {
    if fills != [] {
      var front, f := fills[..|fills| - 1], fills[|fills| - 1];
      DividesExactly(quote, b, front);
      ZeroesOneMore(b, front, f);
      assert fills == front + [f];
      if PostAll(quote, b, front).Some? {
        PostedQuantity(quote, b, front, f.instrumentId);
        PostDivides(quote, PostAll(quote, b, front).value, f);
      }
    }
  }

  lemma ZeroesOneMore(b: Book, front: seq<Fill>, f: Fill)
    ensures (exists i: nat :: ZeroesAt(b, front + [f], i))
       <==> Zeroes(b, front, f) || exists i: nat :: ZeroesAt(b, front, i)
  {
    var fills := front + [f];
    forall i: nat | i < |front| ensures ZeroesAt(b, fills, i) <==> ZeroesAt(b, front, i) {
      assert fills[..i] == front[..i];
    }
    assert fills[..|front|] == front;
    assert ZeroesAt(b, fills, |front|) <==> Zeroes(b, front, f);
  }

  lemma PostDivides(quote: string, b: Book, f: Fill)
    ensures Post(quote, b, f).None? <==> f.side.Buy? && Get(b.quantity, f.instrumentId) + f.quantity == 0.0
  {
  }

  ghost predicate PostsInEveryOrder(quote: string, b: Book, fills: seq<Fill>) {
    forall other: seq<Fill> :: multiset(other) == multiset(fills) ==> PostAll(quote, b, other).Some?
  }

  /** This part of the batch and this further buy of the batch bring a position to zero. */
  ghost predicate PartZeroes(b: Book, fills: seq<Fill>, part: seq<Fill>, f: Fill) {
    multiset(part) + multiset{f} <= multiset(fills) && Zeroes(b, part, f)
  }

  /** Every posting order avoids the division exactly when no part of the batch and a further buy reach zero. */
  lemma PostsInEveryOrderExactly(quote: string, b: Book, fills: seq<Fill>)
    ensures PostsInEveryOrder(quote, b, fills) <==> !exists part, f :: PartZeroes(b, fills, part, f)
  {
    forall part, f | PartZeroes(b, fills, part, f) ensures !PostsInEveryOrder(quote, b, fills) {
      var other := PartFirst(quote, b, fills, part, f);
    }
    if other: seq<Fill> :| multiset(other) == multiset(fills) && PostAll(quote, b, other).None? {
      var part, f := PartReached(quote, b, fills, other);
    }
  }

  lemma PartFirst(quote: string, b: Book, fills: seq<Fill>, part: seq<Fill>, f: Fill) returns (other: seq<Fill>)
    requires PartZeroes(b, fills, part, f)
    ensures multiset(other) == multiset(fills) && PostAll(quote, b, other).None?
  {
    var rest := Completion(fills, part + [f]);
    other := part + [f] + rest;
    ReachedAt(b, part, f, rest);
    DividesExactly(quote, b, other);
  }

  lemma Completion<T>(whole: seq<T>, part: seq<T>) returns (rest: seq<T>)
    requires multiset(part) <= multiset(whole)
    ensures multiset(part + rest) == multiset(whole)
  {
    rest := Listed(multiset(whole) - multiset(part));
  }

  lemma ReachedAt(b: Book, part: seq<Fill>, f: Fill, rest: seq<Fill>)
    requires Zeroes(b, part, f)
    ensures ZeroesAt(b, part + [f] + rest, |part|)
  {
    var other := part + [f] + rest;
    assert other[..|part|] == part && other[|part|] == f;
  }

  lemma PartReached(quote: string, b: Book, fills: seq<Fill>, other: seq<Fill>) returns (part: seq<Fill>, f: Fill)
    requires multiset(other) == multiset(fills) && PostAll(quote, b, other).None?
    ensures PartZeroes(b, fills, part, f)
  {
    DividesExactly(quote, b, other);
    var i: nat :| ZeroesAt(b, other, i);
    part, f := other[..i], other[i];
    assert other == part + [f] + other[i + 1..];
  }

  ghost function Listed<T>(m: multiset<T>): (s: seq<T>)
    ensures multiset(s) == m
  {
    if m == multiset{} then [] else var x :| x in m; Listed(m - multiset{x}) + [x]
  }

  // --------------------------------------------- fills of different instruments

  function OfInstrument(fills: seq<Fill>, k: string): seq<Fill> {
    if fills == [] then []
    else
      var rest, f := OfInstrument(fills[..|fills| - 1], k), fills[|fills| - 1];
      if f.instrumentId == k then rest + [f] else rest
  }

  lemma {:induction false} OfInstrumentConcat(a: seq<Fill>, b: seq<Fill>, k: string)
    ensures OfInstrument(a + b, k) == OfInstrument(a, k) + OfInstrument(b, k)
  {
    if b == [] {
      assert a + b == a;
    } else {
      assert (a + b)[..|a + b| - 1] == a + b[..|b| - 1];
      OfInstrumentConcat(a, b[..|b| - 1], k);
    }
  }

  function PostNext(quote: string, b: Option<Book>, f: Fill): Option<Book> {
    match b case None => None case Some(c) => Post(quote, c, f)
  }

  /** The part of a book that posting a fill of instrument `k` reads, apart from the quote cash. */
  function Alone(b: Book, k: string): Book {
    Book(map[], map[k := Get(b.quantity, k)], map[k := Get(b.average, k)], 0.0)
  }

  /** The book after a fill whose instrument is then as in `part`. */
  function Placed(quote: string, b: Book, f: Fill, part: Book): Book {
    var k := f.instrumentId;
    Book(b.cash[quote := Get(b.cash, quote) + CashEffect(f)], b.quantity[k := Get(part.quantity, k)],
         b.average[k := Get(part.average, k)], b.realized + part.realized)
  }

  lemma PostIsLocal(quote: string, b: Book, f: Fill)
    ensures var part := Post(quote, Alone(b, f.instrumentId), f);
      Post(quote, b, f) == if part.None? then None else Some(Placed(quote, b, f, part.value))
  {
  }

  lemma PlacedCommutes(quote: string, b: Book, f: Fill, g: Fill, x: Book, y: Book)
    requires f.instrumentId != g.instrumentId
    ensures Placed(quote, Placed(quote, b, f, x), g, y) == Placed(quote, Placed(quote, b, g, y), f, x)
    ensures Alone(Placed(quote, b, f, x), g.instrumentId) == Alone(b, g.instrumentId)
  {
    PaymentsCommute(b.cash, quote, CashEffect(f), CashEffect(g));
    var j, k := f.instrumentId, g.instrumentId;
    UpdatesCommute(b.quantity, j, k, Get(x.quantity, j), Get(y.quantity, k));
    UpdatesCommute(b.average, j, k, Get(x.average, j), Get(y.average, k));
  }

  lemma PaymentsCommute(m: map<string, real>, k: string, x: real, y: real)
    ensures var one, two := m[k := Get(m, k) + x], m[k := Get(m, k) + y];
      one[k := Get(one, k) + y] == two[k := Get(two, k) + x]
  {
    assert Get(m, k) + x + y == Get(m, k) + y + x;
  }

  lemma UpdatesCommute(m: map<string, real>, j: string, k: string, x: real, y: real)
    requires j != k
    ensures m[j := x][k := y] == m[k := y][j := x]
  {
  }

  lemma PostCommutes(quote: string, b: Option<Book>, f: Fill, g: Fill)
    requires f.instrumentId != g.instrumentId
    ensures PostNext(quote, PostNext(quote, b, f), g) == PostNext(quote, PostNext(quote, b, g), f)
  {
    if b.Some? {
      var x, y := Post(quote, Alone(b.value, f.instrumentId), f), Post(quote, Alone(b.value, g.instrumentId), g);
      PostIsLocal(quote, b.value, f);
      PostIsLocal(quote, b.value, g);
      if x.Some? {
        PostIsLocal(quote, Placed(quote, b.value, f, x.value), g);
        PlacedCommutes(quote, b.value, f, g, x.value, if y.Some? then y.value else b.value);
      }
      if y.Some? {
        PostIsLocal(quote, Placed(quote, b.value, g, y.value), f);
        PlacedCommutes(quote, b.value, g, f, y.value, if x.Some? then x.value else b.value);
      }
    }
  }

  lemma PostAllNext(quote: string, b: Book, fills: seq<Fill>, f: Fill)
    ensures PostAll(quote, b, fills + [f]) == PostNext(quote, PostAll(quote, b, fills), f)
  {
    assert (fills + [f])[..|fills|] == fills;
  }

  /** A fill may be posted after fills of other instruments instead of before them. */
  lemma {:induction false} PostedLater(quote: string, b: Book, front: seq<Fill>, f: Fill, back: seq<Fill>)
    requires OfInstrument(back, f.instrumentId) == []
    ensures PostAll(quote, b, front + [f] + back) == PostAll(quote, b, front + back + [f])
  {
    if back == [] {
      assert front + [f] + back == front + back + [f];
    } else {
      var most, g := back[..|back| - 1], back[|back| - 1];
      PostedLater(quote, b, front, f, most);
      assert front + [f] + back == (front + [f] + most) + [g];
      assert front + back == (front + most) + [g];
      PostAllNext(quote, b, front + [f] + most, g);
      PostAllNext(quote, b, front + most, f);
      PostAllNext(quote, b, front + most, g);
      PostAllNext(quote, b, front + back, f);
      PostCommutes(quote, PostAll(quote, b, front + most), f, g);
    }
  }

  lemma {:induction false} LastOfInstrument(fills: seq<Fill>, k: string) returns (j: nat)
    requires OfInstrument(fills, k) != []
    ensures j < |fills| && fills[j].instrumentId == k && OfInstrument(fills[j + 1..], k) == []
    ensures OfInstrument(fills, k) == OfInstrument(fills[..j], k) + [fills[j]]
  {
    var n := |fills| - 1;
    if fills[n].instrumentId == k {
      j := n;
    } else {
      j := LastOfInstrument(fills[..n], k);
      assert fills[..n][..j] == fills[..j];
      var tail := fills[j + 1..];
      assert tail[..|tail| - 1] == fills[..n][j + 1..];
    }
  }

  /** Two batches with the same fills per instrument, each in the same sequence. */
  ghost predicate SamePerInstrument(a: seq<Fill>, b: seq<Fill>) {
    forall k :: OfInstrument(a, k) == OfInstrument(b, k)
  }

  /** They post the same book or divide by zero alike, however the instruments are interleaved. */
  lemma {:induction false} InterleavingIrrelevant(quote: string, b: Book, one: seq<Fill>, other: seq<Fill>)
    requires SamePerInstrument(one, other)
    ensures PostAll(quote, b, one) == PostAll(quote, b, other)
  {
    if one == [] {
      SomeInstrument(other);
    } else {
      var n := |one| - 1;
      var most, f := one[..n], one[n];
      assert OfInstrument(one, f.instrumentId) == OfInstrument(other, f.instrumentId);
      var j := LastOfInstrument(other, f.instrumentId);
      var front, back := other[..j], other[j + 1..];
      assert one == most + [f];
      SameLast(OfInstrument(most, f.instrumentId), f, OfInstrument(other[..j], f.instrumentId), other[j]);
      assert other == other[..j] + [other[j]] + other[j + 1..];
      assert other == front + [f] + back;
      PostedLater(quote, b, front, f, back);
      SameWithoutLast(most, f, front, back);
      InterleavingIrrelevant(quote, b, most, front + back);
      PostAllNext(quote, b, front + back, f);
    }
  }

  lemma OfInstrumentAround(front: seq<Fill>, f: Fill, back: seq<Fill>, k: string)
    ensures OfInstrument(front + [f] + back, k)
         == OfInstrument(front, k) + (if f.instrumentId == k then [f] else []) + OfInstrument(back, k)
  {
    OfInstrumentConcat(front + [f], back, k);
    assert (front + [f])[..|front|] == front;
  }

  lemma SomeInstrument(fills: seq<Fill>)
    ensures fills != [] ==> exists k :: OfInstrument(fills, k) != []
  {
    if fills != [] { assert OfInstrument(fills, fills[|fills| - 1].instrumentId) != []; }
  }

  lemma SameWithoutLast(most: seq<Fill>, f: Fill, front: seq<Fill>, back: seq<Fill>)
    requires SamePerInstrument(most + [f], front + [f] + back)
    requires OfInstrument(back, f.instrumentId) == []
    ensures SamePerInstrument(most, front + back)
  {
    forall k ensures OfInstrument(most, k) == OfInstrument(front + back, k) {
      assert OfInstrument(most + [f], k) == OfInstrument(front + [f] + back, k);
      OfInstrumentAround(most, f, [], k);
      assert most + [f] + [] == most + [f];
      OfInstrumentAround(front, f, back, k);
      OfInstrumentConcat(front, back, k);
      if f.instrumentId == k { SameLast(OfInstrument(most, k), f, OfInstrument(front, k), f); }
    }
  }

  lemma SameLast<T>(a: seq<T>, x: T, b: seq<T>, y: T)
    requires a + [x] == b + [y]
    ensures a == b && x == y
  {
    assert (a + [x])[..|a|] == a && (b + [y])[..|b|] == b;
    assert |a + [x]| == |a| + 1 && |b + [y]| == |b| + 1;
    assert (a + [x])[|a|] == x && (b + [y])[|b|] == y;
  }

  lemma {:induction false} LastPriceOfInstrument(fills: seq<Fill>, k: string)
    ensures LastPrice(fills, k) == LastPrice(OfInstrument(fills, k), k)
  {
    if fills != [] {
      LastPriceOfInstrument(fills[..|fills| - 1], k);
    }
  }

  /** The values of an update, apart from its time, and whether it raises do not depend on the interleaving either. */
  lemma InterleavedUpdates(quote: string, p: PortfolioState, one: seq<Fill>, other: seq<Fill>)
    requires SamePerInstrument(one, other)
    ensures var r, s := Applied(quote, p, one), Applied(quote, p, other);
      && (r.Ok? <==> s.Ok?)
      && (if r.Ok? then s.value == r.value.(asOf := s.value.asOf) else s == r)
  {
    InterleavingIrrelevant(quote, p.book, one, other);
    if PostAll(quote, p.book, one).Some? {
      var b := PostAll(quote, p.book, one).value;
      SameMarks(b, one, other);
      SumOverSame(Exposure(b, one), Exposure(b, other), b.quantity.Keys);
      SumOverSame(AbsExposure(b, one), AbsExposure(b, other), b.quantity.Keys);
      SumOverSame(OpenProfit(b, one), OpenProfit(b, other), b.quantity.Keys);
    }
  }

  lemma SameMarks(b: Book, one: seq<Fill>, other: seq<Fill>)
    requires SamePerInstrument(one, other)
    ensures forall k :: Exposure(b, one)(k) == Exposure(b, other)(k)
    ensures forall k :: AbsExposure(b, one)(k) == AbsExposure(b, other)(k)
    ensures forall k :: OpenProfit(b, one)(k) == OpenProfit(b, other)(k)
  {
    forall k ensures Mark(b, one, k) == Mark(b, other, k) {
      LastPriceOfInstrument(one, k);
      LastPriceOfInstrument(other, k);
      assert OfInstrument(one, k) == OfInstrument(other, k);
    }
  }
}
