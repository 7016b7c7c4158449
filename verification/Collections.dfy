/** Sequence, string and summation vocabulary shared by the model. */
module Collections {

  datatype Option<+T> = None | Some(value: T)

  datatype Result<+T, +E> = Ok(value: T) | Err(error: E)

  function AtLeastZero(x: int): int { if x < 0 then 0 else x }

  ghost predicate NoDup<T(!new)>(s: seq<T>) {
    forall i, j :: 0 <= i < j < |s| ==> s[i] != s[j]
  }

  /** The keys of a Python dict built from `s`: first occurrences, in order. */
  function Distinct<T(==)>(s: seq<T>): seq<T> {
    if s == [] then []
    else
      var r := Distinct(s[..|s| - 1]);
      if s[|s| - 1] in r then r else r + [s[|s| - 1]]
  }

  lemma {:induction false} DistinctMembers<T(!new)>(s: seq<T>)
    ensures forall x :: x in Distinct(s) <==> x in s
    ensures NoDup(Distinct(s))
  {
    if s != [] {
      DistinctMembers(s[..|s| - 1]);
      assert s == s[..|s| - 1] + [s[|s| - 1]];
    }
  }

  /** Later elements never move earlier ones. */
  lemma {:induction false} DistinctGrows<T(!new)>(s: seq<T>, k: nat)
    requires k <= |s|
    ensures Distinct(s[..k]) <= Distinct(s)
  {
    if k < |s| {
      assert s[..|s| - 1][..k] == s[..k];
      DistinctGrows(s[..|s| - 1], k);
    } else {
      assert s[..k] == s;
    }
  }

  function Elements(s: seq<string>): set<string> { set x | x in s }

  /** Two duplicate-free lists with the same elements are permutations of each other. */
  lemma NoDupSameElements<T(!new)>(a: seq<T>, b: seq<T>)
    requires NoDup(a) && NoDup(b)
    requires forall x :: x in a <==> x in b
    ensures multiset(a) == multiset(b)
  {
    forall x ensures multiset(a)[x] == multiset(b)[x] {
      NoDupCount(a, x);
      NoDupCount(b, x);
    }
  }

  lemma {:induction false} NoDupCount<T(!new)>(s: seq<T>, x: T)
    requires NoDup(s)
    ensures multiset(s)[x] == if x in s then 1 else 0
  {
    if s != [] {
      var p, y := s[..|s| - 1], s[|s| - 1];
      assert s == p + [y];
      NoDupCount(p, x);
      assert y !in p;
    }
  }

  /** Total weight of a list; the order of the list is irrelevant (`SumPermuted`). */
  function Sum<T>(w: T -> real, s: seq<T>): real {
    if s == [] then 0.0 else Sum(w, s[..|s| - 1]) + w(s[|s| - 1])
  }

  lemma SumNext<T>(w: T -> real, s: seq<T>, x: T)
    ensures Sum(w, s + [x]) == Sum(w, s) + w(x)
  {
    assert (s + [x])[..|s|] == s;
  }

  lemma {:induction false} SumConcat<T>(w: T -> real, a: seq<T>, b: seq<T>)
    ensures Sum(w, a + b) == Sum(w, a) + Sum(w, b)
  {
    if b == [] {
      assert a + b == a;
    } else {
      assert (a + b)[..|a + b| - 1] == a + b[..|b| - 1];
      SumConcat(w, a, b[..|b| - 1]);
    }
  }

  lemma TailGrows<T>(s: seq<T>, x: T, n: nat)
    requires n <= |s|
    ensures (s + [x])[..n] == s[..n] && (s + [x])[n..] == s[n..] + [x]
  {
  }

  function Without<T>(s: seq<T>, i: nat): seq<T>
    requires i < |s|
  {
    s[..i] + s[i + 1..]
  }

  lemma {:induction false} SumWithout<T>(w: T -> real, s: seq<T>, i: nat)
    requires i < |s|
    ensures Sum(w, s) == Sum(w, Without(s, i)) + w(s[i])
  {
    var n := |s| - 1;
    if i == n {
      assert Without(s, i) == s[..n];
    } else {
      SumWithout(w, s[..n], i);
      assert Without(s, i) == Without(s[..n], i) + [s[n]];
      SumNext(w, Without(s[..n], i), s[n]);
    }
  }

  lemma MultisetWithout<T>(s: seq<T>, i: nat)
    requires i < |s|
    ensures multiset(Without(s, i)) == multiset(s) - multiset{s[i]}
  {
    assert s == s[..i] + [s[i]] + s[i + 1..];
  }

  lemma MultisetTail<T>(s: seq<T>)
    requires s != []
    ensures multiset(s[1..]) == multiset(s) - multiset{s[0]}
  {
    assert s == [s[0]] + s[1..];
  }

  lemma {:induction false} SumPermuted<T>(w: T -> real, a: seq<T>, b: seq<T>)
    requires multiset(a) == multiset(b)
    ensures Sum(w, a) == Sum(w, b)
  {
    if a == [] {
      assert |multiset(b)| == 0;
      assert b == [];
    } else {
      var n := |a| - 1;
      assert a[n] in multiset(b);
      var i :| 0 <= i < |b| && b[i] == a[n];
      MultisetWithout(a, n);
      MultisetWithout(b, i);
      SumPermuted(w, Without(a, n), Without(b, i));
      SumWithout(w, a, n);
      SumWithout(w, b, i);
    }
  }

  lemma {:induction false} SumNonNegative<T(!new)>(w: T -> real, s: seq<T>)
    requires forall x :: x in s ==> w(x) >= 0.0
    ensures Sum(w, s) >= 0.0
    ensures forall x :: x in s ==> w(x) <= Sum(w, s)
  {
    if s != [] {
      assert forall x :: x in s[..|s| - 1] ==> x in s;
      SumNonNegative(w, s[..|s| - 1]);
    }
  }

  // ---------------------------------------------------------------- strings

  /** Lexicographic order by code point, the order Python sorts text in. */
  predicate LexLeq(a: string, b: string) {
    a == [] || (b != [] && (a[0] < b[0] || (a[0] == b[0] && LexLeq(a[1..], b[1..]))))
  }

  lemma {:induction false} LexTotal(a: string, b: string)
    ensures LexLeq(a, b) || LexLeq(b, a)
    ensures LexLeq(a, b) && LexLeq(b, a) ==> a == b
  {
    if a != [] && b != [] {
      LexTotal(a[1..], b[1..]);
      assert a == [a[0]] + a[1..] && b == [b[0]] + b[1..];
    }
  }

  lemma {:induction false} LexTransitive(a: string, b: string, c: string)
    requires LexLeq(a, b) && LexLeq(b, c)
    ensures LexLeq(a, c)
  {
    if a != [] && a[0] == b[0] && b[0] == c[0] {
      LexTransitive(a[1..], b[1..], c[1..]);
    }
  }

  ghost predicate StrictlySorted(s: seq<string>) {
    forall i, j :: 0 <= i < j < |s| ==> LexLeq(s[i], s[j]) && s[i] != s[j]
  }

  predicate Least(m: string, s: set<string>) {
    m in s && forall x :: x in s ==> LexLeq(m, x)
  }

  /** `sorted(set)` */
  function SortedSet(s: set<string>): seq<string> {
    if s == {} then []
    else
      LeastExists(s);
      var m :| Least(m, s);
      LeastUnique(s, m);
      [m] + SortedSet(s - {m})
  }

  /** It is the strictly increasing list with exactly these elements. */
  lemma {:induction false} SortedSetFacts(s: set<string>)
    ensures forall x :: x in SortedSet(s) <==> x in s
    ensures StrictlySorted(SortedSet(s))
  {
    if s != {} {
      LeastExists(s);
      var m :| Least(m, s) && SortedSet(s) == [m] + SortedSet(s - {m});
      SortedSetFacts(s - {m});
    }
  }

  lemma {:induction false} LeastExists(s: set<string>)
    requires s != {}
    ensures exists m :: Least(m, s)
  {
    var a :| a in s;
    LexTotal(a, a);
    var rest := s - {a};
    if rest == {} {
      assert s == {a};
      assert Least(a, s);
    } else {
      LeastExists(rest);
      var m :| Least(m, rest);
      LeastOfTwo(a, m, rest);
      assert s == rest + {a};
    }
  }

  lemma LeastOfTwo(a: string, m: string, rest: set<string>)
    requires Least(m, rest)
    ensures Least(if LexLeq(a, m) then a else m, rest + {a})
  {
    LexTotal(a, m);
    LexTotal(a, a);
    forall x | x in rest ensures LexLeq(a, m) ==> LexLeq(a, x) {
      if LexLeq(a, m) { LexTransitive(a, m, x); }
    }
  }

  lemma LeastUnique(s: set<string>, m: string)
    requires Least(m, s)
    ensures forall k :: Least(k, s) ==> k == m
  {
    forall k | Least(k, s) ensures k == m {
      LexTotal(k, m);
    }
  }

  predicate OccursAt(s: string, t: string, i: nat) {
    i + |t| <= |s| && s[i..i + |t|] == t
  }

  /** `t in s` for text. */
  predicate Contains(s: string, t: string) {
    exists i: nat | i <= |s| :: OccursAt(s, t, i)
  }

  /** `s.split(c, 1)[0]`: the text before the first `c`, or all of it. */
  function BeforeFirst(s: string, c: char): string {
    if s == [] || s[0] == c then [] else [s[0]] + BeforeFirst(s[1..], c)
  }

  lemma {:induction false} BeforeFirstOfJoin(p: string, c: char, rest: string)
    requires c !in p
    ensures BeforeFirst(p + [c] + rest, c) == p
  {
    if p == [] {
      assert p + [c] + rest == [c] + rest;
    } else {
      assert (p + [c] + rest)[1..] == p[1..] + [c] + rest;
      BeforeFirstOfJoin(p[1..], c, rest);
    }
  }
}
