/**
  Python's stable `sorted` and the place it gives an element: the number of
  elements that must come before it.
 */
module StableSort {

  /** A total preorder on a list's elements, kept as a value. */
  ghost predicate TotalPreorder<T(!new)>(leq: (T, T) -> bool) {
    && (forall a, b :: leq(a, b) || leq(b, a))
    && (forall a, b, c :: leq(a, b) && leq(b, c) ==> leq(a, c))
  }

  /** Puts `x` behind every element not greater than it. */
  function Insert<T>(leq: (T, T) -> bool, s: seq<T>, x: T): seq<T> {
    if s == [] then [x]
    else if leq(s[0], x) then [s[0]] + Insert(leq, s[1..], x)
    else [x] + s
  }

  function Sorted<T>(leq: (T, T) -> bool, s: seq<T>): seq<T> {
    if s == [] then [] else Insert(leq, Sorted(leq, s[..|s| - 1]), s[|s| - 1])
  }

  ghost predicate InOrder<T>(leq: (T, T) -> bool, s: seq<T>) {
    forall i, j :: 0 <= i < j < |s| ==> leq(s[i], s[j])
  }

  /** How many elements of `s` are not greater than `x`. */
  function NotGreater<T>(leq: (T, T) -> bool, s: seq<T>, x: T): nat {
    if s == [] then 0 else NotGreater(leq, s[..|s| - 1], x) + if leq(s[|s| - 1], x) then 1 else 0
  }

  /** How many elements of `s` are strictly less than `x`. */
  function Less<T>(leq: (T, T) -> bool, s: seq<T>, x: T): nat {
    if s == [] then 0
    else Less(leq, s[..|s| - 1], x) + if leq(s[|s| - 1], x) && !leq(x, s[|s| - 1]) then 1 else 0
  }

  /** The elements that come before the one at `i`: those not greater before it, those less behind it. */
  function Rank<T>(leq: (T, T) -> bool, s: seq<T>, i: nat): nat
    requires i < |s|
  {
    NotGreater(leq, s[..i], s[i]) + Less(leq, s[i + 1..], s[i])
  }

  lemma {:induction false} NotGreaterConcat<T>(leq: (T, T) -> bool, a: seq<T>, b: seq<T>, x: T)
    ensures NotGreater(leq, a + b, x) == NotGreater(leq, a, x) + NotGreater(leq, b, x)
  {
    if b == [] {
      assert a + b == a;
    } else {
      assert (a + b)[..|a + b| - 1] == a + b[..|b| - 1];
      NotGreaterConcat(leq, a, b[..|b| - 1], x);
    }
  }

  lemma {:induction false} InsertSplits<T>(leq: (T, T) -> bool, s: seq<T>, x: T) returns (p: nat)
    ensures p <= |s| && Insert(leq, s, x) == s[..p] + [x] + s[p..]
    ensures forall j :: 0 <= j < p ==> leq(s[j], x)
    ensures p < |s| ==> !leq(s[p], x)
  {
    if s == [] || !leq(s[0], x) {
      p := 0;
      assert s[..0] == [] && s[0..] == s;
    } else {
      var q := InsertSplits(leq, s[1..], x);
      p := q + 1;
      assert s[..p] == [s[0]] + s[1..][..q] && s[p..] == s[1..][q..];
    }
  }

  lemma NotGreaterInsert<T>(leq: (T, T) -> bool, s: seq<T>, y: T, x: T)
    ensures NotGreater(leq, Insert(leq, s, y), x) == NotGreater(leq, s, x) + if leq(y, x) then 1 else 0
  {
    var p := InsertSplits(leq, s, y);
    assert s == s[..p] + s[p..];
    NotGreaterConcat(leq, s[..p], s[p..], x);
    NotGreaterConcat(leq, s[..p] + [y], s[p..], x);
    NotGreaterConcat(leq, s[..p], [y], x);
    assert [y][..0] == [];
    assert NotGreater(leq, [y], x) == if leq(y, x) then 1 else 0;
  }

  lemma {:induction false} SortedCounts<T>(leq: (T, T) -> bool, s: seq<T>, x: T)
    ensures NotGreater(leq, Sorted(leq, s), x) == NotGreater(leq, s, x)
  {
    if s != [] {
      SortedCounts(leq, s[..|s| - 1], x);
      NotGreaterInsert(leq, Sorted(leq, s[..|s| - 1]), s[|s| - 1], x);
    }
  }

  /** In an ordered list the insertion point separates the elements not greater from the others. */
  lemma InsertPoint<T(!new)>(leq: (T, T) -> bool, s: seq<T>, x: T) returns (p: nat)
    requires TotalPreorder(leq) && InOrder(leq, s)
    ensures p <= |s| && Insert(leq, s, x) == s[..p] + [x] + s[p..]
    ensures forall j :: 0 <= j < p ==> leq(s[j], x)
    ensures forall j :: p <= j < |s| ==> !leq(s[j], x)
    ensures p == NotGreater(leq, s, x)
    ensures InOrder(leq, Insert(leq, s, x))
  {
    p := InsertSplits(leq, s, x);
    forall j | p <= j < |s| ensures !leq(s[j], x) {
      assert j > p ==> leq(s[p], s[j]);
    }
    PrefixCount(leq, s, x, p);
    InsertedInOrder(leq, s, x, p);
  }

  lemma InsertedInOrder<T(!new)>(leq: (T, T) -> bool, s: seq<T>, x: T, p: nat)
    requires TotalPreorder(leq) && InOrder(leq, s) && p <= |s|
    requires forall j :: 0 <= j < p ==> leq(s[j], x)
    requires forall j :: p <= j < |s| ==> !leq(s[j], x)
    ensures InOrder(leq, s[..p] + [x] + s[p..])
  {
    var t := s[..p] + [x] + s[p..];
    forall i, j | 0 <= i < j < |t| ensures leq(t[i], t[j]) {
      var u, v := t[i], t[j];
      assert u == if i < p then s[i] else if i == p then x else s[i - 1];
      assert v == if j < p then s[j] else if j == p then x else s[j - 1];
    }
  }

  lemma {:induction false} PrefixCount<T>(leq: (T, T) -> bool, s: seq<T>, x: T, p: nat)
    requires p <= |s|
    requires forall j :: 0 <= j < p ==> leq(s[j], x)
    requires forall j :: p <= j < |s| ==> !leq(s[j], x)
    ensures NotGreater(leq, s, x) == p
  {
    if s != [] {
      PrefixCount(leq, s[..|s| - 1], x, if p == |s| then p - 1 else p);
    }
  }

  lemma {:induction false} SortedInOrder<T(!new)>(leq: (T, T) -> bool, s: seq<T>)
    requires TotalPreorder(leq)
    ensures InOrder(leq, Sorted(leq, s)) && |Sorted(leq, s)| == |s|
  {
    if s != [] {
      SortedInOrder(leq, s[..|s| - 1]);
      var p := InsertPoint(leq, Sorted(leq, s[..|s| - 1]), s[|s| - 1]);
    }
  }

  lemma RankOfLast<T>(leq: (T, T) -> bool, s: seq<T>)
    requires s != []
    ensures Rank(leq, s, |s| - 1) == NotGreater(leq, s[..|s| - 1], s[|s| - 1])
  {}

  lemma RankWithLast<T>(leq: (T, T) -> bool, s: seq<T>, i: nat)
    requires i < |s| - 1
    ensures var front, x := s[..|s| - 1], s[|s| - 1];
      Rank(leq, s, i) == Rank(leq, front, i) + if leq(x, s[i]) && !leq(s[i], x) then 1 else 0
  {
    var front := s[..|s| - 1];
    assert front[..i] == s[..i] && s[i + 1..][..|s[i + 1..]| - 1] == front[i + 1..];
  }

  /** Where the elements of an ordered list go when one more is inserted behind those not greater. */
  lemma InsertShifts<T(!new)>(leq: (T, T) -> bool, t: seq<T>, x: T, r: nat) returns (p: nat)
    requires TotalPreorder(leq) && InOrder(leq, t)
    ensures p == NotGreater(leq, t, x) && p < |Insert(leq, t, x)| && Insert(leq, t, x)[p] == x
    ensures r < |t| ==> var q := r + (if leq(x, t[r]) && !leq(t[r], x) then 1 else 0);
      q < |Insert(leq, t, x)| && Insert(leq, t, x)[q] == t[r] && (q <= r <==> r < p)
  {
    p := InsertPoint(leq, t, x);
    if r < |t| {
      assert leq(t[r], x) <==> r < p;
    }
  }

  /** The sorted list holds each element at its rank. */
  lemma {:induction false} RankPlaces<T(!new)>(leq: (T, T) -> bool, s: seq<T>, i: nat)
    requires TotalPreorder(leq) && i < |s|
    ensures Rank(leq, s, i) < |Sorted(leq, s)| && Sorted(leq, s)[Rank(leq, s, i)] == s[i]
  {
    var front, x := s[..|s| - 1], s[|s| - 1];
    SortedInOrder(leq, front);
    SortedCounts(leq, front, x);
    if i == |s| - 1 {
      var p := InsertShifts(leq, Sorted(leq, front), x, |front|);
      RankOfLast(leq, s);
    } else {
      RankPlaces(leq, front, i);
      var p := InsertShifts(leq, Sorted(leq, front), x, Rank(leq, front, i));
      RankWithLast(leq, s, i);
    }
  }

  /** Every place of the sorted list is some element's rank. */
  lemma {:induction false} RankReaches<T(!new)>(leq: (T, T) -> bool, s: seq<T>, q: nat) returns (i: nat)
    requires TotalPreorder(leq) && q < |s|
    ensures i < |s| && Rank(leq, s, i) == q
  {
    var front, x := s[..|s| - 1], s[|s| - 1];
    SortedInOrder(leq, front);
    var p := InsertPoint(leq, Sorted(leq, front), x);
    SortedCounts(leq, front, x);
    if q == p {
      i := |s| - 1;
      RankOfLast(leq, s);
    } else {
      i := RankReaches(leq, front, if q < p then q else q - 1);
      RankPlaces(leq, front, i);
      RankWithLast(leq, s, i);
    }
  }

  /** Sorting a list already in order changes nothing. */
  lemma {:induction false} SortedOfOrdered<T(!new)>(leq: (T, T) -> bool, s: seq<T>)
    requires TotalPreorder(leq) && InOrder(leq, s)
    ensures Sorted(leq, s) == s
  {
    if s != [] {
      var front, x := s[..|s| - 1], s[|s| - 1];
      SortedOfOrdered(leq, front);
      assert forall j :: 0 <= j < |front| ==> leq(front[j], x);
      var p := InsertPoint(leq, front, x);
      assert front[..|front|] == front;
    }
  }

  lemma RankOfTwo<T>(leq: (T, T) -> bool, a: T, b: T)
    ensures Rank(leq, [a, b], 0) == if leq(b, a) && !leq(a, b) then 1 else 0
  {
    assert [a, b][..0] == [] && [a, b][1..] == [b] && [b][..0] == [];
    assert Less(leq, [b], a) == Less(leq, [], a) + if leq(b, a) && !leq(a, b) then 1 else 0;
  }
}
