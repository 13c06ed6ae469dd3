/**
  The best `n` levels of one side, stated without the index, and the two loops
  that read them off it. A side may be known only on some prices (`Restrict`):
  what its best levels then say about the whole side is stated exactly.
 */
module TopLevels {
  import opened Sides
  import opened PriceIndex

  /** `levels` lists the `n` best prices of `m` with their sizes, best first; all of them if `m` has fewer. */
  ghost predicate IsBestN(side: BookSide, m: Sizes, n: int, levels: Levels) {
    && |levels| == (if n <= 0 then 0 else if n <= |m| then n else |m|)
    && (forall i :: 0 <= i < |levels| ==> levels[i].0 in m && m[levels[i].0] == levels[i].1)
    && (forall i, j :: 0 <= i < j < |levels| ==> Beats(side, levels[i].0, levels[j].0))
    && (forall p, i :: p in m && 0 <= i < |levels| && !ListsPrice(levels, p) ==> Beats(side, levels[i].0, p))
  }

  ghost predicate ListsPrice(levels: Levels, p: real) {
    exists k :: 0 <= k < |levels| && levels[k].0 == p
  }

  lemma {:induction false} BestNUniqueUpTo(side: BookSide, m: Sizes, n: int, a: Levels, b: Levels, k: nat)
    requires IsBestN(side, m, n, a) && IsBestN(side, m, n, b)
    requires k <= |a|
    ensures a[..k] == b[..k]
  {
    if k > 0 {
      BestNUniqueUpTo(side, m, n, a, b, k - 1);
      var i := k - 1;
      forall j | 0 <= j < i ensures a[j] == b[j] {
        assert a[..i][j] == b[..i][j];
      }
      var p, q := a[i].0, b[i].0;
      assert p == q || Beats(side, q, p);
      assert p == q || Beats(side, p, q);
      assert a[i] == b[i];
      assert a[..k] == a[..i] + [a[i]] && b[..k] == b[..i] + [b[i]];
    }
  }

  /** There is one such list, so "the best n levels" is well defined. */
  lemma BestNUnique(side: BookSide, m: Sizes, n: int, a: Levels, b: Levels)
    requires IsBestN(side, m, n, a) && IsBestN(side, m, n, b)
    ensures a == b
  {
    BestNUniqueUpTo(side, m, n, a, b, |a|);
    assert a[..|a|] == a && b[..|b|] == b;
  }

  /** The position in an ascending list of `count` prices that holds the `i`th best one. */
  function Place(side: BookSide, count: nat, i: nat): int {
    if side == Bid then count - 1 - i else i
  }

  /** Reading an index from its best end gives the best levels. */
  lemma ReadFromBestEnd(side: BookSide, book: Sizes, prices: seq<real>, n: nat, levels: Levels)
    requires Indexes(prices, book)
    requires forall i :: 0 <= i < |prices| ==> prices[i] in book
    requires |levels| == if n <= |prices| then n else |prices|
    requires forall i :: 0 <= i < |levels| ==>
      levels[i] == (prices[Place(side, |prices|, i)], book[prices[Place(side, |prices|, i)]])
    ensures IsBestN(side, book, n, levels)
  {
    IndexLength(prices, book);
    forall i | 0 <= i < |levels| ensures ListsPrice(levels, prices[Place(side, |prices|, i)]) {
      assert levels[i].0 == prices[Place(side, |prices|, i)];
    }
    forall p, i | p in book && 0 <= i < |levels| && !ListsPrice(levels, p) ensures Beats(side, levels[i].0, p) {
      assert p in PriceSet(prices);
      var k :| 0 <= k < |prices| && prices[k] == p;
      assert Place(side, |prices|, Place(side, |prices|, k)) == k;
      assert Place(side, |prices|, k) >= |levels|;
    }
  }

  lemma IndexedPricesInBook(prices: seq<real>, book: Sizes)
    requires Indexes(prices, book)
    ensures forall i :: 0 <= i < |prices| ==> prices[i] in book
  {
    forall i | 0 <= i < |prices| ensures prices[i] in book {
      assert prices[i] in PriceSet(prices);
    }
  }

  lemma {:induction false} AnIndexExists(m: Sizes) returns (prices: seq<real>)
    ensures Indexes(prices, m)
  {
    if p :| p in m {
      var rest := AnIndexExists(m - {p});
      var k := PlaceFor(rest, p);
      prices := rest[..k] + [p] + rest[k..];
      InsertKeepsAscending(rest, k, p);
      forall q ensures q in PriceSet(prices) <==> q in m {}
    } else {
      prices := [];
      EmptyIndex();
      forall q ensures q in PriceSet(prices) <==> q in m {}
    }
  }

  /** A side is empty exactly when it has no price. */
  lemma SomeKey(m: Sizes)
    ensures |m| == 0 <==> !exists p :: p in m
  {
    var prices := AnIndexExists(m);
    IndexLength(prices, m);
    forall p ensures p in m <==> p in PriceSet(prices) {}
    if prices != [] {
      assert prices[0] in PriceSet(prices);
    }
  }

  lemma {:induction false} PlaceFor(prices: seq<real>, p: real) returns (k: nat)
    requires Ascending(prices) && p !in PriceSet(prices)
    ensures k <= |prices|
    ensures forall i :: 0 <= i < k ==> prices[i] < p
    ensures forall i :: k <= i < |prices| ==> p < prices[i]
  {
    if prices == [] || prices[|prices| - 1] < p {
      k := |prices|;
    } else {
      assert prices[|prices| - 1] in PriceSet(prices);
      var front := prices[..|prices| - 1];
      assert p !in PriceSet(front) by { assert prices == front + [prices[|prices| - 1]]; }
      k := PlaceFor(front, p);
    }
  }

  lemma BestExists(side: BookSide, m: Sizes, n: int)
    ensures exists levels :: IsBestN(side, m, n, levels)
  {
    if n <= 0 {
      assert IsBestN(side, m, n, []);
    } else {
      var prices := AnIndexExists(m);
      IndexedPricesInBook(prices, m);
      var count := if n <= |prices| then n else |prices|;
      var levels := seq(count, i requires 0 <= i < count =>
        (prices[Place(side, |prices|, i)], m[prices[Place(side, |prices|, i)]]));
      ReadFromBestEnd(side, m, prices, n, levels);
    }
  }

  /** The best `n` levels as a value. */
  ghost function BestLevels(side: BookSide, m: Sizes, n: int): (levels: Levels)
    ensures IsBestN(side, m, n, levels)
  {
    BestExists(side, m, n);
    var levels :| IsBestN(side, m, n, levels);
    levels
  }

  method CopyTopBids(book: Sizes, prices: seq<real>, n: int) returns (levels: Levels)
    requires Indexes(prices, book) && Positive(book)
    ensures IsBestN(Bid, book, n, levels)
  {
    levels := [];
    if n <= 0 {
      return;
    }
    IndexedPricesInBook(prices, book);
    var start := if |prices| - n > 0 then |prices| - n else 0;
    var index := |prices| - 1;
    while index > start - 1
      invariant start - 1 <= index < |prices|
      invariant |levels| == |prices| - 1 - index
      invariant forall i :: 0 <= i < |levels| ==>
        levels[i] == (prices[Place(Bid, |prices|, i)], book[prices[Place(Bid, |prices|, i)]])
    {
      var price := prices[index];
      var size := book[price];
      if size != 0.0 {
        levels := levels + [(price, size)];
      }
      index := index - 1;
    }
    ReadFromBestEnd(Bid, book, prices, n, levels);
  }

  method CopyTopAsks(book: Sizes, prices: seq<real>, n: int) returns (levels: Levels)
    requires Indexes(prices, book) && Positive(book)
    ensures IsBestN(Ask, book, n, levels)
  {
    levels := [];
    if n <= 0 {
      return;
    }
    IndexedPricesInBook(prices, book);
    var limit := if |prices| < n then |prices| else n;
    for index := 0 to limit
      invariant |levels| == index
      invariant forall i :: 0 <= i < |levels| ==>
        levels[i] == (prices[Place(Ask, |prices|, i)], book[prices[Place(Ask, |prices|, i)]])
    {
      var price := prices[index];
      var size := book[price];
      if size != 0.0 {
        levels := levels + [(price, size)];
      }
    }
    ReadFromBestEnd(Ask, book, prices, n, levels);
  }

  // ---- A side known only on some prices ----

  type Prices = iset<real>

  ghost function Restrict(m: Sizes, known: Prices): (r: Sizes) {
    map p | p in m && p in known :: m[p]
  }

  /** No price of `m` outside `known` beats a listed level or would fill an empty place in the list. */
  ghost predicate NothingHidden(side: BookSide, m: Sizes, known: Prices, n: int, levels: Levels) {
    forall p :: p in m && p !in known ==>
      |levels| == (if n <= 0 then 0 else n) && forall i :: 0 <= i < |levels| ==> Beats(side, levels[i].0, p)
  }

  lemma RestrictSmaller(m: Sizes, known: Prices)
    ensures |Restrict(m, known)| <= |m|
  {
    assert Restrict(m, known).Keys <= m.Keys;
    SubsetCount(Restrict(m, known).Keys, m.Keys);
  }

  lemma {:induction false} SubsetCount<T>(a: set<T>, b: set<T>)
    requires a <= b
    ensures |a| <= |b|
    ensures |a| == |b| ==> a == b
  {
    if x :| x in a {
      SubsetCount(a - {x}, b - {x});
      assert a == (a - {x}) + {x} && b == (b - {x}) + {x};
    } else {
      assert a == {};
    }
  }

  ghost function ListedPrices(levels: Levels): set<real> {
    set i | 0 <= i < |levels| :: levels[i].0
  }

  lemma {:induction false} ListedCount(side: BookSide, levels: Levels)
    requires forall i, j :: 0 <= i < j < |levels| ==> Beats(side, levels[i].0, levels[j].0)
    ensures |ListedPrices(levels)| == |levels|
  {
    if levels == [] {
      forall p ensures p !in ListedPrices(levels) {}
    } else {
      var rest, last := levels[..|levels| - 1], levels[|levels| - 1].0;
      ListedCount(side, rest);
      forall p ensures p in ListedPrices(levels) <==> p in ListedPrices(rest) + {last} {
        if p in ListedPrices(levels) {
          var i :| 0 <= i < |levels| && levels[i].0 == p;
          if i < |rest| { assert rest[i].0 == p; }
        }
        if p in ListedPrices(rest) {
          var i :| 0 <= i < |rest| && rest[i].0 == p;
          assert levels[i].0 == p;
        }
      }
      assert ListedPrices(levels) == ListedPrices(rest) + {last};
      assert last !in ListedPrices(rest);
    }
  }

  /**
    The best levels of the known part are the best levels of the whole side
    exactly when nothing better is hidden.
   */
  lemma BestOfKnownIsBest(side: BookSide, m: Sizes, known: Prices, n: int, levels: Levels)
    requires IsBestN(side, Restrict(m, known), n, levels)
    ensures IsBestN(side, m, n, levels) <==> NothingHidden(side, m, known, n, levels)
  {
    RestrictSmaller(m, known);
    if IsBestN(side, m, n, levels) {
      forall p | p in m && p !in known
        ensures |levels| == (if n <= 0 then 0 else n)
        ensures forall i :: 0 <= i < |levels| ==> Beats(side, levels[i].0, p)
      {
        assert !ListsPrice(levels, p);
        if n > |m| {
          ListedCount(side, levels);
          assert ListedPrices(levels) <= m.Keys - {p};
          SubsetCount(ListedPrices(levels), m.Keys - {p});
        }
      }
    }
    if NothingHidden(side, m, known, n, levels) {
      if p :| p in m && p !in known {
        assert |levels| <= |Restrict(m, known)|;
      } else {
        forall p ensures p in Restrict(m, known) <==> p in m {}
        assert Restrict(m, known) == m;
      }
    }
  }
}
