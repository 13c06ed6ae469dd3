/**
  One side of an order book: a price-to-size map beside the ascending list of
  its prices. The map is the meaning; the list is the fast form that
  `bisect` keeps sorted, and best-price reads come from the list.
 */
module PriceIndex {

  type Sizes = map<real, real>
  type Levels = seq<(real, real)>

  datatype Level = Level(price: real, size: real)

  /** The size at a price, 0 where the side holds nothing. */
  function SizeAt(m: Sizes, p: real): real {
    if p in m then m[p] else 0.0
  }

  ghost predicate Positive(m: Sizes) {
    forall p :: p in m ==> p > 0.0 && m[p] > 0.0
  }

  ghost predicate Ascending(s: seq<real>) {
    forall i, j :: 0 <= i < j < |s| ==> s[i] < s[j]
  }

  function PriceSet(s: seq<real>): set<real> {
    set p | p in s
  }

  /** The list is the map's keys, each once, in ascending order. */
  ghost predicate Indexes(prices: seq<real>, m: Sizes) {
    Ascending(prices) && PriceSet(prices) == m.Keys
  }

  lemma EmptyIndex()
    ensures Indexes([], map[])
  {
    forall p ensures p !in PriceSet([]) {}
  }

  lemma PriceSetLast(s: seq<real>)
    requires s != [] && Ascending(s)
    ensures PriceSet(s[..|s| - 1]) == PriceSet(s) - {s[|s| - 1]}
    ensures forall p :: p in PriceSet(s) ==> p <= s[|s| - 1]
  {
    var rest, last := s[..|s| - 1], s[|s| - 1];
    assert s == rest + [last];
    forall p ensures p in PriceSet(rest) <==> p in PriceSet(s) - {last} {
      assert p in s <==> p in rest || p == last;
    }
  }

  lemma {:induction false} AscendingCount(s: seq<real>)
    requires Ascending(s)
    ensures |s| == |PriceSet(s)|
  {
    if s != [] {
      PriceSetLast(s);
      AscendingCount(s[..|s| - 1]);
    }
  }

  /** A valid index is never rebuilt: its length is the map's. */
  lemma IndexLength(prices: seq<real>, m: Sizes)
    requires Indexes(prices, m)
    ensures |prices| == |m|
  {
    AscendingCount(prices);
    assert |m.Keys| == |m|;
  }

  lemma InsertedPrices(prices: seq<real>, k: nat, p: real)
    requires k <= |prices|
    ensures PriceSet(prices[..k] + [p] + prices[k..]) == PriceSet(prices) + {p}
  {
    var longer := prices[..k] + [p] + prices[k..];
    assert prices == prices[..k] + prices[k..];
    forall q ensures q in PriceSet(longer) <==> q in PriceSet(prices) + {p} {
      assert q in longer <==> q in prices[..k] || q == p || q in prices[k..];
      assert q in prices <==> q in prices[..k] || q in prices[k..];
    }
  }

  lemma InsertKeepsAscending(prices: seq<real>, k: nat, p: real)
    requires Ascending(prices) && k <= |prices|
    requires forall i :: 0 <= i < k ==> prices[i] < p
    requires forall i :: k <= i < |prices| ==> p < prices[i]
    ensures Ascending(prices[..k] + [p] + prices[k..])
    ensures PriceSet(prices[..k] + [p] + prices[k..]) == PriceSet(prices) + {p}
  {
    InsertedPrices(prices, k, p);
    var longer := prices[..k] + [p] + prices[k..];
    forall i, j | 0 <= i < j < |longer| ensures longer[i] < longer[j] {
      var u, v := longer[i], longer[j];
      assert u == if i < k then prices[i] else if i == k then p else prices[i - 1];
      assert v == if j < k then prices[j] else if j == k then p else prices[j - 1];
    }
  }

  lemma RemoveKeepsIndex(prices: seq<real>, m: Sizes, k: nat)
    requires Indexes(prices, m)
    requires k < |prices|
    ensures Indexes(prices[..k] + prices[k + 1..], m - {prices[k]})
  {
    var shorter := prices[..k] + prices[k + 1..];
    assert prices == prices[..k] + [prices[k]] + prices[k + 1..];
    forall q ensures q in PriceSet(shorter) <==> q in PriceSet(prices) - {prices[k]} {
      assert q in shorter <==> q in prices[..k] || q in prices[k + 1..];
      assert q in prices <==> q in prices[..k] || q == prices[k] || q in prices[k + 1..];
      if q in prices[..k] { assert q < prices[k]; }
      if q in prices[k + 1..] { assert prices[k] < q; }
    }
    assert (m - {prices[k]}).Keys == m.Keys - {prices[k]};
  }

  /** `bisect.bisect_left`. */
  method BisectLeft(prices: seq<real>, p: real) returns (k: nat)
    requires Ascending(prices)
    ensures k <= |prices|
    ensures forall i :: 0 <= i < k ==> prices[i] < p
    ensures forall i :: k <= i < |prices| ==> p <= prices[i]
  {
    var hi := |prices|;
    k := 0;
    while k < hi
      invariant 0 <= k <= hi <= |prices|
      invariant forall i :: 0 <= i < k ==> prices[i] < p
      invariant forall i :: hi <= i < |prices| ==> p <= prices[i]
    {
      var mid := (k + hi) / 2;
      if prices[mid] < p {
        k := mid + 1;
      } else {
        hi := mid;
      }
    }
  }

  /** `bisect.insort`, which places an equal value to the right of the old ones. */
  method Insort(prices: seq<real>, p: real) returns (longer: seq<real>)
    requires Ascending(prices) && p !in PriceSet(prices)
    ensures Ascending(longer) && PriceSet(longer) == PriceSet(prices) + {p}
  {
    var lo, hi := 0, |prices|;
    while lo < hi
      invariant 0 <= lo <= hi <= |prices|
      invariant forall i :: 0 <= i < lo ==> prices[i] <= p
      invariant forall i :: hi <= i < |prices| ==> p < prices[i]
    {
      var mid := (lo + hi) / 2;
      if p < prices[mid] {
        hi := mid;
      } else {
        lo := mid + 1;
      }
    }
    longer := prices[..lo] + [p] + prices[lo..];
    forall i | 0 <= i < lo ensures prices[i] < p {
      assert prices[i] in PriceSet(prices);
    }
    InsertKeepsAscending(prices, lo, p);
  }

  /** What one parsed level does to the map: a zero size removes the price. */
  function WithLevel(m: Sizes, level: Level): Sizes {
    if level.size == 0.0 then m - {level.price} else m[level.price := level.size]
  }

  /** Levels applied left to right, so the last listing of a price wins. */
  function WithLevels(m: Sizes, levels: seq<Level>): Sizes {
    if levels == [] then m
    else WithLevel(WithLevels(m, levels[..|levels| - 1]), levels[|levels| - 1])
  }

  method ApplyLevel(book: Sizes, prices: seq<real>, level: Level) returns (book': Sizes, prices': seq<real>)
    requires Indexes(prices, book)
    ensures book' == WithLevel(book, level)
    ensures Indexes(prices', book')
  {
    book', prices' := book, prices;
    var listed := level.price in book;
    if level.size == 0.0 {
      if listed {
        book' := book - {level.price};
        var index := BisectLeft(prices, level.price);
        assert level.price in PriceSet(prices);
        if index < |prices| && prices[index] == level.price {
          RemoveKeepsIndex(prices, book, index);
          prices' := prices[..index] + prices[index + 1..];
        }
      } else {
        assert book - {level.price} == book;
      }
    } else {
      if !listed {
        prices' := Insort(prices, level.price);
      }
      book' := book[level.price := level.size];
    }
  }

  /** `sorted(keys)`. */
  method SortedPrices(keys: set<real>) returns (prices: seq<real>)
    ensures Ascending(prices) && PriceSet(prices) == keys
  {
    if p :| p in keys {
      var rest := SortedPrices(keys - {p});
      prices := Insort(rest, p);
    } else {
      prices := [];
      forall p ensures p !in keys {}
    }
  }
}
