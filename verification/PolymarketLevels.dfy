/** One side of a prediction market's book: a dictionary from prices to sizes, in insertion order. */
module PolymarketLevels {
  import opened Sides
  import opened Options

  /** A parsed float: `float("nan")` is accepted by the parser. */
  datatype Size = Number(value: real) | NotANumber

  datatype PriceLevel = PriceLevel(price: real, size: Size)

  function Without(levels: seq<PriceLevel>, price: real): seq<PriceLevel> {
    if levels == [] then []
    else if levels[0].price == price then levels[1..]
    else [levels[0]] + Without(levels[1..], price)
  }

  function Stored(levels: seq<PriceLevel>, level: PriceLevel): seq<PriceLevel> {
    if levels == [] then [level]
    else if levels[0].price == level.price then [level] + levels[1..]
    else [levels[0]] + Stored(levels[1..], level)
  }

  /** `size <= 0.0`, false of a NaN. */
  predicate Removes(size: Size) {
    size.Number? && size.value <= 0.0
  }

  /** `size > 0.0`, false of a NaN. */
  predicate IsPositive(size: Size) {
    size.Number? && size.value > 0.0
  }

  function SetLevel(levels: seq<PriceLevel>, level: PriceLevel): seq<PriceLevel> {
    if Removes(level.size) then Without(levels, level.price) else Stored(levels, level)
  }

  function SizeHeldAt(levels: seq<PriceLevel>, price: real): Option<Size> {
    if levels == [] then None
    else if levels[0].price == price then Some(levels[0].size)
    else SizeHeldAt(levels[1..], price)
  }

  ghost predicate DistinctPrices(levels: seq<PriceLevel>) {
    forall i, j :: 0 <= i < j < |levels| ==> levels[i].price != levels[j].price
  }

  ghost predicate AllPositive(levels: seq<PriceLevel>) {
    forall i :: 0 <= i < |levels| ==> IsPositive(levels[i].size)
  }

  lemma {:induction false} AbsentPrice(levels: seq<PriceLevel>, price: real)
    ensures SizeHeldAt(levels, price).None? <==> forall i :: 0 <= i < |levels| ==> levels[i].price != price
  {
    if levels != [] {
      AbsentPrice(levels[1..], price);
      assert forall i :: 1 <= i < |levels| ==> levels[i] == levels[1..][i - 1];
    }
  }

  lemma {:induction false} WithoutMeans(levels: seq<PriceLevel>, price: real, at: real)
    requires DistinctPrices(levels)
    ensures SizeHeldAt(Without(levels, price), at) == if at == price then None else SizeHeldAt(levels, at)
    ensures forall i :: 0 <= i < |Without(levels, price)| ==> Without(levels, price)[i] in levels
    ensures DistinctPrices(Without(levels, price))
  {
    if levels != [] {
      if levels[0].price == price {
        AbsentPrice(levels[1..], price);
      } else {
        WithoutMeans(levels[1..], price, at);
        forall i | 0 <= i < |Without(levels[1..], price)| ensures Without(levels[1..], price)[i].price != levels[0].price {
          assert Without(levels[1..], price)[i] in levels[1..];
        }
      }
    }
  }

  lemma {:induction false} StoredMeans(levels: seq<PriceLevel>, level: PriceLevel, at: real)
    ensures SizeHeldAt(Stored(levels, level), at) == if at == level.price then Some(level.size) else SizeHeldAt(levels, at)
  {
    if levels == [] {
      assert [level][1..] == [];
    } else if levels[0].price != level.price {
      StoredMeans(levels[1..], level, at);
    }
  }

  lemma {:induction false} StoredLevels(levels: seq<PriceLevel>, level: PriceLevel)
    ensures forall x :: x in Stored(levels, level) ==> x == level || x in levels
    ensures level in Stored(levels, level)
    ensures DistinctPrices(levels) ==> DistinctPrices(Stored(levels, level))
  {
    if levels != [] && levels[0].price != level.price {
      var rest := Stored(levels[1..], level);
      StoredLevels(levels[1..], level);
      forall i | 0 <= i < |rest| && DistinctPrices(levels) ensures rest[i].price != levels[0].price {
        assert rest[i] in rest;
      }
    }
  }

  lemma StoredPositiveIff(levels: seq<PriceLevel>, level: PriceLevel)
    requires AllPositive(levels)
    ensures AllPositive(Stored(levels, level)) <==> IsPositive(level.size)
  {
    StoredLevels(levels, level);
    forall i | 0 <= i < |Stored(levels, level)| ensures Stored(levels, level)[i] in levels + [level] {
      assert Stored(levels, level)[i] in Stored(levels, level);
    }
  }

  /** Setting a level is writing or deleting one dictionary entry. */
  lemma SetLevelMeans(levels: seq<PriceLevel>, level: PriceLevel, at: real)
    requires DistinctPrices(levels)
    ensures SizeHeldAt(SetLevel(levels, level), at) ==
            if at != level.price then SizeHeldAt(levels, at) else if Removes(level.size) then None else Some(level.size)
    ensures DistinctPrices(SetLevel(levels, level))
  {
    WithoutMeans(levels, level.price, at);
    StoredMeans(levels, level, at);
    StoredLevels(levels, level);
  }

  /** A price change keeps a side positive exactly when its size is a number. */
  lemma SetLevelPositiveIff(levels: seq<PriceLevel>, level: PriceLevel)
    requires DistinctPrices(levels) && AllPositive(levels)
    ensures AllPositive(SetLevel(levels, level)) <==> level.size.Number?
  {
    WithoutMeans(levels, level.price, level.price);
    StoredPositiveIff(levels, level);
  }

  // ---- A whole side at once ----

  /** The dictionary that `_levels_to_dict` builds from parsed rows. */
  function FromRows(rows: seq<PriceLevel>): seq<PriceLevel> {
    if rows == [] then []
    else
      var before, last := FromRows(rows[..|rows| - 1]), rows[|rows| - 1];
      if IsPositive(last.size) then Stored(before, last) else before
  }

  method LevelsToDict(rows: seq<PriceLevel>) returns (levels: seq<PriceLevel>)
    ensures levels == FromRows(rows)
  {
    levels := [];
    for i := 0 to |rows|
      invariant levels == FromRows(rows[..i])
    {
      assert rows[..i + 1][..i] == rows[..i];
      if IsPositive(rows[i].size) {
        levels := Stored(levels, rows[i]);
      }
    }
    assert rows[..|rows|] == rows;
  }

  /** A snapshot side holds only positive sizes. */
  lemma {:induction false} FromRowsPositive(rows: seq<PriceLevel>)
    ensures DistinctPrices(FromRows(rows)) && AllPositive(FromRows(rows))
  {
    if rows != [] {
      var front, last := rows[..|rows| - 1], rows[|rows| - 1];
      FromRowsPositive(front);
      if IsPositive(last.size) {
        StoredLevels(FromRows(front), last);
        StoredPositiveIff(FromRows(front), last);
      }
    }
  }

  /** At each price the last positive row wins, whatever follows it. */
  lemma {:induction false} LastPositiveRowWins(rows: seq<PriceLevel>, at: real) returns (i: Option<nat>)
    ensures i.Some? ==> IsLastPositive(rows, at, i.value) && SizeHeldAt(FromRows(rows), at) == Some(rows[i.value].size)
    ensures i.None? ==> SizeHeldAt(FromRows(rows), at) == None
    ensures i.None? ==> forall j :: 0 <= j < |rows| && rows[j].price == at ==> !IsPositive(rows[j].size)
  {
    if rows == [] {
      i := None;
    } else {
      var front, last := rows[..|rows| - 1], rows[|rows| - 1];
      i := LastPositiveRowWins(front, at);
      if IsPositive(last.size) {
        StoredMeans(FromRows(front), last, at);
        if last.price == at { i := Some(|rows| - 1); }
      }
    }
  }

  ghost predicate IsLastPositive(rows: seq<PriceLevel>, at: real, i: int) {
    && 0 <= i < |rows| && rows[i].price == at && IsPositive(rows[i].size)
    && forall j :: i < j < |rows| && rows[j].price == at ==> !IsPositive(rows[j].size)
  }

  // ---- The best level ----

  /** `max` of the prices for bids, `min` for asks. */
  function Best(side: BookSide, levels: seq<PriceLevel>): Option<PriceLevel> {
    if levels == [] then None
    else
      var before, last := Best(side, levels[..|levels| - 1]), levels[|levels| - 1];
      if before.None? || Beats(side, last.price, before.value.price) then Some(last) else before
  }

  function BestPrice(side: BookSide, levels: seq<PriceLevel>): Option<real> {
    if Best(side, levels).None? then None else Some(Best(side, levels).value.price)
  }

  lemma {:induction false} BestIsBest(side: BookSide, levels: seq<PriceLevel>)
    ensures Best(side, levels).None? <==> levels == []
    ensures levels != [] ==> Best(side, levels).value in levels
    ensures forall i :: 0 <= i < |levels| ==> !Beats(side, levels[i].price, Best(side, levels).value.price)
  {
    if levels != [] {
      BestIsBest(side, levels[..|levels| - 1]);
    }
  }
}
