/** The two sides of a book and which of two prices is better on each. */
module Sides {
  datatype BookSide = Bid | Ask

  predicate Beats(side: BookSide, p: real, q: real) {
    match side
    case Bid => p > q
    case Ask => p < q
  }
}
