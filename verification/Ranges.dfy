/** Half-open intervals of whole instants, and the smaller and greater of two. */
module Ranges {
  datatype Span = Span(lo: int, hi: int)

  function Min(a: int, b: int): int {
    if a < b then a else b
  }

  function Max(a: int, b: int): int {
    if a > b then a else b
  }
}
