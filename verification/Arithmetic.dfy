/** Lengths of time in microseconds, and the smaller and the larger of two numbers. */
module Arithmetic {
  const SECOND := 1_000_000
  const MINUTE := 60_000_000

  function Min(a: int, b: int): int { if a < b then a else b }
  function Max(a: int, b: int): int { if a > b then a else b }
}
