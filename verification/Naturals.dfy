/** The smaller and the larger of two numbers. */
module Naturals {
  function Min(a: nat, b: nat): (m: nat) { if a < b then a else b }

  function Max(a: nat, b: nat): (m: nat) { if a < b then b else a }
}
