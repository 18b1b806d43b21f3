/** Bitwise algebra of 64-bit words. */
module Words {
  function And(a: bv64, b: bv64): bv64 { a & b }

  function Or(a: bv64, b: bv64): bv64 { a | b }

  lemma NeitherMeets(w: bv64, m: bv64, n: bv64)
    requires And(w, n) == 0 && And(m, n) == 0
    ensures And(Or(w, m), n) == 0
  {
  }

  lemma FirstMeets(w: bv64, m: bv64, n: bv64)
    requires And(w, n) != 0
    ensures And(Or(w, m), n) != 0
  {
  }

  lemma SecondMeets(w: bv64, m: bv64, n: bv64)
    requires And(m, n) != 0
    ensures And(Or(w, m), n) != 0
  {
  }
}
