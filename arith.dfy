/** Integer division facts for the batch arithmetic, and Python's `//`. */
module Arith {
  lemma MulMonotone(x: nat, y: nat, b: nat)
    ensures x <= y ==> x * b <= y * b
  {
    if x <= y {
      assert y * b == x * b + (y - x) * b;
    }
  }

  lemma DivLower(a: nat, b: nat, q: nat)
    requires b > 0 && q * b <= a
    ensures q <= a / b
  {
    var d := a / b;
    assert a == d * b + a % b;
    assert (d + 1) * b == d * b + b;
    MulMonotone(d + 1, q, b);
  }

  lemma DivUpper(a: nat, b: nat, q: nat)
    requires b > 0 && a < (q + 1) * b
    ensures a / b <= q
  {
    var d := a / b;
    assert a == d * b + a % b;
  }

  /** The offset of batch `m` divides back to `m`. */
  lemma OffsetDiv(m: nat, size: nat)
    requires size > 0
    ensures (m * size) / size == m
  {
    DivLower(m * size, size, m);
    DivUpper(m * size, size, m);
  }

  /** Python's floor division `a // b` on a non-negative `a` and a positive `b`, by repeated subtraction. */
  function FloorDiv(a: nat, b: nat): nat
    requires b > 0
    decreases a
  {
    if a < b then 0 else FloorDiv(a - b, b) + 1
  }

  /** `a // b` is the `q` with `q * b <= a < (q + 1) * b`. */
  lemma {:induction false} FloorDivBounds(a: nat, b: nat)
    requires b > 0
    ensures FloorDiv(a, b) * b <= a < (FloorDiv(a, b) + 1) * b
  {
    if a >= b {
      var q := FloorDiv(a - b, b);
      FloorDivBounds(a - b, b);
      assert (q + 1) * b == q * b + b;
      assert (q + 2) * b == (q + 1) * b + b;
    }
  }

  /** `FloorDiv` agrees with Dafny's division on the values it is used for. */
  lemma FloorDivIsDiv(a: nat, b: nat)
    requires b > 0
    ensures FloorDiv(a, b) == a / b
  {
    FloorDivBounds(a, b);
    DivLower(a, b, FloorDiv(a, b));
    DivUpper(a, b, FloorDiv(a, b));
  }
}
