/** Unsigned 64-bit arithmetic, which wraps around. */
module Words {
  const UINT64_LIMIT := 0x1_0000_0000_0000_0000

  type uint64 = x: int | 0 <= x < UINT64_LIMIT

  function Plus(a: uint64, b: uint64): uint64 {
    (a + b) % UINT64_LIMIT
  }

  function Minus(a: uint64, b: uint64): uint64 {
    (a - b) % UINT64_LIMIT
  }

  lemma MinusTwice(a: uint64, b: uint64)
    ensures Minus(a, Minus(a, b)) == b
  {
    assert Minus(a, b) == if b <= a then a - b else a - b + UINT64_LIMIT;
  }

  lemma PlusModulo(a: nat, b: uint64)
    ensures Plus(a % UINT64_LIMIT, b) == (a + b) % UINT64_LIMIT
  {
  }

  lemma MinusModulo(a: nat, b: uint64)
    requires b <= a
    ensures Minus(a % UINT64_LIMIT, b) == (a - b) % UINT64_LIMIT
  {
  }

  lemma Division(a: nat, b: nat)
    requires b > 0
    ensures a == a / b * b + a % b
    ensures 0 <= a / b
  {
  }

  function Quotient(a: nat, b: nat): (q: nat)
    requires b > 0
    ensures q * b <= a < q * b + b
  {
    Division(a, b);
    a / b
  }

  lemma {:induction false} ProductsInOrder(i: nat, j: nat, b: nat)
    requires i < j
    ensures i * b + b <= j * b
    decreases j
  {
    if j == i + 1 {
    } else {
      ProductsInOrder(i, j - 1, b);
    }
    assert j * b == (j - 1) * b + b;
  }
}
