/** Index arithmetic on a ring of `size` ranks: the modulo helper of the
  collectives, and a division-free form of the same rotations that the
  protocol proofs work with. */
module RingArithmetic {

  function Min(a: int, b: int): int { if a <= b then a else b }

  function Max(a: int, b: int): int { if a <= b then b else a }

  // --- positive_mod --------------------------------------------------------

  /** The remainder of C++: the quotient is truncated toward zero, so the
    result takes the sign of `value`. */
  function CRemainder(value: int, modulus: int): int
    requires modulus > 0
  {
    if value >= 0 then value % modulus else -((-value) % modulus)
  }

  function PositiveMod(value: int, modulus: int): (r: int)
    requires modulus > 0
  {
    var result := CRemainder(value, modulus);
    if result < 0 then result + modulus else result
  }

  /** For the arguments the collectives pass, one turn of the ring away from
    the range at most, the helper picks the representative in the range. */
  lemma PositiveModIsRotation(value: int, modulus: int)
    requires modulus > 0 && -modulus <= value < 2 * modulus
    ensures PositiveMod(value, modulus) ==
            if value < 0 then value + modulus else if value >= modulus then value - modulus else value
  {
    if value < 0 {
      if value == -modulus {
        assert modulus % modulus == 0;
      } else {
        SmallRemainder(-value, modulus);
      }
    } else if value < modulus {
      SmallRemainder(value, modulus);
    } else {
      SmallRemainder(value - modulus, modulus);
      assert value == (value - modulus) + modulus * 1;
      assert value % modulus == (value - modulus) % modulus;
    }
  }

  lemma SmallRemainder(x: int, m: int)
    requires 0 <= x < m
    ensures x % m == x
  {}

  // --- rotations without division ----------------------------------------

  function Next(size: nat, rank: nat): (q: nat)
    requires rank < size
    ensures q < size
  {
    if rank + 1 == size then 0 else rank + 1
  }

  function Prev(size: nat, rank: nat): (q: nat)
    requires rank < size
    ensures q < size
  {
    if rank == 0 then size - 1 else rank - 1
  }

  /** The rank (or block) `d` hops before `rank`. */
  function Back(size: nat, rank: nat, d: nat): (q: nat)
    requires rank < size && d < size
    ensures q < size
  {
    if rank >= d then rank - d else rank + size - d
  }

  /** The rank `d` hops after `block`. */
  function Forward(size: nat, block: nat, d: nat): (q: nat)
    requires block < size && d < size
    ensures q < size
  {
    if block + d < size then block + d else block + d - size
  }

  /** How many hops it takes to get from `block` forward to `rank`. */
  function Hops(size: nat, block: nat, rank: nat): (d: nat)
    requires rank < size && block < size
    ensures d < size
    ensures Back(size, rank, d) == block && Forward(size, block, d) == rank
  {
    if rank >= block then rank - block else rank + size - block
  }

  lemma RotationsAgree(size: nat, rank: nat, d: nat)
    requires rank < size && d < size
    ensures Hops(size, Back(size, rank, d), rank) == d
    ensures Hops(size, rank, Forward(size, rank, d)) == d
    ensures Next(size, Prev(size, rank)) == rank && Prev(size, Next(size, rank)) == rank
    ensures d + 1 < size ==> Back(size, Prev(size, rank), d) == Back(size, rank, d + 1)
    ensures d + 1 < size ==> Prev(size, Back(size, rank, d)) == Back(size, rank, d + 1)
    ensures Next(size, rank) == PositiveMod(rank + 1, size)
    ensures Prev(size, rank) == PositiveMod(rank - 1 + size, size)
  {
    PositiveModIsRotation(rank + 1, size);
    PositiveModIsRotation(rank - 1 + size, size);
  }

  // --- products and quotients --------------------------------------------

  lemma MulMonotone(a: nat, b: nat, m: nat)
    requires a <= b
    ensures a * m <= b * m
    ensures (a + 1) * m == a * m + m
  {}

  lemma DivUnique(x: nat, q: nat, m: nat)
    requires m > 0 && q * m <= x < q * m + m
    ensures x / m == q
  {
    DivBounds(x, m);
    if x / m < q {
      MulMonotone(x / m + 1, q, m);
      MulMonotone(x / m, q, m);
    } else if x / m > q {
      MulMonotone(q + 1, x / m, m);
      MulMonotone(q, x / m, m);
    }
  }

  lemma DivBounds(x: nat, m: nat)
    requires m > 0
    ensures (x / m) * m <= x < (x / m) * m + m
  {}
}
