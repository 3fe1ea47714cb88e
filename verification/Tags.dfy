/** The 32-bit tag: sequence (12 bits), phase (1), step (7), piece (12). */
module Tags {
  import opened RingArithmetic

  const PIECE_LIMIT := 0x1000
  const STEP_LIMIT := 0x80
  const SEQUENCE_LIMIT := 0x1000
  const STEP_WEIGHT := 0x1000
  const PHASE_WEIGHT := 0x8_0000
  const SEQUENCE_WEIGHT := 0x10_0000

  datatype MadeTag = Tag(tag: nat) | OutOfRange

  /** `gather` selects the all-gather phase. The fields do not overlap, so the
    shifted fields are added here; `PackIsMakeTag` relates this to the bits. */
  function MakeTag(sequence: nat, gather: bool, step: int, piece: nat): MadeTag {
    if step < 0 || step >= STEP_LIMIT || piece >= PIECE_LIMIT then OutOfRange
    else Tag(sequence % SEQUENCE_LIMIT * SEQUENCE_WEIGHT
             + (if gather then PHASE_WEIGHT else 0)
             + step * STEP_WEIGHT
             + piece)
  }

  // --- the 32-bit word -----------------------------------------------------------

  const WORD_LIMIT := 0x1_0000_0000

  function Pow2(k: nat): (p: nat)
    ensures p >= 1
  {
    if k == 0 then 1 else 2 * Pow2(k - 1)
  }

  /** The operators of C++ on unsigned words, bit by bit. */
  function And(x: nat, y: nat): nat {
    if x == 0 || y == 0 then 0 else (if x % 2 == 1 && y % 2 == 1 then 1 else 0) + 2 * And(x / 2, y / 2)
  }

  function Or(x: nat, y: nat): nat {
    if x == 0 then y else if y == 0 then x
    else (if x % 2 == 1 || y % 2 == 1 then 1 else 0) + 2 * Or(x / 2, y / 2)
  }

  predicate Bit(x: nat, k: nat) {
    x / Pow2(k) % 2 == 1
  }

  lemma BitBelow(x: nat, k: nat)
    ensures Bit(x, 0) <==> x % 2 == 1
    ensures k > 0 ==> (Bit(x, k) <==> Bit(x / 2, k - 1))
  {
    assert Pow2(0) == 1 && x / 1 == x;
    if k > 0 {
      var p := Pow2(k - 1);
      DivBounds(x / 2, p);
      DivBounds(x, 2);
      var q := x / 2 / p;
      assert q * (2 * p) == 2 * (q * p);
      Split(x, 2 * p, q, x - q * (2 * p));
    }
  }

  lemma Half(b: nat, z: nat)
    requires b < 2
    ensures (b + 2 * z) % 2 == b && (b + 2 * z) / 2 == z
  {}

  lemma AndHalves(x: nat, y: nat)
    ensures And(x, y) % 2 == (if x % 2 == 1 && y % 2 == 1 then 1 else 0) && And(x, y) / 2 == And(x / 2, y / 2)
  {
    var b, z := if x % 2 == 1 && y % 2 == 1 then 1 else 0, And(x / 2, y / 2);
    Half(b, z);
    if x == 0 || y == 0 {
      assert And(x, y) == 0 && z == 0;
    } else {
      assert And(x, y) == b + 2 * z;
    }
    hide And;
  }

  lemma OrHalves(x: nat, y: nat)
    ensures Or(x, y) % 2 == (if x % 2 == 1 || y % 2 == 1 then 1 else 0) && Or(x, y) / 2 == Or(x / 2, y / 2)
  {
    var b, z := if x % 2 == 1 || y % 2 == 1 then 1 else 0, Or(x / 2, y / 2);
    Half(b, z);
    if x == 0 {
      assert Or(x, y) == y && z == y / 2;
    } else if y == 0 {
      assert Or(x, y) == x && z == x / 2;
    } else {
      assert Or(x, y) == b + 2 * z;
    }
    hide Or;
  }

  /** Each bit of a conjunction or disjunction is that of the two bits. */
  lemma {:induction false} BitsOfWord(x: nat, y: nat, k: nat)
    ensures Bit(And(x, y), k) <==> Bit(x, k) && Bit(y, k)
    ensures Bit(Or(x, y), k) <==> Bit(x, k) || Bit(y, k)
  {
    hide Bit, Pow2, And, Or;
    AndHalves(x, y);
    OrHalves(x, y);
    BitBelow(x, k);
    BitBelow(y, k);
    BitBelow(And(x, y), k);
    BitBelow(Or(x, y), k);
    if k > 0 {
      BitsOfWord(x / 2, y / 2, k - 1);
    }
  }

  /** Bits shifted out at the top are lost. */
  function ShiftLeft(x: nat, k: nat): nat {
    x * Pow2(k) % WORD_LIMIT
  }

  /** The shifts and masks of make_tag. */
  function Pack(sequence: nat, phase: nat, step: nat, piece: nat): nat {
    Or(Or(Or(ShiftLeft(And(sequence, 0xFFF), 20),
             ShiftLeft(And(phase, 1), 19)),
          ShiftLeft(And(step, 0x7F), 12)),
       And(piece, 0xFFF))
  }

  lemma LowBitFirst(x: nat, half: nat)
    requires half >= 1
    ensures x % (2 * half) == x % 2 + 2 * (x / 2 % half)
  {
    var q := x / 2 / half;
    DivBounds(x / 2, half);
    DivBounds(x, 2);
    assert x == q * (2 * half) + (2 * (x / 2 % half) + x % 2);
    Split(x, 2 * half, q, 2 * (x / 2 % half) + x % 2);
  }

  lemma OddMask(half: nat)
    requires half >= 1
    ensures (2 * half - 1) % 2 == 1 && (2 * half - 1) / 2 == half - 1
  {}

  lemma AndUnfolds(x: nat, y: nat)
    requires x > 0 && y % 2 == 1
    ensures And(x, y) == x % 2 + 2 * And(x / 2, y / 2)
  {}

  lemma MaskStep(x: nat, half: nat)
    requires half >= 1 && And(x / 2, half - 1) == x / 2 % half
    ensures x > 0 ==> And(x, 2 * half - 1) == x % (2 * half)
  {
    hide And;
    OddMask(half);
    if x > 0 {
      AndUnfolds(x, 2 * half - 1);
      LowBitFirst(x, half);
    }
  }

  /** Masking the low bits is taking the remainder. */
  lemma {:induction false} MaskIsRemainder(x: nat, k: nat)
    ensures And(x, Pow2(k) - 1) == x % Pow2(k)
  {
    if k == 0 {
      assert Pow2(k) == 1 && And(x, 0) == 0;
    } else if x == 0 {
      Small(0, Pow2(k));
      assert And(0, Pow2(k) - 1) == 0;
    } else {
      hide And;
      MaskIsRemainder(x / 2, k - 1);
      MaskStep(x, Pow2(k - 1));
    }
  }

  lemma Small(x: nat, m: nat)
    requires x < m
    ensures x % m == x
  {}

  /** Combining a number with bits below it is adding them. */
  lemma {:induction false} OrIsSum(high: nat, low: nat, k: nat)
    requires low < Pow2(k)
    ensures Or(high * Pow2(k), low) == high * Pow2(k) + low
  {
    if k > 0 && high > 0 && low > 0 {
      var half := high * Pow2(k - 1);
      assert high * Pow2(k) == 2 * half;
      OrIsSum(high, low / 2, k - 1);
      assert 2 * half / 2 == half && 2 * half % 2 == 0;
    }
  }

  lemma Weights()
    ensures Pow2(1) == 2 && Pow2(7) == STEP_LIMIT && Pow2(12) == PIECE_LIMIT == STEP_WEIGHT == SEQUENCE_LIMIT
    ensures Pow2(19) == PHASE_WEIGHT && Pow2(20) == SEQUENCE_WEIGHT
  {}

  /** The word make_tag packs is the tag, whatever the sequence number. */
  lemma PackIsMakeTag(sequence: nat, gather: bool, step: nat, piece: nat)
    requires step < STEP_LIMIT && piece < PIECE_LIMIT
    ensures MakeTag(sequence, gather, step, piece) == Tag(Pack(sequence, if gather then 1 else 0, step, piece))
  {
    var phase := if gather then 1 else 0;
    hide And, Or, Pow2;
    Weights();
    MaskIsRemainder(sequence, 12);
    MaskIsRemainder(phase, 1);
    MaskIsRemainder(step, 7);
    MaskIsRemainder(piece, 12);
    Small(phase, 2);
    Small(step, STEP_LIMIT);
    Small(piece, PIECE_LIMIT);
    var s := sequence % SEQUENCE_LIMIT;
    Small(s * SEQUENCE_WEIGHT, WORD_LIMIT);
    Small(phase * PHASE_WEIGHT, WORD_LIMIT);
    Small(step * STEP_WEIGHT, WORD_LIMIT);
    OrIsSum(s, phase * PHASE_WEIGHT, 20);
    OrIsSum(2 * s + phase, step * STEP_WEIGHT, 19);
    OrIsSum(256 * s + 128 * phase + step, piece, 12);
  }

  // --- fields ------------------------------------------------------------------------

  /** Every field can be read back, and the tag fits 32 bits. */
  lemma Decode(sequence: nat, gather: bool, step: int, piece: nat)
    requires MakeTag(sequence, gather, step, piece).Tag?
    ensures var tag := MakeTag(sequence, gather, step, piece).tag;
            && tag < 0x1_0000_0000
            && tag / SEQUENCE_WEIGHT == sequence % SEQUENCE_LIMIT
            && tag / PHASE_WEIGHT % 2 == (if gather then 1 else 0)
            && tag / STEP_WEIGHT % STEP_LIMIT == step
            && tag % PIECE_LIMIT == piece
  {
    var s, ph := sequence % SEQUENCE_LIMIT, if gather then 1 else 0;
    var tag := MakeTag(sequence, gather, step, piece).tag;
    Split(tag, STEP_WEIGHT, s * 256 + ph * 128 + step, piece);
    Split(s * 256 + ph * 128 + step, STEP_LIMIT, s * 2 + ph, step);
    Split(tag, PHASE_WEIGHT, s * 2 + ph, step * STEP_WEIGHT + piece);
    Split(s * 2 + ph, 2, s, ph);
    Split(tag, SEQUENCE_WEIGHT, s, ph * PHASE_WEIGHT + step * STEP_WEIGHT + piece);
  }

  lemma Split(x: nat, w: nat, hi: nat, lo: nat)
    requires lo < w && x == hi * w + lo
    ensures x / w == hi && x % w == lo
  {
    DivUnique(x, hi, w);
    assert x == x / w * w + x % w;
  }

  /** Two tags in range are equal exactly when piece, step and phase agree and
    the sequence numbers agree modulo 4096. */
  lemma Injective(s: nat, g: bool, t: int, p: nat, s': nat, g': bool, t': int, p': nat)
    requires MakeTag(s, g, t, p).Tag? && MakeTag(s', g', t', p').Tag?
    ensures MakeTag(s, g, t, p) == MakeTag(s', g', t', p')
       <==> s % SEQUENCE_LIMIT == s' % SEQUENCE_LIMIT && g == g' && t == t' && p == p'
  {
    Decode(s, g, t, p);
    Decode(s', g', t', p');
  }

  /** Wraparound cannot confuse a call with its successor. */
  lemma ConsecutiveSequencesDiffer(s: nat)
    ensures s % SEQUENCE_LIMIT != (s + 1) % SEQUENCE_LIMIT
  {}
}
