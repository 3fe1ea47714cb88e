/** Sums of 32-bit integers: no addition on any rank overflows when the
  magnitudes of the contributions to an element fit together. */
module Overflow {
  import opened RingArithmetic
  import opened BlockLayout
  import opened Schedule
  import opened Group
  import opened Folds
  import opened Reduction

  predicate Fits(x: int) { INT32_MIN <= x <= INT32_MAX }

  /** Two's complement addition on 32 bits. */
  function Add(a: int, b: int): (r: int)
    ensures Fits(a + b) ==> r == a + b
  {
    (a + b - INT32_MIN) % 0x1_0000_0000 + INT32_MIN
  }

  const INT32 := Arithmetic(Add, (a: int, b: int) => a < b)

  /** What the reduction of 32-bit integers makes of a sum that fits. */
  lemma Int32Sum(a: int, b: int)
    ensures INT32.Kernel(Sum) == Add
    ensures Fits(a + b) ==> INT32.Kernel(Sum)(a, b) == a + b
  {}

  function Abs(x: int): nat { if x < 0 then -x else x }

  function Total(xs: seq<int>): int {
    if xs == [] then 0 else xs[0] + Total(xs[1..])
  }

  function Magnitude(xs: seq<int>): nat {
    if xs == [] then 0 else Abs(xs[0]) + Magnitude(xs[1..])
  }

  lemma {:induction false} TotalBound(xs: seq<int>)
    ensures Abs(Total(xs)) <= Magnitude(xs)
  {
    if xs != [] { TotalBound(xs[1..]); }
  }

  lemma {:induction false} Concatenation(xs: seq<int>, ys: seq<int>)
    ensures Total(xs + ys) == Total(xs) + Total(ys) && Magnitude(xs + ys) == Magnitude(xs) + Magnitude(ys)
  {
    if xs == [] {
      assert xs + ys == ys;
    } else {
      Concatenation(xs[1..], ys);
      assert (xs + ys)[1..] == xs[1..] + ys;
    }
  }

  lemma {:induction false} Reversal(xs: seq<int>)
    ensures Total(Reverse(xs)) == Total(xs) && Magnitude(Reverse(xs)) == Magnitude(xs)
  {
    if xs != [] {
      Reversal(xs[1..]);
      Concatenation(Reverse(xs[1..]), [xs[0]]);
    }
  }

  /** The whole turn has every contribution once. */
  lemma WholeTurnTotals(g: Ring<int>, c: nat, i: nat, b: nat)
    requires g.Valid() && c < |g.calls| && i < g.calls[c].count && b < g.size
    ensures var xs, turn := Contributions(g, c, i), Arc(g, c, i, b, g.size - 1);
            Total(turn) == Total(xs) && Magnitude(turn) == Magnitude(xs)
  {
    var xs, turn := Contributions(g, c, i), Arc(g, c, i, b, g.size - 1);
    assert turn == Reverse(xs[b..] + xs[..b]);
    assert xs == xs[..b] + xs[b..];
    hide Total, Magnitude, Arc, Contributions, Reverse;
    Reversal(xs[b..] + xs[..b]);
    Concatenation(xs[b..], xs[..b]);
    Concatenation(xs[..b], xs[b..]);
  }

  /** An arc of the ring is part of the whole turn. */
  lemma ArcWithin(g: Ring<int>, c: nat, i: nat, b: nat, d: nat)
    requires g.Valid() && c < |g.calls| && i < g.calls[c].count && b < g.size && d < g.size
    ensures Magnitude(Arc(g, c, i, b, d)) <= Magnitude(Contributions(g, c, i))
    ensures d == g.size - 1 ==> Total(Arc(g, c, i, b, d)) == Total(Contributions(g, c, i))
  {
    var turn, k := Arc(g, c, i, b, g.size - 1), g.size - 1 - d;
    WholeTurnTotals(g, c, i, b);
    assert turn[k..] == Arc(g, c, i, b, d);
    assert turn == turn[..k] + turn[k..];
    hide Total, Magnitude, Arc, Contributions;
    Concatenation(turn[..k], turn[k..]);
  }

  ghost predicate SumsFit(g: Ring<int>, c: nat, i: nat)
    requires g.Valid() && c < |g.calls| && i < g.calls[c].count
  {
    g.calls[c].op == Add && Magnitude(Contributions(g, c, i)) <= INT32_MAX
  }

  /** Every partial result is the exact sum over an arc of the ring, and the
    addition that extends it by one rank does not wrap. */
  lemma {:induction false} FoldIsExact(g: Ring<int>, c: nat, i: nat, b: nat, d: nat)
    requires g.Valid() && c < |g.calls| && i < g.calls[c].count && b < g.size && d < g.size && SumsFit(g, c, i)
    ensures g.Fold(c, i, b, d) == Total(Arc(g, c, i, b, d)) && Fits(g.Fold(c, i, b, d))
    ensures d > 0 ==> Fits(g.calls[c].input[Forward(g.size, b, d)][i] + g.Fold(c, i, b, d - 1))
  {
    ArcWithin(g, c, i, b, d);
    TotalBound(Arc(g, c, i, b, d));
    if d > 0 {
      FoldIsExact(g, c, i, b, d - 1);
      assert Arc(g, c, i, b, d)[1..] == Arc(g, c, i, b, d - 1);
    } else {
      assert Arc(g, c, i, b, 0)[1..] == [];
    }
  }

  /** The result is the exact sum of all contributions. */
  lemma ReducedIsExact(g: Ring<int>, c: nat, i: nat)
    requires g.Valid() && c < |g.calls| && i < g.calls[c].count && SumsFit(g, c, i)
    ensures g.Reduced(c, i) == Total(Contributions(g, c, i))
  {
    var b := g.ShapeOf(c).BlockOf(i);
    FoldIsExact(g, c, i, b, g.size - 1);
    ArcWithin(g, c, i, b, g.size - 1);
  }

  /** No hidden overflow: wherever a rank stands in a call, the addition its
    wait makes for an element of the received piece is exact. */
  lemma WaitAddsExactly(g: Ring<int>, r: nat, c: nat, at: Cursor, i: nat)
    requires g.Valid() && r < g.size && c < |g.calls| && i < g.calls[c].count && SumsFit(g, c, i)
    requires var loc := g.LocalOf(r, c);
             && loc.CursorOk(at) && loc.Acting(at) && at.stage == WaitReceives && !loc.Gathering(at.step)
             && loc.shape.BlockOf(i) == loc.RecvBlock(at.step) && loc.shape.PieceOf(i) == at.piece
    ensures Fits(g.Expected(r, c, at, i) + g.Sent(c, at.step, i))
    ensures g.Expected(r, c, g.LocalOf(r, c).Advance(at), i) == g.Expected(r, c, at, i) + g.Sent(c, at.step, i)
  {
    var loc := g.LocalOf(r, c);
    var b := loc.shape.BlockOf(i);
    g.ReceiveValue(r, c, at, i);
    g.StepOfBlock(r, c, at.step, b);
    loc.ActingAdvance(at, at.step);
    hide Local.Advance, Local.RecvBlock, Shape.Pieces;
    assert Hops(g.size, b, r) == at.step + 1;
    assert g.Expected(r, c, at, i) == g.calls[c].input[r][i];
    FoldIsExact(g, c, i, b, at.step + 1);
  }
}
