/** What the ring computes in the terms of its callers: the order in which an
  element's contributions are combined, and, for an associative and
  commutative operation, the plain fold over all ranks. */
module Folds {
  import opened RingArithmetic
  import opened BlockLayout
  import opened Schedule
  import opened Group
  import opened Reduction
  import Copying = CopyingRing
  import CopyingInvariant
  import CopyingTheorems
  import Zero = ZeroCopyRing
  import ZeroCopyInvariant
  import ZeroCopyTheorems

  // --- folds over sequences -----------------------------------------------------------

  /** x0 op (x1 op (... op xn)). */
  function RightFold<T>(op: (T, T) -> T, xs: seq<T>): T
    requires xs != []
  {
    if |xs| == 1 then xs[0] else op(xs[0], RightFold(op, xs[1..]))
  }

  /** ((x0 op x1) op ...) op xn. */
  function LeftFold<T>(op: (T, T) -> T, xs: seq<T>): T
    requires xs != []
  {
    if |xs| == 1 then xs[0] else op(LeftFold(op, xs[..|xs| - 1]), xs[|xs| - 1])
  }

  ghost predicate Associative<T(!new)>(op: (T, T) -> T) {
    forall x, y, z :: op(op(x, y), z) == op(x, op(y, z))
  }

  ghost predicate Commutative<T(!new)>(op: (T, T) -> T) {
    forall x, y :: op(x, y) == op(y, x)
  }

  function Remove<T>(xs: seq<T>, k: nat): (r: seq<T>)
    requires k < |xs|
    ensures |r| == |xs| - 1
  {
    xs[..k] + xs[k + 1..]
  }

  /** Any element can be combined last. */
  lemma {:induction false} MoveToFront<T(!new)>(op: (T, T) -> T, xs: seq<T>, k: nat)
    requires Associative(op) && Commutative(op) && k < |xs| && |xs| >= 2
    ensures RightFold(op, xs) == op(xs[k], RightFold(op, Remove(xs, k)))
  {
    if k == 0 {
      assert Remove(xs, 0) == xs[1..];
    } else if |xs| == 2 {
      assert Remove(xs, 1) == xs[..1];
    } else {
      var rest := xs[1..];
      MoveToFront(op, rest, k - 1);
      assert Remove(xs, k)[1..] == Remove(rest, k - 1) && Remove(xs, k)[0] == xs[0];
      var a, b, c := xs[0], xs[k], RightFold(op, Remove(rest, k - 1));
      assert op(a, op(b, c)) == op(op(a, b), c) == op(op(b, a), c) == op(b, op(a, c));
    }
  }

  /** The order of the operands does not matter. */
  lemma {:induction false} PermutationFold<T(!new)>(op: (T, T) -> T, xs: seq<T>, ys: seq<T>)
    requires Associative(op) && Commutative(op) && xs != [] && multiset(xs) == multiset(ys)
    ensures ys != [] && RightFold(op, xs) == RightFold(op, ys)
    decreases |xs|
  {
    assert |multiset(xs)| == |xs| && |multiset(ys)| == |ys|;
    var x := xs[0];
    assert x in multiset(ys);
    var k :| 0 <= k < |ys| && ys[k] == x;
    if |xs| > 1 {
      MoveToFront(op, ys, k);
      RemoveCounts(ys, k);
      assert xs == [x] + xs[1..];
      assert multiset(xs[1..]) == multiset(xs) - multiset{x};
      PermutationFold(op, xs[1..], Remove(ys, k));
    }
  }

  lemma RemoveCounts<T>(ys: seq<T>, k: nat)
    requires k < |ys|
    ensures multiset(Remove(ys, k)) == multiset(ys) - multiset{ys[k]}
  {
    assert ys == ys[..k] + [ys[k]] + ys[k + 1..];
  }

  /** ... nor does the bracketing. */
  lemma {:induction false} LeftIsRight<T(!new)>(op: (T, T) -> T, xs: seq<T>)
    requires Associative(op) && Commutative(op) && xs != []
    ensures LeftFold(op, xs) == RightFold(op, xs)
  {
    var n := |xs| - 1;
    if n > 0 {
      LeftIsRight(op, xs[..n]);
      MoveToFront(op, xs, n);
      assert Remove(xs, n) == xs[..n];
    }
  }

  // --- the ring's order ---------------------------------------------------------------------

  /** Element `i` of the ranks on the way from rank `b` on, the last first. */
  ghost function Arc<T>(g: Ring<T>, c: nat, i: nat, b: nat, d: nat): (xs: seq<T>)
    requires g.Valid() && c < |g.calls| && i < g.calls[c].count && b < g.size && d < g.size
    ensures |xs| == d + 1
    ensures forall k :: 0 <= k <= d ==> xs[k] == g.calls[c].input[Forward(g.size, b, d - k)][i]
  {
    seq(d + 1, k requires 0 <= k <= d => g.calls[c].input[Forward(g.size, b, d - k)][i])
  }

  /** After `d` hops from rank `b` an element is x[b+d] op (... op (x[b+1] op
    x[b])), indices modulo the size: for any operation, associative or not. */
  lemma {:induction false} FoldOrder<T>(g: Ring<T>, c: nat, i: nat, b: nat, d: nat)
    requires g.Valid() && c < |g.calls| && i < g.calls[c].count && b < g.size && d < g.size
    ensures g.Fold(c, i, b, d) == RightFold(g.calls[c].op, Arc(g, c, i, b, d))
  {
    if d > 0 {
      FoldOrder(g, c, i, b, d - 1);
      assert Arc(g, c, i, b, d)[1..] == Arc(g, c, i, b, d - 1);
    }
  }

  /** The contributions in the order of the ranks. */
  ghost function Contributions<T>(g: Ring<T>, c: nat, i: nat): (xs: seq<T>)
    requires g.Valid() && c < |g.calls| && i < g.calls[c].count
    ensures |xs| == g.size && forall r :: 0 <= r < g.size ==> xs[r] == g.calls[c].input[r][i]
  {
    seq(g.size, r requires 0 <= r < g.size => g.calls[c].input[r][i])
  }

  function Reverse<T>(xs: seq<T>): (r: seq<T>)
    ensures |r| == |xs| && forall k :: 0 <= k < |r| ==> r[k] == xs[|xs| - 1 - k]
  {
    if xs == [] then [] else Reverse(xs[1..]) + [xs[0]]
  }

  lemma {:induction false} ReverseCounts<T>(xs: seq<T>)
    ensures multiset(Reverse(xs)) == multiset(xs)
  {
    if xs != [] {
      ReverseCounts(xs[1..]);
      assert xs == [xs[0]] + xs[1..];
    }
  }

  /** A whole turn meets every rank once: the rotation, read backwards. */
  lemma WholeTurn<T>(g: Ring<T>, c: nat, i: nat, b: nat)
    requires g.Valid() && c < |g.calls| && i < g.calls[c].count && b < g.size
    ensures multiset(Arc(g, c, i, b, g.size - 1)) == multiset(Contributions(g, c, i))
  {
    var xs, arc := Contributions(g, c, i), Arc(g, c, i, b, g.size - 1);
    assert arc == Reverse(xs[b..] + xs[..b]);
    ReverseCounts(xs[b..] + xs[..b]);
    assert xs == xs[..b] + xs[b..];
  }

  /** For an associative and commutative operation the ring's result is the
    plain fold over ranks 0 to size - 1. */
  lemma ReducedIsPlainFold<T(!new)>(g: Ring<T>, c: nat, i: nat)
    requires g.Valid() && c < |g.calls| && i < g.calls[c].count
    requires Associative(g.calls[c].op) && Commutative(g.calls[c].op)
    ensures g.Reduced(c, i) == LeftFold(g.calls[c].op, Contributions(g, c, i))
  {
    var b, op := g.ShapeOf(c).BlockOf(i), g.calls[c].op;
    FoldOrder(g, c, i, b, g.size - 1);
    WholeTurn(g, c, i, b);
    PermutationFold(op, Arc(g, c, i, b, g.size - 1), Contributions(g, c, i));
    LeftIsRight(op, Contributions(g, c, i));
  }

  // --- minima and maxima ------------------------------------------------------------------------

  /** No two elements are each before the other; and what is not before `y`,
    which is not before `z`, is not before `z`. */
  ghost predicate StrictWeakOrder<T(!new)>(less: (T, T) -> bool) {
    && (forall x, y :: less(x, y) ==> !less(y, x))
    && (forall x, y, z :: !less(x, y) && !less(y, z) ==> !less(x, z))
  }

  /** `r` is one of `xs`, and none of them is smaller, or larger. */
  ghost predicate Extreme<T>(arithmetic: Arithmetic<T>, operation: Operation, xs: seq<T>, r: T) {
    && r in xs
    && (operation.Minimum? ==> forall k :: 0 <= k < |xs| ==> !arithmetic.less(xs[k], r))
    && (operation.Maximum? ==> forall k :: 0 <= k < |xs| ==> !arithmetic.less(r, xs[k]))
  }

  lemma {:induction false} FoldIsExtreme<T(!new)>(arithmetic: Arithmetic<T>, operation: Operation, xs: seq<T>)
    requires StrictWeakOrder(arithmetic.less) && (operation.Minimum? || operation.Maximum?) && xs != []
    ensures Extreme(arithmetic, operation, xs, RightFold(arithmetic.Kernel(operation), xs))
  {
    if |xs| > 1 {
      FoldIsExtreme(arithmetic, operation, xs[1..]);
      var rest := RightFold(arithmetic.Kernel(operation), xs[1..]);
      arithmetic.KernelMakes(operation, xs[0], rest);
      var r := arithmetic.Kernel(operation)(xs[0], rest);
      assert forall k :: 0 < k < |xs| ==> xs[k] == xs[1..][k - 1];
      hide Arithmetic.Kernel;
    }
  }

  lemma SameElements<T>(arithmetic: Arithmetic<T>, operation: Operation, xs: seq<T>, ys: seq<T>, r: T)
    requires multiset(xs) == multiset(ys) && Extreme(arithmetic, operation, xs, r)
    ensures Extreme(arithmetic, operation, ys, r)
  {
    assert r in multiset(xs);
    forall k | 0 <= k < |ys|
      ensures ys[k] in xs
    {
      assert ys[k] in multiset(ys);
    }
  }

  /** With PG_MIN or PG_MAX a result is one of the contributions, and no
    contribution is smaller, or larger. */
  lemma ReducedIsExtreme<T(!new)>(g: Ring<T>, c: nat, i: nat, arithmetic: Arithmetic<T>, operation: Operation)
    requires g.Valid() && c < |g.calls| && i < g.calls[c].count && StrictWeakOrder(arithmetic.less)
    requires (operation.Minimum? || operation.Maximum?) && g.calls[c].op == arithmetic.Kernel(operation)
    ensures Extreme(arithmetic, operation, Contributions(g, c, i), g.Reduced(c, i))
  {
    hide StrictWeakOrder, Extreme, RightFold, Arithmetic.Kernel, Ring.Fold;
    var b := g.ShapeOf(c).BlockOf(i);
    FoldOrder(g, c, i, b, g.size - 1);
    FoldIsExtreme(arithmetic, operation, Arc(g, c, i, b, g.size - 1));
    WholeTurn(g, c, i, b);
    SameElements(arithmetic, operation, Arc(g, c, i, b, g.size - 1), Contributions(g, c, i), g.Reduced(c, i));
  }

  // --- results of runs ------------------------------------------------------------------------

  /** `out` holds, for every call returned from, the plain fold of all inputs. */
  ghost predicate PlainResults<T>(g: Ring<T>, out: seq<seq<T>>)
    requires g.Valid()
  {
    && |out| <= |g.calls|
    && (forall c :: 0 <= c < |out| ==> |out[c]| == g.calls[c].count)
    && (forall c, i :: 0 <= c < |out| && 0 <= i < |out[c]| ==>
          out[c][i] == LeftFold(g.calls[c].op, Contributions(g, c, i)))
  }

  lemma ResultsArePlain<T(!new)>(g: Ring<T>, out: seq<seq<T>>)
    requires g.Valid() && ResultsOk(g, out)
    requires forall c :: 0 <= c < |g.calls| ==> Associative(g.calls[c].op) && Commutative(g.calls[c].op)
    ensures PlainResults(g, out)
  {
    hide Associative, Commutative;
    forall c, i | 0 <= c < |out| && 0 <= i < |out[c]|
      ensures out[c][i] == LeftFold(g.calls[c].op, Contributions(g, c, i))
    {
      ReducedIsPlainFold(g, c, i);
    }
  }

  /** All-reduce as its callers know it, over the copying transport. */
  lemma CopyingAllReduce<T(!new)>(g: Ring<T>, schedule: seq<nat>)
    requires g.Valid() && g.TagsFit() && Copying.Executable(g, Copying.Initial(g), schedule)
    requires forall c :: 0 <= c < |g.calls| ==> Associative(g.calls[c].op) && Commutative(g.calls[c].op)
    ensures var s := Copying.After(g, Copying.Initial(g), schedule);
            && |s.ranks| == g.size
            && forall r :: 0 <= r < g.size ==>
                 s.ranks[r].status == Success && |s.ranks[r].out| == s.ranks[r].call && PlainResults(g, s.ranks[r].out)
  {
    hide Associative, Commutative, PlainResults, ResultsOk, Copying.Executable, Copying.After, Ring.TagsFit;
    CopyingTheorems.AllReduceCorrect(g, schedule);
    var s := Copying.After(g, Copying.Initial(g), schedule);
    forall r | 0 <= r < g.size
      ensures PlainResults(g, s.ranks[r].out)
    {
      ResultsArePlain(g, s.ranks[r].out);
    }
  }

  /** ... and over the zero-copy transport. */
  lemma ZeroCopyAllReduce<T(!new)>(g: Ring<T>, run: seq<Zero.Label>)
    requires g.Valid() && g.TagsFit() && ZeroCopyInvariant.FitsDevice(g) && Zero.Executable(g, Zero.Initial(g), run)
    requires forall c :: 0 <= c < |g.calls| ==> Associative(g.calls[c].op) && Commutative(g.calls[c].op)
    ensures var s := Zero.After(g, Zero.Initial(g), run);
            && |s.ranks| == g.size
            && forall r :: 0 <= r < g.size ==>
                 s.ranks[r].status == Success && |s.ranks[r].out| == s.ranks[r].call && PlainResults(g, s.ranks[r].out)
  {
    hide Associative, Commutative, PlainResults, Zero.Executable, Zero.After, Ring.TagsFit,
         ZeroCopyInvariant.FitsDevice;
    ZeroCopyTheorems.AllReduceCorrect(g, run);
    var s := Zero.After(g, Zero.Initial(g), run);
    forall r | 0 <= r < g.size
      ensures PlainResults(g, s.ranks[r].out)
    {
      assert ResultsOk(g, s.ranks[r].out);
      ResultsArePlain(g, s.ranks[r].out);
    }
  }

  /** A minimum or maximum over the zero-copy transport, in every run. */
  lemma ZeroCopyExtremes<T(!new)>(g: Ring<T>, run: seq<Zero.Label>, r: nat, c: nat, arithmetic: Arithmetic<T>,
                                  operation: Operation)
    requires g.Valid() && g.TagsFit() && ZeroCopyInvariant.FitsDevice(g) && Zero.Executable(g, Zero.Initial(g), run)
    requires r < g.size && c < |g.calls| && StrictWeakOrder(arithmetic.less)
    requires (operation.Minimum? || operation.Maximum?) && g.calls[c].op == arithmetic.Kernel(operation)
    ensures var s := Zero.After(g, Zero.Initial(g), run);
            && |s.ranks| == g.size
            && (c < s.ranks[r].call ==>
                  && c < |s.ranks[r].out| && |s.ranks[r].out[c]| == g.calls[c].count
                  && forall i :: 0 <= i < g.calls[c].count ==>
                       Extreme(arithmetic, operation, Contributions(g, c, i), s.ranks[r].out[c][i]))
  {
    hide StrictWeakOrder, Extreme, Zero.Executable, Zero.After, Ring.TagsFit, ZeroCopyInvariant.FitsDevice, Ring.Reduced,
         Arithmetic.Kernel;
    ZeroCopyTheorems.AllReduceCorrect(g, run);
    var s := Zero.After(g, Zero.Initial(g), run);
    assert ResultsOk(g, s.ranks[r].out);
    forall i | 0 <= i < g.calls[c].count
      ensures Extreme(arithmetic, operation, Contributions(g, c, i), g.Reduced(c, i))
    {
      ReducedIsExtreme(g, c, i, arithmetic, operation);
    }
  }

  /** Agreement with no algebra at all: whatever the operation, two ranks that
    have returned from a call hold the same buffer. */
  lemma Agreement<T>(g: Ring<T>, run: seq<Zero.Label>, a: nat, b: nat, c: nat)
    requires g.Valid() && g.TagsFit() && ZeroCopyInvariant.FitsDevice(g) && Zero.Executable(g, Zero.Initial(g), run)
    requires a < g.size && b < g.size
    ensures var s := Zero.After(g, Zero.Initial(g), run);
            && |s.ranks| == g.size
            && (c < s.ranks[a].call && c < s.ranks[b].call ==>
                  c < |s.ranks[a].out| && c < |s.ranks[b].out| && s.ranks[a].out[c] == s.ranks[b].out[c])
  {
    hide Zero.Executable, Zero.After, Ring.TagsFit, ZeroCopyInvariant.FitsDevice;
    ZeroCopyTheorems.AllReduceCorrect(g, run);
    var s := Zero.After(g, Zero.Initial(g), run);
    assert ResultsOk(g, s.ranks[a].out) && ResultsOk(g, s.ranks[b].out);
    hide Ring.Reduced;
  }
}
