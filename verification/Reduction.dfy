/** Element-wise reduction in place. */
module Reduction {
  import opened BlockLayout
  import opened Buffers
  import opened Tags

  /** Enumerators, and every other value the C interface lets through. */
  datatype Datatype = Int32 | Float32 | Float64 | OtherDatatype

  datatype Operation = Sum | Minimum | Maximum | OtherOperation

  function DatatypeSize(kind: Datatype): nat {
    match kind
    case Int32 => 4
    case Float32 => 4
    case Float64 => 8
    case OtherDatatype => 0
  }

  const INT32_MAX := 0x7FFF_FFFF
  const INT32_MIN := -0x8000_0000

  /** The bits of a value: two's complement, or sign, exponent and fraction of
    the IEEE formats. */
  function Width(kind: Datatype): nat {
    match kind
    case Int32 => 32
    case Float32 => 1 + 8 + 23
    case Float64 => 1 + 11 + 52
    case OtherDatatype => 0
  }

  /** An element has room for exactly the values of its type. */
  lemma SizeHoldsValues(kind: Datatype)
    ensures 8 * DatatypeSize(kind) == Width(kind)
    ensures kind.Int32? ==> DatatypeSize(kind) >= 1
    ensures kind.Int32? ==>
              Pow2(8 * DatatypeSize(kind) - 1) == INT32_MAX + 1 && Pow2(8 * DatatypeSize(kind) - 1) + INT32_MIN == 0
    ensures DatatypeSize(kind) == 0 <==> kind.OtherDatatype?
  {
    Weights();
    assert Pow2(22) == 0x40_0000;
    assert Pow2(24) == 0x100_0000;
    assert Pow2(26) == 0x400_0000;
    assert Pow2(28) == 0x1000_0000;
    assert Pow2(30) == 0x4000_0000;
  }

  /** Addition and order of an element type. */
  datatype Arithmetic<!T> = Arithmetic(add: (T, T) -> T, less: (T, T) -> bool) {

    /** The selection of the C++ library: the first operand unless the second
      is strictly smaller. */
    function Least(a: T, b: T): T { if less(b, a) then b else a }

    function Greatest(a: T, b: T): T { if less(a, b) then b else a }

    function Kernel(operation: Operation): (T, T) -> T
      requires !operation.OtherOperation?
    {
      match operation
      case Sum => add
      case Minimum => (a, b) => Least(a, b)
      case Maximum => (a, b) => Greatest(a, b)
    }

    /** The order does not put either operand before itself, nor each before
      the other. */
    predicate Orders(a: T, b: T) {
      !less(a, a) && !less(b, b) && !(less(a, b) && less(b, a))
    }

    /** What an operation is to make of two operands: their sum, or the one of
      them that neither is beyond, the first if they are tied. */
    ghost predicate Makes(operation: Operation, a: T, b: T, r: T) {
      match operation
      case Sum => r == add(a, b)
      case Minimum => Orders(a, b) ==> (r == a || r == b) && !less(a, r) && !less(b, r) && (!less(b, a) ==> r == a)
      case Maximum => Orders(a, b) ==> (r == a || r == b) && !less(r, a) && !less(r, b) && (!less(a, b) ==> r == a)
      case OtherOperation => true
    }

    lemma KernelMakes(operation: Operation, a: T, b: T)
      requires !operation.OtherOperation?
      ensures Makes(operation, a, b, Kernel(operation)(a, b))
    {}

    /** `now` is `before` with every element of `data` worked into its place,
      and nothing else changed. */
    ghost predicate AllMade(operation: Operation, before: seq<T>, data: seq<T>, to: nat, now: seq<T>) {
      && to + |data| <= |before| == |now|
      && (forall i :: 0 <= i < |data| ==> Makes(operation, before[to + i], data[i], now[to + i]))
      && (forall i :: 0 <= i < |now| && !(to <= i < to + |data|) ==> now[i] == before[i])
    }

    lemma CombineMakes(operation: Operation, before: seq<T>, data: seq<T>, to: nat)
      requires !operation.OtherOperation? && to + |data| <= |before|
      ensures AllMade(operation, before, data, to, Combine(Kernel(operation), before, to, data))
    {
      hide Makes, Combine;
      var now := Combine(Kernel(operation), before, to, data);
      forall i | 0 <= i < |data|
        ensures Makes(operation, before[to + i], data[i], now[to + i])
      {
        KernelMakes(operation, before[to + i], data[i]);
        hide Kernel;
      }
      hide Kernel;
    }
  }

  /** The loops, one per operation: `count` elements of `destination` from `to`
    and of `source` from `from` on. */
  method AddInto<T>(arithmetic: Arithmetic<T>, destination: array<T>, to: nat, source: array<T>, from: nat, count: nat)
    requires to + count <= destination.Length && from + count <= source.Length
    requires source == destination ==> from == to || from + count <= to || to + count <= from
    modifies destination
    ensures destination[..] == Combine(arithmetic.add, old(destination[..]), to, old(source[from..from + count]))
  {
    hide Reduced;
    ghost var before, data := destination[..], source[from..from + count];
    NoneReduced(arithmetic.add, before, data, to);
    for i := 0 to count
      invariant Reduced(arithmetic.add, before, data, to, i, destination[..])
      invariant source != destination ==> source[from..from + count] == data
    {
      ReadsOld(arithmetic.add, before, data, to, from, i, destination, source);
      ghost var now := destination[..];
      destination[to + i] := arithmetic.add(destination[to + i], source[from + i]);
      assert destination[..] == now[to + i := arithmetic.add(before[to + i], data[i])];
      OneReduced(arithmetic.add, before, data, to, i, now);
    }
    AllReduced(arithmetic.add, before, data, to, destination[..]);
  }

  method LeastInto<T>(arithmetic: Arithmetic<T>, destination: array<T>, to: nat, source: array<T>, from: nat, count: nat)
    requires to + count <= destination.Length && from + count <= source.Length
    requires source == destination ==> from == to || from + count <= to || to + count <= from
    modifies destination
    ensures destination[..] == Combine(arithmetic.Kernel(Minimum), old(destination[..]), to, old(source[from..from + count]))
  {
    hide Reduced;
    ghost var before, data := destination[..], source[from..from + count];
    NoneReduced(arithmetic.Kernel(Minimum), before, data, to);
    for i := 0 to count
      invariant Reduced(arithmetic.Kernel(Minimum), before, data, to, i, destination[..])
      invariant source != destination ==> source[from..from + count] == data
    {
      ReadsOld(arithmetic.Kernel(Minimum), before, data, to, from, i, destination, source);
      ghost var now := destination[..];
      destination[to + i] := arithmetic.Least(destination[to + i], source[from + i]);
      assert destination[..] == now[to + i := arithmetic.Kernel(Minimum)(before[to + i], data[i])];
      OneReduced(arithmetic.Kernel(Minimum), before, data, to, i, now);
    }
    AllReduced(arithmetic.Kernel(Minimum), before, data, to, destination[..]);
  }

  method GreatestInto<T>(arithmetic: Arithmetic<T>, destination: array<T>, to: nat, source: array<T>, from: nat, count: nat)
    requires to + count <= destination.Length && from + count <= source.Length
    requires source == destination ==> from == to || from + count <= to || to + count <= from
    modifies destination
    ensures destination[..] == Combine(arithmetic.Kernel(Maximum), old(destination[..]), to, old(source[from..from + count]))
  {
    hide Reduced;
    ghost var before, data := destination[..], source[from..from + count];
    NoneReduced(arithmetic.Kernel(Maximum), before, data, to);
    for i := 0 to count
      invariant Reduced(arithmetic.Kernel(Maximum), before, data, to, i, destination[..])
      invariant source != destination ==> source[from..from + count] == data
    {
      ReadsOld(arithmetic.Kernel(Maximum), before, data, to, from, i, destination, source);
      ghost var now := destination[..];
      destination[to + i] := arithmetic.Greatest(destination[to + i], source[from + i]);
      assert destination[..] == now[to + i := arithmetic.Kernel(Maximum)(before[to + i], data[i])];
      OneReduced(arithmetic.Kernel(Maximum), before, data, to, i, now);
    }
    AllReduced(arithmetic.Kernel(Maximum), before, data, to, destination[..]);
  }

  /** The switch over the operations. */
  method ReduceTyped<T>(arithmetic: Arithmetic<T>, destination: array?<T>, to: nat, source: array?<T>, from: nat,
                        count: nat, operation: Operation)
    returns (status: Status)
    requires destination != null && source != null ==>
               to + count <= destination.Length && from + count <= source.Length
    requires destination != null && source == destination ==> from == to || from + count <= to || to + count <= from
    modifies destination
    ensures destination == null || source == null ==> status == if count == 0 then Success else InvalidArgument
    ensures destination != null && source != null ==>
              status == if operation.OtherOperation? then UnsupportedOperation else Success
    ensures destination != null && source != null && status == Success ==>
              destination[..] == Combine(arithmetic.Kernel(operation), old(destination[..]), to,
                                         old(source[from..from + count]))
    ensures destination != null && source != null && status == Success ==>
              arithmetic.AllMade(operation, old(destination[..]), old(source[from..from + count]), to, destination[..])
    ensures destination != null && (source == null || status != Success) ==> destination[..] == old(destination[..])
  {
    hide Arithmetic.AllMade;
    if destination == null || source == null {
      return if count == 0 then Success else InvalidArgument;
    }
    if !operation.OtherOperation? {
      arithmetic.CombineMakes(operation, destination[..], source[from..from + count], to);
    }
    match operation
    case Sum =>
      AddInto(arithmetic, destination, to, source, from, count);
      return Success;
    case Minimum =>
      LeastInto(arithmetic, destination, to, source, from, count);
      return Success;
    case Maximum =>
      GreatestInto(arithmetic, destination, to, source, from, count);
      return Success;
    case OtherOperation =>
      return UnsupportedOperation;
  }

  /** The first `n` elements of the region have been combined. */
  ghost predicate Reduced<T>(op: (T, T) -> T, before: seq<T>, data: seq<T>, to: nat, n: nat, now: seq<T>) {
    && n <= |data| && to + |data| <= |before| == |now|
    && forall i :: 0 <= i < |now| ==> now[i] == if to <= i < to + n then op(before[i], data[i - to]) else before[i]
  }

  lemma NoneReduced<T>(op: (T, T) -> T, before: seq<T>, data: seq<T>, to: nat)
    requires to + |data| <= |before|
    ensures Reduced(op, before, data, to, 0, before)
  {}

  lemma OneReduced<T>(op: (T, T) -> T, before: seq<T>, data: seq<T>, to: nat, i: nat, now: seq<T>)
    requires Reduced(op, before, data, to, i, now) && i < |data|
    ensures Reduced(op, before, data, to, i + 1, now[to + i := op(before[to + i], data[i])])
  {}

  lemma AllReduced<T>(op: (T, T) -> T, before: seq<T>, data: seq<T>, to: nat, now: seq<T>)
    requires Reduced(op, before, data, to, |data|, now)
    ensures now == Combine(op, before, to, data)
  {
    IsCombine(op, before, now, to, data);
  }

  /** The operands of iteration `i` have not been overwritten, also when both
    regions are the same or lie apart in one array. */
  lemma ReadsOld<T>(op: (T, T) -> T, before: seq<T>, data: seq<T>, to: nat, from: nat, i: nat, destination: array<T>,
                    source: array<T>)
    requires Reduced(op, before, data, to, i, destination[..]) && i < |data|
    requires to + |data| <= destination.Length && from + |data| <= source.Length
    requires source != destination ==> source[from..from + |data|] == data
    requires source == destination ==> data == before[from..from + |data|]
    requires source == destination ==> from == to || from + |data| <= to || to + |data| <= from
    ensures destination[to + i] == before[to + i] && source[from + i] == data[i]
  {
    assert destination[..][to + i] == before[to + i];
    if source == destination {
      assert destination[..][from + i] == before[from + i];
    } else {
      assert source[from..from + |data|][i] == data[i];
    }
  }

  /** Dispatch on the element type. Nothing is looked at for an empty region,
    and the operation only when there is something to reduce. */
  method ReduceInPlace<T>(arithmetic: Arithmetic<T>, destination: array?<T>, to: nat, source: array?<T>, from: nat,
                          count: nat, kind: Datatype, operation: Operation)
    returns (status: Status)
    requires destination != null && source != null ==>
               to + count <= destination.Length && from + count <= source.Length
    requires destination != null && source == destination ==> from == to || from + count <= to || to + count <= from
    modifies destination
    ensures status ==
            if count == 0 then Success
            else if kind.OtherDatatype? then UnsupportedDatatype
            else if destination == null || source == null then InvalidArgument
            else if operation.OtherOperation? then UnsupportedOperation
            else Success
    ensures destination != null ==>
              destination[..] ==
              if status == Success && count > 0 then
                Combine(arithmetic.Kernel(operation), old(destination[..]), to, old(source[from..from + count]))
              else old(destination[..])
    ensures destination != null && source != null && status == Success && count > 0 ==>
              arithmetic.AllMade(operation, old(destination[..]), old(source[from..from + count]), to, destination[..])
  {
    hide Arithmetic.AllMade;
    if count == 0 {
      return Success;
    }
    match kind
    case Int32 | Float32 | Float64 =>
      status := ReduceTyped(arithmetic, destination, to, source, from, count, operation);
    case OtherDatatype =>
      status := UnsupportedDatatype;
  }

  // --- the operations on integers ------------------------------------------------------

  const INTEGERS := Arithmetic((a: int, b: int) => a + b, (a: int, b: int) => a < b)

  lemma IntegerOperations(a: int, b: int)
    ensures INTEGERS.Kernel(Sum)(a, b) == a + b
    ensures INTEGERS.Kernel(Minimum)(a, b) == (if a <= b then a else b)
    ensures INTEGERS.Kernel(Maximum)(a, b) == (if a <= b then b else a)
  {}

  /** Every operation is associative and commutative on integers, so the order
    in which a ring combines contributions does not show. */
  lemma IntegerKernels(operation: Operation, a: int, b: int, c: int)
    requires !operation.OtherOperation?
    ensures var k := INTEGERS.Kernel(operation); k(a, b) == k(b, a) && k(k(a, b), c) == k(a, k(b, c))
  {}
}
