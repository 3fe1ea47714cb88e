/** The partition of a buffer into one block per rank, and of every block into
  pipeline pieces of whole elements. */
module BlockLayout {
  import opened RingArithmetic

  // --- pieces ------------------------------------------------------------

  const DEFAULT_PIECE_BYTES: nat := 64 * 1024

  function PieceElementsFor(pieceBytes: nat, elementSize: nat): (n: nat)
    requires elementSize > 0
    ensures n >= 1
  {
    var requestedBytes := if pieceBytes == 0 then DEFAULT_PIECE_BYTES else pieceBytes;
    Max(1, requestedBytes / elementSize)
  }

  /** As many whole elements as fit into the bytes asked for, 65536 if none are,
    and at least one. */
  lemma PiecesFillBytes(pieceBytes: nat, elementSize: nat)
    requires elementSize > 0
    ensures var n, bytes := PieceElementsFor(pieceBytes, elementSize), if pieceBytes == 0 then 65536 else pieceBytes;
            if elementSize <= bytes then n * elementSize <= bytes < (n + 1) * elementSize else n == 1
  {
    DivBounds(if pieceBytes == 0 then 65536 else pieceBytes, elementSize);
  }

  function PieceCountFor(elementCount: nat, pieceElements: nat): (n: nat)
    requires pieceElements > 0
  {
    if elementCount == 0 then 0 else (elementCount + pieceElements - 1) / pieceElements
  }

  /** The pieces are numbered by exactly those `p` whose first element lies in
    the block. */
  lemma PieceStartsInside(elementCount: nat, pieceElements: nat, p: nat)
    requires pieceElements > 0
    ensures p < PieceCountFor(elementCount, pieceElements) <==> p * pieceElements < elementCount
  {
    if elementCount > 0 {
      var n, e := PieceCountFor(elementCount, pieceElements), pieceElements;
      assert n * e <= elementCount + e - 1 < n * e + e;
      if p < n {
        MulMonotone(p + 1, n, e);
      } else {
        MulMonotone(n, p, e);
      }
    }
  }

  // --- blocks ------------------------------------------------------------

  function BlockCount(size: nat, count: nat, b: nat): nat
    requires size > 0
  {
    count / size + if b < count % size then 1 else 0
  }

  function BlockOffset(size: nat, count: nat, b: nat): nat
    requires size > 0
  {
    if b == 0 then 0 else BlockOffset(size, count, b - 1) + BlockCount(size, count, b - 1)
  }

  /** `size` blocks over `count` elements, cut into pieces of `pieceElements`. */
  datatype Shape = Shape(size: nat, count: nat, pieceElements: nat) {

    predicate Valid() {
      size >= 1 && pieceElements >= 1
    }

    function Count(b: nat): nat
      requires Valid()
    {
      BlockCount(size, count, b)
    }

    function Offset(b: nat): nat
      requires Valid()
    {
      BlockOffset(size, count, b)
    }

    function Pieces(b: nat): nat
      requires Valid()
    {
      PieceCountFor(Count(b), pieceElements)
    }

    /** Position in its block of the first element of piece `p`. */
    function Start(p: nat): nat { p * pieceElements }

    function Length(b: nat, p: nat): int
      requires Valid()
    {
      Min(pieceElements, Count(b) - Start(p))
    }

    /** The elements of the whole buffer that piece `p` of block `b` covers. */
    predicate Covers(b: nat, p: nat, i: nat)
      requires Valid()
    {
      Offset(b) + Start(p) <= i < Offset(b) + Start(p) + Length(b, p)
    }

    /** The block an element belongs to, searching from block `b` on. */
    function BlockFrom(b: nat, i: nat): (r: nat)
      requires Valid() && Offset(b) <= i < count && b < size
      ensures b <= r < size && Offset(r) <= i < Offset(r + 1)
      decreases size - b
    {
      OffsetEnd();
      if i < Offset(b + 1) then b else BlockFrom(b + 1, i)
    }

    function BlockOf(i: nat): (b: nat)
      requires Valid() && i < count
      ensures b < size && Offset(b) <= i < Offset(b) + Count(b)
    {
      var b := BlockFrom(0, i);
      assert Offset(b + 1) == Offset(b) + Count(b);
      b
    }

    function PieceOf(i: nat): nat
      requires Valid() && i < count
    {
      (i - Offset(BlockOf(i))) / pieceElements
    }

    function MaxBlockCount(): nat
      requires Valid()
    {
      Count(0)
    }

    // --- facts -----------------------------------------------------------

    lemma {:induction false} OffsetClosedForm(b: nat)
      requires Valid() && b <= size
      ensures Offset(b) == b * (count / size) + Min(b, count % size)
    {
      if b > 0 {
        OffsetClosedForm(b - 1);
        MulMonotone(b - 1, b, count / size);
      }
    }

    lemma OffsetEnd()
      requires Valid()
      ensures Offset(size) == count
    {
      OffsetClosedForm(size);
    }

    lemma {:induction false} OffsetMonotone(a: nat, b: nat)
      requires Valid() && a <= b
      ensures Offset(a) <= Offset(b)
      decreases b - a
    {
      if a < b { OffsetMonotone(a, b - 1); }
    }

    /** Block sizes differ by at most one, larger blocks first, and the widest
      block is block 0. */
    lemma Balanced(a: nat, b: nat)
      requires Valid() && a <= b
      ensures Count(b) <= Count(a) <= Count(b) + 1
      ensures Count(b) <= MaxBlockCount()
    {}

    lemma BlockOfUnique(b: nat, i: nat)
      requires Valid() && b < size && i < count && Offset(b) <= i < Offset(b) + Count(b)
      ensures BlockOf(i) == b
    {
      var c := BlockOf(i);
      assert Offset(b + 1) == Offset(b) + Count(b) && Offset(c + 1) == Offset(c) + Count(c);
      if c < b {
        OffsetMonotone(c + 1, b);
      } else if b < c {
        OffsetMonotone(b + 1, c);
      }
    }

    /** Tiling, one piece: its region is not empty, lies in its block, lies in
      the buffer, and fits the temporary buffer at its block-relative position. */
    lemma PieceInside(b: nat, p: nat)
      requires Valid() && b < size && p < Pieces(b)
      ensures 1 <= Length(b, p) <= pieceElements
      ensures Start(p) + Length(b, p) <= Count(b) <= MaxBlockCount()
      ensures Offset(b) + Start(p) + Length(b, p) <= Offset(b) + Count(b) <= count
    {
      PieceStartsInside(Count(b), pieceElements, p);
      OffsetEnd();
      OffsetMonotone(b + 1, size);
      assert Offset(b + 1) == Offset(b) + Count(b);
    }

    /** Tiling, all pieces: every element of the buffer is covered by piece
      `PieceOf(i)` of block `BlockOf(i)`, and by no other piece. */
    lemma CoveredOnce(b: nat, p: nat, i: nat)
      requires Valid() && b < size && p < Pieces(b)
      ensures Covers(b, p, i) <==> i < count && BlockOf(i) == b && PieceOf(i) == p
      ensures i < count ==> PieceOf(i) < Pieces(BlockOf(i))
    {
      PieceInside(b, p);
      if i < count {
        PieceOfInside(i);
      }
      if Covers(b, p, i) {
        BlockOfUnique(b, i);
        assert 0 <= i - Offset(b) - Start(p) < pieceElements;
        DivUnique(i - Offset(b), p, pieceElements);
      } else if i < count && BlockOf(i) == b && PieceOf(i) == p {
        DivBounds(i - Offset(b), pieceElements);
      }
    }

    lemma PieceOfInside(i: nat)
      requires Valid() && i < count
      ensures PieceOf(i) < Pieces(BlockOf(i))
    {
      DivBounds(i - Offset(BlockOf(i)), pieceElements);
      PieceStartsInside(Count(BlockOf(i)), pieceElements, PieceOf(i));
    }

    /** Consecutive pieces of a block meet without gap or overlap, and the last
      one ends where the block ends. */
    lemma PiecesInOrder(b: nat, p: nat)
      requires Valid() && b < size && p < Pieces(b)
      ensures p + 1 < Pieces(b) ==> Start(p) + Length(b, p) == Start(p + 1)
      ensures p + 1 == Pieces(b) ==> Start(p) + Length(b, p) == Count(b)
    {
      PieceStartsInside(Count(b), pieceElements, p);
      PieceStartsInside(Count(b), pieceElements, p + 1);
      MulMonotone(p, p + 1, pieceElements);
    }
  }

  // --- the layout computation --------------------------------------------

  datatype Status = Success | InvalidArgument | NoMemory | Transport | UnsupportedDatatype
                  | UnsupportedOperation | TagRange

  /** Fills the two tables of a layout. The caller's tables keep their contents
    when the world size is rejected. */
  method ComputeBlockLayout(count: nat, worldSize: int, counts0: seq<nat>, offsets0: seq<nat>)
    returns (status: Status, counts: seq<nat>, offsets: seq<nat>)
    ensures worldSize <= 0 ==> status == InvalidArgument && counts == counts0 && offsets == offsets0
    ensures worldSize > 0 ==>
              && status == Success && |counts| == |offsets| == worldSize
              && (forall b :: 0 <= b < worldSize ==> counts[b] == BlockCount(worldSize, count, b))
              && (forall b :: 0 <= b < worldSize ==> offsets[b] == BlockOffset(worldSize, count, b))
  {
    counts, offsets := counts0, offsets0;
    if worldSize <= 0 {
      return InvalidArgument, counts, offsets;
    }
    counts, offsets := seq(worldSize, _ => 0), seq(worldSize, _ => 0);
    var base := count / worldSize;
    var remainder := count % worldSize;
    var runningOffset: nat := 0;
    for block := 0 to worldSize
      invariant |counts| == |offsets| == worldSize
      invariant runningOffset == BlockOffset(worldSize, count, block)
      invariant forall b :: 0 <= b < block ==> counts[b] == BlockCount(worldSize, count, b)
      invariant forall b :: 0 <= b < block ==> offsets[b] == BlockOffset(worldSize, count, b)
    {
      var blockCount: nat := base + if block < remainder then 1 else 0;
      assert blockCount == BlockCount(worldSize, count, block);
      hide BlockCount;
      counts := counts[block := blockCount];
      offsets := offsets[block := runningOffset];
      runningOffset := runningOffset + blockCount;
    }
    status := Success;
  }
}
