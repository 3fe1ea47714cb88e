/** A process group running a sequence of all-reduce calls, and what every
  element of every rank's buffer is worth at every point of the schedule. */
module Group {
  import opened RingArithmetic
  import opened BlockLayout
  import opened Tags
  import opened Schedule

  datatype Mode = Auto | Eager | Rendezvous

  /** The longest message a work request or a descriptor can name. */
  const MAX_BYTES: nat := 0xFFFF_FFFF

  /** Piece `piece` of the block that travels over a link in step `step`. */
  datatype Id = Id(call: nat, step: nat, piece: nat)

  lemma WrapKeepsLowBits(x: nat)
    ensures x % 0x1_0000_0000 % 0x1000 == x % 0x1000
  {}

  /** One collective call; `input[r]` is what rank `r` contributes. Elements
    are of any type and `op` is any binary operation. */
  datatype Call<!T> = Call(count: nat, elementSize: nat, mode: Mode, op: (T, T) -> T, input: seq<seq<T>>)

  /** `capacities[r]` is the number of pieces rank `r` posts per batch. */
  datatype Ring<!T> = Ring(size: nat, pieceBytes: nat, capacities: seq<nat>, calls: seq<Call<T>>) {

    ghost predicate Valid() {
      && size >= 1 && |capacities| == size
      && (forall r :: 0 <= r < size ==> capacities[r] >= 1)
      && (forall c :: 0 <= c < |calls| ==> CallOk(calls[c]))
    }

    ghost predicate CallOk(call: Call<T>) {
      && call.count >= 1 && call.elementSize >= 1 && |call.input| == size
      && (forall r :: 0 <= r < size ==> |call.input[r]| == call.count)
    }

    ghost function ShapeOf(c: nat): (shape: Shape)
      requires Valid() && c < |calls|
      ensures shape.Valid() && shape.size == size && shape.count == calls[c].count
    {
      Shape(size, calls[c].count, PieceElementsFor(pieceBytes, calls[c].elementSize))
    }

    ghost function LocalOf(r: nat, c: nat): (loc: Local)
      requires Valid() && r < size && c < |calls|
      ensures loc.Valid() && loc.shape == ShapeOf(c) && loc.rank == r && loc.capacity == capacities[r]
    {
      Local(ShapeOf(c), r, capacities[r])
    }

    // --- messages --------------------------------------------------------

    /** A piece some rank is to receive: the message's identity on its link. */
    ghost predicate IdOk(r: nat, id: Id)
      requires Valid() && r < size
    {
      id.call < |calls| && id.step < LocalOf(r, id.call).Steps()
      && id.piece < LocalOf(r, id.call).RecvPieces(id.step)
    }

    /** The context's sequence number is a 32-bit counter of finished calls. */
    ghost function TagOf(id: Id): MadeTag
      requires Valid() && id.call < |calls|
    {
      var loc := LocalOf(0, id.call);
      MakeTag(id.call % 0x1_0000_0000, loc.Gathering(id.step), loc.PhaseStep(id.step), id.piece)
    }

    /** Every message of every call can be tagged. */
    ghost predicate TagsFit()
      requires Valid()
    {
      forall r: nat, id: Id :: r < size && IdOk(r, id) ==> TagOf(id).Tag?
    }

    lemma TagInRange(r: nat, id: Id)
      requires Valid() && TagsFit() && r < size && IdOk(r, id)
      ensures TagOf(id).Tag?
    {}

    /** Tags suffice exactly for groups of up to 129 ranks whose largest block
      has at most 4096 pieces. */
    lemma TagsFitExactly()
      requires Valid()
      ensures TagsFit() <==>
                size == 1 || |calls| == 0
                || (size <= 129 && forall c :: 0 <= c < |calls| ==> ShapeOf(c).Pieces(0) <= PIECE_LIMIT)
    {
      if size > 1 && |calls| > 0 {
        if size <= 129 && forall c :: 0 <= c < |calls| ==> ShapeOf(c).Pieces(0) <= PIECE_LIMIT {
          forall r: nat, id: Id | r < size && IdOk(r, id)
            ensures TagOf(id).Tag?
          {
            InRangeWhenSmall(r, id);
          }
        } else if size > 129 {
          FarStepNotTagged(0);
        } else {
          var c :| 0 <= c < |calls| && ShapeOf(c).Pieces(0) > PIECE_LIMIT;
          LatePieceNotTagged(c);
        }
      }
    }

    lemma InRangeWhenSmall(r: nat, id: Id)
      requires Valid() && r < size && IdOk(r, id) && size <= 129 && ShapeOf(id.call).Pieces(0) <= PIECE_LIMIT
      ensures TagOf(id).Tag?
    {
      var loc := LocalOf(r, id.call);
      PiecesMonotone(ShapeOf(id.call), loc.RecvBlock(id.step));
    }

    /** Block 0 is not empty and travels in every step of either phase. */
    lemma FarStepNotTagged(c: nat)
      requires Valid() && c < |calls| && size > 129
      ensures IdOk(size - 1, Id(c, size - 2, 0)) && TagOf(Id(c, size - 2, 0)).OutOfRange?
    {
      FirstBlockNotEmpty(c);
      var loc := LocalOf(size - 1, c);
      assert loc.RecvHops(size - 2) == size - 1 && loc.RecvBlock(size - 2) == 0;
    }

    lemma LatePieceNotTagged(c: nat)
      requires Valid() && c < |calls| && size > 1 && ShapeOf(c).Pieces(0) > PIECE_LIMIT
      ensures IdOk(1, Id(c, 0, PIECE_LIMIT)) && TagOf(Id(c, 0, PIECE_LIMIT)).OutOfRange?
    {
      var loc := LocalOf(1, c);
      assert loc.RecvHops(0) == 1 && loc.RecvBlock(0) == 0;
    }

    lemma FirstBlockNotEmpty(c: nat)
      requires Valid() && c < |calls|
      ensures ShapeOf(c).Pieces(0) >= 1
    {
      var shape := ShapeOf(c);
      assert shape.count == shape.count / shape.size * shape.size + shape.count % shape.size;
      PieceStartsInside(shape.Count(0), shape.pieceElements, 0);
    }

    lemma PiecesMonotone(shape: Shape, b: nat)
      requires shape.Valid() && b < shape.size
      ensures shape.Pieces(b) <= shape.Pieces(0)
    {
      if shape.Pieces(b) > shape.Pieces(0) {
        PieceStartsInside(shape.Count(b), shape.pieceElements, shape.Pieces(0));
        PieceStartsInside(shape.Count(0), shape.pieceElements, shape.Pieces(0));
        shape.Balanced(0, b);
      }
    }

    /** The bytes of a message. */
    ghost function BytesOf(r: nat, id: Id): nat
      requires Valid() && r < size && IdOk(r, id)
    {
      LocalOf(r, id.call).RecvLength(id.step, id.piece) * calls[id.call].elementSize
    }

    /** Every message of every call is short enough for a work request. */
    ghost predicate BytesFit()
      requires Valid()
    {
      forall r: nat, id: Id :: r < size && IdOk(r, id) ==> BytesOf(r, id) <= MAX_BYTES
    }

    lemma BytesInRange(r: nat, id: Id)
      requires Valid() && BytesFit() && r < size && IdOk(r, id)
      ensures BytesOf(r, id) <= MAX_BYTES
    {}

    ghost predicate MessageFits(r: nat, id: Id)
      requires Valid() && r < size && IdOk(r, id)
    {
      TagOf(id).Tag? && BytesOf(r, id) <= MAX_BYTES
    }

    /** The elements of the first piece of the first block, of which no piece has more. */
    ghost function LargestPiece(c: nat): nat
      requires Valid() && c < |calls|
    {
      Min(ShapeOf(c).pieceElements, ShapeOf(c).Count(0))
    }

    lemma PieceWithinLargest(r: nat, id: Id)
      requires Valid() && r < size && IdOk(r, id)
      ensures LocalOf(r, id.call).RecvLength(id.step, id.piece) <= LargestPiece(id.call)
    {
      var loc := LocalOf(r, id.call);
      loc.shape.Balanced(0, loc.RecvBlock(id.step));
    }

    lemma LargestPieceTravels(c: nat)
      requires Valid() && c < |calls| && size > 1
      ensures IdOk(1, Id(c, 0, 0)) && LocalOf(1, c).RecvLength(0, 0) == LargestPiece(c)
    {
      FirstBlockNotEmpty(c);
      var loc := LocalOf(1, c);
      assert loc.RecvHops(0) == 1 && loc.RecvBlock(0) == 0;
      assert loc.shape.Start(0) == 0;
    }

    lemma BytesFitExactly()
      requires Valid()
      ensures BytesFit() <==>
                size == 1 || |calls| == 0
                || forall c :: 0 <= c < |calls| ==> LargestPiece(c) * calls[c].elementSize <= MAX_BYTES
    {
      hide Local.RecvLength, LargestPiece, ShapeOf;
      forall r: nat, id: Id | r < size && IdOk(r, id)
        ensures BytesOf(r, id) <= LargestPiece(id.call) * calls[id.call].elementSize && size > 1
      {
        PieceWithinLargest(r, id);
        MulMonotone(LocalOf(r, id.call).RecvLength(id.step, id.piece), LargestPiece(id.call), calls[id.call].elementSize);
      }
      forall c | 0 <= c < |calls| && size > 1
        ensures IdOk(1, Id(c, 0, 0)) && BytesOf(1, Id(c, 0, 0)) == LargestPiece(c) * calls[c].elementSize
      {
        LargestPieceTravels(c);
      }
      hide IdOk, BytesOf;
    }

    /** Within two consecutive calls a tag names one message of a link. */
    lemma TagDistinguishes(r: nat, id: Id, id': Id)
      requires Valid() && TagsFit() && r < size && IdOk(r, id) && IdOk(r, id')
      requires TagOf(id) == TagOf(id') && id.call <= id'.call <= id.call + 1
      ensures id == id'
    {
      TagInRange(r, id);
      TagInRange(r, id');
      hide TagsFit, IdOk, Shape.Pieces, Local.SendPieces, Local.RecvPieces;
      var loc, loc' := LocalOf(0, id.call), LocalOf(0, id'.call);
      Injective(id.call % 0x1_0000_0000, loc.Gathering(id.step), loc.PhaseStep(id.step), id.piece,
                id'.call % 0x1_0000_0000, loc'.Gathering(id'.step), loc'.PhaseStep(id'.step), id'.piece);
      ConsecutiveSequencesDiffer(id.call);
      WrapKeepsLowBits(id.call);
      WrapKeepsLowBits(id'.call);
    }

    // --- frontiers over a run of calls -------------------------------------

    /** A rank that is in call `call` at cursor `at` has waited for this receive. */
    ghost predicate Waited(r: nat, call: nat, at: Cursor, id: Id)
      requires Valid() && r < size && IdOk(r, id)
    {
      id.call < call || (id.call == call && id.piece < LocalOf(r, call).RecvWaited(at, id.step))
    }

    /** ... has posted this receive. */
    ghost predicate Requested(r: nat, call: nat, at: Cursor, id: Id)
      requires Valid() && r < size && IdOk(r, id)
    {
      id.call < call || (id.call == call && id.piece < LocalOf(r, call).RecvPosted(at, id.step))
    }

    /** ... has posted the send of this message to the next rank. */
    ghost predicate Posted(q: nat, call: nat, at: Cursor, id: Id)
      requires Valid() && q < size && IdOk(Next(size, q), id)
    {
      id.call < call || (id.call == call && id.piece < LocalOf(q, call).SendPosted(at, id.step))
    }

    /** The pieces a rank sends in a step are those its successor receives. */
    lemma SameLink(q: nat, c: nat, step: nat)
      requires Valid() && q < size && c < |calls|
      ensures LocalOf(q, c).SendPieces(step) == LocalOf(Next(size, q), c).RecvPieces(step)
      ensures step < LocalOf(q, c).Steps() ==>
                LocalOf(q, c).SendBlock(step) == LocalOf(Next(size, q), c).RecvBlock(step)
      ensures forall p :: 0 <= p < LocalOf(q, c).SendPieces(step) ==>
                && LocalOf(q, c).SendFirst(step, p) == LocalOf(Next(size, q), c).RecvFirst(step, p)
                && LocalOf(q, c).SendLength(step, p) == LocalOf(Next(size, q), c).RecvLength(step, p)
    {
      RotationsAgree(size, q, 0);
      if step < LocalOf(q, c).Steps() {
        RingStep(LocalOf(Next(size, q), c), LocalOf(q, c), step);
      }
    }

    /** What a rank receives in a step its predecessor received a step before. */
    lemma ReceivedBefore(q: nat, c: nat, step: nat)
      requires Valid() && q < size && c < |calls| && 1 <= step < LocalOf(q, c).Steps()
      ensures LocalOf(q, c).RecvPieces(step - 1) == LocalOf(Next(size, q), c).RecvPieces(step)
    {
      SameLink(q, c, step);
      SameLink(Prev(size, q), c, step - 1);
      RotationsAgree(size, q, 0);
      RingStep(LocalOf(q, c), LocalOf(Prev(size, q), c), step - 1);
    }

    // --- values ----------------------------------------------------------

    /** Element `i` of block `b` after it has travelled `d` hops from rank `b`:
      every rank combines its own value, on the left, with what arrives. */
    ghost function Fold(c: nat, i: nat, b: nat, d: nat): T
      requires Valid() && c < |calls| && i < calls[c].count && b < size && d < size
    {
      if d == 0 then calls[c].input[b][i]
      else calls[c].op(calls[c].input[Forward(size, b, d)][i], Fold(c, i, b, d - 1))
    }

    /** The element a message of step `step` carries. */
    ghost function Sent(c: nat, step: nat, i: nat): T
      requires Valid() && c < |calls| && i < calls[c].count
    {
      Fold(c, i, ShapeOf(c).BlockOf(i), Min(step, size - 1))
    }

    /** The element of the result: the fold over the whole ring. */
    ghost function Reduced(c: nat, i: nat): T
      requires Valid() && c < |calls| && i < calls[c].count
    {
      Fold(c, i, ShapeOf(c).BlockOf(i), size - 1)
    }

    /** Element `i` of rank `r`'s buffer when its cursor is `at`: gathered,
      reduced on the way, or still its own input. */
    ghost function Expected(r: nat, c: nat, at: Cursor, i: nat): T
      requires Valid() && r < size && c < |calls| && i < calls[c].count
    {
      var loc := LocalOf(r, c);
      var b, p := loc.shape.BlockOf(i), loc.shape.PieceOf(i);
      var d := Hops(size, b, r);
      if d + 1 < size && p < loc.RecvWaited(at, size - 1 + d) then Fold(c, i, b, size - 1)
      else if d == 0 || p < loc.RecvWaited(at, d - 1) then Fold(c, i, b, d)
      else calls[c].input[r][i]
    }

    /** Element `i` lies in a region lent to the transport for an outstanding
      all-gather receive. */
    ghost predicate Lent(r: nat, c: nat, at: Cursor, i: nat)
      requires Valid() && r < size && c < |calls| && i < calls[c].count
    {
      var loc := LocalOf(r, c);
      var b, p := loc.shape.BlockOf(i), loc.shape.PieceOf(i);
      var d := Hops(size, b, r);
      d + 1 < size && loc.RecvWaited(at, size - 1 + d) <= p < loc.RecvPosted(at, size - 1 + d)
    }

    lemma StartValue(r: nat, c: nat, i: nat)
      requires Valid() && r < size && c < |calls| && i < calls[c].count
      ensures Expected(r, c, START, i) == calls[c].input[r][i] && !Lent(r, c, START, i)
    {
      assert Forward(size, r, 0) == r;
    }

    /** When a call is over every element is fully reduced, on every rank. */
    lemma EndValue(r: nat, c: nat, at: Cursor, i: nat)
      requires Valid() && r < size && c < |calls| && i < calls[c].count
      requires LocalOf(r, c).CursorOk(at) && LocalOf(r, c).Finished(at)
      ensures Expected(r, c, at, i) == Reduced(c, i) && !Lent(r, c, at, i)
    {
      var loc := LocalOf(r, c);
      var b := loc.shape.BlockOf(i);
      var d := Hops(size, b, r);
      loc.shape.PieceOfInside(i);
      if d + 1 < size {
        assert loc.RecvHops(size - 1 + d) == d && loc.RecvBlock(size - 1 + d) == b;
      } else if d > 0 {
        assert loc.RecvBlock(d - 1) == b;
      }
    }

    /** The state of a rank's buffer in mid-phase, element by element. While it
      scatters, the blocks received in finished steps hold partial folds, the
      piece being received is wholly before or wholly after its reduction, and
      everything else is still the rank's own input. */
    lemma ScatterInvariant(r: nat, c: nat, at: Cursor, i: nat)
      requires Valid() && r < size && c < |calls| && i < calls[c].count
      requires var loc := LocalOf(r, c); loc.CursorOk(at) && at.step < loc.Steps() && !loc.Gathering(at.step)
      ensures var loc := LocalOf(r, c);
              var b, p := loc.shape.BlockOf(i), loc.shape.PieceOf(i);
              var d := Hops(size, b, r);
              Expected(r, c, at, i) ==
              if 1 <= d <= at.step || (d == at.step + 1 && p < loc.RecvWaited(at, at.step)) then Fold(c, i, b, d)
              else calls[c].input[r][i]
    {
      var loc := LocalOf(r, c);
      var b := loc.shape.BlockOf(i);
      var d := Hops(size, b, r);
      loc.shape.PieceOfInside(i);
      assert Fold(c, i, b, 0) == calls[c].input[b][i] && Forward(size, b, 0) == b;
      if d > 0 { assert loc.RecvBlock(d - 1) == b; }
      hide Shape.Pieces, Shape.BlockOf, Shape.PieceOf, Fold;
    }

    /** While it gathers, what has arrived and the rank's own result are fully
      reduced, and the other blocks still hold their partial folds. */
    lemma GatherInvariant(r: nat, c: nat, at: Cursor, i: nat)
      requires Valid() && r < size && c < |calls| && i < calls[c].count
      requires var loc := LocalOf(r, c); loc.CursorOk(at) && at.step < loc.Steps() && loc.Gathering(at.step)
      ensures var loc := LocalOf(r, c);
              var b, p, s := loc.shape.BlockOf(i), loc.shape.PieceOf(i), loc.PhaseStep(at.step);
              var d := Hops(size, b, r);
              Expected(r, c, at, i) ==
              if d + 1 == size || d < s || (d == s && p < loc.RecvWaited(at, at.step)) then Reduced(c, i) else Fold(c, i, b, d)
    {
      var loc := LocalOf(r, c);
      var b := loc.shape.BlockOf(i);
      var d := Hops(size, b, r);
      loc.shape.PieceOfInside(i);
      assert Fold(c, i, b, 0) == calls[c].input[b][i] && Forward(size, b, 0) == b;
      if d > 0 { assert loc.RecvBlock(d - 1) == b; }
      if d + 1 < size { assert loc.RecvBlock(size - 1 + d) == b; }
      hide Shape.Pieces, Shape.BlockOf, Shape.PieceOf, Fold;
    }

    /** What element `i` is worth in the middle of a call, as the two lemmas
      above say it. */
    ghost predicate MidCall(r: nat, c: nat, at: Cursor, i: nat, value: T)
      requires Valid() && r < size && c < |calls| && i < calls[c].count && at.step < LocalOf(r, c).Steps()
    {
      var loc := LocalOf(r, c);
      var b, p, s := loc.shape.BlockOf(i), loc.shape.PieceOf(i), loc.PhaseStep(at.step);
      var d, came := Hops(size, b, r), p < loc.RecvWaited(at, at.step);
      value ==
      if loc.Gathering(at.step) then
        if d + 1 == size || d < s || (d == s && came) then Reduced(c, i) else Fold(c, i, b, d)
      else
        if 1 <= d <= s || (d == s + 1 && came) then Fold(c, i, b, d) else calls[c].input[r][i]
    }

    lemma ExpectedMidCall(r: nat, c: nat, at: Cursor, i: nat)
      requires Valid() && r < size && c < |calls| && i < calls[c].count
      requires var loc := LocalOf(r, c); loc.CursorOk(at) && at.step < loc.Steps()
      ensures MidCall(r, c, at, i, Expected(r, c, at, i))
    {
      hide Expected, Fold, Local.CursorOk, Local.RecvWaited, Shape.BlockOf, Shape.PieceOf;
      if LocalOf(r, c).Gathering(at.step) { GatherInvariant(r, c, at, i); } else { ScatterInvariant(r, c, at, i); }
    }

    /** The block being sent is stable and holds what the step's messages are
      to carry, in every stage of the step. */
    lemma SendValue(r: nat, c: nat, at: Cursor, i: nat)
      requires Valid() && r < size && c < |calls| && i < calls[c].count
      requires var loc := LocalOf(r, c);
               loc.CursorOk(at) && at.step < loc.Steps() && loc.shape.BlockOf(i) == loc.SendBlock(at.step)
      ensures Expected(r, c, at, i) == Sent(c, at.step, i) && !Lent(r, c, at, i)
    {
      var loc := LocalOf(r, c);
      var b, s := loc.shape.BlockOf(i), at.step;
      loc.shape.PieceOfInside(i);
      RotationsAgree(size, r, loc.SendHops(s));
      if s > 0 {
        assert loc.RecvBlock(s - 1) == b;
      }
    }

    /** The two steps in which rank `r` receives block `b`. */
    lemma StepOfBlock(r: nat, c: nat, step: nat, b: nat)
      requires Valid() && r < size && c < |calls| && b < size && step < LocalOf(r, c).Steps()
      ensures var loc, d := LocalOf(r, c), Hops(size, b, r);
              && (d + 1 < size && size - 1 + d == step <==> loc.Gathering(step) && b == loc.RecvBlock(step))
              && (d > 0 && d - 1 == step <==> !loc.Gathering(step) && b == loc.RecvBlock(step))
    {
      RotationsAgree(size, r, LocalOf(r, c).RecvHops(step));
    }

    /** The two frontiers that decide the value of an element of block `b`. */
    lemma FrontiersOfBlock(r: nat, c: nat, at: Cursor, b: nat)
      requires Valid() && r < size && c < |calls| && b < size
      requires LocalOf(r, c).CursorOk(at) && !LocalOf(r, c).Finished(at)
      ensures var loc, d := LocalOf(r, c), Hops(size, b, r);
              d + 1 < size ==> loc.FrontiersMove(at, size - 1 + d)
      ensures var loc, d := LocalOf(r, c), Hops(size, b, r);
              d > 0 ==> loc.FrontiersMove(at, d - 1)
    {
      hide Shape.Pieces, Local.FrontiersMove, Local.CursorOk, Local.Finished, Local.Advance;
      var loc, d := LocalOf(r, c), Hops(size, b, r);
      if d > 0 { loc.ReceivesAdvance(at, d - 1); }
      if d + 1 < size { loc.ReceivesAdvance(at, size - 1 + d); }
    }

    /** What is lent to the transport belongs to the step's receive block. */
    lemma LentHere(r: nat, c: nat, at: Cursor, i: nat)
      requires Valid() && r < size && c < |calls| && i < calls[c].count && LocalOf(r, c).CursorOk(at)
      ensures var loc := LocalOf(r, c);
              Lent(r, c, at, i) <==>
                && at.step < loc.Steps() && loc.Gathering(at.step) && loc.shape.BlockOf(i) == loc.RecvBlock(at.step)
                && loc.RecvWaited(at, at.step) <= loc.shape.PieceOf(i) < loc.RecvPosted(at, at.step)
    {
      var loc, d := LocalOf(r, c), Hops(size, ShapeOf(c).BlockOf(i), r);
      loc.OutstandingBound(at, size - 1 + d);
      if at.step < loc.Steps() {
        StepOfBlock(r, c, at.step, loc.shape.BlockOf(i));
      }
    }

    /** Waiting for a receive makes exactly its region progress: a
      reduce-scatter piece by one combination, an all-gather piece to its
      final value. */
    lemma ReceiveValue(r: nat, c: nat, at: Cursor, i: nat)
      requires Valid() && r < size && c < |calls| && i < calls[c].count
      requires var loc := LocalOf(r, c); loc.CursorOk(at) && loc.Acting(at) && at.stage == WaitReceives
      ensures var loc := LocalOf(r, c);
              var s, n := at.step, loc.Advance(at);
              if loc.shape.BlockOf(i) != loc.RecvBlock(s) || loc.shape.PieceOf(i) != at.piece then
                Expected(r, c, n, i) == Expected(r, c, at, i)
              else if loc.Gathering(s) then
                Expected(r, c, n, i) == Sent(c, s, i)
              else
                Expected(r, c, n, i) == calls[c].op(Expected(r, c, at, i), Sent(c, s, i))
    {
      hide Local.Advance, Local.RecvBlock, Local.RecvPosted, Local.SendPieces, Local.SendPosted, Local.SendWaited, Shape.Pieces,
           Shape.BlockOf, Shape.PieceOf;
      var loc := LocalOf(r, c);
      var b, s := loc.shape.BlockOf(i), at.step;
      FrontiersOfBlock(r, c, at, b);
      StepOfBlock(r, c, s, b);
      loc.ActingAdvance(at, s);
    }

    lemma ReceiveLent(r: nat, c: nat, at: Cursor, i: nat)
      requires Valid() && r < size && c < |calls| && i < calls[c].count
      requires var loc := LocalOf(r, c); loc.CursorOk(at) && loc.Acting(at) && at.stage == WaitReceives
      ensures var loc := LocalOf(r, c);
              var s, n := at.step, loc.Advance(at);
              if loc.shape.BlockOf(i) != loc.RecvBlock(s) || loc.shape.PieceOf(i) != at.piece then
                Lent(r, c, n, i) <==> Lent(r, c, at, i)
              else
                !Lent(r, c, n, i) && (Lent(r, c, at, i) <==> loc.Gathering(s))
    {
      hide Local.Advance, Local.RecvBlock, Local.RecvWaited, Local.RecvPosted, Shape.Pieces, Shape.BlockOf, Shape.PieceOf, Lent;
      var loc := LocalOf(r, c);
      StepKept(loc, at);
      loc.ActingAdvance(at, at.step);
      LentHere(r, c, at, i);
      LentHere(r, c, loc.Advance(at), i);
    }

    /** Everything else a rank does leaves the values alone; posting an
      all-gather receive lends its region out. */
    lemma OtherValue(r: nat, c: nat, at: Cursor, i: nat)
      requires Valid() && r < size && c < |calls| && i < calls[c].count
      requires var loc := LocalOf(r, c);
               loc.CursorOk(at) && !loc.Finished(at) && !(loc.Acting(at) && at.stage == WaitReceives)
      ensures Expected(r, c, LocalOf(r, c).Advance(at), i) == Expected(r, c, at, i)
    {
      hide Local.Advance, Local.RecvWaited, Local.RecvPosted, Local.RecvBlock, Shape.Pieces;
      var loc, b := LocalOf(r, c), LocalOf(r, c).shape.BlockOf(i);
      FrontiersOfBlock(r, c, at, b);
    }

    lemma OtherLent(r: nat, c: nat, at: Cursor, i: nat)
      requires Valid() && r < size && c < |calls| && i < calls[c].count
      requires var loc := LocalOf(r, c);
               loc.CursorOk(at) && !loc.Finished(at) && !(loc.Acting(at) && at.stage == WaitReceives)
      ensures var loc := LocalOf(r, c);
              Lent(r, c, loc.Advance(at), i) <==>
                || Lent(r, c, at, i)
                || (&& loc.Acting(at) && at.stage == PostReceives && loc.Gathering(at.step)
                    && loc.shape.BlockOf(i) == loc.RecvBlock(at.step) && loc.shape.PieceOf(i) == at.piece)
    {
      hide Local.Advance, Local.RecvWaited, Local.RecvPosted, Local.RecvBlock, Shape.Pieces;
      var loc := LocalOf(r, c);
      var b := loc.shape.BlockOf(i);
      FrontiersOfBlock(r, c, at, b);
      if loc.Acting(at) {
        StepOfBlock(r, c, at.step, b);
        loc.ActingAdvance(at, at.step);
        loc.OutstandingBound(at, at.step);
      }
    }
  }

  // --- runs of calls ------------------------------------------------------

  /** The results a rank has handed out are the reduced buffers of its calls. */
  ghost predicate ResultsOk<T>(g: Ring<T>, out: seq<seq<T>>)
    requires g.Valid()
  {
    && |out| <= |g.calls|
    && (forall c :: 0 <= c < |out| ==> |out[c]| == g.calls[c].count)
    && (forall c, i :: 0 <= c < |out| && 0 <= i < |out[c]| ==> out[c][i] == g.Reduced(c, i))
  }

  /** Steps begun since the start of the run, over phases and calls. */
  ghost function RingSteps(size: nat, call: nat, step: nat): int {
    call * (2 * (size - 1)) + step
  }

  ghost predicate NoEmptyBlocks<T>(g: Ring<T>)
    requires g.Valid()
  {
    forall c :: 0 <= c < |g.calls| ==> g.calls[c].count >= g.size
  }

  lemma EveryBlockHasPieces<T>(g: Ring<T>, c: nat, b: nat)
    requires g.Valid() && NoEmptyBlocks(g) && c < |g.calls| && b < g.size
    ensures g.ShapeOf(c).Pieces(b) >= 1
  {
    var shape := g.ShapeOf(c);
    if shape.count / shape.size == 0 {
      DivBounds(shape.count, shape.size);
    }
    PieceStartsInside(shape.Count(b), shape.pieceElements, 0);
  }

  /** The step count orders positions as the nested loops do. */
  lemma StepOrder(size: nat, call: nat, step: nat, call': nat, step': nat)
    requires size >= 1 && step <= 2 * (size - 1)
    requires call < call' || (call == call' && step <= step')
    ensures RingSteps(size, call, step) <= RingSteps(size, call', step')
  {
    if call < call' {
      MulMonotone(call + 1, call', 2 * (size - 1));
      MulMonotone(call, call, 2 * (size - 1));
    }
  }

  /** A rank in call `call` at step `step` has begun step `t` of call `c`. */
  ghost predicate Begun(call: nat, step: nat, c: nat, t: nat) {
    c < call || (c == call && t <= step)
  }

  /** A rank is at most one step ahead of another that has begun the last step
    it has behind it. */
  lemma OneAhead(size: nat, call: nat, step: nat, call': nat, step': nat)
    requires size >= 2 && step <= 2 * (size - 1)
    requires step > 0 ==> Begun(call', step', call, step - 1)
    requires step == 0 && call > 0 ==> Begun(call', step', call - 1, 2 * (size - 1) - 1)
    ensures RingSteps(size, call, step) <= RingSteps(size, call', step') + 1
  {
    var n := 2 * (size - 1);
    if step > 0 {
      StepOrder(size, call, step - 1, call', step');
    } else if call > 0 {
      StepOrder(size, call - 1, n - 1, call', step');
      MulMonotone(call - 1, call, n);
    } else {
      MulMonotone(0, call', n);
    }
  }
}
