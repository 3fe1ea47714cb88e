/** The order in which one rank posts and waits during one all-reduce: the two
  phases' step, batch and piece loops flattened into a cursor that advances one
  loop test or one transport call at a time.

  Reduce-scatter step `s` is step `s` here and all-gather step `s` is step
  `size - 1 + s`; with that numbering both phases rotate the blocks alike. */
module Schedule {
  import opened RingArithmetic
  import opened BlockLayout
  import opened Buffers

  /** Where a cursor stands: at the test of the batch loop, or in one of the
    four loops of a batch. */
  datatype Stage = BatchHead | PostReceives | PostSends | WaitReceives | WaitSends

  /** `begin` is the first piece of the batch, `piece` the loop variable. */
  datatype Cursor = Cursor(step: nat, begin: nat, stage: Stage, piece: nat)

  const START := Cursor(0, 0, BatchHead, 0)

  /** One rank's view of one call: block layout, rank, pieces per batch. */
  datatype Local = Local(shape: Shape, rank: nat, capacity: nat) {

    predicate Valid() {
      shape.Valid() && rank < shape.size && capacity >= 1
    }

    function Steps(): nat
      requires Valid()
    {
      2 * (shape.size - 1)
    }

    predicate Gathering(step: nat) { step + 1 >= shape.size }

    function PhaseStep(step: nat): int {
      if Gathering(step) then step - (shape.size - 1) else step
    }

    function SendHops(step: nat): nat
      requires Valid() && step < Steps()
    {
      if step < shape.size then step else step - shape.size
    }

    function RecvHops(step: nat): nat
      requires Valid() && step < Steps()
    {
      if step + 1 < shape.size then step + 1 else step + 1 - shape.size
    }

    function SendBlock(step: nat): (b: nat)
      requires Valid() && step < Steps()
      ensures b < shape.size
    {
      Back(shape.size, rank, SendHops(step))
    }

    function RecvBlock(step: nat): (b: nat)
      requires Valid() && step < Steps()
      ensures b < shape.size
    {
      Back(shape.size, rank, RecvHops(step))
    }

    /** Pieces to send and to receive in a step; none once the steps are over. */
    function SendPieces(step: nat): nat
      requires Valid()
    {
      if step < Steps() then shape.Pieces(SendBlock(step)) else 0
    }

    function RecvPieces(step: nat): nat
      requires Valid()
    {
      if step < Steps() then shape.Pieces(RecvBlock(step)) else 0
    }

    /** The region of the work buffer that a piece to send or to receive
      stands for: first element and number of elements. */
    function SendFirst(step: nat, piece: nat): nat
      requires Valid() && piece < SendPieces(step)
    {
      shape.Offset(SendBlock(step)) + shape.Start(piece)
    }

    function SendLength(step: nat, piece: nat): (n: nat)
      requires Valid() && piece < SendPieces(step)
      ensures n >= 1 && SendFirst(step, piece) + n <= shape.count
    {
      shape.PieceInside(SendBlock(step), piece);
      shape.Length(SendBlock(step), piece)
    }

    function RecvFirst(step: nat, piece: nat): nat
      requires Valid() && piece < RecvPieces(step)
    {
      shape.Offset(RecvBlock(step)) + shape.Start(piece)
    }

    function RecvLength(step: nat, piece: nat): (n: nat)
      requires Valid() && piece < RecvPieces(step)
      ensures n >= 1 && RecvFirst(step, piece) + n <= shape.count
    {
      shape.PieceInside(RecvBlock(step), piece);
      shape.Length(RecvBlock(step), piece)
    }

    /** Which elements those regions cover. */
    lemma RegionsCover(step: nat, piece: nat, i: nat)
      requires Valid() && i < shape.count
      ensures piece < SendPieces(step) ==>
                (SendFirst(step, piece) <= i < SendFirst(step, piece) + SendLength(step, piece)
                 <==> shape.BlockOf(i) == SendBlock(step) && shape.PieceOf(i) == piece)
      ensures piece < RecvPieces(step) ==>
                (RecvFirst(step, piece) <= i < RecvFirst(step, piece) + RecvLength(step, piece)
                 <==> shape.BlockOf(i) == RecvBlock(step) && shape.PieceOf(i) == piece)
    {
      if piece < SendPieces(step) { shape.CoveredOnce(SendBlock(step), piece, i); }
      if piece < RecvPieces(step) { shape.CoveredOnce(RecvBlock(step), piece, i); }
    }

    // --- cursors ---------------------------------------------------------

    predicate CursorOk(c: Cursor)
      requires Valid()
    {
      && c.step <= Steps()
      && (c.stage == BatchHead ==> c.piece == c.begin)
      && (c.stage != BatchHead ==>
            && c.step < Steps()
            && c.begin < Max(SendPieces(c.step), RecvPieces(c.step))
            && c.begin <= c.piece <= c.begin + capacity)
    }

    predicate Finished(c: Cursor)
      requires Valid()
    {
      c.step == Steps()
    }

    /** The bound of the loop the cursor is in. */
    function Limit(c: Cursor): nat
      requires Valid()
    {
      match c.stage
      case BatchHead => 0
      case PostReceives | WaitReceives => Min(c.begin + capacity, RecvPieces(c.step))
      case PostSends | WaitSends => Min(c.begin + capacity, SendPieces(c.step))
    }

    /** A transport call is due, for piece `c.piece`. */
    predicate Acting(c: Cursor)
      requires Valid()
    {
      c.stage != BatchHead && c.piece < Limit(c)
    }

    function Advance(c: Cursor): (n: Cursor)
      requires Valid() && CursorOk(c) && !Finished(c)
      ensures CursorOk(n)
    {
      if Acting(c) then c.(piece := c.piece + 1)
      else
        match c.stage
        case BatchHead =>
          if c.begin < Max(SendPieces(c.step), RecvPieces(c.step))
          then c.(stage := PostReceives)
          else Cursor(c.step + 1, 0, BatchHead, 0)
        case PostReceives => c.(stage := PostSends, piece := c.begin)
        case PostSends => c.(stage := WaitReceives, piece := c.begin)
        case WaitReceives => c.(stage := WaitSends, piece := c.begin)
        case WaitSends => Cursor(c.step, c.begin + capacity, BatchHead, c.begin + capacity)
    }

    function StageRank(stage: Stage): nat {
      match stage
      case BatchHead => 4
      case PostReceives => 3
      case PostSends => 2
      case WaitReceives => 1
      case WaitSends => 0
    }

    /** What is left of the step: pieces of batches not begun, then stages of
      this batch, then pieces of this stage. */
    function PiecesLeft(c: Cursor): nat
      requires Valid()
    {
      Max(0, Max(SendPieces(c.step), RecvPieces(c.step)) - c.begin)
    }

    function StageLeft(c: Cursor): nat
      requires Valid()
    {
      Max(0, Limit(c) - c.piece)
    }

    /** Loop tests and transport calls that remain until the call is over. */
    function Remaining(c: Cursor): nat
      requires Valid() && CursorOk(c)
      decreases Steps() - c.step, PiecesLeft(c), StageRank(c.stage), StageLeft(c)
    {
      if Finished(c) then 0 else 1 + Remaining(Advance(c))
    }

    // --- frontiers -------------------------------------------------------
    // How many pieces of a step have been posted or waited for, in either
    // direction, once the cursor has been reached.

    function RecvPosted(c: Cursor, step: nat): nat
      requires Valid()
    {
      if step < c.step then RecvPieces(step)
      else if step > c.step then 0
      else
        match c.stage
        case BatchHead => Min(c.begin, RecvPieces(step))
        case PostReceives => Min(c.piece, RecvPieces(step))
        case _ => Min(c.begin + capacity, RecvPieces(step))
    }

    function RecvWaited(c: Cursor, step: nat): nat
      requires Valid()
    {
      if step < c.step then RecvPieces(step)
      else if step > c.step then 0
      else
        match c.stage
        case WaitReceives => Min(c.piece, RecvPieces(step))
        case WaitSends => Min(c.begin + capacity, RecvPieces(step))
        case _ => Min(c.begin, RecvPieces(step))
    }

    function SendPosted(c: Cursor, step: nat): nat
      requires Valid()
    {
      if step < c.step then SendPieces(step)
      else if step > c.step then 0
      else
        match c.stage
        case BatchHead | PostReceives => Min(c.begin, SendPieces(step))
        case PostSends => Min(c.piece, SendPieces(step))
        case _ => Min(c.begin + capacity, SendPieces(step))
    }

    function SendWaited(c: Cursor, step: nat): nat
      requires Valid()
    {
      if step < c.step then SendPieces(step)
      else if step > c.step then 0
      else
        match c.stage
        case WaitSends => Min(c.piece, SendPieces(step))
        case _ => Min(c.begin, SendPieces(step))
    }

    /** Loop tests move no frontier. */
    lemma SilentAdvance(c: Cursor, step: nat)
      requires Valid() && CursorOk(c) && !Finished(c) && !Acting(c)
      ensures var n := Advance(c);
              && RecvPosted(n, step) == RecvPosted(c, step) && RecvWaited(n, step) == RecvWaited(c, step)
              && SendPosted(n, step) == SendPosted(c, step) && SendWaited(n, step) == SendWaited(c, step)
    {}

    /** A transport call for piece `p` moves one frontier, from `p` to `p + 1`. */
    lemma ActingAdvance(c: Cursor, step: nat)
      requires Valid() && CursorOk(c) && Acting(c)
      ensures var n := Advance(c);
              var one := if step == c.step then 1 else 0;
              && RecvPosted(n, step) == RecvPosted(c, step) + (if c.stage == PostReceives then one else 0)
              && SendPosted(n, step) == SendPosted(c, step) + (if c.stage == PostSends then one else 0)
              && RecvWaited(n, step) == RecvWaited(c, step) + (if c.stage == WaitReceives then one else 0)
              && SendWaited(n, step) == SendWaited(c, step) + (if c.stage == WaitSends then one else 0)
      ensures c.stage == PostReceives ==> RecvPosted(c, c.step) == c.piece < RecvPieces(c.step)
      ensures c.stage == PostSends ==> SendPosted(c, c.step) == c.piece < SendPieces(c.step)
      ensures c.stage == WaitReceives ==> RecvWaited(c, c.step) == c.piece < RecvPosted(c, c.step)
      ensures c.stage == WaitSends ==> SendWaited(c, c.step) == c.piece < SendPosted(c, c.step)
    {}

    ghost predicate FrontiersMove(c: Cursor, step: nat)
      requires Valid() && CursorOk(c) && !Finished(c)
    {
      var one := if Acting(c) && step == c.step then 1 else 0;
      && RecvPosted(Advance(c), step) == RecvPosted(c, step) + (if c.stage == PostReceives then one else 0)
      && RecvWaited(Advance(c), step) == RecvWaited(c, step) + (if c.stage == WaitReceives then one else 0)
    }

    lemma ReceivesAdvance(c: Cursor, step: nat)
      requires Valid() && CursorOk(c) && !Finished(c)
      ensures FrontiersMove(c, step)
    {
      if Acting(c) { ActingAdvance(c, step); } else { SilentAdvance(c, step); }
    }

    /** At most `capacity` pieces are outstanding in either direction, all of
      them of the current step, and none between batches. */
    lemma OutstandingBound(c: Cursor, step: nat)
      requires Valid() && CursorOk(c)
      ensures RecvWaited(c, step) <= RecvPosted(c, step) <= RecvWaited(c, step) + capacity
      ensures SendWaited(c, step) <= SendPosted(c, step) <= SendWaited(c, step) + capacity
      ensures RecvPosted(c, step) <= RecvPieces(step) && SendPosted(c, step) <= SendPieces(step)
      ensures step != c.step || c.stage == BatchHead ==>
                RecvPosted(c, step) == RecvWaited(c, step) && SendPosted(c, step) == SendWaited(c, step)
    {}
  }

  /** A transport call stays in its step. */
  lemma StepKept(loc: Local, at: Cursor)
    requires loc.Valid() && loc.CursorOk(at) && loc.Acting(at)
    ensures loc.Advance(at).step == at.step
  {}

  /** Where a receive is to be put: at its place in the temporary buffer, or
    directly at its final place in the work buffer. */
  function Target(loc: Local, step: nat, piece: nat): Region
    requires loc.Valid() && piece < loc.RecvPieces(step)
  {
    if loc.Gathering(step) then Region(false, loc.RecvFirst(step, piece), loc.RecvLength(step, piece))
    else Region(true, loc.shape.Start(piece), loc.RecvLength(step, piece))
  }

  // --- relation to the loops of reduce_scatter and all_gather ---------------

  /** Batch `batch` is entered exactly when its first piece exists. */
  lemma BatchCount(pieces: nat, capacity: nat, batch: nat)
    requires capacity >= 1
    ensures batch < (pieces + capacity - 1) / capacity <==> batch * capacity < pieces
  {
    if pieces > 0 {
      PieceStartsInside(pieces, capacity, batch);
    } else {
      DivUnique(capacity - 1, 0, capacity);
    }
  }

  /** The blocks of a step, as reduce_scatter and all_gather compute them. */
  lemma BlocksOfStep(loc: Local, step: nat)
    requires loc.Valid() && step < loc.Steps()
    ensures !loc.Gathering(step) ==>
              && loc.SendBlock(step) == PositiveMod(loc.rank - step, loc.shape.size)
              && loc.RecvBlock(step) == PositiveMod(loc.rank - step - 1, loc.shape.size)
    ensures loc.Gathering(step) ==>
              var s := loc.PhaseStep(step);
              && loc.SendBlock(step) == PositiveMod(loc.rank - s + 1, loc.shape.size)
              && loc.RecvBlock(step) == PositiveMod(loc.rank - s, loc.shape.size)
  {
    if loc.Gathering(step) {
      PositiveModIsRotation(loc.rank - loc.PhaseStep(step) + 1, loc.shape.size);
      PositiveModIsRotation(loc.rank - loc.PhaseStep(step), loc.shape.size);
    } else {
      PositiveModIsRotation(loc.rank - step, loc.shape.size);
      PositiveModIsRotation(loc.rank - step - 1, loc.shape.size);
    }
  }

  /** What a rank receives in a step is what its predecessor sends in it, and
    what it sends in the next step. */
  lemma RingStep(loc: Local, prev: Local, step: nat)
    requires loc.Valid() && prev.Valid() && loc.shape == prev.shape
    requires prev.rank == Prev(loc.shape.size, loc.rank) && step < loc.Steps()
    ensures prev.SendBlock(step) == loc.RecvBlock(step)
    ensures step + 1 < loc.Steps() ==> loc.SendBlock(step + 1) == loc.RecvBlock(step)
    ensures loc.SendBlock(step) != loc.RecvBlock(step)
  {}
}
