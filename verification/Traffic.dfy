/** How much a call moves: closed forms for what a rank sends and receives. */
module Traffic {
  import opened RingArithmetic
  import opened BlockLayout
  import opened Schedule
  import opened Group
  import opened RankProgram

  // --- what has been posted ---------------------------------------------------------------

  function SentBytes(posts: seq<Post>): nat {
    if posts == [] then 0
    else SentBytes(posts[..|posts| - 1]) + if posts[|posts| - 1].SendPost? then posts[|posts| - 1].bytes else 0
  }

  function ReceivedBytes(posts: seq<Post>): nat {
    if posts == [] then 0
    else ReceivedBytes(posts[..|posts| - 1]) + if posts[|posts| - 1].ReceivePost? then posts[|posts| - 1].bytes else 0
  }

  lemma OneMore(posts: seq<Post>, post: Post)
    ensures SentBytes(posts + [post]) == SentBytes(posts) + if post.SendPost? then post.bytes else 0
    ensures ReceivedBytes(posts + [post]) == ReceivedBytes(posts) + if post.ReceivePost? then post.bytes else 0
  {
    assert (posts + [post])[..|posts|] == posts;
  }

  /** Elements of a block in its first `n` pieces. */
  function InPieces(shape: Shape, b: nat, n: nat): nat
    requires shape.Valid()
  {
    if n >= shape.Pieces(b) then shape.Count(b) else shape.Start(n)
  }

  lemma NextPiece(shape: Shape, b: nat, n: nat)
    requires shape.Valid() && b < shape.size && n < shape.Pieces(b)
    ensures InPieces(shape, b, n + 1) == InPieces(shape, b, n) + shape.Length(b, n)
  {
    shape.PiecesInOrder(b, n);
  }

  lemma NoPieces(shape: Shape, b: nat)
    requires shape.Valid()
    ensures InPieces(shape, b, 0) == 0
  {
    PieceStartsInside(shape.Count(b), shape.pieceElements, 0);
  }

  // --- sums over steps ----------------------------------------------------------------------

  /** Elements of the blocks sent, and received, in the steps before `s`. */
  function SentBefore(loc: Local, s: nat): nat
    requires loc.Valid() && s <= loc.Steps()
  {
    if s == 0 then 0 else SentBefore(loc, s - 1) + loc.shape.Count(loc.SendBlock(s - 1))
  }

  function ReceivedBefore(loc: Local, s: nat): nat
    requires loc.Valid() && s <= loc.Steps()
  {
    if s == 0 then 0 else ReceivedBefore(loc, s - 1) + loc.shape.Count(loc.RecvBlock(s - 1))
  }

  /** Elements of the `n` blocks that end with block `b`, going backwards. */
  lemma {:induction false} Backwards(shape: Shape, b: nat, n: nat) returns (total: nat)
    requires shape.Valid() && b < shape.size && n <= shape.size
    ensures total == BackSum(shape, b, n)
    ensures total == if n <= b + 1 then shape.Offset(b + 1) - shape.Offset(b + 1 - n)
                     else shape.Offset(b + 1) + shape.count - shape.Offset(shape.size + b + 1 - n)
  {
    if n == 0 {
      total := 0;
    } else {
      var before := Backwards(shape, b, n - 1);
      var k := Back(shape.size, b, n - 1);
      total := before + shape.Count(k);
      assert shape.Offset(k + 1) == shape.Offset(k) + shape.Count(k);
      shape.OffsetEnd();
    }
  }

  function BackSum(shape: Shape, b: nat, n: nat): nat
    requires shape.Valid() && b < shape.size && n <= shape.size
  {
    if n == 0 then 0 else BackSum(shape, b, n - 1) + shape.Count(Back(shape.size, b, n - 1))
  }

  /** All blocks but the one that comes last going backwards. */
  lemma AllButOne(shape: Shape, b: nat)
    requires shape.Valid() && b < shape.size
    ensures BackSum(shape, b, shape.size - 1) == shape.count - shape.Count(Next(shape.size, b))
  {
    var total := Backwards(shape, b, shape.size);
    shape.OffsetEnd();
    assert shape.Offset(0) == 0;
    assert total == shape.count;
    assert BackSum(shape, b, shape.size)
        == BackSum(shape, b, shape.size - 1) + shape.Count(Back(shape.size, b, shape.size - 1));
    assert Back(shape.size, b, shape.size - 1) == Next(shape.size, b);
  }

  /** The first phase sends the blocks from the rank's own backwards, the
    second the same from the next one on; one turn short of the whole ring. */
  lemma {:induction false} OnePhase(loc: Local, n: nat)
    requires loc.Valid() && n <= loc.shape.size - 1
    ensures SentBefore(loc, n) == BackSum(loc.shape, loc.rank, n)
    ensures ReceivedBefore(loc, n) == BackSum(loc.shape, Prev(loc.shape.size, loc.rank), n)
  {
    hide Back, BlockCount;
    if n > 0 {
      OnePhase(loc, n - 1);
      StepBlocks(loc, n - 1);
    }
  }

  lemma {:induction false} BothPhases(loc: Local, n: nat)
    requires loc.Valid() && n <= loc.shape.size - 1
    ensures SentBefore(loc, loc.shape.size - 1 + n)
            == BackSum(loc.shape, loc.rank, loc.shape.size - 1) + BackSum(loc.shape, Next(loc.shape.size, loc.rank), n)
    ensures ReceivedBefore(loc, loc.shape.size - 1 + n)
            == BackSum(loc.shape, Prev(loc.shape.size, loc.rank), loc.shape.size - 1) + BackSum(loc.shape, loc.rank, n)
  {
    hide Back, BlockCount;
    if n > 0 {
      BothPhases(loc, n - 1);
      StepBlocks(loc, n - 1);
    } else {
      OnePhase(loc, loc.shape.size - 1);
    }
  }

  lemma StepBlocks(loc: Local, k: nat)
    requires loc.Valid() && k < loc.shape.size - 1
    ensures loc.SendBlock(k) == Back(loc.shape.size, loc.rank, k)
    ensures loc.SendBlock(loc.shape.size - 1 + k) == Back(loc.shape.size, Next(loc.shape.size, loc.rank), k)
    ensures loc.RecvBlock(k) == Back(loc.shape.size, Prev(loc.shape.size, loc.rank), k)
    ensures loc.RecvBlock(loc.shape.size - 1 + k) == Back(loc.shape.size, loc.rank, k)
  {}

  /** What a whole call sends and receives, in elements. */
  lemma WholeCall(loc: Local)
    requires loc.Valid()
    ensures SentBefore(loc, loc.Steps())
            == 2 * loc.shape.count - loc.shape.Count(PositiveMod(loc.rank + 1, loc.shape.size))
               - loc.shape.Count(PositiveMod(loc.rank + 2, loc.shape.size))
    ensures ReceivedBefore(loc, loc.Steps())
            == 2 * loc.shape.count - loc.shape.Count(loc.rank) - loc.shape.Count(PositiveMod(loc.rank + 1, loc.shape.size))
  {
    hide Local.Steps, SentBefore, ReceivedBefore, BackSum, PositiveMod, BlockCount;
    var size, r := loc.shape.size, loc.rank;
    assert loc.Steps() == size - 1 + (size - 1) by { TwicePhases(loc); }
    BothPhases(loc, size - 1);
    AllButOne(loc.shape, r);
    AllButOne(loc.shape, Next(size, r));
    AllButOne(loc.shape, Prev(size, r));
    RotationsAgree(size, r, 0);
    TwoAhead(size, r);
  }

  lemma TwicePhases(loc: Local)
    requires loc.Valid()
    ensures loc.Steps() == loc.shape.size - 1 + (loc.shape.size - 1)
  {}

  lemma TwoAhead(size: nat, r: nat)
    requires r < size
    ensures PositiveMod(r + 2, size) == Next(size, Next(size, r))
  {
    if size == 1 {
      assert (r + 2) % 1 == 0;
    } else {
      PositiveModIsRotation(r + 2, size);
    }
  }

  // --- along a run ------------------------------------------------------------------------------

  function SentUpTo(loc: Local, c: Cursor): nat
    requires loc.Valid() && loc.CursorOk(c)
  {
    SentBefore(loc, c.step)
    + if c.step < loc.Steps() then InPieces(loc.shape, loc.SendBlock(c.step), loc.SendPosted(c, c.step)) else 0
  }

  function ReceivedUpTo(loc: Local, c: Cursor): nat
    requires loc.Valid() && loc.CursorOk(c)
  {
    ReceivedBefore(loc, c.step)
    + if c.step < loc.Steps() then InPieces(loc.shape, loc.RecvBlock(c.step), loc.RecvPosted(c, c.step)) else 0
  }

  /** A test moves nothing; at the end of a step its blocks are complete. */
  lemma TestMoves(loc: Local, c: Cursor)
    requires loc.Valid() && loc.CursorOk(c) && !loc.Finished(c) && !loc.Acting(c)
    ensures SentUpTo(loc, loc.Advance(c)) == SentUpTo(loc, c) && ReceivedUpTo(loc, loc.Advance(c)) == ReceivedUpTo(loc, c)
  {
    var n := loc.Advance(c);
    loc.SilentAdvance(c, c.step);
    if n.step != c.step {
      if n.step < loc.Steps() {
        NoPieces(loc.shape, loc.SendBlock(n.step));
        NoPieces(loc.shape, loc.RecvBlock(n.step));
      }
    }
    hide Shape.Pieces, Local.SendBlock, Local.RecvBlock;
  }

  lemma CallMoves(loc: Local, c: Cursor)
    requires loc.Valid() && loc.CursorOk(c) && loc.Acting(c)
    ensures SentUpTo(loc, loc.Advance(c))
            == SentUpTo(loc, c) + if c.stage == PostSends then loc.SendLength(c.step, c.piece) else 0
    ensures ReceivedUpTo(loc, loc.Advance(c))
            == ReceivedUpTo(loc, c) + if c.stage == PostReceives then loc.RecvLength(c.step, c.piece) else 0
  {
    loc.ActingAdvance(c, c.step);
    if c.stage == PostSends { NextPiece(loc.shape, loc.SendBlock(c.step), c.piece); }
    if c.stage == PostReceives { NextPiece(loc.shape, loc.RecvBlock(c.step), c.piece); }
    hide Shape.Pieces, InPieces, SentBefore, ReceivedBefore;
  }

  lemma PostsMade<T>(p: Program<T>, c: Cursor, m: Machine<T>)
    requires p.Valid() && p.loc.CursorOk(c) && p.loc.Acting(c) && p.Fits(c, m) && p.Act(c, m).0 == Success
    ensures SentBytes(p.Act(c, m).1.posts)
            == SentBytes(m.posts) + if c.stage == PostSends then p.loc.SendLength(c.step, c.piece) * p.elementSize else 0
    ensures ReceivedBytes(p.Act(c, m).1.posts)
            == ReceivedBytes(m.posts) + if c.stage == PostReceives then p.loc.RecvLength(c.step, c.piece) * p.elementSize else 0
  {
    hide Program.TagFor, Local.SendFirst, Local.RecvFirst, SentBytes, ReceivedBytes;
    var posts := p.Act(c, m).1.posts;
    if c.stage == PostSends || c.stage == PostReceives {
      OneMore(m.posts, posts[|posts| - 1]);
      assert posts == m.posts + [posts[|posts| - 1]];
    }
  }

  /** Bytes posted beyond what the cursor accounts for; a run keeps them. */
  function SentExcess<T>(p: Program<T>, c: Cursor, m: Machine<T>): int
    requires p.Valid() && p.loc.CursorOk(c)
  {
    SentBytes(m.posts) - SentUpTo(p.loc, c) * p.elementSize
  }

  function ReceivedExcess<T>(p: Program<T>, c: Cursor, m: Machine<T>): int
    requires p.Valid() && p.loc.CursorOk(c)
  {
    ReceivedBytes(m.posts) - ReceivedUpTo(p.loc, c) * p.elementSize
  }

  lemma ExcessKept<T>(p: Program<T>, c: Cursor, m: Machine<T>)
    requires p.Valid() && p.loc.CursorOk(c) && !p.loc.Finished(c) && p.Fits(c, m) && p.Act(c, m).0 == Success
    ensures SentExcess(p, p.loc.Advance(c), p.Act(c, m).1) == SentExcess(p, c, m)
    ensures ReceivedExcess(p, p.loc.Advance(c), p.Act(c, m).1) == ReceivedExcess(p, c, m)
  {
    hide Program.Act, Program.Fits, SentUpTo, ReceivedUpTo, SentBytes, ReceivedBytes, Local.CursorOk, Local.Advance;
    if p.loc.Acting(c) {
      CallMoves(p.loc, c);
      PostsMade(p, c, m);
      hide Local.Acting;
      if c.stage == PostSends {
        Distribute(SentUpTo(p.loc, c), p.loc.SendLength(c.step, c.piece), p.elementSize);
      } else if c.stage == PostReceives {
        Distribute(ReceivedUpTo(p.loc, c), p.loc.RecvLength(c.step, c.piece), p.elementSize);
      }
    } else {
      TestMoves(p.loc, c);
      NothingPosted(p, c, m);
    }
  }

  lemma Distribute(a: nat, b: nat, n: nat)
    ensures (a + b) * n == a * n + b * n
  {}

  lemma {:induction false} RunTraffic<T>(p: Program<T>, end: nat, c: Cursor, m: Machine<T>)
    requires p.Valid() && p.loc.CursorOk(c) && p.Fits(c, m) && end <= p.loc.Steps()
    requires c.step < end || c == Cursor(end, 0, BatchHead, 0)
    ensures p.Run(end, c, m).0 == Success ==>
              var last, m' := Cursor(end, 0, BatchHead, 0), p.Run(end, c, m).1;
              SentExcess(p, last, m') == SentExcess(p, c, m) && ReceivedExcess(p, last, m') == ReceivedExcess(p, c, m)
    decreases p.loc.Remaining(c)
  {
    hide Program.Act, Program.Fits, SentExcess, ReceivedExcess, Shape.Pieces;
    if c.step < end && p.Act(c, m).0 == Success {
      p.ActFits(c, m);
      ExcessKept(p, c, m);
      RunTraffic(p, end, p.loc.Advance(c), p.Act(c, m).1);
    }
  }

  lemma NothingPosted<T>(p: Program<T>, c: Cursor, m: Machine<T>)
    requires p.Valid() && p.loc.CursorOk(c) && p.Fits(c, m) && !p.loc.Acting(c)
    ensures p.Act(c, m).1.posts == m.posts
  {}

  /** `posts` are `before` and then requests for so many elements. */
  predicate Moved(before: seq<Post>, posts: seq<Post>, elementSize: nat, sent: nat, received: nat) {
    && SentBytes(posts) == SentBytes(before) + sent * elementSize
    && ReceivedBytes(posts) == ReceivedBytes(before) + received * elementSize
  }

  /** A call that succeeds sends all blocks twice but the two that follow the
    rank's own, and receives all twice but its own and the next. */
  lemma CallTraffic<T>(p: Program<T>, m: Machine<T>)
    requires p.Valid() && p.Fits(START, m) && p.Run(p.loc.Steps(), START, m).0 == Success
    ensures var posts, shape, r := p.Run(p.loc.Steps(), START, m).1.posts, p.loc.shape, p.loc.rank;
            var next, nextButOne := shape.Count(PositiveMod(r + 1, shape.size)), shape.Count(PositiveMod(r + 2, shape.size));
            && next + nextButOne <= 2 * shape.count && shape.Count(r) + next <= 2 * shape.count
            && Moved(m.posts, posts, p.elementSize, 2 * shape.count - next - nextButOne, 2 * shape.count - shape.Count(r) - next)
  {
    hide Program.Run, Program.Fits, BlockCount, PositiveMod, SentBefore, ReceivedBefore, SentBytes, ReceivedBytes, Local.Steps;
    StepsTraffic(p, p.loc.Steps(), m);
    WholeCall(p.loc);
  }

  /** A reduce-scatter sends every block but the one it ends up owning, and
    receives every block but its own. */
  lemma ScatterTraffic<T>(p: Program<T>, m: Machine<T>)
    requires p.Valid() && p.Fits(START, m) && p.loc.shape.size - 1 <= p.loc.Steps()
    requires p.Run(p.loc.shape.size - 1, START, m).0 == Success
    ensures var posts, shape, r := p.Run(p.loc.shape.size - 1, START, m).1.posts, p.loc.shape, p.loc.rank;
            var next := shape.Count(PositiveMod(r + 1, shape.size));
            && next <= shape.count && shape.Count(r) <= shape.count
            && Moved(m.posts, posts, p.elementSize, shape.count - next, shape.count - shape.Count(r))
  {
    hide Program.Run, Program.Fits, BlockCount, PositiveMod, SentBefore, ReceivedBefore, SentBytes, ReceivedBytes, BackSum;
    var size, r := p.loc.shape.size, p.loc.rank;
    StepsTraffic(p, size - 1, m);
    OnePhase(p.loc, size - 1);
    AllButOne(p.loc.shape, r);
    AllButOne(p.loc.shape, Prev(size, r));
    RotationsAgree(size, r, 0);
  }

  /** An all-gather sends every block but the next but one, and receives every
    block but the one it starts from. */
  lemma GatherTraffic<T>(p: Program<T>, m: Machine<T>)
    requires p.Valid() && p.loc.CursorOk(Cursor(p.loc.shape.size - 1, 0, BatchHead, 0))
    requires p.Fits(Cursor(p.loc.shape.size - 1, 0, BatchHead, 0), m)
    requires p.Run(p.loc.Steps(), Cursor(p.loc.shape.size - 1, 0, BatchHead, 0), m).0 == Success
    ensures var posts := p.Run(p.loc.Steps(), Cursor(p.loc.shape.size - 1, 0, BatchHead, 0), m).1.posts;
            var shape, r := p.loc.shape, p.loc.rank;
            var next, nextButOne := shape.Count(PositiveMod(r + 1, shape.size)), shape.Count(PositiveMod(r + 2, shape.size));
            && next <= shape.count && nextButOne <= shape.count
            && Moved(m.posts, posts, p.elementSize, shape.count - nextButOne, shape.count - next)
  {
    hide Program.Run, Program.Fits, BlockCount, PositiveMod, SentBefore, ReceivedBefore, SentBytes, ReceivedBytes, BackSum,
         SentUpTo, ReceivedUpTo, Local.Steps, Local.CursorOk;
    var size, r := p.loc.shape.size, p.loc.rank;
    TwicePhases(p.loc);
    RunTraffic(p, p.loc.Steps(), Cursor(size - 1, 0, BatchHead, 0), m);
    AtBoundary(p.loc, size - 1);
    AtBoundary(p.loc, p.loc.Steps());
    OnePhase(p.loc, size - 1);
    BothPhases(p.loc, size - 1);
    AllButOne(p.loc.shape, r);
    AllButOne(p.loc.shape, Next(size, r));
    RotationsAgree(size, r, 0);
    TwoAhead(size, r);
    var a, b := BackSum(p.loc.shape, Next(size, r), size - 1), BackSum(p.loc.shape, r, size - 1);
    Distribute(SentBefore(p.loc, size - 1), a, p.elementSize);
    Distribute(ReceivedBefore(p.loc, size - 1), b, p.elementSize);
  }

  /** The run up to step `end` posts every piece of every step before it, once. */
  lemma StepsTraffic<T>(p: Program<T>, end: nat, m: Machine<T>)
    requires p.Valid() && p.Fits(START, m) && end <= p.loc.Steps() && p.Run(end, START, m).0 == Success
    ensures Moved(m.posts, p.Run(end, START, m).1.posts, p.elementSize, SentBefore(p.loc, end), ReceivedBefore(p.loc, end))
  {
    hide Program.Run, Program.Fits, SentBefore, ReceivedBefore, SentBytes, ReceivedBytes, Shape.Pieces;
    RunTraffic(p, end, START, m);
    StartsEmpty(p.loc);
    AtBoundary(p.loc, end);
  }

  lemma AtBoundary(loc: Local, s: nat)
    requires loc.Valid() && s <= loc.Steps()
    ensures loc.CursorOk(Cursor(s, 0, BatchHead, 0))
    ensures SentUpTo(loc, Cursor(s, 0, BatchHead, 0)) == SentBefore(loc, s)
    ensures ReceivedUpTo(loc, Cursor(s, 0, BatchHead, 0)) == ReceivedBefore(loc, s)
  {
    if s < loc.Steps() {
      NoPieces(loc.shape, loc.SendBlock(s));
      NoPieces(loc.shape, loc.RecvBlock(s));
    }
  }

  lemma StartsEmpty(loc: Local)
    requires loc.Valid()
    ensures SentUpTo(loc, START) == 0 && ReceivedUpTo(loc, START) == 0
  {
    if loc.Steps() > 0 {
      NoPieces(loc.shape, loc.SendBlock(0));
      NoPieces(loc.shape, loc.RecvBlock(0));
    }
  }

  /** Conservation: what a rank receives in a call its predecessor sends. */
  lemma TrafficConserved<T>(p: Program<T>, m: Machine<T>, q: Program<T>, n: Machine<T>)
    requires p.Valid() && p.Fits(START, m) && p.Run(p.loc.Steps(), START, m).0 == Success
    requires q.Valid() && q.Fits(START, n) && q.Run(q.loc.Steps(), START, n).0 == Success
    requires p.loc.shape == q.loc.shape && p.elementSize == q.elementSize && q.loc.rank == Prev(p.loc.shape.size, p.loc.rank)
    ensures ReceivedBytes(p.Run(p.loc.Steps(), START, m).1.posts) - ReceivedBytes(m.posts)
            == SentBytes(q.Run(q.loc.Steps(), START, n).1.posts) - SentBytes(n.posts)
  {
    hide Program.Run, Program.Fits, BlockCount, PositiveMod, SentBytes, ReceivedBytes;
    CallTraffic(p, m);
    CallTraffic(q, n);
    NeighbourBlocks(p.loc.shape.size, p.loc.rank);
  }

  lemma NeighbourBlocks(size: nat, r: nat)
    requires r < size
    ensures PositiveMod(Prev(size, r) + 1, size) == r && PositiveMod(Prev(size, r) + 2, size) == PositiveMod(r + 1, size)
  {
    RotationsAgree(size, r, 0);
    RotationsAgree(size, Prev(size, r), 0);
    TwoAhead(size, Prev(size, r));
  }
}
