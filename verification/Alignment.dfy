/** The exact sequence of requests of a call, and that neighbours post the
  same ones: the k-th send of a rank is for the k-th receive of the next. */
module Alignment {
  import opened RingArithmetic
  import opened BlockLayout
  import opened Buffers
  import opened Tags
  import opened Schedule
  import opened Group
  import opened RankProgram
  import ZeroCopyRing

  function Receives(posts: seq<Post>): seq<Post> {
    if posts == [] then []
    else Receives(posts[..|posts| - 1])
         + if posts[|posts| - 1].ReceivePost? then [posts[|posts| - 1]] else []
  }

  function Sends(posts: seq<Post>): seq<Post> {
    if posts == [] then []
    else Sends(posts[..|posts| - 1]) + if posts[|posts| - 1].SendPost? then [posts[|posts| - 1]] else []
  }

  lemma OneMore(posts: seq<Post>, post: Post)
    ensures Receives(posts + [post]) == Receives(posts) + if post.ReceivePost? then [post] else []
    ensures Sends(posts + [post]) == Sends(posts) + if post.SendPost? then [post] else []
  {
    assert (posts + [post])[..|posts|] == posts;
  }

  // --- the sequence of a call -----------------------------------------------------------------

  function TagNumber(t: MadeTag): nat { if t.Tag? then t.tag else 0 }

  function ReceiveOf<T>(p: Program<T>, s: nat, piece: nat): Post
    requires p.Valid() && piece < p.loc.RecvPieces(s)
  {
    var region := Target(p.loc, s, piece);
    ReceivePost(TagNumber(p.TagFor(s, piece)), region, region.size * p.elementSize, p.mode)
  }

  function SendOf<T>(p: Program<T>, s: nat, piece: nat): Post
    requires p.Valid() && piece < p.loc.SendPieces(s)
  {
    SendPost(TagNumber(p.TagFor(s, piece)), p.loc.SendFirst(s, piece), p.loc.SendLength(s, piece) * p.elementSize, p.mode)
  }

  /** The first `n` pieces of a step, in order. */
  function ReceivesOfStep<T>(p: Program<T>, s: nat, n: nat): (posts: seq<Post>)
    requires p.Valid() && n <= p.loc.RecvPieces(s)
    ensures |posts| == n && forall k :: 0 <= k < n ==> posts[k] == ReceiveOf(p, s, k)
  {
    if n == 0 then [] else ReceivesOfStep(p, s, n - 1) + [ReceiveOf(p, s, n - 1)]
  }

  function SendsOfStep<T>(p: Program<T>, s: nat, n: nat): (posts: seq<Post>)
    requires p.Valid() && n <= p.loc.SendPieces(s)
    ensures |posts| == n && forall k :: 0 <= k < n ==> posts[k] == SendOf(p, s, k)
  {
    if n == 0 then [] else SendsOfStep(p, s, n - 1) + [SendOf(p, s, n - 1)]
  }

  /** All pieces of the steps before `s`, each step's from the first to the last. */
  function ReceivesBefore<T>(p: Program<T>, s: nat): seq<Post>
    requires p.Valid()
  {
    if s == 0 then [] else ReceivesBefore(p, s - 1) + ReceivesOfStep(p, s - 1, p.loc.RecvPieces(s - 1))
  }

  function SendsBefore<T>(p: Program<T>, s: nat): seq<Post>
    requires p.Valid()
  {
    if s == 0 then [] else SendsBefore(p, s - 1) + SendsOfStep(p, s - 1, p.loc.SendPieces(s - 1))
  }

  ghost predicate Traced<T>(p: Program<T>, c: Cursor, m: Machine<T>)
    requires p.Valid() && p.loc.CursorOk(c)
  {
    && p.loc.RecvPosted(c, c.step) <= p.loc.RecvPieces(c.step) && p.loc.SendPosted(c, c.step) <= p.loc.SendPieces(c.step)
    && Receives(m.posts) == ReceivesBefore(p, c.step) + ReceivesOfStep(p, c.step, p.loc.RecvPosted(c, c.step))
    && Sends(m.posts) == SendsBefore(p, c.step) + SendsOfStep(p, c.step, p.loc.SendPosted(c, c.step))
  }

  lemma TestTraced<T>(p: Program<T>, c: Cursor, m: Machine<T>)
    requires p.Valid() && p.loc.CursorOk(c) && !p.loc.Finished(c) && !p.loc.Acting(c) && p.Fits(c, m) && Traced(p, c, m)
    ensures Traced(p, p.loc.Advance(c), p.Act(c, m).1)
  {
    hide Program.Act, Program.Fits, Local.RecvPosted, Local.SendPosted, Local.RecvPieces, Local.SendPieces, Local.Acting,
         Local.Advance, Local.CursorOk, Receives, Sends;
    TestPosts(p, c, m);
    TestMoves(p.loc, c);
    p.loc.OutstandingBound(p.loc.Advance(c), p.loc.Advance(c).step);
  }

  lemma TestPosts<T>(p: Program<T>, c: Cursor, m: Machine<T>)
    requires p.Valid() && p.loc.CursorOk(c) && !p.loc.Acting(c) && p.Fits(c, m)
    ensures p.Act(c, m).1.posts == m.posts
  {
    hide Program.Fits, Local.Acting;
  }

  /** A loop test posts nothing; it leaves a step only when all of it is posted. */
  lemma TestMoves(loc: Local, c: Cursor)
    requires loc.Valid() && loc.CursorOk(c) && !loc.Finished(c) && !loc.Acting(c)
    ensures var n := loc.Advance(c);
            if n.step == c.step then
              loc.RecvPosted(n, n.step) == loc.RecvPosted(c, c.step) && loc.SendPosted(n, n.step) == loc.SendPosted(c, c.step)
            else
              && n.step == c.step + 1 && loc.RecvPosted(n, n.step) == 0 && loc.SendPosted(n, n.step) == 0
              && loc.RecvPosted(c, c.step) == loc.RecvPieces(c.step) && loc.SendPosted(c, c.step) == loc.SendPieces(c.step)
  {
    loc.SilentAdvance(c, c.step);
    hide Shape.Pieces;
  }

  lemma NextOfStep<T>(p: Program<T>, s: nat, n: nat, before: seq<Post>)
    requires p.Valid()
    ensures n < p.loc.RecvPieces(s) ==> ReceiveOf(p, s, n).ReceivePost?
    ensures n < p.loc.SendPieces(s) ==> SendOf(p, s, n).SendPost?
    ensures n < p.loc.RecvPieces(s) ==>
              before + ReceivesOfStep(p, s, n + 1) == before + ReceivesOfStep(p, s, n) + [ReceiveOf(p, s, n)]
    ensures n < p.loc.SendPieces(s) ==>
              before + SendsOfStep(p, s, n + 1) == before + SendsOfStep(p, s, n) + [SendOf(p, s, n)]
  {
    hide Target, Program.TagFor, Local.RecvPieces, Local.SendPieces, Local.SendFirst;
  }

  lemma CallTraced<T>(p: Program<T>, c: Cursor, m: Machine<T>)
    requires p.Valid() && p.loc.CursorOk(c) && p.loc.Acting(c) && p.Fits(c, m) && p.Act(c, m).0 == Success && Traced(p, c, m)
    ensures Traced(p, p.loc.Advance(c), p.Act(c, m).1)
  {
    hide Program.Act, Program.Fits, Local.RecvPosted, Local.SendPosted, Local.RecvPieces, Local.SendPieces, Receives, Sends,
         ReceiveOf, SendOf, ReceivesOfStep, SendsOfStep, ReceivesBefore, SendsBefore, Local.Advance;
    StepKept(p.loc, c);
    p.loc.ActingAdvance(c, c.step);
    p.loc.OutstandingBound(p.loc.Advance(c), c.step);
    PostMade(p, c, m);
    if c.stage == PostReceives {
      OneMore(m.posts, ReceiveOf(p, c.step, c.piece));
      NextOfStep(p, c.step, c.piece, ReceivesBefore(p, c.step));
    } else if c.stage == PostSends {
      OneMore(m.posts, SendOf(p, c.step, c.piece));
      NextOfStep(p, c.step, c.piece, SendsBefore(p, c.step));
    }
  }

  lemma PostMade<T>(p: Program<T>, c: Cursor, m: Machine<T>)
    requires p.Valid() && p.loc.CursorOk(c) && p.loc.Acting(c) && p.Fits(c, m) && p.Act(c, m).0 == Success
    ensures c.stage == PostReceives ==>
              c.piece < p.loc.RecvPieces(c.step) && p.Act(c, m).1.posts == m.posts + [ReceiveOf(p, c.step, c.piece)]
    ensures c.stage == PostSends ==>
              c.piece < p.loc.SendPieces(c.step) && p.Act(c, m).1.posts == m.posts + [SendOf(p, c.step, c.piece)]
    ensures c.stage == WaitReceives || c.stage == WaitSends ==> p.Act(c, m).1.posts == m.posts
  {
    hide Program.TagFor, Local.SendFirst, Local.RecvFirst, Overwrite, Combine;
  }

  lemma {:induction false} RunTraced<T>(p: Program<T>, end: nat, c: Cursor, m: Machine<T>)
    requires p.Valid() && p.loc.CursorOk(c) && p.Fits(c, m) && end <= p.loc.Steps() && Traced(p, c, m)
    requires c.step < end || c == Cursor(end, 0, BatchHead, 0)
    ensures p.Run(end, c, m).0 == Success ==> Traced(p, Cursor(end, 0, BatchHead, 0), p.Run(end, c, m).1)
    decreases p.loc.Remaining(c)
  {
    hide Program.Act, Program.Fits, Traced, Shape.Pieces;
    if c.step < end && p.Act(c, m).0 == Success {
      p.ActFits(c, m);
      if p.loc.Acting(c) { CallTraced(p, c, m); } else { TestTraced(p, c, m); }
      RunTraced(p, end, p.loc.Advance(c), p.Act(c, m).1);
    }
  }

  /** A call that succeeds has posted, in either direction, every piece of every
    step's block exactly once and in order, whatever its batches. */
  lemma CallTrace<T>(p: Program<T>, m: Machine<T>)
    requires p.Valid() && p.Fits(START, m) && m.posts == [] && p.Run(p.loc.Steps(), START, m).0 == Success
    ensures var posts := p.Run(p.loc.Steps(), START, m).1.posts;
            Receives(posts) == ReceivesBefore(p, p.loc.Steps()) && Sends(posts) == SendsBefore(p, p.loc.Steps())
  {
    assert Traced(p, START, m);
    RunTraced(p, p.loc.Steps(), START, m);
    hide Program.Run, Program.Fits, Shape.Pieces, ReceivesBefore, SendsBefore;
  }

  // --- neighbours -----------------------------------------------------------------------------------

  /** What a descriptor and a send are matched by: tag, bytes, chosen mode. */
  datatype Label = Label(tag: nat, bytes: nat, mode: Mode)

  function LabelOf(post: Post): Label {
    Label(post.tag, post.bytes, ZeroCopyRing.ChooseMode(post.mode, post.bytes))
  }

  function Labels(posts: seq<Post>): (labels: seq<Label>)
    ensures |labels| == |posts| && forall k :: 0 <= k < |labels| ==> labels[k] == LabelOf(posts[k])
  {
    seq(|posts|, k requires 0 <= k < |posts| => LabelOf(posts[k]))
  }

  ghost predicate Neighbours<T>(p: Program<T>, q: Program<T>) {
    && p.Valid() && q.Valid() && p.loc.shape == q.loc.shape && q.loc.rank == Prev(p.loc.shape.size, p.loc.rank)
    && p.elementSize == q.elementSize && p.mode == q.mode && p.sequence == q.sequence
  }

  lemma StepAligned<T>(p: Program<T>, q: Program<T>, s: nat)
    requires Neighbours(p, q) && s < p.loc.Steps()
    ensures p.loc.RecvPieces(s) == q.loc.SendPieces(s)
    ensures Labels(ReceivesOfStep(p, s, p.loc.RecvPieces(s))) == Labels(SendsOfStep(q, s, q.loc.SendPieces(s)))
  {
    RingStep(p.loc, q.loc, s);
    hide Local.RecvBlock, Local.SendBlock, Shape.Pieces, Program.TagFor, Local.RecvFirst, Local.SendFirst;
    forall k | 0 <= k < p.loc.RecvPieces(s)
      ensures LabelOf(ReceiveOf(p, s, k)) == LabelOf(SendOf(q, s, k))
    {
      TagsAligned(p, q, s, k);
    }
  }

  lemma TagsAligned<T>(p: Program<T>, q: Program<T>, s: nat, piece: nat)
    requires Neighbours(p, q)
    ensures p.TagFor(s, piece) == q.TagFor(s, piece)
  {}

  lemma {:induction false} StepsAligned<T>(p: Program<T>, q: Program<T>, s: nat)
    requires Neighbours(p, q) && s <= p.loc.Steps()
    ensures Labels(ReceivesBefore(p, s)) == Labels(SendsBefore(q, s))
  {
    hide Labels, LabelOf, ReceivesOfStep, SendsOfStep, Local.RecvPieces, Local.SendPieces;
    if s > 0 {
      StepsAligned(p, q, s - 1);
      StepAligned(p, q, s - 1);
      LabelsOfBoth(ReceivesBefore(p, s - 1), ReceivesOfStep(p, s - 1, p.loc.RecvPieces(s - 1)));
      LabelsOfBoth(SendsBefore(q, s - 1), SendsOfStep(q, s - 1, q.loc.SendPieces(s - 1)));
    }
  }

  lemma LabelsOfBoth(a: seq<Post>, b: seq<Post>)
    ensures Labels(a + b) == Labels(a) + Labels(b)
  {}

  /** FIFO alignment over a whole call, for any mix of modes: what a rank posts
    as receives is, one by one, what its predecessor posts as sends. */
  lemma CallsAligned<T>(p: Program<T>, m: Machine<T>, q: Program<T>, n: Machine<T>)
    requires Neighbours(p, q)
    requires p.Fits(START, m) && m.posts == [] && p.Run(p.loc.Steps(), START, m).0 == Success
    requires q.Fits(START, n) && n.posts == [] && q.Run(q.loc.Steps(), START, n).0 == Success
    ensures Labels(Receives(p.Run(p.loc.Steps(), START, m).1.posts)) == Labels(Sends(q.Run(q.loc.Steps(), START, n).1.posts))
  {
    hide Program.Run, Program.Fits, Labels, ReceivesBefore, SendsBefore;
    CallTrace(p, m);
    CallTrace(q, n);
    StepsAligned(p, q, p.loc.Steps());
  }
}
