/** The limits within which the zero-copy ring works: a group can finish its
  calls exactly when every message can be tagged, no piece is too long for a
  work request and no batch is deeper than a queue pair. */
module ZeroCopyLimits {
  import opened RingArithmetic
  import opened BlockLayout
  import opened Tags
  import opened Schedule
  import opened Group
  import opened ZeroCopyRing
  import opened ZeroCopyInvariant
  import opened ZeroCopySteps
  import opened ZeroCopyTermination

  /** What holds of a rank in every run, also where ranks fail: what it has
    posted was within the limits. */
  ghost predicate Placed<T>(g: Ring<T>, r: nat, me: Rank<T>)
    requires g.Valid() && r < g.size
  {
    && me.call <= |g.calls| && (me.call == |g.calls| ==> me.at == START)
    && (me.call < |g.calls| ==> g.LocalOf(r, me.call).CursorOk(me.at))
    && (me.at.begin == 0 || me.at.begin >= g.capacities[r])
    && me.receiving == Receives(g, r, me).posted - Receives(g, r, me).waited
    && me.sending == Sends(g, r, me).posted - Sends(g, r, me).waited
  }

  /** The piece whose receive is to be posted can be. */
  ghost predicate DueFits<T>(g: Ring<T>, r: nat, me: Rank<T>)
    requires g.Valid() && r < g.size
  {
    g.IdOk(r, Id(me.call, me.at.step, me.at.piece)) && g.MessageFits(r, Id(me.call, me.at.step, me.at.piece))
  }

  ghost predicate MessagesWithin<T>(g: Ring<T>, r: nat, me: Rank<T>)
    requires g.Valid() && r < g.size
  {
    forall id: Id :: g.IdOk(r, id) && id.piece < RequestedAt(g, r, me.call, me.at, id.call, id.step) ==> g.MessageFits(r, id)
  }

  ghost predicate DepthWithin<T>(g: Ring<T>, r: nat, me: Rank<T>)
    requires g.Valid() && r < g.size
  {
    forall c: nat, s: nat :: c < |g.calls| ==>
      && Min(g.capacities[r], RequestedAt(g, r, me.call, me.at, c, s)) <= QUEUE_PAIR_DEPTH
      && Min(g.capacities[r], SentAt(g, r, me.call, me.at, c, s)) <= QUEUE_PAIR_DEPTH
  }

  ghost predicate Within<T>(g: Ring<T>, r: nat, me: Rank<T>)
    requires g.Valid() && r < g.size
  {
    Placed(g, r, me) && MessagesWithin(g, r, me) && DepthWithin(g, r, me)
  }

  ghost predicate AllWithin<T>(g: Ring<T>, s: State<T>)
    requires g.Valid()
  {
    |s.ranks| == |s.links| == g.size && forall r :: 0 <= r < g.size ==> Within(g, r, s.ranks[r])
  }

  // --- moves that post nothing --------------------------------------------------------

  ghost predicate SamePosts<T>(g: Ring<T>, r: nat, me: Rank<T>, me': Rank<T>)
    requires g.Valid() && r < g.size
  {
    forall c: nat, s: nat :: c < |g.calls| ==>
      && RequestedAt(g, r, me'.call, me'.at, c, s) == RequestedAt(g, r, me.call, me.at, c, s)
      && SentAt(g, r, me'.call, me'.at, c, s) == SentAt(g, r, me.call, me.at, c, s)
  }

  lemma NothingPosted<T>(g: Ring<T>, r: nat, me: Rank<T>, me': Rank<T>)
    requires g.Valid() && r < g.size && Within(g, r, me) && Placed(g, r, me') && SamePosts(g, r, me, me')
    ensures Within(g, r, me')
  {
    hide Placed, RequestedAt, SentAt, Ring.MessageFits;
    assert forall id: Id :: g.IdOk(r, id) ==> id.call < |g.calls|;
    hide Ring.IdOk;
  }

  lemma SameCursor<T>(g: Ring<T>, r: nat, me: Rank<T>, me': Rank<T>)
    requires g.Valid() && r < g.size && Within(g, r, me)
    requires me'.call == me.call && me'.at == me.at && me'.receiving == me.receiving && me'.sending == me.sending
    ensures Within(g, r, me')
  {
    hide Local.CursorOk;
    NothingPosted(g, r, me, me');
  }

  lemma SilentWithin<T>(g: Ring<T>, r: nat, me: Rank<T>, me': Rank<T>)
    requires g.Valid() && r < g.size && Within(g, r, me) && SilentMove(g, r, me, me')
    requires me'.call <= |g.calls| && (me'.call == |g.calls| ==> me'.at == START)
    requires me'.call < |g.calls| ==> g.LocalOf(r, me'.call).CursorOk(me'.at)
    requires me'.at.begin == me.at.begin || me'.at.begin == 0 || me'.at.begin >= g.capacities[r]
    ensures Within(g, r, me')
  {
    hide WaitedAt, RequestedAt, SentAt, SendWaitedAt, Receives, Sends, Local.CursorOk, MessagesWithin, DepthWithin;
    NothingPosted(g, r, me, me');
  }

  // --- transport calls -----------------------------------------------------------------

  lemma CallPlaced<T>(g: Ring<T>, r: nat, me: Rank<T>, stage: Stage, me': Rank<T>)
    requires g.Valid() && Calls(g, r, me, stage, me') && Placed(g, r, me)
    requires me'.receiving == me.receiving + if stage == PostReceives then 1 else if stage == WaitReceives then -1 else 0
    requires me'.sending == me.sending + if stage == PostSends then 1 else if stage == WaitSends then -1 else 0
    ensures Placed(g, r, me')
  {
    CallWindows(g, r, me, stage, me');
    assert me'.at.begin == me.at.begin;
    hide Receives, Sends, Local.Advance;
  }

  lemma PostedWithin<T>(g: Ring<T>, r: nat, me: Rank<T>, stage: Stage, me': Rank<T>)
    requires g.Valid() && Calls(g, r, me, stage, me') && Within(g, r, me) && Placed(g, r, me')
    requires stage == PostReceives ==> me.receiving < QUEUE_PAIR_DEPTH && DueFits(g, r, me)
    requires stage == PostSends ==> me.sending < QUEUE_PAIR_DEPTH
    ensures Within(g, r, me')
  {
    assert me'.call == me.call && r < g.size;
    hide Calls, Placed, MessagesWithin, DueFits, RequestedAt, SentAt;
    MessagesAfterCall(g, r, me, stage, me');
    forall c: nat, s: nat | c < |g.calls|
      ensures Min(g.capacities[r], RequestedAt(g, r, me'.call, me'.at, c, s)) <= QUEUE_PAIR_DEPTH
      ensures Min(g.capacities[r], SentAt(g, r, me'.call, me'.at, c, s)) <= QUEUE_PAIR_DEPTH
    {
      DepthAfterCall(g, r, me, stage, me', c, s);
    }
  }

  lemma DepthAfterCall<T>(g: Ring<T>, r: nat, me: Rank<T>, stage: Stage, me': Rank<T>, c: nat, s: nat)
    requires g.Valid() && Calls(g, r, me, stage, me') && Placed(g, r, me) && DepthWithin(g, r, me) && c < |g.calls|
    requires stage == PostReceives ==> me.receiving < QUEUE_PAIR_DEPTH
    requires stage == PostSends ==> me.sending < QUEUE_PAIR_DEPTH
    ensures Min(g.capacities[r], RequestedAt(g, r, me'.call, me'.at, c, s)) <= QUEUE_PAIR_DEPTH
    ensures Min(g.capacities[r], SentAt(g, r, me'.call, me'.at, c, s)) <= QUEUE_PAIR_DEPTH
  {
    hide Placed, RequestedAt, SentAt, WaitedAt, SendWaitedAt, Local.Advance, Local.Acting, Local.CursorOk, Local.Finished;
    CallCounts(g, r, me, stage, me', c, s);
    CallPiece(g, r, me, stage, me');
    if me.at.piece < g.capacities[r] { FirstBatch(g, r, me, stage); }
  }

  lemma MessagesAfterCall<T>(g: Ring<T>, r: nat, me: Rank<T>, stage: Stage, me': Rank<T>)
    requires g.Valid() && Calls(g, r, me, stage, me') && MessagesWithin(g, r, me)
    requires stage == PostReceives ==> DueFits(g, r, me)
    ensures MessagesWithin(g, r, me')
  {
    CallPiece(g, r, me, stage, me');
    hide RequestedAt, SentAt, WaitedAt, SendWaitedAt, Local.Advance, Ring.MessageFits;
    forall id: Id | g.IdOk(r, id) && id.piece < RequestedAt(g, r, me'.call, me'.at, id.call, id.step)
      ensures g.MessageFits(r, id)
    {
      CallCounts(g, r, me, stage, me', id.call, id.step);
    }
  }

  /** In the first batch of a step everything posted is outstanding. */
  lemma FirstBatch<T>(g: Ring<T>, r: nat, me: Rank<T>, stage: Stage)
    requires g.Valid() && r < g.size && Placed(g, r, me) && me.call < |g.calls|
    requires g.LocalOf(r, me.call).Acting(me.at) && me.at.stage == stage && me.at.piece < g.capacities[r]
    ensures stage == PostReceives ==>
              RequestedAt(g, r, me.call, me.at, me.call, me.at.step) == me.receiving
    ensures stage == PostSends ==> SentAt(g, r, me.call, me.at, me.call, me.at.step) == me.sending
  {}

  // --- every step ----------------------------------------------------------------------

  lemma MoveWithin<T>(g: Ring<T>, s: State<T>, r: nat)
    requires g.Valid() && AllWithin(g, s) && Enabled(g, s, Move(r))
    ensures |Step(g, s, Move(r)).ranks| == |Step(g, s, Move(r)).links| == g.size
    ensures Step(g, s, Move(r)).ranks == s.ranks[r := Step(g, s, Move(r)).ranks[r]]
    ensures Within(g, r, Step(g, s, Move(r)).ranks[r])
  {
    hide Within, Launch, Unmoved, PostReceive, PostSend, WaitReceive, WaitSend, Return, AdvanceRank, Local.Advance;
    assert Within(g, r, s.ranks[r]);
    if Me(g, s, r).Finished(s.ranks[r].at) {
      ReturnWithin(g, s, r);
    } else if Acting(g, s, r, PostReceives) {
      PostReceiveWithin(g, s, r);
    } else if Acting(g, s, r, PostSends) {
      PostSendWithin(g, s, r);
    } else if Acting(g, s, r, WaitReceives) {
      WaitReceiveWithin(g, s, r);
    } else if Acting(g, s, r, WaitSends) {
      WaitSendWithin(g, s, r);
    } else {
      TestWithin(g, s, r);
    }
  }

  lemma ReturnWithin<T>(g: Ring<T>, s: State<T>, r: nat)
    requires g.Valid() && Running(g, s, r) && Me(g, s, r).Finished(s.ranks[r].at) && Within(g, r, s.ranks[r])
    ensures Return(g, s, r) == s.(ranks := s.ranks[r := Return(g, s, r).ranks[r]])
    ensures Within(g, r, Return(g, s, r).ranks[r])
  {
    hide SilentMove, Within, Local.CursorOk;
    ReturnSilent(g, s, r);
    var me' := Return(g, s, r).ranks[r];
    assert me'.call < |g.calls| ==> g.LocalOf(r, me'.call).CursorOk(START) by { StartOk(g, r); }
    SilentWithin(g, r, s.ranks[r], me');
  }

  lemma StartOk<T>(g: Ring<T>, r: nat)
    requires g.Valid() && r < g.size
    ensures forall c :: 0 <= c < |g.calls| ==> g.LocalOf(r, c).CursorOk(START)
  {}

  lemma TestWithin<T>(g: Ring<T>, s: State<T>, r: nat)
    requires g.Valid() && Running(g, s, r) && Within(g, r, s.ranks[r])
    requires !Me(g, s, r).Finished(s.ranks[r].at) && !Me(g, s, r).Acting(s.ranks[r].at)
    ensures AdvanceRank(g, s, r) == s.(ranks := s.ranks[r := AdvanceRank(g, s, r).ranks[r]])
    ensures Within(g, r, AdvanceRank(g, s, r).ranks[r])
  {
    var me, me' := s.ranks[r], AdvanceRank(g, s, r).ranks[r];
    assert me'.at.begin == me.at.begin || me'.at.begin == 0 || me'.at.begin >= g.capacities[r];
    hide SilentMove, Within, Local.CursorOk, Local.Advance;
    SilentAdvanceOk(g, s, r);
    SilentWithin(g, r, me, me');
  }

  lemma PostReceiveWithin<T>(g: Ring<T>, s: State<T>, r: nat)
    requires g.Valid() && Acting(g, s, r, PostReceives) && Within(g, r, s.ranks[r])
    ensures |PostReceive(g, s, r).links| == |s.links|
    ensures PostReceive(g, s, r).ranks == s.ranks[r := PostReceive(g, s, r).ranks[r]]
    ensures Within(g, r, PostReceive(g, s, r).ranks[r])
  {
    hide Within, Local.Advance, NewReceive, Ring.TagOf, Local.RecvLength;
    var me, me' := s.ranks[r], PostReceive(g, s, r).ranks[r];
    if me'.status != Success {
      SameCursor(g, r, me, me');
    } else {
      WithinPlaced(g, r, me);
      assert DueFits(g, r, me);
      assert Calls(g, r, me, PostReceives, me');
      hide Calls, Placed;
      CallPlaced(g, r, me, PostReceives, me');
      PostedWithin(g, r, me, PostReceives, me');
    }
  }

  lemma WithinPlaced<T>(g: Ring<T>, r: nat, me: Rank<T>)
    requires g.Valid() && r < g.size && Within(g, r, me)
    ensures Placed(g, r, me)
  {}

  lemma PostSendWithin<T>(g: Ring<T>, s: State<T>, r: nat)
    requires g.Valid() && Acting(g, s, r, PostSends) && Within(g, r, s.ranks[r]) && SendReady(g, s, r)
    ensures |PostSend(g, s, r).links| == |s.links|
    ensures PostSend(g, s, r).ranks == s.ranks[r := PostSend(g, s, r).ranks[r]]
    ensures Within(g, r, PostSend(g, s, r).ranks[r])
  {
    hide Within, Local.Advance, Ring.TagOf, Local.SendFirst, Local.SendLength;
    var me, me' := s.ranks[r], PostSend(g, s, r).ranks[r];
    if me'.at == me.at && me'.sending == me.sending && me'.receiving == me.receiving && me'.call == me.call {
      SameCursor(g, r, me, me');
    } else {
      WithinPlaced(g, r, me);
      assert Calls(g, r, me, PostSends, me');
      hide Calls, Placed;
      CallPlaced(g, r, me, PostSends, me');
      PostedWithin(g, r, me, PostSends, me');
    }
  }

  lemma WaitSendWithin<T>(g: Ring<T>, s: State<T>, r: nat)
    requires g.Valid() && Acting(g, s, r, WaitSends) && Within(g, r, s.ranks[r])
    ensures WaitSend(g, s, r) == s.(ranks := s.ranks[r := WaitSend(g, s, r).ranks[r]])
    ensures Within(g, r, WaitSend(g, s, r).ranks[r])
  {
    hide Within, Local.Advance;
    var me, me' := s.ranks[r], WaitSend(g, s, r).ranks[r];
    if me.sending == 0 {
      SameCursor(g, r, me, me');
    } else {
      WithinPlaced(g, r, me);
      assert Calls(g, r, me, WaitSends, me');
      hide Calls, Placed;
      CallPlaced(g, r, me, WaitSends, me');
      PostedWithin(g, r, me, WaitSends, me');
    }
  }

  lemma WaitReceiveWithin<T>(g: Ring<T>, s: State<T>, r: nat)
    requires g.Valid() && Acting(g, s, r, WaitReceives) && Within(g, r, s.ranks[r]) && Due(g, s, r) in s.ranks[r].received
    ensures WaitReceive(g, s, r) == s.(ranks := s.ranks[r := WaitReceive(g, s, r).ranks[r]])
    ensures Within(g, r, WaitReceive(g, s, r).ranks[r])
  {
    hide Within, Local.Advance, Fetch, Local.RecvLength, Local.RecvFirst;
    var me, me' := s.ranks[r], WaitReceive(g, s, r).ranks[r];
    if me'.at == me.at && me'.sending == me.sending && me'.receiving == me.receiving && me'.call == me.call {
      SameCursor(g, r, me, me');
    } else {
      WithinPlaced(g, r, me);
      assert Calls(g, r, me, WaitReceives, me');
      hide Calls, Placed;
      CallPlaced(g, r, me, WaitReceives, me');
      PostedWithin(g, r, me, WaitReceives, me');
    }
  }

  lemma StepWithin<T>(g: Ring<T>, s: State<T>, l: Label)
    requires g.Valid() && AllWithin(g, s) && Enabled(g, s, l)
    ensures AllWithin(g, Step(g, s, l))
  {
    hide Within, Launch, Unmoved, MoveEnabled;
    var s' := Step(g, s, l);
    if l.Move? {
      hide Step, Enabled;
      MoveWithin(g, s, l.r);
    } else {
      hide Running;
      forall r | 0 <= r < g.size
        ensures Within(g, r, s'.ranks[r])
      {
        SameCursor(g, r, s.ranks[r], s'.ranks[r]);
      }
    }
  }

  lemma {:induction false} RunWithin<T>(g: Ring<T>, s: State<T>, run: seq<Label>)
    requires g.Valid() && AllWithin(g, s) && Executable(g, s, run)
    ensures AllWithin(g, After(g, s, run))
    decreases |run|
  {
    hide AllWithin, Step, Enabled;
    if run != [] {
      StepWithin(g, s, run[0]);
      RunWithin(g, Step(g, s, run[0]), run[1..]);
    }
  }

  lemma InitialWithin<T>(g: Ring<T>)
    requires g.Valid()
    ensures AllWithin(g, Initial(g))
  {
    hide Shape.Pieces;
  }

  // --- the limits are necessary ------------------------------------------------------------

  lemma FinishedMessages<T>(g: Ring<T>, s: State<T>)
    requires g.Valid() && AllWithin(g, s) && AllDone(g, s)
    ensures g.TagsFit() && g.BytesFit()
  {
    forall r: nat, id: Id | r < g.size && g.IdOk(r, id)
      ensures g.TagOf(id).Tag? && g.BytesOf(r, id) <= MAX_BYTES
    {
      var me := s.ranks[r];
      assert Within(g, r, me) && me.call >= |g.calls|;
      assert RequestedAt(g, r, me.call, me.at, id.call, id.step) == g.LocalOf(r, id.call).RecvPieces(id.step);
      hide RequestedAt, SentAt, Placed, DepthWithin, Ring.TagOf, Ring.BytesOf;
      assert g.MessageFits(r, id);
    }
  }

  lemma FinishedDepth<T>(g: Ring<T>, s: State<T>)
    requires g.Valid() && AllWithin(g, s) && AllDone(g, s)
    ensures FitsQueuePairs(g)
  {
    forall r, c, t | 0 <= r < g.size && 0 <= c < |g.calls| && 0 <= t
      ensures Min(g.capacities[r], g.LocalOf(r, c).RecvPieces(t)) <= QUEUE_PAIR_DEPTH
      ensures Min(g.capacities[r], g.LocalOf(r, c).SendPieces(t)) <= QUEUE_PAIR_DEPTH
    {
      var me := s.ranks[r];
      assert Within(g, r, me) && me.call >= |g.calls|;
      assert RequestedAt(g, r, me.call, me.at, c, t) == g.LocalOf(r, c).RecvPieces(t);
      assert SentAt(g, r, me.call, me.at, c, t) == g.LocalOf(r, c).SendPieces(t);
      hide RequestedAt, SentAt, Placed, MessagesWithin;
    }
  }

  ghost predicate CanFinish<T>(g: Ring<T>)
    requires g.Valid()
  {
    exists run: seq<Label> :: Executable(g, Initial(g), run) && AllDone(g, After(g, Initial(g), run))
  }

  /** Some run finishes all calls on every rank exactly when every message can
    be tagged, no piece is too long and no batch too deep. */
  lemma FinishesExactlyWithin<T>(g: Ring<T>)
    requires g.Valid()
    ensures CanFinish(g) <==> g.TagsFit() && FitsDevice(g)
  {
    hide Executable, AllDone, AllWithin, Ring.TagsFit, Ring.BytesFit, FitsQueuePairs;
    if g.TagsFit() && FitsDevice(g) {
      var run := FinishFromStart(g);
    }
    if run: seq<Label> :| Executable(g, Initial(g), run) && AllDone(g, After(g, Initial(g), run)) {
      InitialWithin(g);
      RunWithin(g, Initial(g), run);
      FinishedMessages(g, After(g, Initial(g), run));
      FinishedDepth(g, After(g, Initial(g), run));
    }
  }

  // --- in the terms of the callers -----------------------------------------------------------

  /** Every rank but the first receives block 0 in one step; the first sends it. */
  lemma LargestBlockTravels<T>(g: Ring<T>, r: nat, c: nat)
    requires g.Valid() && r < g.size && c < |g.calls| && g.size > 1
    ensures if r == 0 then g.LocalOf(r, c).SendPieces(0) == g.ShapeOf(c).Pieces(0)
            else g.LocalOf(r, c).RecvPieces(r - 1) == g.ShapeOf(c).Pieces(0)
  {
    var loc := g.LocalOf(r, c);
    if r > 0 { assert loc.RecvHops(r - 1) == r && loc.RecvBlock(r - 1) == 0; }
    hide Shape.Pieces;
  }

  lemma StepWithinLargest<T>(g: Ring<T>, r: nat, c: nat, t: nat)
    requires g.Valid() && r < g.size && c < |g.calls|
    ensures g.LocalOf(r, c).RecvPieces(t) <= (if g.size > 1 then g.ShapeOf(c).Pieces(0) else 0)
    ensures g.LocalOf(r, c).SendPieces(t) <= (if g.size > 1 then g.ShapeOf(c).Pieces(0) else 0)
  {
    var loc := g.LocalOf(r, c);
    if t < loc.Steps() {
      g.PiecesMonotone(loc.shape, loc.RecvBlock(t));
      g.PiecesMonotone(loc.shape, loc.SendBlock(t));
    }
    hide Shape.Pieces, Local.RecvBlock, Local.SendBlock;
  }

  lemma DepthFitsExactly<T>(g: Ring<T>)
    requires g.Valid()
    ensures FitsQueuePairs(g) <==>
              g.size == 1 || |g.calls| == 0
              || forall r, c :: 0 <= r < g.size && 0 <= c < |g.calls| ==>
                   Min(g.capacities[r], g.ShapeOf(c).Pieces(0)) <= QUEUE_PAIR_DEPTH
  {
    hide Local.RecvPieces, Local.SendPieces, Shape.Pieces, Ring.LocalOf, Ring.ShapeOf;
    forall r, c, t | 0 <= r < g.size && 0 <= c < |g.calls| && 0 <= t
      ensures g.LocalOf(r, c).RecvPieces(t) <= (if g.size > 1 then g.ShapeOf(c).Pieces(0) else 0)
      ensures g.LocalOf(r, c).SendPieces(t) <= (if g.size > 1 then g.ShapeOf(c).Pieces(0) else 0)
    {
      StepWithinLargest(g, r, c, t);
    }
    forall r, c | 0 <= r < g.size && 0 <= c < |g.calls| && g.size > 1 && FitsQueuePairs(g)
      ensures Min(g.capacities[r], g.ShapeOf(c).Pieces(0)) <= QUEUE_PAIR_DEPTH
    {
      LargestBlockTravels(g, r, c);
    }
  }

  /** What a caller can work out before the calls: size of the group, element
    counts and sizes, piece size and pieces in flight. */
  ghost predicate CallWithinLimits<T>(g: Ring<T>, c: nat)
    requires g.Valid() && c < |g.calls|
  {
    && g.ShapeOf(c).Pieces(0) <= 4096
    && g.LargestPiece(c) * g.calls[c].elementSize <= 0xFFFF_FFFF
    && forall r :: 0 <= r < g.size ==> Min(g.capacities[r], g.ShapeOf(c).Pieces(0)) <= 256
  }

  lemma LimitsExactly<T>(g: Ring<T>)
    requires g.Valid()
    ensures CanFinish(g) <==>
              g.size == 1 || |g.calls| == 0
              || (g.size <= 129 && forall c :: 0 <= c < |g.calls| ==> CallWithinLimits(g, c))
  {
    hide CanFinish, Ring.TagsFit, Ring.BytesFit, FitsQueuePairs, Shape.Pieces, Ring.LargestPiece, Ring.ShapeOf;
    FinishesExactlyWithin(g);
    g.TagsFitExactly();
    g.BytesFitExactly();
    DepthFitsExactly(g);
    if g.size > 1 && |g.calls| > 0 {
      if forall c :: 0 <= c < |g.calls| ==> CallWithinLimits(g, c) {
        forall c | 0 <= c < |g.calls|
          ensures g.ShapeOf(c).Pieces(0) <= PIECE_LIMIT
          ensures g.LargestPiece(c) * g.calls[c].elementSize <= MAX_BYTES
          ensures forall r :: 0 <= r < g.size ==> Min(g.capacities[r], g.ShapeOf(c).Pieces(0)) <= QUEUE_PAIR_DEPTH
        {
          assert CallWithinLimits(g, c);
        }
      } else {
        var c :| 0 <= c < |g.calls| && !CallWithinLimits(g, c);
      }
    }
  }

  // --- groups the configuration allows, on either side of what the transport does ----------------

  /** 257 pieces at once are within the in-flight limit of 1024 but not within
    the depth of a queue pair. */
  lemma TooManyInFlight<T>(g: Ring<T>)
    requires g.Valid() && g.size == 2 && g.capacities == [1024, 1024] && g.pieceBytes == 4
    requires |g.calls| == 1 && g.calls[0].count == 514 && g.calls[0].elementSize == 4
    ensures g.TagsFit() && g.BytesFit() && !CanFinish(g)
  {
    hide CanFinish, FitsQueuePairs;
    var shape := g.ShapeOf(0);
    assert shape.Count(0) == 257 && shape.pieceElements == 1 && shape.Pieces(0) == 257;
    g.TagsFitExactly();
    g.BytesFitExactly();
    assert Min(g.capacities[0], 257) == 257;
    assert !CallWithinLimits(g, 0);
    LimitsExactly(g);
  }

  /** 256 are. */
  lemma AsManyAsFit<T>(g: Ring<T>)
    requires g.Valid() && g.size == 2 && g.capacities == [1024, 1024] && g.pieceBytes == 4
    requires |g.calls| == 1 && g.calls[0].count == 512 && g.calls[0].elementSize == 4
    ensures CanFinish(g)
  {
    hide CanFinish, FitsQueuePairs;
    var shape := g.ShapeOf(0);
    assert shape.Count(0) == 256 && shape.pieceElements == 1 && shape.Pieces(0) == 256;
    assert g.LargestPiece(0) * 4 == 4;
    assert forall r :: 0 <= r < g.size ==> Min(g.capacities[r], 256) == 256;
    assert CallWithinLimits(g, 0);
    LimitsExactly(g);
  }

  /** A piece of 2^32 bytes is one byte too long. */
  lemma PieceTooLong<T>(g: Ring<T>)
    requires g.Valid() && g.size == 2 && g.capacities == [1, 1] && g.pieceBytes == 0x2_0000_0000
    requires |g.calls| == 1 && g.calls[0].count == 0x8000_0000 && g.calls[0].elementSize == 4
    ensures g.TagsFit() && FitsQueuePairs(g) && !CanFinish(g)
  {
    hide CanFinish;
    var shape := g.ShapeOf(0);
    assert shape.Count(0) == 0x4000_0000 && shape.pieceElements == 0x8000_0000 && shape.Pieces(0) == 1;
    g.TagsFitExactly();
    DepthFitsExactly(g);
    assert g.LargestPiece(0) * 4 == 0x1_0000_0000;
    assert !CallWithinLimits(g, 0);
    LimitsExactly(g);
  }

  /** One of an element less is not. */
  lemma AsLongAsFits<T>(g: Ring<T>)
    requires g.Valid() && g.size == 2 && g.capacities == [1, 1] && g.pieceBytes == 0xFFFF_FFFC
    requires |g.calls| == 1 && g.calls[0].count == 0x7FFF_FFFE && g.calls[0].elementSize == 4
    ensures CanFinish(g)
  {
    hide CanFinish, FitsQueuePairs;
    var shape := g.ShapeOf(0);
    assert shape.Count(0) == 0x3FFF_FFFF && shape.pieceElements == 0x3FFF_FFFF && shape.Pieces(0) == 1;
    assert g.LargestPiece(0) * 4 == 0xFFFF_FFFC;
    assert forall r :: 0 <= r < g.size ==> Min(g.capacities[r], 1) == 1;
    assert CallWithinLimits(g, 0);
    LimitsExactly(g);
  }
}
