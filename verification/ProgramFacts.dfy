/** What a call of one rank guarantees whatever its transport answers, and what
  it computes when the transport delivers what the group sends. */
module ProgramFacts {
  import opened RingArithmetic
  import opened BlockLayout
  import opened Buffers
  import opened Tags
  import opened Schedule
  import opened Group
  import opened Reduction
  import opened RankProgram

  // --- requests ---------------------------------------------------------------------------

  ghost function Numbers(n: nat): (ids: multiset<nat>)
    ensures |ids| == n
  {
    if n == 0 then multiset{} else Numbers(n - 1) + multiset{n - 1}
  }

  /** How many receives and sends of the batch have been waited for. */
  function ReceivesDone<T>(p: Program<T>, c: Cursor): nat
    requires p.Valid()
  {
    Max(0, p.loc.RecvWaited(c, c.step) - c.begin)
  }

  function SendsDone<T>(p: Program<T>, c: Cursor): nat
    requires p.Valid()
  {
    Max(0, p.loc.SendWaited(c, c.step) - c.begin)
  }

  /** What was waited for and what is pending is every accepted request, once. */
  ghost predicate Balanced(waited: seq<nat>, some: seq<nat>, others: seq<nat>, n: nat) {
    multiset(waited) + multiset(some) + multiset(others) == Numbers(n)
  }

  ghost predicate Tracked<T>(p: Program<T>, c: Cursor, m: Machine<T>)
    requires p.Valid()
  {
    if c.stage.BatchHead? then Balanced(m.waited, [], [], |m.posts|)
    else
      && ReceivesDone(p, c) <= |m.receives| && SendsDone(p, c) <= |m.sends|
      && Balanced(m.waited, m.receives[ReceivesDone(p, c)..], m.sends[SendsDone(p, c)..], |m.posts|)
  }

  lemma CountsAct<T>(p: Program<T>, c: Cursor)
    requires p.Valid() && p.loc.CursorOk(c) && p.loc.Acting(c)
    ensures var n := p.loc.Advance(c);
            && n.stage == c.stage && !n.stage.BatchHead?
            && ReceivesDone(p, n) == ReceivesDone(p, c) + (if c.stage == WaitReceives then 1 else 0)
            && SendsDone(p, n) == SendsDone(p, c) + (if c.stage == WaitSends then 1 else 0)
            && ReceivesDone(p, c) <= p.BatchReceives(c) && SendsDone(p, c) <= p.BatchSends(c)
            && (c.stage == WaitReceives ==> ReceivesDone(p, c) == c.piece - c.begin < p.BatchReceives(c))
            && (c.stage == WaitSends ==> SendsDone(p, c) == c.piece - c.begin < p.BatchSends(c))
  {
    p.loc.ActingAdvance(c, c.step);
    p.loc.OutstandingBound(c, c.step);
    hide Shape.Pieces;
  }

  /** A loop test keeps the counts; a batch begins and ends with nothing
    pending. */
  lemma CountsTest<T>(p: Program<T>, c: Cursor)
    requires p.Valid() && p.loc.CursorOk(c) && !p.loc.Finished(c) && !p.loc.Acting(c)
    ensures var n := p.loc.Advance(c);
            && (!c.stage.BatchHead? && !n.stage.BatchHead? ==>
                  ReceivesDone(p, n) == ReceivesDone(p, c) && SendsDone(p, n) == SendsDone(p, c))
            && (c.stage.BatchHead? && !n.stage.BatchHead? ==> ReceivesDone(p, n) == SendsDone(p, n) == 0)
            && (!c.stage.BatchHead? && n.stage.BatchHead? ==>
                  ReceivesDone(p, c) == p.BatchReceives(c) && SendsDone(p, c) == p.BatchSends(c))
  {
    hide Shape.Pieces;
  }

  /** What a transport call does to the books; a failed one leaves them alone,
    but for a piece that came and could not be reduced. */
  lemma ActEffect<T>(p: Program<T>, c: Cursor, m: Machine<T>)
    requires p.Valid() && p.loc.CursorOk(c) && p.loc.Acting(c) && p.Fits(c, m)
    ensures var (status, m') := p.Act(c, m);
            var ok := status == Success;
            && (c.stage == PostReceives ==>
                  && |m'.posts| == |m.posts| + (if ok then 1 else 0) && m'.waited == m.waited && m'.sends == m.sends
                  && m'.receives == if ok then m.receives + [|m.posts|] else m.receives)
            && (c.stage == PostSends ==>
                  && |m'.posts| == |m.posts| + (if ok then 1 else 0) && m'.waited == m.waited && m'.receives == m.receives
                  && m'.sends == if ok then m.sends + [|m.posts|] else m.sends)
            && (c.stage == WaitReceives ==>
                  && m'.posts == m.posts && m'.receives == m.receives && m'.sends == m.sends
                  && c.piece - c.begin < |m.receives|
                  && (ok ==> m'.waited == m.waited + [m.receives[c.piece - c.begin]])
                  && (!ok ==> m'.waited == m.waited || m'.waited == m.waited + [m.receives[c.piece - c.begin]]))
            && (c.stage == WaitSends ==>
                  && m'.posts == m.posts && m'.receives == m.receives && m'.sends == m.sends
                  && c.piece - c.begin < |m.sends|
                  && m'.waited == if ok then m.waited + [m.sends[c.piece - c.begin]] else m.waited)
  {
    hide Local.Advance, Program.TagFor, Target, Local.SendFirst, Local.RecvFirst, Overwrite, Combine, Shape.MaxBlockCount;
  }

  lemma PostedOne(waited: seq<nat>, some: seq<nat>, others: seq<nat>, n: nat)
    requires Balanced(waited, some, others, n)
    ensures Balanced(waited, some + [n], others, n + 1)
  {
    NumbersGrow(n);
  }

  lemma WaitedOne(waited: seq<nat>, some: seq<nat>, k: nat, others: seq<nat>, n: nat)
    requires k < |some| && Balanced(waited, some[k..], others, n)
    ensures Balanced(waited + [some[k]], some[k + 1..], others, n)
  {
    assert some[k..] == [some[k]] + some[k + 1..];
  }

  lemma Swapped(waited: seq<nat>, some: seq<nat>, others: seq<nat>, n: nat)
    ensures Balanced(waited, some, others, n) <==> Balanced(waited, others, some, n)
  {}

  /** The books after a request more, and after a wait more. */
  lemma OneMoreRequest(waited: seq<nat>, list: seq<nat>, done: nat, others: seq<nat>, n: nat)
    requires done <= |list| && Balanced(waited, list[done..], others, n)
    ensures Balanced(waited, (list + [n])[done..], others, n + 1)
    ensures Balanced(waited, others, (list + [n])[done..], n + 1)
  {
    PostedOne(waited, list[done..], others, n);
    assert (list + [n])[done..] == list[done..] + [n];
    hide Balanced;
    Swapped(waited, (list + [n])[done..], others, n + 1);
  }

  lemma OneMoreWait(waited: seq<nat>, list: seq<nat>, done: nat, others: seq<nat>, n: nat)
    requires done < |list| && Balanced(waited, list[done..], others, n)
    ensures Balanced(waited + [list[done]], list[done + 1..], others, n)
    ensures Balanced(waited + [list[done]], others, list[done + 1..], n)
  {
    hide Balanced;
    WaitedOne(waited, list, done, others, n);
    Swapped(waited + [list[done]], list[done + 1..], others, n);
  }

  lemma CallTracked<T>(p: Program<T>, c: Cursor, m: Machine<T>)
    requires p.Valid() && p.loc.CursorOk(c) && p.loc.Acting(c) && p.Fits(c, m) && Tracked(p, c, m)
    requires p.Act(c, m).0 == Success
    ensures Tracked(p, p.loc.Advance(c), p.Act(c, m).1)
  {
    hide Program.Act, Program.Fits, Local.Advance, Local.CursorOk, ReceivesDone, SendsDone, Balanced, Program.BatchReceives,
         Program.BatchSends;
    ActEffect(p, c, m);
    CountsAct(p, c);
    var r, s, n := ReceivesDone(p, c), SendsDone(p, c), |m.posts|;
    if c.stage == PostReceives {
      OneMoreRequest(m.waited, m.receives, r, m.sends[s..], n);
    } else if c.stage == PostSends {
      Swapped(m.waited, m.receives[r..], m.sends[s..], n);
      OneMoreRequest(m.waited, m.sends, s, m.receives[r..], n);
    } else if c.stage == WaitReceives {
      OneMoreWait(m.waited, m.receives, r, m.sends[s..], n);
    } else {
      Swapped(m.waited, m.receives[r..], m.sends[s..], n);
      OneMoreWait(m.waited, m.sends, s, m.receives[r..], n);
    }
  }

  lemma ActTracked<T>(p: Program<T>, c: Cursor, m: Machine<T>)
    requires p.Valid() && p.loc.CursorOk(c) && !p.loc.Finished(c) && p.Fits(c, m) && Tracked(p, c, m)
    requires p.Act(c, m).0 == Success
    ensures Tracked(p, p.loc.Advance(c), p.Act(c, m).1)
  {
    if p.loc.Acting(c) {
      CallTracked(p, c, m);
    } else {
      CountsTest(p, c);
      BatchSizes(p, c, m);
      hide Local.Advance, Local.Acting, Local.CursorOk, ReceivesDone, SendsDone, Numbers, Program.Fits;
    }
  }

  lemma NumbersGrow(n: nat)
    ensures Numbers(n + 1) == Numbers(n) + multiset{n}
  {}

  lemma BatchSizes<T>(p: Program<T>, c: Cursor, m: Machine<T>)
    requires p.Valid() && p.Fits(c, m)
    ensures !c.stage.BatchHead? ==> |m.receives| == p.BatchReceives(c) && |m.sends| == p.BatchSends(c)
  {}

  /** A call that succeeds has waited for every request it made, each once;
    one that fails may leave requests pending, at most a batch each way. */
  lemma {:induction false} RunTracked<T>(p: Program<T>, end: nat, c: Cursor, m: Machine<T>)
    requires p.Valid() && p.loc.CursorOk(c) && p.Fits(c, m) && Tracked(p, c, m) && end <= p.loc.Steps()
    requires c.step < end || c == Cursor(end, 0, BatchHead, 0)
    ensures var (status, m') := p.Run(end, c, m);
            && |m'.posts| - 2 * p.loc.capacity <= |m'.waited| <= |m'.posts|
            && (status == Success ==> multiset(m'.waited) == Numbers(|m'.posts|))
    decreases p.loc.Remaining(c)
  {
    hide Program.Act, Program.Fits, Tracked;
    if c.step < end {
      var (status, m') := p.Act(c, m);
      if status == Success {
        p.ActFits(c, m);
        ActTracked(p, c, m);
        RunTracked(p, end, p.loc.Advance(c), m');
      } else {
        TrackedBound(p, c, m);
      }
    } else {
      assert multiset(m.waited) == Numbers(|m.posts|) by { AtHead(p, c, m); }
    }
  }

  lemma AtHead<T>(p: Program<T>, c: Cursor, m: Machine<T>)
    requires p.Valid() && Tracked(p, c, m) && c.stage.BatchHead?
    ensures multiset(m.waited) == Numbers(|m.posts|) && |m.waited| == |m.posts|
  {
    assert |multiset(m.waited)| == |m.waited|;
  }

  /** ... also in the state a failing transport call leaves behind. */
  lemma TrackedBound<T>(p: Program<T>, c: Cursor, m: Machine<T>)
    requires p.Valid() && p.loc.CursorOk(c) && p.Fits(c, m) && Tracked(p, c, m) && p.Act(c, m).0 != Success
    ensures var m' := p.Act(c, m).1; |m'.posts| - 2 * p.loc.capacity <= |m'.waited| <= |m'.posts|
  {
    assert p.loc.Acting(c);
    ActEffect(p, c, m);
    CountsAct(p, c);
    BatchSizes(p, c, m);
    BatchLimit(p, c);
    hide Program.Act, Program.Fits, Local.Advance, Local.Acting, Local.CursorOk, ReceivesDone, SendsDone, Numbers,
         Program.BatchReceives, Program.BatchSends;
    assert |multiset(m.waited)| == |m.waited|;
  }

  lemma BatchLimit<T>(p: Program<T>, c: Cursor)
    requires p.Valid() && p.loc.CursorOk(c)
    ensures p.BatchReceives(c) <= p.loc.capacity && p.BatchSends(c) <= p.loc.capacity
  {}

  // --- tags -----------------------------------------------------------------------------------

  /** Every piece the rank sends or receives before step `end` can be tagged. */
  ghost predicate TagsInRange<T>(p: Program<T>, end: nat)
    requires p.Valid()
  {
    forall s, piece :: 0 <= s < end && 0 <= piece < Max(p.loc.SendPieces(s), p.loc.RecvPieces(s)) ==> p.TagFor(s, piece).Tag?
  }

  /** With tags in range no answer of the transport makes a call fail for a tag. */
  lemma {:induction false} TagsNeverFail<T>(p: Program<T>, end: nat, c: Cursor, m: Machine<T>)
    requires p.Valid() && p.loc.CursorOk(c) && p.Fits(c, m) && end <= p.loc.Steps() && TagsInRange(p, end)
    ensures p.Run(end, c, m).0 != TagRange
    decreases p.loc.Remaining(c)
  {
    if c.step < end {
      ActTag(p, end, c, m);
      hide Program.Act, Program.Fits, TagsInRange;
      if p.Act(c, m).0 == Success {
        p.ActFits(c, m);
        TagsNeverFail(p, end, p.loc.Advance(c), p.Act(c, m).1);
      }
    }
  }

  lemma ActTag<T>(p: Program<T>, end: nat, c: Cursor, m: Machine<T>)
    requires p.Valid() && p.loc.CursorOk(c) && p.Fits(c, m) && c.step < end <= p.loc.Steps() && TagsInRange(p, end)
    ensures p.Act(c, m).0 != TagRange
  {
    hide Program.TagFor, Target, Overwrite, Combine, Local.SendFirst, Local.RecvFirst;
  }

  // --- an unsupported operation -------------------------------------------------------------------

  /** A reduction is still to be made. */
  ghost predicate ReductionAhead<T>(p: Program<T>, c: Cursor)
    requires p.Valid()
  {
    exists s :: 0 <= s && s + 1 < p.loc.shape.size && p.loc.RecvWaited(c, s) < p.loc.RecvPieces(s)
  }

  lemma AheadKept<T>(p: Program<T>, c: Cursor)
    requires p.Valid() && p.loc.CursorOk(c) && !p.loc.Finished(c)
    ensures p.loc.Acting(c) && c.stage == WaitReceives && !p.loc.Gathering(c.step) ==> ReductionAhead(p, c)
    ensures !(p.loc.Acting(c) && c.stage == WaitReceives && !p.loc.Gathering(c.step)) ==>
              (ReductionAhead(p, c) <==> ReductionAhead(p, p.loc.Advance(c)))
  {
    var n := p.loc.Advance(c);
    if p.loc.Acting(c) { p.loc.ActingAdvance(c, c.step); p.loc.OutstandingBound(c, c.step); }
    forall s | 0 <= s && s + 1 < p.loc.shape.size
      ensures !(p.loc.Acting(c) && c.stage == WaitReceives && !p.loc.Gathering(c.step)) ==>
                p.loc.RecvWaited(n, s) == p.loc.RecvWaited(c, s)
    {
      p.loc.ReceivesAdvance(c, s);
    }
    hide Local.RecvWaited, Local.RecvPosted, Local.RecvPieces, Local.Advance;
  }

  /** An unsupported operation is found out exactly when a piece is to be
    reduced: never by a single rank, nor by one that receives no element. */
  lemma {:induction false} OperationFoundOut<T>(p: Program<T>, c: Cursor, m: Machine<T>)
    requires p.Valid() && p.loc.CursorOk(c) && p.Fits(c, m) && TagsInRange(p, p.loc.Steps())
    requires p.operation.OtherOperation? && forall k :: p.answers(k).Done?
    ensures p.Run(p.loc.Steps(), c, m).0 == if ReductionAhead(p, c) then UnsupportedOperation else Success
    decreases p.loc.Remaining(c)
  {
    if c.step < p.loc.Steps() {
      AheadKept(p, c);
      OnlyReductionFails(p, c, m);
      hide Program.Act, Program.Fits, TagsInRange, ReductionAhead;
      if p.Act(c, m).0 == Success {
        p.ActFits(c, m);
        OperationFoundOut(p, p.loc.Advance(c), p.Act(c, m).1);
      }
    }
  }

  lemma OnlyReductionFails<T>(p: Program<T>, c: Cursor, m: Machine<T>)
    requires p.Valid() && p.loc.CursorOk(c) && p.Fits(c, m) && c.step < p.loc.Steps() && TagsInRange(p, p.loc.Steps())
    requires p.operation.OtherOperation? && forall k :: p.answers(k).Done?
    ensures p.Act(c, m).0 == if p.loc.Acting(c) && c.stage == WaitReceives && !p.loc.Gathering(c.step)
                             then UnsupportedOperation else Success
  {
    ActTag(p, p.loc.Steps(), c, m);
    hide Program.TagFor, Target, Overwrite, Combine, Local.SendFirst, Local.RecvFirst, TagsInRange;
  }

  // --- values -----------------------------------------------------------------------------------

  /** The program of rank `r` in call `call` of a group. */
  ghost predicate Member<T>(p: Program<T>, g: Ring<T>, r: nat, call: nat)
    requires g.Valid()
  {
    && r < g.size && call < |g.calls| && p.loc == g.LocalOf(r, call) && p.elementSize == g.calls[call].elementSize
    && p.sequence == call % 0x1_0000_0000
    && !p.operation.OtherOperation? && p.arithmetic.Kernel(p.operation) == g.calls[call].op
  }

  /** It posts with the tags of the group's messages. */
  lemma MemberTags<T>(p: Program<T>, g: Ring<T>, r: nat, call: nat, step: nat, piece: nat)
    requires g.Valid() && Member(p, g, r, call)
    ensures p.TagFor(step, piece) == g.TagOf(Id(call, step, piece))
  {}

  /** What a rank sends its successor receives, so the group's limits are its own. */
  lemma GroupTagsInRange<T>(p: Program<T>, g: Ring<T>, r: nat, call: nat)
    requires g.Valid() && Member(p, g, r, call) && p.Valid() && g.TagsFit()
    ensures TagsInRange(p, p.loc.Steps())
  {
    forall s, piece | 0 <= s < p.loc.Steps() && 0 <= piece < Max(p.loc.SendPieces(s), p.loc.RecvPieces(s))
      ensures p.TagFor(s, piece).Tag?
    {
      MemberTags(p, g, r, call, s, piece);
      g.SameLink(r, call, s);
      if piece < p.loc.RecvPieces(s) { g.TagInRange(r, Id(call, s, piece)); }
      else { g.TagInRange(Next(g.size, r), Id(call, s, piece)); }
      hide Ring.TagsFit, Ring.TagOf, Program.TagFor, Local.SendFirst, Local.RecvFirst, Local.SendLength, Local.RecvLength;
    }
  }

  /** In a group of at most 129 ranks whose largest blocks have at most 4096
    pieces no call fails for a tag, whatever the transport answers. */
  lemma SmallGroupTags<T>(p: Program<T>, g: Ring<T>, r: nat, call: nat, m: Machine<T>)
    requires g.Valid() && Member(p, g, r, call) && p.Valid() && p.Fits(START, m)
    requires g.size <= 129 && forall c :: 0 <= c < |g.calls| ==> g.ShapeOf(c).Pieces(0) <= PIECE_LIMIT
    ensures p.Run(p.loc.Steps(), START, m).0 != TagRange
  {
    hide TagsInRange, Ring.TagsFit, Program.Run, Program.Fits, Shape.Pieces;
    g.TagsFitExactly();
    GroupTagsInRange(p, g, r, call);
    TagsNeverFail(p, p.loc.Steps(), START, m);
  }

  /** The answer to the wait at `c`, if it ends, is what the predecessor sends. */
  ghost predicate Brings<T>(p: Program<T>, g: Ring<T>, r: nat, call: nat, c: Cursor, answer: Answer<T>)
    requires g.Valid() && Member(p, g, r, call) && p.Valid() && c.piece < p.loc.RecvPieces(c.step)
  {
    answer.Done? ==>
      forall i :: p.loc.RecvFirst(c.step, c.piece) <= i
                  < p.loc.RecvFirst(c.step, c.piece) + p.loc.RecvLength(c.step, c.piece) ==>
        answer.data(i - p.loc.RecvFirst(c.step, c.piece)) == g.Sent(call, c.step, i)
  }

  /** Every receive that ends, ends with what the group's predecessor sends. */
  ghost predicate Delivered<T>(p: Program<T>, g: Ring<T>, r: nat, call: nat, end: nat, c: Cursor, m: Machine<T>)
    requires g.Valid() && Member(p, g, r, call) && p.Valid() && p.loc.CursorOk(c) && p.Fits(c, m) && end <= p.loc.Steps()
    decreases p.loc.Remaining(c)
  {
    c.step < end ==>
      && (p.loc.Acting(c) && c.stage == WaitReceives ==> Brings(p, g, r, call, c, p.answers(m.asked)))
      && (p.Act(c, m).0 == Success ==>
            (p.ActFits(c, m); Delivered(p, g, r, call, end, p.loc.Advance(c), p.Act(c, m).1)))
  }

  /** The buffer holds what a rank of the group holds at this point. */
  ghost predicate HoldsExpected<T>(g: Ring<T>, r: nat, call: nat, c: Cursor, work: seq<T>)
    requires g.Valid() && r < g.size && call < |g.calls|
  {
    |work| == g.calls[call].count && forall i :: 0 <= i < |work| ==> work[i] == g.Expected(r, call, c, i)
  }

  lemma WaitHolds<T>(p: Program<T>, g: Ring<T>, r: nat, call: nat, c: Cursor, m: Machine<T>)
    requires g.Valid() && Member(p, g, r, call) && p.Valid() && p.loc.CursorOk(c) && p.Fits(c, m)
    requires p.loc.Acting(c) && c.stage == WaitReceives && p.Act(c, m).0 == Success
    requires HoldsExpected(g, r, call, c, m.work)
    requires Brings(p, g, r, call, c, p.answers(m.asked))
    ensures HoldsExpected(g, r, call, p.loc.Advance(c), p.Act(c, m).1.work)
  {
    hide Program.Act, Program.Fits, Local.Advance, Local.RecvFirst, Local.RecvLength, Local.RecvBlock, Local.CursorOk,
         Shape.Pieces, Shape.BlockOf, Shape.PieceOf, Ring.Expected, Ring.Sent, Overwrite, Combine;
    WaitDone(p, c, m);
    var first, n := p.loc.RecvFirst(c.step, c.piece), p.loc.RecvLength(c.step, c.piece);
    p.WaitReceiveIs(c, m, first, p.loc.shape.Start(c.piece), n);
    var work' := p.Act(c, m).1.work;
    forall i | 0 <= i < |work'|
      ensures work'[i] == g.Expected(r, call, p.loc.Advance(c), i)
    {
      p.loc.RegionsCover(c.step, c.piece, i);
      g.ReceiveValue(r, call, c, i);
    }
  }

  lemma OtherHolds<T>(p: Program<T>, g: Ring<T>, r: nat, call: nat, c: Cursor, m: Machine<T>)
    requires g.Valid() && Member(p, g, r, call) && p.Valid() && p.loc.CursorOk(c) && !p.loc.Finished(c) && p.Fits(c, m)
    requires !(p.loc.Acting(c) && c.stage == WaitReceives) && p.Act(c, m).0 == Success
    requires HoldsExpected(g, r, call, c, m.work)
    ensures HoldsExpected(g, r, call, p.loc.Advance(c), p.Act(c, m).1.work)
  {
    assert p.Act(c, m).1.work == m.work by {
      hide Program.TagFor, Target, Local.SendFirst, Local.RecvFirst, HoldsExpected;
    }
    hide Program.Act, Local.Advance, Ring.Expected;
    forall i | 0 <= i < |m.work|
      ensures g.Expected(r, call, p.loc.Advance(c), i) == g.Expected(r, call, c, i)
    {
      g.OtherValue(r, call, c, i);
    }
  }

  lemma {:induction false} RunHolds<T>(p: Program<T>, g: Ring<T>, r: nat, call: nat, end: nat, c: Cursor, m: Machine<T>)
    requires g.Valid() && Member(p, g, r, call) && p.Valid() && p.loc.CursorOk(c) && p.Fits(c, m) && end <= p.loc.Steps()
    requires c.step < end || c == Cursor(end, 0, BatchHead, 0)
    requires Delivered(p, g, r, call, end, c, m) && HoldsExpected(g, r, call, c, m.work)
    ensures p.Run(end, c, m).0 == Success ==>
              HoldsExpected(g, r, call, Cursor(end, 0, BatchHead, 0), p.Run(end, c, m).1.work)
    decreases p.loc.Remaining(c)
  {
    hide Program.Act, Program.Fits, HoldsExpected, Member, Brings;
    if c.step < end && p.Act(c, m).0 == Success {
      p.ActFits(c, m);
      if p.loc.Acting(c) && c.stage == WaitReceives {
        WaitHolds(p, g, r, call, c, m);
      } else {
        OtherHolds(p, g, r, call, c, m);
      }
      RunHolds(p, g, r, call, end, p.loc.Advance(c), p.Act(c, m).1);
    }
  }

  lemma WaitDone<T>(p: Program<T>, c: Cursor, m: Machine<T>)
    requires p.Valid() && p.loc.CursorOk(c) && p.Fits(c, m) && p.loc.Acting(c) && c.stage == WaitReceives
    requires p.Act(c, m).0 == Success
    ensures p.answers(m.asked).Done?
  {
    hide Overwrite, Combine, Local.RecvFirst;
  }

  /** A call that succeeds over a transport that delivers what the group sends
    leaves the fully reduced buffer behind. */
  lemma CallReduces<T>(p: Program<T>, g: Ring<T>, r: nat, call: nat, m: Machine<T>)
    requires g.Valid() && Member(p, g, r, call) && p.Valid() && p.Fits(START, m)
    requires m.work == g.calls[call].input[r] && Delivered(p, g, r, call, p.loc.Steps(), START, m)
    requires p.Run(p.loc.Steps(), START, m).0 == Success
    ensures var work := p.Run(p.loc.Steps(), START, m).1.work;
            |work| == g.calls[call].count && forall i :: 0 <= i < |work| ==> work[i] == g.Reduced(call, i)
  {
    var end := Cursor(p.loc.Steps(), 0, BatchHead, 0);
    var work := p.Run(p.loc.Steps(), START, m).1.work;
    hide Program.Fits, Program.Run, Delivered;
    forall i | 0 <= i < |m.work|
      ensures g.Expected(r, call, START, i) == m.work[i]
    {
      g.StartValue(r, call, i);
    }
    RunHolds(p, g, r, call, p.loc.Steps(), START, m);
    forall i | 0 <= i < |work|
      ensures work[i] == g.Reduced(call, i)
    {
      g.EndValue(r, call, end, i);
    }
  }
}
