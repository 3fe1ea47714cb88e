/** Every step of the zero-copy ring keeps the invariant. */
module ZeroCopySteps {
  import opened RingArithmetic
  import opened BlockLayout
  import opened Tags
  import opened Schedule
  import opened Group
  import opened Buffers
  import opened ZeroCopyRing
  import opened ZeroCopyInvariant

  // --- loop tests and returns -------------------------------------------------

  lemma ReplaceRank<T>(g: Ring<T>, s: State<T>, r: nat, me: Rank<T>)
    requires g.Valid() && Inv(g, s) && r < g.size && RankOk(g, r, me) && SilentMove(g, r, s.ranks[r], me)
    ensures Inv(g, s.(ranks := s.ranks[r := me]))
  {
    var s' := s.(ranks := s.ranks[r := me]);
    forall q | 0 <= q < g.size
      ensures LinkOk(g, q, s'.ranks[q], s'.ranks[Next(g.size, q)], s'.links[Next(g.size, q)])
    {
      var link := s.links[Next(g.size, q)];
      hide LinkOk, RankOk, SilentMove;
      if Next(g.size, q) == r {
        SilentReceiver(g, q, s.ranks[q], s.ranks[r], me, link);
      }
      if q == r {
        SilentSender(g, q, s.ranks[q], me, s'.ranks[Next(g.size, q)], link);
      }
    }
  }

  lemma SilentAdvanceOk<T>(g: Ring<T>, s: State<T>, r: nat)
    requires g.Valid() && Running(g, s, r)
    requires !Me(g, s, r).Finished(s.ranks[r].at) && !Me(g, s, r).Acting(s.ranks[r].at)
    ensures SilentMove(g, r, s.ranks[r], AdvanceRank(g, s, r).ranks[r])
  {
    var me, loc := s.ranks[r], Me(g, s, r);
    var me' := AdvanceRank(g, s, r).ranks[r];
    forall c: nat, t: nat | c < |g.calls|
      ensures WaitedAt(g, r, me'.call, me'.at, c, t) == WaitedAt(g, r, me.call, me.at, c, t)
      ensures RequestedAt(g, r, me'.call, me'.at, c, t) == RequestedAt(g, r, me.call, me.at, c, t)
      ensures SentAt(g, r, me'.call, me'.at, c, t) == SentAt(g, r, me.call, me.at, c, t)
      ensures SendWaitedAt(g, r, me'.call, me'.at, c, t) == SendWaitedAt(g, r, me.call, me.at, c, t)
    {
      loc.SilentAdvance(me.at, t);
    }
    if me'.at.step != me.at.step {
      loc.OutstandingBound(me.at, me.at.step);
      loc.OutstandingBound(me'.at, me'.at.step);
      assert loc.RecvPosted(me'.at, me'.at.step) == 0 && loc.SendPosted(me'.at, me'.at.step) == 0;
    }
  }

  /** Rank `me` becomes `me'` by passing its cursor's loop test or call. */
  ghost predicate Onward<T>(g: Ring<T>, r: nat, me: Rank<T>, me': Rank<T>)
    requires g.Valid()
  {
    && r < g.size && me.call < |g.calls|
    && g.LocalOf(r, me.call).CursorOk(me.at) && !g.LocalOf(r, me.call).Finished(me.at)
    && me'.call == me.call && me'.at == g.LocalOf(r, me.call).Advance(me.at)
    && me'.out == me.out && me'.status == me.status
  }

  /** ... where the cursor stands at a transport call in loop `stage`. */
  ghost predicate Calls<T>(g: Ring<T>, r: nat, me: Rank<T>, stage: Stage, me': Rank<T>)
    requires g.Valid()
  {
    Onward(g, r, me, me') && g.LocalOf(r, me.call).Acting(me.at) && me.at.stage == stage
  }

  /** The buffer, in a move that waits for nothing. */
  lemma AdvanceBufferOk<T>(g: Ring<T>, r: nat, me: Rank<T>, me': Rank<T>)
    requires g.Valid() && Onward(g, r, me, me') && BufferOk(g, r, me) && me'.work == me.work
    requires !(g.LocalOf(r, me.call).Acting(me.at) && me.at.stage == WaitReceives)
    ensures BufferOk(g, r, me')
  {
    forall i | 0 <= i < |me.work|
      ensures g.Expected(r, me.call, me'.at, i) == g.Expected(r, me.call, me.at, i)
      ensures g.Lent(r, me.call, me.at, i) ==> g.Lent(r, me.call, me'.at, i)
    {
      g.OtherValue(r, me.call, me.at, i);
      g.OtherLent(r, me.call, me.at, i);
    }
  }

  lemma SilentInv<T>(g: Ring<T>, s: State<T>, r: nat)
    requires g.Valid() && Inv(g, s) && Running(g, s, r)
    requires !Me(g, s, r).Finished(s.ranks[r].at) && !Me(g, s, r).Acting(s.ranks[r].at)
    ensures Inv(g, AdvanceRank(g, s, r))
  {
    SilentAdvanceOk(g, s, r);
    assert RankOk(g, r, s.ranks[r]);
    AdvanceBufferOk(g, r, s.ranks[r], AdvanceRank(g, s, r).ranks[r]);
    hide Inv, BufferOk, WaitedAt, RequestedAt, SentAt, SendWaitedAt;
    ReplaceRank(g, s, r, AdvanceRank(g, s, r).ranks[r]);
  }

  /** A call that returns leaves the fully reduced buffer behind. */
  lemma FinishedResult<T>(g: Ring<T>, r: nat, me: Rank<T>)
    requires g.Valid() && r < g.size && RankOk(g, r, me) && me.call < |g.calls|
    requires g.LocalOf(r, me.call).Finished(me.at)
    ensures ResultsOk(g, me.out + [me.work])
  {
    hide Shape.Pieces, Receives, Sends;
    forall i | 0 <= i < |me.work|
      ensures me.work[i] == g.Reduced(me.call, i)
    {
      g.EndValue(r, me.call, me.at, i);
    }
  }

  lemma StartBufferOk<T>(g: Ring<T>, r: nat, me: Rank<T>)
    requires g.Valid() && r < g.size && me.call < |g.calls| && me.at == START && me.work == g.calls[me.call].input[r]
    ensures BufferOk(g, r, me)
  {
    hide Shape.Pieces;
    forall i | 0 <= i < |me.work|
      ensures g.Expected(r, me.call, START, i) == me.work[i] && !g.Lent(r, me.call, START, i)
    {
      g.StartValue(r, me.call, i);
    }
  }

  /** Nothing is outstanding at the end of a call. */
  lemma FinishedWindows<T>(g: Ring<T>, r: nat, me: Rank<T>)
    requires g.Valid() && r < g.size && me.call < |g.calls|
    requires g.LocalOf(r, me.call).CursorOk(me.at) && g.LocalOf(r, me.call).Finished(me.at)
    ensures Receives(g, r, me).posted == Receives(g, r, me).waited && Sends(g, r, me).posted == Sends(g, r, me).waited
  {
    g.LocalOf(r, me.call).OutstandingBound(me.at, me.at.step);
  }

  lemma StartWindows<T>(g: Ring<T>, r: nat, me: Rank<T>)
    requires g.Valid() && r < g.size && me.at == START
    ensures Receives(g, r, me).posted == Receives(g, r, me).waited && Sends(g, r, me).posted == Sends(g, r, me).waited
  {}

  lemma ReturnRankOk<T>(g: Ring<T>, s: State<T>, r: nat)
    requires g.Valid() && Running(g, s, r) && Me(g, s, r).Finished(s.ranks[r].at) && RankOk(g, r, s.ranks[r])
    ensures RankOk(g, r, Return(g, s, r).ranks[r])
  {
    var me, me' := s.ranks[r], Return(g, s, r).ranks[r];
    FinishedResult(g, r, me);
    FinishedWindows(g, r, me);
    hide ResultsOk, BufferOk, Receives, Sends;
    StartWindows(g, r, me');
    if me'.call < |g.calls| { StartBufferOk(g, r, me'); }
  }

  lemma ReturnSilent<T>(g: Ring<T>, s: State<T>, r: nat)
    requires g.Valid() && Running(g, s, r) && Me(g, s, r).Finished(s.ranks[r].at)
    ensures SilentMove(g, r, s.ranks[r], Return(g, s, r).ranks[r])
  {
    var me, loc := s.ranks[r], Me(g, s, r);
    loc.OutstandingBound(me.at, me.at.step);
  }

  lemma ReturnInv<T>(g: Ring<T>, s: State<T>, r: nat)
    requires g.Valid() && Inv(g, s) && Running(g, s, r) && Me(g, s, r).Finished(s.ranks[r].at)
    ensures Inv(g, Return(g, s, r))
  {
    InvAt(g, s, r);
    ReturnRankOk(g, s, r);
    ReturnSilent(g, s, r);
    hide Inv, RankOk, LinkOk, SilentMove;
    ReplaceRank(g, s, r, Return(g, s, r).ranks[r]);
  }

  // --- frames -----------------------------------------------------------------

  /** The rank's posts and waits of receives, and what the transport may write. */
  ghost predicate SameReceives<T>(g: Ring<T>, r: nat, me: Rank<T>, me': Rank<T>)
    requires g.Valid() && r < g.size
  {
    && (forall c: nat, s: nat :: c < |g.calls| ==>
          && WaitedAt(g, r, me'.call, me'.at, c, s) == WaitedAt(g, r, me.call, me.at, c, s)
          && RequestedAt(g, r, me'.call, me'.at, c, s) == RequestedAt(g, r, me.call, me.at, c, s))
    && Receives(g, r, me') == Receives(g, r, me)
    && me'.work == me.work && me'.temp == me.temp && me'.received == me.received
  }

  /** The rank's posts and waits of sends. */
  ghost predicate SameSends<T>(g: Ring<T>, q: nat, me: Rank<T>, me': Rank<T>)
    requires g.Valid() && q < g.size
  {
    && (forall c: nat, s: nat :: c < |g.calls| ==>
          SentAt(g, q, me'.call, me'.at, c, s) == SentAt(g, q, me.call, me.at, c, s))
    && Sends(g, q, me') == Sends(g, q, me) && me'.sent == me.sent
  }

  lemma ReceiverFrame<T>(g: Ring<T>, q: nat, sender: Rank<T>, me: Rank<T>, me': Rank<T>, link: Link<T>)
    requires g.Valid() && q < g.size && LinkOk(g, q, sender, me, link) && SameReceives(g, Next(g.size, q), me, me')
    ensures LinkOk(g, q, sender, me', link)
  {
    assert OrderOk(g, q, sender, me');
    hide OrderOk, QueuesOk, FlightsOk, LandedOk, SourcesOk, WaitedAt, RequestedAt, SentAt, Receives, Sends, Offered;
  }

  lemma SenderFrame<T>(g: Ring<T>, q: nat, sender: Rank<T>, sender': Rank<T>, me: Rank<T>, link: Link<T>)
    requires g.Valid() && q < g.size && LinkOk(g, q, sender, me, link) && SameSends(g, q, sender, sender')
    ensures LinkOk(g, q, sender', me, link)
  {
    assert OrderOk(g, q, sender', me);
    var w := Receives(g, Next(g.size, q), me);
    assert Offered(g, q, sender', w) == Offered(g, q, sender, w);
    hide OrderOk, QueuesOk, FlightsOk, LandedOk, SourcesOk, SentAt, Receives, Sends, Offered;
  }

  /** The part of the invariant that concerns rank `r`. */
  lemma InvAt<T>(g: Ring<T>, s: State<T>, r: nat)
    requires g.Valid() && Inv(g, s) && r < g.size
    ensures |s.ranks| == |s.links| == g.size && RankOk(g, r, s.ranks[r])
    ensures Next(g.size, Prev(g.size, r)) == r
    ensures LinkOk(g, Prev(g.size, r), s.ranks[Prev(g.size, r)], s.ranks[r], s.links[r])
    ensures LinkOk(g, r, s.ranks[r], s.ranks[Next(g.size, r)], s.links[Next(g.size, r)])
    ensures g.size > 1 ==> Prev(g.size, r) != r && Next(g.size, r) != r
  {
    hide LinkOk, RankOk;
    RotationsAgree(g.size, r, 0);
    assert LinkOk(g, Prev(g.size, r), s.ranks[Prev(g.size, r)], s.ranks[Next(g.size, Prev(g.size, r))],
                  s.links[Next(g.size, Prev(g.size, r))]);
  }

  /** A step that changes rank `r` and the two links it is on. */
  lemma Assemble<T>(g: Ring<T>, s: State<T>, s': State<T>, r: nat)
    requires g.Valid() && Inv(g, s) && r < g.size && |s'.ranks| == |s'.links| == g.size
    requires forall x :: 0 <= x < g.size && x != r ==> s'.ranks[x] == s.ranks[x]
    requires forall x :: 0 <= x < g.size && x != r && x != Next(g.size, r) ==> s'.links[x] == s.links[x]
    requires RankOk(g, r, s'.ranks[r])
    requires LinkOk(g, Prev(g.size, r), s'.ranks[Prev(g.size, r)], s'.ranks[r], s'.links[r])
    requires LinkOk(g, r, s'.ranks[r], s'.ranks[Next(g.size, r)], s'.links[Next(g.size, r)])
    ensures Inv(g, s')
  {
    hide LinkOk, RankOk;
    RotationsAgree(g.size, r, 0);
    forall q | 0 <= q < g.size
      ensures LinkOk(g, q, s'.ranks[q], s'.ranks[Next(g.size, q)], s'.links[Next(g.size, q)])
    {
      if Next(g.size, q) == r { assert q == Prev(g.size, r); }
    }
  }

  /** How a transport call changes the counts of the rank. */
  lemma CallCounts<T>(g: Ring<T>, r: nat, me: Rank<T>, stage: Stage, me': Rank<T>, c: nat, t: nat)
    requires g.Valid() && Calls(g, r, me, stage, me') && c < |g.calls|
    ensures var one := if c == me.call && t == me.at.step then 1 else 0;
            && RequestedAt(g, r, me.call, me'.at, c, t)
               == RequestedAt(g, r, me.call, me.at, c, t) + (if stage == PostReceives then one else 0)
            && WaitedAt(g, r, me.call, me'.at, c, t)
               == WaitedAt(g, r, me.call, me.at, c, t) + (if stage == WaitReceives then one else 0)
            && SentAt(g, r, me.call, me'.at, c, t)
               == SentAt(g, r, me.call, me.at, c, t) + (if stage == PostSends then one else 0)
            && SendWaitedAt(g, r, me.call, me'.at, c, t)
               == SendWaitedAt(g, r, me.call, me.at, c, t) + (if stage == WaitSends then one else 0)
    ensures me'.at.step == me.at.step
  {
    g.LocalOf(r, me.call).ActingAdvance(me.at, t);
  }

  /** ... and the windows of its step. */
  lemma CallWindows<T>(g: Ring<T>, r: nat, me: Rank<T>, stage: Stage, me': Rank<T>)
    requires g.Valid() && Calls(g, r, me, stage, me')
    ensures Receives(g, r, me') == Receives(g, r, me).(
              posted := Receives(g, r, me).posted + if stage == PostReceives then 1 else 0,
              waited := Receives(g, r, me).waited + if stage == WaitReceives then 1 else 0)
    ensures Sends(g, r, me') == Sends(g, r, me).(
              posted := Sends(g, r, me).posted + if stage == PostSends then 1 else 0,
              waited := Sends(g, r, me).waited + if stage == WaitSends then 1 else 0)
  {
    CallCounts(g, r, me, stage, me', me.call, me.at.step);
    hide WaitedAt, RequestedAt, SentAt, SendWaitedAt;
  }

  /** The piece of the call, seen in the windows. A rank that posts has less
    than a batch outstanding in that direction. */
  lemma CallPiece<T>(g: Ring<T>, r: nat, me: Rank<T>, stage: Stage, me': Rank<T>)
    requires g.Valid() && Calls(g, r, me, stage, me')
    ensures var w, out, id := Receives(g, r, me), Sends(g, r, me), Id(me.call, me.at.step, me.at.piece);
            && w.call == out.call == me.call && w.step == out.step == me.at.step
            && w.waited <= w.posted && out.waited <= out.posted
            && (stage == PostReceives ==>
                  id == IdAt(w, w.posted) && g.IdOk(r, id)
                  && w.posted - w.waited < Min(g.capacities[r], g.LocalOf(r, me.call).RecvPieces(me.at.step)))
            && (stage == PostSends ==>
                  id == IdAt(out, out.posted) && g.IdOk(Next(g.size, r), id)
                  && out.posted - out.waited < Min(g.capacities[r], g.LocalOf(r, me.call).SendPieces(me.at.step)))
            && (stage == WaitReceives ==> id == IdAt(w, w.waited) && g.IdOk(r, id) && w.waited < w.posted)
            && (stage == WaitSends ==> id == IdAt(out, out.waited) && out.waited < out.posted)
    ensures g.size > 1
  {
    var loc := g.LocalOf(r, me.call);
    loc.ActingAdvance(me.at, me.at.step);
    loc.OutstandingBound(me.at, me.at.step);
    loc.OutstandingBound(me'.at, me.at.step);
    g.SameLink(r, me.call, me.at.step);
    hide Local.RecvPosted, Local.RecvWaited, Local.SendPosted, Local.SendWaited, Shape.Pieces;
  }

  /** Calls that concern the other direction. */
  lemma CallFrames<T>(g: Ring<T>, r: nat, me: Rank<T>, stage: Stage, me': Rank<T>)
    requires g.Valid() && Calls(g, r, me, stage, me')
    ensures stage.PostSends? || stage.WaitSends? ==>
              me'.work == me.work && me'.temp == me.temp && me'.received == me.received ==>
              SameReceives(g, r, me, me')
    ensures stage.PostReceives? || stage.WaitReceives? ==> me'.sent == me.sent ==> SameSends(g, r, me, me')
  {
    CallWindows(g, r, me, stage, me');
    forall c: nat, t: nat | c < |g.calls|
      ensures stage.PostSends? || stage.WaitSends? ==>
                && WaitedAt(g, r, me'.call, me'.at, c, t) == WaitedAt(g, r, me.call, me.at, c, t)
                && RequestedAt(g, r, me'.call, me'.at, c, t) == RequestedAt(g, r, me.call, me.at, c, t)
      ensures stage.PostReceives? || stage.WaitReceives? ==>
                SentAt(g, r, me'.call, me'.at, c, t) == SentAt(g, r, me.call, me.at, c, t)
    {
      CallCounts(g, r, me, stage, me', c, t);
    }
    hide WaitedAt, RequestedAt, SentAt, SendWaitedAt, Receives, Sends;
  }

  /** A call that succeeds, given its effect on the buffer. */
  lemma CallRankOk<T>(g: Ring<T>, r: nat, me: Rank<T>, stage: Stage, me': Rank<T>)
    requires g.Valid() && Calls(g, r, me, stage, me') && RankOk(g, r, me) && BufferOk(g, r, me')
    requires me'.receiving == me.receiving + if stage == PostReceives then 1 else if stage == WaitReceives then -1 else 0
    requires me'.sending == me.sending + if stage == PostSends then 1 else if stage == WaitSends then -1 else 0
    ensures RankOk(g, r, me')
  {
    CallWindows(g, r, me, stage, me');
    hide Receives, Sends, BufferOk, ResultsOk, Local.Advance, Local.Acting;
  }

  /** A call that waits for no receive keeps everything about the rank. */
  lemma CalledRank<T>(g: Ring<T>, r: nat, me: Rank<T>, stage: Stage, me': Rank<T>)
    requires g.Valid() && Calls(g, r, me, stage, me') && RankOk(g, r, me) && stage != WaitReceives && me'.work == me.work
    requires me'.receiving == me.receiving + if stage == PostReceives then 1 else 0
    requires me'.sending == me.sending + if stage == PostSends then 1 else if stage == WaitSends then -1 else 0
    ensures RankOk(g, r, me')
  {
    assert BufferOk(g, r, me') by {
      hide ResultsOk, Receives, Sends;
      AdvanceBufferOk(g, r, me, me');
    }
    hide RankOk, BufferOk;
    CallRankOk(g, r, me, stage, me');
  }

  // --- posting a receive --------------------------------------------------------

  lemma PostedReceiveQueues<T>(g: Ring<T>, r: nat, w: Window, offered: nat, link: Link<T>)
    requires g.Valid() && r < g.size && QueuesOk(g, r, w, offered, link) && Named(g, r, IdAt(w, w.posted))
    ensures var (request, descriptor) := ReceiveFor(g, r, IdAt(w, w.posted));
            QueuesOk(g, r, w.(posted := w.posted + 1), offered,
                     link.(receives := link.receives + [request], descriptors := link.descriptors + [descriptor]))
  {
    hide Named, ReceiveFor, SendsFrom, ReceivesFrom, DescriptorsFrom;
    assert w.waited >= 0;
    var (request, descriptor) := ReceiveFor(g, r, IdAt(w, w.posted));
    MoreReceives(g, r, w.call, w.step, Matched(w, link), link.receives, request);
    MoreDescriptors(g, r, w.call, w.step, offered, link.descriptors, descriptor);
  }

  /** Flights and landings depend on the window through what is active. */
  lemma FlightsFrame<T>(g: Ring<T>, r: nat, w: Window, w': Window, work: seq<T>, temp: map<nat, T>,
                        received: map<Id, bool>, link: Link<T>, link': Link<T>)
    requires g.Valid() && r < g.size
    requires FlightsOk(g, r, w, received, link) && LandedOk(g, r, w, work, temp, link)
    requires w'.call == w.call && w'.step == w.step && w'.waited == w.waited && Matched(w', link') == Matched(w, link)
    requires link'.flights == link.flights && link'.unread == link.unread && link'.wire == link.wire
    ensures FlightsOk(g, r, w', received, link') && LandedOk(g, r, w', work, temp, link')
  {
    hide Ring.IdOk, FlightFor, Value, Target;
    assert forall id :: Active(g, r, w', link', id) <==> Active(g, r, w, link, id);
    hide Active, Matched;
  }

  lemma PostedReceiveTraffic<T>(g: Ring<T>, r: nat, w: Window, offered: nat, me: Rank<T>, me': Rank<T>, out: Window,
                                sent: set<Id>, link: Link<T>)
    requires g.Valid() && r < g.size && TrafficOk(g, r, w, offered, me, out, sent, link)
    requires me'.work == me.work && me'.temp == me.temp && me'.received == me.received
    requires Named(g, r, IdAt(w, w.posted))
    ensures var (request, descriptor) := ReceiveFor(g, r, IdAt(w, w.posted));
            TrafficOk(g, r, w.(posted := w.posted + 1), offered, me', out, sent,
                      link.(receives := link.receives + [request], descriptors := link.descriptors + [descriptor]))
  {
    var (request, descriptor) := ReceiveFor(g, r, IdAt(w, w.posted));
    var link' := link.(receives := link.receives + [request], descriptors := link.descriptors + [descriptor]);
    hide QueuesOk, FlightsOk, LandedOk, ReceiveFor, Named;
    PostedReceiveQueues(g, r, w, offered, link);
    FlightsFrame(g, r, w, w.(posted := w.posted + 1), me.work, me.temp, me.received, link, link');
  }

  ghost function AfterPostReceive<T>(g: Ring<T>, s: State<T>, r: nat): Rank<T>
    requires g.Valid() && Acting(g, s, r, PostReceives)
  {
    s.ranks[r].(at := Me(g, s, r).Advance(s.ranks[r].at), receiving := s.ranks[r].receiving + 1)
  }

  /** The post succeeds: the tag is in range and the queue pair has room. */
  lemma PostReceiveState<T>(g: Ring<T>, s: State<T>, r: nat)
    requires g.Valid() && g.TagsFit() && FitsDevice(g) && Acting(g, s, r, PostReceives) && RankOk(g, r, s.ranks[r])
    ensures Named(g, r, Due(g, s, r))
    ensures var link, (request, descriptor) := s.links[r], ReceiveFor(g, r, Due(g, s, r));
            PostReceive(g, s, r) == State(
              s.ranks[r := AfterPostReceive(g, s, r)],
              s.links[r := link.(receives := link.receives + [request],
                                 descriptors := link.descriptors + [descriptor])])
  {
    CallPiece(g, r, s.ranks[r], PostReceives, AfterPostReceive(g, s, r));
    g.TagInRange(r, Due(g, s, r));
    g.BytesInRange(r, Due(g, s, r));
    hide Ring.TagsFit, Ring.BytesFit, Receives, Sends, BufferOk, ResultsOk, Ring.TagOf, Ring.IdOk, Local.Advance, Local.CursorOk;
  }

  lemma PostedReceiveLink<T>(g: Ring<T>, q: nat, r: nat, sender: Rank<T>, me: Rank<T>, me': Rank<T>, link: Link<T>, id: Id)
    requires g.Valid() && q < g.size && r == Next(g.size, q) && LinkOk(g, q, sender, me, link)
    requires Calls(g, r, me, PostReceives, me') && me'.work == me.work && me'.temp == me.temp && me'.received == me.received
    requires id == Id(me.call, me.at.step, me.at.piece) && Named(g, r, id)
    ensures LinkOk(g, q, sender, me', link.(receives := link.receives + [ReceiveFor(g, r, id).0],
                                            descriptors := link.descriptors + [ReceiveFor(g, r, id).1]))
  {
    var w, offered := Receives(g, r, me), Offered(g, q, sender, Receives(g, r, me));
    assert TrafficOk(g, r, w, offered, me, Sends(g, q, sender), sender.sent, link);
    OrderAfterReceive(g, q, sender, me, me', link);
    CallWindows(g, r, me, PostReceives, me');
    assert Offered(g, q, sender, Receives(g, r, me')) == offered;
    hide OrderOk, TrafficOk, Receives, Sends, Offered, ReceiveFor, Named, Calls;
    CallPiece(g, r, me, PostReceives, me');
    PostedReceiveTraffic(g, r, w, offered, me, me', Sends(g, q, sender), sender.sent, link);
  }

  lemma PostReceiveInv<T>(g: Ring<T>, s: State<T>, r: nat)
    requires g.Valid() && g.TagsFit() && FitsDevice(g) && Inv(g, s) && Acting(g, s, r, PostReceives)
    ensures Inv(g, PostReceive(g, s, r))
  {
    hide Inv, RankOk, LinkOk, SameSends, PostReceive, ReceiveFor, Named;
    InvAt(g, s, r);
    var me, me', q, n := s.ranks[r], AfterPostReceive(g, s, r), Prev(g.size, r), Next(g.size, r);
    assert Calls(g, r, me, PostReceives, me');
    PostReceiveState(g, s, r);
    hide Calls;
    CalledRank(g, r, me, PostReceives, me');
    CallPiece(g, r, me, PostReceives, me');
    CallFrames(g, r, me, PostReceives, me');
    PostedReceiveLink(g, q, r, s.ranks[q], me, me', s.links[r], Due(g, s, r));
    SenderFrame(g, r, me, me', s.ranks[n], s.links[n]);
    hide AfterPostReceive;
    Assemble(g, s, PostReceive(g, s, r), r);
  }

  lemma OrderAfterReceive<T>(g: Ring<T>, q: nat, sender: Rank<T>, me: Rank<T>, me': Rank<T>, link: Link<T>)
    requires g.Valid() && q < g.size && LinkOk(g, q, sender, me, link)
    requires Calls(g, Next(g.size, q), me, PostReceives, me')
    ensures OrderOk(g, q, sender, me')
  {
    hide QueuesOk, FlightsOk, LandedOk, SourcesOk;
    forall c: nat, t: nat | c < |g.calls|
      ensures WaitedAt(g, Next(g.size, q), me'.call, me'.at, c, t) <= SentAt(g, q, sender.call, sender.at, c, t)
              <= RequestedAt(g, Next(g.size, q), me'.call, me'.at, c, t)
    {
      CallCounts(g, Next(g.size, q), me, PostReceives, me', c, t);
    }
  }

  // --- posting a send -------------------------------------------------------------

  /** FIFO alignment: the next descriptor is the one of the piece to be sent,
    so the sender finds tag, length and mode as it expects them. */
  lemma DescriptorIsDue<T>(g: Ring<T>, q: nat, sender: Rank<T>, me: Rank<T>, link: Link<T>)
    requires g.Valid() && q < g.size && LinkOk(g, q, sender, me, link) && link.descriptors != []
    requires sender.call < |g.calls| && me.call <= |g.calls|
    requires var c, t := sender.call, sender.at.step;
             SentAt(g, q, c, sender.at, c, t) < g.LocalOf(q, c).SendPieces(t)
    ensures var r := Next(g.size, q);
            var w := Receives(g, r, me);
            && w.call == sender.call && w.step == sender.at.step
            && Offered(g, q, sender, w) == Sends(g, q, sender).posted < w.posted
            && Named(g, r, IdAt(w, Offered(g, q, sender, w)))
            && link.descriptors[0] == ReceiveFor(g, r, IdAt(w, Offered(g, q, sender, w))).1
  {
    SameStep(g, q, sender, me, link);
    var r := Next(g.size, q);
    var w := Receives(g, r, me);
    hide WaitedAt, RequestedAt, SentAt, OrderOk, FlightsOk, LandedOk, SourcesOk;
    assert w.call == sender.call && w.step == sender.at.step;
    assert Offered(g, q, sender, w) == Sends(g, q, sender).posted;
    hide Receives, Sends, Offered, Named, ReceiveFor;
    MoreDescriptors(g, r, w.call, w.step, Offered(g, q, sender, w), link.descriptors, link.descriptors[0]);
  }

  /** A sender that finds a descriptor is in the same step as its receiver. */
  lemma SameStep<T>(g: Ring<T>, q: nat, sender: Rank<T>, me: Rank<T>, link: Link<T>)
    requires g.Valid() && q < g.size && LinkOk(g, q, sender, me, link) && link.descriptors != []
    requires sender.call < |g.calls| && me.call <= |g.calls|
    requires var c, t := sender.call, sender.at.step;
             SentAt(g, q, c, sender.at, c, t) < g.LocalOf(q, c).SendPieces(t)
    ensures sender.call == me.call && sender.at.step == me.at.step
  {
    var r, c, t := Next(g.size, q), sender.call, sender.at.step;
    hide FlightsOk, LandedOk, SourcesOk;
    g.SameLink(q, c, t);
    assert WaitedAt(g, r, me.call, me.at, c, t) <= SentAt(g, q, c, sender.at, c, t);
    var w := Receives(g, r, me);
    assert w.posted > Offered(g, q, sender, w);
    hide OrderOk, QueuesOk, Shape.Pieces;
    if me.call < c || (me.call == c && me.at.step < t) {
      g.SameLink(q, me.call, me.at.step);
    }
  }

  lemma PostedSendQueues<T>(g: Ring<T>, r: nat, w: Window, offered: nat, link: Link<T>)
    requires g.Valid() && r < g.size && QueuesOk(g, r, w, offered, link)
    requires link.descriptors != [] && Named(g, r, IdAt(w, offered))
    ensures QueuesOk(g, r, w, offered + 1,
                     link.(descriptors := link.descriptors[1..],
                           sends := link.sends + [SendFor(g, r, IdAt(w, offered))],
                           unacked := link.unacked + {IdAt(w, offered)}))
  {
    hide Named, SendFor, SendsFrom, ReceivesFrom, DescriptorsFrom;
    assert w.waited >= 0;
    MoreSends(g, r, w.call, w.step, Matched(w, link), link.sends, SendFor(g, r, IdAt(w, offered)));
    MoreDescriptors(g, r, w.call, w.step, offered, link.descriptors, link.descriptors[0]);
  }

  lemma PostedSendSources<T>(w: Window, sent: set<Id>, link: Link<T>, send: SendRequest)
    requires SourcesOk(w, sent, link) && send.id == IdAt(w, w.posted) && w.waited <= w.posted
    requires link.descriptors != []
    ensures SourcesOk(w.(posted := w.posted + 1), sent,
                      link.(descriptors := link.descriptors[1..], sends := link.sends + [send],
                            unacked := link.unacked + {send.id}))
  {
    var w' := w.(posted := w.posted + 1);
    assert forall id :: Outgoing(w', id) <==> Outgoing(w, id) || id == send.id;
  }

  lemma PostedSendTraffic<T>(g: Ring<T>, r: nat, w: Window, offered: nat, me: Rank<T>, out: Window, sent: set<Id>,
                             link: Link<T>)
    requires g.Valid() && r < g.size && TrafficOk(g, r, w, offered, me, out, sent, link)
    requires link.descriptors != [] && out.waited <= out.posted
    requires Named(g, r, IdAt(w, offered)) && IdAt(w, offered) == IdAt(out, out.posted)
    ensures var id := IdAt(w, offered);
            TrafficOk(g, r, w, offered + 1, me, out.(posted := out.posted + 1), sent,
                      link.(descriptors := link.descriptors[1..], sends := link.sends + [SendFor(g, r, id)],
                            unacked := link.unacked + {id}))
  {
    var id := IdAt(w, offered);
    var link' := link.(descriptors := link.descriptors[1..], sends := link.sends + [SendFor(g, r, id)],
                       unacked := link.unacked + {id});
    assert SendFor(g, r, id).id == id;
    hide QueuesOk, FlightsOk, LandedOk, SourcesOk, SendFor, Named;
    PostedSendQueues(g, r, w, offered, link);
    FlightsFrame(g, r, w, w, me.work, me.temp, me.received, link, link');
    PostedSendSources(out, sent, link, SendFor(g, r, id));
  }

  ghost function AfterPostSend<T>(g: Ring<T>, s: State<T>, r: nat): Rank<T>
    requires g.Valid() && Acting(g, s, r, PostSends)
  {
    s.ranks[r].(at := Me(g, s, r).Advance(s.ranks[r].at), sending := s.ranks[r].sending + 1)
  }

  lemma SendNotTooLarge<T>(g: Ring<T>, s: State<T>, r: nat)
    requires g.Valid() && FitsDevice(g) && Acting(g, s, r, PostSends)
    ensures var me := s.ranks[r]; !TooLarge(g, me.call, Me(g, s, r).SendLength(me.at.step, me.at.piece))
  {
    CallPiece(g, r, s.ranks[r], PostSends, AfterPostSend(g, s, r));
    g.BytesInRange(Next(g.size, r), Due(g, s, r));
    g.SameLink(r, s.ranks[r].call, s.ranks[r].at.step);
    hide Ring.BytesFit, FitsQueuePairs, Ring.TagOf, Receives, Sends, Local.SendFirst, Local.RecvFirst;
  }

  /** A tag in range and a short piece leave the send to wait for its descriptor. */
  lemma DescriptorCame<T>(g: Ring<T>, s: State<T>, r: nat)
    requires g.Valid() && g.TagsFit() && FitsDevice(g) && Acting(g, s, r, PostSends) && SendReady(g, s, r)
    ensures s.links[Next(g.size, r)].descriptors != []
  {
    CallPiece(g, r, s.ranks[r], PostSends, AfterPostSend(g, s, r));
    SendNotTooLarge(g, s, r);
    hide Ring.TagOf, Receives, Sends, FitsDevice, TooLarge;
    g.TagInRange(Next(g.size, r), Due(g, s, r));
  }

  lemma PostSendDue<T>(g: Ring<T>, s: State<T>, r: nat)
    requires g.Valid() && Inv(g, s) && Acting(g, s, r, PostSends)
    requires s.links[Next(g.size, r)].descriptors != []
    ensures var me, n := s.ranks[r], Next(g.size, r);
            var w, d := Receives(g, n, s.ranks[n]), s.links[n].descriptors[0];
            && w.call == me.call && w.step == me.at.step && Named(g, n, Due(g, s, r))
            && Due(g, s, r) == IdAt(w, Offered(g, r, me, w)) && Offered(g, r, me, w) == Sends(g, r, me).posted < w.posted
            && d == ReceiveFor(g, n, Due(g, s, r)).1
  {
    hide Inv, LinkOk, RankOk, Receives, Sends, Offered, Ring.TagOf, Ring.IdOk, Shape.Pieces, Named, ReceiveFor, SentAt,
         Local.Advance, Local.CursorOk;
    var me, n := s.ranks[r], Next(g.size, r);
    InvAt(g, s, r);
    InvAt(g, s, n);
    CallWithin(g, n, s.ranks[n]);
    SendStillDue(g, s, r);
    CallPiece(g, r, me, PostSends, AfterPostSend(g, s, r));
    DescriptorIsDue(g, r, me, s.ranks[n], s.links[n]);
  }

  lemma CallWithin<T>(g: Ring<T>, r: nat, me: Rank<T>)
    requires g.Valid() && r < g.size && RankOk(g, r, me)
    ensures me.call <= |g.calls|
  {
    hide BufferOk, ResultsOk, Receives, Sends;
  }

  lemma SendStillDue<T>(g: Ring<T>, s: State<T>, r: nat)
    requires g.Valid() && Acting(g, s, r, PostSends)
    ensures var me := s.ranks[r];
            && SentAt(g, r, me.call, me.at, me.call, me.at.step) < g.LocalOf(r, me.call).SendPieces(me.at.step)
            && AfterPostSend(g, s, r).call == me.call
            && Calls(g, r, me, PostSends, AfterPostSend(g, s, r))
  {
    Me(g, s, r).ActingAdvance(s.ranks[r].at, s.ranks[r].at.step);
    hide Shape.Pieces;
  }

  /** Sender and receiver work out the same request for a piece. */
  lemma SendMatchesDescriptor<T>(g: Ring<T>, q: nat, id: Id)
    requires g.Valid() && q < g.size && Named(g, Next(g.size, q), id)
    ensures var loc, r := g.LocalOf(q, id.call), Next(g.size, q);
            var d := ReceiveFor(g, r, id).1;
            && id.piece < loc.SendPieces(id.step)
            && var size := loc.SendLength(id.step, id.piece);
               && d.tag == g.TagOf(id).tag && d.region.size == size && d.mode == ModeOf(g, id.call, size)
               && SendFor(g, r, id)
                  == SendRequest(id, d.tag, d.mode, loc.SendFirst(id.step, id.piece), size, d.region)
  {
    g.SameLink(q, id.call, id.step);
    hide Ring.TagOf, Local.RecvFirst, Local.SendFirst;
  }

  lemma PostSendState<T>(g: Ring<T>, s: State<T>, r: nat)
    requires g.Valid() && FitsDevice(g) && Inv(g, s) && Acting(g, s, r, PostSends)
    requires s.links[Next(g.size, r)].descriptors != []
    ensures var n, link := Next(g.size, r), s.links[Next(g.size, r)];
            && Named(g, n, Due(g, s, r))
            && PostSend(g, s, r) == State(
                 s.ranks[r := AfterPostSend(g, s, r)],
                 s.links[n := link.(descriptors := link.descriptors[1..],
                                    sends := link.sends + [SendFor(g, n, Due(g, s, r))],
                                    unacked := link.unacked + {Due(g, s, r)})])
  {
    var me := s.ranks[r];
    PostSendDue(g, s, r);
    SendNotTooLarge(g, s, r);
    SendMatchesDescriptor(g, r, Due(g, s, r));
    assert me.sending < QUEUE_PAIR_DEPTH by {
      CallPiece(g, r, me, PostSends, AfterPostSend(g, s, r));
      InvAt(g, s, r);
      hide Inv, LinkOk, Receives, Sends, BufferOk;
    }
    hide Inv, RankOk, Receives, Sends, Offered, ReceiveFor, SendFor, Ring.TagOf, Ring.IdOk, FitsDevice, TooLarge;
  }

  lemma PostedSendLink<T>(g: Ring<T>, q: nat, r: nat, sender: Rank<T>, sender': Rank<T>, me: Rank<T>, link: Link<T>,
                          w: Window, id: Id)
    requires g.Valid() && q < g.size && r == Next(g.size, q) && LinkOk(g, q, sender, me, link) && w == Receives(g, r, me)
    requires Calls(g, q, sender, PostSends, sender') && sender'.sent == sender.sent && link.descriptors != []
    requires id == Id(sender.call, sender.at.step, sender.at.piece) && Named(g, r, id)
    requires w.call == sender.call && w.step == sender.at.step && id.piece == Offered(g, q, sender, w) < w.posted
    ensures LinkOk(g, q, sender', me, link.(descriptors := link.descriptors[1..], sends := link.sends + [SendFor(g, r, id)],
                                            unacked := link.unacked + {id}))
  {
    hide QueuesOk, FlightsOk, LandedOk, SourcesOk, OrderOk, Receives, Sends, Offered, SendFor, Named, TrafficOk,
         Local.Advance, Local.Acting, Local.CursorOk, Local.Finished;
    var offered := Offered(g, q, sender, w);
    assert TrafficOk(g, r, w, offered, me, Sends(g, q, sender), sender.sent, link);
    OrderAfterSend(g, q, sender, sender', me, link);
    CallWindows(g, q, sender, PostSends, sender');
    hide Calls;
    CallPiece(g, q, sender, PostSends, sender');
    PostedSendTraffic(g, r, w, offered, me, Sends(g, q, sender), sender.sent, link);
  }

  lemma PostSendInv<T>(g: Ring<T>, s: State<T>, r: nat)
    requires g.Valid() && FitsDevice(g) && Inv(g, s) && Acting(g, s, r, PostSends)
    requires s.links[Next(g.size, r)].descriptors != []
    ensures Inv(g, PostSend(g, s, r))
  {
    hide Inv, RankOk, LinkOk, SameReceives, PostSend, SendFor, ReceiveFor, Receives, Sends, Offered, Named;
    InvAt(g, s, r);
    var me, me', q, n := s.ranks[r], AfterPostSend(g, s, r), Prev(g.size, r), Next(g.size, r);
    assert Calls(g, r, me, PostSends, me');
    PostSendState(g, s, r);
    PostSendDue(g, s, r);
    hide Calls;
    CalledRank(g, r, me, PostSends, me');
    CallPiece(g, r, me, PostSends, me');
    CallFrames(g, r, me, PostSends, me');
    PostedSendLink(g, r, n, me, me', s.ranks[n], s.links[n], Receives(g, n, s.ranks[n]), Due(g, s, r));
    ReceiverFrame(g, q, s.ranks[q], me, me', s.links[r]);
    hide AfterPostSend;
    Assemble(g, s, PostSend(g, s, r), r);
  }

  lemma OrderAfterSend<T>(g: Ring<T>, q: nat, sender: Rank<T>, sender': Rank<T>, me: Rank<T>, link: Link<T>)
    requires g.Valid() && q < g.size && LinkOk(g, q, sender, me, link) && Calls(g, q, sender, PostSends, sender')
    requires var w := Receives(g, Next(g.size, q), me);
             w.call == sender.call && w.step == sender.at.step && Offered(g, q, sender, w) < w.posted
    ensures OrderOk(g, q, sender', me)
    ensures var w := Receives(g, Next(g.size, q), me); Offered(g, q, sender', w) == Offered(g, q, sender, w) + 1
  {
    hide QueuesOk, FlightsOk, LandedOk, SourcesOk;
    var r := Next(g.size, q);
    CallCounts(g, q, sender, PostSends, sender', sender.call, sender.at.step);
    assert SentAt(g, q, sender'.call, sender'.at, sender.call, sender.at.step)
           <= RequestedAt(g, r, me.call, me.at, sender.call, sender.at.step);
    forall c: nat, t: nat | c < |g.calls|
      ensures WaitedAt(g, r, me.call, me.at, c, t) <= SentAt(g, q, sender'.call, sender'.at, c, t)
              <= RequestedAt(g, r, me.call, me.at, c, t)
    {
      CallCounts(g, q, sender, PostSends, sender', c, t);
      hide SentAt, WaitedAt, RequestedAt;
    }
  }

  // --- waiting for a send ---------------------------------------------------------

  ghost function AfterWaitSend<T>(g: Ring<T>, s: State<T>, r: nat): Rank<T>
    requires g.Valid() && Acting(g, s, r, WaitSends) && s.ranks[r].sending > 0
  {
    s.ranks[r].(at := Me(g, s, r).Advance(s.ranks[r].at), sent := s.ranks[r].sent - {Due(g, s, r)},
                sending := s.ranks[r].sending - 1)
  }

  lemma WaitedSendSources<T>(w: Window, sent: set<Id>, link: Link<T>, id: Id)
    requires SourcesOk(w, sent, link) && id == IdAt(w, w.waited) && w.waited < w.posted && id in sent
    ensures SourcesOk(w.(waited := w.waited + 1), sent - {id}, link)
  {
    var w' := w.(waited := w.waited + 1);
    assert forall x :: Outgoing(w', x) <==> Outgoing(w, x) && x != id;
  }

  lemma WaitedSendLink<T>(g: Ring<T>, q: nat, sender: Rank<T>, sender': Rank<T>, me: Rank<T>, link: Link<T>, id: Id)
    requires g.Valid() && q < g.size && LinkOk(g, q, sender, me, link)
    requires Calls(g, q, sender, WaitSends, sender') && id in sender.sent && sender'.sent == sender.sent - {id}
    requires id == Id(sender.call, sender.at.step, sender.at.piece)
    ensures LinkOk(g, q, sender', me, link)
  {
    hide QueuesOk, FlightsOk, LandedOk, SourcesOk, Receives, Sends, Local.Advance, Local.Acting, Local.CursorOk,
         Local.Finished;
    OrderAfterWaitSend(g, q, sender, sender', me, link);
    hide OrderOk, Offered;
    CallWindows(g, q, sender, WaitSends, sender');
    CallPiece(g, q, sender, WaitSends, sender');
    hide Calls;
    WaitedSendSources(Sends(g, q, sender), sender.sent, link, id);
  }

  lemma OrderAfterWaitSend<T>(g: Ring<T>, q: nat, sender: Rank<T>, sender': Rank<T>, me: Rank<T>, link: Link<T>)
    requires g.Valid() && q < g.size && LinkOk(g, q, sender, me, link) && Calls(g, q, sender, WaitSends, sender')
    ensures OrderOk(g, q, sender', me)
    ensures var w := Receives(g, Next(g.size, q), me); Offered(g, q, sender', w) == Offered(g, q, sender, w)
  {
    hide TrafficOk, Receives, Local.Advance, Local.Acting, Local.CursorOk, Local.Finished, SentAt, WaitedAt, RequestedAt;
    forall c: nat, t: nat | c < |g.calls|
      ensures SentAt(g, q, sender'.call, sender'.at, c, t) == SentAt(g, q, sender.call, sender.at, c, t)
    {
      CallCounts(g, q, sender, WaitSends, sender', c, t);
    }
  }

  lemma WaitSendState<T>(g: Ring<T>, s: State<T>, r: nat)
    requires g.Valid() && Acting(g, s, r, WaitSends) && RankOk(g, r, s.ranks[r])
    ensures s.ranks[r].sending > 0 && WaitSend(g, s, r) == s.(ranks := s.ranks[r := AfterWaitSend(g, s, r)])
  {
    var me := s.ranks[r];
    hide BufferOk, ResultsOk, Receives, Sends;
    CallPiece(g, r, me, WaitSends, me.(at := Me(g, s, r).Advance(me.at)));
  }

  lemma WaitSendInv<T>(g: Ring<T>, s: State<T>, r: nat)
    requires g.Valid() && Inv(g, s) && Acting(g, s, r, WaitSends) && Due(g, s, r) in s.ranks[r].sent
    ensures Inv(g, WaitSend(g, s, r))
  {
    hide Inv, RankOk, LinkOk, SameReceives, WaitSend, Local.Advance;
    InvAt(g, s, r);
    WaitSendState(g, s, r);
    var me, me', q, n := s.ranks[r], AfterWaitSend(g, s, r), Prev(g.size, r), Next(g.size, r);
    assert Calls(g, r, me, WaitSends, me');
    hide Calls;
    CalledRank(g, r, me, WaitSends, me');
    CallPiece(g, r, me, WaitSends, me');
    CallFrames(g, r, me, WaitSends, me');
    WaitedSendLink(g, r, me, me', s.ranks[n], s.links[n], Due(g, s, r));
    ReceiverFrame(g, q, s.ranks[q], me, me', s.links[r]);
    hide AfterWaitSend;
    Assemble(g, s, WaitSend(g, s, r), r);
  }

  // --- waiting for a receive ------------------------------------------------------

  /** What a completed receive has left in the receiver's memory. */
  lemma ReportedLanded<T>(g: Ring<T>, r: nat, w: Window, offered: nat, me: Rank<T>, out: Window, sent: set<Id>, link: Link<T>,
                          id: Id)
    requires g.Valid() && r < g.size && TrafficOk(g, r, w, offered, me, out, sent, link) && id in me.received
    ensures Active(g, r, w, link, id) && me.received[id] && id !in link.flights
    ensures forall j: nat | j < g.LocalOf(r, id.call).RecvLength(id.step, id.piece) ::
              Holds(me.work, me.temp, Target(g.LocalOf(r, id.call), id.step, id.piece), j, Value(g, r, id, j))
  {
    hide QueuesOk, SourcesOk, Holds, Target, Value, FlightFor;
    assert Active(g, r, w, link, id);
    assert forall j: nat :: (id, j) !in link.unread && (id, j) !in link.wire;
    hide Active, Ring.IdOk;
  }

  ghost function AfterWaitReceive<T>(g: Ring<T>, s: State<T>, r: nat, work: seq<T>): Rank<T>
    requires g.Valid() && Acting(g, s, r, WaitReceives) && s.ranks[r].receiving > 0
  {
    s.ranks[r].(at := Me(g, s, r).Advance(s.ranks[r].at), received := s.ranks[r].received - {Due(g, s, r)}, work := work,
                receiving := s.ranks[r].receiving - 1)
  }

  /** `work` is `work0` with the piece made its step: combined with what it
    was to receive, or left to hold it. */
  ghost predicate PieceStepped<T>(g: Ring<T>, r: nat, id: Id, work0: seq<T>, work: seq<T>)
    requires g.Valid() && r < g.size && g.IdOk(r, id) && |work0| == g.calls[id.call].count
  {
    var loc := g.LocalOf(r, id.call);
    && |work| == |work0|
    && forall i :: 0 <= i < |work| ==>
         work[i] == if !(loc.RecvFirst(id.step, id.piece) <= i < loc.RecvFirst(id.step, id.piece) + loc.RecvLength(id.step, id.piece))
                    then work0[i]
                    else if loc.Gathering(id.step) then g.Sent(id.call, id.step, i)
                    else g.calls[id.call].op(work0[i], g.Sent(id.call, id.step, i))
  }

  lemma SteppedBufferOk<T>(g: Ring<T>, r: nat, me: Rank<T>, me': Rank<T>, id: Id)
    requires g.Valid() && Calls(g, r, me, WaitReceives, me') && BufferOk(g, r, me)
    requires id == Id(me.call, me.at.step, me.at.piece) && g.IdOk(r, id) && PieceStepped(g, r, id, me.work, me'.work)
    ensures BufferOk(g, r, me')
  {
    var loc := g.LocalOf(r, me.call);
    hide Local.Advance, Ring.Expected, Ring.Lent;
    forall i | 0 <= i < |me.work|
      ensures !g.Lent(r, me.call, me'.at, i) ==> me'.work[i] == g.Expected(r, me.call, me'.at, i)
    {
      loc.RegionsCover(me.at.step, me.at.piece, i);
      g.ReceiveValue(r, me.call, me.at, i);
      g.ReceiveLent(r, me.call, me.at, i);
    }
  }

  /** The temporary buffer holds what the piece was to receive. */
  lemma InTemporary<T>(g: Ring<T>, r: nat, temp: map<nat, T>, work: seq<T>, id: Id, j: nat)
    requires g.Valid() && r < g.size && g.IdOk(r, id) && !g.LocalOf(r, id.call).Gathering(id.step)
    requires j < g.LocalOf(r, id.call).RecvLength(id.step, id.piece)
    requires Holds(work, temp, Target(g.LocalOf(r, id.call), id.step, id.piece), j, Value(g, r, id, j))
    ensures var loc := g.LocalOf(r, id.call);
            var at := loc.shape.Start(id.piece) + j;
            at in temp && temp[at] == g.Sent(id.call, id.step, loc.RecvFirst(id.step, id.piece) + j)
  {
    hide Ring.Sent, Ring.IdOk, Local.RecvFirst;
  }

  lemma CombinedPiece<T>(g: Ring<T>, r: nat, work: seq<T>, id: Id, first: nat, data: seq<T>)
    requires g.Valid() && r < g.size && g.IdOk(r, id) && !g.LocalOf(r, id.call).Gathering(id.step)
    requires |work| == g.calls[id.call].count
    requires first == g.LocalOf(r, id.call).RecvFirst(id.step, id.piece)
    requires |data| == g.LocalOf(r, id.call).RecvLength(id.step, id.piece)
    requires forall i :: first <= i < first + |data| ==> data[i - first] == g.Sent(id.call, id.step, i)
    ensures PieceStepped(g, r, id, work, Combine(g.calls[id.call].op, work, first, data))
  {
    hide Ring.Sent, Ring.IdOk, Local.RecvFirst, Combine, Shape.Pieces;
  }

  lemma ReducedPiece<T>(g: Ring<T>, r: nat, temp: map<nat, T>, work: seq<T>, id: Id, lo: nat, size: nat, first: nat)
    requires g.Valid() && r < g.size && g.IdOk(r, id) && !g.LocalOf(r, id.call).Gathering(id.step)
    requires |work| == g.calls[id.call].count && first == g.LocalOf(r, id.call).RecvFirst(id.step, id.piece)
    requires lo == g.LocalOf(r, id.call).shape.Start(id.piece) && size == g.LocalOf(r, id.call).RecvLength(id.step, id.piece)
    requires forall j: nat | j < size ::
               Holds(work, temp, Target(g.LocalOf(r, id.call), id.step, id.piece), j, Value(g, r, id, j))
    ensures forall j :: lo <= j < lo + size ==> j in temp
    ensures PieceStepped(g, r, id, work, Combine(g.calls[id.call].op, work, first, Fetch(temp, lo, size)))
  {
    hide Ring.Sent, Target, Value, Holds, Local.RecvFirst, Fetch, Combine, Shape.Start, PieceStepped;
    forall j | lo <= j < lo + size
      ensures j in temp
    {
      InTemporary(g, r, temp, work, id, j - lo);
    }
    var data := Fetch(temp, lo, size);
    forall i | first <= i < first + |data|
      ensures data[i - first] == g.Sent(id.call, id.step, i)
    {
      InTemporary(g, r, temp, work, id, i - first);
    }
    CombinedPiece(g, r, work, id, first, data);
  }

  lemma StepPiece<T>(g: Ring<T>, s: State<T>, r: nat, link: Link<T>, id: Id, w: Window, offered: nat, out: Window, sent: set<Id>)
    requires g.Valid() && Acting(g, s, r, WaitReceives) && id == Due(g, s, r) && id in s.ranks[r].received
    requires TrafficOk(g, r, w, offered, s.ranks[r], out, sent, link) && s.ranks[r].receiving > 0
    ensures g.IdOk(r, id)
    ensures var work := WaitReceive(g, s, r).ranks[r].work;
            && PieceStepped(g, r, id, s.ranks[r].work, work)
            && (Me(g, s, r).Gathering(id.step) ==> work == s.ranks[r].work)
            && WaitReceive(g, s, r) == s.(ranks := s.ranks[r := AfterWaitReceive(g, s, r, work)])
  {
    var me := s.ranks[r];
    ReportedLanded(g, r, w, offered, me, out, sent, link, id);
    hide TrafficOk, Local.Advance, Local.CursorOk, Local.Acting, Local.Finished, Ring.Sent, Local.RecvFirst, PieceStepped,
         Target, Value, Holds, Fetch, Combine;
    if Me(g, s, r).Gathering(id.step) {
      GatheredPiece(g, r, me.temp, me.work, id);
    } else {
      ReducedPiece(g, r, me.temp, me.work, id, Me(g, s, r).shape.Start(id.piece), Me(g, s, r).RecvLength(id.step, id.piece),
                   Me(g, s, r).RecvFirst(id.step, id.piece));
    }
  }

  lemma ReceiveStillDue<T>(g: Ring<T>, s: State<T>, r: nat)
    requires g.Valid() && Acting(g, s, r, WaitReceives) && RankOk(g, r, s.ranks[r])
    ensures s.ranks[r].receiving > 0 && g.IdOk(r, Due(g, s, r))
  {
    var me := s.ranks[r];
    hide BufferOk, ResultsOk, Receives, Sends, Local.Advance;
    CallPiece(g, r, me, WaitReceives, me.(at := Me(g, s, r).Advance(me.at)));
  }

  lemma TrafficOf<T>(g: Ring<T>, q: nat, sender: Rank<T>, me: Rank<T>, link: Link<T>)
    requires g.Valid() && q < g.size && LinkOk(g, q, sender, me, link)
    ensures var r := Next(g.size, q);
            var w := Receives(g, r, me);
            TrafficOk(g, r, w, Offered(g, q, sender, w), me, Sends(g, q, sender), sender.sent, link)
  {
    hide TrafficOk, OrderOk, Receives, Sends, Offered;
  }

  /** A wait that returns: the piece makes its step, and is done with. */
  lemma WaitReceiveState<T>(g: Ring<T>, s: State<T>, r: nat)
    requires g.Valid() && Inv(g, s) && Acting(g, s, r, WaitReceives) && Due(g, s, r) in s.ranks[r].received
    ensures s.ranks[r].receiving > 0 && g.IdOk(r, Due(g, s, r))
    ensures var work := WaitReceive(g, s, r).ranks[r].work;
            && PieceStepped(g, r, Due(g, s, r), s.ranks[r].work, work)
            && (Me(g, s, r).Gathering(s.ranks[r].at.step) ==> work == s.ranks[r].work)
            && WaitReceive(g, s, r) == s.(ranks := s.ranks[r := AfterWaitReceive(g, s, r, work)])
  {
    hide Inv, LinkOk, RankOk, OrderOk, TrafficOk, Receives, Sends, WaitReceive, Offered, PieceStepped, AfterWaitReceive,
         Local.Advance;
    var me, q := s.ranks[r], Prev(g.size, r);
    InvAt(g, s, r);
    ReceiveStillDue(g, s, r);
    TrafficOf(g, q, s.ranks[q], me, s.links[r]);
    var w := Receives(g, r, me);
    StepPiece(g, s, r, s.links[r], Due(g, s, r), w, Offered(g, q, s.ranks[q], w), Sends(g, q, s.ranks[q]), s.ranks[q].sent);
  }

  lemma GatheredPiece<T>(g: Ring<T>, r: nat, temp: map<nat, T>, work: seq<T>, id: Id)
    requires g.Valid() && r < g.size && g.IdOk(r, id) && g.LocalOf(r, id.call).Gathering(id.step)
    requires |work| == g.calls[id.call].count
    requires forall j: nat | j < g.LocalOf(r, id.call).RecvLength(id.step, id.piece) ::
               Holds(work, temp, Target(g.LocalOf(r, id.call), id.step, id.piece), j, Value(g, r, id, j))
    ensures PieceStepped(g, r, id, work, work)
  {
    var loc := g.LocalOf(r, id.call);
    var lo, size := loc.RecvFirst(id.step, id.piece), loc.RecvLength(id.step, id.piece);
    var region := Target(loc, id.step, id.piece);
    assert !region.temporary && region.lo == lo;
    hide Ring.Sent, Target, Ring.IdOk;
    forall i | lo <= i < lo + size
      ensures work[i] == g.Sent(id.call, id.step, i)
    {
      assert Holds(work, temp, region, i - lo, Value(g, r, id, i - lo));
    }
  }

  lemma WaitedReceiveFlights<T>(g: Ring<T>, r: nat, w: Window, me: Rank<T>, me': Rank<T>, link: Link<T>, id: Id)
    requires g.Valid() && r < g.size && FlightsOk(g, r, w, me.received, link)
    requires LandedOk(g, r, w, me.work, me.temp, link)
    requires id == IdAt(w, w.waited) && id in me.received && me'.received == me.received - {id} && me'.temp == me.temp
    requires g.LocalOf(r, id.call).Gathering(id.step) ==> me'.work == me.work
    ensures FlightsOk(g, r, w.(waited := w.waited + 1), me'.received, link)
    ensures LandedOk(g, r, w.(waited := w.waited + 1), me'.work, me'.temp, link)
  {
    var w' := w.(waited := w.waited + 1);
    assert forall x :: Active(g, r, w', link, x) <==> Active(g, r, w, link, x) && x != id;
    forall x: Id, j: nat | Active(g, r, w', link, x) && j < g.LocalOf(r, x.call).RecvLength(x.step, x.piece)
      ensures (x, j) !in link.unread && (x, j) !in link.wire ==>
                Holds(me'.work, me'.temp, Target(g.LocalOf(r, x.call), x.step, x.piece), j, Value(g, r, x, j))
    {
      assert Active(g, r, w, link, x) && x.call == id.call && x.step == id.step;
      hide Ring.Sent, Value, Ring.IdOk, Local.RecvFirst;
    }
    hide Active, LandedOk, Value, FlightFor, Ring.IdOk, Target;
  }

  lemma WaitedReceiveTraffic<T>(g: Ring<T>, r: nat, w: Window, offered: nat, me: Rank<T>, me': Rank<T>, out: Window,
                                sent: set<Id>, link: Link<T>, id: Id)
    requires g.Valid() && r < g.size && TrafficOk(g, r, w, offered, me, out, sent, link)
    requires id == IdAt(w, w.waited) && id in me.received && me'.received == me.received - {id} && me'.temp == me.temp
    requires id.call < |g.calls| && (g.LocalOf(r, id.call).Gathering(id.step) ==> me'.work == me.work)
    ensures TrafficOk(g, r, w.(waited := w.waited + 1), offered, me', out, sent, link)
    ensures w.waited < offered
  {
    hide FlightsOk, LandedOk, SourcesOk, SendsFrom, ReceivesFrom, DescriptorsFrom, Holds, Value, Target, Ring.IdOk;
    ReportedLanded(g, r, w, offered, me, out, sent, link, id);
    WaitedReceiveFlights(g, r, w, me, me', link, id);
  }

  lemma OrderAfterWait<T>(g: Ring<T>, q: nat, sender: Rank<T>, me: Rank<T>, me': Rank<T>, link: Link<T>)
    requires g.Valid() && q < g.size && LinkOk(g, q, sender, me, link)
    requires Calls(g, Next(g.size, q), me, WaitReceives, me')
    requires var w := Receives(g, Next(g.size, q), me); w.waited < Offered(g, q, sender, w)
    ensures OrderOk(g, q, sender, me')
  {
    hide TrafficOk, Local.Advance, Local.Acting, Local.CursorOk, Local.Finished;
    forall c: nat, t: nat | c < |g.calls|
      ensures WaitedAt(g, Next(g.size, q), me'.call, me'.at, c, t) <= SentAt(g, q, sender.call, sender.at, c, t)
              <= RequestedAt(g, Next(g.size, q), me'.call, me'.at, c, t)
    {
      CallCounts(g, Next(g.size, q), me, WaitReceives, me', c, t);
    }
  }

  lemma WaitedReceiveLink<T>(g: Ring<T>, q: nat, r: nat, sender: Rank<T>, me: Rank<T>, me': Rank<T>, link: Link<T>, id: Id)
    requires g.Valid() && q < g.size && r == Next(g.size, q) && LinkOk(g, q, sender, me, link)
    requires Calls(g, r, me, WaitReceives, me') && id == Id(me.call, me.at.step, me.at.piece) && id in me.received
    requires me'.received == me.received - {id} && me'.temp == me.temp
    requires g.LocalOf(r, id.call).Gathering(id.step) ==> me'.work == me.work
    ensures LinkOk(g, q, sender, me', link)
  {
    hide QueuesOk, FlightsOk, LandedOk, SourcesOk, TrafficOk, OrderOk, Receives, Sends, SentAt, Local.Gathering,
         Local.Advance, Local.Acting, Local.CursorOk, Local.Finished;
    var w := Receives(g, r, me);
    var offered := Offered(g, q, sender, w);
    assert TrafficOk(g, r, w, offered, me, Sends(g, q, sender), sender.sent, link);
    CallWindows(g, r, me, WaitReceives, me');
    CallPiece(g, r, me, WaitReceives, me');
    WaitedReceiveTraffic(g, r, w, offered, me, me', Sends(g, q, sender), sender.sent, link, id);
    OrderAfterWait(g, q, sender, me, me', link);
    assert Offered(g, q, sender, Receives(g, r, me')) == offered;
  }

  lemma SteppedRank<T>(g: Ring<T>, r: nat, me: Rank<T>, me': Rank<T>, id: Id)
    requires g.Valid() && Calls(g, r, me, WaitReceives, me') && RankOk(g, r, me) && me.receiving > 0
    requires id == Id(me.call, me.at.step, me.at.piece) && g.IdOk(r, id) && |me.work| == g.calls[id.call].count
    requires PieceStepped(g, r, id, me.work, me'.work)
    requires me'.receiving == me.receiving - 1 && me'.sending == me.sending
    ensures RankOk(g, r, me')
  {
    assert BufferOk(g, r, me);
    hide RankOk, PieceStepped, BufferOk;
    SteppedBufferOk(g, r, me, me', id);
    CallRankOk(g, r, me, WaitReceives, me');
  }

  lemma WaitReceiveInv<T>(g: Ring<T>, s: State<T>, r: nat)
    requires g.Valid() && Inv(g, s) && Acting(g, s, r, WaitReceives) && Due(g, s, r) in s.ranks[r].received
    ensures Inv(g, WaitReceive(g, s, r))
  {
    hide Inv, RankOk, LinkOk, SameSends, WaitReceive, PieceStepped;
    InvAt(g, s, r);
    WaitReceiveState(g, s, r);
    var me, q, n := s.ranks[r], Prev(g.size, r), Next(g.size, r);
    var me' := AfterWaitReceive(g, s, r, WaitReceive(g, s, r).ranks[r].work);
    assert Calls(g, r, me, WaitReceives, me');
    hide Calls;
    SteppedRank(g, r, me, me', Due(g, s, r));
    CallPiece(g, r, me, WaitReceives, me');
    CallFrames(g, r, me, WaitReceives, me');
    WaitedReceiveLink(g, q, r, s.ranks[q], me, me', s.links[r], Due(g, s, r));
    SenderFrame(g, r, me, me', s.ranks[n], s.links[n]);
    hide AfterWaitReceive;
    Assemble(g, s, WaitReceive(g, s, r), r);
  }
}
