/** What every reachable state of the copying ring satisfies. */
module CopyingInvariant {
  import opened RingArithmetic
  import opened BlockLayout
  import opened Tags
  import opened Schedule
  import opened Group
  import opened Buffers
  import opened CopyingRing

  // --- the invariant --------------------------------------------------------

  /** The message `id` has been taken off the link into rank `r`. */
  ghost predicate Got<T>(g: Ring<T>, r: nat, me: Rank<T>, id: Id)
    requires g.Valid() && r < g.size && g.IdOk(r, id)
  {
    g.Waited(r, me.call, me.at, id) || (id.call == me.call && id.step == me.at.step && id.piece in me.ready)
  }

  /** `data` is what message `id` is to carry. */
  ghost predicate Carries<T>(g: Ring<T>, r: nat, id: Id, data: seq<T>)
    requires g.Valid() && r < g.size && g.IdOk(r, id)
  {
    var loc := g.LocalOf(r, id.call);
    && |data| == loc.RecvLength(id.step, id.piece)
    && forall j :: 0 <= j < |data| ==> data[j] == g.Sent(id.call, id.step, loc.RecvFirst(id.step, id.piece) + j)
  }

  /** The buffer of a rank in mid-call: outside the regions lent to the
    transport every element has its expected value, and a lent region whose
    message has arrived holds what was sent. */
  ghost predicate BufferOk<T>(g: Ring<T>, r: nat, me: Rank<T>)
    requires g.Valid() && r < g.size && me.call < |g.calls|
  {
    var loc := g.LocalOf(r, me.call);
    && |me.work| == g.calls[me.call].count
    && (forall i :: 0 <= i < |me.work| && !g.Lent(r, me.call, me.at, i) ==>
          me.work[i] == g.Expected(r, me.call, me.at, i))
    && (forall i :: 0 <= i < |me.work| && g.Lent(r, me.call, me.at, i) && loc.shape.PieceOf(i) in me.ready ==>
          me.work[i] == g.Sent(me.call, me.at.step, i))
  }

  ghost predicate ReadyOk<T>(g: Ring<T>, r: nat, me: Rank<T>)
    requires g.Valid() && r < g.size && me.call < |g.calls|
  {
    var loc := g.LocalOf(r, me.call);
    forall p :: p in me.ready ==>
      && loc.RecvWaited(me.at, me.at.step) <= p < loc.RecvPosted(me.at, me.at.step)
      && g.IdOk(r, Id(me.call, me.at.step, p))
      && me.ready[p].ok && Carries(g, r, Id(me.call, me.at.step, p), me.ready[p].data)
  }

  ghost predicate RankOk<T>(g: Ring<T>, r: nat, me: Rank<T>)
    requires g.Valid() && r < g.size
  {
    && me.status == Success && me.call <= |g.calls|
    && |me.out| == me.call && ResultsOk(g, me.out)
    && (me.call == |g.calls| ==> me.at == START && me.ready == map[])
    && (me.call < |g.calls| ==>
          g.LocalOf(r, me.call).CursorOk(me.at) && BufferOk(g, r, me) && ReadyOk(g, r, me))
  }

  ghost predicate MessageOk<T>(g: Ring<T>, r: nat, m: Message<T>)
    requires g.Valid() && r < g.size
  {
    g.IdOk(r, m.id) && g.TagOf(m.id) == Tag(m.tag) && Carries(g, r, m.id, m.payload)
  }

  /** The link from rank `q` to its successor: the queue holds exactly the
    messages posted and not yet taken, each once. */
  ghost predicate LinkOk<T>(g: Ring<T>, q: nat, sender: Rank<T>, me: Rank<T>, queue: seq<Message<T>>)
    requires g.Valid() && q < g.size
  {
    var r := Next(g.size, q);
    && (forall id :: g.IdOk(r, id) && Got(g, r, me, id) ==> g.Posted(q, sender.call, sender.at, id))
    && (forall j :: 0 <= j < |queue| ==> MessageOk(g, r, queue[j]))
    && (forall j :: 0 <= j < |queue| ==>
          g.Posted(q, sender.call, sender.at, queue[j].id) && !Got(g, r, me, queue[j].id))
    && (forall j, k :: 0 <= j < k < |queue| ==> queue[j].id != queue[k].id)
    && (forall id :: g.IdOk(r, id) && g.Posted(q, sender.call, sender.at, id) && !Got(g, r, me, id) ==>
          exists j :: 0 <= j < |queue| && queue[j].id == id)
  }

  ghost predicate Inv<T>(g: Ring<T>, s: State<T>)
    requires g.Valid()
  {
    && |s.ranks| == |s.queues| == g.size
    && (forall r :: 0 <= r < g.size ==> RankOk(g, r, s.ranks[r]))
    && (forall q :: 0 <= q < g.size ==>
          LinkOk(g, q, s.ranks[q], s.ranks[Next(g.size, q)], s.queues[Next(g.size, q)]))
  }

  // --- links are indifferent to everything but posts and deliveries ---------

  lemma LinkFrame<T>(g: Ring<T>, q: nat, sender: Rank<T>, me: Rank<T>, sender': Rank<T>, me': Rank<T>,
                     queue: seq<Message<T>>)
    requires g.Valid() && q < g.size && LinkOk(g, q, sender, me, queue)
    requires forall id :: g.IdOk(Next(g.size, q), id) ==>
               (Got(g, Next(g.size, q), me', id) <==> Got(g, Next(g.size, q), me, id))
    requires forall id :: g.IdOk(Next(g.size, q), id) ==>
               (g.Posted(q, sender'.call, sender'.at, id) <==> g.Posted(q, sender.call, sender.at, id))
    ensures LinkOk(g, q, sender', me', queue)
  {}

  ghost predicate SameGot<T>(g: Ring<T>, r: nat, me: Rank<T>, me': Rank<T>)
    requires g.Valid() && r < g.size
  {
    forall id :: g.IdOk(r, id) ==> (Got(g, r, me', id) <==> Got(g, r, me, id))
  }

  ghost predicate SamePosted<T>(g: Ring<T>, q: nat, me: Rank<T>, me': Rank<T>)
    requires g.Valid() && q < g.size
  {
    forall id :: g.IdOk(Next(g.size, q), id) ==>
      (g.Posted(q, me'.call, me'.at, id) <==> g.Posted(q, me.call, me.at, id))
  }

  /** Replacing one rank by one that has taken and posted the same messages. */
  lemma ReplaceRank<T>(g: Ring<T>, s: State<T>, r: nat, me: Rank<T>)
    requires g.Valid() && Inv(g, s) && r < g.size && RankOk(g, r, me)
    requires SameGot(g, r, s.ranks[r], me) && SamePosted(g, r, s.ranks[r], me)
    ensures Inv(g, s.(ranks := s.ranks[r := me]))
  {
    var s' := s.(ranks := s.ranks[r := me]);
    forall q | 0 <= q < g.size
      ensures LinkOk(g, q, s'.ranks[q], s'.ranks[Next(g.size, q)], s'.queues[Next(g.size, q)])
    {
      LinkFrame(g, q, s.ranks[q], s.ranks[Next(g.size, q)], s'.ranks[q], s'.ranks[Next(g.size, q)],
                s.queues[Next(g.size, q)]);
    }
  }

  lemma InitialInv<T>(g: Ring<T>)
    requires g.Valid()
    ensures Inv(g, Initial(g))
  {
    var s := Initial(g);
    hide RankOk, LinkOk;
    forall r | 0 <= r < g.size
      ensures RankOk(g, r, s.ranks[r])
      ensures LinkOk(g, r, s.ranks[r], s.ranks[Next(g.size, r)], s.queues[Next(g.size, r)])
    {
      InitialRankOk(g, r);
      InitialLinkOk(g, r);
    }
  }

  lemma InitialRankOk<T>(g: Ring<T>, r: nat)
    requires g.Valid() && r < g.size
    ensures RankOk(g, r, Initial(g).ranks[r])
  {
    hide Ring.Expected, Ring.Lent;
    if g.calls != [] {
      forall i | 0 <= i < g.calls[0].count
        ensures g.Expected(r, 0, START, i) == g.calls[0].input[r][i] && !g.Lent(r, 0, START, i)
      {
        g.StartValue(r, 0, i);
      }
    }
  }

  lemma InitialLinkOk<T>(g: Ring<T>, q: nat)
    requires g.Valid() && q < g.size
    ensures var s, r := Initial(g), Next(g.size, q); LinkOk(g, q, s.ranks[q], s.ranks[r], s.queues[r])
  {
    var s, r := Initial(g), Next(g.size, q);
    assert s.queues[r] == [] && s.ranks[q].call == s.ranks[r].call == 0 && s.ranks[q].at == s.ranks[r].at == START;
    hide Ring.IdOk, Carries, MessageOk;
  }

  // --- loop tests and posts -------------------------------------------------

  /** Advancing over anything but a receive's wait, as far as the rank goes. */
  lemma AdvanceRankOk<T>(g: Ring<T>, s: State<T>, r: nat)
    requires g.Valid() && Inv(g, s) && Running(g, s, r)
    requires var loc, at := Me(g, s, r), s.ranks[r].at;
             !loc.Finished(at) && !(loc.Acting(at) && at.stage == WaitReceives)
    ensures RankOk(g, r, AdvanceRank(g, s, r).ranks[r])
    ensures SameGot(g, r, s.ranks[r], AdvanceRank(g, s, r).ranks[r])
  {
    var me, loc := s.ranks[r], Me(g, s, r);
    var me' := AdvanceRank(g, s, r).ranks[r];
    forall i | 0 <= i < |me.work|
      ensures g.Expected(r, me.call, me'.at, i) == g.Expected(r, me.call, me.at, i)
      ensures g.Lent(r, me.call, me'.at, i) && loc.shape.PieceOf(i) in me.ready ==> g.Lent(r, me.call, me.at, i)
      ensures g.Lent(r, me.call, me.at, i) ==> g.Lent(r, me.call, me'.at, i)
    {
      g.OtherValue(r, me.call, me.at, i);
      g.OtherLent(r, me.call, me.at, i);
      if loc.Acting(me.at) { loc.ActingAdvance(me.at, me.at.step); }
    }
    loc.ReceivesAdvance(me.at, me.at.step);
    loc.OutstandingBound(me.at, me.at.step);
    forall id | g.IdOk(r, id)
      ensures Got(g, r, me', id) <==> Got(g, r, me, id)
    {
      loc.ReceivesAdvance(me.at, id.step);
    }
  }

  lemma SendsUnmoved<T>(g: Ring<T>, s: State<T>, r: nat)
    requires g.Valid() && Inv(g, s) && Running(g, s, r)
    requires !Me(g, s, r).Finished(s.ranks[r].at) && !Acting(g, s, r, PostSends)
    ensures SamePosted(g, r, s.ranks[r], AdvanceRank(g, s, r).ranks[r])
  {
    var me, loc := s.ranks[r], Me(g, s, r);
    forall id | g.IdOk(Next(g.size, r), id)
      ensures g.Posted(r, me.call, loc.Advance(me.at), id) <==> g.Posted(r, me.call, me.at, id)
    {
      if loc.Acting(me.at) { loc.ActingAdvance(me.at, id.step); } else { loc.SilentAdvance(me.at, id.step); }
    }
  }

  lemma AdvanceInv<T>(g: Ring<T>, s: State<T>, r: nat)
    requires g.Valid() && Inv(g, s) && Running(g, s, r)
    requires !Me(g, s, r).Finished(s.ranks[r].at)
    requires !Acting(g, s, r, PostSends) && !Acting(g, s, r, WaitReceives)
    ensures Inv(g, AdvanceRank(g, s, r))
  {
    AdvanceRankOk(g, s, r);
    SendsUnmoved(g, s, r);
    ReplaceRank(g, s, r, AdvanceRank(g, s, r).ranks[r]);
  }

  /** A call that returns leaves the fully reduced buffer behind. */
  lemma ReturnRankOk<T>(g: Ring<T>, s: State<T>, r: nat)
    requires g.Valid() && Inv(g, s) && Running(g, s, r) && Me(g, s, r).Finished(s.ranks[r].at)
    ensures RankOk(g, r, Return(g, s, r).ranks[r])
  {
    var me, me' := s.ranks[r], Return(g, s, r).ranks[r];
    forall i | 0 <= i < |me.work|
      ensures me.work[i] == g.Reduced(me.call, i)
    {
      g.EndValue(r, me.call, me.at, i);
    }
    if me'.call < |g.calls| {
      forall i | 0 <= i < |me'.work|
        ensures g.Expected(r, me'.call, START, i) == me'.work[i] && !g.Lent(r, me'.call, START, i)
      {
        g.StartValue(r, me'.call, i);
      }
    }
  }

  /** A new call starts where the old one ended, as far as the links go. */
  lemma ReturnFrontiers<T>(g: Ring<T>, s: State<T>, r: nat)
    requires g.Valid() && Inv(g, s) && Running(g, s, r) && Me(g, s, r).Finished(s.ranks[r].at)
    ensures SameGot(g, r, s.ranks[r], Return(g, s, r).ranks[r])
    ensures SamePosted(g, r, s.ranks[r], Return(g, s, r).ranks[r])
  {
    var me, me', loc := s.ranks[r], Return(g, s, r).ranks[r], Me(g, s, r);
    forall id | g.IdOk(r, id)
      ensures Got(g, r, me', id) <==> Got(g, r, me, id)
    {
      loc.OutstandingBound(me.at, me.at.step);
    }
    forall id | g.IdOk(Next(g.size, r), id)
      ensures g.Posted(r, me'.call, me'.at, id) <==> g.Posted(r, me.call, me.at, id)
    {
      g.SameLink(r, id.call, id.step);
    }
  }

  lemma ReturnInv<T>(g: Ring<T>, s: State<T>, r: nat)
    requires g.Valid() && Inv(g, s) && Running(g, s, r) && Me(g, s, r).Finished(s.ranks[r].at)
    ensures Inv(g, Return(g, s, r))
  {
    ReturnRankOk(g, s, r);
    ReturnFrontiers(g, s, r);
    ReplaceRank(g, s, r, Return(g, s, r).ranks[r]);
  }

  // --- a send ---------------------------------------------------------------

  /** The region to be sent holds what the message is to carry. */
  lemma RegionCarries<T>(g: Ring<T>, r: nat, me: Rank<T>, lo: nat, n: nat)
    requires g.Valid() && r < g.size && me.call < |g.calls| && BufferOk(g, r, me)
    requires var loc := g.LocalOf(r, me.call);
             && loc.CursorOk(me.at) && me.at.step < loc.Steps() && me.at.piece < loc.SendPieces(me.at.step)
             && lo == loc.SendFirst(me.at.step, me.at.piece) && n == loc.SendLength(me.at.step, me.at.piece)
    ensures lo + n <= |me.work| && g.IdOk(Next(g.size, r), Id(me.call, me.at.step, me.at.piece))
    ensures Carries(g, Next(g.size, r), Id(me.call, me.at.step, me.at.piece), me.work[lo..lo + n])
  {
    g.SameLink(r, me.call, me.at.step);
    hide Ring.Expected, Ring.Lent, Ring.Sent, Local.SendFirst, Local.RecvFirst, Local.SendLength, Local.RecvLength,
         Local.CursorOk, Shape.BlockOf, Shape.PieceOf;
    forall i | lo <= i < lo + n
      ensures me.work[i] == g.Sent(me.call, me.at.step, i)
    {
      g.LocalOf(r, me.call).RegionsCover(me.at.step, me.at.piece, i);
      g.SendValue(r, me.call, me.at, i);
    }
  }

  lemma BufferOf<T>(g: Ring<T>, s: State<T>, r: nat)
    requires g.Valid() && Inv(g, s) && Running(g, s, r)
    ensures BufferOk(g, r, s.ranks[r])
  {
    assert RankOk(g, r, s.ranks[r]);
    hide BufferOk;
  }

  lemma PayloadOk<T>(g: Ring<T>, s: State<T>, r: nat)
    requires g.Valid() && Inv(g, s) && Acting(g, s, r, PostSends)
    ensures var me, loc := s.ranks[r], Me(g, s, r);
            var lo, n := loc.SendFirst(me.at.step, me.at.piece), loc.SendLength(me.at.step, me.at.piece);
            && g.IdOk(Next(g.size, r), Due(g, s, r))
            && Carries(g, Next(g.size, r), Due(g, s, r), me.work[lo..lo + n])
  {
    hide Inv, Carries, BufferOk, Local.SendFirst, Ring.IdOk;
    BufferOf(g, s, r);
    var me, loc := s.ranks[r], Me(g, s, r);
    RegionCarries(g, r, me, loc.SendFirst(me.at.step, me.at.piece), loc.SendLength(me.at.step, me.at.piece));
  }

  lemma PostedAdvance<T>(g: Ring<T>, s: State<T>, r: nat)
    requires g.Valid() && Acting(g, s, r, PostSends)
    ensures var me := s.ranks[r];
            && g.IdOk(Next(g.size, r), Due(g, s, r))
            && !g.Posted(r, me.call, me.at, Due(g, s, r))
            && forall id :: g.IdOk(Next(g.size, r), id) ==>
                 (g.Posted(r, me.call, Me(g, s, r).Advance(me.at), id)
                  <==> id == Due(g, s, r) || g.Posted(r, me.call, me.at, id))
  {
    var me, loc := s.ranks[r], Me(g, s, r);
    g.SameLink(r, me.call, me.at.step);
    loc.ActingAdvance(me.at, me.at.step);
    forall id | g.IdOk(Next(g.size, r), id)
      ensures g.Posted(r, me.call, loc.Advance(me.at), id)
         <==> id == Due(g, s, r) || g.Posted(r, me.call, me.at, id)
    {
      loc.ActingAdvance(me.at, id.step);
    }
  }

  lemma PostSendInv<T>(g: Ring<T>, s: State<T>, r: nat)
    requires g.Valid() && Inv(g, s) && Acting(g, s, r, PostSends) && g.TagOf(Due(g, s, r)).Tag?
    ensures Inv(g, PostSend(g, s, r))
  {
    hide Got, MessageOk, Carries, RankOk, Ring.Posted, Ring.IdOk;
    var me, s', n := s.ranks[r], PostSend(g, s, r), Next(g.size, r);
    AdvanceRankOk(g, s, r);
    PayloadOk(g, s, r);
    PostedAdvance(g, s, r);
    forall q | 0 <= q < g.size
      ensures LinkOk(g, q, s'.ranks[q], s'.ranks[Next(g.size, q)], s'.queues[Next(g.size, q)])
    {
      if q != r {
        LinkFrame(g, q, s.ranks[q], s.ranks[Next(g.size, q)], s'.ranks[q], s'.ranks[Next(g.size, q)],
                  s.queues[Next(g.size, q)]);
      } else {
        AppendLink(g, r, me, s.ranks[n], s'.ranks[r], s'.ranks[n], s.queues[n],
                   s'.queues[n][|s'.queues[n]| - 1]);
      }
    }
  }

  lemma AppendLink<T>(g: Ring<T>, q: nat, sender: Rank<T>, me: Rank<T>, sender': Rank<T>, me': Rank<T>,
                      queue: seq<Message<T>>, m: Message<T>)
    requires g.Valid() && q < g.size && LinkOk(g, q, sender, me, queue)
    requires MessageOk(g, Next(g.size, q), m) && !g.Posted(q, sender.call, sender.at, m.id)
    requires SameGot(g, Next(g.size, q), me, me')
    requires forall id :: g.IdOk(Next(g.size, q), id) ==>
               (g.Posted(q, sender'.call, sender'.at, id) <==> id == m.id || g.Posted(q, sender.call, sender.at, id))
    ensures LinkOk(g, q, sender', me', queue + [m])
  {
    var queue' := queue + [m];
    assert queue'[|queue|] == m;
    forall id | g.IdOk(Next(g.size, q), id) && g.Posted(q, sender'.call, sender'.at, id) && !Got(g, Next(g.size, q), me', id)
      ensures exists j :: 0 <= j < |queue'| && queue'[j].id == id
    {
      if id != m.id {
        var j :| 0 <= j < |queue| && queue[j].id == id;
        assert queue'[j].id == id;
      }
    }
  }

  // --- how far ranks can drift apart ------------------------------------------

  /** A message received in step `step` was posted by a sender that had
    received the same block in the step before. */
  lemma OneHop<T>(g: Ring<T>, s: State<T>, q: nat, c: nat, step: nat)
    requires g.Valid() && Inv(g, s) && q < g.size
    requires g.IdOk(Next(g.size, q), Id(c, step, 0))
    requires Got(g, Next(g.size, q), s.ranks[Next(g.size, q)], Id(c, step, 0))
    ensures s.ranks[q].call > c || (s.ranks[q].call == c && s.ranks[q].at.step >= step)
    ensures step > 0 ==> g.IdOk(q, Id(c, step - 1, 0)) && Got(g, q, s.ranks[q], Id(c, step - 1, 0))
  {
    hide RankOk, LinkOk, Ring.Posted, Got;
    LinkPosted(g, q, s.ranks[q], s.ranks[Next(g.size, q)], s.queues[Next(g.size, q)], Id(c, step, 0));
    PostedBy(g, s, q, c, step);
  }

  lemma LinkPosted<T>(g: Ring<T>, q: nat, sender: Rank<T>, me: Rank<T>, queue: seq<Message<T>>, id: Id)
    requires g.Valid() && q < g.size && LinkOk(g, q, sender, me, queue)
    requires g.IdOk(Next(g.size, q), id) && Got(g, Next(g.size, q), me, id)
    ensures g.Posted(q, sender.call, sender.at, id)
  {
    hide Got, MessageOk, Ring.Posted;
  }

  lemma PostedBy<T>(g: Ring<T>, s: State<T>, q: nat, c: nat, step: nat)
    requires g.Valid() && Inv(g, s) && q < g.size && g.IdOk(Next(g.size, q), Id(c, step, 0))
    requires g.Posted(q, s.ranks[q].call, s.ranks[q].at, Id(c, step, 0))
    ensures s.ranks[q].call > c || (s.ranks[q].call == c && s.ranks[q].at.step >= step)
    ensures step > 0 ==> g.IdOk(q, Id(c, step - 1, 0)) && Got(g, q, s.ranks[q], Id(c, step - 1, 0))
  {
    if step > 0 {
      g.ReceivedBefore(q, c, step);
    }
    hide LinkOk, BufferOk, ReadyOk, ResultsOk;
  }

  /** The rank `j + 1` places back had reached step `step - j` of the call. */
  lemma {:induction false} Travelled<T>(g: Ring<T>, s: State<T>, r: nat, c: nat, step: nat, j: nat)
    requires g.Valid() && Inv(g, s) && r < g.size
    requires g.IdOk(r, Id(c, step, 0)) && Got(g, r, s.ranks[r], Id(c, step, 0))
    requires j <= step && j + 1 < g.size
    ensures var back := s.ranks[Back(g.size, r, j + 1)];
            back.call > c || (back.call == c && back.at.step >= step - j)
    decreases j
  {
    hide Inv, Got;
    var q := Prev(g.size, r);
    RotationsAgree(g.size, r, j);
    OneHop(g, s, q, c, step);
    if j > 0 {
      Travelled(g, s, q, c, step - 1, j - 1);
    }
  }

  /** A rank that has finished a call knows that every rank has entered it. */
  lemma CallSkew<T>(g: Ring<T>, s: State<T>, a: nat, b: nat)
    requires g.Valid() && Inv(g, s) && a < g.size && b < g.size
    ensures s.ranks[a].call <= s.ranks[b].call + 1
  {
    if s.ranks[a].call > 0 && a != b {
      var c, d := s.ranks[a].call - 1, Hops(g.size, 0, a);
      var step := if d == g.size - 1 then g.size - 2 else d + g.size - 1;
      var loc := g.LocalOf(a, c);
      assert loc.RecvHops(step) == d && loc.RecvBlock(step) == 0;
      g.FirstBlockNotEmpty(c);
      assert g.IdOk(a, Id(c, step, 0)) && Got(g, a, s.ranks[a], Id(c, step, 0));
      Travelled(g, s, a, c, step, Hops(g.size, b, a) - 1);
    }
  }

  // --- a receive ------------------------------------------------------------

  lemma RemoveLink<T>(g: Ring<T>, q: nat, sender: Rank<T>, me: Rank<T>, sender': Rank<T>, me': Rank<T>,
                      queue: seq<Message<T>>, j: nat)
    requires g.Valid() && q < g.size && LinkOk(g, q, sender, me, queue) && j < |queue|
    requires SamePosted(g, q, sender, sender')
    requires forall id :: g.IdOk(Next(g.size, q), id) ==>
               (Got(g, Next(g.size, q), me', id) <==> id == queue[j].id || Got(g, Next(g.size, q), me, id))
    ensures LinkOk(g, q, sender', me', Without(queue, j))
  {
    hide Got, Carries, Ring.Posted, Ring.IdOk, Ring.TagOf;
    var queue', r := Without(queue, j), Next(g.size, q);
    forall k | 0 <= k < |queue'|
      ensures MessageOk(g, r, queue'[k]) && g.Posted(q, sender'.call, sender'.at, queue'[k].id)
      ensures !Got(g, r, me', queue'[k].id)
    {
      var from := if k < j then k else k + 1;
      assert queue'[k] == queue[from] && MessageOk(g, r, queue[from]);
    }
    forall id | g.IdOk(r, id) && g.Posted(q, sender'.call, sender'.at, id) && !Got(g, r, me', id)
      ensures exists k :: 0 <= k < |queue'| && queue'[k].id == id
    {
      var k :| 0 <= k < |queue| && queue[k].id == id;
      assert queue'[if k < j then k else k - 1].id == id;
    }
  }

  /** Rank `r` takes message `j` off its queue and becomes `me`. */
  lemma TakeMessage<T>(g: Ring<T>, s: State<T>, r: nat, j: nat, me: Rank<T>)
    requires g.Valid() && Inv(g, s) && r < g.size && j < |s.queues[r]| && RankOk(g, r, me)
    requires SamePosted(g, r, s.ranks[r], me)
    requires forall x :: g.IdOk(r, x) ==>
               (Got(g, r, me, x) <==> x == s.queues[r][j].id || Got(g, r, s.ranks[r], x))
    ensures Inv(g, State(s.ranks[r := me], s.queues[r := Without(s.queues[r], j)]))
  {
    hide Got, MessageOk, Carries, RankOk, Ring.Posted, Ring.IdOk;
    var s' := State(s.ranks[r := me], s.queues[r := Without(s.queues[r], j)]);
    forall q | 0 <= q < g.size
      ensures LinkOk(g, q, s'.ranks[q], s'.ranks[Next(g.size, q)], s'.queues[Next(g.size, q)])
    {
      hide LinkOk;
      if Next(g.size, q) == r {
        RemoveLink(g, q, s.ranks[q], s.ranks[r], s'.ranks[q], me, s.queues[r], j);
      } else {
        LinkFrame(g, q, s.ranks[q], s.ranks[Next(g.size, q)], s'.ranks[q], s'.ranks[Next(g.size, q)],
                  s.queues[Next(g.size, q)]);
      }
    }
  }

  /** The first queued message with the wanted tag is the wanted message. */
  lemma MatchIsRight<T>(g: Ring<T>, s: State<T>, r: nat, p: nat)
    requires g.Valid() && g.TagsFit() && Inv(g, s) && Deliverable(g, s, r, p)
    ensures var id := Id(s.ranks[r].call, s.ranks[r].at.step, p);
            var m := s.queues[r][FirstMatch(s.queues[r], g.TagOf(id).tag)];
            m.id == id && Carries(g, r, id, m.payload)
  {
    var q := Prev(g.size, r);
    RotationsAgree(g.size, r, 0);
    var id := Id(s.ranks[r].call, s.ranks[r].at.step, p);
    var m := s.queues[r][FirstMatch(s.queues[r], g.TagOf(id).tag)];
    assert MessageOk(g, r, m) && g.Posted(q, s.ranks[q].call, s.ranks[q].at, m.id) && !Got(g, r, s.ranks[r], m.id);
    assert m.id.call <= s.ranks[q].call;
    CallSkew(g, s, q, r);
    g.TagDistinguishes(r, id, m.id);
  }

  /** A delivery writes the payload where the receive asked for it and marks
    the receive ready; nothing else of the rank changes. */
  lemma Delivered<T>(g: Ring<T>, s: State<T>, r: nat, p: nat)
    requires g.Valid() && g.TagsFit() && Inv(g, s) && Deliverable(g, s, r, p)
    ensures var me, loc := s.ranks[r], Me(g, s, r);
            var id := Id(me.call, me.at.step, p);
            var j := FirstMatch(s.queues[r], g.TagOf(id).tag);
            var data := s.queues[r][j].payload;
            && s.queues[r][j].id == id && Carries(g, r, id, data)
            && Deliver(g, s, r, p) == State(
                 s.ranks[r := me.(
                   ready := me.ready[p := Arrival(true, data)],
                   work := if loc.Gathering(me.at.step) then Overwrite(me.work, loc.RecvFirst(me.at.step, p), data)
                           else me.work)],
                 s.queues[r := Without(s.queues[r], j)])
  {
    MatchIsRight(g, s, r, p);
  }

  lemma OverwrittenBy<T>(g: Ring<T>, r: nat, id: Id, work: seq<T>, data: seq<T>, i: nat)
    requires g.Valid() && r < g.size && g.IdOk(r, id) && Carries(g, r, id, data)
    requires i < |work| == g.calls[id.call].count
    ensures var loc := g.LocalOf(r, id.call);
            Overwrite(work, loc.RecvFirst(id.step, id.piece), data)[i]
            == if loc.shape.BlockOf(i) == loc.RecvBlock(id.step) && loc.shape.PieceOf(i) == id.piece
               then g.Sent(id.call, id.step, i) else work[i]
  {
    g.LocalOf(r, id.call).RegionsCover(id.step, id.piece, i);
  }

  lemma DeliverBufferOk<T>(g: Ring<T>, s: State<T>, r: nat, p: nat)
    requires g.Valid() && g.TagsFit() && Inv(g, s) && Deliverable(g, s, r, p)
    requires var id := Id(s.ranks[r].call, s.ranks[r].at.step, p);
             g.Requested(r, s.ranks[r].call, s.ranks[r].at, id) && !Got(g, r, s.ranks[r], id)
    ensures BufferOk(g, r, Deliver(g, s, r, p).ranks[r])
  {
    Delivered(g, s, r, p);
    var me, me', loc := s.ranks[r], Deliver(g, s, r, p).ranks[r], Me(g, s, r);
    assert RankOk(g, r, me);
    hide Deliver, Inv, FirstMatch, Carries;
    forall i | 0 <= i < |me.work|
      ensures me'.work[i] == if g.Lent(r, me.call, me.at, i) && loc.shape.PieceOf(i) == p
                             then g.Sent(me.call, me.at.step, i) else me.work[i]
    {
      OverwrittenBy(g, r, Id(me.call, me.at.step, p), me.work, me'.ready[p].data, i);
      g.LentHere(r, me.call, me.at, i);
    }
  }

  lemma DeliverRankOk<T>(g: Ring<T>, s: State<T>, r: nat, p: nat)
    requires g.Valid() && g.TagsFit() && Inv(g, s) && Deliverable(g, s, r, p)
    requires var id := Id(s.ranks[r].call, s.ranks[r].at.step, p);
             g.Requested(r, s.ranks[r].call, s.ranks[r].at, id) && !Got(g, r, s.ranks[r], id)
    ensures RankOk(g, r, Deliver(g, s, r, p).ranks[r])
  {
    Delivered(g, s, r, p);
    DeliverBufferOk(g, s, r, p);
    hide Deliver, BufferOk, Carries, FirstMatch, Local.Advance;
  }

  lemma DeliverFrontiers<T>(g: Ring<T>, s: State<T>, r: nat, p: nat)
    requires g.Valid() && g.TagsFit() && Inv(g, s) && Deliverable(g, s, r, p)
    ensures var id := Id(s.ranks[r].call, s.ranks[r].at.step, p);
            forall x :: g.IdOk(r, x) ==>
              (Got(g, r, Deliver(g, s, r, p).ranks[r], x) <==> x == id || Got(g, r, s.ranks[r], x))
    ensures SamePosted(g, r, s.ranks[r], Deliver(g, s, r, p).ranks[r])
  {
    Delivered(g, s, r, p);
    hide Deliver, Local.RecvWaited, Local.SendPosted;
  }

  lemma DeliverInv<T>(g: Ring<T>, s: State<T>, r: nat, p: nat)
    requires g.Valid() && g.TagsFit() && Inv(g, s) && Deliverable(g, s, r, p)
    requires var id := Id(s.ranks[r].call, s.ranks[r].at.step, p);
             g.Requested(r, s.ranks[r].call, s.ranks[r].at, id) && !Got(g, r, s.ranks[r], id)
    ensures Inv(g, Deliver(g, s, r, p))
  {
    DeliverRankOk(g, s, r, p);
    DeliverFrontiers(g, s, r, p);
    Delivered(g, s, r, p);
    TakeMessage(g, s, r, FirstMatch(s.queues[r], g.TagOf(Id(s.ranks[r].call, s.ranks[r].at.step, p)).tag),
                Deliver(g, s, r, p).ranks[r]);
  }

  /** A wait that returns: the piece makes its step, and is done with. */
  lemma Consumed<T>(g: Ring<T>, s: State<T>, r: nat)
    requires g.Valid() && Inv(g, s) && Acting(g, s, r, WaitReceives)
    requires s.ranks[r].at.piece in s.ranks[r].ready
    ensures var me, loc, p := s.ranks[r], Me(g, s, r), s.ranks[r].at.piece;
            && me.ready[p].ok && Carries(g, r, Id(me.call, me.at.step, p), me.ready[p].data)
            && Consume(g, s, r).ranks[r] == me.(
                 at := loc.Advance(me.at), ready := me.ready - {p},
                 work := if loc.Gathering(me.at.step) then me.work
                         else Combine(g.calls[me.call].op, me.work, loc.RecvFirst(me.at.step, p), me.ready[p].data))
  {
    assert Carries(g, r, Id(s.ranks[r].call, s.ranks[r].at.step, s.ranks[r].at.piece),
                   s.ranks[r].ready[s.ranks[r].at.piece].data);
  }

  /** The rank a wait at `me.at` leaves behind. */
  ghost predicate AfterWait<T>(g: Ring<T>, r: nat, me: Rank<T>, me': Rank<T>)
    requires g.Valid() && r < g.size
  {
    && me.call < |g.calls| && |me.work| == g.calls[me.call].count
    && var loc, p := g.LocalOf(r, me.call), me.at.piece;
       && loc.CursorOk(me.at) && loc.Acting(me.at) && me.at.stage == WaitReceives && p in me.ready
       && g.IdOk(r, Id(me.call, me.at.step, p)) && Carries(g, r, Id(me.call, me.at.step, p), me.ready[p].data)
       && me' == me.(
            at := loc.Advance(me.at), ready := me.ready - {p},
            work := if loc.Gathering(me.at.step) then me.work
                    else Combine(g.calls[me.call].op, me.work, loc.RecvFirst(me.at.step, p), me.ready[p].data))
  }

  lemma ConsumedAfter<T>(g: Ring<T>, s: State<T>, r: nat)
    requires g.Valid() && Inv(g, s) && Acting(g, s, r, WaitReceives) && s.ranks[r].at.piece in s.ranks[r].ready
    ensures AfterWait(g, r, s.ranks[r], Consume(g, s, r).ranks[r]) && RankOk(g, r, s.ranks[r])
    ensures Consume(g, s, r) == s.(ranks := s.ranks[r := Consume(g, s, r).ranks[r]])
  {
    Consumed(g, s, r);
    assert RankOk(g, r, s.ranks[r]);
    hide Carries, BufferOk, Combine, Local.Advance, Local.RecvFirst;
  }

  lemma WorkAfter<T>(g: Ring<T>, r: nat, me: Rank<T>, me': Rank<T>, i: nat)
    requires g.Valid() && r < g.size && AfterWait(g, r, me, me') && i < |me.work|
    ensures |me'.work| == |me.work|
    ensures var loc := g.LocalOf(r, me.call);
            me'.work[i] == if !loc.Gathering(me.at.step) && loc.shape.BlockOf(i) == loc.RecvBlock(me.at.step)
                              && loc.shape.PieceOf(i) == me.at.piece
                           then g.calls[me.call].op(me.work[i], g.Sent(me.call, me.at.step, i)) else me.work[i]
  {
    hide Ring.Sent, Local.Advance, Local.CursorOk, Local.RecvFirst, Local.RecvBlock, Local.RecvLength, Shape.Pieces,
         Shape.BlockOf, Shape.PieceOf, Combine;
    g.LocalOf(r, me.call).RegionsCover(me.at.step, me.at.piece, i);
  }

  lemma ElementAfter<T>(g: Ring<T>, r: nat, me: Rank<T>, me': Rank<T>, i: nat)
    requires g.Valid() && r < g.size && AfterWait(g, r, me, me') && BufferOk(g, r, me) && i < |me.work|
    ensures |me'.work| == |me.work|
    ensures !g.Lent(r, me.call, me'.at, i) ==> me'.work[i] == g.Expected(r, me.call, me'.at, i)
    ensures g.Lent(r, me.call, me'.at, i) && g.LocalOf(r, me.call).shape.PieceOf(i) in me'.ready ==>
              me'.work[i] == g.Sent(me.call, me.at.step, i)
  {
    hide Ring.Sent, Ring.Expected, Ring.Lent, Local.Advance, Local.CursorOk, Local.RecvFirst, Local.RecvBlock, Local.Acting,
         Shape.BlockOf, Shape.PieceOf, Carries, Combine, Ring.IdOk;
    WorkAfter(g, r, me, me', i);
    g.ReceiveValue(r, me.call, me.at, i);
    g.ReceiveLent(r, me.call, me.at, i);
  }

  lemma BufferAfter<T>(g: Ring<T>, r: nat, me: Rank<T>, me': Rank<T>)
    requires g.Valid() && r < g.size && AfterWait(g, r, me, me') && BufferOk(g, r, me)
    ensures BufferOk(g, r, me') && |me'.work| == |me.work|
  {
    var loc := g.LocalOf(r, me.call);
    assert me'.at.step == me.at.step && me'.call == me.call && |me'.work| == |me.work| by { StepKept(loc, me.at); }
    hide Ring.Sent, Ring.Expected, Ring.Lent, Shape.PieceOf, AfterWait;
    forall i | 0 <= i < |me.work|
      ensures !g.Lent(r, me.call, me'.at, i) ==> me'.work[i] == g.Expected(r, me.call, me'.at, i)
      ensures g.Lent(r, me.call, me'.at, i) && loc.shape.PieceOf(i) in me'.ready ==>
                me'.work[i] == g.Sent(me.call, me'.at.step, i)
    {
      ElementAfter(g, r, me, me', i);
    }
  }

  lemma FrontiersAfter(loc: Local, at: Cursor)
    requires loc.Valid() && loc.CursorOk(at) && loc.Acting(at) && at.stage == WaitReceives
    ensures var n := loc.Advance(at);
            && loc.CursorOk(n) && n.step == at.step
            && loc.RecvWaited(at, at.step) == at.piece && loc.RecvWaited(n, at.step) == at.piece + 1
            && loc.RecvPosted(n, at.step) == loc.RecvPosted(at, at.step)
  {
    StepKept(loc, at);
    loc.ActingAdvance(at, at.step);
  }

  lemma ReadyAfter<T>(g: Ring<T>, r: nat, me: Rank<T>, me': Rank<T>)
    requires g.Valid() && r < g.size && AfterWait(g, r, me, me') && ReadyOk(g, r, me)
    ensures ReadyOk(g, r, me') && g.LocalOf(r, me.call).CursorOk(me'.at)
  {
    hide Carries, Local.Advance, Local.RecvWaited, Local.RecvPosted, Local.RecvFirst, Combine, Ring.IdOk, Local.CursorOk,
         Shape.Pieces;
    FrontiersAfter(g.LocalOf(r, me.call), me.at);
  }

  lemma ConsumeRankOk<T>(g: Ring<T>, s: State<T>, r: nat)
    requires g.Valid() && Inv(g, s) && Acting(g, s, r, WaitReceives)
    requires s.ranks[r].at.piece in s.ranks[r].ready
    ensures RankOk(g, r, Consume(g, s, r).ranks[r])
  {
    ConsumedAfter(g, s, r);
    RankAfter(g, r, s.ranks[r], Consume(g, s, r).ranks[r]);
    hide Consume, RankOk, AfterWait, Inv;
  }

  lemma RankAfter<T>(g: Ring<T>, r: nat, me: Rank<T>, me': Rank<T>)
    requires g.Valid() && r < g.size && AfterWait(g, r, me, me') && RankOk(g, r, me)
    ensures RankOk(g, r, me')
  {
    BufferAfter(g, r, me, me');
    ReadyAfter(g, r, me, me');
    hide BufferOk, ReadyOk, ResultsOk, Carries, Local.Advance, Local.CursorOk, Local.Acting, Local.RecvFirst, Combine, Ring.IdOk;
  }

  lemma ConsumeInv<T>(g: Ring<T>, s: State<T>, r: nat)
    requires g.Valid() && Inv(g, s) && Acting(g, s, r, WaitReceives)
    requires s.ranks[r].at.piece in s.ranks[r].ready
    ensures Inv(g, Consume(g, s, r))
  {
    ConsumeRankOk(g, s, r);
    ConsumeFrontiers(g, s, r);
    ReplaceRank(g, s, r, Consume(g, s, r).ranks[r]);
  }

  lemma ConsumeFrontiers<T>(g: Ring<T>, s: State<T>, r: nat)
    requires g.Valid() && Inv(g, s) && Acting(g, s, r, WaitReceives)
    requires s.ranks[r].at.piece in s.ranks[r].ready
    ensures SameGot(g, r, s.ranks[r], Consume(g, s, r).ranks[r])
    ensures SamePosted(g, r, s.ranks[r], Consume(g, s, r).ranks[r])
  {
    SendsUnmoved(g, s, r);
    Consumed(g, s, r);
    var me, me', loc := s.ranks[r], Consume(g, s, r).ranks[r], Me(g, s, r);
    hide Consume;
    forall id | g.IdOk(r, id)
      ensures Got(g, r, me', id) <==> Got(g, r, me, id)
    {
      GotKept(g, r, me, id);
    }
  }

  lemma GotKept<T>(g: Ring<T>, r: nat, me: Rank<T>, id: Id)
    requires g.Valid() && r < g.size && g.IdOk(r, id) && me.call < |g.calls|
    requires var loc := g.LocalOf(r, me.call);
             loc.CursorOk(me.at) && loc.Acting(me.at) && me.at.stage == WaitReceives && me.at.piece in me.ready
    ensures Got(g, r, me, id)
       <==> Got(g, r, me.(at := g.LocalOf(r, me.call).Advance(me.at), ready := me.ready - {me.at.piece}), id)
  {
    var loc := g.LocalOf(r, me.call);
    StepKept(loc, me.at);
    loc.ActingAdvance(me.at, id.step);
    loc.ActingAdvance(me.at, me.at.step);
    hide Local.Advance, Local.RecvWaited, Local.RecvPieces;
  }
}