/** How much is outstanding at any time on the zero-copy ring, and how far
  neighbours drift apart. */
module ZeroCopyBounds {
  import opened RingArithmetic
  import opened BlockLayout
  import opened Schedule
  import opened Group
  import opened ZeroCopyRing
  import opened ZeroCopyInvariant
  import opened ZeroCopySteps
  import opened ZeroCopyNetwork

  // --- requests are conserved ---------------------------------------------------

  function Ids(c: nat, s: nat, lo: nat, hi: nat): (ids: set<Id>)
    requires lo <= hi
    ensures forall id :: id in ids <==> id.call == c && id.step == s && lo <= id.piece < hi
    ensures |ids| == hi - lo
    decreases hi
  {
    if lo == hi then {} else Ids(c, s, lo, hi - 1) + {Id(c, s, hi - 1)}
  }

  lemma SplitCount(a: set<Id>, b: set<Id>, all: set<Id>)
    requires a + b == all && a !! b
    ensures |a| + |b| == |all|
  {}

  lemma WindowPieces<T>(g: Ring<T>, r: nat, me: Rank<T>)
    requires g.Valid() && r < g.size && RankOk(g, r, me)
    ensures var w := Receives(g, r, me);
            && w.waited <= w.posted <= w.waited + g.capacities[r]
            && (forall p: nat :: p < w.posted ==> g.IdOk(r, IdAt(w, p)))
    ensures var out := Sends(g, r, me); out.waited <= out.posted <= out.waited + g.capacities[r]
    ensures me.call == |g.calls| || me.at.stage == BatchHead ==>
              && Receives(g, r, me).waited == Receives(g, r, me).posted
              && Sends(g, r, me).waited == Sends(g, r, me).posted
  {
    hide BufferOk, ResultsOk;
    if me.call < |g.calls| {
      g.LocalOf(r, me.call).OutstandingBound(me.at, me.at.step);
    }
  }

  /** The requests a rank counts as pending are, each once: receives not yet
    matched, receives in flight, receives reported and not yet waited for; and
    sends not yet acknowledged, sends reported and not yet waited for. */
  lemma PendingRequests<T>(g: Ring<T>, s: State<T>, r: nat)
    requires g.Valid() && Inv(g, s) && r < g.size
    ensures |s.ranks| == |s.links| == g.size
    ensures s.ranks[r].receiving == |s.links[r].receives| + |s.links[r].flights| + |s.ranks[r].received|
    ensures s.ranks[r].sending == |s.links[Next(g.size, r)].unacked| + |s.ranks[r].sent|
  {
    hide Inv, RankOk, TrafficOk, Receives, Sends, Offered;
    TrafficAt(g, s, r);
    TrafficAt(g, s, Next(g.size, r));
    RotationsAgree(g.size, r, 0);
    var me := s.ranks[r];
    var w := Receives(g, r, me);
    var q, n := Prev(g.size, r), Next(g.size, r);
    WindowPieces(g, r, me);
    assert me.receiving == w.posted - w.waited && me.sending == Sends(g, r, me).posted - Sends(g, r, me).waited by {
      PendingCounts(g, r, me);
    }
    PendingReceives(g, r, w, Offered(g, q, s.ranks[q], w), me, Sends(g, q, s.ranks[q]), s.ranks[q].sent, s.links[r]);
    var wn := Receives(g, n, s.ranks[n]);
    PendingSends(g, n, wn, Offered(g, r, me, wn), s.ranks[n], Sends(g, r, me), me.sent, s.links[n]);
  }

  lemma PendingCounts<T>(g: Ring<T>, r: nat, me: Rank<T>)
    requires g.Valid() && r < g.size && RankOk(g, r, me)
    ensures me.receiving == Receives(g, r, me).posted - Receives(g, r, me).waited
    ensures me.sending == Sends(g, r, me).posted - Sends(g, r, me).waited
  {
    hide BufferOk, ResultsOk, Receives, Sends;
  }

  /** The transfers under way and the completions reported share out the pieces
    that have been matched and not waited for. */
  lemma MatchedPieces<T>(g: Ring<T>, r: nat, w: Window, received: map<Id, bool>, link: Link<T>, ids: set<Id>)
    requires g.Valid() && r < g.size && FlightsOk(g, r, w, received, link)
    requires forall id :: id in ids <==> id.call == w.call && id.step == w.step && w.waited <= id.piece < Matched(w, link)
    requires forall p: nat :: p < w.posted ==> g.IdOk(r, IdAt(w, p))
    ensures link.flights.Keys + received.Keys == ids && link.flights.Keys !! received.Keys
  {
    forall id | id in ids
      ensures Active(g, r, w, link, id)
    {
      assert id == IdAt(w, id.piece);
      hide FlightsOk;
    }
    assert forall id :: Active(g, r, w, link, id) ==> id in ids by { hide FlightsOk; }
    hide Active, FlightFor, Ring.IdOk, Value;
  }

  lemma PendingReceives<T>(g: Ring<T>, r: nat, w: Window, offered: nat, me: Rank<T>, out: Window, sent: set<Id>,
                           link: Link<T>)
    requires g.Valid() && r < g.size && TrafficOk(g, r, w, offered, me, out, sent, link)
    requires forall p: nat :: p < w.posted ==> g.IdOk(r, IdAt(w, p))
    ensures w.posted - w.waited == |link.receives| + |link.flights| + |me.received|
  {
    hide FlightsOk, LandedOk, SourcesOk, SendsFrom, ReceivesFrom, DescriptorsFrom, Ring.IdOk, Ids;
    var ids := Ids(w.call, w.step, w.waited, Matched(w, link));
    MatchedPieces(g, r, w, me.received, link, ids);
    SplitCount(link.flights.Keys, me.received.Keys, ids);
  }

  lemma PendingSends<T>(g: Ring<T>, r: nat, w: Window, offered: nat, me: Rank<T>, out: Window, sent: set<Id>, link: Link<T>)
    requires g.Valid() && r < g.size && TrafficOk(g, r, w, offered, me, out, sent, link) && out.waited <= out.posted
    ensures out.posted - out.waited == |link.unacked| + |sent|
  {
    hide QueuesOk, FlightsOk, LandedOk;
    var ids := Ids(out.call, out.step, out.waited, out.posted);
    assert forall id :: Outgoing(out, id) <==> id in ids;
    hide Outgoing;
    SplitCount(link.unacked, sent, ids);
  }

  /** No more than a batch is outstanding in either direction, nothing between
    batches, and the completions reported to a rank and not yet waited for fit
    a completion queue of twice the batch. */
  lemma OutstandingBounds<T>(g: Ring<T>, s: State<T>, r: nat)
    requires g.Valid() && Inv(g, s) && r < g.size
    ensures |s.ranks| == |s.links| == g.size
    ensures var me, link, capacity := s.ranks[r], s.links[r], g.capacities[r];
            && me.receiving <= capacity && me.sending <= capacity
            && |link.descriptors| <= |link.receives| <= capacity
            && |me.received| + |me.sent| <= 2 * capacity
            && (me.call == |g.calls| || me.at.stage == BatchHead ==>
                  && me.receiving == me.sending == 0
                  && me.received == map[] && me.sent == {} && link.receives == [] && link.descriptors == [])
  {
    PendingRequests(g, s, r);
    hide Inv, RankOk, FlightsOk, LandedOk, SourcesOk, SendsFrom, ReceivesFrom, DescriptorsFrom, Receives, Sends, Offered;
    TrafficAt(g, s, r);
    WindowPieces(g, r, s.ranks[r]);
    PendingCounts(g, r, s.ranks[r]);
  }

  /** The in-flight limit of 1024 keeps the completions nobody has polled for
    within the completion queue. */
  lemma CompletionsFit<T>(g: Ring<T>, s: State<T>, r: nat)
    requires g.Valid() && Inv(g, s) && r < g.size && g.capacities[r] <= 1024
    ensures |s.ranks| == g.size && |s.ranks[r].received| + |s.ranks[r].sent| <= 2048
  {
    OutstandingBounds(g, s, r);
    hide Inv;
  }

  // --- skew -----------------------------------------------------------------------

  ghost function StepsBegun<T>(g: Ring<T>, me: Rank<T>): int {
    RingSteps(g.size, me.call, me.at.step)
  }

  lemma StepHasPieces<T>(g: Ring<T>, r: nat, c: nat, step: nat)
    requires g.Valid() && NoEmptyBlocks(g) && r < g.size && c < |g.calls| && step < 2 * (g.size - 1)
    ensures g.LocalOf(r, c).RecvPieces(step) >= 1 && g.LocalOf(r, c).SendPieces(step) >= 1
  {
    EveryBlockHasPieces(g, c, g.LocalOf(r, c).RecvBlock(step));
    EveryBlockHasPieces(g, c, g.LocalOf(r, c).SendBlock(step));
  }

  /** Of a step either neighbour has behind it the other has begun. */
  lemma NeighbourBegan<T>(g: Ring<T>, q: nat, sender: Rank<T>, me: Rank<T>, c: nat, t: nat)
    requires g.Valid() && NoEmptyBlocks(g) && q < g.size && OrderOk(g, q, sender, me)
    requires c < |g.calls| && t < 2 * (g.size - 1)
    ensures c < me.call || (c == me.call && t < me.at.step) ==>
              c < sender.call || (c == sender.call && t <= sender.at.step)
    ensures c < sender.call || (c == sender.call && t < sender.at.step) ==>
              c < me.call || (c == me.call && t <= me.at.step)
  {
    var r := Next(g.size, q);
    StepHasPieces(g, r, c, t);
    StepHasPieces(g, q, c, t);
    assert WaitedAt(g, r, me.call, me.at, c, t) <= SentAt(g, q, sender.call, sender.at, c, t)
           <= RequestedAt(g, r, me.call, me.at, c, t);
    hide OrderOk, NoEmptyBlocks, Shape.Pieces, Local.RecvBlock, Local.SendBlock;
  }

  lemma LastStepBegun<T>(g: Ring<T>, q: nat, sender: Rank<T>, me: Rank<T>)
    requires g.Valid() && NoEmptyBlocks(g) && q < g.size && OrderOk(g, q, sender, me) && g.size >= 2
    requires sender.at.step <= 2 * (g.size - 1) && sender.call <= |g.calls| && (sender.call == |g.calls| ==> sender.at.step == 0)
    requires me.at.step <= 2 * (g.size - 1) && me.call <= |g.calls| && (me.call == |g.calls| ==> me.at.step == 0)
    ensures StepsBegun(g, me) <= StepsBegun(g, sender) + 1 && StepsBegun(g, sender) <= StepsBegun(g, me) + 1
  {
    hide OrderOk, NoEmptyBlocks, RingSteps;
    if me.at.step > 0 { NeighbourBegan(g, q, sender, me, me.call, me.at.step - 1); }
    else if me.call > 0 { NeighbourBegan(g, q, sender, me, me.call - 1, 2 * (g.size - 1) - 1); }
    if sender.at.step > 0 { NeighbourBegan(g, q, sender, me, sender.call, sender.at.step - 1); }
    else if sender.call > 0 { NeighbourBegan(g, q, sender, me, sender.call - 1, 2 * (g.size - 1) - 1); }
    OneAhead(g.size, me.call, me.at.step, sender.call, sender.at.step);
    OneAhead(g.size, sender.call, sender.at.step, me.call, me.at.step);
  }

  /** Neighbours differ by at most one step, steps counted across phases and
    calls: a send waits for the descriptor, a receive for the data. */
  lemma NeighbourSkew<T>(g: Ring<T>, s: State<T>, q: nat)
    requires g.Valid() && NoEmptyBlocks(g) && Inv(g, s) && q < g.size
    ensures |s.ranks| == g.size
    ensures -1 <= StepsBegun(g, s.ranks[Next(g.size, q)]) - StepsBegun(g, s.ranks[q]) <= 1
  {
    hide Inv, RankOk, LinkOk, OrderOk, NoEmptyBlocks;
    InvAt(g, s, q);
    InvAt(g, s, Next(g.size, q));
    var a, b := s.ranks[q], s.ranks[Next(g.size, q)];
    OrderAt(g, q, a, b, s.links[Next(g.size, q)]);
    StepBound(g, q, a);
    StepBound(g, Next(g.size, q), b);
    if g.size > 1 { LastStepBegun(g, q, a, b); }
  }

  lemma OrderAt<T>(g: Ring<T>, q: nat, sender: Rank<T>, me: Rank<T>, link: Link<T>)
    requires g.Valid() && q < g.size && LinkOk(g, q, sender, me, link)
    ensures OrderOk(g, q, sender, me)
  {}

  lemma StepBound<T>(g: Ring<T>, r: nat, me: Rank<T>)
    requires g.Valid() && r < g.size && RankOk(g, r, me)
    ensures me.at.step <= 2 * (g.size - 1) && me.call <= |g.calls| && (me.call == |g.calls| ==> me.at.step == 0)
  {}
}
