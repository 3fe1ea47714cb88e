/** Deadlock freedom of the zero-copy ring, although every send waits for its
  receiver's descriptor and the waits go round the ring. */
module ZeroCopyProgress {
  import opened RingArithmetic
  import opened BlockLayout
  import opened Schedule
  import opened Group
  import opened ZeroCopyRing
  import opened ZeroCopyInvariant
  import opened ZeroCopySteps
  import opened ZeroCopyNetwork

  // --- the network can always act on what it holds ----------------------------------

  /** Nothing is in transit on the link; requests may be waiting on it. */
  ghost predicate Quiet<T>(link: Link<T>) {
    && link.sends == [] && link.unread == {} && link.wire == map[] && link.flights == map[] && link.unacked == {}
  }

  lemma NetworkEnabled<T>(g: Ring<T>, s: State<T>, r: nat) returns (l: Label)
    requires g.Valid() && Inv(g, s) && r < g.size && |s.links| == |s.ranks| == g.size && !Quiet(s.links[r])
    ensures Enabled(g, s, l) && !l.Move?
  {
    hide Inv, RankOk, LandedOk, Receives, Sends, Offered, Active, FlightFor, Value, SendsFrom, ReceivesFrom, DescriptorsFrom,
         Outgoing, Unmoved;
    TrafficAt(g, s, r);
    var q, link := Prev(g.size, r), s.links[r];
    if link.sends != [] {
      l := Match(r);
    } else if x :| x in link.unread {
      ReadEnabled(g, s, r, x.0, x.1);
      l := Read(r, x.0, x.1);
    } else if x :| x in link.wire {
      l := Land(r, x.0, x.1);
    } else if id :| id in link.flights {
      assert !Unmoved(link, id) by { NothingMoves(link, id); }
      l := Arrive(r, id);
    } else {
      var id :| id in link.unacked;
      l := Ack(r, id);
    }
  }

  lemma NothingMoves<T>(link: Link<T>, id: Id)
    requires (forall x :: x !in link.unread) && (forall x :: x !in link.wire)
    ensures !Unmoved(link, id)
  {}

  lemma ReadEnabled<T>(g: Ring<T>, s: State<T>, r: nat, id: Id, j: nat)
    requires g.Valid() && Inv(g, s) && r < g.size && |s.links| == |s.ranks| == g.size && (id, j) in s.links[r].unread
    ensures Enabled(g, s, Read(r, id, j))
  {
    hide Inv, RankOk, TrafficOk, Receives, Sends, Offered, Value, Outgoing;
    TrafficAt(g, s, r);
    RotationsAgree(g.size, r, 0);
    var me, q, link := s.ranks[r], Prev(g.size, r), s.links[r];
    var w := Receives(g, r, me);
    ReadSource(g, r, w, Offered(g, q, s.ranks[q], w), me, Sends(g, q, s.ranks[q]), s.ranks[q].sent, link, id, j);
    SourceValue(g, q, s.ranks[q], id, j);
  }

  // --- what a blocked rank waits for --------------------------------------------------

  /** With nothing in transit every posted send has been reported and every
    receive that was sent to has been, too. */
  lemma QuietReports<T>(g: Ring<T>, r: nat, w: Window, offered: nat, me: Rank<T>, out: Window, sent: set<Id>, link: Link<T>)
    requires g.Valid() && r < g.size && TrafficOk(g, r, w, offered, me, out, sent, link) && Quiet(link)
    ensures forall id :: Outgoing(out, id) ==> id in sent
    ensures w.waited < offered && g.IdOk(r, IdAt(w, w.waited)) ==> IdAt(w, w.waited) in me.received
    ensures |link.descriptors| == w.posted - offered
  {
    hide LandedOk, SendsFrom, ReceivesFrom, DescriptorsFrom, Outgoing, Ring.IdOk;
    if w.waited < offered && g.IdOk(r, IdAt(w, w.waited)) {
      assert Active(g, r, w, link, IdAt(w, w.waited));
    }
  }

  /** A rank in its call that cannot move waits to post a send, or waits for
    a receive; which neighbour it waits for has not come as far. */
  lemma Blocked<T>(g: Ring<T>, s: State<T>, r: nat)
    requires g.Valid() && Inv(g, s) && r < g.size && |s.ranks| == |s.links| == g.size && s.ranks[r].call < |g.calls|
    requires Quiet(s.links[r]) && Quiet(s.links[Next(g.size, r)]) && !MoveEnabled(g, s, r)
    ensures Running(g, s, r)
    ensures Acting(g, s, r, PostSends) || Acting(g, s, r, WaitReceives)
    ensures Acting(g, s, r, PostSends) ==>
              var w := Receives(g, Next(g.size, r), s.ranks[Next(g.size, r)]);
              w.posted == Offered(g, r, s.ranks[r], w)
    ensures Acting(g, s, r, WaitReceives) ==>
              var w := Receives(g, r, s.ranks[r]);
              Offered(g, Prev(g.size, r), s.ranks[Prev(g.size, r)], w) == w.waited == s.ranks[r].at.piece < w.posted
  {
    hide Inv, TrafficOk, Receives, Sends, Offered, Outgoing, ResultsOk, BufferOk;
    TrafficAt(g, s, r);
    TrafficAt(g, s, Next(g.size, r));
    RotationsAgree(g.size, r, 0);
    var me, q, n := s.ranks[r], Prev(g.size, r), Next(g.size, r);
    assert Running(g, s, r) by { WorkSize(g, r, me); }
    hide RankOk;
    var w, wn := Receives(g, r, me), Receives(g, n, s.ranks[n]);
    QuietReports(g, r, w, Offered(g, q, s.ranks[q], w), me, Sends(g, q, s.ranks[q]), s.ranks[q].sent, s.links[r]);
    QuietReports(g, n, wn, Offered(g, r, me, wn), s.ranks[n], Sends(g, r, me), me.sent, s.links[n]);
    WaitedAtMostOffered(g, s, r);
    if Acting(g, s, r, WaitSends) {
      SendIsOutgoing(g, s, r);
    } else if Acting(g, s, r, WaitReceives) {
      CallPiece(g, r, me, WaitReceives, me.(at := Me(g, s, r).Advance(me.at)));
    }
  }

  lemma WorkSize<T>(g: Ring<T>, r: nat, me: Rank<T>)
    requires g.Valid() && r < g.size && RankOk(g, r, me) && me.call < |g.calls|
    ensures me.status == Success && g.LocalOf(r, me.call).CursorOk(me.at) && |me.work| == g.calls[me.call].count
  {}

  lemma SendIsOutgoing<T>(g: Ring<T>, s: State<T>, r: nat)
    requires g.Valid() && Acting(g, s, r, WaitSends)
    ensures Outgoing(Sends(g, r, s.ranks[r]), Due(g, s, r))
  {
    hide Receives, Sends;
    var me := s.ranks[r];
    CallPiece(g, r, me, WaitSends, me.(at := Me(g, s, r).Advance(me.at)));
  }

  lemma WaitedAtMostOffered<T>(g: Ring<T>, s: State<T>, r: nat)
    requires g.Valid() && Inv(g, s) && r < g.size
    ensures |s.ranks| == g.size
    ensures var w := Receives(g, r, s.ranks[r]); w.waited <= Offered(g, Prev(g.size, r), s.ranks[Prev(g.size, r)], w) <= w.posted
  {
    hide Inv, RankOk, FlightsOk, LandedOk, SourcesOk, Receives, Sends, Offered, SendsFrom, ReceivesFrom, DescriptorsFrom;
    TrafficAt(g, s, r);
  }

  // --- nobody waits for a rank that is further on ------------------------------------------

  /** The receiver of a send that finds no descriptor has not posted the piece. */
  lemma ReceiverBehind<T>(g: Ring<T>, q: nat, sender: Rank<T>, me: Rank<T>)
    requires g.Valid() && q < g.size && OrderOk(g, q, sender, me)
    requires sender.call < |g.calls| && me.call <= |g.calls|
    requires var loc := g.LocalOf(q, sender.call);
             loc.CursorOk(sender.at) && loc.Acting(sender.at) && sender.at.stage == PostSends
    requires var w := Receives(g, Next(g.size, q), me); w.posted == Offered(g, q, sender, w)
    ensures me.call < |g.calls|
    ensures me.call < sender.call || (me.call == sender.call && me.at.step <= sender.at.step)
    ensures me.call == sender.call && me.at.step == sender.at.step ==>
              var loc := g.LocalOf(Next(g.size, q), me.call);
              loc.RecvPosted(me.at, me.at.step) == sender.at.piece < loc.RecvPieces(me.at.step)
  {
    var r, c, t := Next(g.size, q), sender.call, sender.at.step;
    g.LocalOf(q, c).ActingAdvance(sender.at, t);
    g.SameLink(q, c, t);
    assert WaitedAt(g, r, me.call, me.at, c, t) <= SentAt(g, q, sender.call, sender.at, c, t);
    hide OrderOk, Shape.Pieces, Local.Acting, Local.CursorOk;
  }

  /** The sender of a receive that was not sent to has not posted the piece. */
  lemma SenderBehind<T>(g: Ring<T>, q: nat, sender: Rank<T>, me: Rank<T>)
    requires g.Valid() && q < g.size && OrderOk(g, q, sender, me)
    requires sender.call <= |g.calls| && me.call < |g.calls|
    requires var loc := g.LocalOf(Next(g.size, q), me.call);
             loc.CursorOk(me.at) && loc.Acting(me.at) && me.at.stage == WaitReceives
    requires var w := Receives(g, Next(g.size, q), me); Offered(g, q, sender, w) == w.waited
    ensures sender.call < |g.calls|
    ensures sender.call < me.call || (sender.call == me.call && sender.at.step <= me.at.step)
    ensures sender.call == me.call && sender.at.step == me.at.step ==>
              var loc := g.LocalOf(q, sender.call);
              loc.SendPosted(sender.at, sender.at.step) == me.at.piece < loc.SendPieces(sender.at.step)
  {
    var r, c, t := Next(g.size, q), me.call, me.at.step;
    g.LocalOf(r, c).ActingAdvance(me.at, t);
    g.LocalOf(r, c).OutstandingBound(me.at, t);
    g.SameLink(q, c, t);
    hide OrderOk, Shape.Pieces, Local.Acting, Local.CursorOk;
  }

  /** Where a blocked rank stands when it has posted `p` pieces of its step. */
  lemma BlockedPiece(loc: Local, at: Cursor, p: nat)
    requires loc.Valid() && loc.CursorOk(at) && loc.Acting(at)
    ensures at.stage == PostSends || at.stage == WaitReceives ==>
              loc.RecvPosted(at, at.step) == p < loc.RecvPieces(at.step) ==> at.piece < p
    ensures at.stage == WaitReceives ==> loc.SendPosted(at, at.step) == p < loc.SendPieces(at.step) ==> at.piece < p
    ensures at.stage == PostSends ==> loc.SendPosted(at, at.step) == at.piece
  {}

  ghost predicate Behind<T>(a: Rank<T>, b: Rank<T>) {
    a.call < b.call || (a.call == b.call && (a.at.step < b.at.step || (a.at.step == b.at.step && a.at.piece < b.at.piece)))
  }

  /** If nothing is in transit, a blocked rank has a neighbour that can move
    or is behind it. */
  lemma WaitsForBehind<T>(g: Ring<T>, s: State<T>, r: nat) returns (x: nat)
    requires g.Valid() && Inv(g, s) && r < g.size && |s.ranks| == |s.links| == g.size && s.ranks[r].call < |g.calls|
    requires (forall q :: 0 <= q < g.size ==> Quiet(s.links[q])) && !MoveEnabled(g, s, r)
    ensures x < g.size && s.ranks[x].call < |g.calls|
    ensures MoveEnabled(g, s, x) || Behind(s.ranks[x], s.ranks[r])
  {
    hide Inv, RankOk, TrafficOk, OrderOk, Receives, Sends, Offered, Outgoing, Quiet, Local.CursorOk, Local.Acting;
    RotationsAgree(g.size, r, 0);
    var me, q, n := s.ranks[r], Prev(g.size, r), Next(g.size, r);
    Blocked(g, s, r);
    InvAt(g, s, r);
    CallsWithin(g, s, q);
    CallsWithin(g, s, n);
    if Acting(g, s, r, PostSends) {
      x := n;
      ReceiverBehind(g, r, me, s.ranks[n]);
      if !MoveEnabled(g, s, n) {
        Blocked(g, s, n);
        BlockedPiece(Me(g, s, n), s.ranks[n].at, me.at.piece);
      }
    } else {
      x := q;
      SenderBehind(g, q, s.ranks[q], me);
      if !MoveEnabled(g, s, q) {
        Blocked(g, s, q);
        BlockedPiece(Me(g, s, q), s.ranks[q].at, me.at.piece);
      }
    }
  }

  lemma CallsWithin<T>(g: Ring<T>, s: State<T>, r: nat)
    requires g.Valid() && Inv(g, s) && r < g.size
    ensures |s.ranks| == g.size && s.ranks[r].call <= |g.calls|
  {}

  lemma {:induction false} FindMove<T>(g: Ring<T>, s: State<T>, r: nat) returns (e: nat)
    requires g.Valid() && Inv(g, s) && r < g.size && |s.ranks| == |s.links| == g.size && s.ranks[r].call < |g.calls|
    requires forall q :: 0 <= q < g.size ==> Quiet(s.links[q])
    ensures e < g.size && MoveEnabled(g, s, e)
    decreases s.ranks[r].call, s.ranks[r].at.step, s.ranks[r].at.piece
  {
    hide Inv, MoveEnabled, Quiet;
    if MoveEnabled(g, s, r) {
      e := r;
    } else {
      var x := WaitsForBehind(g, s, r);
      if MoveEnabled(g, s, x) {
        e := x;
      } else {
        e := FindMove(g, s, x);
      }
    }
  }

  lemma FindEnabled<T>(g: Ring<T>, s: State<T>, r: nat) returns (l: Label)
    requires g.Valid() && Inv(g, s) && r < g.size && s.ranks[r].call < |g.calls|
    ensures Enabled(g, s, l)
  {
    hide Inv, MoveEnabled, RankOk, LinkOk, Quiet, Enabled;
    CallsWithin(g, s, r);
    InvAt(g, s, r);
    if q: nat :| q < g.size && !Quiet(s.links[q]) {
      l := NetworkEnabled(g, s, q);
    } else {
      var e := FindMove(g, s, r);
      MoveIsEnabled(g, s, e);
      l := Move(e);
    }
  }

  lemma MoveIsEnabled<T>(g: Ring<T>, s: State<T>, r: nat)
    requires g.Valid() && MoveEnabled(g, s, r)
    ensures Enabled(g, s, Move(r))
  {}

  /** Deadlock freedom: while some rank has a call left, some rank or the
    network can move. */
  lemma NoDeadlock<T>(g: Ring<T>, s: State<T>)
    requires g.Valid() && Inv(g, s)
    requires exists r :: 0 <= r < g.size && s.ranks[r].call < |g.calls|
    ensures exists l :: Enabled(g, s, l)
  {
    var r :| 0 <= r < g.size && s.ranks[r].call < |g.calls|;
    var l := FindEnabled(g, s, r);
  }
}
