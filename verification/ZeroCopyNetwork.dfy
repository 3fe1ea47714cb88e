/** Every step of the network keeps the invariant of the zero-copy ring. */
module ZeroCopyNetwork {
  import opened RingArithmetic
  import opened BlockLayout
  import opened Tags
  import opened Schedule
  import opened Group
  import opened Buffers
  import opened ZeroCopyRing
  import opened ZeroCopyInvariant
  import opened ZeroCopySteps

  // --- frames -----------------------------------------------------------------------

  lemma QueuesFrame<T>(g: Ring<T>, r: nat, w: Window, offered: nat, link: Link<T>, link': Link<T>)
    requires g.Valid() && r < g.size && QueuesOk(g, r, w, offered, link)
    requires link'.sends == link.sends && link'.receives == link.receives && link'.descriptors == link.descriptors
    ensures QueuesOk(g, r, w, offered, link')
    ensures forall x :: Active(g, r, w, link', x) <==> Active(g, r, w, link, x)
  {
    hide SendsFrom, ReceivesFrom, DescriptorsFrom, Ring.IdOk;
  }

  lemma LandedFrame<T>(g: Ring<T>, r: nat, w: Window, work: seq<T>, temp: map<nat, T>, link: Link<T>, link': Link<T>)
    requires g.Valid() && r < g.size && LandedOk(g, r, w, work, temp, link)
    requires link'.unread == link.unread && link'.wire == link.wire
    requires forall x :: Active(g, r, w, link', x) <==> Active(g, r, w, link, x)
    ensures LandedOk(g, r, w, work, temp, link')
  {
    hide Value, Target, Holds, Matched, Ring.IdOk;
  }

  /** Receiver and link, as far as the network is concerned. */
  lemma TrafficAt<T>(g: Ring<T>, s: State<T>, r: nat)
    requires g.Valid() && Inv(g, s) && r < g.size
    ensures |s.ranks| == |s.links| == g.size
    ensures var me, q := s.ranks[r], s.ranks[Prev(g.size, r)];
            var w := Receives(g, r, me);
            && RankOk(g, r, me) && RankOk(g, Prev(g.size, r), q) && w.call == me.call
            && TrafficOk(g, r, w, Offered(g, Prev(g.size, r), q, w), me, Sends(g, Prev(g.size, r), q), q.sent, s.links[r])
  {
    hide RankOk, TrafficOk, OrderOk;
    InvAt(g, s, r);
  }

  /** A step of the network that changes one link and its receiver's memory or
    completions. */
  /** What depends on a rank's place alone. */
  lemma SamePosition<T>(g: Ring<T>, r: nat, me: Rank<T>, me': Rank<T>, q: nat, other: Rank<T>)
    requires g.Valid() && r < g.size && q < g.size && me'.call == me.call && me'.at == me.at
    ensures Receives(g, r, me') == Receives(g, r, me) && Sends(g, r, me') == Sends(g, r, me)
    ensures me'.sent == me.sent ==> SameSends(g, r, me, me')
    ensures me'.work == me.work && me'.temp == me.temp && me'.received == me.received ==> SameReceives(g, r, me, me')
    ensures Next(g.size, q) == r && OrderOk(g, q, other, me) ==> OrderOk(g, q, other, me')
    ensures Next(g.size, r) == q && OrderOk(g, r, me, other) ==> OrderOk(g, r, me', other)
    ensures forall w :: Offered(g, r, me', w) == Offered(g, r, me, w)
  {}

  lemma NetworkStep<T>(g: Ring<T>, s: State<T>, s': State<T>, r: nat, me': Rank<T>, link': Link<T>)
    requires g.Valid() && Inv(g, s) && r < g.size && s' == State(s.ranks[r := me'], s.links[r := link'])
    requires me'.call == s.ranks[r].call && me'.at == s.ranks[r].at && me'.sent == s.ranks[r].sent && RankOk(g, r, me')
    requires var q := s.ranks[Prev(g.size, r)];
             var w := Receives(g, r, s.ranks[r]);
             TrafficOk(g, r, w, Offered(g, Prev(g.size, r), q, w), me', Sends(g, Prev(g.size, r), q), q.sent, link')
    requires g.size > 1
    ensures Inv(g, s')
  {
    hide Inv, RankOk, TrafficOk, OrderOk, SameSends, Receives, Sends, Offered;
    InvAt(g, s, r);
    var me, q := s.ranks[r], Prev(g.size, r);
    SamePosition(g, r, me, me', q, s.ranks[q]);
    SenderFrame(g, r, me, me', s.ranks[Next(g.size, r)], s.links[Next(g.size, r)]);
    Assemble(g, s, s', r);
  }

  // --- a send meets a receive -----------------------------------------------------

  /** The oldest send and the oldest receive are for the same piece, and the
    receive is what the send was made for. */
  lemma Aligned<T>(g: Ring<T>, r: nat, w: Window, offered: nat, link: Link<T>)
    requires g.Valid() && r < g.size && QueuesOk(g, r, w, offered, link) && link.sends != []
    ensures link.receives != [] && 0 <= Matched(w, link) < w.posted
    ensures var id := IdAt(w, Matched(w, link));
            && Named(g, r, id) && link.sends[0] == SendFor(g, r, id) && link.receives[0] == ReceiveFor(g, r, id).0
            && Launch(link).flights == link.flights[id := FlightFor(g, r, id)]
            && Launch(link).unread == link.unread + Elements(id, FlightFor(g, r, id).size)
  {
    hide Named, SendFor, ReceiveFor, SendsFrom, ReceivesFrom, DescriptorsFrom, FlightFor;
    MoreSends(g, r, w.call, w.step, Matched(w, link), link.sends, link.sends[0]);
    MoreReceives(g, r, w.call, w.step, Matched(w, link), link.receives, link.receives[0]);
    SameFlight(g, r, IdAt(w, Matched(w, link)));
  }

  lemma SameFlight<T>(g: Ring<T>, r: nat, id: Id)
    requires g.Valid() && r < g.size && Named(g, r, id)
    ensures var s, w, f := SendFor(g, r, id), ReceiveFor(g, r, id).0, FlightFor(g, r, id);
            && s.id == w.id == id && s.lo == f.lo && s.size == f.size && f.request == id && f.ok
            && f.target == (if s.mode.Eager? then w.buffer else s.target)
            && s.tag == w.tag && s.mode == w.mode && (s.mode.Eager? ==> s.size <= w.buffer.size)
  {
    hide Ring.IdOk, Ring.TagOf, Local.RecvFirst;
  }

  lemma LaunchQueues<T>(g: Ring<T>, r: nat, w: Window, offered: nat, link: Link<T>)
    requires g.Valid() && r < g.size && QueuesOk(g, r, w, offered, link) && link.sends != [] && link.receives != []
    ensures QueuesOk(g, r, w, offered, Launch(link)) && Matched(w, Launch(link)) == Matched(w, link) + 1
  {
    hide SendsFrom, ReceivesFrom, DescriptorsFrom;
    MoreSends(g, r, w.call, w.step, Matched(w, link), link.sends, link.sends[0]);
    MoreReceives(g, r, w.call, w.step, Matched(w, link), link.receives, link.receives[0]);
  }

  /** `link'` is `link` with the flight of one more piece. */
  ghost predicate OneMore<T>(g: Ring<T>, r: nat, w: Window, link: Link<T>, link': Link<T>, id: Id)
    requires g.Valid() && r < g.size
  {
    && g.IdOk(r, id) && !Active(g, r, w, link, id)
    && (forall x :: Active(g, r, w, link', x) <==> Active(g, r, w, link, x) || x == id)
    && link'.flights == link.flights[id := FlightFor(g, r, id)] && link'.wire == link.wire
    && link'.unread == link.unread + Elements(id, FlightFor(g, r, id).size)
  }

  lemma LaunchIsOneMore<T>(g: Ring<T>, r: nat, w: Window, offered: nat, link: Link<T>)
    requires g.Valid() && r < g.size && QueuesOk(g, r, w, offered, link) && link.sends != [] && link.receives != []
    ensures OneMore(g, r, w, link, Launch(link), IdAt(w, Matched(w, link)))
  {
    Aligned(g, r, w, offered, link);
    LaunchQueues(g, r, w, offered, link);
    var m := Matched(w, link);
    assert w.waited <= m;
    assert Matched(w, Launch(link)) == m + 1;
    hide QueuesOk, FlightFor, SendFor, ReceiveFor, Ring.IdOk, Ring.TagOf, Matched, Elements;
  }

  lemma NewFlight<T>(g: Ring<T>, r: nat, w: Window, received: map<Id, bool>, link: Link<T>, link': Link<T>, id: Id)
    requires g.Valid() && r < g.size && FlightsOk(g, r, w, received, link) && OneMore(g, r, w, link, link', id)
    ensures FlightsOk(g, r, w, received, link')
  {
    hide Active, Ring.IdOk, FlightFor, Value;
  }

  lemma NothingLanded<T>(g: Ring<T>, r: nat, w: Window, work: seq<T>, temp: map<nat, T>, link: Link<T>, link': Link<T>, id: Id)
    requires g.Valid() && r < g.size && LandedOk(g, r, w, work, temp, link) && OneMore(g, r, w, link, link', id)
    ensures LandedOk(g, r, w, work, temp, link')
  {
    assert FlightFor(g, r, id).size == g.LocalOf(r, id.call).RecvLength(id.step, id.piece);
    forall x: Id, j: nat | Active(g, r, w, link', x) && j < g.LocalOf(r, x.call).RecvLength(x.step, x.piece)
      ensures (x, j) !in link'.unread && (x, j) !in link'.wire ==>
                Holds(work, temp, Target(g.LocalOf(r, x.call), x.step, x.piece), j, Value(g, r, x, j))
    {
      assert Active(g, r, w, link, x) || x == id;
      assert g.IdOk(r, x);
      hide Active, Ring.IdOk, FlightFor, Value, Target, Holds;
    }
  }

  lemma MatchTraffic<T>(g: Ring<T>, r: nat, w: Window, offered: nat, me: Rank<T>, out: Window, sent: set<Id>, link: Link<T>)
    requires g.Valid() && r < g.size && TrafficOk(g, r, w, offered, me, out, sent, link)
    requires link.sends != [] && link.receives != []
    ensures TrafficOk(g, r, w, offered, me, out, sent, Launch(link))
  {
    var id := IdAt(w, Matched(w, link));
    Aligned(g, r, w, offered, link);
    LaunchIsOneMore(g, r, w, offered, link);
    LaunchQueues(g, r, w, offered, link);
    assert link.sends[0].id == id by { hide Ring.IdOk, Ring.TagOf; }
    hide QueuesOk, FlightsOk, LandedOk, OneMore, SendFor, ReceiveFor, FlightFor;
    NewFlight(g, r, w, me.received, link, Launch(link), id);
    NothingLanded(g, r, w, me.work, me.temp, link, Launch(link), id);
  }

  lemma MatchInv<T>(g: Ring<T>, s: State<T>, r: nat)
    requires g.Valid() && Inv(g, s) && Enabled(g, s, Match(r))
    ensures Inv(g, Step(g, s, Match(r)))
  {
    hide Inv, RankOk, LinkOk, TrafficOk, Receives, Sends, Offered, Launch, MoveEnabled;
    var me, q, link := s.ranks[r], Prev(g.size, r), s.links[r];
    TrafficAt(g, s, r);
    var w, out := Receives(g, r, me), Sends(g, q, s.ranks[q]);
    MatchTraffic(g, r, w, Offered(g, q, s.ranks[q], w), me, out, s.ranks[q].sent, link);
    LaunchHere(g, r, w, Offered(g, q, s.ranks[q], w), me, out, s.ranks[q].sent, link);
    NetworkStep(g, s, Step(g, s, Match(r)), r, me, Launch(link));
  }

  lemma LaunchHere<T>(g: Ring<T>, r: nat, w: Window, offered: nat, me: Rank<T>, out: Window, sent: set<Id>, link: Link<T>)
    requires g.Valid() && r < g.size && TrafficOk(g, r, w, offered, me, out, sent, link) && link.sends != []
    ensures g.size > 1
  {
    hide FlightsOk, LandedOk, SourcesOk;
    Aligned(g, r, w, offered, link);
  }

  // --- an element is read -----------------------------------------------------------

  /** A sender's outstanding sends are of the block it sends in its step. */
  lemma OutgoingIsDue<T>(g: Ring<T>, q: nat, sender: Rank<T>, id: Id)
    requires g.Valid() && q < g.size && Outgoing(Sends(g, q, sender), id)
    ensures id.call == sender.call < |g.calls| && id.step == sender.at.step
  {}

  lemma SourceValue<T>(g: Ring<T>, q: nat, sender: Rank<T>, id: Id, j: nat)
    requires g.Valid() && q < g.size && RankOk(g, q, sender) && Outgoing(Sends(g, q, sender), id)
    requires g.IdOk(Next(g.size, q), id) && j < g.LocalOf(Next(g.size, q), id.call).RecvLength(id.step, id.piece)
    ensures var i := g.LocalOf(Next(g.size, q), id.call).RecvFirst(id.step, id.piece) + j;
            i < |sender.work| && sender.work[i] == Value(g, Next(g.size, q), id, j)
  {
    hide Receives, ResultsOk, Sends, Outgoing, Ring.Sent, Ring.Expected, Ring.Lent, Local.SendFirst, Local.RecvFirst,
         Local.SendBlock, Local.RecvBlock, Shape.Pieces;
    OutgoingIsDue(g, q, sender, id);
    var loc := g.LocalOf(q, id.call);
    g.SameLink(q, id.call, id.step);
    var i := loc.SendFirst(id.step, id.piece) + j;
    loc.RegionsCover(id.step, id.piece, i);
    g.SendValue(q, id.call, sender.at, i);
  }

  lemma ReadFlights<T>(g: Ring<T>, r: nat, w: Window, me: Rank<T>, link: Link<T>, link': Link<T>, id: Id, j: nat, value: T)
    requires g.Valid() && r < g.size && FlightsOk(g, r, w, me.received, link) && LandedOk(g, r, w, me.work, me.temp, link)
    requires (id, j) in link.unread && id in link.flights && g.IdOk(r, id)
    requires j < g.LocalOf(r, id.call).RecvLength(id.step, id.piece) && value == Value(g, r, id, j)
    requires link' == link.(unread := link.unread - {(id, j)}, wire := link.wire[(id, j) := value])
    requires forall x :: Active(g, r, w, link', x) <==> Active(g, r, w, link, x)
    ensures FlightsOk(g, r, w, me.received, link') && LandedOk(g, r, w, me.work, me.temp, link')
  {
    hide Ring.IdOk, FlightFor, Value, Target, Holds, Active;
  }

  lemma ReadTraffic<T>(g: Ring<T>, r: nat, w: Window, offered: nat, me: Rank<T>, out: Window, sent: set<Id>, link: Link<T>,
                       link': Link<T>, id: Id, j: nat, value: T)
    requires g.Valid() && r < g.size && TrafficOk(g, r, w, offered, me, out, sent, link)
    requires (id, j) in link.unread && id in link.flights && g.IdOk(r, id)
    requires j < g.LocalOf(r, id.call).RecvLength(id.step, id.piece) && value == Value(g, r, id, j)
    requires link' == link.(unread := link.unread - {(id, j)}, wire := link.wire[(id, j) := value])
    ensures TrafficOk(g, r, w, offered, me, out, sent, link')
  {
    hide QueuesOk, FlightsOk, LandedOk, Ring.IdOk, Value, Active;
    QueuesFrame(g, r, w, offered, link, link');
    ReadFlights(g, r, w, me, link, link', id, j, value);
  }

  /** What is unread belongs to an outstanding send. */
  lemma ReadSource<T>(g: Ring<T>, r: nat, w: Window, offered: nat, me: Rank<T>, out: Window, sent: set<Id>, link: Link<T>,
                      id: Id, j: nat)
    requires g.Valid() && r < g.size && TrafficOk(g, r, w, offered, me, out, sent, link) && (id, j) in link.unread
    ensures id in link.flights && link.flights[id] == FlightFor(g, r, id) && Outgoing(out, id)
    ensures g.IdOk(r, id) && j < g.LocalOf(r, id.call).RecvLength(id.step, id.piece) && g.size > 1
  {
    hide QueuesOk, LandedOk, Outgoing;
    FlyingTo(g, r, w, me.received, link, id);
    hide FlightsOk;
  }

  lemma ReadInv<T>(g: Ring<T>, s: State<T>, r: nat, id: Id, j: nat)
    requires g.Valid() && Inv(g, s) && Enabled(g, s, Read(r, id, j))
    ensures Inv(g, Step(g, s, Read(r, id, j)))
  {
    hide Inv, RankOk, TrafficOk, Receives, Sends, Offered;
    TrafficAt(g, s, r);
    RotationsAgree(g.size, r, 0);
    var me, q, link := s.ranks[r], Prev(g.size, r), s.links[r];
    var value := s.ranks[q].work[link.flights[id].lo + j];
    var link' := link.(unread := link.unread - {(id, j)}, wire := link.wire[(id, j) := value]);
    var w := Receives(g, r, me);
    ReadKeeps(g, q, r, s.ranks[q], w, Offered(g, q, s.ranks[q], w), me, link, link', id, j, value);
    NetworkStep(g, s, Step(g, s, Read(r, id, j)), r, me, link');
  }

  lemma ReadKeeps<T>(g: Ring<T>, q: nat, r: nat, sender: Rank<T>, w: Window, offered: nat, me: Rank<T>, link: Link<T>,
                     link': Link<T>, id: Id, j: nat, value: T)
    requires g.Valid() && q < g.size && r == Next(g.size, q) && RankOk(g, q, sender)
    requires TrafficOk(g, r, w, offered, me, Sends(g, q, sender), sender.sent, link)
    requires (id, j) in link.unread && id in link.flights && link.flights[id].lo + j < |sender.work|
    requires value == sender.work[link.flights[id].lo + j]
    requires link' == link.(unread := link.unread - {(id, j)}, wire := link.wire[(id, j) := value])
    ensures TrafficOk(g, r, w, offered, me, Sends(g, q, sender), sender.sent, link') && g.size > 1
  {
    hide RankOk, TrafficOk, Sends, Value, Outgoing;
    ReadSource(g, r, w, offered, me, Sends(g, q, sender), sender.sent, link, id, j);
    SourceValue(g, q, sender, id, j);
    ReadTraffic(g, r, w, offered, me, Sends(g, q, sender), sender.sent, link, link', id, j, value);
  }

  // --- an element lands -------------------------------------------------------------

  /** Two elements of a step that have the same place have the same value. */
  lemma SamePlace<T>(g: Ring<T>, r: nat, id: Id, j: nat, id': Id, j': nat)
    requires g.Valid() && r < g.size && g.IdOk(r, id) && g.IdOk(r, id') && id.call == id'.call && id.step == id'.step
    requires j < g.LocalOf(r, id.call).RecvLength(id.step, id.piece)
    requires j' < g.LocalOf(r, id.call).RecvLength(id.step, id'.piece)
    requires var loc := g.LocalOf(r, id.call);
             Target(loc, id.step, id.piece).lo + j == Target(loc, id.step, id'.piece).lo + j'
    ensures Value(g, r, id, j) == Value(g, r, id', j')
  {
    hide Ring.Sent, Local.RecvBlock, Shape.Pieces, Local.RecvLength;
  }

  lemma WriteHolds<T>(g: Ring<T>, r: nat, w: Window, link: Link<T>, me: Rank<T>, id: Id, j: nat, id': Id, j': nat)
    requires g.Valid() && r < g.size && Active(g, r, w, link, id) && Active(g, r, w, link, id')
    requires j < g.LocalOf(r, id.call).RecvLength(id.step, id.piece)
    requires j' < g.LocalOf(r, id'.call).RecvLength(id'.step, id'.piece)
    requires |me.work| == g.calls[id.call].count
    requires var region := Target(g.LocalOf(r, id'.call), id'.step, id'.piece);
             (id', j') == (id, j) || Holds(me.work, me.temp, region, j', Value(g, r, id', j'))
    ensures var region := Target(g.LocalOf(r, id.call), id.step, id.piece);
            var me' := Write(me, region, j, Value(g, r, id, j));
            Holds(me'.work, me'.temp, Target(g.LocalOf(r, id'.call), id'.step, id'.piece), j', Value(g, r, id', j'))
  {
    var loc := g.LocalOf(r, id.call);
    if Target(loc, id.step, id.piece).lo + j == Target(loc, id.step, id'.piece).lo + j' {
      SamePlace(g, r, id, j, id', j');
    }
    assert Target(loc, id.step, id.piece).temporary == Target(loc, id.step, id'.piece).temporary;
    assert !Target(loc, id.step, id.piece).temporary ==> Target(loc, id.step, id.piece).lo + j < |me.work|;
    hide Value, Ring.IdOk, Target, Local.RecvLength;
  }

  lemma LandedAfter<T>(g: Ring<T>, r: nat, w: Window, me: Rank<T>, received: map<Id, bool>, link: Link<T>, id: Id, j: nat)
    requires g.Valid() && r < g.size && FlightsOk(g, r, w, received, link) && LandedOk(g, r, w, me.work, me.temp, link)
    requires (id, j) in link.wire && id in link.flights && Active(g, r, w, link, id)
    requires j < g.LocalOf(r, id.call).RecvLength(id.step, id.piece) && |me.work| == g.calls[id.call].count
    ensures var me' := Write(me, Target(g.LocalOf(r, id.call), id.step, id.piece), j, Value(g, r, id, j));
            LandedOk(g, r, w, me'.work, me'.temp, link.(wire := link.wire - {(id, j)}))
  {
    var me' := Write(me, Target(g.LocalOf(r, id.call), id.step, id.piece), j, Value(g, r, id, j));
    var link' := link.(wire := link.wire - {(id, j)});
    hide FlightsOk, Write, Value, Target, Holds, Ring.IdOk, Local.RecvLength;
    forall x: Id, k: nat | Active(g, r, w, link', x) && k < g.LocalOf(r, x.call).RecvLength(x.step, x.piece)
      ensures (x, k) !in link'.unread && (x, k) !in link'.wire ==>
                Holds(me'.work, me'.temp, Target(g.LocalOf(r, x.call), x.step, x.piece), k, Value(g, r, x, k))
    {
      assert Active(g, r, w, link, x);
      hide Active;
      if (x, k) !in link'.unread && (x, k) !in link'.wire {
        assert (x, k) == (id, j) || Holds(me.work, me.temp, Target(g.LocalOf(r, x.call), x.step, x.piece), k, Value(g, r, x, k));
        WriteHolds(g, r, w, link, me, id, j, x, k);
      }
    }
  }

  lemma FlightsAfterLand<T>(g: Ring<T>, r: nat, w: Window, received: map<Id, bool>, link: Link<T>, link': Link<T>, id: Id,
                            j: nat)
    requires g.Valid() && r < g.size && FlightsOk(g, r, w, received, link)
    requires link' == link.(wire := link.wire - {(id, j)})
    requires forall x :: Active(g, r, w, link', x) <==> Active(g, r, w, link, x)
    ensures FlightsOk(g, r, w, received, link')
  {
    hide Value, FlightFor, Ring.IdOk, Active;
  }

  lemma OnTheWire<T>(g: Ring<T>, r: nat, w: Window, received: map<Id, bool>, link: Link<T>, id: Id, j: nat)
    requires g.Valid() && r < g.size && FlightsOk(g, r, w, received, link) && (id, j) in link.wire
    ensures Active(g, r, w, link, id) && id in link.flights && id.call == w.call
    ensures j < g.LocalOf(r, id.call).RecvLength(id.step, id.piece) && link.wire[(id, j)] == Value(g, r, id, j)
    ensures link.flights[id].target == Target(g.LocalOf(r, id.call), id.step, id.piece)
  {
    hide Value, Target;
  }

  lemma LandTraffic<T>(g: Ring<T>, r: nat, w: Window, offered: nat, me: Rank<T>, me': Rank<T>, out: Window, sent: set<Id>,
                       link: Link<T>, link': Link<T>, id: Id, j: nat)
    requires g.Valid() && r < g.size && TrafficOk(g, r, w, offered, me, out, sent, link)
    requires (id, j) in link.wire && w.call < |g.calls| && |me.work| == g.calls[w.call].count
    requires id in link.flights && me' == Write(me, link.flights[id].target, j, link.wire[(id, j)])
    requires me'.received == me.received && link' == link.(wire := link.wire - {(id, j)})
    ensures TrafficOk(g, r, w, offered, me', out, sent, link')
  {
    hide QueuesOk, FlightsOk, LandedOk, Write, Value, Target, Active, Ring.IdOk, Local.RecvLength;
    OnTheWire(g, r, w, me.received, link, id, j);
    QueuesFrame(g, r, w, offered, link, link');
    LandedAfter(g, r, w, me, me.received, link, id, j);
    FlightsAfterLand(g, r, w, me.received, link, link', id, j);
  }

  /** What is written in place was lent to the transport. */
  lemma LandBufferOk<T>(g: Ring<T>, r: nat, me: Rank<T>, link: Link<T>, id: Id, j: nat, value: T)
    requires g.Valid() && r < g.size && me.call < |g.calls| && g.LocalOf(r, me.call).CursorOk(me.at) && BufferOk(g, r, me)
    requires Active(g, r, Receives(g, r, me), link, id) && j < g.LocalOf(r, id.call).RecvLength(id.step, id.piece)
    ensures BufferOk(g, r, Write(me, Target(g.LocalOf(r, id.call), id.step, id.piece), j, value))
  {
    if g.LocalOf(r, id.call).Gathering(id.step) {
      ActiveIsLent(g, r, me, link, id, j);
    }
    hide Ring.Lent, Ring.Expected, Active, Local.RecvFirst, Local.RecvLength, Local.CursorOk, Shape.Pieces, Shape.Start;
  }

  /** An all-gather transfer writes only into what is lent. */
  lemma ActiveIsLent<T>(g: Ring<T>, r: nat, me: Rank<T>, link: Link<T>, id: Id, j: nat)
    requires g.Valid() && r < g.size && me.call < |g.calls| && g.LocalOf(r, me.call).CursorOk(me.at)
    requires Active(g, r, Receives(g, r, me), link, id) && j < g.LocalOf(r, id.call).RecvLength(id.step, id.piece)
    requires g.LocalOf(r, id.call).Gathering(id.step)
    ensures id.call == me.call
    ensures var i := g.LocalOf(r, id.call).RecvFirst(id.step, id.piece) + j;
            i < g.calls[me.call].count && g.Lent(r, me.call, me.at, i)
  {
    var loc := g.LocalOf(r, id.call);
    var i := loc.RecvFirst(id.step, id.piece) + j;
    assert id.call == me.call && id.step == me.at.step && i < loc.shape.count;
    assert loc.RecvWaited(me.at, me.at.step) <= id.piece < loc.RecvPosted(me.at, me.at.step);
    hide Ring.Lent, Local.RecvFirst, Local.RecvWaited, Local.RecvPosted, Local.CursorOk, Local.RecvBlock, Shape.BlockOf,
         Shape.PieceOf;
    loc.RegionsCover(id.step, id.piece, i);
    g.LentHere(r, me.call, me.at, i);
  }

  lemma LandInv<T>(g: Ring<T>, s: State<T>, r: nat, id: Id, j: nat)
    requires g.Valid() && Inv(g, s) && Enabled(g, s, Land(r, id, j))
    ensures Inv(g, Step(g, s, Land(r, id, j)))
  {
    var me, q, link := s.ranks[r], Prev(g.size, r), s.links[r];
    var region, value := link.flights[id].target, link.wire[(id, j)];
    var me' := Write(me, region, j, value);
    hide Inv, TrafficOk, Receives, Sends, Offered;
    TrafficAt(g, s, r);
    var w := Receives(g, r, me);
    LandRankOk(g, r, w, Offered(g, q, s.ranks[q], w), me, me', Sends(g, q, s.ranks[q]), s.ranks[q].sent, link, id, j);
    hide RankOk;
    LandTraffic(g, r, w, Offered(g, q, s.ranks[q], w), me, me', Sends(g, q, s.ranks[q]), s.ranks[q].sent, link,
                link.(wire := link.wire - {(id, j)}), id, j);
    NetworkStep(g, s, Step(g, s, Land(r, id, j)), r, me', link.(wire := link.wire - {(id, j)}));
  }

  lemma LandRankOk<T>(g: Ring<T>, r: nat, w: Window, offered: nat, me: Rank<T>, me': Rank<T>, out: Window, sent: set<Id>,
                      link: Link<T>, id: Id, j: nat)
    requires g.Valid() && r < g.size && TrafficOk(g, r, w, offered, me, out, sent, link) && RankOk(g, r, me)
    requires w == Receives(g, r, me) && (id, j) in link.wire && id in link.flights
    requires me' == Write(me, link.flights[id].target, j, link.wire[(id, j)])
    ensures RankOk(g, r, me') && me.call < |g.calls| && g.size > 1
  {
    hide BufferOk, ResultsOk, QueuesOk, LandedOk, SourcesOk, Sends, Active;
    OnTheWire(g, r, w, me.received, link, id, j);
    ActiveHere(g, r, me, link, id);
    hide FlightsOk, Receives;
    LandBufferOk(g, r, me, link, id, j, link.wire[(id, j)]);
    hide RankOk;
    WriteFrame(g, r, me, me', link.flights[id].target, j, link.wire[(id, j)]);
  }

  lemma ActiveHere<T>(g: Ring<T>, r: nat, me: Rank<T>, link: Link<T>, id: Id)
    requires g.Valid() && r < g.size && Active(g, r, Receives(g, r, me), link, id)
    ensures me.call == id.call < |g.calls| && g.size > 1
  {}

  lemma WriteFrame<T>(g: Ring<T>, r: nat, me: Rank<T>, me': Rank<T>, region: Region, j: nat, value: T)
    requires g.Valid() && r < g.size && me' == Write(me, region, j, value) && RankOk(g, r, me)
    ensures SameSends(g, r, me, me') && Receives(g, r, me') == Receives(g, r, me)
    ensures me.call < |g.calls| ==> BufferOk(g, r, me') ==> RankOk(g, r, me')
    ensures me.call == |g.calls| ==> RankOk(g, r, me')
  {
    hide BufferOk, ResultsOk;
  }

  // --- completions ------------------------------------------------------------------

  lemma FlyingTo<T>(g: Ring<T>, r: nat, w: Window, received: map<Id, bool>, link: Link<T>, id: Id)
    requires g.Valid() && r < g.size && FlightsOk(g, r, w, received, link) && id in link.flights
    ensures Active(g, r, w, link, id) && link.flights[id] == FlightFor(g, r, id)
    ensures link.flights[id].request == id && link.flights[id].ok
  {
    assert link.flights[id] == FlightFor(g, r, id);
    hide Active, FlightsOk, Ring.IdOk, Target, Local.RecvFirst;
  }

  lemma MovedOn<T>(link: Link<T>, id: Id)
    requires !Unmoved(link, id)
    ensures forall x :: x in link.unread || x in link.wire ==> x.0 != id
  {
    forall x | x in link.unread || x in link.wire
      ensures x.0 != id
    {
      assert x == (x.0, x.1);
    }
  }

  lemma ArriveFlights<T>(g: Ring<T>, r: nat, w: Window, received: map<Id, bool>, link: Link<T>, link': Link<T>, id: Id)
    requires g.Valid() && r < g.size && FlightsOk(g, r, w, received, link)
    requires id in link.flights && link' == link.(flights := link.flights - {id})
    requires forall x :: x in link.unread || x in link.wire ==> x.0 != id
    requires forall x :: Active(g, r, w, link', x) <==> Active(g, r, w, link, x)
    ensures FlightsOk(g, r, w, received[id := true], link')
  {
    hide Ring.IdOk, FlightFor, Value, Active;
  }

  lemma ArriveTraffic<T>(g: Ring<T>, r: nat, w: Window, offered: nat, me: Rank<T>, out: Window, sent: set<Id>, link: Link<T>,
                         id: Id)
    requires g.Valid() && r < g.size && TrafficOk(g, r, w, offered, me, out, sent, link)
    requires id in link.flights && !Unmoved(link, id)
    ensures link.flights[id].request == id && link.flights[id].ok
    ensures TrafficOk(g, r, w, offered, me.(received := me.received[id := true]), out, sent,
                      link.(flights := link.flights - {id}))
  {
    hide QueuesOk, FlightsOk, LandedOk, Active, Unmoved;
    var link' := link.(flights := link.flights - {id});
    FlyingTo(g, r, w, me.received, link, id);
    MovedOn(link, id);
    QueuesFrame(g, r, w, offered, link, link');
    ArriveFlights(g, r, w, me.received, link, link', id);
    LandedFrame(g, r, w, me.work, me.temp, link, link');
  }

  lemma ArriveInv<T>(g: Ring<T>, s: State<T>, r: nat, id: Id)
    requires g.Valid() && Inv(g, s) && Enabled(g, s, Arrive(r, id))
    ensures Inv(g, Step(g, s, Arrive(r, id)))
  {
    var me, q, link := s.ranks[r], Prev(g.size, r), s.links[r];
    var me' := me.(received := me.received[id := true]);
    hide Inv, TrafficOk, Receives, Sends, Offered, Unmoved;
    TrafficAt(g, s, r);
    ReportRankOk(g, r, me, me');
    hide RankOk;
    var w := Receives(g, r, me);
    ArriveTraffic(g, r, w, Offered(g, q, s.ranks[q], w), me, Sends(g, q, s.ranks[q]), s.ranks[q].sent, link, id);
    FlyingHere(g, r, w, Offered(g, q, s.ranks[q], w), me, Sends(g, q, s.ranks[q]), s.ranks[q].sent, link, id);
    NetworkStep(g, s, Step(g, s, Arrive(r, id)), r, me', link.(flights := link.flights - {id}));
  }

  lemma FlyingHere<T>(g: Ring<T>, r: nat, w: Window, offered: nat, me: Rank<T>, out: Window, sent: set<Id>, link: Link<T>, id: Id)
    requires g.Valid() && r < g.size && TrafficOk(g, r, w, offered, me, out, sent, link) && id in link.flights
    ensures g.size > 1
  {
    hide QueuesOk, LandedOk, SourcesOk;
    FlyingTo(g, r, w, me.received, link, id);
  }

  /** Completions that have been reported do not concern the rank's own state. */
  lemma ReportRankOk<T>(g: Ring<T>, r: nat, me: Rank<T>, me': Rank<T>)
    requires g.Valid() && r < g.size && RankOk(g, r, me)
    requires me' == me.(received := me'.received, sent := me'.sent)
    ensures RankOk(g, r, me')
  {
    hide ResultsOk, Receives, Sends;
    assert Receives(g, r, me') == Receives(g, r, me) && Sends(g, r, me') == Sends(g, r, me) by { SameWindows(g, r, me, me'); }
  }

  lemma SameWindows<T>(g: Ring<T>, r: nat, me: Rank<T>, me': Rank<T>)
    requires g.Valid() && r < g.size && me'.call == me.call && me'.at == me.at
    ensures Receives(g, r, me') == Receives(g, r, me) && Sends(g, r, me') == Sends(g, r, me)
  {}

  lemma AckSources<T>(out: Window, sent: set<Id>, link: Link<T>, id: Id)
    requires SourcesOk(out, sent, link)
    requires id in link.unacked && (forall k :: 0 <= k < |link.sends| ==> link.sends[k].id != id)
    requires forall j: nat :: (id, j) !in link.unread
    ensures SourcesOk(out, sent + {id}, link.(unacked := link.unacked - {id}))
  {
    forall x | x in link.unread
      ensures x.0 != id
    {
      assert x == (x.0, x.1);
    }
    hide Outgoing;
  }

  lemma AckTraffic<T>(g: Ring<T>, r: nat, w: Window, offered: nat, me: Rank<T>, out: Window, sent: set<Id>, link: Link<T>,
                      link': Link<T>, id: Id)
    requires g.Valid() && r < g.size && TrafficOk(g, r, w, offered, me, out, sent, link)
    requires id in link.unacked && (forall k :: 0 <= k < |link.sends| ==> link.sends[k].id != id)
    requires forall j: nat :: (id, j) !in link.unread
    requires link' == link.(unacked := link.unacked - {id})
    ensures TrafficOk(g, r, w, offered, me, out, sent + {id}, link')
  {
    hide QueuesOk, FlightsOk, LandedOk, SourcesOk, Active;
    AckSources(out, sent, link, id);
    QueuesFrame(g, r, w, offered, link, link');
    LandedFrame(g, r, w, me.work, me.temp, link, link');
    AckFlights(g, r, w, me.received, link, link');
  }

  lemma AckFlights<T>(g: Ring<T>, r: nat, w: Window, received: map<Id, bool>, link: Link<T>, link': Link<T>)
    requires g.Valid() && r < g.size && FlightsOk(g, r, w, received, link)
    requires link'.flights == link.flights && link'.unread == link.unread && link'.wire == link.wire
    requires forall x :: Active(g, r, w, link', x) <==> Active(g, r, w, link, x)
    ensures FlightsOk(g, r, w, received, link')
  {
    hide Ring.IdOk, FlightFor, Value, Active;
  }

  lemma OutgoingHere<T>(g: Ring<T>, q: nat, sender: Rank<T>, id: Id)
    requires g.Valid() && q < g.size && Outgoing(Sends(g, q, sender), id)
    ensures g.size > 1
  {}

  lemma AckInv<T>(g: Ring<T>, s: State<T>, r: nat, id: Id)
    requires g.Valid() && Inv(g, s) && Enabled(g, s, Ack(r, id))
    ensures Inv(g, Step(g, s, Ack(r, id)))
  {
    var me, q, link := s.ranks[r], Prev(g.size, r), s.links[r];
    var sender := s.ranks[q];
    var sender' := sender.(sent := sender.sent + {id});
    hide Inv, RankOk, QueuesOk, FlightsOk, LandedOk, Outgoing, OrderOk, Receives, Sends, Offered;
    TrafficAt(g, s, r);
    var w, out := Receives(g, r, me), Sends(g, q, sender);
    OutgoingHere(g, q, sender, id);
    hide SourcesOk, TrafficOk;
    ReportRankOk(g, q, sender, sender');
    AckTraffic(g, r, w, Offered(g, q, sender, w), me, out, sender.sent, link, link.(unacked := link.unacked - {id}), id);
    SenderReported(g, s, q, r, sender', link.(unacked := link.unacked - {id}));
  }

  lemma SenderReported<T>(g: Ring<T>, s: State<T>, q: nat, r: nat, sender': Rank<T>, link': Link<T>)
    requires g.Valid() && Inv(g, s) && r < g.size && q == Prev(g.size, r) && g.size > 1
    requires sender' == s.ranks[q].(sent := sender'.sent) && RankOk(g, q, sender')
    requires var w := Receives(g, r, s.ranks[r]);
             TrafficOk(g, r, w, Offered(g, q, s.ranks[q], w), s.ranks[r], Sends(g, q, s.ranks[q]), sender'.sent, link')
    ensures Inv(g, State(s.ranks[q := sender'], s.links[r := link']))
  {
    hide Inv, RankOk, TrafficOk, OrderOk, SameReceives, Receives, Sends, Offered;
    InvAt(g, s, r);
    InvAt(g, s, q);
    var sender, me := s.ranks[q], s.ranks[r];
    SamePosition(g, q, sender, sender', r, me);
    ReceiverFrame(g, Prev(g.size, q), s.ranks[Prev(g.size, q)], sender, sender', s.links[q]);
    Assemble(g, s, State(s.ranks[q := sender'], s.links[r := link']), q);
  }
}
