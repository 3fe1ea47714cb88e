/** What every reachable state of the zero-copy ring satisfies. */
module ZeroCopyInvariant {
  import opened RingArithmetic
  import opened BlockLayout
  import opened Tags
  import opened Schedule
  import opened Group
  import opened Buffers
  import opened ZeroCopyRing

  // --- frontiers --------------------------------------------------------------

  /** Receives of step `s` of call `c` that a rank in call `call` at cursor
    `at` has waited for, has posted; sends it has posted, has waited for. */
  ghost function WaitedAt<T>(g: Ring<T>, r: nat, call: nat, at: Cursor, c: nat, s: nat): nat
    requires g.Valid() && r < g.size && c < |g.calls|
  {
    if c < call then g.LocalOf(r, c).RecvPieces(s) else if c > call then 0 else g.LocalOf(r, c).RecvWaited(at, s)
  }

  ghost function RequestedAt<T>(g: Ring<T>, r: nat, call: nat, at: Cursor, c: nat, s: nat): nat
    requires g.Valid() && r < g.size && c < |g.calls|
  {
    if c < call then g.LocalOf(r, c).RecvPieces(s) else if c > call then 0 else g.LocalOf(r, c).RecvPosted(at, s)
  }

  ghost function SentAt<T>(g: Ring<T>, q: nat, call: nat, at: Cursor, c: nat, s: nat): nat
    requires g.Valid() && q < g.size && c < |g.calls|
  {
    if c < call then g.LocalOf(q, c).SendPieces(s) else if c > call then 0 else g.LocalOf(q, c).SendPosted(at, s)
  }

  ghost function SendWaitedAt<T>(g: Ring<T>, q: nat, call: nat, at: Cursor, c: nat, s: nat): nat
    requires g.Valid() && q < g.size && c < |g.calls|
  {
    if c < call then g.LocalOf(q, c).SendPieces(s) else if c > call then 0 else g.LocalOf(q, c).SendWaited(at, s)
  }

  /** The receives of the step a rank is in: how many it has waited for and how
    many it has posted. Nothing is posted once all calls are over. */
  datatype Window = Window(call: nat, step: nat, waited: nat, posted: nat)

  ghost function Receives<T>(g: Ring<T>, r: nat, me: Rank<T>): Window
    requires g.Valid() && r < g.size
  {
    if me.call < |g.calls| then
      Window(me.call, me.at.step, WaitedAt(g, r, me.call, me.at, me.call, me.at.step),
             RequestedAt(g, r, me.call, me.at, me.call, me.at.step))
    else Window(me.call, 0, 0, 0)
  }

  /** The sends of the step a rank is in. */
  ghost function Sends<T>(g: Ring<T>, q: nat, me: Rank<T>): Window
    requires g.Valid() && q < g.size
  {
    if me.call < |g.calls| then
      Window(me.call, me.at.step, SendWaitedAt(g, q, me.call, me.at, me.call, me.at.step),
             SentAt(g, q, me.call, me.at, me.call, me.at.step))
    else Window(me.call, 0, 0, 0)
  }

  /** What the sender has posted of the step its receiver is in. */
  ghost function Offered<T>(g: Ring<T>, q: nat, sender: Rank<T>, w: Window): nat
    requires g.Valid() && q < g.size
  {
    if w.call < |g.calls| then SentAt(g, q, sender.call, sender.at, w.call, w.step) else 0
  }

  /** Receive work requests consumed in the receiver's step. */
  ghost function Matched<T>(w: Window, link: Link<T>): int {
    w.posted - |link.receives|
  }

  // --- the requests that belong to a piece -------------------------------------

  function IdAt(w: Window, p: nat): Id {
    Id(w.call, w.step, p)
  }

  ghost predicate Named<T>(g: Ring<T>, r: nat, id: Id)
    requires g.Valid() && r < g.size
  {
    g.IdOk(r, id) && g.TagOf(id).Tag?
  }

  ghost function SendFor<T>(g: Ring<T>, r: nat, id: Id): SendRequest
    requires g.Valid() && r < g.size && Named(g, r, id)
  {
    var loc := g.LocalOf(r, id.call);
    var size := loc.RecvLength(id.step, id.piece);
    SendRequest(id, g.TagOf(id).tag, ModeOf(g, id.call, size), loc.RecvFirst(id.step, id.piece), size,
                Target(loc, id.step, id.piece))
  }

  ghost function ReceiveFor<T>(g: Ring<T>, r: nat, id: Id): (ReceiveRequest, Descriptor)
    requires g.Valid() && r < g.size && Named(g, r, id)
  {
    NewReceive(g, r, id, g.TagOf(id).tag)
  }

  ghost function FlightFor<T>(g: Ring<T>, r: nat, id: Id): Flight
    requires g.Valid() && r < g.size && g.IdOk(r, id)
  {
    var loc := g.LocalOf(r, id.call);
    Flight(loc.RecvFirst(id.step, id.piece), loc.RecvLength(id.step, id.piece), Target(loc, id.step, id.piece), id, true)
  }

  ghost function Value<T>(g: Ring<T>, r: nat, id: Id, j: nat): T
    requires g.Valid() && r < g.size && g.IdOk(r, id) && j < g.LocalOf(r, id.call).RecvLength(id.step, id.piece)
  {
    g.Sent(id.call, id.step, g.LocalOf(r, id.call).RecvFirst(id.step, id.piece) + j)
  }

  // --- the invariant --------------------------------------------------------

  /** Outside the regions lent to the transport every element of the buffer has
    its expected value. */
  ghost predicate BufferOk<T>(g: Ring<T>, r: nat, me: Rank<T>)
    requires g.Valid() && r < g.size && me.call < |g.calls|
  {
    && |me.work| == g.calls[me.call].count
    && (forall i :: 0 <= i < |me.work| && !g.Lent(r, me.call, me.at, i) ==>
          me.work[i] == g.Expected(r, me.call, me.at, i))
  }

  ghost predicate RankOk<T>(g: Ring<T>, r: nat, me: Rank<T>)
    requires g.Valid() && r < g.size
  {
    && me.status == Success && me.call <= |g.calls|
    && |me.out| == me.call && ResultsOk(g, me.out)
    && (me.call == |g.calls| ==> me.at == START)
    && (me.call < |g.calls| ==> g.LocalOf(r, me.call).CursorOk(me.at) && BufferOk(g, r, me))
    && me.receiving == Receives(g, r, me).posted - Receives(g, r, me).waited
    && me.sending == Sends(g, r, me).posted - Sends(g, r, me).waited
  }

  /** A receive is waited for only after its message was sent, and a message is
    sent only after its receive was posted. */
  ghost predicate OrderOk<T>(g: Ring<T>, q: nat, sender: Rank<T>, me: Rank<T>)
    requires g.Valid() && q < g.size
  {
    forall c: nat, s: nat :: c < |g.calls| ==>
      WaitedAt(g, Next(g.size, q), me.call, me.at, c, s)
      <= SentAt(g, q, sender.call, sender.at, c, s)
      <= RequestedAt(g, Next(g.size, q), me.call, me.at, c, s)
  }

  ghost predicate SendIs<T>(g: Ring<T>, r: nat, id: Id, send: SendRequest)
    requires g.Valid() && r < g.size
  {
    Named(g, r, id) && send == SendFor(g, r, id)
  }

  ghost predicate ReceiveIs<T>(g: Ring<T>, r: nat, id: Id, receive: ReceiveRequest)
    requires g.Valid() && r < g.size
  {
    Named(g, r, id) && receive == ReceiveFor(g, r, id).0
  }

  ghost predicate DescriptorIs<T>(g: Ring<T>, r: nat, id: Id, descriptor: Descriptor)
    requires g.Valid() && r < g.size
  {
    Named(g, r, id) && descriptor == ReceiveFor(g, r, id).1
  }

  /** The queue holds the requests of consecutive pieces from `base` on. */
  ghost predicate SendsFrom<T>(g: Ring<T>, r: nat, c: nat, s: nat, base: nat, queue: seq<SendRequest>)
    requires g.Valid() && r < g.size
  {
    forall k :: 0 <= k < |queue| ==> SendIs(g, r, Id(c, s, base + k), queue[k])
  }

  ghost predicate ReceivesFrom<T>(g: Ring<T>, r: nat, c: nat, s: nat, base: nat, queue: seq<ReceiveRequest>)
    requires g.Valid() && r < g.size
  {
    forall k :: 0 <= k < |queue| ==> ReceiveIs(g, r, Id(c, s, base + k), queue[k])
  }

  ghost predicate DescriptorsFrom<T>(g: Ring<T>, r: nat, c: nat, s: nat, base: nat, queue: seq<Descriptor>)
    requires g.Valid() && r < g.size
  {
    forall k :: 0 <= k < |queue| ==> DescriptorIs(g, r, Id(c, s, base + k), queue[k])
  }

  /** The three queues of a link hold consecutive pieces of the receiver's
    current batch: first those sent and not yet matched, then those requested
    and not yet sent. */
  ghost predicate QueuesOk<T>(g: Ring<T>, r: nat, w: Window, offered: nat, link: Link<T>)
    requires g.Valid() && r < g.size
  {
    var matched := Matched(w, link);
    && w.waited <= matched <= offered <= w.posted
    && |link.sends| == offered - matched
    && |link.descriptors| == w.posted - offered
    && SendsFrom(g, r, w.call, w.step, matched, link.sends)
    && ReceivesFrom(g, r, w.call, w.step, matched, link.receives)
    && DescriptorsFrom(g, r, w.call, w.step, offered, link.descriptors)
  }

  /** Appending the request of the next piece, and taking the first. */
  lemma MoreSends<T>(g: Ring<T>, r: nat, c: nat, s: nat, base: nat, queue: seq<SendRequest>, next: SendRequest)
    requires g.Valid() && r < g.size && SendsFrom(g, r, c, s, base, queue)
    ensures SendIs(g, r, Id(c, s, base + |queue|), next) ==> SendsFrom(g, r, c, s, base, queue + [next])
    ensures queue != [] ==> SendIs(g, r, Id(c, s, base), queue[0]) && SendsFrom(g, r, c, s, base + 1, queue[1..])
  {
    hide SendIs;
    if queue != [] {
      assert SendIs(g, r, Id(c, s, base + 0), queue[0]);
      forall k | 0 <= k < |queue| - 1
        ensures SendIs(g, r, Id(c, s, base + 1 + k), queue[1..][k])
      {
        assert SendIs(g, r, Id(c, s, base + (k + 1)), queue[k + 1]);
      }
    }
  }

  lemma MoreReceives<T>(g: Ring<T>, r: nat, c: nat, s: nat, base: nat, queue: seq<ReceiveRequest>, next: ReceiveRequest)
    requires g.Valid() && r < g.size && ReceivesFrom(g, r, c, s, base, queue)
    ensures ReceiveIs(g, r, Id(c, s, base + |queue|), next) ==> ReceivesFrom(g, r, c, s, base, queue + [next])
    ensures queue != [] ==> ReceiveIs(g, r, Id(c, s, base), queue[0]) && ReceivesFrom(g, r, c, s, base + 1, queue[1..])
  {
    hide ReceiveIs;
    if queue != [] {
      assert ReceiveIs(g, r, Id(c, s, base + 0), queue[0]);
      forall k | 0 <= k < |queue| - 1
        ensures ReceiveIs(g, r, Id(c, s, base + 1 + k), queue[1..][k])
      {
        assert ReceiveIs(g, r, Id(c, s, base + (k + 1)), queue[k + 1]);
      }
    }
  }

  lemma MoreDescriptors<T>(g: Ring<T>, r: nat, c: nat, s: nat, base: nat, queue: seq<Descriptor>, next: Descriptor)
    requires g.Valid() && r < g.size && DescriptorsFrom(g, r, c, s, base, queue)
    ensures DescriptorIs(g, r, Id(c, s, base + |queue|), next) ==> DescriptorsFrom(g, r, c, s, base, queue + [next])
    ensures queue != [] ==> DescriptorIs(g, r, Id(c, s, base), queue[0]) && DescriptorsFrom(g, r, c, s, base + 1, queue[1..])
  {
    hide DescriptorIs;
    if queue != [] {
      assert DescriptorIs(g, r, Id(c, s, base + 0), queue[0]);
      forall k | 0 <= k < |queue| - 1
        ensures DescriptorIs(g, r, Id(c, s, base + 1 + k), queue[1..][k])
      {
        assert DescriptorIs(g, r, Id(c, s, base + (k + 1)), queue[k + 1]);
      }
    }
  }

  /** `id` has been matched and not yet waited for. */
  ghost predicate Active<T>(g: Ring<T>, r: nat, w: Window, link: Link<T>, id: Id)
    requires g.Valid() && r < g.size
  {
    id.call == w.call && id.step == w.step && w.waited <= id.piece < Matched(w, link) && g.IdOk(r, id)
  }

  /** Every active piece is in flight or has been reported, and what is on the
    wire is what was to be sent. */
  ghost predicate FlightsOk<T>(g: Ring<T>, r: nat, w: Window, received: map<Id, bool>, link: Link<T>)
    requires g.Valid() && r < g.size
  {
    && (forall id :: id in link.flights ==> Active(g, r, w, link, id) && link.flights[id] == FlightFor(g, r, id))
    && (forall id :: id in received ==> Active(g, r, w, link, id) && received[id])
    && (forall id :: Active(g, r, w, link, id) ==> (id in link.flights <==> id !in received))
    && (forall x :: x in link.unread ==> x.0 in link.flights && x.1 < link.flights[x.0].size)
    && (forall x :: x in link.wire ==>
          && x.0 in link.flights && x !in link.unread
          && g.IdOk(r, x.0) && x.1 < g.LocalOf(r, x.0.call).RecvLength(x.0.step, x.0.piece)
          && link.wire[x] == Value(g, r, x.0, x.1))
  }

  ghost predicate Holds<T>(work: seq<T>, temp: map<nat, T>, region: Region, j: nat, value: T) {
    if region.temporary then region.lo + j in temp && temp[region.lo + j] == value
    else region.lo + j < |work| && work[region.lo + j] == value
  }

  /** What is neither unread nor on the wire has landed. */
  ghost predicate LandedOk<T>(g: Ring<T>, r: nat, w: Window, work: seq<T>, temp: map<nat, T>, link: Link<T>)
    requires g.Valid() && r < g.size
  {
    forall id: Id, j: nat | Active(g, r, w, link, id) && j < g.LocalOf(r, id.call).RecvLength(id.step, id.piece) ::
      (id, j) !in link.unread && (id, j) !in link.wire ==>
        Holds(work, temp, Target(g.LocalOf(r, id.call), id.step, id.piece), j, Value(g, r, id, j))
  }

  /** `id` is a posted send not yet waited for. */
  ghost predicate Outgoing(w: Window, id: Id) {
    id.call == w.call && id.step == w.step && w.waited <= id.piece < w.posted
  }

  /** The sender's outstanding sends are those not yet acknowledged and those
    reported; only the former can still be read from. */
  ghost predicate SourcesOk<T>(w: Window, sent: set<Id>, link: Link<T>) {
    && (forall id :: id in link.unacked ==> Outgoing(w, id))
    && (forall id :: id in sent ==> Outgoing(w, id))
    && (forall id :: Outgoing(w, id) ==> (id in link.unacked <==> id !in sent))
    && (forall x :: x in link.unread ==> x.0 in link.unacked)
    && (forall k :: 0 <= k < |link.sends| ==> link.sends[k].id in link.unacked)
  }

  /** A link into rank `r` whose window is `w`, from a sender that has posted
    `offered` pieces of that step and whose own window is `out`. */
  ghost predicate TrafficOk<T>(g: Ring<T>, r: nat, w: Window, offered: nat, me: Rank<T>, out: Window, sent: set<Id>,
                               link: Link<T>)
    requires g.Valid() && r < g.size
  {
    && QueuesOk(g, r, w, offered, link)
    && FlightsOk(g, r, w, me.received, link)
    && LandedOk(g, r, w, me.work, me.temp, link)
    && SourcesOk(out, sent, link)
  }

  ghost predicate LinkOk<T>(g: Ring<T>, q: nat, sender: Rank<T>, me: Rank<T>, link: Link<T>)
    requires g.Valid() && q < g.size
  {
    var r := Next(g.size, q);
    var w := Receives(g, r, me);
    && OrderOk(g, q, sender, me)
    && TrafficOk(g, r, w, Offered(g, q, sender, w), me, Sends(g, q, sender), sender.sent, link)
  }

  ghost predicate Inv<T>(g: Ring<T>, s: State<T>)
    requires g.Valid()
  {
    && |s.ranks| == |s.links| == g.size
    && (forall r :: 0 <= r < g.size ==> RankOk(g, r, s.ranks[r]))
    && (forall q :: 0 <= q < g.size ==>
          LinkOk(g, q, s.ranks[q], s.ranks[Next(g.size, q)], s.links[Next(g.size, q)]))
  }

  /** No batch has more pieces than a queue pair holds. */
  ghost predicate FitsQueuePairs<T>(g: Ring<T>)
    requires g.Valid()
  {
    forall r, c, s :: 0 <= r < g.size && 0 <= c < |g.calls| && 0 <= s ==>
      && Min(g.capacities[r], g.LocalOf(r, c).RecvPieces(s)) <= QUEUE_PAIR_DEPTH
      && Min(g.capacities[r], g.LocalOf(r, c).SendPieces(s)) <= QUEUE_PAIR_DEPTH
  }

  /** ... and every piece is short enough for a work request. */
  ghost predicate FitsDevice<T>(g: Ring<T>)
    requires g.Valid()
  {
    FitsQueuePairs(g) && g.BytesFit()
  }

  lemma InitialInv<T>(g: Ring<T>)
    requires g.Valid()
    ensures Inv(g, Initial(g))
  {
    var s := Initial(g);
    hide RankOk, LinkOk;
    forall r | 0 <= r < g.size
      ensures RankOk(g, r, s.ranks[r])
      ensures LinkOk(g, r, s.ranks[r], s.ranks[Next(g.size, r)], s.links[Next(g.size, r)])
    {
      InitialRankOk(g, r);
      InitialLinkOk(g, r);
    }
  }

  lemma InitialRankOk<T>(g: Ring<T>, r: nat)
    requires g.Valid() && r < g.size
    ensures RankOk(g, r, Initial(g).ranks[r])
  {
    hide Shape.Pieces, Ring.Expected, Ring.Lent;
    if g.calls != [] {
      forall i | 0 <= i < g.calls[0].count
        ensures g.Expected(r, 0, START, i) == g.calls[0].input[r][i] && !g.Lent(r, 0, START, i)
      {
        g.StartValue(r, 0, i);
      }
    }
  }

  lemma InitialLinkOk<T>(g: Ring<T>, q: nat)
    requires g.Valid() && q < g.size
    ensures var s, r := Initial(g), Next(g.size, q); LinkOk(g, q, s.ranks[q], s.ranks[r], s.links[r])
  {
    hide Shape.Pieces, Ring.IdOk;
  }

  // --- moves that leave the transport alone -----------------------------------

  /** Rank `me` becomes `me'` without posting or waiting: it stays in its step,
    or leaves a step with nothing outstanding and begins another. */
  ghost predicate SilentMove<T>(g: Ring<T>, r: nat, me: Rank<T>, me': Rank<T>)
    requires g.Valid() && r < g.size
  {
    && (forall c: nat, s: nat :: c < |g.calls| ==>
          && WaitedAt(g, r, me'.call, me'.at, c, s) == WaitedAt(g, r, me.call, me.at, c, s)
          && RequestedAt(g, r, me'.call, me'.at, c, s) == RequestedAt(g, r, me.call, me.at, c, s))
    && (forall c: nat, s: nat :: c < |g.calls| ==>
          && SentAt(g, r, me'.call, me'.at, c, s) == SentAt(g, r, me.call, me.at, c, s)
          && SendWaitedAt(g, r, me'.call, me'.at, c, s) == SendWaitedAt(g, r, me.call, me.at, c, s))
    && me'.received == me.received && me'.sent == me.sent && me'.temp == me.temp
    && me'.receiving == me.receiving && me'.sending == me.sending
    && ((Receives(g, r, me') == Receives(g, r, me) && Sends(g, r, me') == Sends(g, r, me) && me'.work == me.work)
        || (&& Receives(g, r, me).waited == Receives(g, r, me).posted
            && Sends(g, r, me).waited == Sends(g, r, me).posted
            && Receives(g, r, me').waited == Receives(g, r, me').posted == 0
            && Sends(g, r, me').waited == Sends(g, r, me').posted == 0))
  }

  /** Nothing is on a link whose receiver has nothing outstanding. */
  lemma QuietLink<T>(g: Ring<T>, r: nat, w: Window, offered: nat, received: map<Id, bool>, link: Link<T>)
    requires g.Valid() && r < g.size && QueuesOk(g, r, w, offered, link) && FlightsOk(g, r, w, received, link)
    requires w.waited == w.posted
    ensures link.sends == [] && link.receives == [] && link.descriptors == []
    ensures link.flights == map[] && received == map[] && link.unread == {} && link.wire == map[]
  {}

  lemma QuietTraffic<T>(g: Ring<T>, r: nat, w: Window, offered: nat, me: Rank<T>, out: Window, sent: set<Id>, link: Link<T>,
                        w': Window, offered': nat, me': Rank<T>)
    requires g.Valid() && r < g.size && TrafficOk(g, r, w, offered, me, out, sent, link) && w.waited == w.posted
    requires w'.waited == offered' == w'.posted && me'.received == me.received
    ensures TrafficOk(g, r, w', offered', me', out, sent, link)
  {
    QuietLink(g, r, w, offered, me.received, link);
    hide SourcesOk;
  }

  lemma SilentReceiver<T>(g: Ring<T>, q: nat, sender: Rank<T>, me: Rank<T>, me': Rank<T>, link: Link<T>)
    requires g.Valid() && q < g.size && LinkOk(g, q, sender, me, link)
    requires SilentMove(g, Next(g.size, q), me, me')
    ensures LinkOk(g, q, sender, me', link)
  {
    var r := Next(g.size, q);
    var w, w' := Receives(g, r, me), Receives(g, r, me');
    assert OrderOk(g, q, sender, me');
    assert w' != w ==> Offered(g, q, sender, w') <= w'.posted;
    hide OrderOk, QueuesOk, FlightsOk, LandedOk, SourcesOk, WaitedAt, RequestedAt, SentAt, SendWaitedAt, Receives, Sends,
         Offered;
    if w' != w {
      QuietTraffic(g, r, w, Offered(g, q, sender, w), me, Sends(g, q, sender), sender.sent, link,
                   w', Offered(g, q, sender, w'), me');
    }
  }

  lemma SilentSender<T>(g: Ring<T>, q: nat, sender: Rank<T>, sender': Rank<T>, me: Rank<T>, link: Link<T>)
    requires g.Valid() && q < g.size && LinkOk(g, q, sender, me, link)
    requires SilentMove(g, q, sender, sender')
    ensures LinkOk(g, q, sender', me, link)
  {
    var w := Receives(g, Next(g.size, q), me);
    assert Offered(g, q, sender', w) == Offered(g, q, sender, w);
    assert OrderOk(g, q, sender', me);
    hide OrderOk, QueuesOk, FlightsOk, LandedOk, WaitedAt, RequestedAt, SentAt, SendWaitedAt, Receives, Sends, Offered;
  }
}
