/** The zero-copy ring refines the copying ring: a run of the former, seen
  without the network's own steps, is a run of the latter. */
module Refinement {
  import opened RingArithmetic
  import opened BlockLayout
  import opened Tags
  import opened Schedule
  import opened Group
  import opened Buffers
  import Copying = CopyingRing
  import Zero = ZeroCopyRing
  import ZeroInv = ZeroCopyInvariant
  import Steps = ZeroCopySteps
  import Network = ZeroCopyNetwork
  import Theorems = ZeroCopyTheorems
  import Bounds = ZeroCopyBounds

  // --- the abstraction ----------------------------------------------------------

  /** The buffer a rank at this point has over the copying transport: regions
    lent to the transport keep their old contents until the wait. */
  ghost function Buffer<T>(g: Ring<T>, r: nat, c: nat, at: Cursor): (work: seq<T>)
    requires g.Valid() && r < g.size && c < |g.calls|
    ensures |work| == g.calls[c].count
    ensures forall i :: 0 <= i < |work| ==> work[i] == g.Expected(r, c, at, i)
  {
    seq(g.calls[c].count, i requires 0 <= i < g.calls[c].count => g.Expected(r, c, at, i))
  }

  /** The message that carries piece `id` into rank `r`. */
  ghost function MessageFor<T>(g: Ring<T>, r: nat, id: Id): Copying.Message<T>
    requires g.Valid() && r < g.size && ZeroInv.Named(g, r, id)
  {
    var loc := g.LocalOf(r, id.call);
    var n := loc.RecvLength(id.step, id.piece);
    Copying.Message(id, g.TagOf(id).tag, seq(n, j requires 0 <= j < n => ZeroInv.Value(g, r, id, j)))
  }

  /** The pieces sent and not yet waited for, as queued messages. */
  ghost function Queue<T>(g: Ring<T>, r: nat, c: nat, s: nat, lo: nat, hi: nat): (queue: seq<Copying.Message<T>>)
    requires g.Valid() && r < g.size && lo <= hi
    requires forall p: nat :: lo <= p < hi ==> ZeroInv.Named(g, r, Id(c, s, p))
    ensures |queue| == hi - lo
    ensures forall k :: 0 <= k < |queue| ==> queue[k] == MessageFor(g, r, Id(c, s, lo + k))
    decreases hi
  {
    if lo == hi then [] else Queue(g, r, c, s, lo, hi - 1) + [MessageFor(g, r, Id(c, s, hi - 1))]
  }

  ghost function RankOf<T>(g: Ring<T>, r: nat, me: Zero.Rank<T>): Copying.Rank<T>
    requires g.Valid() && r < g.size
  {
    var work := if me.call < |g.calls| then Buffer(g, r, me.call, me.at)
                else if me.out == [] then [] else me.out[|me.out| - 1];
    Copying.Rank(me.call, me.at, work, map[], me.out, me.status)
  }

  /** The pieces between what rank `r` has waited for and what its predecessor
    has posted can all be named. */
  ghost predicate Queueable<T>(g: Ring<T>, q: nat, sender: Zero.Rank<T>, me: Zero.Rank<T>)
    requires g.Valid() && q < g.size
  {
    var r := Next(g.size, q);
    var w := ZeroInv.Receives(g, r, me);
    && w.waited <= ZeroInv.Offered(g, q, sender, w)
    && forall p: nat :: w.waited <= p < ZeroInv.Offered(g, q, sender, w) ==> ZeroInv.Named(g, r, Id(w.call, w.step, p))
  }

  ghost function QueueOf<T>(g: Ring<T>, q: nat, sender: Zero.Rank<T>, me: Zero.Rank<T>): seq<Copying.Message<T>>
    requires g.Valid() && q < g.size && Queueable(g, q, sender, me)
  {
    var w := ZeroInv.Receives(g, Next(g.size, q), me);
    Queue(g, Next(g.size, q), w.call, w.step, w.waited, ZeroInv.Offered(g, q, sender, w))
  }

  lemma AllQueueable<T>(g: Ring<T>, s: Zero.State<T>, r: nat)
    requires g.Valid() && g.TagsFit() && ZeroInv.Inv(g, s) && r < g.size
    ensures |s.ranks| == g.size && Next(g.size, Prev(g.size, r)) == r
    ensures Queueable(g, Prev(g.size, r), s.ranks[Prev(g.size, r)], s.ranks[r])
  {
    hide ZeroInv.Inv, ZeroInv.RankOk, ZeroInv.FlightsOk, ZeroInv.LandedOk, ZeroInv.SourcesOk, ZeroInv.SendsFrom,
         ZeroInv.ReceivesFrom, ZeroInv.DescriptorsFrom, ZeroInv.Receives, ZeroInv.Sends, ZeroInv.Offered, Ring.TagsFit,
         Ring.IdOk, Ring.TagOf;
    RotationsAgree(g.size, r, 0);
    Network.TrafficAt(g, s, r);
    Bounds.WindowPieces(g, r, s.ranks[r]);
    var w := ZeroInv.Receives(g, r, s.ranks[r]);
    forall p: nat | p < w.posted
      ensures ZeroInv.Named(g, r, Id(w.call, w.step, p))
    {
      assert g.IdOk(r, ZeroInv.IdAt(w, p));
      g.TagInRange(r, Id(w.call, w.step, p));
    }
  }

  ghost function QueueAt<T>(g: Ring<T>, s: Zero.State<T>, r: nat): seq<Copying.Message<T>>
    requires g.Valid() && g.TagsFit() && ZeroInv.Inv(g, s) && r < g.size
  {
    AllQueueable(g, s, r);
    QueueOf(g, Prev(g.size, r), s.ranks[Prev(g.size, r)], s.ranks[r])
  }

  ghost function Abstract<T>(g: Ring<T>, s: Zero.State<T>): (c: Copying.State<T>)
    requires g.Valid() && g.TagsFit() && ZeroInv.Inv(g, s)
    ensures |c.ranks| == |c.queues| == |s.ranks| == g.size
    ensures forall r :: 0 <= r < g.size ==> c.ranks[r] == RankOf(g, r, s.ranks[r])
    ensures forall r :: 0 <= r < g.size ==> c.queues[r] == QueueAt(g, s, r)
  {
    Copying.State(seq(g.size, r requires 0 <= r < g.size => RankOf(g, r, s.ranks[r])),
                  seq(g.size, r requires 0 <= r < g.size => QueueAt(g, s, r)))
  }

  // --- the network's steps are invisible ------------------------------------------

  ghost predicate SamePlace<T>(me: Zero.Rank<T>, me': Zero.Rank<T>) {
    me'.call == me.call && me'.at == me.at && me'.out == me.out && me'.status == me.status
  }

  lemma SameViews<T>(g: Ring<T>, q: nat, sender: Zero.Rank<T>, me: Zero.Rank<T>, sender': Zero.Rank<T>, me': Zero.Rank<T>)
    requires g.Valid() && q < g.size && Queueable(g, q, sender, me)
    requires SamePlace(sender, sender') && SamePlace(me, me')
    ensures RankOf(g, Next(g.size, q), me') == RankOf(g, Next(g.size, q), me)
    ensures Queueable(g, q, sender', me') && QueueOf(g, q, sender', me') == QueueOf(g, q, sender, me)
  {
    assert ZeroInv.Receives(g, Next(g.size, q), me') == ZeroInv.Receives(g, Next(g.size, q), me);
    hide ZeroInv.Receives, ZeroInv.SentAt, Buffer, Queue, ZeroInv.Named;
  }

  lemma SameAbstraction<T>(g: Ring<T>, s: Zero.State<T>, s': Zero.State<T>)
    requires g.Valid() && g.TagsFit() && ZeroInv.Inv(g, s) && ZeroInv.Inv(g, s')
    requires |s.ranks| == |s'.ranks| == g.size
    requires forall r :: 0 <= r < g.size ==> SamePlace(s.ranks[r], s'.ranks[r])
    ensures Abstract(g, s') == Abstract(g, s)
  {
    hide ZeroInv.Inv, RankOf, QueueOf, Queueable, SamePlace, Ring.TagsFit;
    forall r | 0 <= r < g.size
      ensures RankOf(g, r, s'.ranks[r]) == RankOf(g, r, s.ranks[r]) && QueueAt(g, s', r) == QueueAt(g, s, r)
    {
      AllQueueable(g, s, r);
      AllQueueable(g, s', r);
      SameViews(g, Prev(g.size, r), s.ranks[Prev(g.size, r)], s.ranks[r], s'.ranks[Prev(g.size, r)], s'.ranks[r]);
    }
    assert Abstract(g, s').ranks == Abstract(g, s).ranks;
    assert Abstract(g, s').queues == Abstract(g, s).queues;
  }

  lemma NetworkStutters<T>(g: Ring<T>, s: Zero.State<T>, l: Zero.Label)
    requires g.Valid() && g.TagsFit() && ZeroInv.FitsDevice(g) && ZeroInv.Inv(g, s) && Zero.Enabled(g, s, l) && !l.Move?
    ensures ZeroInv.Inv(g, Zero.Step(g, s, l)) && Abstract(g, Zero.Step(g, s, l)) == Abstract(g, s)
  {
    hide ZeroInv.Inv, Zero.Step, Zero.Enabled, SamePlace, Ring.TagsFit, ZeroInv.FitsDevice, Abstract;
    Theorems.StepInv(g, s, l);
    PlacesKept(g, s, l);
    SameAbstraction(g, s, Zero.Step(g, s, l));
  }

  lemma PlacesKept<T>(g: Ring<T>, s: Zero.State<T>, l: Zero.Label)
    requires g.Valid() && Zero.Enabled(g, s, l) && !l.Move?
    ensures |Zero.Step(g, s, l).ranks| == |s.ranks| == g.size
    ensures forall r :: 0 <= r < g.size ==> SamePlace(s.ranks[r], Zero.Step(g, s, l).ranks[r])
  {
    hide Zero.Launch, Zero.Unmoved;
  }

  // --- what a rank's move does to the queues ----------------------------------------

  ghost predicate SameSends<T>(g: Ring<T>, q: nat, me: Zero.Rank<T>, me': Zero.Rank<T>)
    requires g.Valid() && q < g.size
  {
    forall c: nat, t: nat :: c < |g.calls| ==>
      ZeroInv.SentAt(g, q, me'.call, me'.at, c, t) == ZeroInv.SentAt(g, q, me.call, me.at, c, t)
  }

  lemma QueueKept<T>(g: Ring<T>, q: nat, sender: Zero.Rank<T>, me: Zero.Rank<T>, sender': Zero.Rank<T>, me': Zero.Rank<T>)
    requires g.Valid() && q < g.size && Queueable(g, q, sender, me) && Queueable(g, q, sender', me')
    requires SameSends(g, q, sender, sender')
    requires var w, w' := ZeroInv.Receives(g, Next(g.size, q), me), ZeroInv.Receives(g, Next(g.size, q), me');
             || (w'.call == w.call && w'.step == w.step && w'.waited == w.waited)
             || (w.waited == ZeroInv.Offered(g, q, sender, w) && w'.waited == ZeroInv.Offered(g, q, sender', w'))
    ensures QueueOf(g, q, sender', me') == QueueOf(g, q, sender, me)
  {
    var w, w' := ZeroInv.Receives(g, Next(g.size, q), me), ZeroInv.Receives(g, Next(g.size, q), me');
    assert ZeroInv.Offered(g, q, sender', w') == ZeroInv.Offered(g, q, sender, w')
           && ZeroInv.Offered(g, q, sender', w) == ZeroInv.Offered(g, q, sender, w);
    assert w'.call == w.call && w'.step == w.step ==> ZeroInv.Offered(g, q, sender, w') == ZeroInv.Offered(g, q, sender, w);
    hide ZeroInv.Receives, ZeroInv.Offered, ZeroInv.SentAt, SameSends, ZeroInv.Named, MessageFor;
  }

  lemma QueueGrows<T>(g: Ring<T>, q: nat, sender: Zero.Rank<T>, me: Zero.Rank<T>, sender': Zero.Rank<T>, id: Id)
    requires g.Valid() && q < g.size && Queueable(g, q, sender, me) && Queueable(g, q, sender', me)
    requires var w := ZeroInv.Receives(g, Next(g.size, q), me);
             && id == ZeroInv.IdAt(w, ZeroInv.Offered(g, q, sender, w)) && ZeroInv.Named(g, Next(g.size, q), id)
             && ZeroInv.Offered(g, q, sender', w) == ZeroInv.Offered(g, q, sender, w) + 1
    ensures QueueOf(g, q, sender', me) == QueueOf(g, q, sender, me) + [MessageFor(g, Next(g.size, q), id)]
  {
    hide ZeroInv.Receives, ZeroInv.Offered, ZeroInv.Named, MessageFor;
  }

  lemma FirstOfQueue<T>(g: Ring<T>, r: nat, c: nat, s: nat, lo: nat, hi: nat)
    requires g.Valid() && r < g.size && lo < hi && forall p: nat :: lo <= p < hi ==> ZeroInv.Named(g, r, Id(c, s, p))
    ensures Queue(g, r, c, s, lo, hi) == [MessageFor(g, r, Id(c, s, lo))] + Queue(g, r, c, s, lo + 1, hi)
  {
    hide ZeroInv.Named, MessageFor, Queue;
    var all, rest := Queue(g, r, c, s, lo, hi), Queue(g, r, c, s, lo + 1, hi);
    assert all[0] == MessageFor(g, r, Id(c, s, lo + 0));
    forall k | 0 <= k < |rest|
      ensures rest[k] == all[k + 1]
    {
      assert all[k + 1] == MessageFor(g, r, Id(c, s, lo + (k + 1)));
      assert rest[k] == MessageFor(g, r, Id(c, s, lo + 1 + k));
    }
  }

  lemma QueueShrinks<T>(g: Ring<T>, q: nat, sender: Zero.Rank<T>, me: Zero.Rank<T>, me': Zero.Rank<T>, id: Id)
    requires g.Valid() && q < g.size && Queueable(g, q, sender, me) && Queueable(g, q, sender, me')
    requires var w, w' := ZeroInv.Receives(g, Next(g.size, q), me), ZeroInv.Receives(g, Next(g.size, q), me');
             && id == ZeroInv.IdAt(w, w.waited) && w'.call == w.call && w'.step == w.step && w'.waited == w.waited + 1
    ensures ZeroInv.Named(g, Next(g.size, q), id)
    ensures QueueOf(g, q, sender, me) == [MessageFor(g, Next(g.size, q), id)] + QueueOf(g, q, sender, me')
  {
    hide ZeroInv.Receives, ZeroInv.SentAt, ZeroInv.Named, MessageFor, Queue;
    var r, w, w' := Next(g.size, q), ZeroInv.Receives(g, Next(g.size, q), me), ZeroInv.Receives(g, Next(g.size, q), me');
    assert ZeroInv.Offered(g, q, sender, w') == ZeroInv.Offered(g, q, sender, w);
    hide ZeroInv.Offered;
    FirstOfQueue(g, r, w.call, w.step, w.waited, ZeroInv.Offered(g, q, sender, w));
  }

  // --- a rank's move, seen from the other machine -------------------------------------

  lemma BufferKept<T>(g: Ring<T>, r: nat, me: Zero.Rank<T>, me': Zero.Rank<T>)
    requires g.Valid() && Steps.Onward(g, r, me, me')
    requires !(g.LocalOf(r, me.call).Acting(me.at) && me.at.stage == WaitReceives)
    ensures Buffer(g, r, me.call, me'.at) == Buffer(g, r, me.call, me.at)
  {
    hide Ring.Expected, Local.Advance;
    forall i | 0 <= i < g.calls[me.call].count
      ensures g.Expected(r, me.call, me'.at, i) == g.Expected(r, me.call, me.at, i)
    {
      g.OtherValue(r, me.call, me.at, i);
    }
  }

  /** A rank that can move in one machine is where it is in the other. */
  lemma SameRank<T>(g: Ring<T>, s: Zero.State<T>, r: nat)
    requires g.Valid() && g.TagsFit() && ZeroInv.Inv(g, s) && Zero.Running(g, s, r)
    ensures Copying.Running(g, Abstract(g, s), r)
    ensures Abstract(g, s).ranks[r] == RankOf(g, r, s.ranks[r])
    ensures Abstract(g, s).ranks[r].at == s.ranks[r].at && Abstract(g, s).ranks[r].call == s.ranks[r].call
    ensures Copying.Me(g, Abstract(g, s), r) == Zero.Me(g, s, r)
    ensures Copying.Due(g, Abstract(g, s), r) == Zero.Due(g, s, r)
    ensures forall stage :: Copying.Acting(g, Abstract(g, s), r, stage) <==> Zero.Acting(g, s, r, stage)
  {
    hide Abstract, Local.Acting, Local.CursorOk;
  }

  /** Only the moving rank and its two queues look different afterwards. */
  lemma MoveFrame<T>(g: Ring<T>, s: Zero.State<T>, s': Zero.State<T>, r: nat)
    requires g.Valid() && g.TagsFit() && ZeroInv.Inv(g, s) && ZeroInv.Inv(g, s') && r < g.size
    requires |s.ranks| == |s'.ranks| == g.size && s'.ranks == s.ranks[r := s'.ranks[r]]
    ensures Abstract(g, s').ranks == Abstract(g, s).ranks[r := RankOf(g, r, s'.ranks[r])]
    ensures Abstract(g, s').queues
            == Abstract(g, s).queues[r := QueueAt(g, s', r)][Next(g.size, r) := QueueAt(g, s', Next(g.size, r))]
  {
    hide ZeroInv.Inv, RankOf, QueueOf, Queueable, Ring.TagsFit, Abstract;
    RotationsAgree(g.size, r, 0);
    var c, c' := Abstract(g, s), Abstract(g, s');
    forall x | 0 <= x < g.size && x != r && x != Next(g.size, r)
      ensures c'.queues[x] == c.queues[x]
    {
      RotationsAgree(g.size, x, 0);
      AllQueueable(g, s, x);
    }
  }

  /** A move that posts no send and waits for no receive changes no queue. */
  lemma QueuesKept<T>(g: Ring<T>, s: Zero.State<T>, s': Zero.State<T>, r: nat)
    requires g.Valid() && g.TagsFit() && ZeroInv.Inv(g, s) && ZeroInv.Inv(g, s') && r < g.size
    requires |s.ranks| == |s'.ranks| == g.size && s'.ranks == s.ranks[r := s'.ranks[r]]
    requires SameSends(g, r, s.ranks[r], s'.ranks[r])
    requires var w, w' := ZeroInv.Receives(g, r, s.ranks[r]), ZeroInv.Receives(g, r, s'.ranks[r]);
             || (w'.call == w.call && w'.step == w.step && w'.waited == w.waited)
             || (w.waited == w.posted && w'.waited == w'.posted)
    ensures Abstract(g, s').queues == Abstract(g, s).queues
  {
    hide ZeroInv.Inv, ZeroInv.Receives, RankOf, QueueOf, Queueable, Ring.TagsFit, Abstract, SameSends;
    MoveFrame(g, s, s', r);
    RotationsAgree(g.size, r, 0);
    var q, n := Prev(g.size, r), Next(g.size, r);
    assert SameSends(g, q, s.ranks[q], s'.ranks[q]) by {
      if q != r { SameSendsReflexive(g, q, s.ranks[q]); }
    }
    AllQueueable(g, s, r);
    AllQueueable(g, s', r);
    AllQueueable(g, s, n);
    AllQueueable(g, s', n);
    OfferedWithin(g, s, r);
    OfferedWithin(g, s', r);
    OfferedWithin(g, s, n);
    OfferedWithin(g, s', n);
    QueueKept(g, q, s.ranks[q], s.ranks[r], s'.ranks[q], s'.ranks[r]);
    QueueKept(g, r, s.ranks[r], s.ranks[n], s'.ranks[r], s'.ranks[n]);
    assert Abstract(g, s').queues[r] == Abstract(g, s).queues[r];
    assert Abstract(g, s').queues[n] == Abstract(g, s).queues[n];
  }

  lemma SameSendsReflexive<T>(g: Ring<T>, q: nat, me: Zero.Rank<T>)
    requires g.Valid() && q < g.size
    ensures SameSends(g, q, me, me)
  {}

  lemma OfferedWithin<T>(g: Ring<T>, s: Zero.State<T>, r: nat)
    requires g.Valid() && ZeroInv.Inv(g, s) && r < g.size
    ensures |s.ranks| == g.size
    ensures var w := ZeroInv.Receives(g, r, s.ranks[r]);
            w.waited <= ZeroInv.Offered(g, Prev(g.size, r), s.ranks[Prev(g.size, r)], w) <= w.posted
  {
    hide ZeroInv.Inv, ZeroInv.RankOk, ZeroInv.FlightsOk, ZeroInv.LandedOk, ZeroInv.SourcesOk, ZeroInv.SendsFrom,
         ZeroInv.ReceivesFrom, ZeroInv.DescriptorsFrom, ZeroInv.Receives, ZeroInv.Sends, ZeroInv.Offered;
    Network.TrafficAt(g, s, r);
  }

  lemma SameSendsWhenSilent<T>(g: Ring<T>, r: nat, me: Zero.Rank<T>, me': Zero.Rank<T>)
    requires g.Valid() && r < g.size && ZeroInv.SilentMove(g, r, me, me')
    ensures SameSends(g, r, me, me')
    ensures var w, w' := ZeroInv.Receives(g, r, me), ZeroInv.Receives(g, r, me');
             || (w'.call == w.call && w'.step == w.step && w'.waited == w.waited)
             || (w.waited == w.posted && w'.waited == w'.posted)
  {
    hide ZeroInv.WaitedAt, ZeroInv.RequestedAt, ZeroInv.SentAt, ZeroInv.SendWaitedAt, ZeroInv.Receives, ZeroInv.Sends;
  }

  lemma SameSendsOtherwise<T>(g: Ring<T>, r: nat, me: Zero.Rank<T>, stage: Stage, me': Zero.Rank<T>)
    requires g.Valid() && Steps.Calls(g, r, me, stage, me') && stage != PostSends
    ensures SameSends(g, r, me, me')
  {
    hide ZeroInv.SentAt, Steps.Calls;
    RevealCall(g, r, me, stage, me');
    forall c: nat, t: nat | c < |g.calls|
      ensures ZeroInv.SentAt(g, r, me'.call, me'.at, c, t) == ZeroInv.SentAt(g, r, me.call, me.at, c, t)
    {
      Steps.CallCounts(g, r, me, stage, me', c, t);
    }
  }

  lemma RevealCall<T>(g: Ring<T>, r: nat, me: Zero.Rank<T>, stage: Stage, me': Zero.Rank<T>)
    requires g.Valid() && Steps.Calls(g, r, me, stage, me')
    ensures r < g.size && me'.call == me.call
  {}

  /** The move of rank `r` from `s` to `s'`, seen as a move of the other machine. */
  ghost predicate Simulated<T>(g: Ring<T>, s: Zero.State<T>, s': Zero.State<T>, r: nat)
    requires g.Valid() && g.TagsFit() && ZeroInv.Inv(g, s) && ZeroInv.Inv(g, s')
  {
    Copying.Enabled(g, Abstract(g, s), r) && Copying.Step(g, Abstract(g, s), r) == Abstract(g, s')
  }

  /** A rank that passed its cursor's test or call, and queues left alone. */
  lemma Advanced<T>(g: Ring<T>, s: Zero.State<T>, s': Zero.State<T>, r: nat)
    requires g.Valid() && g.TagsFit() && ZeroInv.Inv(g, s) && ZeroInv.Inv(g, s') && r < g.size
    requires |s.ranks| == |s'.ranks| == g.size && s'.ranks == s.ranks[r := s'.ranks[r]]
    requires var me := s.ranks[r];
             Steps.Onward(g, r, me, s'.ranks[r]) && !(g.LocalOf(r, me.call).Acting(me.at) && me.at.stage == WaitReceives)
    requires Abstract(g, s').queues == Abstract(g, s).queues
    ensures var c := Abstract(g, s);
            Abstract(g, s') == Copying.State(c.ranks[r := c.ranks[r].(at := s'.ranks[r].at)], c.queues)
  {
    hide ZeroInv.Inv, Abstract, Ring.TagsFit, QueueAt, Buffer, Local.Acting, Local.Advance, Local.CursorOk, Local.Finished;
    BufferKept(g, r, s.ranks[r], s'.ranks[r]);
    MoveFrame(g, s, s', r);
  }

  /** The copying machine passes the same test, or the wait for a send. */
  lemma CopiedAdvance<T>(g: Ring<T>, c: Copying.State<T>, r: nat)
    requires g.Valid() && Copying.Running(g, c, r) && !Copying.Me(g, c, r).Finished(c.ranks[r].at)
    requires !Copying.Me(g, c, r).Acting(c.ranks[r].at) || c.ranks[r].at.stage == WaitSends
    ensures Copying.Enabled(g, c, r)
    ensures Copying.Step(g, c, r)
            == Copying.State(c.ranks[r := c.ranks[r].(at := Copying.Me(g, c, r).Advance(c.ranks[r].at))], c.queues)
  {
    hide Local.Acting, Local.Advance, Local.CursorOk, Local.Finished;
  }

  lemma SilentSimulated<T>(g: Ring<T>, s: Zero.State<T>, r: nat)
    requires g.Valid() && g.TagsFit() && ZeroInv.Inv(g, s) && Zero.Running(g, s, r)
    requires !Zero.Me(g, s, r).Finished(s.ranks[r].at) && !Zero.Me(g, s, r).Acting(s.ranks[r].at)
    requires ZeroInv.Inv(g, Zero.AdvanceRank(g, s, r))
    ensures Simulated(g, s, Zero.AdvanceRank(g, s, r), r)
  {
    hide ZeroInv.Inv, ZeroInv.SilentMove, ZeroInv.Receives, Abstract, Ring.TagsFit, Local.Acting, Local.Advance,
         Local.Finished, SameSends, Buffer;
    var me, s' := s.ranks[r], Zero.AdvanceRank(g, s, r);
    assert Steps.Onward(g, r, me, s'.ranks[r]);
    Steps.SilentAdvanceOk(g, s, r);
    SameSendsWhenSilent(g, r, me, s'.ranks[r]);
    SameRank(g, s, r);
    QueuesKept(g, s, s', r);
    Advanced(g, s, s', r);
    CopiedAdvance(g, Abstract(g, s), r);
  }

  lemma WaitSendSimulated<T>(g: Ring<T>, s: Zero.State<T>, r: nat)
    requires g.Valid() && g.TagsFit() && ZeroInv.Inv(g, s) && Zero.Acting(g, s, r, WaitSends)
    requires ZeroInv.Inv(g, Zero.WaitSend(g, s, r))
    ensures Simulated(g, s, Zero.WaitSend(g, s, r), r)
  {
    hide ZeroInv.Inv, ZeroInv.Receives, ZeroInv.RankOk, ZeroInv.LinkOk, Abstract, Ring.TagsFit, SameSends, Zero.WaitSend, Buffer;
    Steps.InvAt(g, s, r);
    Steps.WaitSendState(g, s, r);
    var me, s' := s.ranks[r], Zero.WaitSend(g, s, r);
    assert Steps.Calls(g, r, me, WaitSends, s'.ranks[r]);
    hide Local.Acting, Local.Advance, Local.Finished;
    SameSendsOtherwise(g, r, me, WaitSends, s'.ranks[r]);
    Steps.CallWindows(g, r, me, WaitSends, s'.ranks[r]);
    SameRank(g, s, r);
    QueuesKept(g, s, s', r);
    Advanced(g, s, s', r);
    CopiedAdvance(g, Abstract(g, s), r);
  }

  // --- returning from a call ------------------------------------------------------------

  lemma ReturnBuffers<T>(g: Ring<T>, r: nat, me: Zero.Rank<T>)
    requires g.Valid() && r < g.size && ZeroInv.RankOk(g, r, me) && me.call < |g.calls|
    requires g.LocalOf(r, me.call).Finished(me.at)
    ensures Buffer(g, r, me.call, me.at) == me.work
    ensures me.call + 1 < |g.calls| ==> Buffer(g, r, me.call + 1, START) == g.calls[me.call + 1].input[r]
  {
    hide ResultsOk, ZeroInv.Receives, ZeroInv.Sends, Shape.Pieces;
    forall i | 0 <= i < |me.work|
      ensures me.work[i] == g.Expected(r, me.call, me.at, i)
    {
      g.EndValue(r, me.call, me.at, i);
    }
    var c := me.call + 1;
    if c < |g.calls| {
      forall i | 0 <= i < g.calls[c].count
        ensures g.Expected(r, c, START, i) == g.calls[c].input[r][i]
      {
        g.StartValue(r, c, i);
      }
    }
  }

  lemma ReturnQueues<T>(g: Ring<T>, s: Zero.State<T>, r: nat)
    requires g.Valid() && g.TagsFit() && ZeroInv.Inv(g, s) && Zero.Running(g, s, r)
    requires Zero.Me(g, s, r).Finished(s.ranks[r].at) && ZeroInv.Inv(g, Zero.Return(g, s, r))
    ensures Abstract(g, Zero.Return(g, s, r)).queues == Abstract(g, s).queues
  {
    var me, s' := s.ranks[r], Zero.Return(g, s, r);
    hide ZeroInv.Inv, ZeroInv.Receives, ZeroInv.SilentMove, Abstract, Ring.TagsFit, Local.Finished, SameSends;
    Steps.ReturnSilent(g, s, r);
    SameSendsWhenSilent(g, r, me, s'.ranks[r]);
    QueuesKept(g, s, s', r);
  }

  lemma ReturnedRank<T>(g: Ring<T>, r: nat, me: Zero.Rank<T>, me': Zero.Rank<T>)
    requires g.Valid() && r < g.size && ZeroInv.RankOk(g, r, me) && me.call < |g.calls|
    requires g.LocalOf(r, me.call).Finished(me.at)
    requires me'.call == me.call + 1 && me'.at == START && me'.out == me.out + [me.work] && me'.status == Success
    ensures var c, c' := RankOf(g, r, me), RankOf(g, r, me');
            c' == Copying.Rank(c.call + 1, START, if c.call + 1 < |g.calls| then g.calls[c.call + 1].input[r] else c.work,
                               map[], c.out + [c.work], Success)
  {
    hide ZeroInv.RankOk, Buffer, Local.Finished;
    ReturnBuffers(g, r, me);
  }

  lemma CopiedReturn<T>(g: Ring<T>, c: Copying.State<T>, r: nat)
    requires g.Valid() && Copying.Running(g, c, r) && Copying.Me(g, c, r).Finished(c.ranks[r].at)
    ensures Copying.Enabled(g, c, r) && Copying.Step(g, c, r) == Copying.Return(g, c, r)
  {
    hide Copying.Return;
  }

  lemma ReturnSimulated<T>(g: Ring<T>, s: Zero.State<T>, r: nat)
    requires g.Valid() && g.TagsFit() && ZeroInv.Inv(g, s) && Zero.Running(g, s, r)
    requires Zero.Me(g, s, r).Finished(s.ranks[r].at) && ZeroInv.Inv(g, Zero.Return(g, s, r))
    ensures Simulated(g, s, Zero.Return(g, s, r), r)
  {
    hide ZeroInv.Inv, ZeroInv.RankOk, ZeroInv.LinkOk, Abstract, Ring.TagsFit, Local.Acting, Local.CursorOk, Local.Finished,
         Buffer, RankOf, QueueAt;
    Steps.InvAt(g, s, r);
    var s' := Zero.Return(g, s, r);
    ReturnedRank(g, r, s.ranks[r], s'.ranks[r]);
    SameRank(g, s, r);
    ReturnQueues(g, s, r);
    MoveFrame(g, s, s', r);
    CopiedReturn(g, Abstract(g, s), r);
  }

  // --- posting a receive ------------------------------------------------------------------

  lemma NoMatch<T>(queue: seq<Copying.Message<T>>, tag: nat)
    requires forall k :: 0 <= k < |queue| ==> queue[k].tag != tag
    ensures Copying.FirstMatch(queue, tag) == |queue|
  {}

  lemma TagsDiffer<T>(g: Ring<T>, r: nat, other: Id, id: Id)
    requires g.Valid() && g.TagsFit() && r < g.size && ZeroInv.Named(g, r, other) && ZeroInv.Named(g, r, id)
    requires other.call == id.call && other.piece != id.piece
    ensures MessageFor(g, r, other).tag != g.TagOf(id).tag
  {
    hide Ring.TagOf, Ring.TagsFit;
    if g.TagOf(other) == g.TagOf(id) {
      g.TagDistinguishes(r, other, id);
    }
  }

  /** A receive is posted before its message is sent. */
  lemma NothingToTake<T>(g: Ring<T>, q: nat, sender: Zero.Rank<T>, me: Zero.Rank<T>, id: Id)
    requires g.Valid() && g.TagsFit() && q < g.size && Queueable(g, q, sender, me) && ZeroInv.Named(g, Next(g.size, q), id)
    requires var w := ZeroInv.Receives(g, Next(g.size, q), me);
             id == ZeroInv.IdAt(w, w.posted) && ZeroInv.Offered(g, q, sender, w) <= w.posted
    ensures Copying.FirstMatch(QueueOf(g, q, sender, me), g.TagOf(id).tag) == |QueueOf(g, q, sender, me)|
  {
    var tag := g.TagOf(id).tag;
    hide ZeroInv.Receives, ZeroInv.Offered, ZeroInv.Named, Ring.TagOf, Queue, Ring.TagsFit, MessageFor;
    var r, w, queue := Next(g.size, q), ZeroInv.Receives(g, Next(g.size, q), me), QueueOf(g, q, sender, me);
    forall k | 0 <= k < |queue|
      ensures queue[k].tag != tag
    {
      assert ZeroInv.Named(g, r, Id(w.call, w.step, w.waited + k));
      TagsDiffer(g, r, Id(w.call, w.step, w.waited + k), id);
    }
    NoMatch(queue, tag);
  }

  lemma PostReceiveSimulated<T>(g: Ring<T>, s: Zero.State<T>, r: nat)
    requires g.Valid() && g.TagsFit() && ZeroInv.FitsDevice(g) && ZeroInv.Inv(g, s) && Zero.Acting(g, s, r, PostReceives)
    requires ZeroInv.Inv(g, Zero.PostReceive(g, s, r))
    ensures Simulated(g, s, Zero.PostReceive(g, s, r), r)
  {
    hide ZeroInv.Inv, ZeroInv.Receives, ZeroInv.RankOk, ZeroInv.LinkOk, Abstract, Ring.TagsFit, SameSends, Zero.PostReceive,
         ZeroInv.ReceiveFor, ZeroInv.FitsDevice, Queueable, QueueOf, Ring.TagOf, Ring.IdOk, ZeroInv.Offered, Buffer;
    Steps.InvAt(g, s, r);
    Steps.PostReceiveState(g, s, r);
    var me, s' := s.ranks[r], Zero.PostReceive(g, s, r);
    assert Steps.Calls(g, r, me, PostReceives, s'.ranks[r]);
    hide Local.Acting, Local.Advance, Local.Finished;
    SameSendsOtherwise(g, r, me, PostReceives, s'.ranks[r]);
    Steps.CallWindows(g, r, me, PostReceives, s'.ranks[r]);
    SameRank(g, s, r);
    QueuesKept(g, s, s', r);
    Advanced(g, s, s', r);
    NothingForDue(g, s, r, s'.ranks[r]);
    NotDeliverable(g, s, s', r);
  }

  lemma NothingForDue<T>(g: Ring<T>, s: Zero.State<T>, r: nat, me': Zero.Rank<T>)
    requires g.Valid() && g.TagsFit() && ZeroInv.Inv(g, s) && Zero.Acting(g, s, r, PostReceives)
    requires Steps.Calls(g, r, s.ranks[r], PostReceives, me')
    ensures g.TagOf(Zero.Due(g, s, r)).Tag?
    ensures Copying.FirstMatch(QueueAt(g, s, r), g.TagOf(Zero.Due(g, s, r)).tag) == |QueueAt(g, s, r)|
  {
    hide ZeroInv.Inv, ZeroInv.Receives, ZeroInv.Offered, Ring.TagsFit, Queueable, QueueOf, Ring.TagOf, Ring.IdOk, Steps.Calls;
    Steps.CallPiece(g, r, s.ranks[r], PostReceives, me');
    g.TagInRange(r, Zero.Due(g, s, r));
    assert ZeroInv.Named(g, r, Zero.Due(g, s, r));
    hide ZeroInv.Named;
    OfferedWithin(g, s, r);
    AllQueueable(g, s, r);
    NothingToTake(g, Prev(g.size, r), s.ranks[Prev(g.size, r)], s.ranks[r], Zero.Due(g, s, r));
  }

  lemma NotDeliverable<T>(g: Ring<T>, s: Zero.State<T>, s': Zero.State<T>, r: nat)
    requires g.Valid() && g.TagsFit() && ZeroInv.Inv(g, s) && ZeroInv.Inv(g, s') && Zero.Acting(g, s, r, PostReceives)
    requires Copying.Acting(g, Abstract(g, s), r, PostReceives) && Copying.Due(g, Abstract(g, s), r) == Zero.Due(g, s, r)
    requires Abstract(g, s') == Copying.AdvanceRank(g, Abstract(g, s), r) && g.TagOf(Zero.Due(g, s, r)).Tag?
    requires Abstract(g, s).ranks[r] == RankOf(g, r, s.ranks[r])
    requires Copying.FirstMatch(QueueAt(g, s, r), g.TagOf(Zero.Due(g, s, r)).tag) == |QueueAt(g, s, r)|
    ensures Simulated(g, s, s', r)
  {
    hide ZeroInv.Inv, Ring.TagsFit, Ring.TagOf, Ring.IdOk, QueueAt, Copying.FirstMatch;
    var c := Abstract(g, s);
    hide Abstract;
    assert c.queues[r] == QueueAt(g, s, r);
    assert Copying.Enabled(g, c, r) && !Copying.Me(g, c, r).Finished(c.ranks[r].at);
    StepKept(Copying.Me(g, c, r), c.ranks[r].at);
  }

  // --- posting a send -------------------------------------------------------------------------

  /** The copy taken when the send is posted is what the receiver ends up with. */
  lemma PayloadCopied<T>(g: Ring<T>, q: nat, at: Cursor, id: Id)
    requires g.Valid() && q < g.size && id.call < |g.calls| && ZeroInv.Named(g, Next(g.size, q), id)
    requires var loc := g.LocalOf(q, id.call);
             loc.CursorOk(at) && id.step == at.step < loc.Steps() && id.piece < loc.SendPieces(id.step)
    ensures var loc := g.LocalOf(q, id.call);
            var lo, n := loc.SendFirst(id.step, id.piece), loc.SendLength(id.step, id.piece);
            MessageFor(g, Next(g.size, q), id)
            == Copying.Message(id, g.TagOf(id).tag, Buffer(g, q, id.call, at)[lo..lo + n])
  {
    hide ZeroInv.Named, Ring.TagOf, Ring.Sent, Ring.Expected, Ring.Lent, Local.RecvFirst, Local.SendFirst, Local.SendBlock,
         Local.RecvBlock, Shape.Pieces;
    var loc, r := g.LocalOf(q, id.call), Next(g.size, q);
    g.SameLink(q, id.call, id.step);
    var lo, n := loc.SendFirst(id.step, id.piece), loc.SendLength(id.step, id.piece);
    var work := Buffer(g, q, id.call, at);
    var payload := MessageFor(g, r, id).payload;
    forall j | 0 <= j < n
      ensures payload[j] == work[lo..lo + n][j]
    {
      loc.RegionsCover(id.step, id.piece, lo + j);
      g.SendValue(q, id.call, at, lo + j);
    }
  }

  lemma PostSendQueues<T>(g: Ring<T>, s: Zero.State<T>, s': Zero.State<T>, r: nat)
    requires g.Valid() && g.TagsFit() && ZeroInv.Inv(g, s) && ZeroInv.Inv(g, s') && Zero.Acting(g, s, r, PostSends)
    requires s.links[Next(g.size, r)].descriptors != []
    requires |s.ranks| == |s'.ranks| == g.size && s'.ranks == s.ranks[r := s'.ranks[r]]
    requires Steps.Calls(g, r, s.ranks[r], PostSends, s'.ranks[r])
    ensures ZeroInv.Named(g, Next(g.size, r), Zero.Due(g, s, r))
    ensures Abstract(g, s').queues == Abstract(g, s).queues[
              Next(g.size, r) := Abstract(g, s).queues[Next(g.size, r)] + [MessageFor(g, Next(g.size, r), Zero.Due(g, s, r))]]
  {
    hide ZeroInv.Inv, ZeroInv.Receives, ZeroInv.RankOk, ZeroInv.OrderOk, ZeroInv.TrafficOk, Abstract, Ring.TagsFit, Local.Acting,
         Local.Advance, SameSends, Queueable, QueueOf, ZeroInv.Named, MessageFor, ZeroInv.Offered, ZeroInv.SentAt,
         ZeroInv.Sends, Local.CursorOk, ZeroInv.ReceiveFor;
    var me, me', q, n := s.ranks[r], s'.ranks[r], Prev(g.size, r), Next(g.size, r);
    Steps.InvAt(g, s, r);
    Steps.PostSendDue(g, s, r);
    Steps.CallWindows(g, r, me, PostSends, me');
    Steps.CallPiece(g, r, me, PostSends, me');
    Steps.OrderAfterSend(g, r, me, me', s.ranks[n], s.links[n]);
    hide Steps.Calls, ZeroInv.LinkOk;
    RotationsAgree(g.size, r, 0);
    MoveFrame(g, s, s', r);
    AllQueueable(g, s, r);
    AllQueueable(g, s', r);
    AllQueueable(g, s, n);
    AllQueueable(g, s', n);
    SameSendsReflexive(g, q, s.ranks[q]);
    QueueKept(g, q, s.ranks[q], me, s.ranks[q], me');
    QueueGrows(g, r, me, s.ranks[n], me', Zero.Due(g, s, r));
    assert QueueAt(g, s', r) == Abstract(g, s).queues[r];
  }

  lemma SentCopy<T>(g: Ring<T>, c: Copying.State<T>, r: nat, id: Id)
    requires g.Valid() && Copying.Acting(g, c, r, PostSends) && id == Copying.Due(g, c, r)
    requires ZeroInv.Named(g, Next(g.size, r), id) && c.ranks[r].work == Buffer(g, r, id.call, c.ranks[r].at)
    ensures var at, n := Copying.Me(g, c, r).Advance(c.ranks[r].at), Next(g.size, r);
            && Copying.Enabled(g, c, r)
            && Copying.Step(g, c, r) == Copying.State(
                 c.ranks[r := c.ranks[r].(at := at)], c.queues[n := c.queues[n] + [MessageFor(g, n, id)]])
  {
    hide ZeroInv.Named, Ring.TagOf, Buffer, MessageFor, Local.Advance, Local.SendFirst;
    PayloadCopied(g, r, c.ranks[r].at, id);
    TagMade(g, Next(g.size, r), id);
  }

  lemma PostSendSimulated<T>(g: Ring<T>, s: Zero.State<T>, r: nat)
    requires g.Valid() && g.TagsFit() && ZeroInv.FitsDevice(g) && ZeroInv.Inv(g, s) && Zero.Acting(g, s, r, PostSends)
    requires s.links[Next(g.size, r)].descriptors != [] && ZeroInv.Inv(g, Zero.PostSend(g, s, r))
    ensures Simulated(g, s, Zero.PostSend(g, s, r), r)
  {
    hide ZeroInv.Inv, ZeroInv.FitsDevice, Abstract, Ring.TagsFit, Zero.PostSend, Queueable, QueueOf, ZeroInv.Named,
         ZeroInv.SendFor, Ring.TagOf, Buffer, MessageFor;
    Steps.PostSendState(g, s, r);
    var me, s' := s.ranks[r], Zero.PostSend(g, s, r);
    var me' := s'.ranks[r];
    assert Steps.Calls(g, r, me, PostSends, me');
    BufferKept(g, r, me, me');
    PostSendQueues(g, s, s', r);
    hide Steps.Calls;
    SameRank(g, s, r);
    MoveFrame(g, s, s', r);
    hide Local.Advance;
    SentCopy(g, Abstract(g, s), r, Zero.Due(g, s, r));
  }

  lemma TagMade<T>(g: Ring<T>, r: nat, id: Id)
    requires g.Valid() && r < g.size && ZeroInv.Named(g, r, id)
    ensures g.TagOf(id).Tag?
  {
    hide Ring.TagOf, Ring.IdOk;
  }

  // --- waiting for a receive ------------------------------------------------------------------

  lemma ElementStepped<T>(g: Ring<T>, r: nat, c: nat, at: Cursor, first: nat, n: nat, i: nat)
    requires g.Valid() && r < g.size && c < |g.calls| && i < g.calls[c].count
    requires var loc := g.LocalOf(r, c);
             && loc.CursorOk(at) && loc.Acting(at) && at.stage == WaitReceives && at.piece < loc.RecvPieces(at.step)
             && first == loc.RecvFirst(at.step, at.piece) && n == loc.RecvLength(at.step, at.piece)
    ensures var loc := g.LocalOf(r, c);
            g.Expected(r, c, loc.Advance(at), i)
            == if !(first <= i < first + n) then g.Expected(r, c, at, i)
               else if loc.Gathering(at.step) then g.Sent(c, at.step, i)
               else g.calls[c].op(g.Expected(r, c, at, i), g.Sent(c, at.step, i))
  {
    hide Ring.Sent, Ring.Expected, Local.RecvFirst, Local.RecvBlock, Local.Advance, Shape.Pieces;
    g.LocalOf(r, c).RegionsCover(at.step, at.piece, i);
    g.ReceiveValue(r, c, at, i);
  }

  /** Delivering and consuming the message at once is what the wait does. */
  lemma BufferStepped<T>(g: Ring<T>, r: nat, c: nat, at: Cursor, id: Id)
    requires g.Valid() && r < g.size && c < |g.calls| && id == Id(c, at.step, at.piece) && ZeroInv.Named(g, r, id)
    requires var loc := g.LocalOf(r, c); loc.CursorOk(at) && loc.Acting(at) && at.stage == WaitReceives
    ensures var loc := g.LocalOf(r, c);
            var first, payload := loc.RecvFirst(id.step, id.piece), MessageFor(g, r, id).payload;
            && |payload| == loc.RecvLength(id.step, id.piece)
            && Buffer(g, r, c, loc.Advance(at))
               == if loc.Gathering(id.step) then Overwrite(Buffer(g, r, c, at), first, payload)
                  else Combine(g.calls[c].op, Buffer(g, r, c, at), first, payload)
  {
    hide ZeroInv.Named, Ring.TagOf, Ring.Sent, Ring.Expected, Local.RecvFirst, Local.Advance, Shape.Pieces, Overwrite, Combine;
    var loc, payload := g.LocalOf(r, c), MessageFor(g, r, id).payload;
    assert id.piece < loc.RecvPieces(id.step);
    hide Local.Acting, Local.CursorOk, Local.RecvPieces;
    var first, n := loc.RecvFirst(id.step, id.piece), loc.RecvLength(id.step, id.piece);
    var before, after := Buffer(g, r, c, at), Buffer(g, r, c, loc.Advance(at));
    assert |payload| == n && forall i :: first <= i < first + n ==> payload[i - first] == g.Sent(c, at.step, i);
    hide MessageFor;
    forall i | 0 <= i < |after|
      ensures after[i] == if !(first <= i < first + n) then before[i]
                          else if loc.Gathering(at.step) then payload[i - first]
                          else g.calls[c].op(before[i], payload[i - first])
    {
      ElementStepped(g, r, c, at, first, n, i);
    }
    hide Buffer;
    if loc.Gathering(id.step) {
      IsOverwrite(before, after, first, payload);
    } else {
      IsCombine(g.calls[c].op, before, after, first, payload);
    }
  }

  lemma WaitReceiveQueues<T>(g: Ring<T>, s: Zero.State<T>, s': Zero.State<T>, r: nat)
    requires g.Valid() && g.TagsFit() && ZeroInv.Inv(g, s) && ZeroInv.Inv(g, s') && Zero.Acting(g, s, r, WaitReceives)
    requires |s.ranks| == |s'.ranks| == g.size && s'.ranks == s.ranks[r := s'.ranks[r]]
    requires Steps.Calls(g, r, s.ranks[r], WaitReceives, s'.ranks[r])
    ensures ZeroInv.Named(g, r, Zero.Due(g, s, r))
    ensures Abstract(g, s).queues[r] == [MessageFor(g, r, Zero.Due(g, s, r))] + Abstract(g, s').queues[r]
    ensures Abstract(g, s').queues == Abstract(g, s).queues[r := Abstract(g, s').queues[r]]
  {
    hide ZeroInv.Inv, ZeroInv.Receives, ZeroInv.RankOk, ZeroInv.LinkOk, Abstract, Ring.TagsFit, Local.Acting,
         Local.Advance, SameSends, Queueable, QueueOf, ZeroInv.Named, MessageFor, ZeroInv.Offered, ZeroInv.SentAt,
         ZeroInv.Sends, Local.CursorOk, Ring.IdOk, Local.RecvPieces, Local.SendPieces, Steps.Calls;
    var me, me', q, n := s.ranks[r], s'.ranks[r], Prev(g.size, r), Next(g.size, r);
    Steps.CallWindows(g, r, me, WaitReceives, me');
    Steps.CallPiece(g, r, me, WaitReceives, me');
    SameSendsOtherwise(g, r, me, WaitReceives, me');
    RotationsAgree(g.size, r, 0);
    MoveFrame(g, s, s', r);
    AllQueueable(g, s, r);
    AllQueueable(g, s', r);
    AllQueueable(g, s, n);
    AllQueueable(g, s', n);
    QueueShrinks(g, q, s.ranks[q], me, me', Zero.Due(g, s, r));
    QueueKept(g, r, me, s.ranks[n], me', s.ranks[n]);
    assert QueueAt(g, s', n) == Abstract(g, s).queues[n];
  }

  lemma FirstIsTaken<T>(m: Copying.Message<T>, rest: seq<Copying.Message<T>>)
    ensures Copying.FirstMatch([m] + rest, m.tag) == 0 && Copying.Without([m] + rest, 0) == rest
  {}

  lemma TakenAtOnce<T>(g: Ring<T>, c: Copying.State<T>, r: nat, rest: seq<Copying.Message<T>>, id: Id)
    requires g.Valid() && Copying.Acting(g, c, r, WaitReceives) && id == Copying.Due(g, c, r) && ZeroInv.Named(g, r, id)
    requires c.ranks[r].ready == map[] && c.queues[r] == [MessageFor(g, r, id)] + rest
    requires c.ranks[r].work == Buffer(g, r, id.call, c.ranks[r].at)
    ensures var at := Copying.Me(g, c, r).Advance(c.ranks[r].at);
            && Copying.Enabled(g, c, r)
            && Copying.Step(g, c, r) == Copying.State(
                 c.ranks[r := c.ranks[r].(at := at, work := Buffer(g, r, id.call, at))], c.queues[r := rest])
  {
    hide ZeroInv.Value, Ring.TagOf, Buffer, Local.RecvFirst, Copying.FirstMatch, Copying.Without, Local.Advance, Overwrite, Combine;
    var me := c.ranks[r];
    BufferStepped(g, r, me.call, me.at, id);
    FirstIsTaken(MessageFor(g, r, id), rest);
    assert Copying.Deliverable(g, c, r, me.at.piece);
  }

  lemma WaitReceiveSimulated<T>(g: Ring<T>, s: Zero.State<T>, r: nat)
    requires g.Valid() && g.TagsFit() && ZeroInv.Inv(g, s) && Zero.Acting(g, s, r, WaitReceives)
    requires Zero.Due(g, s, r) in s.ranks[r].received && ZeroInv.Inv(g, Zero.WaitReceive(g, s, r))
    ensures Simulated(g, s, Zero.WaitReceive(g, s, r), r)
  {
    var me, s' := s.ranks[r], Zero.WaitReceive(g, s, r);
    hide ZeroInv.Inv, Abstract, Ring.TagsFit, Zero.WaitReceive, ZeroInv.Named, Buffer, MessageFor, Steps.PieceStepped;
    Steps.WaitReceiveState(g, s, r);
    var me' := s'.ranks[r];
    assert Steps.Calls(g, r, me, WaitReceives, me');
    WaitReceiveQueues(g, s, s', r);
    hide Steps.Calls;
    SameRank(g, s, r);
    MoveFrame(g, s, s', r);
    hide Local.Advance;
    TakenAtOnce(g, Abstract(g, s), r, Abstract(g, s').queues[r], Zero.Due(g, s, r));
  }

  // --- runs --------------------------------------------------------------------------------------

  lemma MoveSimulated<T>(g: Ring<T>, s: Zero.State<T>, r: nat)
    requires g.Valid() && g.TagsFit() && ZeroInv.FitsDevice(g) && ZeroInv.Inv(g, s) && Zero.Enabled(g, s, Zero.Move(r))
    ensures ZeroInv.Inv(g, Zero.Step(g, s, Zero.Move(r))) && Simulated(g, s, Zero.Step(g, s, Zero.Move(r)), r)
  {
    Theorems.StepInv(g, s, Zero.Move(r));
    hide ZeroInv.Inv, ZeroInv.FitsDevice, Ring.TagsFit, Simulated, Zero.PostReceive, Zero.PostSend, Zero.WaitReceive,
         Zero.WaitSend, Zero.Return, Local.Advance;
    if Zero.Me(g, s, r).Finished(s.ranks[r].at) {
      ReturnSimulated(g, s, r);
    } else if Zero.Acting(g, s, r, PostReceives) {
      PostReceiveSimulated(g, s, r);
    } else if Zero.Acting(g, s, r, PostSends) {
      Steps.DescriptorCame(g, s, r);
      PostSendSimulated(g, s, r);
    } else if Zero.Acting(g, s, r, WaitReceives) {
      WaitReceiveSimulated(g, s, r);
    } else if Zero.Acting(g, s, r, WaitSends) {
      WaitSendSimulated(g, s, r);
    } else {
      SilentSimulated(g, s, r);
    }
  }

  /** The ranks that move in a run, in order. */
  function Moves(run: seq<Zero.Label>): seq<nat> {
    if run == [] then [] else (if run[0].Move? then [run[0].r] else []) + Moves(run[1..])
  }

  /** Forward simulation from any reachable state. */
  lemma {:induction false} RunSimulated<T>(g: Ring<T>, s: Zero.State<T>, run: seq<Zero.Label>)
    requires g.Valid() && g.TagsFit() && ZeroInv.FitsDevice(g) && ZeroInv.Inv(g, s) && Zero.Executable(g, s, run)
    ensures ZeroInv.Inv(g, Zero.After(g, s, run))
    ensures Copying.Executable(g, Abstract(g, s), Moves(run))
    ensures Copying.After(g, Abstract(g, s), Moves(run)) == Abstract(g, Zero.After(g, s, run))
    decreases |run|
  {
    hide ZeroInv.Inv, ZeroInv.FitsDevice, Ring.TagsFit, Abstract, Zero.Step, Zero.Enabled, Copying.Step, Copying.Enabled;
    if run != [] {
      if run[0].Move? {
        MoveSimulated(g, s, run[0].r);
        assert Moves(run)[1..] == Moves(run[1..]);
      } else {
        NetworkStutters(g, s, run[0]);
        assert Moves(run) == Moves(run[1..]);
      }
      RunSimulated(g, Zero.Step(g, s, run[0]), run[1..]);
    }
  }

  lemma InitialAbstract<T>(g: Ring<T>)
    requires g.Valid() && g.TagsFit()
    ensures ZeroInv.Inv(g, Zero.Initial(g)) && Abstract(g, Zero.Initial(g)) == Copying.Initial(g)
  {
    ZeroInv.InitialInv(g);
    var s, c := Zero.Initial(g), Copying.Initial(g);
    hide ZeroInv.Inv, Ring.TagsFit, Ring.Expected, Abstract, MessageFor, ZeroInv.Named;
    forall r | 0 <= r < g.size
      ensures RankOf(g, r, s.ranks[r]) == c.ranks[r] && QueueAt(g, s, r) == []
    {
      if g.calls != [] {
        forall i | 0 <= i < g.calls[0].count
          ensures g.Expected(r, 0, START, i) == g.calls[0].input[r][i]
        {
          g.StartValue(r, 0, i);
        }
      }
    }
    assert Abstract(g, s).ranks == c.ranks && Abstract(g, s).queues == c.queues;
  }

  /** Zero-copy refines copy-on-send: the ranks' moves of every run over the
    zero-copy transport form a run over the copying transport, and both leave
    every rank at the same point with the same results. */
  lemma ZeroCopyRefinesCopying<T>(g: Ring<T>, run: seq<Zero.Label>)
    requires g.Valid() && g.TagsFit() && ZeroInv.FitsDevice(g) && Zero.Executable(g, Zero.Initial(g), run)
    ensures Copying.Executable(g, Copying.Initial(g), Moves(run))
    ensures var z, c := Zero.After(g, Zero.Initial(g), run), Copying.After(g, Copying.Initial(g), Moves(run));
            && |z.ranks| == |c.ranks| == g.size
            && forall r :: 0 <= r < g.size ==>
                 && z.ranks[r].call == c.ranks[r].call && z.ranks[r].at == c.ranks[r].at
                 && z.ranks[r].status == c.ranks[r].status && z.ranks[r].out == c.ranks[r].out
  {
    hide ZeroInv.Inv, ZeroInv.FitsDevice, Ring.TagsFit, Zero.Executable, Copying.Executable, Zero.After, Copying.After,
         Zero.Initial, Copying.Initial, Abstract, QueueOf, Queueable;
    InitialAbstract(g);
    RunSimulated(g, Zero.Initial(g), run);
  }
}
