/** The main results about the zero-copy ring. */
module ZeroCopyTheorems {
  import opened RingArithmetic
  import opened BlockLayout
  import opened Tags
  import opened Schedule
  import opened Group
  import opened ZeroCopyRing
  import opened ZeroCopyInvariant
  import opened ZeroCopySteps
  import opened ZeroCopyNetwork

  lemma StepInv<T>(g: Ring<T>, s: State<T>, l: Label)
    requires g.Valid() && g.TagsFit() && FitsDevice(g) && Inv(g, s) && Enabled(g, s, l)
    ensures Inv(g, Step(g, s, l))
  {
    hide Inv, Local.Advance, Ring.TagsFit, FitsDevice, PostReceive, PostSend, WaitReceive, WaitSend, Return;
    match l
    case Move(r) => MoveInv(g, s, r);
    case Match(r) => MatchInv(g, s, r);
    case Read(r, id, j) => ReadInv(g, s, r, id, j);
    case Land(r, id, j) => LandInv(g, s, r, id, j);
    case Arrive(r, id) => ArriveInv(g, s, r, id);
    case Ack(r, id) => AckInv(g, s, r, id);
  }

  lemma MoveInv<T>(g: Ring<T>, s: State<T>, r: nat)
    requires g.Valid() && g.TagsFit() && FitsDevice(g) && Inv(g, s) && Enabled(g, s, Move(r))
    ensures Inv(g, Step(g, s, Move(r)))
  {
    hide Inv, Local.Advance, Ring.TagsFit, FitsDevice, PostReceive, PostSend, WaitReceive, WaitSend, Return;
    if Me(g, s, r).Finished(s.ranks[r].at) {
      ReturnInv(g, s, r);
    } else if Acting(g, s, r, PostReceives) {
      PostReceiveInv(g, s, r);
    } else if Acting(g, s, r, PostSends) {
      DescriptorCame(g, s, r);
      PostSendInv(g, s, r);
    } else if Acting(g, s, r, WaitReceives) {
      WaitReceiveInv(g, s, r);
    } else if Acting(g, s, r, WaitSends) {
      WaitSendInv(g, s, r);
    } else {
      SilentInv(g, s, r);
    }
  }

  /** Every state of every interleaving of ranks and network satisfies the
    invariant; in particular no rank ever fails. */
  lemma {:induction false} RunInv<T>(g: Ring<T>, s: State<T>, run: seq<Label>)
    requires g.Valid() && g.TagsFit() && FitsDevice(g) && Inv(g, s) && Executable(g, s, run)
    ensures Inv(g, After(g, s, run))
    decreases |run|
  {
    if run != [] {
      StepInv(g, s, run[0]);
      RunInv(g, Step(g, s, run[0]), run[1..]);
    }
  }

  /** All-reduce over the zero-copy transport, for every interleaving of the
    ranks, of the matching of requests, of element reads and writes and of
    completions: no rank fails, and every rank that has returned from a call
    holds the ring fold of all inputs. */
  lemma AllReduceCorrect<T>(g: Ring<T>, run: seq<Label>)
    requires g.Valid() && g.TagsFit() && FitsDevice(g) && Executable(g, Initial(g), run)
    ensures var s := After(g, Initial(g), run);
            && |s.ranks| == g.size
            && forall r :: 0 <= r < g.size ==>
                 && s.ranks[r].status == Success && |s.ranks[r].out| == s.ranks[r].call
                 && ResultsOk(g, s.ranks[r].out)
  {
    InitialInv(g);
    RunInv(g, Initial(g), run);
    hide Executable, After, LinkOk, BufferOk;
  }

  /** Every rank's buffer in the middle of a call, in every reachable state:
    only regions lent to outstanding receives may hold anything else. */
  lemma ReachableBuffers<T>(g: Ring<T>, run: seq<Label>, r: nat)
    requires g.Valid() && g.TagsFit() && FitsDevice(g) && Executable(g, Initial(g), run) && r < g.size
    ensures var s := After(g, Initial(g), run);
            && r < |s.ranks|
            && var me := s.ranks[r];
               me.call < |g.calls| ==>
                 && g.LocalOf(r, me.call).CursorOk(me.at) && |me.work| == g.calls[me.call].count
                 && (me.at.step < g.LocalOf(r, me.call).Steps() ==>
                       forall i :: 0 <= i < |me.work| ==>
                         g.Lent(r, me.call, me.at, i) || g.MidCall(r, me.call, me.at, i, me.work[i]))
  {
    InitialInv(g);
    RunInv(g, Initial(g), run);
    var s := After(g, Initial(g), run);
    BufferMidCall(g, s, r);
    hide Executable, After, Initial, Inv, Ring.Lent, Ring.MidCall, Local.CursorOk;
  }

  lemma BufferMidCall<T>(g: Ring<T>, s: State<T>, r: nat)
    requires g.Valid() && Inv(g, s) && r < g.size
    ensures |s.ranks| == g.size
    ensures var me := s.ranks[r];
            me.call < |g.calls| ==>
              && g.LocalOf(r, me.call).CursorOk(me.at) && |me.work| == g.calls[me.call].count
              && (me.at.step < g.LocalOf(r, me.call).Steps() ==>
                    forall i :: 0 <= i < |me.work| ==>
                      g.Lent(r, me.call, me.at, i) || g.MidCall(r, me.call, me.at, i, me.work[i]))
  {
    var me := s.ranks[r];
    assert RankOk(g, r, me);
    hide Inv, LinkOk, ResultsOk, Receives, Sends, Ring.Expected, Ring.Lent, Ring.MidCall;
    if me.call < |g.calls| && me.at.step < g.LocalOf(r, me.call).Steps() {
      forall i | 0 <= i < |me.work|
        ensures g.Lent(r, me.call, me.at, i) || g.MidCall(r, me.call, me.at, i, me.work[i])
      {
        g.ExpectedMidCall(r, me.call, me.at, i);
      }
    }
  }

  // --- FIFO alignment -----------------------------------------------------------

  /** On every link the k-th unmatched send meets the k-th unmatched receive
    work request, and the k-th unread descriptor announces the receive posted
    that many places after all unmatched sends: same piece, tag, size, mode. */
  lemma FifoAlignment<T>(g: Ring<T>, s: State<T>, r: nat)
    requires g.Valid() && Inv(g, s) && r < g.size
    ensures var link := s.links[r];
            && |link.receives| == |link.sends| + |link.descriptors|
            && (forall k :: 0 <= k < |link.sends| ==>
                  var x, w := link.sends[k], link.receives[k];
                  x.id == w.id && x.tag == w.tag && x.mode == w.mode && (x.mode.Eager? ==> w.buffer.size == x.size))
            && (forall k :: 0 <= k < |link.descriptors| ==>
                  var d, w := link.descriptors[k], link.receives[|link.sends| + k];
                  d.tag == w.tag && d.mode == w.mode && (d.mode.Eager? ==> d.region == w.buffer))
  {
    hide Inv, RankOk, FlightsOk, LandedOk, SourcesOk, Receives, Sends, Offered, SendIs, ReceiveIs, DescriptorIs;
    TrafficAt(g, s, r);
    var me, link := s.ranks[r], s.links[r];
    var w := Receives(g, r, me);
    var base := Matched(w, link);
    assert w.waited >= 0;
    forall k | 0 <= k < |link.sends|
      ensures var x, y := link.sends[k], link.receives[k];
              x.id == y.id && x.tag == y.tag && x.mode == y.mode && (x.mode.Eager? ==> y.buffer.size == x.size)
    {
      assert SendIs(g, r, Id(w.call, w.step, base + k), link.sends[k]);
      assert ReceiveIs(g, r, Id(w.call, w.step, base + k), link.receives[k]);
      SameRequest(g, r, Id(w.call, w.step, base + k), link.sends[k], link.receives[k]);
    }
    forall k | 0 <= k < |link.descriptors|
      ensures var d, y := link.descriptors[k], link.receives[|link.sends| + k];
              d.tag == y.tag && d.mode == y.mode && (d.mode.Eager? ==> d.region == y.buffer)
    {
      var m := |link.sends| + k;
      var id := Id(w.call, w.step, base + m);
      assert ReceiveIs(g, r, id, link.receives[m]);
      assert DescriptorIs(g, r, Id(w.call, w.step, base + |link.sends| + k), link.descriptors[k]);
      SameAnnouncement(g, r, id, link.receives[m], link.descriptors[k]);
    }
  }

  lemma SameRequest<T>(g: Ring<T>, r: nat, id: Id, x: SendRequest, w: ReceiveRequest)
    requires g.Valid() && r < g.size && SendIs(g, r, id, x) && ReceiveIs(g, r, id, w)
    ensures x.id == w.id && x.tag == w.tag && x.mode == w.mode && (x.mode.Eager? ==> w.buffer.size == x.size)
  {
    hide Ring.IdOk, Ring.TagOf, Local.RecvFirst;
  }

  lemma SameAnnouncement<T>(g: Ring<T>, r: nat, id: Id, w: ReceiveRequest, d: Descriptor)
    requires g.Valid() && r < g.size && ReceiveIs(g, r, id, w) && DescriptorIs(g, r, id, d)
    ensures d.tag == w.tag && d.mode == w.mode && (d.mode.Eager? ==> d.region == w.buffer)
  {
    hide Ring.IdOk, Ring.TagOf, Local.RecvFirst;
  }

  /** The checks on a descriptor pass whenever a rank takes one, and so do the
    checks on a transfer's length, opcode and immediate tag. */
  lemma ChecksNeverFire<T>(g: Ring<T>, s: State<T>, l: Label)
    requires g.Valid() && g.TagsFit() && FitsDevice(g) && Inv(g, s) && Enabled(g, s, l)
    ensures l.Move? && Acting(g, s, l.r, PostSends) ==>
              s.links[Next(g.size, l.r)].descriptors != [] &&
              var me, d := s.ranks[l.r], s.links[Next(g.size, l.r)].descriptors[0];
              var size := Me(g, s, l.r).SendLength(me.at.step, me.at.piece);
              && g.TagOf(Due(g, s, l.r)) == Tag(d.tag) && d.region.size == size && d.mode == ModeOf(g, me.call, size)
              && me.sending < QUEUE_PAIR_DEPTH
    ensures l.Match? ==> Launch(s.links[l.r]).flights[s.links[l.r].sends[0].id].ok
    ensures l.Arrive? ==> s.links[l.r].flights[l.id].ok
  {
    hide Inv, RankOk, QueuesOk, LandedOk, SourcesOk, TrafficOk, Receives, Sends, Offered, SendFor, ReceiveFor, FlightFor,
         Named, Ring.TagOf, Unmoved, Ring.TagsFit, FitsDevice, FlightsOk;
    match l {
      case Move(r) =>
        if Acting(g, s, r, PostSends) {
          DescriptorCame(g, s, r);
          PostSendDue(g, s, r);
          SendMatchesDescriptor(g, r, Due(g, s, r));
          PostSendRoom(g, s, r);
          NamedTag(g, Next(g.size, r), Due(g, s, r));
        }
      case Match(r) =>
        TrafficAt(g, s, r);
        MatchedIsOk(g, s, r);
      case Arrive(r, id) =>
        ArrivedIsOk(g, s, r, id);
      case _ =>
    }
  }

  lemma NamedTag<T>(g: Ring<T>, r: nat, id: Id)
    requires g.Valid() && r < g.size && Named(g, r, id)
    ensures g.TagOf(id) == Tag(g.TagOf(id).tag)
  {
    hide Ring.TagOf, Ring.IdOk;
  }

  lemma PostSendRoom<T>(g: Ring<T>, s: State<T>, r: nat)
    requires g.Valid() && FitsDevice(g) && Inv(g, s) && Acting(g, s, r, PostSends)
    ensures s.ranks[r].sending < QUEUE_PAIR_DEPTH
  {
    hide Inv, LinkOk, BufferOk, ResultsOk, Receives, Sends, Ring.BytesFit;
    InvAt(g, s, r);
    CallPiece(g, r, s.ranks[r], PostSends, AfterPostSend(g, s, r));
  }

  lemma MatchedIsOk<T>(g: Ring<T>, s: State<T>, r: nat)
    requires g.Valid() && Inv(g, s) && r < g.size && |s.links| == g.size && s.links[r].sends != [] && s.links[r].receives != []
    ensures Launch(s.links[r]).flights[s.links[r].sends[0].id].ok
  {
    hide Inv, RankOk, QueuesOk, FlightsOk, LandedOk, SourcesOk, Receives, Sends, Offered, SendFor, ReceiveFor, FlightFor, Named;
    TrafficAt(g, s, r);
    var w := Receives(g, r, s.ranks[r]);
    Aligned(g, r, w, Offered(g, Prev(g.size, r), s.ranks[Prev(g.size, r)], w), s.links[r]);
    SameFlight(g, r, IdAt(w, Matched(w, s.links[r])));
  }

  lemma ArrivedIsOk<T>(g: Ring<T>, s: State<T>, r: nat, id: Id)
    requires g.Valid() && Inv(g, s) && r < g.size && |s.links| == g.size && id in s.links[r].flights
    ensures s.links[r].flights[id].ok
  {
    hide Inv, RankOk, QueuesOk, FlightsOk, LandedOk, SourcesOk, Receives, Sends, Offered, Active;
    TrafficAt(g, s, r);
    FlyingTo(g, r, Receives(g, r, s.ranks[r]), s.ranks[r].received, s.links[r], id);
  }
}
