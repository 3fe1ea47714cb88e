/** Who touches which memory on the zero-copy ring: regions lent to the
  transport are left alone. */
module ZeroCopyBuffers {
  import opened RingArithmetic
  import opened BlockLayout
  import opened Schedule
  import opened Group
  import opened Buffers
  import opened ZeroCopyRing
  import opened ZeroCopyInvariant
  import opened ZeroCopySteps
  import opened ZeroCopyNetwork

  /** Rank `rank` or its transport reads or writes a region of its memory. */
  datatype Access = Access(rank: nat, region: Region, read: bool, write: bool)

  predicate Overlap(a: Region, b: Region) {
    a.temporary == b.temporary && a.lo < b.lo + b.size && b.lo < a.lo + a.size
  }

  /** What a step reads and writes: a wait combines a received piece into the
    work buffer, a call that returns hands the buffer over and takes the next
    input, the network reads and writes single elements. */
  ghost function Accesses<T>(g: Ring<T>, s: State<T>, l: Label): set<Access>
    requires g.Valid() && Enabled(g, s, l)
  {
    match l
    case Move(r) =>
      var me, loc := s.ranks[r], Me(g, s, r);
      if loc.Finished(me.at) then
        {Access(r, Region(false, 0, |me.work|), true, true)}
      else if Acting(g, s, r, WaitReceives) && !loc.Gathering(me.at.step) then
        {Access(r, Region(true, loc.shape.Start(me.at.piece), loc.RecvLength(me.at.step, me.at.piece)), true, false),
         Access(r, Region(false, loc.RecvFirst(me.at.step, me.at.piece), loc.RecvLength(me.at.step, me.at.piece)), true, true)}
      else {}
    case Match(_) => {}
    case Read(r, id, j) => {Access(Prev(g.size, r), Region(false, s.links[r].flights[id].lo + j, 1), true, false)}
    case Land(r, id, j) =>
      var target := s.links[r].flights[id].target;
      {Access(r, Region(target.temporary, target.lo + j, 1), false, true)}
    case Arrive(_, _) => {}
    case Ack(_, _) => {}
  }

  /** The region of a send that has been posted and not waited for. */
  ghost predicate UnderSend<T>(g: Ring<T>, q: nat, me: Rank<T>, id: Id)
    requires g.Valid() && q < g.size
  {
    g.IdOk(Next(g.size, q), id) && Outgoing(Sends(g, q, me), id)
  }

  ghost function SendRegion<T>(g: Ring<T>, q: nat, id: Id): Region
    requires g.Valid() && q < g.size && g.IdOk(Next(g.size, q), id)
  {
    var loc := g.LocalOf(Next(g.size, q), id.call);
    Region(false, loc.RecvFirst(id.step, id.piece), loc.RecvLength(id.step, id.piece))
  }

  /** ... and of a receive that has been posted and not waited for. */
  ghost predicate UnderReceive<T>(g: Ring<T>, r: nat, me: Rank<T>, id: Id)
    requires g.Valid() && r < g.size
  {
    g.IdOk(r, id) && Outgoing(Receives(g, r, me), id)
  }

  /** In every reachable state these are exactly the requests that a device or
    the network still has, or that have completed and not been waited for. */
  lemma LentIsOutstanding<T>(g: Ring<T>, s: State<T>, r: nat, id: Id)
    requires g.Valid() && Inv(g, s) && r < g.size
    ensures |s.ranks| == |s.links| == g.size
    ensures g.IdOk(Next(g.size, r), id) ==>
              (UnderSend(g, r, s.ranks[r], id) <==> id in s.links[Next(g.size, r)].unacked || id in s.ranks[r].sent)
    ensures g.IdOk(r, id) ==>
              (UnderReceive(g, r, s.ranks[r], id) <==>
                 || (exists k :: 0 <= k < |s.links[r].receives| && s.links[r].receives[k].id == id)
                 || id in s.links[r].flights || id in s.ranks[r].received)
  {
    hide Inv, RankOk, LandedOk, Receives, Sends, Offered, Ring.IdOk, SendIs, ReceiveIs, DescriptorIs, Value;
    TrafficAt(g, s, Next(g.size, r));
    TrafficAt(g, s, r);
    RotationsAgree(g.size, Next(g.size, r), 0);
    RotationsAgree(g.size, r, 0);
    if g.IdOk(r, id) { LentReceive(g, s, r, Receives(g, r, s.ranks[r]), id); }
  }

  lemma LentReceive<T>(g: Ring<T>, s: State<T>, r: nat, w: Window, id: Id)
    requires g.Valid() && r < |s.ranks| && r < |s.links| && r < g.size && g.IdOk(r, id)
    requires w.waited <= Matched(w, s.links[r]) && FlightsOk(g, r, w, s.ranks[r].received, s.links[r])
    requires ReceivesFrom(g, r, w.call, w.step, Matched(w, s.links[r]), s.links[r].receives)
    ensures Outgoing(w, id) <==>
              || (exists k :: 0 <= k < |s.links[r].receives| && s.links[r].receives[k].id == id)
              || id in s.links[r].flights || id in s.ranks[r].received
  {
    hide Ring.IdOk, Value, FlightFor;
    var link := s.links[r];
    forall k | 0 <= k < |link.receives| ensures link.receives[k].id == Id(w.call, w.step, Matched(w, link) + k) {
      assert ReceiveIs(g, r, Id(w.call, w.step, Matched(w, link) + k), link.receives[k]);
    }
    if Outgoing(w, id) && !Active(g, r, w, link, id) {
      assert link.receives[id.piece - Matched(w, link)].id == id;
    }
  }

  // --- the accesses are all there are -------------------------------------------------

  /** Memory that no access of the step writes keeps its contents. */
  lemma WritesAreAccesses<T>(g: Ring<T>, s: State<T>, l: Label, r: nat, temporary: bool, i: nat)
    requires g.Valid() && Enabled(g, s, l) && r < g.size
    requires forall a :: a in Accesses(g, s, l) && a.rank == r && a.write ==> !Overlap(a.region, Region(temporary, i, 1))
    ensures |Step(g, s, l).ranks| == g.size
    ensures var me, me' := s.ranks[r], Step(g, s, l).ranks[r];
            if temporary then
              (i in me'.temp <==> i in me.temp) && (i in me.temp ==> me'.temp[i] == me.temp[i])
            else i < |me.work| ==> i < |me'.work| && me'.work[i] == me.work[i]
  {
    hide Launch, Unmoved, PostReceive, PostSend, WaitReceive, Local.Advance, Local.Gathering, MoveEnabled;
    if l.Move? {
      MoveWrites(g, s, l.r, r, temporary, i);
    } else if l.Land? {
      var target := s.links[l.r].flights[l.id].target;
      assert Access(l.r, Region(target.temporary, target.lo + l.j, 1), false, true) in Accesses(g, s, l);
    }
  }

  lemma MoveWrites<T>(g: Ring<T>, s: State<T>, m: nat, r: nat, temporary: bool, i: nat)
    requires g.Valid() && Enabled(g, s, Move(m)) && r < g.size
    requires forall a :: a in Accesses(g, s, Move(m)) && a.rank == r && a.write ==>
               !Overlap(a.region, Region(temporary, i, 1))
    ensures |Step(g, s, Move(m)).ranks| == g.size
    ensures var me, me' := s.ranks[r], Step(g, s, Move(m)).ranks[r];
            if temporary then me'.temp == me.temp else i < |me.work| ==> i < |me'.work| && me'.work[i] == me.work[i]
  {
    hide Local.Acting, Local.CursorOk, Local.Finished, PostReceive, PostSend, WaitReceive, WaitSend, SendReady, AdvanceRank;
    var me, loc := s.ranks[m], Me(g, s, m);
    if loc.Finished(me.at) {
      assert Access(m, Region(false, 0, |me.work|), true, true) in Accesses(g, s, Move(m));
    } else if Acting(g, s, m, WaitReceives) {
      hide Accesses;
      WaitWrites(g, s, m, i);
    } else {
      QuietMove(g, s, m);
    }
  }

  /** A move that does not wait for a receive writes no buffer. */
  lemma QuietMove<T>(g: Ring<T>, s: State<T>, m: nat)
    requires g.Valid() && Enabled(g, s, Move(m)) && !Me(g, s, m).Finished(s.ranks[m].at) && !Acting(g, s, m, WaitReceives)
    ensures var s' := Step(g, s, Move(m));
            && s'.ranks == s.ranks[m := s'.ranks[m]] && s'.ranks[m].work == s.ranks[m].work && s'.ranks[m].temp == s.ranks[m].temp
  {
    hide Local.Advance, Local.CursorOk, Ring.TagOf, NewReceive, TooLarge, Local.SendFirst, Local.SendLength, Local.RecvLength;
  }

  lemma WaitWrites<T>(g: Ring<T>, s: State<T>, m: nat, i: nat)
    requires g.Valid() && Acting(g, s, m, WaitReceives) && Due(g, s, m) in s.ranks[m].received && Enabled(g, s, Move(m))
    requires !Me(g, s, m).Finished(s.ranks[m].at)
    ensures var me, me' := s.ranks[m], WaitReceive(g, s, m).ranks[m];
            && WaitReceive(g, s, m).ranks == s.ranks[m := me'] && me'.temp == me.temp && |me'.work| == |me.work|
            && (i < |me.work| && me'.work[i] != me.work[i] ==>
                  exists a :: a in Accesses(g, s, Move(m)) && a.rank == m && a.write && Overlap(a.region, Region(false, i, 1)))
  {
    var me, loc := s.ranks[m], Me(g, s, m);
    hide Local.Advance, Local.Acting, Local.CursorOk, Local.Finished, Combine, Fetch;
    if !loc.Gathering(me.at.step) {
      var place := Region(false, loc.RecvFirst(me.at.step, me.at.piece), loc.RecvLength(me.at.step, me.at.piece));
      var a := Access(m, place, true, true);
      assert a in Accesses(g, s, Move(m));
      hide Accesses, Local.RecvFirst, Local.RecvLength;
    }
  }

  /** The state with another value at one position of a rank's memory. */
  ghost function Poke<T>(s: State<T>, r: nat, temporary: bool, i: nat, v: T): State<T>
    requires r < |s.ranks| && (!temporary ==> i < |s.ranks[r].work|)
  {
    var me := s.ranks[r];
    s.(ranks := s.ranks[r := if temporary then me.(temp := me.temp[i := v]) else me.(work := me.work[i := v])])
  }

  ghost predicate SameRankBut<T>(a: Rank<T>, b: Rank<T>, temporary: bool, i: nat) {
    if temporary then
      b == a.(temp := b.temp) && forall k :: k != i ==> (k in a.temp <==> k in b.temp) && (k in a.temp ==> a.temp[k] == b.temp[k])
    else
      b == a.(work := b.work) && |a.work| == |b.work| && forall k :: 0 <= k < |a.work| && k != i ==> a.work[k] == b.work[k]
  }

  /** Two states that agree on everything but that position. */
  ghost predicate SameBut<T>(s: State<T>, t: State<T>, r: nat, temporary: bool, i: nat) {
    && t.links == s.links && |t.ranks| == |s.ranks| && r < |s.ranks|
    && (forall q :: 0 <= q < |s.ranks| && q != r ==> t.ranks[q] == s.ranks[q])
    && SameRankBut(s.ranks[r], t.ranks[r], temporary, i)
  }

  /** What a step does to everything else, and whether it can be taken, does
    not depend on memory that no access of the step reads. */
  lemma ReadsAreAccesses<T>(g: Ring<T>, s: State<T>, l: Label, r: nat, temporary: bool, i: nat, v: T)
    requires g.Valid() && Enabled(g, s, l) && r < g.size && (!temporary ==> i < |s.ranks[r].work|)
    requires forall a :: a in Accesses(g, s, l) && a.rank == r && a.read ==> !Overlap(a.region, Region(temporary, i, 1))
    ensures Enabled(g, Poke(s, r, temporary, i, v), l)
    ensures SameBut(Step(g, s, l), Step(g, Poke(s, r, temporary, i, v), l), r, temporary, i)
  {
    hide Launch, Unmoved, MoveEnabled, Accesses, Step, SameBut;
    match l {
      case Move(m) => MoveReads(g, s, m, r, temporary, i, v);
      case _ => NetworkReads(g, s, l, r, temporary, i, v);
    }
  }

  lemma NetworkReads<T>(g: Ring<T>, s: State<T>, l: Label, r: nat, temporary: bool, i: nat, v: T)
    requires g.Valid() && Enabled(g, s, l) && !l.Move? && r < g.size && (!temporary ==> i < |s.ranks[r].work|)
    requires forall a :: a in Accesses(g, s, l) && a.rank == r && a.read ==> !Overlap(a.region, Region(temporary, i, 1))
    ensures Enabled(g, Poke(s, r, temporary, i, v), l)
    ensures SameBut(Step(g, s, l), Step(g, Poke(s, r, temporary, i, v), l), r, temporary, i)
  {
    hide Launch, Unmoved, SameBut, Write;
    var t := Poke(s, r, temporary, i, v);
    Poked(s, r, temporary, i, v);
    SameAt(s, t, l.r, r, temporary, i);
    SameAt(s, t, Prev(g.size, l.r), r, temporary, i);
    match l {
      case Match(m) =>
        SameUpdate(s, t, m, Step(g, s, l), Step(g, t, l), r, temporary, i);
      case Read(m, id, j) =>
        assert Access(Prev(g.size, m), Region(false, s.links[m].flights[id].lo + j, 1), true, false) in Accesses(g, s, l);
        SameUpdate(s, t, m, Step(g, s, l), Step(g, t, l), r, temporary, i);
      case Land(m, id, j) =>
        LandReads(g, s, t, m, id, j, r, temporary, i);
      case Arrive(m, id) =>
        SameUpdate(s, t, m, Step(g, s, l), Step(g, t, l), r, temporary, i);
      case Ack(m, id) =>
        AckReads(g, s, t, m, id, r, temporary, i);
    }
  }

  lemma LandReads<T>(g: Ring<T>, s: State<T>, t: State<T>, m: nat, id: Id, j: nat, r: nat, temporary: bool, i: nat)
    requires g.Valid() && Enabled(g, s, Land(m, id, j)) && Enabled(g, t, Land(m, id, j)) && SameBut(s, t, r, temporary, i)
    ensures SameBut(Step(g, s, Land(m, id, j)), Step(g, t, Land(m, id, j)), r, temporary, i)
  {
    hide SameBut, Write, Unmoved, SameRankBut;
    SameAt(s, t, m, r, temporary, i);
    SameLinks(s, t, r, temporary, i);
    if m == r {
      SameWritten(s.ranks[m], t.ranks[m], s.links[m].flights[id].target, j, s.links[m].wire[(id, j)], temporary, i);
    }
    SameUpdate(s, t, m, Step(g, s, Land(m, id, j)), Step(g, t, Land(m, id, j)), r, temporary, i);
  }

  lemma AckReads<T>(g: Ring<T>, s: State<T>, t: State<T>, m: nat, id: Id, r: nat, temporary: bool, i: nat)
    requires g.Valid() && Enabled(g, s, Ack(m, id)) && Enabled(g, t, Ack(m, id)) && SameBut(s, t, r, temporary, i)
    ensures SameBut(Step(g, s, Ack(m, id)), Step(g, t, Ack(m, id)), r, temporary, i)
  {
    hide SameBut, Unmoved;
    SameAt(s, t, Prev(g.size, m), r, temporary, i);
    SameLinks(s, t, r, temporary, i);
    SameUpdate(s, t, Prev(g.size, m), Step(g, s, Ack(m, id)), Step(g, t, Ack(m, id)), r, temporary, i);
  }

  lemma SameWritten<T>(a: Rank<T>, b: Rank<T>, region: Region, j: nat, value: T, temporary: bool, i: nat)
    requires SameRankBut(a, b, temporary, i)
    ensures SameRankBut(Write(a, region, j, value), Write(b, region, j, value), temporary, i)
  {}

  lemma SameProgress<T>(g: Ring<T>, s: State<T>, t: State<T>, m: nat, r: nat, temporary: bool, i: nat)
    requires g.Valid() && m < g.size && |s.ranks| == |s.links| == g.size && SameBut(s, t, r, temporary, i)
    ensures t.ranks[m].call == s.ranks[m].call && t.ranks[m].at == s.ranks[m].at && t.ranks[m].sent == s.ranks[m].sent
    ensures t.ranks[m].received == s.ranks[m].received && t.ranks[m].status == s.ranks[m].status
    ensures t.ranks[m].receiving == s.ranks[m].receiving && t.ranks[m].sending == s.ranks[m].sending
    ensures t.ranks[m].out == s.ranks[m].out && |t.ranks[m].work| == |s.ranks[m].work|
    ensures Running(g, s, m) <==> Running(g, t, m)
    ensures forall stage :: Acting(g, s, m, stage) <==> Acting(g, t, m, stage)
  {
    hide Local.CursorOk, Local.Acting;
  }

  lemma SameEnabled<T>(g: Ring<T>, s: State<T>, t: State<T>, m: nat, r: nat, temporary: bool, i: nat)
    requires g.Valid() && MoveEnabled(g, s, m) && SameBut(s, t, r, temporary, i)
    ensures MoveEnabled(g, t, m) && Due(g, t, m) == Due(g, s, m) && Me(g, t, m) == Me(g, s, m)
  {
    hide SameBut, Local.CursorOk, Local.Acting, Local.SendLength;
    SameProgress(g, s, t, m, r, temporary, i);
    SameLinks(s, t, r, temporary, i);
  }

  lemma SameLinks<T>(s: State<T>, t: State<T>, r: nat, temporary: bool, i: nat)
    requires SameBut(s, t, r, temporary, i)
    ensures t.links == s.links && |t.ranks| == |s.ranks|
  {}

  lemma SameAt<T>(s: State<T>, t: State<T>, m: nat, r: nat, temporary: bool, i: nat)
    requires SameBut(s, t, r, temporary, i) && m < |s.ranks|
    ensures m < |t.ranks| && (m != r ==> t.ranks[m] == s.ranks[m]) && (m == r ==> SameRankBut(s.ranks[m], t.ranks[m], temporary, i))
  {}

  /** Both states with rank `m` and the links replaced alike. */
  lemma SameUpdate<T>(s: State<T>, t: State<T>, m: nat, s': State<T>, t': State<T>, r: nat, temporary: bool, i: nat)
    requires SameBut(s, t, r, temporary, i) && m < |s.ranks| == |s'.ranks| && |t'.ranks| == |t.ranks| == |s.ranks|
    requires s'.ranks == s.ranks[m := s'.ranks[m]] && t'.ranks == t.ranks[m := t'.ranks[m]] && s'.links == t'.links
    requires if m == r then SameRankBut(s'.ranks[m], t'.ranks[m], temporary, i) else s'.ranks[m] == t'.ranks[m]
    ensures SameBut(s', t', r, temporary, i)
  {
    hide SameRankBut;
  }

  /** A post changes a rank's progress and a link, not its memory. */
  lemma PostSendShape<T>(g: Ring<T>, s: State<T>, m: nat)
    requires g.Valid() && Acting(g, s, m, PostSends) && SendReady(g, s, m)
    ensures var s', me := PostSend(g, s, m), s.ranks[m];
            && |s'.ranks| == |s.ranks| && s'.ranks == s.ranks[m := s'.ranks[m]]
            && s'.ranks[m] == me.(at := s'.ranks[m].at, sending := s'.ranks[m].sending, status := s'.ranks[m].status)
  {
    hide Local.CursorOk, Local.Acting, Local.Advance, Local.SendFirst, Local.SendLength, Ring.TagOf, TooLarge;
  }

  lemma PostReceiveReads<T>(g: Ring<T>, s: State<T>, t: State<T>, m: nat, r: nat, temporary: bool, i: nat)
    requires g.Valid() && Acting(g, s, m, PostReceives) && Acting(g, t, m, PostReceives) && SameBut(s, t, r, temporary, i)
    ensures SameBut(PostReceive(g, s, m), PostReceive(g, t, m), r, temporary, i)
  {
    hide Local.CursorOk, Local.Acting, Local.Advance, Local.SendFirst, Local.SendLength, Local.RecvLength, Ring.TagOf, NewReceive,
         TooLarge, SameBut;
    SameProgress(g, s, t, m, r, temporary, i);
    SameLinks(s, t, r, temporary, i);
    SameAt(s, t, m, r, temporary, i);
    SameUpdate(s, t, m, PostReceive(g, s, m), PostReceive(g, t, m), r, temporary, i);
  }

  lemma PostSendReads<T>(g: Ring<T>, s: State<T>, t: State<T>, m: nat, r: nat, temporary: bool, i: nat)
    requires g.Valid() && Acting(g, s, m, PostSends) && Acting(g, t, m, PostSends) && SameBut(s, t, r, temporary, i)
    requires SendReady(g, s, m) && SendReady(g, t, m)
    ensures SameBut(PostSend(g, s, m), PostSend(g, t, m), r, temporary, i)
  {
    hide Local.CursorOk, Local.Acting, Local.Advance, Local.SendFirst, Local.SendLength, Local.RecvLength, Ring.TagOf, NewReceive,
         TooLarge, SameBut;
    SameProgress(g, s, t, m, r, temporary, i);
    SameLinks(s, t, r, temporary, i);
    SameAt(s, t, m, r, temporary, i);
    PostSendShape(g, s, m);
    PostSendShape(g, t, m);
    assert PostSend(g, s, m).links == PostSend(g, t, m).links;
    hide PostSend;
    SameUpdate(s, t, m, PostSend(g, s, m), PostSend(g, t, m), r, temporary, i);
  }

  lemma WaitSendReads<T>(g: Ring<T>, s: State<T>, t: State<T>, m: nat, r: nat, temporary: bool, i: nat)
    requires g.Valid() && Acting(g, s, m, WaitSends) && Acting(g, t, m, WaitSends) && SameBut(s, t, r, temporary, i)
    ensures SameBut(WaitSend(g, s, m), WaitSend(g, t, m), r, temporary, i)
  {
    hide Local.CursorOk, Local.Acting, Local.Advance, Local.SendFirst, Local.SendLength, Local.RecvLength, Ring.TagOf, NewReceive, TooLarge;
  }

  lemma AdvanceReads<T>(g: Ring<T>, s: State<T>, t: State<T>, m: nat, r: nat, temporary: bool, i: nat)
    requires g.Valid() && Running(g, s, m) && Running(g, t, m) && SameBut(s, t, r, temporary, i)
    requires !Me(g, s, m).Finished(s.ranks[m].at) && !Me(g, t, m).Finished(t.ranks[m].at)
    ensures SameBut(AdvanceRank(g, s, m), AdvanceRank(g, t, m), r, temporary, i)
  {
    hide Local.CursorOk, Local.Acting, Local.Advance;
  }

  lemma ReturnReads<T>(g: Ring<T>, s: State<T>, t: State<T>, m: nat, r: nat, temporary: bool, i: nat)
    requires g.Valid() && Running(g, s, m) && Running(g, t, m) && SameBut(s, t, r, temporary, i)
    requires m == r && !temporary ==> i >= |s.ranks[r].work|
    ensures SameBut(Return(g, s, m), Return(g, t, m), r, temporary, i)
  {
    hide Local.CursorOk, Local.Acting, Local.Advance;
    if m == r && !temporary { assert s.ranks[r].work == t.ranks[r].work; }
  }

  lemma WaitReceiveReads<T>(g: Ring<T>, s: State<T>, t: State<T>, m: nat, r: nat, temporary: bool, i: nat)
    requires g.Valid() && Acting(g, s, m, WaitReceives) && Acting(g, t, m, WaitReceives) && SameBut(s, t, r, temporary, i)
    requires Due(g, s, m) in s.ranks[m].received && Due(g, t, m) in t.ranks[m].received
    requires var me, loc := s.ranks[m], Me(g, s, m);
             var n := loc.RecvLength(me.at.step, me.at.piece);
             m == r && !loc.Gathering(me.at.step) ==>
               && !Overlap(Region(true, loc.shape.Start(me.at.piece), n), Region(temporary, i, 1))
               && !Overlap(Region(false, loc.RecvFirst(me.at.step, me.at.piece), n), Region(temporary, i, 1))
    ensures SameBut(WaitReceive(g, s, m), WaitReceive(g, t, m), r, temporary, i)
  {
    hide Local.CursorOk, Local.Advance, Fetch, Combine, SameBut, Overlap, Local.RecvFirst, SameRankBut, WaitReceive, Local.RecvLength;
    SameProgress(g, s, t, m, r, temporary, i);
    SameLinks(s, t, r, temporary, i);
    SameAt(s, t, m, r, temporary, i);
    WaitReceiveShape(g, s, m);
    WaitReceiveShape(g, t, m);
    if m == r {
      WaitReceiveHere(g, s, t, r, temporary, i);
    } else {
      WaitReceiveElsewhere(g, s, t, m);
    }
    SameUpdate(s, t, m, WaitReceive(g, s, m), WaitReceive(g, t, m), r, temporary, i);
  }

  lemma WaitReceiveShape<T>(g: Ring<T>, s: State<T>, m: nat)
    requires g.Valid() && Acting(g, s, m, WaitReceives) && Due(g, s, m) in s.ranks[m].received
    ensures var s' := WaitReceive(g, s, m);
            s'.links == s.links && |s'.ranks| == |s.ranks| && s'.ranks == s.ranks[m := s'.ranks[m]]
  {
    hide Local.CursorOk, Local.Advance, Fetch, Combine, Local.RecvFirst;
  }

  lemma WaitReceiveElsewhere<T>(g: Ring<T>, s: State<T>, t: State<T>, m: nat)
    requires g.Valid() && Acting(g, s, m, WaitReceives) && Acting(g, t, m, WaitReceives) && t.ranks[m] == s.ranks[m]
    requires Due(g, s, m) in s.ranks[m].received
    ensures WaitReceive(g, t, m).ranks[m] == WaitReceive(g, s, m).ranks[m]
  {
    hide Local.CursorOk, Local.Advance, Fetch, Combine, Local.RecvFirst;
  }

  lemma WaitReceiveHere<T>(g: Ring<T>, s: State<T>, t: State<T>, r: nat, temporary: bool, i: nat)
    requires g.Valid() && Acting(g, s, r, WaitReceives) && Acting(g, t, r, WaitReceives)
    requires SameRankBut(s.ranks[r], t.ranks[r], temporary, i) && Due(g, s, r) in s.ranks[r].received
    requires var me, loc := s.ranks[r], Me(g, s, r);
             var n := loc.RecvLength(me.at.step, me.at.piece);
             !loc.Gathering(me.at.step) ==>
               && !Overlap(Region(true, loc.shape.Start(me.at.piece), n), Region(temporary, i, 1))
               && !Overlap(Region(false, loc.RecvFirst(me.at.step, me.at.piece), n), Region(temporary, i, 1))
    ensures SameRankBut(WaitReceive(g, s, r).ranks[r], WaitReceive(g, t, r).ranks[r], temporary, i)
  {
    hide Local.CursorOk, Local.Advance, Fetch, Combine, Local.RecvFirst, Overlap;
    var me, other, loc := s.ranks[r], t.ranks[r], Me(g, s, r);
    if !loc.Gathering(me.at.step) {
      var lo, n := loc.shape.Start(me.at.piece), loc.RecvLength(me.at.step, me.at.piece);
      SameFetched(me, other, lo, n, temporary, i);
      if forall j :: lo <= j < lo + n ==> j in me.temp {
        SameCombined(g.calls[me.call].op, me, other, loc.RecvFirst(me.at.step, me.at.piece), Fetch(me.temp, lo, n), temporary, i);
      }
    }
  }

  lemma {:induction false} SameFetched<T>(a: Rank<T>, b: Rank<T>, lo: nat, n: nat, temporary: bool, i: nat)
    requires SameRankBut(a, b, temporary, i) && !Overlap(Region(true, lo, n), Region(temporary, i, 1))
    ensures forall j :: lo <= j < lo + n ==> (j in a.temp <==> j in b.temp)
    ensures (forall j :: lo <= j < lo + n ==> j in a.temp) ==>
              (forall j :: lo <= j < lo + n ==> j in b.temp) && Fetch(b.temp, lo, n) == Fetch(a.temp, lo, n)
  {
    hide Fetch;
  }

  lemma SameCombined<T>(op: (T, T) -> T, a: Rank<T>, b: Rank<T>, first: nat, data: seq<T>, temporary: bool, i: nat)
    requires SameRankBut(a, b, temporary, i) && first + |data| <= |a.work|
    requires !Overlap(Region(false, first, |data|), Region(temporary, i, 1))
    ensures |b.work| == |a.work|
    ensures if temporary then Combine(op, b.work, first, data) == Combine(op, a.work, first, data)
            else forall k :: 0 <= k < |a.work| && k != i ==> Combine(op, b.work, first, data)[k] == Combine(op, a.work, first, data)[k]
  {
    hide Combine;
  }

  lemma MoveAccesses<T>(g: Ring<T>, s: State<T>, m: nat)
    requires g.Valid() && Enabled(g, s, Move(m))
    ensures var me, loc := s.ranks[m], Me(g, s, m);
            if loc.Finished(me.at) then Access(m, Region(false, 0, |me.work|), true, true) in Accesses(g, s, Move(m))
            else
              Acting(g, s, m, WaitReceives) && !loc.Gathering(me.at.step) ==>
                var n := loc.RecvLength(me.at.step, me.at.piece);
                && Access(m, Region(true, loc.shape.Start(me.at.piece), n), true, false) in Accesses(g, s, Move(m))
                && Access(m, Region(false, loc.RecvFirst(me.at.step, me.at.piece), n), true, true) in Accesses(g, s, Move(m))
  {
    hide Local.CursorOk, Local.RecvFirst, Local.RecvLength;
  }

  /** What a move does to everything else. */
  lemma MoveReads<T>(g: Ring<T>, s: State<T>, m: nat, r: nat, temporary: bool, i: nat, v: T)
    requires g.Valid() && Enabled(g, s, Move(m)) && r < g.size && (!temporary ==> i < |s.ranks[r].work|)
    requires forall a :: a in Accesses(g, s, Move(m)) && a.rank == r && a.read ==> !Overlap(a.region, Region(temporary, i, 1))
    ensures Enabled(g, Poke(s, r, temporary, i, v), Move(m))
    ensures SameBut(Step(g, s, Move(m)), Step(g, Poke(s, r, temporary, i, v), Move(m)), r, temporary, i)
  {
    hide Local.CursorOk, Local.Acting, Local.Advance, PostReceive, PostSend, WaitReceive, WaitSend, AdvanceRank, Return,
         SameBut, SendReady, Acting, Accesses, Overlap;
    MoveAccesses(g, s, m);
    var t := Poke(s, r, temporary, i, v);
    Poked(s, r, temporary, i, v);
    SameProgress(g, s, t, m, r, temporary, i);
    SameEnabled(g, s, t, m, r, temporary, i);
    SameLinks(s, t, r, temporary, i);
    var me, loc := s.ranks[m], Me(g, s, m);
    if loc.Finished(me.at) {
      OutsideWork(|me.work|, temporary, i);
      ReturnReads(g, s, t, m, r, temporary, i);
    } else if Acting(g, s, m, PostReceives) {
      PostReceiveReads(g, s, t, m, r, temporary, i);
    } else if Acting(g, s, m, PostSends) {
      PostSendReads(g, s, t, m, r, temporary, i);
    } else if Acting(g, s, m, WaitReceives) {
      WaitReceiveReads(g, s, t, m, r, temporary, i);
    } else if Acting(g, s, m, WaitSends) {
      WaitSendReads(g, s, t, m, r, temporary, i);
    } else {
      AdvanceReads(g, s, t, m, r, temporary, i);
    }
  }

  lemma OutsideWork(n: nat, temporary: bool, i: nat)
    ensures !temporary && i < n ==> Overlap(Region(false, 0, n), Region(temporary, i, 1))
  {}

  lemma Poked<T>(s: State<T>, r: nat, temporary: bool, i: nat, v: T)
    requires r < |s.ranks| && (!temporary ==> i < |s.ranks[r].work|)
    ensures SameBut(s, Poke(s, r, temporary, i, v), r, temporary, i)
  {}

  // --- regions of a step do not meet ------------------------------------------------------

  predicate Inside(a: Region, b: Region) {
    a.temporary == b.temporary && b.lo <= a.lo && a.lo + a.size <= b.lo + b.size
  }

  lemma InsideApart(a: Region, b: Region, c: Region)
    requires Inside(a, b) && !Overlap(b, c) && a.size > 0
    ensures !Overlap(a, c)
  {}

  /** The block a rank sends in a step is not the one it receives. */
  lemma BlocksApart<T>(g: Ring<T>, q: nat, out: Id, into: Id)
    requires g.Valid() && q < g.size && g.IdOk(Next(g.size, q), out) && g.IdOk(q, into)
    requires out.call == into.call && out.step == into.step
    ensures var loc := g.LocalOf(q, into.call);
            var place := Region(false, loc.RecvFirst(into.step, into.piece), loc.RecvLength(into.step, into.piece));
            !Overlap(SendRegion(g, q, out), place) && !Overlap(place, SendRegion(g, q, out))
  {
    var loc := g.LocalOf(q, into.call);
    g.SameLink(q, out.call, out.step);
    RotationsAgree(g.size, q, 0);
    assert loc.SendBlock(out.step) != loc.RecvBlock(out.step) by {
      RingStep(loc, g.LocalOf(Prev(g.size, q), into.call), into.step);
    }
    hide Local.SendBlock, Local.RecvBlock, Shape.Pieces;
    var a, b := SendRegion(g, q, out), Region(false, loc.RecvFirst(into.step, into.piece), loc.RecvLength(into.step, into.piece));
    if Overlap(a, b) {
      var i := Max(a.lo, b.lo);
      hide Local.RecvFirst, Local.RecvLength, Local.SendFirst, Local.SendLength;
      loc.RegionsCover(out.step, out.piece, i);
      loc.RegionsCover(into.step, into.piece, i);
    }
  }

  /** Two receives of a step are put in different places. */
  lemma PiecesApart<T>(g: Ring<T>, r: nat, id: Id, other: Id)
    requires g.Valid() && r < g.size && g.IdOk(r, id) && g.IdOk(r, other)
    requires id.call == other.call && id.step == other.step && id.piece != other.piece
    ensures var loc := g.LocalOf(r, id.call);
            !Overlap(Target(loc, id.step, id.piece), Target(loc, other.step, other.piece))
  {
    var loc := g.LocalOf(r, id.call);
    ShorterThanPiece(loc, id.step, id.piece);
    ShorterThanPiece(loc, other.step, other.piece);
    if id.piece < other.piece {
      MulMonotone(id.piece + 1, other.piece, loc.shape.pieceElements);
      MulMonotone(id.piece, id.piece, loc.shape.pieceElements);
    } else {
      MulMonotone(other.piece + 1, id.piece, loc.shape.pieceElements);
      MulMonotone(other.piece, other.piece, loc.shape.pieceElements);
    }
    hide Local.RecvLength, Local.RecvBlock, Shape.Pieces;
  }

  lemma ShorterThanPiece(loc: Local, step: nat, piece: nat)
    requires loc.Valid() && piece < loc.RecvPieces(step)
    ensures loc.RecvLength(step, piece) <= loc.shape.pieceElements
  {
    loc.shape.PieceInside(loc.RecvBlock(step), piece);
  }

  // --- the discipline ------------------------------------------------------------------------

  /** A call that returns has nothing outstanding. */
  lemma ReturnApart<T>(g: Ring<T>, r: nat, me: Rank<T>, id: Id)
    requires g.Valid() && r < g.size && me.call < |g.calls|
    requires g.LocalOf(r, me.call).CursorOk(me.at) && g.LocalOf(r, me.call).Finished(me.at)
    ensures !UnderSend(g, r, me, id) && !UnderReceive(g, r, me, id)
  {
    FinishedWindows(g, r, me);
    hide Receives, Sends, Ring.IdOk;
  }

  /** Combining a received piece touches nothing that is still lent out. */
  lemma CombineApart<T>(g: Ring<T>, s: State<T>, r: nat, id: Id)
    requires g.Valid() && Acting(g, s, r, WaitReceives) && !Me(g, s, r).Gathering(s.ranks[r].at.step)
    ensures var me, loc := s.ranks[r], Me(g, s, r);
            var n := loc.RecvLength(me.at.step, me.at.piece);
            var read, written := Region(true, loc.shape.Start(me.at.piece), n),
                                 Region(false, loc.RecvFirst(me.at.step, me.at.piece), n);
            && (UnderSend(g, r, me, id) ==> !Overlap(written, SendRegion(g, r, id)))
            && (UnderReceive(g, r, me, id) && id != Due(g, s, r) ==>
                  && !Overlap(written, Target(g.LocalOf(r, id.call), id.step, id.piece))
                  && !Overlap(read, Target(g.LocalOf(r, id.call), id.step, id.piece)))
  {
    var me, loc, due := s.ranks[r], Me(g, s, r), Due(g, s, r);
    CallPiece(g, r, me, WaitReceives, me.(at := loc.Advance(me.at)));
    hide Receives, Sends, Local.Acting, Local.CursorOk, Local.Advance, Local.RecvFirst, Shape.Pieces;
    if UnderSend(g, r, me, id) { BlocksApart(g, r, id, due); }
    if UnderReceive(g, r, me, id) && id != due { PiecesApart(g, r, due, id); }
    hide Ring.IdOk;
  }

  /** Reading an element of an outstanding send. */
  lemma ReadApart<T>(g: Ring<T>, s: State<T>, r: nat, id: Id, j: nat, other: Id)
    requires g.Valid() && Inv(g, s) && Enabled(g, s, Read(r, id, j))
    ensures var q := Prev(g.size, r);
            UnderReceive(g, q, s.ranks[q], other) ==>
              !Overlap(Region(false, s.links[r].flights[id].lo + j, 1), Target(g.LocalOf(q, other.call), other.step, other.piece))
  {
    hide Inv, RankOk, TrafficOk, Receives, Sends, Offered;
    TrafficAt(g, s, r);
    RotationsAgree(g.size, r, 0);
    var me, q, link := s.ranks[r], Prev(g.size, r), s.links[r];
    var w := Receives(g, r, me);
    ReadSource(g, r, w, Offered(g, q, s.ranks[q], w), me, Sends(g, q, s.ranks[q]), s.ranks[q].sent, link, id, j);
    if UnderReceive(g, q, s.ranks[q], other) {
      SameStepWindows(g, q, s.ranks[q], id, other);
      ReadInside(g, r, id, j);
      hide FlightFor;
      BlocksApart(g, q, id, other);
      var a, b := Region(false, link.flights[id].lo + j, 1), SendRegion(g, q, id);
      hide SendRegion, Local.RecvFirst, Local.RecvLength, Ring.IdOk, UnderReceive;
    }
  }

  lemma ReadInside<T>(g: Ring<T>, r: nat, id: Id, j: nat)
    requires g.Valid() && r < g.size && g.IdOk(r, id) && j < g.LocalOf(r, id.call).RecvLength(id.step, id.piece)
    ensures Next(g.size, Prev(g.size, r)) == r
    ensures Inside(Region(false, FlightFor(g, r, id).lo + j, 1), SendRegion(g, Prev(g.size, r), id))
  {
    RotationsAgree(g.size, r, 0);
    hide Local.RecvFirst, Local.RecvLength;
  }

  lemma SameStepWindows<T>(g: Ring<T>, q: nat, me: Rank<T>, out: Id, into: Id)
    requires g.Valid() && q < g.size && Outgoing(Sends(g, q, me), out) && Outgoing(Receives(g, q, me), into)
    ensures out.call == into.call && out.step == into.step
  {}

  /** Writing an element of an outstanding receive. */
  lemma LandApart<T>(g: Ring<T>, s: State<T>, r: nat, id: Id, j: nat, other: Id)
    requires g.Valid() && Inv(g, s) && Enabled(g, s, Land(r, id, j))
    ensures var target := s.links[r].flights[id].target;
            var place := Region(target.temporary, target.lo + j, 1);
            && (UnderSend(g, r, s.ranks[r], other) ==> !Overlap(place, SendRegion(g, r, other)))
            && (UnderReceive(g, r, s.ranks[r], other) && other != id ==>
                  !Overlap(place, Target(g.LocalOf(r, other.call), other.step, other.piece)))
  {
    hide Inv, RankOk, QueuesOk, FlightsOk, LandedOk, SourcesOk, Receives, Sends, Offered, Value;
    TrafficAt(g, s, r);
    var me, link := s.ranks[r], s.links[r];
    var w := Receives(g, r, me);
    OnTheWire(g, r, w, me.received, link, id, j);
    var target := link.flights[id].target;
    var place := Region(target.temporary, target.lo + j, 1);
    PlaceInside(g, r, id, j, place);
    assert id.call == w.call && id.step == w.step;
    hide Active, TrafficOk;
    if UnderSend(g, r, me, other) {
      LandedApart(g, r, me, id, other);
      InsideApart(place, target, SendRegion(g, r, other));
    }
    if UnderReceive(g, r, me, other) && other != id {
      assert other.call == id.call && other.step == id.step;
      PiecesApart(g, r, id, other);
      InsideApart(place, target, Target(g.LocalOf(r, other.call), other.step, other.piece));
    }
  }

  lemma PlaceInside<T>(g: Ring<T>, r: nat, id: Id, j: nat, place: Region)
    requires g.Valid() && r < g.size && g.IdOk(r, id) && j < g.LocalOf(r, id.call).RecvLength(id.step, id.piece)
    requires var t := Target(g.LocalOf(r, id.call), id.step, id.piece); place == Region(t.temporary, t.lo + j, 1)
    ensures Inside(place, Target(g.LocalOf(r, id.call), id.step, id.piece))
  {
    hide Local.RecvFirst, Local.RecvLength;
  }

  lemma LandedApart<T>(g: Ring<T>, r: nat, me: Rank<T>, id: Id, other: Id)
    requires g.Valid() && r < g.size && g.IdOk(r, id) && UnderSend(g, r, me, other)
    requires id.call == Receives(g, r, me).call && id.step == Receives(g, r, me).step
    ensures !Overlap(Target(g.LocalOf(r, id.call), id.step, id.piece), SendRegion(g, r, other))
  {
    assert other.call == id.call && other.step == id.step;
    hide Receives, Sends;
    BlocksApart(g, r, other, id);
    hide Ring.IdOk, Local.RecvFirst, Local.RecvLength;
  }

  /** Buffer discipline, in every reachable state and for every step of ranks
    and network: nothing is written under an outstanding send, and nothing is
    read or written under an outstanding receive but by its own transfer and
    by the wait that ends it. */
  lemma BufferDiscipline<T>(g: Ring<T>, s: State<T>, l: Label, a: Access, id: Id)
    requires g.Valid() && Inv(g, s) && Enabled(g, s, l) && a in Accesses(g, s, l)
    ensures a.rank < g.size && |s.ranks| == g.size
    ensures a.write && UnderSend(g, a.rank, s.ranks[a.rank], id) ==> !Overlap(a.region, SendRegion(g, a.rank, id))
    ensures UnderReceive(g, a.rank, s.ranks[a.rank], id)
            && !(l.Land? && l.id == id) && !(l.Move? && id == Due(g, s, l.r)) ==>
              !Overlap(a.region, Target(g.LocalOf(a.rank, id.call), id.step, id.piece))
  {
    hide Inv, UnderSend, UnderReceive, Overlap, Launch, Unmoved, Local.Advance;
    match l {
      case Move(r) =>
        if Me(g, s, r).Finished(s.ranks[r].at) {
          ReturnApart(g, r, s.ranks[r], id);
        } else if Acting(g, s, r, WaitReceives) && !Me(g, s, r).Gathering(s.ranks[r].at.step) {
          CombineApart(g, s, r, id);
        }
      case Read(r, i, j) => ReadApart(g, s, r, i, j, id);
      case Land(r, i, j) => LandApart(g, s, r, i, j, id);
      case _ =>
    }
  }
}
