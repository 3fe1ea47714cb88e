/** Every run over the zero-copy transport is finite, and every run can be
  continued until all calls have returned. */
module ZeroCopyTermination {
  import opened RingArithmetic
  import opened BlockLayout
  import opened Schedule
  import opened Group
  import opened ZeroCopyRing
  import opened ZeroCopyInvariant
  import opened ZeroCopySteps
  import opened ZeroCopyNetwork
  import ZeroCopyTheorems
  import ZeroCopyProgress
  import Copying = CopyingRing
  import CopyingInvariant
  import CopyingTheorems
  import opened Refinement

  // --- work in transit ----------------------------------------------------------------

  /** Steps the network has left to make for sends not yet matched: to match,
    to read and to write every element, to report. */
  function SendsWork(sends: seq<SendRequest>): (n: nat)
    ensures sends == [] ==> n == 0
  {
    if sends == [] then 0 else SendsWork(sends[..|sends| - 1]) + 2 * sends[|sends| - 1].size + 2
  }

  ghost function LinkWork<T>(link: Link<T>): nat {
    SendsWork(link.sends) + 2 * |link.unread| + |link.wire| + |link.flights| + |link.unacked|
  }

  ghost function LinksWork<T>(links: seq<Link<T>>): nat {
    if links == [] then 0 else LinksWork(links[..|links| - 1]) + LinkWork(links[|links| - 1])
  }

  lemma {:induction false} LinksUpdated<T>(links: seq<Link<T>>, r: nat, link: Link<T>)
    requires r < |links|
    ensures LinksWork(links[r := link]) == LinksWork(links) - LinkWork(links[r]) + LinkWork(link)
  {
    var n := |links| - 1;
    hide LinkWork;
    if r < n {
      LinksUpdated(links[..n], r, link);
      assert links[r := link][..n] == links[..n][r := link];
    } else {
      assert links[r := link][..n] == links[..n];
    }
  }

  lemma {:induction false} FirstSend(sends: seq<SendRequest>)
    requires sends != []
    ensures SendsWork(sends) == SendsWork(sends[1..]) + 2 * sends[0].size + 2
  {
    var n := |sends| - 1;
    if n > 0 {
      FirstSend(sends[..n]);
      assert sends[..n][1..] == sends[1..][..n - 1];
    }
  }

  lemma LastSend(sends: seq<SendRequest>, x: SendRequest)
    ensures SendsWork(sends + [x]) == SendsWork(sends) + 2 * x.size + 2
  {
    assert (sends + [x])[..|sends|] == sends;
  }

  lemma {:induction false} ElementsCounted(id: Id, n: nat)
    ensures |Elements(id, n)| == n
  {
    if n > 0 {
      ElementsCounted(id, n - 1);
      assert Elements(id, n) == Elements(id, n - 1) + {(id, n - 1)};
    } else {
      assert Elements(id, 0) == {};
    }
  }

  lemma DisjointUnion<X>(a: set<X>, b: set<X>)
    requires a !! b
    ensures |a + b| == |a| + |b|
  {}

  lemma FewerKeys<K, V>(m: map<K, V>, k: K)
    requires k in m
    ensures |m - {k}| == |m| - 1
  {
    assert (m - {k}).Keys == m.Keys - {k};
    assert |m - {k}| == |(m - {k}).Keys| && |m| == |m.Keys|;
  }

  lemma MoreKeys<K, V>(m: map<K, V>, k: K, v: V)
    requires k !in m
    ensures |m[k := v]| == |m| + 1
  {
    assert m[k := v].Keys == m.Keys + {k};
    assert |m[k := v]| == |m[k := v].Keys| && |m| == |m.Keys|;
  }

  // --- every step of the network uses up one unit -----------------------------------------

  lemma MatchWork<T>(g: Ring<T>, s: State<T>, r: nat)
    requires g.Valid() && Inv(g, s) && Enabled(g, s, Match(r))
    ensures LinkWork(Launch(s.links[r])) == LinkWork(s.links[r]) - 1
  {
    hide Inv, RankOk, LandedOk, SourcesOk, Receives, Sends, Offered, SendFor, ReceiveFor, FlightFor, Named, SendsWork, Elements;
    TrafficAt(g, s, r);
    var link, w := s.links[r], Receives(g, r, s.ranks[r]);
    var id := link.sends[0].id;
    FreshFlight(g, r, w, Offered(g, Prev(g.size, r), s.ranks[Prev(g.size, r)], w), s.ranks[r].received, link);
    hide QueuesOk, FlightsOk, TrafficOk;
    FirstSend(link.sends);
    ElementsCounted(id, link.sends[0].size);
    DisjointUnion(link.unread, Elements(id, link.sends[0].size));
    MoreKeys(link.flights, id, Launch(link).flights[id]);
  }

  lemma FreshFlight<T>(g: Ring<T>, r: nat, w: Window, offered: nat, received: map<Id, bool>, link: Link<T>)
    requires g.Valid() && r < g.size && QueuesOk(g, r, w, offered, link) && FlightsOk(g, r, w, received, link)
    requires link.sends != []
    ensures link.sends[0].id !in link.flights
    ensures link.unread !! Elements(link.sends[0].id, link.sends[0].size)
  {
    hide SendFor, ReceiveFor, FlightFor, Value, Ring.IdOk;
    Aligned(g, r, w, offered, link);
    SameFlight(g, r, IdAt(w, Matched(w, link)));
    hide QueuesOk, Named;
    var id := link.sends[0].id;
    assert id == IdAt(w, Matched(w, link));
    assert !Active(g, r, w, link, id);
    hide Active;
    forall x | x in link.unread
      ensures x !in Elements(id, link.sends[0].size)
    {
      assert x.0 in link.flights;
    }
  }

  lemma NetworkWork<T>(g: Ring<T>, s: State<T>, l: Label)
    requires g.Valid() && Inv(g, s) && Enabled(g, s, l) && !l.Move?
    ensures |Step(g, s, l).links| == |s.links|
    ensures LinksWork(Step(g, s, l).links) == LinksWork(s.links) - 1
  {
    hide Inv, Unmoved, Launch, LinksWork, SendsWork;
    var link, link' := s.links[l.r], Step(g, s, l).links[l.r];
    LinksUpdated(s.links, l.r, link');
    match l {
      case Match(r) => MatchWork(g, s, r);
      case Read(r, id, j) =>
        NotTwice(g, s, r, id, j);
        MoreKeys(link.wire, (id, j), link'.wire[(id, j)]);
      case Land(r, id, j) => FewerKeys(link.wire, (id, j));
      case Arrive(r, id) => FewerKeys(link.flights, id);
      case Ack(r, id) =>
    }
  }

  lemma NotTwice<T>(g: Ring<T>, s: State<T>, r: nat, id: Id, j: nat)
    requires g.Valid() && Inv(g, s) && r < g.size && |s.links| == g.size && (id, j) in s.links[r].unread
    ensures (id, j) !in s.links[r].wire
  {
    hide Inv, RankOk, QueuesOk, LandedOk, SourcesOk, Receives, Sends, Offered, Active, FlightFor, Value;
    TrafficAt(g, s, r);
  }

  // --- a rank's move adds at most one send --------------------------------------------------

  ghost predicate CountsWithin<T>(g: Ring<T>, most: nat)
    requires g.Valid()
  {
    forall c :: 0 <= c < |g.calls| ==> g.calls[c].count <= most
  }

  lemma PostSendWork<T>(g: Ring<T>, s: State<T>, r: nat, most: nat)
    requires g.Valid() && FitsDevice(g) && Inv(g, s) && Acting(g, s, r, PostSends) && CountsWithin(g, most)
    requires s.links[Next(g.size, r)].descriptors != []
    ensures LinksWork(PostSend(g, s, r).links) <= LinksWork(s.links) + 2 * most + 3
  {
    hide Inv, FitsDevice, LinksWork, SendsWork, PostSend, Named, SendFor;
    PostSendState(g, s, r);
    var n, id := Next(g.size, r), Due(g, s, r);
    var link, x := s.links[n], SendFor(g, n, id);
    var link' := PostSend(g, s, r).links[n];
    LinksUpdated(s.links, n, link');
    LastSend(link.sends, x);
    SendSize(g, n, id, most);
  }

  lemma SendSize<T>(g: Ring<T>, r: nat, id: Id, most: nat)
    requires g.Valid() && r < g.size && Named(g, r, id) && CountsWithin(g, most)
    ensures SendFor(g, r, id).size <= most
  {
    hide Ring.TagOf;
  }

  lemma MoveWork<T>(g: Ring<T>, s: State<T>, r: nat, most: nat)
    requires g.Valid() && g.TagsFit() && FitsDevice(g) && Inv(g, s) && Enabled(g, s, Move(r)) && CountsWithin(g, most)
    ensures LinksWork(Step(g, s, Move(r)).links) <= LinksWork(s.links) + 2 * most + 3
  {
    hide Inv, FitsDevice, Ring.TagsFit, LinksWork, PostSend, WaitReceive, CountsWithin, Local.Advance, NewReceive;
    if Me(g, s, r).Finished(s.ranks[r].at) {
    } else if Acting(g, s, r, PostReceives) {
      PostReceiveWork(g, s, r);
    } else if Acting(g, s, r, PostSends) {
      DescriptorCame(g, s, r);
      PostSendWork(g, s, r, most);
    } else if Acting(g, s, r, WaitReceives) {
      WaitReceiveLinks(g, s, r);
    }
  }

  lemma PostReceiveWork<T>(g: Ring<T>, s: State<T>, r: nat)
    requires g.Valid() && Acting(g, s, r, PostReceives)
    ensures LinksWork(PostReceive(g, s, r).links) == LinksWork(s.links)
  {
    hide LinksWork, NewReceive, Ring.TagOf, Local.Advance;
    LinksUpdated(s.links, r, PostReceive(g, s, r).links[r]);
    assert LinkWork(PostReceive(g, s, r).links[r]) == LinkWork(s.links[r]);
  }

  lemma WaitReceiveLinks<T>(g: Ring<T>, s: State<T>, r: nat)
    requires g.Valid() && Acting(g, s, r, WaitReceives) && Due(g, s, r) in s.ranks[r].received
    ensures WaitReceive(g, s, r).links == s.links
  {
    hide Local.Advance, Fetch, Local.RecvLength;
  }

  // --- runs -------------------------------------------------------------------------------------

  /** The invariants of both machines, the other one seen through the
    abstraction. */
  ghost predicate Reached<T>(g: Ring<T>, s: State<T>)
    requires g.Valid() && g.TagsFit()
  {
    Inv(g, s) && CopyingInvariant.Inv(g, Abstract(g, s))
  }

  /** Moves the ranks have left to make. */
  ghost function MovesLeft<T>(g: Ring<T>, s: State<T>): nat
    requires g.Valid() && g.TagsFit() && Inv(g, s)
  {
    CopyingTheorems.Work(g, Abstract(g, s).ranks)
  }

  lemma InitialReached<T>(g: Ring<T>)
    requires g.Valid() && g.TagsFit()
    ensures Reached(g, Initial(g))
  {
    hide Inv, CopyingInvariant.Inv, Abstract;
    InitialAbstract(g);
    CopyingInvariant.InitialInv(g);
  }

  /** A step of the network makes transit work smaller and leaves the ranks'
    work alone; a rank's move makes the latter smaller. */
  lemma StepCounted<T>(g: Ring<T>, s: State<T>, l: Label)
    requires g.Valid() && g.TagsFit() && FitsDevice(g) && Reached(g, s) && Enabled(g, s, l)
    ensures Reached(g, Step(g, s, l))
    ensures l.Move? ==> MovesLeft(g, Step(g, s, l)) == MovesLeft(g, s) - 1
    ensures !l.Move? ==>
              && MovesLeft(g, Step(g, s, l)) == MovesLeft(g, s)
              && LinksWork(Step(g, s, l).links) == LinksWork(s.links) - 1
  {
    hide Inv, CopyingInvariant.Inv, Abstract, FitsDevice, Ring.TagsFit, LinksWork, Step, Enabled, CopyingTheorems.Work,
         Copying.Step, Copying.Enabled, CopyingTheorems.MovesLeft;
    ZeroCopyTheorems.StepInv(g, s, l);
    if l.Move? {
      MoveSimulated(g, s, l.r);
      var c := Abstract(g, s);
      CopyingTheorems.StepInv(g, c, l.r);
      CopyingTheorems.StepWork(g, c, l.r);
      RankInRange(g, c, l.r);
      CopyingTheorems.WorkUpdated(g, c.ranks, l.r, Copying.Step(g, c, l.r).ranks[l.r]);
    } else {
      NetworkStutters(g, s, l);
      NetworkWork(g, s, l);
    }
  }

  lemma RankInRange<T>(g: Ring<T>, c: Copying.State<T>, r: nat)
    requires g.Valid() && Copying.Enabled(g, c, r)
    ensures r < |c.ranks| == g.size
  {}

  /** How long a run can be: each of its moves uses up one of the moves the
    ranks had left, and every other step one unit of transit work, of which a
    move adds what one piece costs at most. */
  lemma {:induction false} RunCounted<T>(g: Ring<T>, s: State<T>, run: seq<Label>, most: nat)
    requires g.Valid() && g.TagsFit() && FitsDevice(g) && CountsWithin(g, most) && Reached(g, s) && Executable(g, s, run)
    ensures Reached(g, After(g, s, run))
    ensures MovesLeft(g, After(g, s, run)) + |Moves(run)| == MovesLeft(g, s)
    ensures LinksWork(After(g, s, run).links) + |run| <= LinksWork(s.links) + |Moves(run)| * (2 * most + 4)
    decreases |run|
  {
    hide Reached, MovesLeft, FitsDevice, Ring.TagsFit, LinksWork, Step, Enabled, CountsWithin;
    if run != [] {
      StepCounted(g, s, run[0]);
      RunCounted(g, Step(g, s, run[0]), run[1..], most);
      if run[0].Move? {
        ReachedInv(g, s);
        MoveWork(g, s, run[0].r, most);
        assert |Moves(run)| == |Moves(run[1..])| + 1;
        MulMonotone(|Moves(run[1..])|, |Moves(run)|, 2 * most + 4);
      }
    }
  }

  lemma ReachedInv<T>(g: Ring<T>, s: State<T>)
    requires g.Valid() && g.TagsFit() && Reached(g, s)
    ensures Inv(g, s)
  {}

  /** Termination: a bound on the length of every run from the start. */
  lemma RunsAreFinite<T>(g: Ring<T>, run: seq<Label>, most: nat)
    requires g.Valid() && g.TagsFit() && FitsDevice(g) && CountsWithin(g, most) && Executable(g, Initial(g), run)
    ensures |run| <= CopyingTheorems.Work(g, Copying.Initial(g).ranks) * (2 * most + 4)
  {
    hide Inv, CopyingInvariant.Inv, Abstract, FitsDevice, Ring.TagsFit, Executable, CountsWithin, CopyingTheorems.Work;
    InitialReached(g);
    InitialAbstract(g);
    NoLinksWork(g);
    RunCounted(g, Initial(g), run, most);
    MulMonotone(|Moves(run)|, CopyingTheorems.Work(g, Copying.Initial(g).ranks), 2 * most + 4);
  }

  lemma NoLinksWork<T>(g: Ring<T>)
    requires g.Valid()
    ensures LinksWork(Initial(g).links) == 0
  {
    var links := Initial(g).links;
    EmptyLinks(links);
  }

  lemma {:induction false} EmptyLinks<T>(links: seq<Link<T>>)
    requires forall r :: 0 <= r < |links| ==> links[r] == Link([], [], [], map[], {}, map[], {})
    ensures LinksWork(links) == 0
  {
    if links != [] { EmptyLinks(links[..|links| - 1]); }
  }

  // --- completion ---------------------------------------------------------------------------------

  ghost predicate AllDone<T>(g: Ring<T>, s: State<T>) {
    |s.ranks| == g.size && forall r :: 0 <= r < g.size ==> s.ranks[r].call >= |g.calls|
  }

  /** From every reachable state the group can finish all its calls, and by
    the bound on runs it does if steps go on being made. */
  lemma {:induction false} Finish<T>(g: Ring<T>, s: State<T>) returns (run: seq<Label>)
    requires g.Valid() && g.TagsFit() && FitsDevice(g) && Reached(g, s)
    ensures Executable(g, s, run) && AllDone(g, After(g, s, run))
    decreases MovesLeft(g, s), LinksWork(s.links)
  {
    hide Reached, MovesLeft, FitsDevice, Ring.TagsFit, LinksWork, Step, Enabled;
    ReachedInv(g, s);
    RanksCounted(g, s);
    if r: nat :| r < g.size && s.ranks[r].call < |g.calls| {
      var l := ZeroCopyProgress.FindEnabled(g, s, r);
      StepCounted(g, s, l);
      var rest := Finish(g, Step(g, s, l));
      run := [l] + rest;
      assert run[1..] == rest;
    } else {
      run := [];
    }
  }

  lemma RanksCounted<T>(g: Ring<T>, s: State<T>)
    requires g.Valid() && Inv(g, s)
    ensures |s.ranks| == g.size
  {}

  lemma FinishFromStart<T>(g: Ring<T>) returns (run: seq<Label>)
    requires g.Valid() && g.TagsFit() && FitsDevice(g)
    ensures Executable(g, Initial(g), run) && AllDone(g, After(g, Initial(g), run))
  {
    hide Reached, MovesLeft, FitsDevice, Ring.TagsFit, AllDone, Executable;
    InitialReached(g);
    run := Finish(g, Initial(g));
  }
}
