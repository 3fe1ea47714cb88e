/** The zero-copy ring against the endpoints it is made of: what the posts of
  the ring accept, where a transfer goes and whether its receiver will be told
  that it succeeded are what two endpoints and their devices make of it. */
module ZeroCopyEndpoints {
  import opened RingArithmetic
  import opened BlockLayout
  import opened Buffers
  import opened Tags
  import opened Schedule
  import opened Group
  import opened ZeroCopyRing
  import opened ZeroCopyInvariant
  import opened RankProgram
  import ProgramFacts
  import Network = ZeroCopyNetwork
  import Theorems = ZeroCopyTheorems
  import Verbs = VerbsEndpoint

  // --- modes ------------------------------------------------------------------------------

  /** A transfer of a call uses the mode of the call, or the one for its size. */
  ghost predicate ModeFits<T>(g: Ring<T>, c: nat, mode: Mode, size: nat)
    requires g.Valid()
  {
    && c < |g.calls| && !mode.Auto?
    && if !g.calls[c].mode.Auto? then mode == g.calls[c].mode else mode.Eager? <==> size * g.calls[c].elementSize <= 4096
  }

  lemma ModeOfFits<T>(g: Ring<T>, c: nat, size: nat)
    requires g.Valid() && c < |g.calls|
    ensures ModeFits(g, c, ModeOf(g, c, size), size)
  {
    ModeChosen(g.calls[c].mode, size * g.calls[c].elementSize, 0);
    hide ChooseMode;
  }

  ghost predicate SendModeOk<T>(g: Ring<T>, x: SendRequest)
    requires g.Valid()
  {
    ModeFits(g, x.id.call, x.mode, x.size)
  }

  /** Only an eager receive names its buffer. */
  ghost predicate ReceiveModeOk<T>(g: Ring<T>, r: nat, w: ReceiveRequest)
    requires g.Valid() && r < g.size
  {
    && g.IdOk(r, w.id)
    && var size := g.LocalOf(r, w.id.call).RecvLength(w.id.step, w.id.piece);
       ModeFits(g, w.id.call, w.mode, size) && w.buffer.size == if w.mode.Eager? then size else 0
  }

  lemma SendModeIs<T>(g: Ring<T>, r: nat, id: Id, x: SendRequest)
    requires g.Valid() && r < g.size && SendIs(g, r, id, x)
    ensures SendModeOk(g, x)
  {
    hide ModeFits, ModeOf, Ring.TagOf, Local.RecvFirst, Target;
    ModeOfFits(g, id.call, x.size);
  }

  lemma ReceiveModeIs<T>(g: Ring<T>, r: nat, id: Id, w: ReceiveRequest)
    requires g.Valid() && r < g.size && ReceiveIs(g, r, id, w)
    ensures ReceiveModeOk(g, r, w)
  {
    hide ModeFits, ModeOf, Ring.TagOf, Local.RecvFirst;
    ModeOfFits(g, id.call, g.LocalOf(r, id.call).RecvLength(id.step, id.piece));
  }

  lemma DescriptorModeIs<T>(g: Ring<T>, r: nat, id: Id, d: Descriptor)
    requires g.Valid() && r < g.size && DescriptorIs(g, r, id, d)
    ensures ModeFits(g, id.call, d.mode, d.region.size)
  {
    hide ModeFits, ModeOf, Ring.TagOf, Local.RecvFirst;
    ModeOfFits(g, id.call, d.region.size);
  }

  /** In every reachable state every request and descriptor of a link is in the
    mode its call asks for, and when the call leaves it open exactly those of
    at most 4096 bytes are eager. */
  lemma ModesFollowSizes<T>(g: Ring<T>, run: seq<Label>, r: nat)
    requires g.Valid() && g.TagsFit() && FitsDevice(g) && Executable(g, Initial(g), run) && r < g.size
    ensures var s := After(g, Initial(g), run);
            && |s.ranks| == |s.links| == g.size
            && var link := s.links[r];
               && (forall k :: 0 <= k < |link.sends| ==> SendModeOk(g, link.sends[k]))
               && (forall k :: 0 <= k < |link.receives| ==> ReceiveModeOk(g, r, link.receives[k]))
               && (forall k :: 0 <= k < |link.descriptors| ==>
                     ModeFits(g, s.ranks[r].call, link.descriptors[k].mode, link.descriptors[k].region.size))
  {
    hide Inv, RankOk, FlightsOk, LandedOk, SourcesOk, Sends, Offered, SendIs, ReceiveIs, DescriptorIs, ModeFits, SendModeOk,
         ReceiveModeOk, Executable, After, Initial, Ring.TagsFit, FitsDevice, WaitedAt, RequestedAt;
    InitialInv(g);
    Theorems.RunInv(g, Initial(g), run);
    var s := After(g, Initial(g), run);
    Network.TrafficAt(g, s, r);
    var w, link := Receives(g, r, s.ranks[r]), s.links[r];
    var offered := Offered(g, Prev(g.size, r), s.ranks[Prev(g.size, r)], w);
    forall k | 0 <= k < |link.sends| ensures SendModeOk(g, link.sends[k]) {
      SendModeIs(g, r, Id(w.call, w.step, Matched(w, link) + k), link.sends[k]);
    }
    forall k | 0 <= k < |link.receives| ensures ReceiveModeOk(g, r, link.receives[k]) {
      ReceiveModeIs(g, r, Id(w.call, w.step, Matched(w, link) + k), link.receives[k]);
    }
    forall k | 0 <= k < |link.descriptors|
      ensures ModeFits(g, s.ranks[r].call, link.descriptors[k].mode, link.descriptors[k].region.size)
    {
      DescriptorModeIs(g, r, Id(w.call, w.step, offered + k), link.descriptors[k]);
    }
  }

  // --- posts ---------------------------------------------------------------------------------

  /** The control message that carries a descriptor. */
  function Carried(d: Descriptor, elementSize: nat): Verbs.Incoming {
    Verbs.Message(true, d.tag, d.region.size * elementSize, d.mode, d.region)
  }

  /** A receive queued on a link, and its descriptor: the message announced. */
  ghost predicate Announced<T>(link: Link<T>, link': Link<T>, id: Id, message: Verbs.Incoming, elementSize: nat) {
    && |link'.receives| == |link.receives| + 1 && |link'.descriptors| == |link.descriptors| + 1
    && var request, d := link'.receives[|link.receives|], link'.descriptors[|link.descriptors|];
       && link' == link.(receives := link.receives + [request], descriptors := link.descriptors + [d])
       && Carried(d, elementSize) == message
       && request.id == id && request.tag == d.tag && request.mode == d.mode
       && request.buffer == if d.mode.Eager? then d.region else Region(false, 0, 0)
  }

  /** A rank's post of a receive ends as its endpoint's does when the device
    has room for 256; what is announced and queued is the endpoint's. */
  lemma ReceivePosted<T>(g: Ring<T>, s: State<T>, r: nat, tag: MadeTag, region: Region, elementSize: nat, requested: Mode)
    requires g.Valid() && Acting(g, s, r, PostReceives)
    requires tag == g.TagOf(Due(g, s, r)) && region == Target(Me(g, s, r), s.ranks[r].at.step, s.ranks[r].at.piece)
    requires elementSize == g.calls[s.ranks[r].call].elementSize && requested == g.calls[s.ranks[r].call].mode
    ensures |PostReceive(g, s, r).ranks| == |PostReceive(g, s, r).links| == g.size
    ensures var s', bytes := PostReceive(g, s, r), region.size * elementSize;
            && s'.ranks[r].status == (if tag.OutOfRange? then TagRange
                                      else if Verbs.Expressible(bytes) && s.ranks[r].receiving < 256 then Success else Transport)
            && (s'.ranks[r].status != Success ==> s'.links == s.links)
            && (s'.ranks[r].status == Success ==>
                  Announced(s.links[r], s'.links[r], Due(g, s, r),
                            Verbs.Message(true, tag.tag, bytes, ChooseMode(requested, bytes), region), elementSize))
  {
    hide ChooseMode, Ring.TagOf, Local.RecvFirst, Local.Advance;
    Positive(region.size, elementSize);
  }

  lemma Positive(a: nat, b: nat)
    requires a >= 1 && b >= 1
    ensures a * b >= 1
  {}

  lemma SameProduct(a: nat, b: nat, n: nat)
    requires n >= 1
    ensures a * n == b * n <==> a == b
  {}

  /** A rank's post of a send takes the descriptor and ends as its endpoint's
    does on the message that carries it; what is queued goes to the memory the
    descriptor names. */
  lemma SendPosted<T>(g: Ring<T>, s: State<T>, r: nat, tag: MadeTag, lo: nat, size: nat, elementSize: nat, requested: Mode)
    requires g.Valid() && Acting(g, s, r, PostSends) && s.links[Next(g.size, r)].descriptors != []
    requires tag == g.TagOf(Due(g, s, r)) && lo == Me(g, s, r).SendFirst(s.ranks[r].at.step, s.ranks[r].at.piece)
    requires size == Me(g, s, r).SendLength(s.ranks[r].at.step, s.ranks[r].at.piece)
    requires elementSize == g.calls[s.ranks[r].call].elementSize && requested == g.calls[s.ranks[r].call].mode
    ensures |PostSend(g, s, r).ranks| == |PostSend(g, s, r).links| == g.size
    ensures var s', n, bytes := PostSend(g, s, r), Next(g.size, r), size * elementSize;
            var link, link', d := s.links[n], s'.links[n], s.links[n].descriptors[0];
            && s'.ranks[r].status ==
               (if tag.OutOfRange? then TagRange
                else if && Verbs.Expressible(bytes) && s.ranks[r].sending < 256
                        && Verbs.Matching(bytes, tag.tag, requested, Carried(d, elementSize)) then Success
                else Transport)
            && (s'.ranks[r].status == Success ==>
                  link' == link.(
                    sends := link.sends + [SendRequest(Due(g, s, r), tag.tag, ChooseMode(requested, bytes), lo, size, d.region)],
                    descriptors := link.descriptors[1..], unacked := link.unacked + {Due(g, s, r)}))
  {
    hide ChooseMode, Ring.TagOf, Local.SendFirst, Local.Advance;
    var d := s.links[Next(g.size, r)].descriptors[0];
    Positive(size, elementSize);
    SameProduct(size, d.region.size, elementSize);
    hide Local.Acting;
  }

  /** The program of a rank that stands where the rank does. */
  ghost predicate Follows<T>(p: Program<T>, g: Ring<T>, s: State<T>, r: nat, m: Machine<T>)
    requires g.Valid()
  {
    && Running(g, s, r) && ProgramFacts.Member(p, g, r, s.ranks[r].call) && p.mode == g.calls[s.ranks[r].call].mode
    && p.Valid() && p.loc.CursorOk(s.ranks[r].at) && p.Fits(s.ranks[r].at, m) && p.answers(m.asked).Done?
  }

  /** What its program posts as a receive the ring announces and queues. */
  lemma ReceiveFollows<T>(p: Program<T>, g: Ring<T>, s: State<T>, r: nat, m: Machine<T>)
    requires g.Valid() && Follows(p, g, s, r, m) && Acting(g, s, r, PostReceives)
    requires PostReceive(g, s, r).ranks[r].status == Success
    ensures |PostReceive(g, s, r).links| == g.size && p.Act(s.ranks[r].at, m).0 == Success
    ensures var post := p.Act(s.ranks[r].at, m).1.posts[|m.posts|..];
            && |post| == 1 && post[0].ReceivePost?
            && Announced(s.links[r], PostReceive(g, s, r).links[r], Due(g, s, r),
                         Verbs.Message(true, post[0].tag, post[0].bytes, ChooseMode(post[0].mode, post[0].bytes), post[0].region),
                         p.elementSize)
  {
    hide PostReceive, ChooseMode, Announced, Ring.TagOf, Program.TagFor, Program.Fits, Program.Act, Local.RecvFirst, Local.Acting,
         Local.CursorOk;
    var at := s.ranks[r].at;
    ProgramFacts.MemberTags(p, g, r, s.ranks[r].call, at.step, at.piece);
    assert at.piece < p.loc.RecvPieces(at.step) by { ActingPiece(p.loc, at); }
    var region := Target(p.loc, at.step, at.piece);
    ReceivePosted(g, s, r, g.TagOf(Due(g, s, r)), region, p.elementSize, p.mode);
    p.PostReceiveIs(at, m, g.TagOf(Due(g, s, r)), region);
  }

  /** What its program posts as a send the ring queues, with the memory named
    by the descriptor as its target. */
  lemma SendFollows<T>(p: Program<T>, g: Ring<T>, s: State<T>, r: nat, m: Machine<T>)
    requires g.Valid() && Follows(p, g, s, r, m) && Acting(g, s, r, PostSends)
    requires s.links[Next(g.size, r)].descriptors != [] && PostSend(g, s, r).ranks[r].status == Success
    ensures |PostSend(g, s, r).links| == g.size && p.Act(s.ranks[r].at, m).0 == Success
    ensures var post, n := p.Act(s.ranks[r].at, m).1.posts[|m.posts|..], Next(g.size, r);
            && |post| == 1 && post[0].SendPost?
            && |PostSend(g, s, r).links[n].sends| == |s.links[n].sends| + 1
            && var x := PostSend(g, s, r).links[n].sends[|s.links[n].sends|];
               && x == SendRequest(Due(g, s, r), post[0].tag, ChooseMode(post[0].mode, post[0].bytes), post[0].lo, x.size,
                                   s.links[n].descriptors[0].region)
               && x.size * p.elementSize == post[0].bytes
  {
    hide PostSend, ChooseMode, Ring.TagOf, Program.TagFor, Program.Fits, Program.Act, Local.SendFirst, Local.Acting, Local.CursorOk;
    var at := s.ranks[r].at;
    ProgramFacts.MemberTags(p, g, r, s.ranks[r].call, at.step, at.piece);
    assert at.piece < p.loc.SendPieces(at.step) by { ActingPiece(p.loc, at); }
    var lo, size := p.loc.SendFirst(at.step, at.piece), p.loc.SendLength(at.step, at.piece);
    SendPosted(g, s, r, g.TagOf(Due(g, s, r)), lo, size, p.elementSize, p.mode);
    p.PostSendIs(at, m, g.TagOf(Due(g, s, r)), lo, size);
  }

  lemma ActingPiece(loc: Local, at: Cursor)
    requires loc.Valid() && loc.Acting(at)
    ensures at.stage.PostReceives? ==> at.piece < loc.RecvPieces(at.step)
    ensures at.stage.PostSends? ==> at.piece < loc.SendPieces(at.step)
  {}

  // --- transfers --------------------------------------------------------------------------------

  /** What the sender's device is handed for a request of the ring. */
  function Handed(x: SendRequest): Verbs.WorkRequest {
    if x.mode.Eager? then Verbs.SendWithImmediate(x.tag) else Verbs.WriteWithImmediate(x.tag, x.target)
  }

  /** Data sent goes to the buffer of the receive it meets and has to fit it;
    data written goes where the writer said. */
  function Destination(w: Verbs.WorkRequest, buffer: Region): Region {
    match w
    case WriteWithImmediate(_, target) => target
    case _ => buffer
  }

  predicate Succeeds(w: Verbs.WorkRequest, size: nat, buffer: Region) {
    w.SendWithImmediate? ==> size <= buffer.size
  }

  /** The oldest send meets the oldest receive: the data goes where the device
    puts it, and the mark the transfer carries is the verdict of the wait for
    that receive at an endpoint that posted it, in every history. */
  lemma FlightVerdict<T>(link: Link<T>, before: seq<Verbs.Event>, post: Verbs.Event, after: seq<Verbs.Event>, id: nat)
    requires link.sends != [] && link.receives != [] && !link.sends[0].mode.Auto?
    requires Verbs.Reported(before, post, after, id) && post.kind.Receiving?
    requires post.tag == link.receives[0].tag && ChooseMode(post.requested, post.bytes) == link.receives[0].mode
    requires var c := Verbs.Outcome(Verbs.UNUSED, before + [post] + after).reported[id];
             && Verbs.ReportsReceived(Handed(link.sends[0]), c)
             && c.success == Succeeds(Handed(link.sends[0]), link.sends[0].size, link.receives[0].buffer)
    ensures var flight := Launch(link).flights[link.sends[0].id];
            && Verbs.Waiting(Verbs.Outcome(Verbs.UNUSED, before + [post] + after), id).1 == Verbs.Finished(flight.ok)
            && flight.target == Destination(Handed(link.sends[0]), link.receives[0].buffer)
            && flight.lo == link.sends[0].lo && flight.size == link.sends[0].size && flight.request == link.receives[0].id
  {
    hide Verbs.Outcome, Verbs.Waiting, Verbs.History, ChooseMode;
    var x := link.sends[0];
    ModeChosen(post.requested, post.bytes, 0);
    Verbs.ReceiveVerdict(before, post, after, id, Handed(x), x.mode, 0);
  }

  /** An arrival reports to the receive what its transfer was marked with, and
    nothing to any other. */
  lemma ArrivalReports<T>(g: Ring<T>, s: State<T>, r: nat, id: Id, other: Id)
    requires g.Valid() && Enabled(g, s, Arrive(r, id))
    ensures |Step(g, s, Arrive(r, id)).ranks| == g.size
    ensures var flight, was, now := s.links[r].flights[id], s.ranks[r].received, Step(g, s, Arrive(r, id)).ranks[r].received;
            && flight.request in now && now[flight.request] == flight.ok
            && (other != flight.request ==> (other in now <==> other in was) && (other in was ==> now[other] == was[other]))
  {
    hide Unmoved;
  }

  /** A wait for a receive that was reported as failed stops the rank with a
    transport error and changes nothing else. */
  lemma FailedWait<T>(g: Ring<T>, s: State<T>, r: nat)
    requires g.Valid() && Acting(g, s, r, WaitReceives) && Due(g, s, r) in s.ranks[r].received
    requires !s.ranks[r].received[Due(g, s, r)]
    ensures WaitReceive(g, s, r).links == s.links && WaitReceive(g, s, r).ranks == s.ranks[r := s.ranks[r].(status := Transport)]
  {}
}
