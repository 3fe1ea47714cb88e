/** The ring over the zero-copy transport. A receiver publishes a descriptor of
  its buffer; the sender waits for the next descriptor; the data moves element
  by element, read from the sender's buffer at any time before the send
  completes and written into the receiver's at any time before the receive
  completes. */
module ZeroCopyRing {
  import opened RingArithmetic
  import opened BlockLayout
  import opened Tags
  import opened Schedule
  import opened Group
  import opened Buffers

  const EAGER_THRESHOLD_BYTES: nat := 4 * 1024
  const QUEUE_PAIR_DEPTH: nat := 256

  function ChooseMode(requested: Mode, bytes: nat): Mode {
    match requested
    case Eager => Eager
    case Rendezvous => Rendezvous
    case Auto => if bytes <= EAGER_THRESHOLD_BYTES then Eager else Rendezvous
  }

  /** A mode asked for is kept; otherwise the size decides, and what is too big
    for an eager transfer stays too big as it grows. */
  lemma ModeChosen(requested: Mode, bytes: nat, more: nat)
    ensures !ChooseMode(requested, bytes).Auto?
    ensures !requested.Auto? ==> ChooseMode(requested, bytes) == requested
    ensures requested.Auto? ==> (ChooseMode(requested, bytes).Eager? <==> bytes <= 4096)
    ensures ChooseMode(Auto, 4096) == Eager && ChooseMode(Auto, 4097) == Rendezvous
    ensures ChooseMode(requested, bytes).Rendezvous? ==> ChooseMode(requested, bytes + more).Rendezvous?
  {}

  // --- state ----------------------------------------------------------------

  /** The control message that announces a receive. */
  datatype Descriptor = Descriptor(tag: nat, region: Region, mode: Mode)

  /** A receive work request. Only an eager one names a buffer. `id` is the
    request the completion will be reported to. */
  datatype ReceiveRequest = ReceiveRequest(id: Id, tag: nat, mode: Mode, buffer: Region)

  /** A send work request; `target` comes from the descriptor. */
  datatype SendRequest = SendRequest(id: Id, tag: nat, mode: Mode, lo: nat, size: nat, target: Region)

  /** A send that has met the receive work request it consumes: where its data
    goes, which receive completes, and whether length, opcode and immediate
    tag are what that receive expects. */
  datatype Flight = Flight(lo: nat, size: nat, target: Region, request: Id, ok: bool)

  /** Both queue pairs of a link and the control socket, seen from the
    receiver: descriptors not yet read, receive and send requests not yet
    matched, transfers, elements not yet read, elements read and not yet
    written, sends whose completion has not been reported. */
  datatype Link<T> = Link(descriptors: seq<Descriptor>, receives: seq<ReceiveRequest>, sends: seq<SendRequest>,
                          flights: map<Id, Flight>, unread: set<(Id, nat)>, wire: map<(Id, nat), T>,
                          unacked: set<Id>)

  /** `temp` is the temporary buffer where it has been written. `received` and
    `sent` are the reported completions not yet waited for, `receiving` and
    `sending` the requests posted and not yet waited for. */
  datatype Rank<T> = Rank(call: nat, at: Cursor, work: seq<T>, temp: map<nat, T>, out: seq<seq<T>>, status: Status,
                          received: map<Id, bool>, sent: set<Id>, receiving: nat, sending: nat)

  /** `links[r]` leads into rank `r`. */
  datatype State<T> = State(ranks: seq<Rank<T>>, links: seq<Link<T>>)

  // --- one rank's steps -------------------------------------------------------

  ghost predicate Running<T>(g: Ring<T>, s: State<T>, r: nat)
    requires g.Valid()
  {
    && r < g.size && |s.ranks| == |s.links| == g.size
    && s.ranks[r].call < |g.calls| && s.ranks[r].status == Success
    && g.LocalOf(r, s.ranks[r].call).CursorOk(s.ranks[r].at)
    && |s.ranks[r].work| == g.calls[s.ranks[r].call].count
  }

  ghost function Me<T>(g: Ring<T>, s: State<T>, r: nat): (loc: Local)
    requires g.Valid() && Running(g, s, r)
    ensures loc == g.LocalOf(r, s.ranks[r].call)
  {
    g.LocalOf(r, s.ranks[r].call)
  }

  ghost predicate Acting<T>(g: Ring<T>, s: State<T>, r: nat, stage: Stage)
    requires g.Valid()
  {
    Running(g, s, r) && Me(g, s, r).Acting(s.ranks[r].at) && s.ranks[r].at.stage == stage
  }

  ghost function Due<T>(g: Ring<T>, s: State<T>, r: nat): Id
    requires g.Valid() && Running(g, s, r)
  {
    Id(s.ranks[r].call, s.ranks[r].at.step, s.ranks[r].at.piece)
  }

  ghost function ModeOf<T>(g: Ring<T>, c: nat, length: nat): Mode
    requires g.Valid() && c < |g.calls|
  {
    ChooseMode(g.calls[c].mode, length * g.calls[c].elementSize)
  }

  ghost predicate TooLarge<T>(g: Ring<T>, c: nat, length: nat)
    requires g.Valid() && c < |g.calls|
  {
    length * g.calls[c].elementSize > MAX_BYTES
  }

  ghost function Fail<T>(s: State<T>, r: nat, status: Status): State<T>
    requires r < |s.ranks|
  {
    s.(ranks := s.ranks[r := s.ranks[r].(status := status)])
  }

  ghost function AdvanceRank<T>(g: Ring<T>, s: State<T>, r: nat): State<T>
    requires g.Valid() && Running(g, s, r) && !Me(g, s, r).Finished(s.ranks[r].at)
  {
    s.(ranks := s.ranks[r := s.ranks[r].(at := Me(g, s, r).Advance(s.ranks[r].at))])
  }

  ghost function Return<T>(g: Ring<T>, s: State<T>, r: nat): State<T>
    requires g.Valid() && Running(g, s, r)
  {
    var me := s.ranks[r];
    var work := if me.call + 1 < |g.calls| then g.calls[me.call + 1].input[r] else me.work;
    s.(ranks := s.ranks[r := me.(call := me.call + 1, at := START, work := work, out := me.out + [me.work])])
  }

  ghost function NewReceive<T>(g: Ring<T>, r: nat, id: Id, tag: nat): (ReceiveRequest, Descriptor)
    requires g.Valid() && r < g.size && g.IdOk(r, id)
  {
    var region := Target(g.LocalOf(r, id.call), id.step, id.piece);
    var mode := ModeOf(g, id.call, region.size);
    (ReceiveRequest(id, tag, mode, if mode.Eager? then region else Region(false, 0, 0)),
     Descriptor(tag, region, mode))
  }

  ghost function PostReceive<T>(g: Ring<T>, s: State<T>, r: nat): State<T>
    requires g.Valid() && Acting(g, s, r, PostReceives)
  {
    var me, tag := s.ranks[r], g.TagOf(Due(g, s, r));
    if tag.OutOfRange? then Fail(s, r, TagRange)
    else if TooLarge(g, me.call, Me(g, s, r).RecvLength(me.at.step, me.at.piece)) then Fail(s, r, Transport)
    else if me.receiving >= QUEUE_PAIR_DEPTH then Fail(s, r, Transport)
    else
      var (request, descriptor) := NewReceive(g, r, Due(g, s, r), tag.tag);
      var link := s.links[r];
      State(s.ranks[r := me.(at := Me(g, s, r).Advance(me.at), receiving := me.receiving + 1)],
            s.links[r := link.(receives := link.receives + [request],
                               descriptors := link.descriptors + [descriptor])])
  }

  /** The post of a send blocks until a descriptor comes, unless it fails before. */
  ghost predicate SendReady<T>(g: Ring<T>, s: State<T>, r: nat)
    requires g.Valid() && Acting(g, s, r, PostSends)
  {
    || s.links[Next(g.size, r)].descriptors != []
    || g.TagOf(Due(g, s, r)).OutOfRange?
    || TooLarge(g, s.ranks[r].call, Me(g, s, r).SendLength(s.ranks[r].at.step, s.ranks[r].at.piece))
  }

  /** Takes the next descriptor off the control socket and checks it. */
  ghost function PostSend<T>(g: Ring<T>, s: State<T>, r: nat): State<T>
    requires g.Valid() && Acting(g, s, r, PostSends) && SendReady(g, s, r)
  {
    var me, loc, id, tag := s.ranks[r], Me(g, s, r), Due(g, s, r), g.TagOf(Due(g, s, r));
    var link, size := s.links[Next(g.size, r)], loc.SendLength(me.at.step, me.at.piece);
    var mode := ModeOf(g, me.call, size);
    if tag.OutOfRange? then Fail(s, r, TagRange)
    else if TooLarge(g, me.call, size) then Fail(s, r, Transport)
    else
      var d := link.descriptors[0];
      if d.tag != tag.tag || d.region.size != size || d.mode != mode || me.sending >= QUEUE_PAIR_DEPTH then
        Fail(s.(links := s.links[Next(g.size, r) := link.(descriptors := link.descriptors[1..])]), r, Transport)
      else
        State(s.ranks[r := me.(at := loc.Advance(me.at), sending := me.sending + 1)],
              s.links[Next(g.size, r) := link.(
                descriptors := link.descriptors[1..],
                sends := link.sends
                  + [SendRequest(id, tag.tag, mode, loc.SendFirst(me.at.step, me.at.piece), size, d.region)],
                unacked := link.unacked + {id})])
  }

  /** The temporary buffer's contents over a region, if all of it was written. */
  ghost function Fetch<T>(temp: map<nat, T>, lo: nat, size: nat): (data: seq<T>)
    requires forall j :: lo <= j < lo + size ==> j in temp
    ensures |data| == size && forall j :: 0 <= j < size ==> data[j] == temp[lo + j]
  {
    if size == 0 then [] else Fetch(temp, lo, size - 1) + [temp[lo + size - 1]]
  }

  ghost function WaitReceive<T>(g: Ring<T>, s: State<T>, r: nat): State<T>
    requires g.Valid() && Acting(g, s, r, WaitReceives) && Due(g, s, r) in s.ranks[r].received
  {
    var me, loc, id := s.ranks[r], Me(g, s, r), Due(g, s, r);
    var lo, size := loc.shape.Start(id.piece), loc.RecvLength(id.step, id.piece);
    if !me.received[id] || me.receiving == 0 then Fail(s, r, Transport)
    else if !loc.Gathering(id.step) && exists j :: lo <= j < lo + size && j !in me.temp then Fail(s, r, Transport)
    else
      var work :=
        if loc.Gathering(id.step) then me.work
        else Combine(g.calls[me.call].op, me.work, loc.RecvFirst(id.step, id.piece), Fetch(me.temp, lo, size));
      s.(ranks := s.ranks[r := me.(at := loc.Advance(me.at), received := me.received - {id}, work := work,
                                   receiving := me.receiving - 1)])
  }

  ghost function WaitSend<T>(g: Ring<T>, s: State<T>, r: nat): State<T>
    requires g.Valid() && Acting(g, s, r, WaitSends)
  {
    var me := s.ranks[r];
    if me.sending == 0 then Fail(s, r, Transport)
    else
      s.(ranks := s.ranks[r := me.(at := Me(g, s, r).Advance(me.at), sent := me.sent - {Due(g, s, r)},
                                   sending := me.sending - 1)])
  }

  // --- the network's steps ----------------------------------------------------

  ghost function Elements(id: Id, size: nat): set<(Id, nat)> {
    set j | 0 <= j < size :: (id, j)
  }

  /** The oldest send meets the oldest receive work request. */
  ghost function Launch<T>(link: Link<T>): Link<T>
    requires link.sends != [] && link.receives != []
  {
    var s, w := link.sends[0], link.receives[0];
    var flight := Flight(s.lo, s.size, if s.mode.Eager? then w.buffer else s.target, w.id,
                         s.tag == w.tag && s.mode == w.mode && (s.mode.Eager? ==> s.size <= w.buffer.size));
    link.(sends := link.sends[1..], receives := link.receives[1..], flights := link.flights[s.id := flight],
          unread := link.unread + Elements(s.id, s.size))
  }

  ghost predicate Unmoved<T>(link: Link<T>, id: Id) {
    exists j: nat :: (id, j) in link.unread || (id, j) in link.wire
  }

  /** One element is written into the receiver's memory. */
  ghost function Write<T>(me: Rank<T>, region: Region, j: nat, value: T): Rank<T> {
    if region.temporary then me.(temp := me.temp[region.lo + j := value])
    else if region.lo + j < |me.work| then me.(work := me.work[region.lo + j := value])
    else me
  }

  datatype Label = Move(r: nat) | Match(r: nat) | Read(r: nat, id: Id, j: nat) | Land(r: nat, id: Id, j: nat)
                 | Arrive(r: nat, id: Id) | Ack(r: nat, id: Id)

  ghost predicate MoveEnabled<T>(g: Ring<T>, s: State<T>, r: nat)
    requires g.Valid()
  {
    && Running(g, s, r)
    && (Acting(g, s, r, PostSends) ==> SendReady(g, s, r))
    && (Acting(g, s, r, WaitReceives) ==> Due(g, s, r) in s.ranks[r].received)
    && (Acting(g, s, r, WaitSends) ==> Due(g, s, r) in s.ranks[r].sent)
  }

  ghost predicate Enabled<T>(g: Ring<T>, s: State<T>, l: Label)
    requires g.Valid()
  {
    && l.r < g.size && |s.ranks| == |s.links| == g.size
    && var link := s.links[l.r];
       match l
       case Move(r) => MoveEnabled(g, s, r)
       case Match(_) => link.sends != [] && link.receives != []
       case Read(r, id, j) =>
         && (id, j) in link.unread && id in link.flights
         && link.flights[id].lo + j < |s.ranks[Prev(g.size, r)].work|
       case Land(_, id, j) => (id, j) in link.wire && id in link.flights
       case Arrive(_, id) => id in link.flights && !Unmoved(link, id)
       case Ack(_, id) =>
         && id in link.unacked && (forall k :: 0 <= k < |link.sends| ==> link.sends[k].id != id)
         && (forall j: nat :: (id, j) !in link.unread)
  }

  ghost function Step<T>(g: Ring<T>, s: State<T>, l: Label): State<T>
    requires g.Valid() && Enabled(g, s, l)
  {
    var link := s.links[l.r];
    match l
    case Move(r) =>
      if Me(g, s, r).Finished(s.ranks[r].at) then Return(g, s, r)
      else if Acting(g, s, r, PostReceives) then PostReceive(g, s, r)
      else if Acting(g, s, r, PostSends) then PostSend(g, s, r)
      else if Acting(g, s, r, WaitReceives) then WaitReceive(g, s, r)
      else if Acting(g, s, r, WaitSends) then WaitSend(g, s, r)
      else AdvanceRank(g, s, r)
    case Match(r) => s.(links := s.links[r := Launch(link)])
    case Read(r, id, j) =>
      var value := s.ranks[Prev(g.size, r)].work[link.flights[id].lo + j];
      s.(links := s.links[r := link.(unread := link.unread - {(id, j)}, wire := link.wire[(id, j) := value])])
    case Land(r, id, j) =>
      State(s.ranks[r := Write(s.ranks[r], link.flights[id].target, j, link.wire[(id, j)])],
            s.links[r := link.(wire := link.wire - {(id, j)})])
    case Arrive(r, id) =>
      var flight := link.flights[id];
      State(s.ranks[r := s.ranks[r].(received := s.ranks[r].received[flight.request := flight.ok])],
            s.links[r := link.(flights := link.flights - {id})])
    case Ack(r, id) =>
      var q := Prev(g.size, r);
      State(s.ranks[q := s.ranks[q].(sent := s.ranks[q].sent + {id})],
            s.links[r := link.(unacked := link.unacked - {id})])
  }

  ghost function Initial<T>(g: Ring<T>): State<T>
    requires g.Valid()
  {
    State(seq(g.size, r requires 0 <= r < g.size =>
            Rank(0, START, if g.calls == [] then [] else g.calls[0].input[r], map[], [], Success, map[], {}, 0, 0)),
          seq(g.size, _ => Link([], [], [], map[], {}, map[], {})))
  }

  /** An interleaving of the ranks' and the network's steps. */
  ghost predicate Executable<T>(g: Ring<T>, s: State<T>, run: seq<Label>)
    requires g.Valid()
    decreases |run|
  {
    run != [] ==> Enabled(g, s, run[0]) && Executable(g, Step(g, s, run[0]), run[1..])
  }

  ghost function After<T>(g: Ring<T>, s: State<T>, run: seq<Label>): State<T>
    requires g.Valid() && Executable(g, s, run)
    decreases |run|
  {
    if run == [] then s else After(g, Step(g, s, run[0]), run[1..])
  }
}
