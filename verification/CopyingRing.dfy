/** The ring over the copying transport: a send copies its payload into a queue
  at the receiver; a receive takes the first queued message with its tag, when
  it is posted or when it is waited for. */
module CopyingRing {
  import opened RingArithmetic
  import opened BlockLayout
  import opened Tags
  import opened Schedule
  import opened Group
  import opened Buffers

  /** `id` records which piece was sent; no guard and no result of the machine
    below depends on it. */
  datatype Message<T> = Message(id: Id, tag: nat, payload: seq<T>)

  /** A receive that has found its message; `data` is what the temporary buffer
    holds for it. */
  datatype Arrival<T> = Arrival(ok: bool, data: seq<T>)

  /** `ready` holds the completed but unwaited receives of the current batch,
    by piece; `out` the results of the calls that have returned. */
  datatype Rank<T> = Rank(call: nat, at: Cursor, work: seq<T>, ready: map<nat, Arrival<T>>,
                          out: seq<seq<T>>, status: Status)

  datatype State<T> = State(ranks: seq<Rank<T>>, queues: seq<seq<Message<T>>>)

  function FirstMatch<T>(queue: seq<Message<T>>, tag: nat): (j: nat)
    ensures j <= |queue|
    ensures j < |queue| ==> queue[j].tag == tag
    ensures forall k :: 0 <= k < j ==> queue[k].tag != tag
  {
    if queue == [] || queue[0].tag == tag then 0 else 1 + FirstMatch(queue[1..], tag)
  }

  function Without<T>(queue: seq<T>, j: nat): (q: seq<T>)
    requires j < |queue|
    ensures |q| == |queue| - 1
    ensures forall k :: 0 <= k < |q| ==> q[k] == queue[if k < j then k else k + 1]
  {
    queue[..j] + queue[j + 1..]
  }

  // --- one rank's steps ---------------------------------------------------

  ghost predicate Running<T>(g: Ring<T>, s: State<T>, r: nat)
    requires g.Valid()
  {
    && r < g.size && |s.ranks| == |s.queues| == g.size
    && s.ranks[r].call < |g.calls| && s.ranks[r].status == Success
    && g.LocalOf(r, s.ranks[r].call).CursorOk(s.ranks[r].at)
    && |s.ranks[r].work| == g.calls[s.ranks[r].call].count
  }

  ghost function Me<T>(g: Ring<T>, s: State<T>, r: nat): (loc: Local)
    requires g.Valid() && Running(g, s, r)
    ensures loc == g.LocalOf(r, s.ranks[r].call)
  {
    g.LocalOf(r, s.ranks[r].call)
  }

  ghost predicate Acting<T>(g: Ring<T>, s: State<T>, r: nat, stage: Stage)
    requires g.Valid()
  {
    Running(g, s, r) && Me(g, s, r).Acting(s.ranks[r].at) && s.ranks[r].at.stage == stage
  }

  /** The piece rank `r` is about to post or to wait for. */
  ghost function Due<T>(g: Ring<T>, s: State<T>, r: nat): Id
    requires g.Valid() && Running(g, s, r)
  {
    var me := s.ranks[r];
    Id(me.call, me.at.step, me.at.piece)
  }

  ghost function AdvanceRank<T>(g: Ring<T>, s: State<T>, r: nat): State<T>
    requires g.Valid() && Running(g, s, r) && !Me(g, s, r).Finished(s.ranks[r].at)
  {
    s.(ranks := s.ranks[r := s.ranks[r].(at := Me(g, s, r).Advance(s.ranks[r].at))])
  }

  ghost function Fail<T>(s: State<T>, r: nat, status: Status): State<T>
    requires r < |s.ranks|
  {
    s.(ranks := s.ranks[r := s.ranks[r].(status := status)])
  }

  /** The call returns; the next one copies its input into the work buffer. */
  ghost function Return<T>(g: Ring<T>, s: State<T>, r: nat): State<T>
    requires g.Valid() && Running(g, s, r)
  {
    var me := s.ranks[r];
    var work := if me.call + 1 < |g.calls| then g.calls[me.call + 1].input[r] else me.work;
    s.(ranks := s.ranks[r := Rank(me.call + 1, START, work, map[], me.out + [me.work], Success)])
  }

  /** Piece `p` of the receive block finds a message: it is taken off the queue
    and its payload copied to where the receive asked for it. */
  ghost predicate Deliverable<T>(g: Ring<T>, s: State<T>, r: nat, p: nat)
    requires g.Valid()
  {
    && Running(g, s, r) && g.IdOk(r, Id(s.ranks[r].call, s.ranks[r].at.step, p))
    && var tag := g.TagOf(Id(s.ranks[r].call, s.ranks[r].at.step, p));
       tag.Tag? && FirstMatch(s.queues[r], tag.tag) < |s.queues[r]|
  }

  ghost function Deliver<T>(g: Ring<T>, s: State<T>, r: nat, p: nat): State<T>
    requires g.Valid() && Deliverable(g, s, r, p)
  {
    var me, loc := s.ranks[r], Me(g, s, r);
    var j := FirstMatch(s.queues[r], g.TagOf(Id(me.call, me.at.step, p)).tag);
    var data := s.queues[r][j].payload;
    var me' :=
      if |data| != loc.RecvLength(me.at.step, p) then me.(ready := me.ready[p := Arrival(false, [])])
      else if loc.Gathering(me.at.step) then
        me.(ready := me.ready[p := Arrival(true, data)],
            work := Overwrite(me.work, loc.RecvFirst(me.at.step, p), data))
      else me.(ready := me.ready[p := Arrival(true, data)]);
    State(s.ranks[r := me'], s.queues[r := Without(s.queues[r], j)])
  }

  ghost function PostReceive<T>(g: Ring<T>, s: State<T>, r: nat): State<T>
    requires g.Valid() && Acting(g, s, r, PostReceives)
  {
    if g.TagOf(Due(g, s, r)).OutOfRange? then Fail(s, r, TagRange)
    else
      var posted := AdvanceRank(g, s, r);
      if Deliverable(g, posted, r, s.ranks[r].at.piece) then Deliver(g, posted, r, s.ranks[r].at.piece) else posted
  }

  /** The payload is copied out of the work buffer at once. */
  ghost function PostSend<T>(g: Ring<T>, s: State<T>, r: nat): State<T>
    requires g.Valid() && Acting(g, s, r, PostSends)
  {
    var me, loc := s.ranks[r], Me(g, s, r);
    var lo, n := loc.SendFirst(me.at.step, me.at.piece), loc.SendLength(me.at.step, me.at.piece);
    var tag := g.TagOf(Due(g, s, r));
    if tag.OutOfRange? then Fail(s, r, TagRange)
    else
      var m := Message(Due(g, s, r), tag.tag, me.work[lo..lo + n]);
      var q := Next(g.size, r);
      AdvanceRank(g, s, r).(queues := s.queues[q := s.queues[q] + [m]])
  }

  /** The wait returns, and a reduce-scatter piece is combined into the buffer. */
  ghost function Consume<T>(g: Ring<T>, s: State<T>, r: nat): State<T>
    requires g.Valid() && Acting(g, s, r, WaitReceives) && s.ranks[r].at.piece in s.ranks[r].ready
  {
    var me, loc := s.ranks[r], Me(g, s, r);
    var p := me.at.piece;
    var arrival := me.ready[p];
    if !arrival.ok || |arrival.data| != loc.RecvLength(me.at.step, p) then Fail(s, r, Transport)
    else
      var work :=
        if loc.Gathering(me.at.step) then me.work
        else Combine(g.calls[me.call].op, me.work, loc.RecvFirst(me.at.step, p), arrival.data);
      s.(ranks := s.ranks[r := me.(at := loc.Advance(me.at), ready := me.ready - {p}, work := work)])
  }

  /** Only a wait for a message that has not come blocks. */
  ghost predicate Enabled<T>(g: Ring<T>, s: State<T>, r: nat)
    requires g.Valid()
  {
    && Running(g, s, r)
    && (Acting(g, s, r, WaitReceives) ==>
          s.ranks[r].at.piece in s.ranks[r].ready || Deliverable(g, s, r, s.ranks[r].at.piece))
  }

  ghost function Step<T>(g: Ring<T>, s: State<T>, r: nat): State<T>
    requires g.Valid() && Enabled(g, s, r)
  {
    var at := s.ranks[r].at;
    if Me(g, s, r).Finished(at) then Return(g, s, r)
    else if Acting(g, s, r, PostReceives) then PostReceive(g, s, r)
    else if Acting(g, s, r, PostSends) then PostSend(g, s, r)
    else if Acting(g, s, r, WaitReceives) then
      Consume(g, if at.piece in s.ranks[r].ready then s else Deliver(g, s, r, at.piece), r)
    else AdvanceRank(g, s, r)
  }

  ghost function Initial<T>(g: Ring<T>): State<T>
    requires g.Valid()
  {
    State(seq(g.size, r requires 0 <= r < g.size =>
            Rank(0, START, if g.calls == [] then [] else g.calls[0].input[r], map[], [], Success)),
          seq(g.size, _ => []))
  }

  /** A schedule says which rank moves next; it is executable if that rank can. */
  ghost predicate Executable<T>(g: Ring<T>, s: State<T>, schedule: seq<nat>)
    requires g.Valid()
    decreases |schedule|
  {
    schedule != [] ==> Enabled(g, s, schedule[0]) && Executable(g, Step(g, s, schedule[0]), schedule[1..])
  }

  ghost function After<T>(g: Ring<T>, s: State<T>, schedule: seq<nat>): State<T>
    requires g.Valid() && Executable(g, s, schedule)
    decreases |schedule|
  {
    if schedule == [] then s else After(g, Step(g, s, schedule[0]), schedule[1..])
  }
}
