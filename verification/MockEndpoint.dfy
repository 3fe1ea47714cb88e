/** One rank's end of the copying transport: per-destination queues, requests
  that complete when a message with their tag is found, and the counters. */
module MockEndpoint {
  import opened RingArithmetic
  import opened BlockLayout
  import opened Buffers
  import opened Tags
  import opened Schedule
  import opened Group
  import opened CopyingRing

  /** What is queued at every rank of a group. */
  class Queues<T> {
    var incoming: seq<seq<Message<T>>>

    constructor (size: nat)
      ensures incoming == seq(size, _ => [])
    {
      incoming := seq(size, _ => []);
    }
  }

  /** A request not consumed yet; `data` is what was put into the buffer of a
    completed receive. */
  datatype Request<T> = Sent | Receive(tag: nat, size: nat, completed: bool, ok: bool, data: seq<T>)

  datatype Stats = Stats(sendRequests: nat, sentElements: nat, receiveRequests: nat, receivedElements: nat,
                         outstanding: nat, maximum: nat)

  const NO_STATS := Stats(0, 0, 0, 0, 0, 0)

  function Counted(s: Stats, send: bool, n: nat): Stats {
    var more := s.outstanding + 1;
    var s' := s.(outstanding := more, maximum := Max(s.maximum, more));
    if send then s'.(sendRequests := s.sendRequests + 1, sentElements := s.sentElements + n)
    else s'.(receiveRequests := s.receiveRequests + 1, receivedElements := s.receivedElements + n)
  }

  /** A receive after it has looked into its queue once. */
  function Served<T>(r: Request<T>, queue: seq<Message<T>>): Request<T>
    requires r.Receive?
  {
    var j := FirstMatch(queue, r.tag);
    if j == |queue| then r
    else if |queue[j].payload| != r.size then r.(completed := true, ok := false)
    else r.(completed := true, ok := true, data := queue[j].payload)
  }

  function Taken<T>(r: Request<T>, queue: seq<Message<T>>): seq<Message<T>>
    requires r.Receive?
  {
    var j := FirstMatch(queue, r.tag);
    if j == |queue| then queue else Without(queue, j)
  }

  /** A receive takes the oldest message with its tag and leaves the order of
    all others alone; it gets that message's payload or fails for its length. */
  lemma ServedOldest<T>(r: Request<T>, queue: seq<Message<T>>, j: nat)
    requires r.Receive? && !r.completed && j < |queue| && queue[j].tag == r.tag
    requires forall k :: 0 <= k < j ==> queue[k].tag != r.tag
    ensures Served(r, queue).completed && Taken(r, queue) == queue[..j] + queue[j + 1..]
    ensures Served(r, queue).ok <==> |queue[j].payload| == r.size
    ensures Served(r, queue).ok ==> Served(r, queue).data == queue[j].payload
  {
    FirstIs(queue, r.tag, j);
  }

  ghost predicate Absent<T>(queue: seq<Message<T>>, tag: nat) {
    forall k :: 0 <= k < |queue| ==> queue[k].tag != tag
  }

  /** What one look into the queue makes of an open receive: nothing at all as
    long as no message has its tag; otherwise the oldest such message is gone,
    and the receive has its payload, or has failed if that is not as long. */
  ghost predicate Looked<T>(r: Request<T>, queue: seq<Message<T>>, r': Request<T>, queue': seq<Message<T>>)
    requires r.Receive?
  {
    && (Absent(queue, r.tag) ==> r' == r && queue' == queue)
    && (!Absent(queue, r.tag) ==>
          exists j ::
            && 0 <= j < |queue| && queue[j].tag == r.tag && Absent(queue[..j], r.tag)
            && queue' == queue[..j] + queue[j + 1..]
            && r' == r.(completed := true, ok := |queue[j].payload| == r.size,
                        data := if |queue[j].payload| == r.size then queue[j].payload else r.data))
  }

  lemma LooksOnce<T>(r: Request<T>, queue: seq<Message<T>>)
    requires r.Receive? && !r.completed
    ensures Looked(r, queue, Served(r, queue), Taken(r, queue))
    ensures Served(r, queue).completed <==> !Absent(queue, r.tag)
  {
    var j := FirstMatch(queue, r.tag);
    if j < |queue| {
      assert !Absent(queue, r.tag) by { assert queue[j].tag == r.tag; }
      assert Absent(queue[..j], r.tag);
      assert Taken(r, queue) == queue[..j] + queue[j + 1..];
      assert queue[j].tag == r.tag;
    }
  }

  // --- counters -----------------------------------------------------------------------------

  datatype Tick = SendPosted(n: nat) | ReceivePosted(n: nat) | Waited

  function Ticked(s: Stats, t: Tick): Stats {
    match t
    case SendPosted(n) => Counted(s, true, n)
    case ReceivePosted(n) => Counted(s, false, n)
    case Waited => if s.outstanding > 0 then s.(outstanding := s.outstanding - 1) else s
  }

  /** The counters after some posts and waits. */
  function Counters(ticks: seq<Tick>): Stats {
    if ticks == [] then NO_STATS else Ticked(Counters(ticks[..|ticks| - 1]), ticks[|ticks| - 1])
  }

  lemma LastTick(ticks: seq<Tick>)
    ensures ticks != [] ==> Counters(ticks) == Ticked(Counters(ticks[..|ticks| - 1]), ticks[|ticks| - 1])
  {}

  function Posts(ticks: seq<Tick>, send: bool): nat {
    if ticks == [] then 0 else Posts(ticks[1..], send) + if (if send then ticks[0].SendPosted? else ticks[0].ReceivePosted?) then 1 else 0
  }

  function Elements(ticks: seq<Tick>, send: bool): nat {
    if ticks == [] then 0
    else Elements(ticks[1..], send) + if (if send then ticks[0].SendPosted? else ticks[0].ReceivePosted?) then ticks[0].n else 0
  }

  function Waits(ticks: seq<Tick>): nat {
    if ticks == [] then 0 else Waits(ticks[1..]) + if ticks[0].Waited? then 1 else 0
  }

  /** Posts not yet waited for. */
  function Open(ticks: seq<Tick>): int {
    Posts(ticks, true) + Posts(ticks, false) - Waits(ticks)
  }

  /** No wait comes before its post. */
  ghost predicate Orderly(ticks: seq<Tick>) {
    forall k :: 0 <= k <= |ticks| ==> Open(ticks[..k]) >= 0
  }

  lemma {:induction false} OneTick(ticks: seq<Tick>, t: Tick, send: bool)
    ensures var posted := if send then t.SendPosted? else t.ReceivePosted?;
            && Posts(ticks + [t], send) == Posts(ticks, send) + (if posted then 1 else 0)
            && Elements(ticks + [t], send) == Elements(ticks, send) + (if posted then t.n else 0)
    ensures Waits(ticks + [t]) == Waits(ticks) + if t.Waited? then 1 else 0
  {
    if ticks == [] {
      assert [] + [t] == [t];
      assert [t][1..] == [];
    } else {
      assert (ticks + [t])[1..] == ticks[1..] + [t];
      OneTick(ticks[1..], t, send);
    }
  }

  /** Each kind of post adds up in its own counters, and the requests
    outstanding are those not waited for. */
  lemma {:induction false} CountersAddUp(ticks: seq<Tick>)
    requires Orderly(ticks)
    ensures AddUp(Counters(ticks), ticks)
  {
    hide Posts, Elements, Waits, Orderly, Counters, AddUp;
    if ticks == [] {
      NoTicks();
    } else {
      var before := ticks[..|ticks| - 1];
      OrderlyBefore(ticks);
      CountersAddUp(before);
      LastTick(ticks);
      assert before + [ticks[|ticks| - 1]] == ticks;
      AddsUp(Counters(before), before, ticks[|ticks| - 1]);
    }
  }

  ghost predicate AddUp(s: Stats, ticks: seq<Tick>) {
    && s.sendRequests == Posts(ticks, true) && s.sentElements == Elements(ticks, true)
    && s.receiveRequests == Posts(ticks, false) && s.receivedElements == Elements(ticks, false)
    && s.outstanding == Open(ticks)
  }

  lemma AddsUp(s: Stats, ticks: seq<Tick>, t: Tick)
    requires AddUp(s, ticks) && Open(ticks + [t]) >= 0
    ensures AddUp(Ticked(s, t), ticks + [t])
  {
    hide Posts, Elements, Waits;
    OneTick(ticks, t, true);
    OneTick(ticks, t, false);
  }

  lemma NoTicks()
    ensures AddUp(Counters([]), [])
  {}

  lemma OrderlyBefore(ticks: seq<Tick>)
    requires Orderly(ticks) && ticks != []
    ensures Orderly(ticks[..|ticks| - 1]) && Open(ticks) >= 0
  {
    var before := ticks[..|ticks| - 1];
    assert forall k :: 0 <= k <= |before| ==> before[..k] == ticks[..k];
    assert ticks[..|ticks|] == ticks;
    hide Open;
  }

  /** The maximum is the most requests there ever were at once. */
  lemma {:induction false} MaximumReached(ticks: seq<Tick>)
    requires Orderly(ticks)
    ensures forall k :: 0 <= k <= |ticks| ==> Open(ticks[..k]) <= Counters(ticks).maximum
    ensures exists k :: 0 <= k <= |ticks| && Open(ticks[..k]) == Counters(ticks).maximum
  {
    hide Open, Orderly;
    assert ticks[..|ticks|] == ticks;
    CountersAddUp(ticks);
    if ticks == [] {
      assert ticks[..0] == [];
      assert Open(ticks[..0]) == Counters(ticks).maximum;
    } else {
      var before := ticks[..|ticks| - 1];
      OrderlyBefore(ticks);
      CountersAddUp(before);
      MaximumReached(before);
      assert forall k :: 0 <= k <= |before| ==> before[..k] == ticks[..k];
      var k :| 0 <= k <= |before| && Open(before[..k]) == Counters(before).maximum;
      assert Open(ticks[..k]) == Counters(before).maximum;
      assert Open(ticks[..|ticks|]) == Counters(ticks).outstanding;
    }
  }

  // --- the endpoint --------------------------------------------------------------------------

  class Endpoint<T> {
    const queues: Queues<T>
    const rank: nat
    const worldSize: nat
    var requests: map<nat, Request<T>>
    var nextRequestId: nat
    var stats: Stats

    constructor (queues: Queues<T>, rank: nat, worldSize: nat)
      requires rank < worldSize == |queues.incoming|
      ensures Valid() && this.queues == queues && this.rank == rank && this.worldSize == worldSize
      ensures requests == map[] && stats == NO_STATS
    {
      this.queues, this.rank, this.worldSize := queues, rank, worldSize;
      requests, nextRequestId, stats := map[], 1, NO_STATS;
    }

    /** The outstanding counter is the number of requests not waited for. */
    ghost predicate Valid()
      reads this, queues
    {
      && rank < worldSize == |queues.incoming|
      && nextRequestId >= 1 && (forall id :: id in requests ==> 1 <= id < nextRequestId)
      && stats.outstanding == |requests| <= stats.maximum
    }

    /** The scan for the first message with a tag, which is taken out. */
    method TryComplete(r: Request<T>) returns (r': Request<T>)
      requires Valid() && r.Receive?
      modifies queues
      ensures Valid() && r' == Served(r, old(queues.incoming[rank]))
      ensures !r.completed ==> Looked(r, old(queues.incoming[rank]), r', queues.incoming[rank])
      ensures queues.incoming == old(queues.incoming)[rank := Taken(r, old(queues.incoming[rank]))]
    {
      hide Looked, Absent;
      if !r.completed { LooksOnce(r, queues.incoming[rank]); }
      var queue := queues.incoming[rank];
      var j := 0;
      while j < |queue|
        invariant j <= |queue| && forall k :: 0 <= k < j ==> queue[k].tag != r.tag
      {
        if queue[j].tag == r.tag {
          FirstIs(queue, r.tag, j);
          queues.incoming := queues.incoming[rank := Without(queue, j)];
          if |queue[j].payload| != r.size {
            return r.(completed := true, ok := false);
          }
          return r.(completed := true, ok := true, data := queue[j].payload);
        }
        j := j + 1;
      }
      FirstIs(queue, r.tag, j);
      assert queues.incoming[rank := queue] == queues.incoming;
      return r;
    }

    /** The payload is copied at once, so the send is complete when posted. */
    method PostSend(which: Id, payload: seq<T>, tag: nat) returns (id: nat)
      requires Valid()
      modifies this, queues
      ensures Valid() && id == old(nextRequestId) && nextRequestId == id + 1 && id !in old(requests)
      ensures requests == old(requests)[id := Sent] && stats == Counted(old(stats), true, |payload|)
      ensures var next := Next(worldSize, rank);
              queues.incoming == old(queues.incoming)[next := old(queues.incoming)[next] + [Message(which, tag, payload)]]
      ensures var was, more := old(stats), old(stats).outstanding + 1;
              stats == Stats(was.sendRequests + 1, was.sentElements + |payload|, was.receiveRequests, was.receivedElements, more,
                             Max(was.maximum, more))
    {
      RotationsAgree(worldSize, rank, 0);
      var destination := PositiveMod(rank + 1, worldSize);
      queues.incoming := queues.incoming[destination := queues.incoming[destination] + [Message(which, tag, payload)]];
      stats := Counted(stats, true, |payload|);
      id := nextRequestId;
      nextRequestId := nextRequestId + 1;
      requests := requests[id := Sent];
    }

    method PostReceive(size: nat, tag: nat) returns (id: nat)
      requires Valid()
      modifies this, queues
      ensures Valid() && id == old(nextRequestId) && nextRequestId == id + 1 && id !in old(requests)
      ensures var r := Receive(tag, size, false, true, []);
              && requests == old(requests)[id := Served(r, old(queues.incoming[rank]))]
              && queues.incoming == old(queues.incoming)[rank := Taken(r, old(queues.incoming[rank]))]
              && stats == Counted(old(stats), false, size)
      ensures id in requests && Looked(Receive(tag, size, false, true, []), old(queues.incoming[rank]), requests[id], queues.incoming[rank])
      ensures Absent(old(queues.incoming[rank]), tag) ==>
                requests[id] == Receive(tag, size, false, true, []) && queues.incoming == old(queues.incoming)
      ensures var was, more := old(stats), old(stats).outstanding + 1;
              stats == Stats(was.sendRequests, was.sentElements, was.receiveRequests + 1, was.receivedElements + size, more,
                             Max(was.maximum, more))
    {
      var r := TryComplete(Receive(tag, size, false, true, []));
      stats := Counted(stats, false, size);
      id := nextRequestId;
      nextRequestId := nextRequestId + 1;
      requests := requests[id := r];
    }

    /** Looks once more for a receive that is not complete. */
    method Test(id: nat) returns (found: bool, completed: bool, ok: bool)
      requires Valid()
      modifies this`requests, queues
      ensures Valid() && found == (id in old(requests))
      ensures !found ==> requests == old(requests) && queues.incoming == old(queues.incoming)
      ensures found && (old(requests)[id].Sent? || old(requests)[id].completed) ==>
                requests == old(requests) && queues.incoming == old(queues.incoming) && completed
      ensures found && old(requests)[id].Receive? && !old(requests)[id].completed ==>
                var r := old(requests)[id];
                && requests == old(requests)[id := Served(r, old(queues.incoming[rank]))]
                && queues.incoming == old(queues.incoming)[rank := Taken(r, old(queues.incoming[rank]))]
                && completed == requests[id].completed
                && Looked(r, old(queues.incoming[rank]), requests[id], queues.incoming[rank])
                && completed == !Absent(old(queues.incoming[rank]), r.tag)
                && (!completed ==> requests == old(requests) && queues.incoming == old(queues.incoming))
      ensures found && completed ==> ok == (requests[id].Sent? || requests[id].ok)
      ensures !completed ==> ok == found
    {
      found, completed, ok := id in requests, false, false;
      if found {
        var r := requests[id];
        if r.Receive? && !r.completed {
          var size := |requests|;
          r := TryComplete(r);
          requests := requests[id := r];
          assert requests.Keys == old(requests).Keys;
          assert |requests| == |requests.Keys| && |old(requests)| == |old(requests).Keys|;
        }
        completed := r.Sent? || r.completed;
        ok := if r.Sent? || !completed then true else r.ok;
      }
    }

    /** Blocks until the receive has its message; then the request is gone. */
    method Wait(id: nat) returns (found: bool, blocked: bool, ok: bool, data: seq<T>)
      requires Valid()
      modifies this, queues
      ensures Valid() && found == (id in old(requests))
      ensures !found || blocked ==> requests == old(requests) && stats == old(stats) && queues.incoming == old(queues.incoming)
      ensures found ==>
                var r := old(requests)[id];
                var done := r.Sent? || r.completed;
                var last := if done then r else Served(r, old(queues.incoming[rank]));
                && blocked == (last.Receive? && !last.completed)
                && (!blocked ==>
                      && requests == old(requests) - {id} && stats == old(stats).(outstanding := old(stats).outstanding - 1)
                      && queues.incoming == (if done then old(queues.incoming)
                                             else old(queues.incoming)[rank := Taken(r, old(queues.incoming[rank]))])
                      && ok == (last.Sent? || last.ok) && (last.Receive? ==> data == last.data))
                && blocked == (!done && Absent(old(queues.incoming[rank]), r.tag))
                && (!blocked && !done ==> Looked(r, old(queues.incoming[rank]), Receive(r.tag, r.size, true, ok, data), queues.incoming[rank]))
    {
      found, blocked, ok, data := id in requests, false, false, [];
      if found {
        var r := requests[id];
        if r.Receive? && !r.completed {
          ghost var before := queues.incoming;
          r := TryComplete(r);
          if !r.completed {
            assert before[rank := before[rank]] == before;
            return found, true, false, [];
          }
        }
        ok := r.Sent? || r.ok;
        if r.Receive? { data := r.data; }
        assert |requests| == |requests.Keys| && (requests - {id}).Keys == requests.Keys - {id};
        assert |requests - {id}| == |(requests - {id}).Keys|;
        stats := stats.(outstanding := stats.outstanding - 1);
        requests := requests - {id};
      }
    }
  }

  lemma {:induction false} FirstIs<T>(queue: seq<Message<T>>, tag: nat, j: nat)
    requires j <= |queue| && (forall k :: 0 <= k < j ==> queue[k].tag != tag) && (j < |queue| ==> queue[j].tag == tag)
    ensures FirstMatch(queue, tag) == j
  {
    if queue != [] && j > 0 {
      FirstIs(queue[1..], tag, j - 1);
    }
  }

  // --- the ring of endpoints -------------------------------------------------------------------

  /** What the ring does at a post of a receive or a wait for it is what the
    endpoint does: it goes on exactly when a look into the queue completes the
    receive, which then has the payload or has failed. */
  lemma DeliverIsLook<T>(g: Ring<T>, s: State<T>, r: nat, p: nat)
    requires g.Valid() && Running(g, s, r) && g.IdOk(r, Id(s.ranks[r].call, s.ranks[r].at.step, p))
    requires g.TagOf(Id(s.ranks[r].call, s.ranks[r].at.step, p)).Tag?
    ensures var me, tag := s.ranks[r], g.TagOf(Id(s.ranks[r].call, s.ranks[r].at.step, p)).tag;
            && (Deliverable(g, s, r, p) <==> !Absent(s.queues[r], tag))
            && (Deliverable(g, s, r, p) ==>
                  var s', n := Deliver(g, s, r, p), Me(g, s, r).RecvLength(me.at.step, p);
                  && |s'.ranks| == |s'.queues| == g.size && p in s'.ranks[r].ready
                  && var arrival := s'.ranks[r].ready[p];
                     && Looked(Receive(tag, n, false, true, []), s.queues[r], Receive(tag, n, true, arrival.ok, arrival.data), s'.queues[r])
                     && s'.ranks[r].work == (if arrival.ok && Me(g, s, r).Gathering(me.at.step)
                                             then Overwrite(me.work, Me(g, s, r).RecvFirst(me.at.step, p), arrival.data)
                                             else me.work))
  {
    hide Ring.TagOf, Looked, Local.RecvFirst, Local.CursorOk, Overwrite;
    var me, tag := s.ranks[r], g.TagOf(Id(s.ranks[r].call, s.ranks[r].at.step, p)).tag;
    LooksOnce(Receive(tag, Me(g, s, r).RecvLength(me.at.step, p), false, true, []), s.queues[r]);
  }

  /** A wait for a receive that has failed stops the rank with a transport
    error and changes nothing else. */
  lemma FailedWait<T>(g: Ring<T>, s: State<T>, r: nat)
    requires g.Valid() && Acting(g, s, r, WaitReceives) && s.ranks[r].at.piece in s.ranks[r].ready
    requires !s.ranks[r].ready[s.ranks[r].at.piece].ok
    ensures Consume(g, s, r).queues == s.queues && Consume(g, s, r).ranks == s.ranks[r := s.ranks[r].(status := Transport)]
  {}
}
