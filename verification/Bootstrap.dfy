/** The handshake of a group: every rank connects to its successor and accepts
  its predecessor, exchanges queue pair numbers, brings both queue pairs up and
  passes a barrier with its neighbours. */
module Bootstrap {
  import opened RingArithmetic

  datatype Item = Meta(queuePair: nat) | Ready

  /** `connectsFirst[r]` is the order in which rank `r` sets up its two sockets;
    `toNext` and `toPrev` number the two queue pairs of every rank. */
  datatype Group = Group(size: nat, connectsFirst: seq<bool>, toNext: seq<nat>, toPrev: seq<nat>) {
    predicate Valid() {
      size >= 2 && |connectsFirst| == |toNext| == |toPrev| == size
    }

    /** connect_process_group's choice: even ranks connect first, odd ranks listen first. */
    predicate ByParity()
      requires Valid()
    {
      forall r :: 0 <= r < size ==> connectsFirst[r] == (r % 2 == 0)
    }

    /** Not all ranks begin alike. */
    predicate Mixed()
      requires Valid()
    {
      true in connectsFirst && false in connectsFirst
    }
  }

  /** The program of a rank after its sockets, one call after the other. */
  const WRITE_META_NEXT := 3
  const WRITE_META_PREV := 4
  const READ_META_NEXT := 5
  const READ_META_PREV := 6
  const RAISE_NEXT := 7
  const RAISE_PREV := 8
  const WRITE_READY_NEXT := 9
  const WRITE_READY_PREV := 10
  const READ_READY_NEXT := 11
  const READ_READY_PREV := 12
  const DONE := 13

  /** What a rank does at its first three places. */
  datatype Socket = Connect | Listen | Accept

  function SocketCall(connectsFirst: bool, pc: nat): Socket
    requires pc < 3
  {
    if connectsFirst then (if pc == 0 then Connect else if pc == 1 then Listen else Accept)
    else (if pc == 0 then Listen else if pc == 1 then Accept else Connect)
  }

  /** `remoteNext` and `remotePrev` are what was read, `nextUp` and `prevUp` the
    peer a queue pair was brought up with, if any. */
  datatype Peer = Down | Up(queuePair: nat)

  datatype Rank = Rank(pc: nat, remoteNext: nat, remotePrev: nat, nextUp: Peer, prevUp: Peer, failed: bool)

  /** Link `r` joins rank `r` to its successor: whether the successor listens
    and whether rank `r` has connected, and the bytes under way each way. */
  datatype Link = Link(listening: bool, connected: bool, right: seq<Item>, left: seq<Item>)

  datatype State = State(ranks: seq<Rank>, links: seq<Link>)

  function Initial(g: Group): State
    requires g.Valid()
  {
    State(seq(g.size, _ => Rank(0, 0, 0, Down, Down, false)), seq(g.size, _ => Link(false, false, [], [])))
  }

  // --- steps ----------------------------------------------------------------------------------

  predicate Shaped(g: Group, s: State) {
    g.Valid() && |s.ranks| == |s.links| == g.size
  }

  /** A connect is tried until the peer listens; an accept waits for the
    connection, a read for something to read. */
  predicate CanMove(connectsFirst: bool, pc: nat, next: Link, prev: Link) {
    && pc < DONE
    && if pc < 3 then
         match SocketCall(connectsFirst, pc)
         case Connect => next.listening
         case Listen => true
         case Accept => prev.connected
       else if pc == READ_META_NEXT || pc == READ_READY_NEXT then next.left != []
       else if pc == READ_META_PREV || pc == READ_READY_PREV then prev.right != []
       else true
  }

  predicate Enabled(g: Group, s: State, r: nat) {
    && Shaped(g, s) && r < g.size && !s.ranks[r].failed
    && CanMove(g.connectsFirst[r], s.ranks[r].pc, s.links[r], s.links[Prev(g.size, r)])
  }

  /** What a call does to the rank itself, given what it can read. */
  function Moved(me: Rank, left: seq<Item>, right: seq<Item>): Rank {
    var on := me.(pc := me.pc + 1);
    if me.pc == READ_META_NEXT && left != [] then
      if left[0].Meta? then on.(remoteNext := left[0].queuePair) else on.(failed := true)
    else if me.pc == READ_META_PREV && right != [] then
      if right[0].Meta? then on.(remotePrev := right[0].queuePair) else on.(failed := true)
    else if me.pc == RAISE_NEXT then on.(nextUp := Up(me.remoteNext))
    else if me.pc == RAISE_PREV then on.(prevUp := Up(me.remotePrev))
    else if me.pc == READ_READY_NEXT && left != [] then on.(failed := !left[0].Ready?)
    else if me.pc == READ_READY_PREV && right != [] then on.(failed := !right[0].Ready?)
    else on
  }

  /** ... to its link with the successor ... */
  function OnNext(g: Group, r: nat, pc: nat, link: Link): Link
    requires g.Valid() && r < g.size
  {
    if pc < 3 then if SocketCall(g.connectsFirst[r], pc).Connect? then link.(connected := true) else link
    else if pc == WRITE_META_NEXT then link.(right := link.right + [Meta(g.toNext[r])])
    else if pc == WRITE_READY_NEXT then link.(right := link.right + [Ready])
    else if (pc == READ_META_NEXT || pc == READ_READY_NEXT) && link.left != [] then link.(left := link.left[1..])
    else link
  }

  /** ... and to its link with the predecessor. */
  function OnPrev(g: Group, r: nat, pc: nat, link: Link): Link
    requires g.Valid() && r < g.size
  {
    if pc < 3 then if SocketCall(g.connectsFirst[r], pc).Listen? then link.(listening := true) else link
    else if pc == WRITE_META_PREV then link.(left := link.left + [Meta(g.toPrev[r])])
    else if pc == WRITE_READY_PREV then link.(left := link.left + [Ready])
    else if (pc == READ_META_PREV || pc == READ_READY_PREV) && link.right != [] then link.(right := link.right[1..])
    else link
  }

  function Step(g: Group, s: State, r: nat): State
    requires Enabled(g, s, r)
  {
    var me, q := s.ranks[r], Prev(g.size, r);
    State(s.ranks[r := Moved(me, s.links[r].left, s.links[q].right)],
          s.links[r := OnNext(g, r, me.pc, s.links[r])][q := OnPrev(g, r, me.pc, s.links[q])])
  }

  predicate Executable(g: Group, s: State, schedule: seq<nat>)
    decreases |schedule|
  {
    schedule != [] ==> Enabled(g, s, schedule[0]) && Executable(g, Step(g, s, schedule[0]), schedule[1..])
  }

  function After(g: Group, s: State, schedule: seq<nat>): State
    requires Executable(g, s, schedule)
    decreases |schedule|
  {
    if schedule == [] then s else After(g, Step(g, s, schedule[0]), schedule[1..])
  }

  // --- invariant --------------------------------------------------------------------------------

  function Listened(connectsFirst: bool, pc: nat): bool { if connectsFirst then pc > 1 else pc > 0 }

  function Connected(connectsFirst: bool, pc: nat): bool { if connectsFirst then pc > 0 else pc > 2 }

  function Accepted(connectsFirst: bool, pc: nat): bool { if connectsFirst then pc > 2 else pc > 1 }

  /** Items a rank has written to, and read from, either neighbour. */
  function Past(pc: nat, first: nat, second: nat): nat {
    (if pc > first then 1 else 0) + (if pc > second then 1 else 0)
  }

  /** The link between rank `r` at place `a` and its successor at place `b`. */
  ghost predicate LinkOk(g: Group, r: nat, a: nat, b: nat, link: Link)
    requires g.Valid() && r < g.size
  {
    var n := Next(g.size, r);
    && SocketsOk(g.connectsFirst[r], g.connectsFirst[n], a, b, link)
    && StreamOk([Meta(g.toNext[r]), Ready], Past(b, READ_META_PREV, READ_READY_PREV),
                Past(a, WRITE_META_NEXT, WRITE_READY_NEXT), link.right)
    && StreamOk([Meta(g.toPrev[n]), Ready], Past(a, READ_META_NEXT, READ_READY_NEXT),
                Past(b, WRITE_META_PREV, WRITE_READY_PREV), link.left)
  }

  ghost predicate SocketsOk(mine: bool, nexts: bool, a: nat, b: nat, link: Link) {
    && link.listening == Listened(nexts, b) && link.connected == Connected(mine, a)
    && (Connected(mine, a) ==> Listened(nexts, b)) && (Accepted(nexts, b) ==> Connected(mine, a))
  }

  /** Of what is sent over a stream `read` items have been taken and `written`
    have been put in. */
  ghost predicate StreamOk(items: seq<Item>, read: nat, written: nat, stream: seq<Item>) {
    read <= written <= |items| && stream == items[read..written]
  }

  ghost predicate RankOk(g: Group, r: nat, me: Rank)
    requires g.Valid() && r < g.size
  {
    && me.pc <= DONE && !me.failed
    && (me.pc > READ_META_NEXT ==> me.remoteNext == g.toPrev[Next(g.size, r)])
    && (me.pc > READ_META_PREV ==> me.remotePrev == g.toNext[Prev(g.size, r)])
    && (me.pc > RAISE_NEXT ==> me.nextUp == Up(g.toPrev[Next(g.size, r)]))
    && (me.pc > RAISE_PREV ==> me.prevUp == Up(g.toNext[Prev(g.size, r)]))
  }

  ghost predicate Inv(g: Group, s: State) {
    && Shaped(g, s)
    && (forall r :: 0 <= r < g.size ==> RankOk(g, r, s.ranks[r]))
    && (forall r :: 0 <= r < g.size ==> LinkOk(g, r, s.ranks[r].pc, s.ranks[Next(g.size, r)].pc, s.links[r]))
  }

  lemma InitialInv(g: Group)
    requires g.Valid()
    ensures Inv(g, Initial(g))
  {}

  /** A rank's step, seen by its link to the successor ... */
  lemma NextLinkKept(g: Group, r: nat, a: nat, b: nat, link: Link, prev: Link)
    requires g.Valid() && r < g.size && LinkOk(g, r, a, b, link) && CanMove(g.connectsFirst[r], a, link, prev)
    ensures LinkOk(g, r, a + 1, b, OnNext(g, r, a, link))
  {}

  /** ... and by the one from its predecessor `q`. */
  lemma PrevLinkKept(g: Group, q: nat, a: nat, b: nat, next: Link, link: Link)
    requires g.Valid() && q < g.size && LinkOk(g, q, a, b, link)
    requires CanMove(g.connectsFirst[Next(g.size, q)], b, next, link)
    ensures LinkOk(g, q, a, b + 1, OnPrev(g, Next(g.size, q), b, link))
  {}

  /** It reads what was written for it and raises its queue pairs accordingly. */
  lemma MovedOk(g: Group, r: nat, me: Rank, b: nat, next: Link, q: nat, a: nat, prev: Link)
    requires g.Valid() && r < g.size && q == Prev(g.size, r) && Next(g.size, q) == r && RankOk(g, r, me)
    requires LinkOk(g, r, me.pc, b, next) && LinkOk(g, q, a, me.pc, prev)
    requires CanMove(g.connectsFirst[r], me.pc, next, prev)
    ensures RankOk(g, r, Moved(me, next.left, prev.right)) && Moved(me, next.left, prev.right).pc == me.pc + 1
  {}

  lemma InvAt(g: Group, s: State, r: nat)
    requires Inv(g, s) && r < g.size
    ensures var n, q := Next(g.size, r), Prev(g.size, r);
            && n != r && q != r && Next(g.size, q) == r && RankOk(g, r, s.ranks[r])
            && LinkOk(g, r, s.ranks[r].pc, s.ranks[n].pc, s.links[r]) && LinkOk(g, q, s.ranks[q].pc, s.ranks[r].pc, s.links[q])
  {
    hide LinkOk, RankOk;
    RotationsAgree(g.size, r, 0);
    assert LinkOk(g, Prev(g.size, r), s.ranks[Prev(g.size, r)].pc, s.ranks[Next(g.size, Prev(g.size, r))].pc,
                  s.links[Prev(g.size, r)]);
  }

  lemma Assemble(g: Group, s: State, r: nat, me: Rank, next: Link, prev: Link)
    requires Inv(g, s) && r < g.size && RankOk(g, r, me)
    requires LinkOk(g, r, me.pc, s.ranks[Next(g.size, r)].pc, next)
    requires LinkOk(g, Prev(g.size, r), s.ranks[Prev(g.size, r)].pc, me.pc, prev)
    ensures Inv(g, State(s.ranks[r := me], s.links[r := next][Prev(g.size, r) := prev]))
  {
    hide LinkOk, RankOk;
    var n, q, s' := Next(g.size, r), Prev(g.size, r), State(s.ranks[r := me], s.links[r := next][Prev(g.size, r) := prev]);
    InvAt(g, s, r);
    forall x | 0 <= x < g.size
      ensures LinkOk(g, x, s'.ranks[x].pc, s'.ranks[Next(g.size, x)].pc, s'.links[x])
    {
      if Next(g.size, x) == r { assert x == q; }
    }
  }

  lemma StepInv(g: Group, s: State, r: nat)
    requires Inv(g, s) && Enabled(g, s, r)
    ensures Inv(g, Step(g, s, r))
  {
    hide Inv, CanMove, Moved, OnNext, OnPrev, LinkOk, RankOk;
    InvAt(g, s, r);
    var n, q, me := Next(g.size, r), Prev(g.size, r), s.ranks[r];
    MovedOk(g, r, me, s.ranks[n].pc, s.links[r], q, s.ranks[q].pc, s.links[q]);
    NextLinkKept(g, r, me.pc, s.ranks[n].pc, s.links[r], s.links[q]);
    PrevLinkKept(g, q, s.ranks[q].pc, me.pc, s.links[r], s.links[q]);
    Assemble(g, s, r, Moved(me, s.links[r].left, s.links[q].right), OnNext(g, r, me.pc, s.links[r]),
             OnPrev(g, r, me.pc, s.links[q]));
  }

  lemma {:induction false} RunInv(g: Group, s: State, schedule: seq<nat>)
    requires Inv(g, s) && Executable(g, s, schedule)
    ensures Inv(g, After(g, s, schedule))
    decreases |schedule|
  {
    hide Inv, Step, Enabled;
    if schedule != [] {
      StepInv(g, s, schedule[0]);
      RunInv(g, Step(g, s, schedule[0]), schedule[1..]);
    }
  }

  // --- safety -------------------------------------------------------------------------------------

  /** A rank that has passed the barrier knows that both neighbours have
    brought up both of their queue pairs, each with the right peer, and no rank
    ever reads anything but what it expects. */
  lemma BarrierSafe(g: Group, schedule: seq<nat>, r: nat)
    requires g.Valid() && Executable(g, Initial(g), schedule) && r < g.size
    ensures var s := After(g, Initial(g), schedule);
            var n, q := Next(g.size, r), Prev(g.size, r);
            && |s.ranks| == g.size && !s.ranks[r].failed
            && (s.ranks[r].pc == DONE ==>
                  && s.ranks[r].nextUp == Up(g.toPrev[n]) && s.ranks[r].prevUp == Up(g.toNext[q])
                  && s.ranks[n].nextUp == Up(g.toPrev[Next(g.size, n)]) && s.ranks[n].prevUp == Up(g.toNext[r])
                  && s.ranks[q].nextUp == Up(g.toPrev[r]) && s.ranks[q].prevUp == Up(g.toNext[Prev(g.size, q)]))
  {
    InitialInv(g);
    RunInv(g, Initial(g), schedule);
    var s, n, q := After(g, Initial(g), schedule), Next(g.size, r), Prev(g.size, r);
    hide Executable, After;
    RotationsAgree(g.size, r, 0);
    assert RankOk(g, r, s.ranks[r]) && RankOk(g, n, s.ranks[n]) && RankOk(g, q, s.ranks[q]);
    assert LinkOk(g, r, s.ranks[r].pc, s.ranks[n].pc, s.links[r]);
    assert LinkOk(g, q, s.ranks[q].pc, s.ranks[Next(g.size, q)].pc, s.links[q]);
    hide Inv;
  }

  // --- progress -----------------------------------------------------------------------------------

  lemma {:induction false} LowestOf(ranks: seq<Rank>) returns (r: nat)
    requires ranks != []
    ensures r < |ranks| && forall x :: 0 <= x < |ranks| ==> ranks[r].pc <= ranks[x].pc
  {
    var n := |ranks| - 1;
    if n == 0 {
      r := 0;
    } else {
      var low := LowestOf(ranks[..n]);
      r := if ranks[low].pc <= ranks[n].pc then low else n;
      assert forall x :: 0 <= x < n ==> ranks[..n][x] == ranks[x];
    }
  }

  /** Once its sockets are set up, the rank that is least far on can move: it
    only reads what the others have written by then. */
  lemma LowestMoves(g: Group, s: State, r: nat)
    requires Inv(g, s) && r < g.size && 3 <= s.ranks[r].pc < DONE
    requires forall x :: 0 <= x < g.size ==> s.ranks[r].pc <= s.ranks[x].pc
    ensures Enabled(g, s, r)
  {
    InvAt(g, s, r);
    hide Inv;
  }

  /** A rank that waits to connect waits for its successor to listen ... */
  lemma ConnectWaits(g: Group, s: State, r: nat)
    requires Inv(g, s) && r < g.size && g.connectsFirst[r] && s.ranks[r].pc == 0 && !Enabled(g, s, r)
    ensures var n := Next(g.size, r); Enabled(g, s, n) || (g.connectsFirst[n] && s.ranks[n].pc == 0)
  {
    InvAt(g, s, r);
    InvAt(g, s, Next(g.size, r));
    hide Inv;
  }

  /** ... which goes on round the ring until a rank that listens first. */
  lemma {:induction false} ForwardToListener(g: Group, s: State, r: nat, l: nat) returns (e: nat)
    requires Inv(g, s) && r < g.size && l < g.size && !g.connectsFirst[l]
    requires g.connectsFirst[r] && s.ranks[r].pc == 0
    ensures e < g.size && Enabled(g, s, e)
    decreases Hops(g.size, r, l)
  {
    hide Inv, Enabled;
    if Enabled(g, s, r) {
      e := r;
    } else {
      ConnectWaits(g, s, r);
      var n := Next(g.size, r);
      if Enabled(g, s, n) {
        e := n;
      } else {
        e := ForwardToListener(g, s, n, l);
      }
    }
  }

  /** A rank that waits to be connected to waits for its predecessor ... */
  lemma AcceptWaits(g: Group, s: State, r: nat)
    requires Inv(g, s) && r < g.size && !g.connectsFirst[r] && s.ranks[r].pc == 1 && !Enabled(g, s, r)
    ensures var q := Prev(g.size, r); Enabled(g, s, q) || (!g.connectsFirst[q] && s.ranks[q].pc == 1)
  {
    InvAt(g, s, r);
    InvAt(g, s, Prev(g.size, r));
    hide Inv;
  }

  lemma {:induction false} BackToConnecter(g: Group, s: State, r: nat, c: nat) returns (e: nat)
    requires Inv(g, s) && r < g.size && c < g.size && g.connectsFirst[c]
    requires !g.connectsFirst[r] && s.ranks[r].pc == 1
    ensures e < g.size && Enabled(g, s, e)
    decreases Hops(g.size, c, r)
  {
    hide Inv, Enabled;
    if Enabled(g, s, r) {
      e := r;
    } else {
      AcceptWaits(g, s, r);
      var q := Prev(g.size, r);
      if Enabled(g, s, q) {
        e := q;
      } else {
        e := BackToConnecter(g, s, q, c);
      }
    }
  }

  /** The other two places where a rank can wait for a socket. */
  lemma LaterSocket(g: Group, s: State, r: nat)
    requires Inv(g, s) && r < g.size && s.ranks[r].pc < 3 && !Enabled(g, s, r)
    requires forall x :: 0 <= x < g.size ==> s.ranks[r].pc <= s.ranks[x].pc
    ensures if g.connectsFirst[r] then s.ranks[r].pc == 0 || Enabled(g, s, Prev(g.size, r))
            else s.ranks[r].pc == 1 || Enabled(g, s, Next(g.size, r))
  {
    InvAt(g, s, r);
    InvAt(g, s, Next(g.size, r));
    InvAt(g, s, Prev(g.size, r));
    hide Inv;
  }

  lemma FindEnabled(g: Group, s: State) returns (e: nat)
    requires Inv(g, s) && g.Mixed() && exists r :: 0 <= r < g.size && s.ranks[r].pc < DONE
    ensures e < g.size && Enabled(g, s, e)
  {
    var r := LowestOf(s.ranks);
    var l :| 0 <= l < g.size && !g.connectsFirst[l];
    var c :| 0 <= c < g.size && g.connectsFirst[c];
    hide Enabled;
    if s.ranks[r].pc >= 3 {
      LowestMoves(g, s, r);
      e := r;
    } else if Enabled(g, s, r) {
      e := r;
    } else {
      LaterSocket(g, s, r);
      if g.connectsFirst[r] {
        if s.ranks[r].pc == 0 { e := ForwardToListener(g, s, r, l); } else { e := Prev(g.size, r); }
      } else {
        if s.ranks[r].pc == 1 { e := BackToConnecter(g, s, r, c); } else { e := Next(g.size, r); }
      }
    }
  }

  // --- termination ---------------------------------------------------------------------------------

  function Left(ranks: seq<Rank>): int {
    if ranks == [] then 0 else Left(ranks[..|ranks| - 1]) + DONE - ranks[|ranks| - 1].pc
  }

  lemma {:induction false} LeftUpdated(ranks: seq<Rank>, r: nat, me: Rank)
    requires r < |ranks|
    ensures Left(ranks[r := me]) == Left(ranks) + ranks[r].pc - me.pc
  {
    var n := |ranks| - 1;
    if r < n {
      LeftUpdated(ranks[..n], r, me);
      assert ranks[r := me][..n] == ranks[..n][r := me];
    } else {
      assert ranks[r := me][..n] == ranks[..n];
    }
  }

  lemma {:induction false} LeftNotNegative(ranks: seq<Rank>)
    requires forall r :: 0 <= r < |ranks| ==> ranks[r].pc <= DONE
    ensures Left(ranks) >= 0
  {
    if ranks != [] { LeftNotNegative(ranks[..|ranks| - 1]); }
  }

  lemma StepLeft(g: Group, s: State, r: nat)
    requires Inv(g, s) && Enabled(g, s, r)
    ensures Left(Step(g, s, r).ranks) == Left(s.ranks) - 1 && Left(s.ranks) >= 1
  {
    hide Inv, Step, Enabled, Left;
    StepInv(g, s, r);
    StepMoves(g, s, r);
    PlacesWithin(g, Step(g, s, r));
    LeftUpdated(s.ranks, r, Step(g, s, r).ranks[r]);
    LeftNotNegative(Step(g, s, r).ranks);
  }

  /** A call that does not block moves its rank one place on. */
  lemma StepMoves(g: Group, s: State, r: nat)
    requires Enabled(g, s, r)
    ensures r < |s.ranks| == |Step(g, s, r).ranks| && Step(g, s, r).ranks == s.ranks[r := Step(g, s, r).ranks[r]]
    ensures Step(g, s, r).ranks[r].pc == s.ranks[r].pc + 1
  {
    hide OnNext, OnPrev, CanMove;
  }

  lemma PlacesWithin(g: Group, s: State)
    requires Inv(g, s)
    ensures forall r :: 0 <= r < |s.ranks| ==> s.ranks[r].pc <= DONE
  {
    hide LinkOk;
  }

  /** Every run is as long as what it gets done: thirteen calls a rank. */
  lemma {:induction false} RunCounted(g: Group, s: State, schedule: seq<nat>)
    requires Inv(g, s) && Executable(g, s, schedule)
    ensures Left(s.ranks) == |schedule| + Left(After(g, s, schedule).ranks)
    decreases |schedule|
  {
    hide Inv, Step, Enabled, Left;
    if schedule != [] {
      StepInv(g, s, schedule[0]);
      StepLeft(g, s, schedule[0]);
      RunCounted(g, Step(g, s, schedule[0]), schedule[1..]);
    }
  }

  predicate AllDone(g: Group, s: State) {
    |s.ranks| == g.size && forall r :: 0 <= r < g.size ==> s.ranks[r].pc >= DONE
  }

  /** From every reachable state of a mixed group the handshake can be finished. */
  lemma {:induction false} Finish(g: Group, s: State) returns (schedule: seq<nat>)
    requires Inv(g, s) && g.Mixed()
    ensures Executable(g, s, schedule) && AllDone(g, After(g, s, schedule))
    decreases Left(s.ranks)
  {
    Sizes(g, s);
    hide Inv, Step, Enabled, Left;
    if r: nat :| r < g.size && s.ranks[r].pc < DONE {
      var e := FindEnabled(g, s);
      StepInv(g, s, e);
      StepLeft(g, s, e);
      var rest := Finish(g, Step(g, s, e));
      schedule := [e] + rest;
      assert schedule[1..] == rest;
    } else {
      schedule := [];
    }
  }

  lemma Sizes(g: Group, s: State)
    requires Inv(g, s)
    ensures |s.ranks| == g.size
  {}

  // --- the order matters ------------------------------------------------------------------------------

  /** If all ranks begin alike nobody gets beyond its first wait. */
  ghost predicate Stuck(g: Group, s: State) {
    && Shaped(g, s) && !g.Mixed()
    && forall r :: 0 <= r < g.size ==> s.ranks[r].pc <= (if g.connectsFirst[0] then 0 else 1)
                                       && !s.links[r].connected && (g.connectsFirst[0] ==> !s.links[r].listening)
  }

  lemma AllAlike(g: Group, r: nat)
    requires g.Valid() && !g.Mixed() && r < g.size
    ensures g.connectsFirst[r] == g.connectsFirst[0]
  {
    assert g.connectsFirst[r] in g.connectsFirst && g.connectsFirst[0] in g.connectsFirst;
  }

  lemma StuckStays(g: Group, s: State, r: nat)
    requires Stuck(g, s) && Enabled(g, s, r)
    ensures Stuck(g, Step(g, s, r))
  {
    AllAlike(g, r);
    hide Group.Mixed;
  }

  lemma {:induction false} StuckForever(g: Group, s: State, schedule: seq<nat>)
    requires Stuck(g, s) && Executable(g, s, schedule)
    ensures Stuck(g, After(g, s, schedule))
    decreases |schedule|
  {
    hide Stuck, Step, Enabled;
    if schedule != [] {
      StuckStays(g, s, schedule[0]);
      StuckForever(g, Step(g, s, schedule[0]), schedule[1..]);
    }
  }

  lemma NotDone(g: Group, s: State)
    requires Stuck(g, s)
    ensures !AllDone(g, s)
  {
    var me := s.ranks[0];
  }

  /** The handshake can be finished exactly when not all ranks begin alike. */
  lemma FinishesExactlyWhenMixed(g: Group)
    requires g.Valid()
    ensures (exists schedule: seq<nat> ::
               Executable(g, Initial(g), schedule) && AllDone(g, After(g, Initial(g), schedule)))
       <==> g.Mixed()
  {
    hide Executable, After, Inv, Group.Mixed;
    if g.Mixed() {
      InitialInv(g);
      var schedule := Finish(g, Initial(g));
    } else if schedule: seq<nat> :|
      Executable(g, Initial(g), schedule) && AllDone(g, After(g, Initial(g), schedule)) {
      StuckForever(g, Initial(g), schedule);
      NotDone(g, After(g, Initial(g), schedule));
    }
  }

  /** Even ranks connecting first and odd ranks listening first is mixed for
    every size, odd sizes included: every reachable unfinished state has a rank
    that can move, and no run is longer than thirteen calls a rank. */
  lemma ParityProgress(g: Group, schedule: seq<nat>)
    requires g.Valid() && g.ByParity() && Executable(g, Initial(g), schedule)
    ensures g.connectsFirst[0] && !g.connectsFirst[1] && g.Mixed() && |schedule| <= 13 * g.size
    ensures var s := After(g, Initial(g), schedule); AllDone(g, s) || exists e :: 0 <= e < g.size && Enabled(g, s, e)
  {
    hide Executable, After, Enabled, Left, Group.Mixed, Inv, AllDone;
    ParityIsMixed(g);
    InitialInv(g);
    RunInv(g, Initial(g), schedule);
    RunCounted(g, Initial(g), schedule);
    LeftAtStart(Initial(g).ranks);
    Unfinished(g, After(g, Initial(g), schedule));
    if !AllDone(g, After(g, Initial(g), schedule)) {
      var e := FindEnabled(g, After(g, Initial(g), schedule));
    }
  }

  lemma ParityIsMixed(g: Group)
    requires g.Valid() && g.ByParity()
    ensures g.Mixed()
  {
    assert g.connectsFirst[0] && !g.connectsFirst[1];
    assert true in g.connectsFirst && false in g.connectsFirst;
  }

  lemma Unfinished(g: Group, s: State)
    requires Inv(g, s)
    ensures Left(s.ranks) >= 0 && (AllDone(g, s) || exists r :: 0 <= r < g.size && s.ranks[r].pc < DONE)
  {
    assert forall r :: 0 <= r < g.size ==> RankOk(g, r, s.ranks[r]);
    LeftNotNegative(s.ranks);
  }

  lemma {:induction false} LeftAtStart(ranks: seq<Rank>)
    requires forall r :: 0 <= r < |ranks| ==> ranks[r].pc == 0
    ensures Left(ranks) == 13 * |ranks|
  {
    if ranks != [] { LeftAtStart(ranks[..|ranks| - 1]); }
  }
}
