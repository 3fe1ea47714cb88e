/** The main results about the copying ring. */
module CopyingTheorems {
  import opened RingArithmetic
  import opened BlockLayout
  import opened Tags
  import opened Schedule
  import opened Group
  import opened Buffers
  import opened CopyingRing
  import opened CopyingInvariant

  // --- the invariant is inductive -------------------------------------------

  lemma PostReceiveInv<T>(g: Ring<T>, s: State<T>, r: nat)
    requires g.Valid() && g.TagsFit() && Inv(g, s) && Acting(g, s, r, PostReceives)
    ensures Inv(g, PostReceive(g, s, r))
  {
    g.TagInRange(r, Due(g, s, r));
    AdvanceInv(g, s, r);
    var me, loc, p, posted := s.ranks[r], Me(g, s, r), s.ranks[r].at.piece, AdvanceRank(g, s, r);
    if Deliverable(g, posted, r, p) {
      StepKept(loc, me.at);
      loc.ActingAdvance(me.at, me.at.step);
      loc.OutstandingBound(me.at, me.at.step);
      assert RankOk(g, r, me);
      DeliverInv(g, posted, r, p);
    }
  }

  /** A wait whose message is still queued takes it first. */
  lemma TakenForWait<T>(g: Ring<T>, s: State<T>, r: nat)
    requires g.Valid() && g.TagsFit() && Inv(g, s) && Acting(g, s, r, WaitReceives) && Enabled(g, s, r)
    requires s.ranks[r].at.piece !in s.ranks[r].ready
    ensures Deliverable(g, s, r, s.ranks[r].at.piece)
    ensures var p, s' := s.ranks[r].at.piece, Deliver(g, s, r, s.ranks[r].at.piece);
            && Inv(g, s') && Acting(g, s', r, WaitReceives) && s' == s'.(ranks := s.ranks[r := s'.ranks[r]])
            && s'.ranks[r].call == s.ranks[r].call && s'.ranks[r].at == s.ranks[r].at && p in s'.ranks[r].ready
  {
    var p, loc := s.ranks[r].at.piece, Me(g, s, r);
    assert Deliverable(g, s, r, p);
    loc.ActingAdvance(s.ranks[r].at, s.ranks[r].at.step);
    assert g.Requested(r, s.ranks[r].call, s.ranks[r].at, Due(g, s, r)) && !Got(g, r, s.ranks[r], Due(g, s, r));
    hide Inv, Carries, Deliver, Deliverable, Got, Ring.Requested, Ring.IdOk, Ring.TagOf, FirstMatch, Local.RecvFirst,
         Local.Advance, Overwrite;
    DeliverInv(g, s, r, p);
    Delivered(g, s, r, p);
  }

  lemma WaitReceiveInv<T>(g: Ring<T>, s: State<T>, r: nat)
    requires g.Valid() && g.TagsFit() && Inv(g, s) && Acting(g, s, r, WaitReceives) && Enabled(g, s, r)
    ensures Inv(g, Step(g, s, r))
  {
    hide Inv, Deliver, Consume, Deliverable, Local.Advance;
    var p := s.ranks[r].at.piece;
    if p in s.ranks[r].ready {
      ConsumeInv(g, s, r);
    } else {
      TakenForWait(g, s, r);
      ConsumeInv(g, Deliver(g, s, r, p), r);
    }
  }

  lemma StepInv<T>(g: Ring<T>, s: State<T>, r: nat)
    requires g.Valid() && g.TagsFit() && Inv(g, s) && Enabled(g, s, r)
    ensures Inv(g, Step(g, s, r))
  {
    var at := s.ranks[r].at;
    if Me(g, s, r).Finished(at) {
      ReturnInv(g, s, r);
    } else if Acting(g, s, r, PostReceives) {
      PostReceiveInv(g, s, r);
    } else if Acting(g, s, r, PostSends) {
      PostedAdvance(g, s, r);
      g.TagInRange(Next(g.size, r), Due(g, s, r));
      PostSendInv(g, s, r);
    } else if Acting(g, s, r, WaitReceives) {
      WaitReceiveInv(g, s, r);
    } else {
      AdvanceInv(g, s, r);
    }
  }

  /** Every state of every interleaving satisfies the invariant; in particular
    no rank ever fails. */
  lemma {:induction false} RunInv<T>(g: Ring<T>, s: State<T>, schedule: seq<nat>)
    requires g.Valid() && g.TagsFit() && Inv(g, s) && Executable(g, s, schedule)
    ensures Inv(g, After(g, s, schedule))
    decreases |schedule|
  {
    if schedule != [] {
      StepInv(g, s, schedule[0]);
      RunInv(g, Step(g, s, schedule[0]), schedule[1..]);
    }
  }

  /** All-reduce over the copying transport, for every interleaving, every
    element type and every binary operation: no rank fails, and every rank
    that has returned from a call holds the ring fold of all inputs. */
  lemma AllReduceCorrect<T>(g: Ring<T>, schedule: seq<nat>)
    requires g.Valid() && g.TagsFit() && Executable(g, Initial(g), schedule)
    ensures var s := After(g, Initial(g), schedule);
            && |s.ranks| == g.size
            && forall r :: 0 <= r < g.size ==>
                 && s.ranks[r].status == Success && |s.ranks[r].out| == s.ranks[r].call
                 && ResultsOk(g, s.ranks[r].out)
  {
    InitialInv(g);
    RunInv(g, Initial(g), schedule);
  }

  /** Every rank's buffer in the middle of a call, in every reachable state. */
  lemma ReachableBuffers<T>(g: Ring<T>, schedule: seq<nat>, r: nat)
    requires g.Valid() && g.TagsFit() && Executable(g, Initial(g), schedule) && r < g.size
    ensures var s := After(g, Initial(g), schedule);
            && r < |s.ranks|
            && var me := s.ranks[r];
               me.call < |g.calls| ==>
                 && g.LocalOf(r, me.call).CursorOk(me.at) && |me.work| == g.calls[me.call].count
                 && (me.at.step < g.LocalOf(r, me.call).Steps() ==>
                       forall i :: 0 <= i < |me.work| ==>
                         g.Lent(r, me.call, me.at, i) || g.MidCall(r, me.call, me.at, i, me.work[i]))
  {
    InitialInv(g);
    RunInv(g, Initial(g), schedule);
    var s := After(g, Initial(g), schedule);
    BufferMidCall(g, s, r);
    hide Executable, After, Initial, Inv, Ring.Lent, Ring.MidCall, Local.CursorOk;
  }

  lemma BufferMidCall<T>(g: Ring<T>, s: State<T>, r: nat)
    requires g.Valid() && Inv(g, s) && r < g.size
    ensures |s.ranks| == g.size
    ensures var me := s.ranks[r];
            me.call < |g.calls| ==>
              && g.LocalOf(r, me.call).CursorOk(me.at) && |me.work| == g.calls[me.call].count
              && (me.at.step < g.LocalOf(r, me.call).Steps() ==>
                    forall i :: 0 <= i < |me.work| ==>
                      g.Lent(r, me.call, me.at, i) || g.MidCall(r, me.call, me.at, i, me.work[i]))
  {
    var me := s.ranks[r];
    assert RankOk(g, r, me);
    hide Inv, LinkOk, ReadyOk, ResultsOk, Ring.Expected, Ring.Lent, Ring.MidCall;
    if me.call < |g.calls| && me.at.step < g.LocalOf(r, me.call).Steps() {
      forall i | 0 <= i < |me.work|
        ensures g.Lent(r, me.call, me.at, i) || g.MidCall(r, me.call, me.at, i, me.work[i])
      {
        g.ExpectedMidCall(r, me.call, me.at, i);
      }
    }
  }

  // --- tags -------------------------------------------------------------------

  /** On every link at most two calls are in flight, the receiver's and the
    next one, and no two queued messages share a tag. */
  lemma QueuedTags<T>(g: Ring<T>, s: State<T>, q: nat)
    requires g.Valid() && g.TagsFit() && Inv(g, s) && q < g.size
    ensures var r := Next(g.size, q);
            && (forall j :: 0 <= j < |s.queues[r]| ==>
                  s.ranks[r].call <= s.queues[r][j].id.call <= s.ranks[r].call + 1)
            && (forall j, k :: 0 <= j < k < |s.queues[r]| ==> s.queues[r][j].tag != s.queues[r][k].tag)
  {
    var r := Next(g.size, q);
    var queue := s.queues[r];
    CallSkew(g, s, q, r);
    assert LinkOk(g, q, s.ranks[q], s.ranks[r], queue);
    hide Inv;
    forall j | 0 <= j < |queue|
      ensures s.ranks[r].call <= queue[j].id.call <= s.ranks[r].call + 1
    {
      assert MessageOk(g, r, queue[j]) && g.Posted(q, s.ranks[q].call, s.ranks[q].at, queue[j].id);
    }
    forall j, k | 0 <= j < k < |queue|
      ensures queue[j].tag != queue[k].tag
    {
      assert MessageOk(g, r, queue[j]) && MessageOk(g, r, queue[k]);
      if queue[j].tag == queue[k].tag {
        if queue[j].id.call <= queue[k].id.call {
          g.TagDistinguishes(r, queue[j].id, queue[k].id);
        } else {
          g.TagDistinguishes(r, queue[k].id, queue[j].id);
        }
      }
    }
  }

  // --- progress ---------------------------------------------------------------

  /** A message that has been posted and not taken can be delivered. */
  lemma PostedIsDeliverable<T>(g: Ring<T>, s: State<T>, q: nat, p: nat)
    requires g.Valid() && g.TagsFit() && Inv(g, s) && q < g.size && Running(g, s, Next(g.size, q))
    requires var r := Next(g.size, q);
             var id := Id(s.ranks[r].call, s.ranks[r].at.step, p);
             g.IdOk(r, id) && g.Posted(q, s.ranks[q].call, s.ranks[q].at, id) && !Got(g, r, s.ranks[r], id)
    ensures Deliverable(g, s, Next(g.size, q), p)
  {
    var r := Next(g.size, q);
    var id := Id(s.ranks[r].call, s.ranks[r].at.step, p);
    g.TagInRange(r, id);
    var j :| 0 <= j < |s.queues[r]| && s.queues[r][j].id == id;
    assert MessageOk(g, r, s.queues[r][j]);
  }

  /** A rank that waits for a message waits for a rank that is further behind. */
  lemma BlockedBehind<T>(g: Ring<T>, s: State<T>, q: nat)
    requires g.Valid() && g.TagsFit() && Inv(g, s) && q < g.size
    requires Acting(g, s, Next(g.size, q), WaitReceives) && !Enabled(g, s, Next(g.size, q))
    ensures s.ranks[q].call < |g.calls|
    ensures !Enabled(g, s, q) ==>
              var a, b := s.ranks[q], s.ranks[Next(g.size, q)];
              a.call < b.call || (a.call == b.call && (a.at.step < b.at.step
                                                       || (a.at.step == b.at.step && a.at.piece < b.at.piece)))
  {
    var r := Next(g.size, q);
    var a, b := s.ranks[q], s.ranks[r];
    Me(g, s, r).ActingAdvance(b.at, b.at.step);
    g.SameLink(q, b.call, b.at.step);
    assert RankOk(g, r, b) && RankOk(g, q, a);
    if g.Posted(q, a.call, a.at, Due(g, s, r)) {
      PostedIsDeliverable(g, s, q, b.at.piece);
    }
  }

  lemma {:induction false} FindEnabled<T>(g: Ring<T>, s: State<T>, r: nat) returns (e: nat)
    requires g.Valid() && g.TagsFit() && Inv(g, s) && r < g.size && s.ranks[r].call < |g.calls|
    ensures e < g.size && Enabled(g, s, e)
    decreases s.ranks[r].call, s.ranks[r].at.step, s.ranks[r].at.piece
  {
    assert RankOk(g, r, s.ranks[r]);
    if Enabled(g, s, r) {
      e := r;
    } else {
      var q := Prev(g.size, r);
      RotationsAgree(g.size, r, 0);
      BlockedBehind(g, s, q);
      if Enabled(g, s, q) {
        e := q;
      } else {
        e := FindEnabled(g, s, q);
      }
    }
  }

  /** Deadlock freedom: while some rank has a call left, some rank can move. */
  lemma NoDeadlock<T>(g: Ring<T>, s: State<T>)
    requires g.Valid() && g.TagsFit() && Inv(g, s)
    requires exists r :: 0 <= r < g.size && s.ranks[r].call < |g.calls|
    ensures exists e :: 0 <= e < g.size && Enabled(g, s, e)
  {
    var r :| 0 <= r < g.size && s.ranks[r].call < |g.calls|;
    var e := FindEnabled(g, s, r);
  }

  // --- termination ------------------------------------------------------------

  ghost function CallsLeft<T>(g: Ring<T>, r: nat, c: nat): nat
    requires g.Valid() && r < g.size
    decreases |g.calls| - c
  {
    if c >= |g.calls| then 0 else 1 + g.LocalOf(r, c).Remaining(START) + CallsLeft(g, r, c + 1)
  }

  /** Moves a rank has left to make. */
  ghost function RankWork<T>(g: Ring<T>, r: nat, call: nat, at: Cursor): nat
    requires g.Valid() && r < g.size && (call < |g.calls| ==> g.LocalOf(r, call).CursorOk(at))
  {
    if call >= |g.calls| then 0 else 1 + g.LocalOf(r, call).Remaining(at) + CallsLeft(g, r, call + 1)
  }

  /** Moves left in the whole group; a cursor out of place counts for nothing. */
  ghost function Work<T>(g: Ring<T>, ranks: seq<Rank<T>>): nat
    requires g.Valid() && |ranks| <= g.size
  {
    if ranks == [] then 0
    else
      var r := |ranks| - 1;
      Work(g, ranks[..r]) + MovesLeft(g, r, ranks[r])
  }

  ghost function MovesLeft<T>(g: Ring<T>, r: nat, me: Rank<T>): nat
    requires g.Valid() && r < g.size
  {
    if me.call < |g.calls| && !g.LocalOf(r, me.call).CursorOk(me.at) then 0 else RankWork(g, r, me.call, me.at)
  }

  /** The rank that moves has one move less to make. */
  lemma StepWork<T>(g: Ring<T>, s: State<T>, r: nat)
    requires g.Valid() && g.TagsFit() && Inv(g, s) && Enabled(g, s, r)
    ensures var before, after := s.ranks[r], Step(g, s, r).ranks[r];
            MovesLeft(g, r, before) == 1 + MovesLeft(g, r, after) && Step(g, s, r).ranks == s.ranks[r := after]
  {
    var me, loc := s.ranks[r], Me(g, s, r);
    assert RankOk(g, r, me);
    if !loc.Finished(me.at) {
      MovesOn(g, s, r);
      assert loc.Remaining(me.at) == 1 + loc.Remaining(loc.Advance(me.at));
      hide Step, Inv, RankOk;
    }
  }

  lemma MovesOn<T>(g: Ring<T>, s: State<T>, r: nat)
    requires g.Valid() && g.TagsFit() && Inv(g, s) && Enabled(g, s, r)
    requires !Me(g, s, r).Finished(s.ranks[r].at)
    ensures Step(g, s, r).ranks[r].call == s.ranks[r].call
    ensures Step(g, s, r).ranks[r].at == Me(g, s, r).Advance(s.ranks[r].at)
    ensures Step(g, s, r).ranks == s.ranks[r := Step(g, s, r).ranks[r]]
  {
    if Acting(g, s, r, PostReceives) {
      g.TagInRange(r, Due(g, s, r));
    } else if Acting(g, s, r, PostSends) {
      PostedAdvance(g, s, r);
      g.TagInRange(Next(g.size, r), Due(g, s, r));
    } else if Acting(g, s, r, WaitReceives) {
      WaitMovesOn(g, s, r);
    }
  }

  lemma WaitMovesOn<T>(g: Ring<T>, s: State<T>, r: nat)
    requires g.Valid() && g.TagsFit() && Inv(g, s) && Enabled(g, s, r) && Acting(g, s, r, WaitReceives)
    ensures Step(g, s, r).ranks[r].call == s.ranks[r].call
    ensures Step(g, s, r).ranks[r].at == Me(g, s, r).Advance(s.ranks[r].at)
    ensures Step(g, s, r).ranks == s.ranks[r := Step(g, s, r).ranks[r]]
  {
    hide Inv, Deliver, Deliverable, Carries, Local.Advance, Local.RecvFirst, Combine;
    var p := s.ranks[r].at.piece;
    if p in s.ranks[r].ready {
      Consumed(g, s, r);
    } else {
      TakenForWait(g, s, r);
      Consumed(g, Deliver(g, s, r, p), r);
    }
  }

  lemma {:induction false} WorkUpdated<T>(g: Ring<T>, ranks: seq<Rank<T>>, r: nat, me: Rank<T>)
    requires g.Valid() && r < |ranks| <= g.size && MovesLeft(g, r, ranks[r]) == 1 + MovesLeft(g, r, me)
    ensures Work(g, ranks) == 1 + Work(g, ranks[r := me])
  {
    var n := |ranks| - 1;
    hide MovesLeft;
    if r < n {
      WorkUpdated(g, ranks[..n], r, me);
      assert ranks[r := me][..n] == ranks[..n][r := me];
    } else {
      assert ranks[r := me][..n] == ranks[..n];
    }
  }

  /** Termination: a schedule of `k` moves uses up exactly `k` of the moves the
    ranks have left, so no schedule is longer than that. */
  lemma {:induction false} MovesCounted<T>(g: Ring<T>, s: State<T>, schedule: seq<nat>)
    requires g.Valid() && g.TagsFit() && Inv(g, s) && Executable(g, s, schedule)
    ensures Inv(g, After(g, s, schedule))
    ensures Work(g, s.ranks) == |schedule| + Work(g, After(g, s, schedule).ranks)
    decreases |schedule|
  {
    if schedule != [] {
      var s' := Step(g, s, schedule[0]);
      StepInv(g, s, schedule[0]);
      StepWork(g, s, schedule[0]);
      WorkUpdated(g, s.ranks, schedule[0], s'.ranks[schedule[0]]);
      MovesCounted(g, s', schedule[1..]);
    }
  }

  /** ... and a group with no move left has finished every call. */
  lemma {:induction false} NoWorkLeft<T>(g: Ring<T>, ranks: seq<Rank<T>>)
    requires g.Valid() && |ranks| <= g.size
    requires forall r :: 0 <= r < |ranks| ==> RankOk(g, r, ranks[r])
    ensures Work(g, ranks) == 0 <==> forall r :: 0 <= r < |ranks| ==> ranks[r].call == |g.calls|
  {
    hide BufferOk, ReadyOk, ResultsOk, Local.CursorOk, Local.Remaining, CallsLeft;
    if ranks != [] {
      var n := |ranks| - 1;
      NoWorkLeft(g, ranks[..n]);
      assert RankOk(g, n, ranks[n]);
    }
  }
}
