/** The limit within which the copying ring works: a group can finish its
  calls exactly when every message can be tagged. */
module CopyingLimits {
  import opened RingArithmetic
  import opened BlockLayout
  import opened Schedule
  import opened Group
  import opened Buffers
  import opened CopyingRing
  import opened CopyingInvariant
  import opened CopyingTheorems

  ghost predicate CursorWithin<T>(g: Ring<T>, r: nat, call: nat, at: Cursor)
    requires g.Valid() && r < g.size
  {
    call <= |g.calls| && (call < |g.calls| ==> g.LocalOf(r, call).CursorOk(at))
  }

  /** What a rank has posted, in any run, could be tagged. */
  ghost predicate Within<T>(g: Ring<T>, r: nat, call: nat, at: Cursor)
    requires g.Valid() && r < g.size
  {
    CursorWithin(g, r, call, at) && forall id: Id :: g.IdOk(r, id) && g.Requested(r, call, at, id) ==> g.TagOf(id).Tag?
  }

  ghost predicate AllWithin<T>(g: Ring<T>, s: State<T>)
    requires g.Valid()
  {
    |s.ranks| == |s.queues| == g.size && forall r :: 0 <= r < g.size ==> Within(g, r, s.ranks[r].call, s.ranks[r].at)
  }

  /** How a step moves the cursor of the rank that makes it. */
  ghost predicate CursorMoves<T>(g: Ring<T>, r: nat, me: Rank<T>, me': Rank<T>)
    requires g.Valid() && r < g.size && me.call < |g.calls| && g.LocalOf(r, me.call).CursorOk(me.at)
  {
    var loc := g.LocalOf(r, me.call);
    || (me'.call == me.call && me'.at == me.at)
    || (loc.Finished(me.at) && me'.call == me.call + 1 && me'.at == START)
    || (&& !loc.Finished(me.at) && me'.call == me.call && me'.at == loc.Advance(me.at)
        && (loc.Acting(me.at) && me.at.stage == PostReceives ==> g.TagOf(Id(me.call, me.at.step, me.at.piece)).Tag?))
  }

  lemma StepMoves<T>(g: Ring<T>, s: State<T>, r: nat)
    requires g.Valid() && Enabled(g, s, r)
    ensures |Step(g, s, r).ranks| == |Step(g, s, r).queues| == g.size
    ensures Step(g, s, r).ranks == s.ranks[r := Step(g, s, r).ranks[r]]
    ensures CursorMoves(g, r, s.ranks[r], Step(g, s, r).ranks[r])
  {
    hide Local.Advance, Local.Acting, Local.CursorOk, Local.Finished, Ring.TagOf, Deliver, Deliverable;
    if Me(g, s, r).Finished(s.ranks[r].at) {
    } else if Acting(g, s, r, PostReceives) {
      PostReceiveMoves(g, s, r);
    } else if Acting(g, s, r, PostSends) {
      PostSendMoves(g, s, r);
    } else if Acting(g, s, r, WaitReceives) {
      if s.ranks[r].at.piece in s.ranks[r].ready {
        ConsumeMoves(g, s, r);
      } else {
        DeliverMoves(g, s, r, s.ranks[r].at.piece);
        ConsumeMoves(g, Deliver(g, s, r, s.ranks[r].at.piece), r);
      }
    }
  }

  lemma DeliverMoves<T>(g: Ring<T>, s: State<T>, r: nat, p: nat)
    requires g.Valid() && Deliverable(g, s, r, p)
    ensures var s' := Deliver(g, s, r, p);
            && |s'.queues| == g.size && Running(g, s', r) && s'.ranks == s.ranks[r := s'.ranks[r]]
            && s'.ranks[r].call == s.ranks[r].call && s'.ranks[r].at == s.ranks[r].at && p in s'.ranks[r].ready
  {
    hide Ring.TagOf, Ring.IdOk, Local.CursorOk, Local.RecvFirst;
  }

  lemma PostReceiveMoves<T>(g: Ring<T>, s: State<T>, r: nat)
    requires g.Valid() && Acting(g, s, r, PostReceives)
    ensures var s' := PostReceive(g, s, r);
            && |s'.queues| == g.size && s'.ranks == s.ranks[r := s'.ranks[r]]
            && CursorMoves(g, r, s.ranks[r], s'.ranks[r])
  {
    var posted, p := AdvanceRank(g, s, r), s.ranks[r].at.piece;
    assert !Me(g, s, r).Finished(s.ranks[r].at);
    hide Local.Advance, Local.Acting, Local.CursorOk, Local.Finished, Ring.TagOf, Deliver, Deliverable;
    if g.TagOf(Due(g, s, r)).Tag? && Deliverable(g, posted, r, p) { DeliverMoves(g, posted, r, p); }
  }

  lemma PostSendMoves<T>(g: Ring<T>, s: State<T>, r: nat)
    requires g.Valid() && Acting(g, s, r, PostSends)
    ensures var s' := PostSend(g, s, r);
            && |s'.queues| == g.size && s'.ranks == s.ranks[r := s'.ranks[r]]
            && CursorMoves(g, r, s.ranks[r], s'.ranks[r])
  {
    assert !Me(g, s, r).Finished(s.ranks[r].at);
    hide Local.Advance, Local.CursorOk, Local.Finished, Ring.TagOf, Local.SendFirst, Local.SendLength;
  }

  lemma ConsumeMoves<T>(g: Ring<T>, s: State<T>, r: nat)
    requires g.Valid() && Acting(g, s, r, WaitReceives) && s.ranks[r].at.piece in s.ranks[r].ready
    ensures var s' := Consume(g, s, r);
            && |s'.queues| == g.size && s'.ranks == s.ranks[r := s'.ranks[r]]
            && CursorMoves(g, r, s.ranks[r], s'.ranks[r])
  {
    assert !Me(g, s, r).Finished(s.ranks[r].at);
    hide Local.Advance, Local.CursorOk, Local.Finished, Local.RecvFirst, Local.RecvLength, Combine;
  }

  lemma MovedWithin<T>(g: Ring<T>, r: nat, me: Rank<T>, me': Rank<T>)
    requires g.Valid() && r < g.size && Within(g, r, me.call, me.at) && me.call < |g.calls| && CursorMoves(g, r, me, me')
    ensures Within(g, r, me'.call, me'.at)
  {
    var loc := g.LocalOf(r, me.call);
    hide Ring.TagOf, Local.Advance, Local.Acting;
    forall id: Id | g.IdOk(r, id) && g.Requested(r, me'.call, me'.at, id)
      ensures g.TagOf(id).Tag?
    {
      if me'.call == me.call && me'.at != me.at {
        loc.ReceivesAdvance(me.at, id.step);
        if loc.Acting(me.at) { loc.ActingAdvance(me.at, id.step); }
      }
      hide Local.CursorOk, Local.RecvPosted, Local.RecvWaited, Local.SendPosted, Local.SendWaited;
    }
    NextCursorOk(g, r, me, me');
  }

  lemma NextCursorOk<T>(g: Ring<T>, r: nat, me: Rank<T>, me': Rank<T>)
    requires g.Valid() && r < g.size && CursorWithin(g, r, me.call, me.at) && me.call < |g.calls| && CursorMoves(g, r, me, me')
    ensures CursorWithin(g, r, me'.call, me'.at)
  {
    hide Local.Advance, Local.Acting, Ring.TagOf;
  }

  lemma {:induction false} RunWithin<T>(g: Ring<T>, s: State<T>, schedule: seq<nat>)
    requires g.Valid() && AllWithin(g, s) && Executable(g, s, schedule)
    ensures AllWithin(g, After(g, s, schedule))
    decreases |schedule|
  {
    hide Within, CursorMoves, Step;
    if schedule != [] {
      var r := schedule[0];
      StepMoves(g, s, r);
      MovedWithin(g, r, s.ranks[r], Step(g, s, r).ranks[r]);
      RunWithin(g, Step(g, s, r), schedule[1..]);
    }
  }

  ghost predicate AllDone<T>(g: Ring<T>, s: State<T>) {
    |s.ranks| == g.size && forall r :: 0 <= r < g.size ==> s.ranks[r].call >= |g.calls|
  }

  lemma FinishedWithin<T>(g: Ring<T>, s: State<T>)
    requires g.Valid() && AllWithin(g, s) && AllDone(g, s)
    ensures g.TagsFit()
  {
    hide Ring.TagOf;
    forall r: nat, id: Id | r < g.size && g.IdOk(r, id)
      ensures g.TagOf(id).Tag?
    {
      assert Within(g, r, s.ranks[r].call, s.ranks[r].at);
      assert g.Requested(r, s.ranks[r].call, s.ranks[r].at, id);
    }
  }

  /** From every reachable state the group can finish all its calls. */
  lemma {:induction false} Finish<T>(g: Ring<T>, s: State<T>) returns (schedule: seq<nat>)
    requires g.Valid() && g.TagsFit() && Inv(g, s)
    ensures Executable(g, s, schedule) && AllDone(g, After(g, s, schedule))
    decreases Work(g, s.ranks)
  {
    hide Inv, Step, Enabled, Work, MovesLeft, Ring.TagsFit;
    RanksCounted(g, s);
    if r: nat :| r < g.size && s.ranks[r].call < |g.calls| {
      var e := FindEnabled(g, s, r);
      StepInv(g, s, e);
      StepWork(g, s, e);
      WorkUpdated(g, s.ranks, e, Step(g, s, e).ranks[e]);
      var rest := Finish(g, Step(g, s, e));
      schedule := [e] + rest;
      assert schedule[1..] == rest;
    } else {
      schedule := [];
    }
  }

  lemma RanksCounted<T>(g: Ring<T>, s: State<T>)
    requires g.Valid() && Inv(g, s)
    ensures |s.ranks| == g.size
  {}

  /** Some interleaving finishes all calls on every rank exactly when every
    message can be tagged. */
  lemma FinishesExactlyWithin<T>(g: Ring<T>)
    requires g.Valid()
    ensures (exists schedule: seq<nat> ::
               Executable(g, Initial(g), schedule) && AllDone(g, After(g, Initial(g), schedule)))
       <==> g.TagsFit()
  {
    hide Executable, AllDone, AllWithin, Ring.TagsFit, Inv;
    if g.TagsFit() {
      InitialInv(g);
      var schedule := Finish(g, Initial(g));
    }
    if schedule: seq<nat> :| Executable(g, Initial(g), schedule) && AllDone(g, After(g, Initial(g), schedule)) {
      InitialWithin(g);
      RunWithin(g, Initial(g), schedule);
      FinishedWithin(g, After(g, Initial(g), schedule));
    }
  }

  lemma InitialWithin<T>(g: Ring<T>)
    requires g.Valid()
    ensures AllWithin(g, Initial(g))
  {
    hide Shape.Pieces;
  }
}
