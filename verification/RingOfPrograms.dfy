/** The two models of a rank are one: every move of a rank of the copying ring
  is the next act of its program, given the answers the ring itself gives, so
  what the program needs of its transport the ring provides. */
module RingOfPrograms {
  import opened RingArithmetic
  import opened BlockLayout
  import opened Buffers
  import opened Tags
  import opened Schedule
  import opened Group
  import opened Reduction
  import opened RankProgram
  import opened ProgramFacts
  import Copying = CopyingRing
  import CopyingInvariant
  import CopyingTheorems

  // --- what the ring answers --------------------------------------------------------

  /** The piece has come: `data`, and anything beyond its end. */
  function Filling<T>(data: seq<T>, beyond: T): Answer<T> {
    Done((j: nat) => if j < |data| then data[j] else beyond)
  }

  /** What a wait of rank `r` that returns hands over: what was delivered before,
    or the first queued message with the piece's tag. */
  ghost function Handed<T>(g: Ring<T>, s: Copying.State<T>, r: nat): seq<T>
    requires g.Valid() && Copying.Enabled(g, s, r) && Copying.Acting(g, s, r, WaitReceives)
  {
    var me := s.ranks[r];
    if me.at.piece in me.ready then me.ready[me.at.piece].data
    else s.queues[r][Copying.FirstMatch(s.queues[r], g.TagOf(Copying.Due(g, s, r)).tag)].payload
  }

  ghost function Reply<T>(g: Ring<T>, s: Copying.State<T>, r: nat): Answer<T>
    requires g.Valid() && Copying.Enabled(g, s, r)
  {
    var beyond := g.calls[s.ranks[r].call].input[r][0];
    if Copying.Acting(g, s, r, WaitReceives) then Filling(Handed(g, s, r), beyond) else Filling([], beyond)
  }

  /** Rank `r` is about to make a transport call of call `c`. */
  ghost predicate Calling<T>(g: Ring<T>, s: Copying.State<T>, r: nat, c: nat)
    requires g.Valid()
  {
    && Copying.Enabled(g, s, r) && s.ranks[r].call == c
    && Copying.Me(g, s, r).Acting(s.ranks[r].at)
  }

  /** The answers to the transport calls rank `r` makes in call `c`, in order. */
  ghost function Replies<T>(g: Ring<T>, s: Copying.State<T>, schedule: seq<nat>, r: nat, c: nat): seq<Answer<T>>
    requires g.Valid() && Copying.Executable(g, s, schedule)
    decreases |schedule|
  {
    if schedule == [] then []
    else
      (if schedule[0] == r && Calling(g, s, r, c) then [Reply(g, s, r)] else [])
      + Replies(g, Copying.Step(g, s, schedule[0]), schedule[1..], r, c)
  }

  // --- one move ---------------------------------------------------------------------------

  /** The ring's rank and the program stand at the same point of the call, with
    the same values in their buffers outside the regions lent out. */
  ghost predicate Together<T>(p: Program<T>, g: Ring<T>, s: Copying.State<T>, r: nat, c: nat, m: Machine<T>)
    requires g.Valid()
  {
    && CopyingInvariant.Inv(g, s) && Member(p, g, r, c) && p.Valid() && s.ranks[r].call == c
    && p.loc.CursorOk(s.ranks[r].at) && p.Fits(s.ranks[r].at, m)
    && HoldsExpected(g, r, c, s.ranks[r].at, m.work)
  }

  /** A payload handed over is the one the predecessor is to send. */
  lemma HandedCarries<T>(g: Ring<T>, s: Copying.State<T>, r: nat)
    requires g.Valid() && g.TagsFit() && CopyingInvariant.Inv(g, s)
    requires Copying.Enabled(g, s, r) && Copying.Acting(g, s, r, WaitReceives)
    ensures g.IdOk(r, Copying.Due(g, s, r)) && CopyingInvariant.Carries(g, r, Copying.Due(g, s, r), Handed(g, s, r))
  {
    var p := s.ranks[r].at.piece;
    if p in s.ranks[r].ready {
      CopyingInvariant.Consumed(g, s, r);
    } else {
      CopyingInvariant.MatchIsRight(g, s, r, p);
    }
  }

  lemma Running<T>(p: Program<T>, g: Ring<T>, s: Copying.State<T>, r: nat, c: nat, m: Machine<T>)
    requires g.Valid() && Together(p, g, s, r, c, m)
    ensures Copying.Running(g, s, r) && Copying.Me(g, s, r) == p.loc
  {
    assert CopyingInvariant.RankOk(g, r, s.ranks[r]);
  }

  lemma Placed<T>(p: Program<T>, g: Ring<T>, s: Copying.State<T>, r: nat, c: nat, m: Machine<T>)
    requires g.Valid() && Together(p, g, s, r, c, m)
    ensures r < g.size == |s.ranks|
  {}

  /** A transport that accepts every request and lets every wait end leaves no
    reason to fail. */
  lemma AnswersSuffice<T>(p: Program<T>, c: Cursor, m: Machine<T>)
    requires p.Valid() && p.loc.CursorOk(c) && p.Fits(c, m) && c.step < p.loc.Steps() && TagsInRange(p, p.loc.Steps())
    requires !p.operation.OtherOperation? && (p.loc.Acting(c) ==> p.answers(m.asked).Done?)
    ensures p.Act(c, m).0 == Success && p.Act(c, m).1.asked == m.asked + if p.loc.Acting(c) then 1 else 0
  {
    ActTag(p, p.loc.Steps(), c, m);
    hide Program.TagFor, Target, Overwrite, Combine, Local.SendFirst, Local.RecvFirst, TagsInRange;
  }

  lemma FillingBrings<T>(p: Program<T>, g: Ring<T>, r: nat, c: nat, at: Cursor, data: seq<T>, beyond: T)
    requires g.Valid() && Member(p, g, r, c) && p.Valid() && at.piece < p.loc.RecvPieces(at.step)
    requires g.IdOk(r, Id(c, at.step, at.piece)) && CopyingInvariant.Carries(g, r, Id(c, at.step, at.piece), data)
    ensures Brings(p, g, r, c, at, Filling(data, beyond))
  {
    hide Ring.Sent, Local.RecvFirst;
    var first := p.loc.RecvFirst(at.step, at.piece);
    forall i | first <= i < first + p.loc.RecvLength(at.step, at.piece)
      ensures Filling(data, beyond).data(i - first) == g.Sent(c, at.step, i)
    {
      assert data[i - first] == g.Sent(c, at.step, first + (i - first));
    }
  }

  /** What ends a wait of the program is what its predecessor is to send. */
  lemma ReplyBrings<T>(p: Program<T>, g: Ring<T>, s: Copying.State<T>, r: nat, c: nat, m: Machine<T>)
    requires g.Valid() && g.TagsFit() && Together(p, g, s, r, c, m)
    requires Copying.Enabled(g, s, r) && Copying.Acting(g, s, r, WaitReceives)
    ensures s.ranks[r].at.piece < p.loc.RecvPieces(s.ranks[r].at.step) && Brings(p, g, r, c, s.ranks[r].at, Reply(g, s, r))
  {
    Running(p, g, s, r, c, m);
    HandedCarries(g, s, r);
    hide CopyingInvariant.Inv, CopyingInvariant.Carries, Handed, Program.Fits, HoldsExpected, Ring.TagsFit, Filling, Brings;
    FillingBrings(p, g, r, c, s.ranks[r].at, Handed(g, s, r), g.calls[c].input[r][0]);
  }

  lemma ActHolds<T>(p: Program<T>, g: Ring<T>, r: nat, c: nat, at: Cursor, m: Machine<T>)
    requires g.Valid() && Member(p, g, r, c) && p.Valid() && p.loc.CursorOk(at) && p.Fits(at, m) && !p.loc.Finished(at)
    requires HoldsExpected(g, r, c, at, m.work) && p.Act(at, m).0 == Success
    requires p.loc.Acting(at) && at.stage == WaitReceives ==> Brings(p, g, r, c, at, p.answers(m.asked))
    ensures HoldsExpected(g, r, c, p.loc.Advance(at), p.Act(at, m).1.work)
  {
    hide Program.Act, Program.Fits, HoldsExpected, Brings, Member, Local.Advance, Local.Acting, Local.CursorOk, Local.Finished;
    if p.loc.Acting(at) && at.stage == WaitReceives {
      WaitHolds(p, g, r, c, at, m);
    } else {
      OtherHolds(p, g, r, c, at, m);
    }
  }

  /** A move of the ring's rank inside a call is the program's next act. */
  lemma MoveIsAct<T>(p: Program<T>, g: Ring<T>, s: Copying.State<T>, r: nat, c: nat, m: Machine<T>)
    requires g.Valid() && g.TagsFit() && Together(p, g, s, r, c, m) && Copying.Enabled(g, s, r)
    requires !p.loc.Finished(s.ranks[r].at) && (Calling(g, s, r, c) ==> p.answers(m.asked) == Reply(g, s, r))
    ensures var at := s.ranks[r].at;
            var (status, m') := p.Act(at, m);
            && status == Success && m'.asked == m.asked + (if Calling(g, s, r, c) then 1 else 0)
            && Together(p, g, Copying.Step(g, s, r), r, c, m')
            && Copying.Step(g, s, r).ranks[r].at == p.loc.Advance(at)
  {
    Running(p, g, s, r, c, m);
    var at := s.ranks[r].at;
    assert Calling(g, s, r, c) <==> p.loc.Acting(at);
    assert Calling(g, s, r, c) ==> Reply(g, s, r).Done?;
    GroupTagsInRange(p, g, r, c);
    hide CopyingInvariant.Inv, Program.Act, Program.Fits, HoldsExpected, Handed, Reply, Ring.TagsFit, Local.Advance, TagsInRange,
         Copying.Step, Local.Acting, Member, Brings;
    assert p.loc.Finished(at) <==> at.step == p.loc.Steps();
    AnswersSuffice(p, at, m);
    if p.loc.Acting(at) && at.stage == WaitReceives { ReplyBrings(p, g, s, r, c, m); }
    ActHolds(p, g, r, c, at, m);
    p.ActFits(at, m);
    CopyingTheorems.StepInv(g, s, r);
    CopyingTheorems.MovesOn(g, s, r);
  }

  /** A post of the ring fails when the program's does, with the same status,
    and then nothing has been queued or taken. */
  lemma PostsEndAlike<T>(p: Program<T>, g: Ring<T>, s: Copying.State<T>, r: nat, c: nat, m: Machine<T>)
    requires g.Valid() && Member(p, g, r, c) && p.Valid() && Copying.Running(g, s, r) && s.ranks[r].call == c
    requires p.loc.CursorOk(s.ranks[r].at) && p.loc.Acting(s.ranks[r].at) && p.Fits(s.ranks[r].at, m) && p.answers(m.asked).Done?
    ensures s.ranks[r].at.stage == PostReceives ==>
              && Copying.Acting(g, s, r, PostReceives)
              && var s' := Copying.PostReceive(g, s, r);
                 |s'.ranks| == g.size && s'.ranks[r].status == p.Act(s.ranks[r].at, m).0
                 && (s'.ranks[r].status != Success ==> s'.queues == s.queues)
    ensures s.ranks[r].at.stage == PostSends ==>
              && Copying.Acting(g, s, r, PostSends)
              && var s' := Copying.PostSend(g, s, r);
                 |s'.ranks| == g.size && s'.ranks[r].status == p.Act(s.ranks[r].at, m).0
                 && (s'.ranks[r].status != Success ==> s'.queues == s.queues)
  {
    hide Ring.TagOf, Program.TagFor, Program.Fits, Local.Advance, Copying.Deliverable, Local.SendFirst, Local.RecvFirst, Overwrite,
         Combine;
    MemberTags(p, g, r, c, s.ranks[r].at.step, s.ranks[r].at.piece);
  }

  lemma ExpectedIsSent<T>(g: Ring<T>, r: nat, c: nat, at: Cursor, work: seq<T>, lo: nat, n: nat, j: nat)
    requires g.Valid() && r < g.size && c < |g.calls| && HoldsExpected(g, r, c, at, work) && j < n && lo + n <= |work|
    requires var loc := g.LocalOf(r, c);
             && loc.CursorOk(at) && at.step < loc.Steps() && at.piece < loc.SendPieces(at.step)
             && lo == loc.SendFirst(at.step, at.piece) && n == loc.SendLength(at.step, at.piece)
    ensures work[lo + j] == g.Sent(c, at.step, lo + j)
  {
    hide Ring.Expected, Ring.Lent, Ring.Sent, Local.SendFirst, Local.CursorOk;
    g.LocalOf(r, c).RegionsCover(at.step, at.piece, lo + j);
    g.SendValue(r, c, at, lo + j);
  }

  lemma SamePayload<T>(g: Ring<T>, r: nat, c: nat, at: Cursor, work: seq<T>, payload: seq<T>, lo: nat, n: nat)
    requires g.Valid() && r < g.size && c < |g.calls| && HoldsExpected(g, r, c, at, work)
    requires var loc := g.LocalOf(r, c);
             && loc.CursorOk(at) && at.step < loc.Steps() && at.piece < loc.SendPieces(at.step)
             && lo == loc.SendFirst(at.step, at.piece) && n == loc.SendLength(at.step, at.piece)
    requires g.IdOk(Next(g.size, r), Id(c, at.step, at.piece))
    requires CopyingInvariant.Carries(g, Next(g.size, r), Id(c, at.step, at.piece), payload)
    ensures lo + n <= |work| && work[lo..lo + n] == payload
  {
    hide HoldsExpected, Ring.Sent, Local.CursorOk, Local.SendFirst, Local.RecvFirst, Local.SendLength, Local.RecvLength,
         Local.SendPieces, Local.RecvPieces, Ring.IdOk, Local.Steps;
    LengthHeld(g, r, c, at, work);
    g.SameLink(r, c, at.step);
    var region := work[lo..lo + n];
    forall j | 0 <= j < |region|
      ensures region[j] == payload[j]
    {
      ExpectedIsSent(g, r, c, at, work, lo, n, j);
    }
  }

  lemma QueuesPayload<T>(g: Ring<T>, s: Copying.State<T>, r: nat, tag: nat, lo: nat, n: nat, payload: seq<T>)
    requires g.Valid() && Copying.Acting(g, s, r, PostSends) && g.TagOf(Copying.Due(g, s, r)) == Tag(tag)
    requires lo == Copying.Me(g, s, r).SendFirst(s.ranks[r].at.step, s.ranks[r].at.piece)
    requires n == Copying.Me(g, s, r).SendLength(s.ranks[r].at.step, s.ranks[r].at.piece)
    requires s.ranks[r].work[lo..lo + n] == payload
    ensures Copying.PostSend(g, s, r).queues[Next(g.size, r)]
            == s.queues[Next(g.size, r)] + [Copying.Message(Copying.Due(g, s, r), tag, payload)]
  {
    hide Ring.TagOf, Local.SendFirst, Local.SendLength, Local.Advance, Local.CursorOk;
  }

  /** The payload the ring copies when a send is posted is what the program's
    own buffer holds in the region it posts. */
  lemma SendsItsOwn<T>(p: Program<T>, g: Ring<T>, s: Copying.State<T>, r: nat, c: nat, m: Machine<T>, tag: nat, lo: nat, n: nat)
    requires g.Valid() && g.TagsFit() && Together(p, g, s, r, c, m) && Copying.Acting(g, s, r, PostSends)
    requires var at := s.ranks[r].at;
             && at.piece < p.loc.SendPieces(at.step) && p.TagFor(at.step, at.piece) == Tag(tag)
             && lo == p.loc.SendFirst(at.step, at.piece) && n == p.loc.SendLength(at.step, at.piece)
    ensures lo + n <= |m.work|
    ensures Copying.PostSend(g, s, r).queues[Next(g.size, r)]
            == s.queues[Next(g.size, r)] + [Copying.Message(Copying.Due(g, s, r), tag, m.work[lo..lo + n])]
  {
    hide CopyingInvariant.Inv, CopyingInvariant.Carries, Copying.PostSend, Ring.TagsFit, Program.Fits, HoldsExpected, Ring.TagOf,
         Program.TagFor, Local.SendFirst, Local.RecvFirst, Local.Advance, Local.CursorOk, Ring.Posted, Ring.IdOk;
    Running(p, g, s, r, c, m);
    var at := s.ranks[r].at;
    CopyingInvariant.PayloadOk(g, s, r);
    MemberTags(p, g, r, c, at.step, at.piece);
    SamePayload(g, r, c, at, m.work, s.ranks[r].work[lo..lo + n], lo, n);
    QueuesPayload(g, s, r, tag, lo, n, m.work[lo..lo + n]);
  }

  lemma LengthHeld<T>(g: Ring<T>, r: nat, c: nat, at: Cursor, work: seq<T>)
    requires g.Valid() && r < g.size && c < |g.calls| && HoldsExpected(g, r, c, at, work)
    ensures |work| == g.calls[c].count
  {}

  // --- a whole call ---------------------------------------------------------------------------

  /** The program is going to get these answers. */
  ghost predicate Hears<T>(p: Program<T>, asked: nat, replies: seq<Answer<T>>) {
    forall i :: 0 <= i < |replies| ==> p.answers(asked + i) == replies[i]
  }

  lemma HearsRest<T>(p: Program<T>, asked: nat, first: Answer<T>, rest: seq<Answer<T>>)
    requires Hears(p, asked, [first] + rest)
    ensures p.answers(asked) == first && Hears(p, asked + 1, rest)
  {
    var replies := [first] + rest;
    assert p.answers(asked + 0) == replies[0];
    forall i | 0 <= i < |rest|
      ensures p.answers(asked + 1 + i) == rest[i]
    {
      assert p.answers(asked + (i + 1)) == replies[i + 1];
    }
  }

  /** A move leaves the other ranks where they are. */
  lemma OthersStay<T>(g: Ring<T>, s: Copying.State<T>, e: nat, r: nat)
    requires g.Valid() && g.TagsFit() && CopyingInvariant.Inv(g, s) && Copying.Enabled(g, s, e) && r < g.size
    ensures CopyingInvariant.Inv(g, Copying.Step(g, s, e)) && |s.ranks| == g.size == |Copying.Step(g, s, e).ranks|
    ensures e != r ==> Copying.Step(g, s, e).ranks[r] == s.ranks[r]
    ensures s.ranks[r].call <= Copying.Step(g, s, e).ranks[r].call <= s.ranks[r].call + 1
  {
    CopyingTheorems.StepInv(g, s, e);
    CopyingTheorems.StepWork(g, s, e);
    if !Copying.Me(g, s, e).Finished(s.ranks[e].at) { CopyingTheorems.MovesOn(g, s, e); }
    hide Copying.Enabled, Ring.TagsFit, CopyingTheorems.MovesLeft;
  }

  lemma {:induction false} NoMoreReplies<T>(g: Ring<T>, s: Copying.State<T>, schedule: seq<nat>, r: nat, c: nat)
    requires g.Valid() && g.TagsFit() && CopyingInvariant.Inv(g, s) && Copying.Executable(g, s, schedule) && r < g.size
    requires |s.ranks| == g.size && s.ranks[r].call > c
    ensures Replies(g, s, schedule, r, c) == []
    decreases |schedule|
  {
    if schedule != [] {
      OthersStay(g, s, schedule[0], r);
      hide CopyingInvariant.Inv, Copying.Step, Copying.Enabled, Ring.TagsFit;
      NoMoreReplies(g, Copying.Step(g, s, schedule[0]), schedule[1..], r, c);
    }
  }

  /** The schedule takes rank `r` out of call `c`. */
  ghost predicate Leaves<T>(g: Ring<T>, s: Copying.State<T>, schedule: seq<nat>, r: nat, c: nat)
    requires g.Valid() && Copying.Executable(g, s, schedule)
  {
    var end := Copying.After(g, s, schedule);
    r < |end.ranks| && end.ranks[r].call > c
  }

  /** What a run of the program from here on comes to. */
  ghost predicate Succeeds<T>(p: Program<T>, g: Ring<T>, r: nat, c: nat, at: Cursor, m: Machine<T>, calls: nat)
    requires g.Valid() && Member(p, g, r, c) && p.Valid() && p.loc.CursorOk(at) && p.Fits(at, m)
  {
    var (status, m') := p.Run(p.loc.Steps(), at, m);
    status == Success && m'.asked == m.asked + calls && Delivered(p, g, r, c, p.loc.Steps(), at, m)
  }

  lemma ActSucceeds<T>(p: Program<T>, g: Ring<T>, r: nat, c: nat, at: Cursor, m: Machine<T>, calls: nat, rest: nat)
    requires g.Valid() && Member(p, g, r, c) && p.Valid() && p.loc.CursorOk(at) && p.Fits(at, m) && !p.loc.Finished(at)
    requires p.Act(at, m).0 == Success && p.Fits(p.loc.Advance(at), p.Act(at, m).1)
    requires p.Act(at, m).1.asked + rest == m.asked + calls
    requires Succeeds(p, g, r, c, p.loc.Advance(at), p.Act(at, m).1, rest)
    requires p.loc.Acting(at) && at.stage == WaitReceives ==> Brings(p, g, r, c, at, p.answers(m.asked))
    ensures Succeeds(p, g, r, c, at, m, calls)
  {
    hide Program.Act, Program.Fits, Brings, Member, Local.Advance, Local.Acting, Local.CursorOk;
    assert at.step < p.loc.Steps() by { NotFinished(p.loc, at); }
  }

  lemma NotFinished(loc: Local, at: Cursor)
    requires loc.Valid() && loc.CursorOk(at) && !loc.Finished(at)
    ensures at.step < loc.Steps()
  {}

  lemma FinishedSucceeds<T>(p: Program<T>, g: Ring<T>, r: nat, c: nat, at: Cursor, m: Machine<T>)
    requires g.Valid() && Member(p, g, r, c) && p.Valid() && p.loc.CursorOk(at) && p.Fits(at, m) && p.loc.Finished(at)
    ensures Succeeds(p, g, r, c, at, m, 0)
  {
    hide Program.Act, Program.Fits, Brings, Member;
  }

  /** The call is over: the rank returns, and nothing more is asked in it. */
  lemma LastMove<T>(p: Program<T>, g: Ring<T>, s: Copying.State<T>, schedule: seq<nat>, r: nat, c: nat, m: Machine<T>)
    requires g.Valid() && g.TagsFit() && Together(p, g, s, r, c, m) && Copying.Executable(g, s, schedule)
    requires schedule != [] && schedule[0] == r && p.loc.Finished(s.ranks[r].at)
    ensures Replies(g, s, schedule, r, c) == [] && Succeeds(p, g, r, c, s.ranks[r].at, m, 0)
  {
    hide CopyingInvariant.Inv, Ring.TagsFit, Member, Program.Fits, Program.Act, HoldsExpected, Succeeds, Brings, Reply;
    Running(p, g, s, r, c, m);
    FinishedSucceeds(p, g, r, c, s.ranks[r].at, m);
    OthersStay(g, s, r, r);
    NoMoreReplies(g, Copying.Step(g, s, r), schedule[1..], r, c);
  }

  lemma FirstReply<T>(g: Ring<T>, s: Copying.State<T>, schedule: seq<nat>, r: nat, c: nat)
    requires g.Valid() && Copying.Executable(g, s, schedule) && schedule != []
    ensures var rest := Replies(g, Copying.Step(g, s, schedule[0]), schedule[1..], r, c);
            Replies(g, s, schedule, r, c) ==
            if schedule[0] == r && Calling(g, s, r, c) then [Reply(g, s, r)] + rest else rest
  {
    hide Copying.Step, Copying.Enabled, Reply, Calling;
  }

  lemma NextReply<T>(p: Program<T>, g: Ring<T>, s: Copying.State<T>, schedule: seq<nat>, r: nat, c: nat, asked: nat)
    requires g.Valid() && Copying.Executable(g, s, schedule) && schedule != [] && schedule[0] == r
    requires Hears(p, asked, Replies(g, s, schedule, r, c))
    ensures var rest, one := Replies(g, Copying.Step(g, s, r), schedule[1..], r, c), if Calling(g, s, r, c) then 1 else 0;
            && (Calling(g, s, r, c) ==> p.answers(asked) == Reply(g, s, r))
            && Hears(p, asked + one, rest) && |Replies(g, s, schedule, r, c)| == one + |rest|
  {
    hide Copying.Step, Copying.Enabled, Reply, Calling, Hears, Replies;
    FirstReply(g, s, schedule, r, c);
    if Calling(g, s, r, c) {
      HearsRest(p, asked, Reply(g, s, r), Replies(g, Copying.Step(g, s, r), schedule[1..], r, c));
    }
  }

  /** One move of the rank is one act of the program. */
  lemma MoveFollows<T>(p: Program<T>, g: Ring<T>, s: Copying.State<T>, schedule: seq<nat>, r: nat, c: nat, m: Machine<T>)
    requires g.Valid() && g.TagsFit() && Together(p, g, s, r, c, m) && Copying.Executable(g, s, schedule)
    requires schedule != [] && schedule[0] == r && !p.loc.Finished(s.ranks[r].at)
    requires Hears(p, m.asked, Replies(g, s, schedule, r, c))
    ensures var at, s', (status, m') := s.ranks[r].at, Copying.Step(g, s, r), p.Act(s.ranks[r].at, m);
            && status == Success && Together(p, g, s', r, c, m') && s'.ranks[r].at == p.loc.Advance(at)
            && Hears(p, m'.asked, Replies(g, s', schedule[1..], r, c))
            && m'.asked + |Replies(g, s', schedule[1..], r, c)| == m.asked + |Replies(g, s, schedule, r, c)|
  {
    NextReply(p, g, s, schedule, r, c, m.asked);
    hide CopyingInvariant.Inv, Ring.TagsFit, Member, Program.Fits, Program.Act, HoldsExpected, Reply, Hears, Replies, Calling,
         Copying.Step, Copying.Enabled, Local.Acting, Local.Advance, Local.CursorOk, Local.Finished;
    MoveIsAct(p, g, s, r, c, m);
  }

  lemma MoveBrings<T>(p: Program<T>, g: Ring<T>, s: Copying.State<T>, schedule: seq<nat>, r: nat, c: nat, m: Machine<T>)
    requires g.Valid() && g.TagsFit() && Together(p, g, s, r, c, m) && Copying.Executable(g, s, schedule)
    requires schedule != [] && schedule[0] == r && Hears(p, m.asked, Replies(g, s, schedule, r, c))
    ensures var at := s.ranks[r].at;
            p.loc.Acting(at) && at.stage == WaitReceives ==> Brings(p, g, r, c, at, p.answers(m.asked))
  {
    var at := s.ranks[r].at;
    Running(p, g, s, r, c, m);
    assert Calling(g, s, r, c) <==> p.loc.Acting(at);
    NextReply(p, g, s, schedule, r, c, m.asked);
    hide CopyingInvariant.Inv, Ring.TagsFit, Member, Program.Fits, HoldsExpected, Brings, Reply, Hears, Replies,
         Copying.Step, Local.Acting, Local.CursorOk;
    if Calling(g, s, r, c) && at.stage == WaitReceives { ReplyBrings(p, g, s, r, c, m); }
  }

  /** From any point of a call on, the ring answers all the program asks. */
  lemma {:induction false} RestFollows<T>(p: Program<T>, g: Ring<T>, s: Copying.State<T>, schedule: seq<nat>, r: nat, c: nat,
                                          m: Machine<T>)
    requires g.Valid() && g.TagsFit() && Together(p, g, s, r, c, m) && Copying.Executable(g, s, schedule)
    requires Hears(p, m.asked, Replies(g, s, schedule, r, c)) && Leaves(g, s, schedule, r, c)
    ensures Succeeds(p, g, r, c, s.ranks[r].at, m, |Replies(g, s, schedule, r, c)|)
    decreases |schedule|
  {
    hide CopyingInvariant.Inv, Copying.Step, Copying.Enabled, Ring.TagsFit, Member, Program.Fits, Program.Act, HoldsExpected,
         Succeeds, Brings, Hears, Reply, Local.Acting, Local.Advance, Local.CursorOk, Local.Finished;
    Placed(p, g, s, r, c, m);
    if schedule != [] {
      var e, at := schedule[0], s.ranks[r].at;
      var s', rest := Copying.Step(g, s, e), schedule[1..];
      assert Leaves(g, s', rest, r, c);
      OthersStay(g, s, e, r);
      if e != r {
        assert Replies(g, s, schedule, r, c) == Replies(g, s', rest, r, c);
        RestFollows(p, g, s', rest, r, c, m);
      } else if p.loc.Finished(at) {
        LastMove(p, g, s, schedule, r, c, m);
      } else {
        MoveFollows(p, g, s, schedule, r, c, m);
        MoveBrings(p, g, s, schedule, r, c, m);
        var m' := p.Act(at, m).1;
        RestFollows(p, g, s', rest, r, c, m');
        ActSucceeds(p, g, r, c, at, m, |Replies(g, s, schedule, r, c)|, |Replies(g, s', rest, r, c)|);
      }
    }
  }

  /** A rank stays in its call or starts the next one. */
  lemma StaysOrStarts<T>(g: Ring<T>, s: Copying.State<T>, r: nat)
    requires g.Valid() && g.TagsFit() && CopyingInvariant.Inv(g, s) && Copying.Enabled(g, s, r)
    ensures r < |Copying.Step(g, s, r).ranks|
    ensures var me, me' := s.ranks[r], Copying.Step(g, s, r).ranks[r];
            me'.call == me.call || (me'.call == me.call + 1 && me'.at == START)
  {
    OthersStay(g, s, r, r);
    if !Copying.Me(g, s, r).Finished(s.ranks[r].at) { CopyingTheorems.MovesOn(g, s, r); }
    hide CopyingInvariant.Inv, Ring.TagsFit, Copying.Enabled;
  }

  lemma CallStarts<T>(p: Program<T>, g: Ring<T>, s: Copying.State<T>, r: nat, c: nat, m: Machine<T>)
    requires g.Valid() && CopyingInvariant.Inv(g, s) && Member(p, g, r, c) && p.Valid() && p.Fits(START, m)
    requires m.work == g.calls[c].input[r] && |s.ranks| == g.size && s.ranks[r].call == c && s.ranks[r].at == START
    ensures Together(p, g, s, r, c, m)
  {
    hide CopyingInvariant.Inv, Program.Fits, Ring.Expected;
    forall i | 0 <= i < |m.work|
      ensures m.work[i] == g.Expected(r, c, START, i)
    {
      g.StartValue(r, c, i);
    }
  }

  lemma {:induction false} CallFollows<T>(p: Program<T>, g: Ring<T>, s: Copying.State<T>, schedule: seq<nat>, r: nat, c: nat,
                                          m: Machine<T>)
    requires g.Valid() && g.TagsFit() && CopyingInvariant.Inv(g, s) && Copying.Executable(g, s, schedule)
    requires Member(p, g, r, c) && p.Valid() && p.Fits(START, m) && m.work == g.calls[c].input[r]
    requires Hears(p, m.asked, Replies(g, s, schedule, r, c)) && Leaves(g, s, schedule, r, c)
    requires |s.ranks| == g.size && (s.ranks[r].call < c || (s.ranks[r].call == c && s.ranks[r].at == START))
    ensures Succeeds(p, g, r, c, START, m, |Replies(g, s, schedule, r, c)|)
    decreases |schedule|
  {
    assert r < g.size;
    hide CopyingInvariant.Inv, Ring.TagsFit, Member, Program.Fits, Program.Act, HoldsExpected, Succeeds, Brings, Hears,
         Copying.Step, Copying.Enabled, Reply, Together, Program.Valid;
    if s.ranks[r].call == c {
      CallStarts(p, g, s, r, c, m);
      RestFollows(p, g, s, schedule, r, c, m);
    } else if schedule != [] {
      var e, s' := schedule[0], Copying.Step(g, s, schedule[0]);
      assert Leaves(g, s', schedule[1..], r, c);
      OthersStay(g, s, e, r);
      if e == r { StaysOrStarts(g, s, r); }
      FirstReply(g, s, schedule, r, c);
      CallFollows(p, g, s', schedule[1..], r, c, m);
    }
  }

  lemma InitialCalls<T>(g: Ring<T>)
    requires g.Valid()
    ensures var s := Copying.Initial(g);
            |s.ranks| == g.size && forall r :: 0 <= r < g.size ==> s.ranks[r].call == 0 && s.ranks[r].at == START
  {}

  lemma ResultIs<T>(g: Ring<T>, out: seq<seq<T>>, c: nat, work: seq<T>)
    requires g.Valid() && ResultsOk(g, out) && c < |out| && |work| == g.calls[c].count
    requires forall i :: 0 <= i < |work| ==> work[i] == g.Reduced(c, i)
    ensures work == out[c]
  {}

  /** The transport's share of a call, discharged: whatever the interleaving,
    the answers the ring gives a rank deliver what its predecessor sends. */
  lemma RingDelivers<T>(p: Program<T>, g: Ring<T>, schedule: seq<nat>, r: nat, c: nat, m: Machine<T>)
    requires g.Valid() && g.TagsFit() && Copying.Executable(g, Copying.Initial(g), schedule)
    requires Member(p, g, r, c) && p.Valid() && p.Fits(START, m) && m.work == g.calls[c].input[r]
    requires Leaves(g, Copying.Initial(g), schedule, r, c)
    requires Hears(p, m.asked, Replies(g, Copying.Initial(g), schedule, r, c))
    ensures Delivered(p, g, r, c, p.loc.Steps(), START, m)
    ensures p.Run(p.loc.Steps(), START, m).0 == Success
    ensures p.Run(p.loc.Steps(), START, m).1.asked == m.asked + |Replies(g, Copying.Initial(g), schedule, r, c)|
  {
    CopyingInvariant.InitialInv(g);
    InitialCalls(g);
    assert r < g.size;
    hide CopyingInvariant.Inv, Ring.TagsFit, Member, Program.Fits, Program.Run, Delivered, Hears, Leaves, Replies, Copying.Initial,
         Copying.Executable;
    CallFollows(p, g, Copying.Initial(g), schedule, r, c, m);
  }

  /** All-reduce without an oracle: a rank's program, answered by the ring,
    succeeds and ends with the buffer the ring's rank returns, which is the
    ring fold of all inputs. */
  lemma ProgramReturnsResult<T>(p: Program<T>, g: Ring<T>, schedule: seq<nat>, r: nat, c: nat, m: Machine<T>)
    requires g.Valid() && g.TagsFit() && Copying.Executable(g, Copying.Initial(g), schedule)
    requires Member(p, g, r, c) && p.Valid() && p.Fits(START, m) && m.work == g.calls[c].input[r]
    requires Leaves(g, Copying.Initial(g), schedule, r, c)
    requires Hears(p, m.asked, Replies(g, Copying.Initial(g), schedule, r, c))
    ensures var end, (status, m') := Copying.After(g, Copying.Initial(g), schedule), p.Run(p.loc.Steps(), START, m);
            && status == Success && c < |end.ranks[r].out| && m'.work == end.ranks[r].out[c]
            && m'.asked == m.asked + |Replies(g, Copying.Initial(g), schedule, r, c)|
            && forall i :: 0 <= i < |m'.work| ==> m'.work[i] == g.Reduced(c, i)
  {
    RingDelivers(p, g, schedule, r, c, m);
    CopyingTheorems.AllReduceCorrect(g, schedule);
    var end := Copying.After(g, Copying.Initial(g), schedule);
    assert |end.ranks[r].out| > c && ResultsOk(g, end.ranks[r].out);
    hide Ring.TagsFit, Program.Fits, Program.Run, Delivered, Hears, Leaves, Replies, Copying.Initial, Copying.Executable,
         Copying.After, ResultsOk;
    CallReduces(p, g, r, c, m);
    ResultIs(g, end.ranks[r].out, c, p.Run(p.loc.Steps(), START, m).1.work);
  }

  /** Such answers there always are. */
  function Giving<T>(asked: nat, replies: seq<Answer<T>>): nat -> Answer<T> {
    k => if asked <= k < asked + |replies| then replies[k - asked] else Refused
  }

  lemma GivingIsHeard<T>(p: Program<T>, asked: nat, replies: seq<Answer<T>>)
    ensures Hears(p.(answers := Giving(asked, replies)), asked, replies)
  {}
}
