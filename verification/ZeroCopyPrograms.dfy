/** The same for the zero-copy ring: what has landed when one of its waits
  returns is what the copying ring hands over, so a rank's program cannot tell
  the two transports apart. */
module ZeroCopyPrograms {
  import opened RingArithmetic
  import opened BlockLayout
  import opened Buffers
  import opened Tags
  import opened Schedule
  import opened Group
  import opened Reduction
  import opened RankProgram
  import opened ProgramFacts
  import opened RingOfPrograms
  import Copying = CopyingRing
  import CopyingInvariant
  import CopyingTheorems
  import Zero = ZeroCopyRing
  import ZeroInv = ZeroCopyInvariant
  import Steps = ZeroCopySteps
  import Network = ZeroCopyNetwork
  import Theorems = ZeroCopyTheorems
  import Refinement
  import Termination = ZeroCopyTermination

  // --- what has landed ------------------------------------------------------------------

  ghost function At<T>(work: seq<T>, temp: map<nat, T>, region: Region, j: nat, beyond: T): T {
    if region.temporary then if region.lo + j in temp then temp[region.lo + j] else beyond
    else if region.lo + j < |work| then work[region.lo + j] else beyond
  }

  /** The region the piece was to be put into, as it is now. */
  ghost function Landed<T>(g: Ring<T>, s: Zero.State<T>, r: nat): (data: seq<T>)
    requires g.Valid() && Zero.Acting(g, s, r, WaitReceives)
  {
    var me, loc := s.ranks[r], Zero.Me(g, s, r);
    var region := Target(loc, me.at.step, me.at.piece);
    seq(region.size, j requires 0 <= j < region.size =>
          At(me.work, me.temp, region, j, g.calls[me.call].input[r][0]))
  }

  ghost function Reply<T>(g: Ring<T>, s: Zero.State<T>, r: nat): Answer<T>
    requires g.Valid() && Zero.MoveEnabled(g, s, r)
  {
    var beyond := g.calls[s.ranks[r].call].input[r][0];
    if Zero.Acting(g, s, r, WaitReceives) then Filling(Landed(g, s, r), beyond) else Filling([], beyond)
  }

  ghost predicate Calling<T>(g: Ring<T>, s: Zero.State<T>, r: nat, c: nat)
    requires g.Valid()
  {
    && Zero.MoveEnabled(g, s, r) && s.ranks[r].call == c
    && Zero.Me(g, s, r).Acting(s.ranks[r].at)
  }

  /** The answers to the transport calls rank `r` makes in call `c`, in order. */
  ghost function Replies<T>(g: Ring<T>, s: Zero.State<T>, run: seq<Zero.Label>, r: nat, c: nat): seq<Answer<T>>
    requires g.Valid() && Zero.Executable(g, s, run)
    decreases |run|
  {
    if run == [] then []
    else
      (if run[0] == Zero.Move(r) && Calling(g, s, r, c) then [Reply(g, s, r)] else [])
      + Replies(g, Zero.Step(g, s, run[0]), run[1..], r, c)
  }

  lemma HeldIs<T>(g: Ring<T>, r: nat, work: seq<T>, temp: map<nat, T>, id: Id, j: nat, beyond: T)
    requires g.Valid() && r < g.size && g.IdOk(r, id) && j < g.LocalOf(r, id.call).RecvLength(id.step, id.piece)
    requires ZeroInv.Holds(work, temp, Target(g.LocalOf(r, id.call), id.step, id.piece), j, ZeroInv.Value(g, r, id, j))
    ensures At(work, temp, Target(g.LocalOf(r, id.call), id.step, id.piece), j, beyond)
            == g.Sent(id.call, id.step, g.LocalOf(r, id.call).RecvFirst(id.step, id.piece) + j)
  {
    hide Ring.Sent, Ring.IdOk, Local.RecvFirst, Target;
  }

  lemma LandedIs<T>(g: Ring<T>, s: Zero.State<T>, r: nat, w: ZeroInv.Window, offered: nat, out: ZeroInv.Window, sent: set<Id>,
                    link: Zero.Link<T>)
    requires g.Valid() && Zero.Acting(g, s, r, WaitReceives) && g.IdOk(r, Zero.Due(g, s, r))
    requires ZeroInv.TrafficOk(g, r, w, offered, s.ranks[r], out, sent, link) && Zero.Due(g, s, r) in s.ranks[r].received
    ensures CopyingInvariant.Carries(g, r, Zero.Due(g, s, r), Landed(g, s, r))
  {
    hide ZeroInv.TrafficOk, ZeroInv.Active, ZeroInv.Holds, ZeroInv.Value, At, Ring.Sent, Local.RecvFirst, Local.RecvLength,
         Local.CursorOk, Local.Acting, Shape.Start;
    var me, id := s.ranks[r], Zero.Due(g, s, r);
    Steps.ReportedLanded(g, r, w, offered, me, out, sent, link, id);
    var loc, data := g.LocalOf(r, id.call), Landed(g, s, r);
    forall j | 0 <= j < |data|
      ensures data[j] == g.Sent(id.call, id.step, loc.RecvFirst(id.step, id.piece) + j)
    {
      HeldIs(g, r, me.work, me.temp, id, j, g.calls[me.call].input[r][0]);
    }
  }

  /** When the wait for a piece returns its region holds what was sent. */
  lemma LandedCarries<T>(g: Ring<T>, s: Zero.State<T>, r: nat)
    requires g.Valid() && ZeroInv.Inv(g, s) && Zero.MoveEnabled(g, s, r) && Zero.Acting(g, s, r, WaitReceives)
    ensures g.IdOk(r, Zero.Due(g, s, r)) && CopyingInvariant.Carries(g, r, Zero.Due(g, s, r), Landed(g, s, r))
  {
    var me, q := s.ranks[r], Prev(g.size, r);
    hide ZeroInv.TrafficOk, ZeroInv.Inv, ZeroInv.RankOk, ZeroInv.OrderOk, ZeroInv.Receives, ZeroInv.Sends, ZeroInv.Offered,
         CopyingInvariant.Carries, Landed, Zero.WaitReceive;
    Steps.InvAt(g, s, r);
    Steps.WaitReceiveState(g, s, r);
    var w := ZeroInv.Receives(g, r, me);
    LandedIs(g, s, r, w, ZeroInv.Offered(g, q, s.ranks[q], w), ZeroInv.Sends(g, q, s.ranks[q]), s.ranks[q].sent, s.links[r]);
  }

  lemma SameData<T>(g: Ring<T>, r: nat, id: Id, a: seq<T>, b: seq<T>)
    requires g.Valid() && r < g.size && g.IdOk(r, id)
    requires CopyingInvariant.Carries(g, r, id, a) && CopyingInvariant.Carries(g, r, id, b)
    ensures a == b
  {
    hide Ring.Sent;
  }

  // --- the two rings answer alike ---------------------------------------------------------

  lemma ReplyAgrees<T>(g: Ring<T>, s: Zero.State<T>, r: nat, c: nat)
    requires g.Valid() && g.TagsFit() && ZeroInv.FitsDevice(g) && Termination.Reached(g, s) && Zero.Enabled(g, s, Zero.Move(r))
    ensures Copying.Enabled(g, Refinement.Abstract(g, s), r)
    ensures RingOfPrograms.Calling(g, Refinement.Abstract(g, s), r, c) <==> Calling(g, s, r, c)
    ensures RingOfPrograms.Reply(g, Refinement.Abstract(g, s), r) == Reply(g, s, r)
  {
    hide ZeroInv.Inv, CopyingInvariant.Inv, ZeroInv.FitsDevice, Ring.TagsFit, Refinement.Abstract, CopyingInvariant.Carries,
         Landed, Handed, Filling, Zero.Step, Copying.Step, Local.Acting, Local.CursorOk;
    Refinement.MoveSimulated(g, s, r);
    Refinement.SameRank(g, s, r);
    var a := Refinement.Abstract(g, s);
    if Zero.Acting(g, s, r, WaitReceives) {
      LandedCarries(g, s, r);
      HandedCarries(g, a, r);
      SameData(g, r, Zero.Due(g, s, r), Landed(g, s, r), Handed(g, a, r));
    }
  }

  lemma {:induction false} RepliesAgree<T>(g: Ring<T>, s: Zero.State<T>, run: seq<Zero.Label>, r: nat, c: nat)
    requires g.Valid() && g.TagsFit() && ZeroInv.FitsDevice(g) && Termination.Reached(g, s) && Zero.Executable(g, s, run)
    ensures Copying.Executable(g, Refinement.Abstract(g, s), Refinement.Moves(run))
    ensures RingOfPrograms.Replies(g, Refinement.Abstract(g, s), Refinement.Moves(run), r, c) == Replies(g, s, run, r, c)
    decreases |run|
  {
    hide ZeroInv.Inv, CopyingInvariant.Inv, ZeroInv.FitsDevice, Ring.TagsFit, Refinement.Abstract, Termination.Reached,
         Zero.Step, Zero.Enabled, Copying.Step, Copying.Enabled, Reply, RingOfPrograms.Reply, Calling, RingOfPrograms.Calling;
    ReachedInv(g, s);
    Refinement.RunSimulated(g, s, run);
    if run != [] {
      var l, s', a := run[0], Zero.Step(g, s, run[0]), Refinement.Abstract(g, s);
      Termination.StepCounted(g, s, l);
      RepliesAgree(g, s', run[1..], r, c);
      if l.Move? {
        Refinement.MoveSimulated(g, s, l.r);
        ReplyAgrees(g, s, l.r, c);
        assert Refinement.Moves(run)[1..] == Refinement.Moves(run[1..]);
        FirstReply(g, a, Refinement.Moves(run), r, c);
      } else {
        Refinement.NetworkStutters(g, s, l);
        assert Refinement.Moves(run) == Refinement.Moves(run[1..]);
      }
    }
  }

  lemma ReachedInv<T>(g: Ring<T>, s: Zero.State<T>)
    requires g.Valid() && g.TagsFit() && Termination.Reached(g, s)
    ensures ZeroInv.Inv(g, s)
  {
    hide ZeroInv.Inv, CopyingInvariant.Inv;
  }

  ghost predicate Leaves<T>(g: Ring<T>, run: seq<Zero.Label>, r: nat, c: nat)
    requires g.Valid() && Zero.Executable(g, Zero.Initial(g), run)
  {
    var end := Zero.After(g, Zero.Initial(g), run);
    r < |end.ranks| && end.ranks[r].call > c
  }

  /** All-reduce over the zero-copy transport, without an oracle: the program
    answered with what the network did succeeds and returns what the rank of
    the ring returns. */
  lemma ProgramReturnsResult<T>(p: Program<T>, g: Ring<T>, run: seq<Zero.Label>, r: nat, c: nat, m: Machine<T>)
    requires g.Valid() && g.TagsFit() && ZeroInv.FitsDevice(g) && Zero.Executable(g, Zero.Initial(g), run)
    requires Member(p, g, r, c) && p.Valid() && p.Fits(START, m) && m.work == g.calls[c].input[r]
    requires Leaves(g, run, r, c) && Hears(p, m.asked, Replies(g, Zero.Initial(g), run, r, c))
    ensures var end, (status, m') := Zero.After(g, Zero.Initial(g), run), p.Run(p.loc.Steps(), START, m);
            && status == Success && r < |end.ranks| && c < |end.ranks[r].out| && m'.work == end.ranks[r].out[c]
            && m'.asked == m.asked + |Replies(g, Zero.Initial(g), run, r, c)|
            && forall i :: 0 <= i < |m'.work| ==> m'.work[i] == g.Reduced(c, i)
  {
    hide ZeroInv.Inv, CopyingInvariant.Inv, ZeroInv.FitsDevice, Ring.TagsFit, Refinement.Abstract, Termination.Reached,
         Zero.Initial, Zero.Executable, Zero.After, Copying.Initial, Copying.Executable, Copying.After, Member, Program.Fits,
         Program.Run, Hears, Replies, RingOfPrograms.Replies;
    assert r < g.size by { MemberRank(p, g, r, c); }
    Refinement.InitialAbstract(g);
    Termination.InitialReached(g);
    RepliesAgree(g, Zero.Initial(g), run, r, c);
    Refinement.ZeroCopyRefinesCopying(g, run);
    RingOfPrograms.ProgramReturnsResult(p, g, Refinement.Moves(run), r, c, m);
  }

  lemma MemberRank<T>(p: Program<T>, g: Ring<T>, r: nat, c: nat)
    requires g.Valid() && Member(p, g, r, c)
    ensures r < g.size
  {}
}
