/** How far ranks drift apart, and how long queues get, over the copying
  transport when no block is empty. */
module CopyingSkew {
  import opened RingArithmetic
  import opened BlockLayout
  import opened Schedule
  import opened Group
  import opened CopyingRing
  import opened CopyingInvariant

  ghost function StepsBegun<T>(g: Ring<T>, s: State<T>, r: nat): int
    requires r < |s.ranks|
  {
    RingSteps(g.size, s.ranks[r].call, s.ranks[r].at.step)
  }

  /** A step a rank has behind it, its predecessor has begun. */
  lemma PredecessorBegan<T>(g: Ring<T>, s: State<T>, q: nat, c: nat, t: nat)
    requires g.Valid() && NoEmptyBlocks(g) && Inv(g, s) && q < g.size
    requires c < |g.calls| && t < 2 * (g.size - 1)
    requires var me := s.ranks[Next(g.size, q)]; c < me.call || (c == me.call && t < me.at.step)
    ensures Begun(s.ranks[q].call, s.ranks[q].at.step, c, t)
  {
    EveryBlockHasPieces(g, c, g.LocalOf(Next(g.size, q), c).RecvBlock(t));
    OneHop(g, s, q, c, t);
    hide Inv, NoEmptyBlocks;
  }

  lemma PlaceWithin<T>(g: Ring<T>, s: State<T>, r: nat)
    requires g.Valid() && Inv(g, s) && r < g.size
    ensures var me := s.ranks[r];
            me.at.step <= 2 * (g.size - 1) && me.call <= |g.calls| && (me.call == |g.calls| ==> me.at.step == 0)
  {
    assert RankOk(g, r, s.ranks[r]);
    hide BufferOk, ReadyOk, ResultsOk;
  }

  /** A rank is at most one step ahead of its predecessor. */
  lemma NeighbourSkew<T>(g: Ring<T>, s: State<T>, q: nat)
    requires g.Valid() && NoEmptyBlocks(g) && Inv(g, s) && q < g.size
    ensures StepsBegun(g, s, Next(g.size, q)) <= StepsBegun(g, s, q) + 1
  {
    hide Inv, NoEmptyBlocks, RingSteps, Begun;
    SizesOk(g, s);
    PlaceWithin(g, s, Next(g.size, q));
    var me, S := s.ranks[Next(g.size, q)], 2 * (g.size - 1);
    if g.size > 1 {
      if me.at.step > 0 {
        PredecessorBegan(g, s, q, me.call, me.at.step - 1);
      } else if me.call > 0 {
        PredecessorBegan(g, s, q, me.call - 1, S - 1);
      }
      OneAhead(g.size, me.call, me.at.step, s.ranks[q].call, s.ranks[q].at.step);
    }
  }

  /** No rank is ever more than `size - 1` steps ahead of any other. */
  lemma {:induction false} Skew<T>(g: Ring<T>, s: State<T>, b: nat, d: nat)
    requires g.Valid() && NoEmptyBlocks(g) && Inv(g, s) && b < g.size && d < g.size
    ensures StepsBegun(g, s, Forward(g.size, b, d)) <= StepsBegun(g, s, b) + d
  {
    hide Inv, NoEmptyBlocks, RingSteps;
    SizesOk(g, s);
    if d > 0 {
      Skew(g, s, b, d - 1);
      NeighbourSkew(g, s, Forward(g.size, b, d - 1));
      assert Next(g.size, Forward(g.size, b, d - 1)) == Forward(g.size, b, d);
    }
  }

  // --- queue length -----------------------------------------------------------

  /** A message posted and not taken is between its receiver and its sender. */
  lemma InFlight<T>(g: Ring<T>, q: nat, sender: Rank<T>, me: Rank<T>, id: Id)
    requires g.Valid() && q < g.size && g.IdOk(Next(g.size, q), id)
    requires g.Posted(q, sender.call, sender.at, id) && !Got(g, Next(g.size, q), me, id)
    ensures me.call < id.call || (me.call == id.call && me.at.step <= id.step)
    ensures id.call < sender.call || (id.call == sender.call && id.step <= sender.at.step)
  {}

  /** Every queued message belongs to one of `size` consecutive steps, counted
    from the one its receiver is in. */
  lemma QueueWindow<T>(g: Ring<T>, s: State<T>, q: nat, j: nat)
    requires g.Valid() && NoEmptyBlocks(g) && Inv(g, s) && q < g.size && j < |s.queues[Next(g.size, q)]|
    ensures var id := s.queues[Next(g.size, q)][j].id;
            0 <= RingSteps(g.size, id.call, id.step) - StepsBegun(g, s, Next(g.size, q)) < g.size
  {
    var r := Next(g.size, q);
    var me, sender, id := s.ranks[r], s.ranks[q], s.queues[r][j].id;
    assert RankOk(g, r, me);
    assert MessageOk(g, r, s.queues[r][j]);
    InFlight(g, q, sender, me, id);
    Skew(g, s, r, g.size - 1);
    assert Forward(g.size, r, g.size - 1) == q;
    assert me.at.step <= 2 * (g.size - 1) && id.step <= 2 * (g.size - 1);
    hide Inv, RankOk, MessageOk;
    StepOrder(g.size, me.call, me.at.step, id.call, id.step);
    StepOrder(g.size, id.call, id.step, sender.call, sender.at.step);
  }

  ghost function Code(size: nat, from: int, m: nat, id: Id): int {
    (RingSteps(size, id.call, id.step) - from) * m + id.piece
  }

  ghost function Codes<T>(size: nat, from: int, m: nat, queue: seq<Message<T>>): (codes: seq<int>)
    ensures |codes| == |queue| && forall j :: 0 <= j < |codes| ==> codes[j] == Code(size, from, m, queue[j].id)
  {
    if queue == [] then [] else Codes(size, from, m, queue[..|queue| - 1]) + [Code(size, from, m, queue[|queue| - 1].id)]
  }

  lemma CodesDistinct(size: nat, from: int, m: nat, id: Id, id': Id)
    requires size > 1 && id.piece < m && id'.piece < m && id.step < 2 * (size - 1) && id'.step < 2 * (size - 1)
    requires RingSteps(size, id.call, id.step) >= from && RingSteps(size, id'.call, id'.step) >= from
    requires Code(size, from, m, id) == Code(size, from, m, id')
    ensures id == id'
  {
    var S, a, b := 2 * (size - 1), RingSteps(size, id.call, id.step), RingSteps(size, id'.call, id'.step);
    assert a == b by {
      Positional(a - from, id.piece, b - from, id'.piece, m);
    }
    Positional(id.call, id.step, id'.call, id'.step, S);
  }

  lemma Positional(hi: nat, lo: nat, hi': nat, lo': nat, m: nat)
    requires lo < m && lo' < m && hi * m + lo == hi' * m + lo'
    ensures hi == hi' && lo == lo'
  {
    DivUnique(hi * m + lo, hi, m);
    DivUnique(hi' * m + lo', hi', m);
  }

  lemma CodeInRange(size: nat, steps: nat, m: nat, piece: nat)
    requires steps < size && piece < m
    ensures 0 <= steps * m + piece < size * m
  {
    MulMonotone(steps + 1, size, m);
    MulMonotone(steps, steps, m);
  }

  lemma MessageAt<T>(g: Ring<T>, s: State<T>, q: nat, j: nat)
    requires g.Valid() && Inv(g, s) && q < g.size && j < |s.queues[Next(g.size, q)]|
    ensures |s.ranks| == |s.queues| == g.size && g.IdOk(Next(g.size, q), s.queues[Next(g.size, q)][j].id)
  {
    assert MessageOk(g, Next(g.size, q), s.queues[Next(g.size, q)][j]);
    hide RankOk, Carries, Ring.IdOk;
  }

  /** The place of queued message `j` among the pieces of the window. */
  lemma QueueEntry<T>(g: Ring<T>, s: State<T>, q: nat, m: nat, j: nat)
    requires g.Valid() && NoEmptyBlocks(g) && Inv(g, s) && q < g.size && j < |s.queues[Next(g.size, q)]|
    requires forall c, b :: 0 <= c < |g.calls| && 0 <= b < g.size ==> g.ShapeOf(c).Pieces(b) <= m
    ensures var r, id := Next(g.size, q), s.queues[Next(g.size, q)][j].id;
            && 0 <= Code(g.size, StepsBegun(g, s, r), m, id) < g.size * m
            && id.piece < m && id.step < 2 * (g.size - 1)
            && RingSteps(g.size, id.call, id.step) >= StepsBegun(g, s, r)
  {
    hide Inv, NoEmptyBlocks, Shape.Pieces, MessageOk, RingSteps;
    QueueWindow(g, s, q, j);
    MessageAt(g, s, q, j);
    var r, id := Next(g.size, q), s.queues[Next(g.size, q)][j].id;
    assert g.ShapeOf(id.call).Pieces(g.LocalOf(r, id.call).RecvBlock(id.step)) <= m;
    CodeInRange(g.size, RingSteps(g.size, id.call, id.step) - StepsBegun(g, s, r), m, id.piece);
  }

  lemma QueueEntriesDiffer<T>(g: Ring<T>, s: State<T>, q: nat, m: nat, j: nat, k: nat)
    requires g.Valid() && NoEmptyBlocks(g) && Inv(g, s) && q < g.size && j < k < |s.queues[Next(g.size, q)]|
    requires forall c, b :: 0 <= c < |g.calls| && 0 <= b < g.size ==> g.ShapeOf(c).Pieces(b) <= m
    ensures var r := Next(g.size, q);
            Code(g.size, StepsBegun(g, s, r), m, s.queues[r][j].id)
            != Code(g.size, StepsBegun(g, s, r), m, s.queues[r][k].id)
  {
    var r := Next(g.size, q);
    var id, id' := s.queues[r][j].id, s.queues[r][k].id;
    assert LinkOk(g, q, s.ranks[q], s.ranks[r], s.queues[r]);
    assert id != id';
    QueueEntry(g, s, q, m, j);
    QueueEntry(g, s, q, m, k);
    hide Inv, LinkOk, NoEmptyBlocks, Shape.Pieces, RingSteps, Code, StepsBegun;
    if Code(g.size, StepsBegun(g, s, r), m, id) == Code(g.size, StepsBegun(g, s, r), m, id') {
      CodesDistinct(g.size, StepsBegun(g, s, r), m, id, id');
    }
  }

  /** A queue never holds more than `size` steps' worth of pieces. */
  lemma QueueBound<T>(g: Ring<T>, s: State<T>, q: nat, m: nat)
    requires g.Valid() && NoEmptyBlocks(g) && Inv(g, s) && q < g.size
    requires forall c, b :: 0 <= c < |g.calls| && 0 <= b < g.size ==> g.ShapeOf(c).Pieces(b) <= m
    ensures |s.queues[Next(g.size, q)]| <= g.size * m
  {
    hide Inv, NoEmptyBlocks, Shape.Pieces, RingSteps, Code, Codes, StepsBegun;
    var r := Next(g.size, q);
    assert |s.ranks| == |s.queues| == g.size by { SizesOk(g, s); }
    var codes := Codes(g.size, StepsBegun(g, s, r), m, s.queues[r]);
    forall j | 0 <= j < |codes|
      ensures 0 <= codes[j] < g.size * m
    {
      QueueEntry(g, s, q, m, j);
    }
    forall j, k | 0 <= j < k < |codes|
      ensures codes[j] != codes[k]
    {
      QueueEntriesDiffer(g, s, q, m, j, k);
    }
    Pigeonhole(codes, g.size * m);
  }

  lemma SizesOk<T>(g: Ring<T>, s: State<T>)
    requires g.Valid() && Inv(g, s)
    ensures |s.ranks| == |s.queues| == g.size
  {}

  lemma {:induction false} Pigeonhole(xs: seq<int>, n: nat)
    requires forall j :: 0 <= j < |xs| ==> 0 <= xs[j] < n
    requires forall j, k :: 0 <= j < k < |xs| ==> xs[j] != xs[k]
    ensures |xs| <= n
  {
    if n == 0 {
      if xs != [] {
        HeadIsMember(xs);
        assert false;
      }
    } else if j :| 0 <= j < |xs| && xs[j] == n - 1 {
      Pigeonhole(Without(xs, j), n - 1);
    } else {
      Pigeonhole(xs, n - 1);
    }
  }

  lemma HeadIsMember(xs: seq<int>)
    requires xs != []
    ensures xs[0] in xs
  {}
}
