/** The engine of one rank over the ring: the imperative call, answered by
  either ring, returns the ring fold of all inputs. */
module RingEngine {
  import opened RingArithmetic
  import opened BlockLayout
  import opened Tags
  import opened Schedule
  import opened Group
  import opened Reduction
  import opened RankProgram
  import opened ProgramFacts
  import opened Engine
  import opened RingOfPrograms
  import Copying = CopyingRing
  import Zero = ZeroCopyRing
  import ZeroInv = ZeroCopyInvariant
  import ZeroCopyPrograms

  /** The context is that of rank `context.rank` of the group, about to make
    its call `c` with these arguments. */
  ghost predicate Joins<T(0)>(context: Context<T>, g: Ring<T>, c: nat, input: seq<T>, kind: Datatype, operation: Operation)
    requires g.Valid()
    reads context
  {
    && context.worldSize == g.size && context.rank < g.size && c < |g.calls| && context.sequence == c % 0x1_0000_0000
    && context.config.pieceBytes == g.pieceBytes && context.config.maxInflight == g.capacities[context.rank]
    && !kind.OtherDatatype? && DatatypeSize(kind) == g.calls[c].elementSize
    && !operation.OtherOperation? && context.arithmetic.Kernel(operation) == g.calls[c].op
    && input == g.calls[c].input[context.rank]
  }

  lemma NextSequence(c: nat)
    ensures (c % 0x1_0000_0000 + 1) % 0x1_0000_0000 == (c + 1) % 0x1_0000_0000
  {}

  /** The program succeeds after `calls` transport calls with this buffer. */
  ghost predicate Yields<T>(p: Program<T>, m: Machine<T>, calls: nat, result: seq<T>) {
    && p.Valid() && p.loc.CursorOk(START) && p.Fits(START, m)
    && var (status, m') := p.Run(p.loc.Steps(), START, m);
       status == Success && m'.work == result && m'.asked == m.asked + calls
  }

  ghost predicate IsFold<T>(g: Ring<T>, c: nat, result: seq<T>)
    requires g.Valid() && c < |g.calls|
  {
    |result| == g.calls[c].count && forall i :: 0 <= i < |result| ==> result[i] == g.Reduced(c, i)
  }

  /** The machine a call of this context starts with. */
  ghost function Prepared<T(0)>(context: Context<T>, input: seq<T>, kind: Datatype, operation: Operation): Machine<T>
    requires context.Valid() && !kind.OtherDatatype?
    reads context, context.port, context.temporary
  {
    context.Starting(input, []).(
      temp := context.Resized(context.temporary[..], context.Following(|input|, kind, operation).loc.shape.MaxBlockCount()))
  }

  /** A call whose program succeeds, succeeds likewise. */
  method AllReduceAnswered<T(0)>(context: Context<T>, send: array<T>, receive: array<T>, kind: Datatype, operation: Operation,
                                 ghost calls: nat, ghost result: seq<T>)
    returns (status: Status)
    requires context.Valid() && !kind.OtherDatatype? && send.Length == receive.Length > 0
    requires send != context.temporary && receive != context.temporary
    requires Yields(context.Following(send.Length, kind, operation), Prepared(context, send[..], kind, operation), calls, result)
    modifies context`counts, context`offsets, context`temporary, context`sequence, context.port, receive, context.temporary
    ensures context.Valid() && status == Success && receive[..] == result
    ensures context.sequence == (old(context.sequence) + 1) % 0x1_0000_0000
    ensures context.port.asked == old(context.port.asked) + calls
  {
    ghost var p, m := context.Following(send.Length, kind, operation), Prepared(context, send[..], kind, operation);
    hide Program.Run, Program.Fits, Local.CursorOk;
    status := context.AllReduce(send, receive, send.Length, kind, operation);
    assert context.Outcome(p, p.loc.Steps(), START, m, status, receive);
  }

  lemma CopyingYields<T>(p: Program<T>, g: Ring<T>, schedule: seq<nat>, r: nat, c: nat, m: Machine<T>)
    requires g.Valid() && g.TagsFit() && Copying.Executable(g, Copying.Initial(g), schedule)
    requires Member(p, g, r, c) && p.Valid() && p.Fits(START, m) && m.work == g.calls[c].input[r]
    requires Leaves(g, Copying.Initial(g), schedule, r, c)
    requires Hears(p, m.asked, Replies(g, Copying.Initial(g), schedule, r, c))
    ensures r < |Copying.After(g, Copying.Initial(g), schedule).ranks|
    ensures var out := Copying.After(g, Copying.Initial(g), schedule).ranks[r].out;
            && c < |out| && IsFold(g, c, out[c])
            && Yields(p, m, |Replies(g, Copying.Initial(g), schedule, r, c)|, out[c])
  {
    ProgramReturnsResult(p, g, schedule, r, c, m);
    hide Ring.TagsFit, Hears, Leaves, Replies, Copying.Executable, Copying.After, Copying.Initial, Program.Fits;
  }

  lemma ZeroCopyYields<T>(p: Program<T>, g: Ring<T>, run: seq<Zero.Label>, r: nat, c: nat, m: Machine<T>)
    requires g.Valid() && g.TagsFit() && ZeroInv.FitsDevice(g) && Zero.Executable(g, Zero.Initial(g), run)
    requires Member(p, g, r, c) && p.Valid() && p.Fits(START, m) && m.work == g.calls[c].input[r]
    requires ZeroCopyPrograms.Leaves(g, run, r, c)
    requires Hears(p, m.asked, ZeroCopyPrograms.Replies(g, Zero.Initial(g), run, r, c))
    ensures r < |Zero.After(g, Zero.Initial(g), run).ranks|
    ensures var out := Zero.After(g, Zero.Initial(g), run).ranks[r].out;
            && c < |out| && IsFold(g, c, out[c])
            && Yields(p, m, |ZeroCopyPrograms.Replies(g, Zero.Initial(g), run, r, c)|, out[c])
  {
    ZeroCopyPrograms.ProgramReturnsResult(p, g, run, r, c, m);
    hide Ring.TagsFit, ZeroInv.FitsDevice, Hears, ZeroCopyPrograms.Leaves, ZeroCopyPrograms.Replies, Zero.Executable,
         Zero.After, Zero.Initial, Program.Fits;
  }

  lemma PreparedFits<T(0)>(context: Context<T>, g: Ring<T>, c: nat, input: seq<T>, kind: Datatype, operation: Operation)
    requires g.Valid() && context.Valid() && Joins(context, g, c, input, kind, operation)
    ensures Member(context.Following(|input|, kind, operation), g, context.rank, c) && |input| > 0
    ensures var p, m := context.Following(|input|, kind, operation), Prepared(context, input, kind, operation);
            p.Fits(START, m) && m.work == g.calls[c].input[context.rank] && m.asked == context.port.asked
  {}

  /** The all-reduce of one rank, composed with the ring: for every
    interleaving in which the ring's rank returns from the call, the engine
    given the same answers succeeds with the same buffer, the fold of all
    inputs, and is ready for the next call. */
  method AllReduceOverRing<T(0)>(context: Context<T>, send: array<T>, receive: array<T>, kind: Datatype, operation: Operation,
                                 ghost g: Ring<T>, ghost schedule: seq<nat>, ghost c: nat)
    returns (status: Status)
    requires g.Valid() && g.TagsFit() && context.Valid() && Joins(context, g, c, send[..], kind, operation)
    requires send.Length == receive.Length && send != context.temporary && receive != context.temporary
    requires Copying.Executable(g, Copying.Initial(g), schedule) && Leaves(g, Copying.Initial(g), schedule, context.rank, c)
    requires Hears(context.Following(send.Length, kind, operation), context.port.asked,
                   Replies(g, Copying.Initial(g), schedule, context.rank, c))
    modifies context`counts, context`offsets, context`temporary, context`sequence, context.port, receive, context.temporary
    ensures context.Valid() && status == Success && IsFold(g, c, receive[..])
    ensures var ranks := Copying.After(g, Copying.Initial(g), schedule).ranks;
            context.rank < |ranks| && c < |ranks[context.rank].out| && receive[..] == ranks[context.rank].out[c]
    ensures context.sequence == (c + 1) % 0x1_0000_0000
    ensures context.port.asked == old(context.port.asked) + |Replies(g, Copying.Initial(g), schedule, context.rank, c)|
  {
    hide Program.Run, Program.Fits, Program.Valid, Member, Hears, Leaves, Replies, Copying.Executable, Copying.After,
         Copying.Initial, Yields, IsFold, Prepared, Ring.TagsFit;
    PreparedFits(context, g, c, send[..], kind, operation);
    NextSequence(c);
    CopyingYields(context.Following(send.Length, kind, operation), g, schedule, context.rank, c,
                  Prepared(context, send[..], kind, operation));
    status := AllReduceAnswered(context, send, receive, kind, operation,
                                |Replies(g, Copying.Initial(g), schedule, context.rank, c)|,
                                Copying.After(g, Copying.Initial(g), schedule).ranks[context.rank].out[c]);
  }

  /** The same over the zero-copy ring, answered with what the network did. */
  method AllReduceOverZeroCopy<T(0)>(context: Context<T>, send: array<T>, receive: array<T>, kind: Datatype,
                                     operation: Operation, ghost g: Ring<T>, ghost run: seq<Zero.Label>, ghost c: nat)
    returns (status: Status)
    requires g.Valid() && g.TagsFit() && ZeroInv.FitsDevice(g) && context.Valid()
    requires Joins(context, g, c, send[..], kind, operation)
    requires send.Length == receive.Length && send != context.temporary && receive != context.temporary
    requires Zero.Executable(g, Zero.Initial(g), run) && ZeroCopyPrograms.Leaves(g, run, context.rank, c)
    requires Hears(context.Following(send.Length, kind, operation), context.port.asked,
                   ZeroCopyPrograms.Replies(g, Zero.Initial(g), run, context.rank, c))
    modifies context`counts, context`offsets, context`temporary, context`sequence, context.port, receive, context.temporary
    ensures context.Valid() && status == Success && IsFold(g, c, receive[..])
    ensures var ranks := Zero.After(g, Zero.Initial(g), run).ranks;
            context.rank < |ranks| && c < |ranks[context.rank].out| && receive[..] == ranks[context.rank].out[c]
    ensures context.sequence == (c + 1) % 0x1_0000_0000
    ensures context.port.asked
            == old(context.port.asked) + |ZeroCopyPrograms.Replies(g, Zero.Initial(g), run, context.rank, c)|
  {
    hide Program.Run, Program.Fits, Program.Valid, Member, Hears, ZeroCopyPrograms.Leaves, ZeroCopyPrograms.Replies,
         Zero.Executable, Zero.After, Zero.Initial, Yields, IsFold, Prepared, Ring.TagsFit, ZeroInv.FitsDevice;
    PreparedFits(context, g, c, send[..], kind, operation);
    NextSequence(c);
    ZeroCopyYields(context.Following(send.Length, kind, operation), g, run, context.rank, c,
                   Prepared(context, send[..], kind, operation));
    status := AllReduceAnswered(context, send, receive, kind, operation,
                                |ZeroCopyPrograms.Replies(g, Zero.Initial(g), run, context.rank, c)|,
                                Zero.After(g, Zero.Initial(g), run).ranks[context.rank].out[c]);
  }
}
