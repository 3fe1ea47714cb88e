/** The collective engine of one rank: its context and the loops of its calls,
  each proved to do what the program of the rank says. */
module Engine {
  import opened RingArithmetic
  import opened BlockLayout
  import opened Buffers
  import opened Tags
  import opened Schedule
  import opened Group
  import opened Reduction
  import opened RankProgram
  import Traffic

  /** The transport as the engine uses it. What it will answer is not known to
    the engine; every request and every finished wait is recorded. */
  class Port<T> {
    const answers: nat -> Answer<T>
    var posts: seq<Post>
    var waited: seq<nat>
    var asked: nat

    constructor (answers: nat -> Answer<T>)
      ensures this.answers == answers && posts == [] && waited == [] && asked == 0
    {
      this.answers := answers;
      posts, waited, asked := [], [], 0;
    }

    /** A request accepted gets the next number; one refused leaves nothing. */
    method Submit(post: Post) returns (ok: bool, request: nat)
      modifies this
      ensures ok == answers(old(asked)).Done? && asked == old(asked) + 1 && waited == old(waited)
      ensures posts == if ok then old(posts) + [post] else old(posts)
      ensures ok ==> request == |old(posts)|
    {
      ok, request := answers(asked).Done?, |posts|;
      asked := asked + 1;
      if ok { posts := posts + [post]; }
    }

    /** Blocks until the request is done; a receive has then been filled. */
    method Wait(request: nat) returns (ok: bool)
      modifies this
      ensures ok == answers(old(asked)).Done? && asked == old(asked) + 1 && posts == old(posts)
      ensures waited == if ok then old(waited) + [request] else old(waited)
    {
      ok := answers(asked).Done?;
      asked := asked + 1;
      if ok { waited := waited + [request]; }
    }

    method WaitFilled(request: nat, region: array<T>, lo: nat, n: nat) returns (ok: bool)
      requires lo + n <= region.Length
      modifies this, region
      ensures ok == answers(old(asked)).Done? && asked == old(asked) + 1 && posts == old(posts)
      ensures waited == if ok then old(waited) + [request] else old(waited)
      ensures region[..] == if ok then Overwrite(old(region[..]), lo, Filled(answers(old(asked)).data, n))
                            else old(region[..])
    {
      var answer := answers(asked);
      ok := Wait(request);
      if ok {
        ghost var before := region[..];
        for j := 0 to n
          modifies region
          invariant forall i :: 0 <= i < region.Length ==>
                      region[i] == if lo <= i < lo + j then answer.data(i - lo) else before[i]
        {
          region[lo + j] := answer.data(j);
        }
        IsOverwrite(before, region[..], lo, Filled(answer.data, n));
      }
    }
  }

  /** A request of the current batch and the part of its block it is for. */
  datatype PostedRequest = PostedRequest(request: nat, piece: nat, offset: nat, count: nat)

  function Requests(posted: seq<PostedRequest>): (ids: seq<nat>)
    ensures |ids| == |posted| && forall k :: 0 <= k < |ids| ==> ids[k] == posted[k].request
  {
    seq(|posted|, k requires 0 <= k < |posted| => posted[k].request)
  }

  const DEFAULT_MAX_INFLIGHT: nat := 4
  const MAX_INFLIGHT_LIMIT: nat := 1024

  datatype Option<+T> = None | Some(value: T)

  datatype Config = Config(pieceBytes: nat, maxInflight: nat, mode: Mode)

  /** What one step of a phase sends and receives, as its loop head works it out. */
  datatype Plan = Plan(gather: bool, step: nat, sendBlock: nat, recvBlock: nat, sendCount: nat, recvCount: nat,
                       sendPieces: nat, recvPieces: nat)

  /** `posts` are `before` and then sends and receives of so many values, in
    bytes that have room for exactly that many. */
  ghost predicate ValuesPosted(kind: Datatype, before: seq<Post>, posts: seq<Post>, sent: nat, received: nat) {
    && 8 * (Traffic.SentBytes(posts) - Traffic.SentBytes(before)) == sent * Width(kind)
    && 8 * (Traffic.ReceivedBytes(posts) - Traffic.ReceivedBytes(before)) == received * Width(kind)
  }

  lemma BytesOfValues(kind: Datatype, before: seq<Post>, posts: seq<Post>, sent: nat, received: nat)
    requires Traffic.Moved(before, posts, DatatypeSize(kind), sent, received)
    ensures ValuesPosted(kind, before, posts, sent, received)
  {
    hide Traffic.SentBytes, Traffic.ReceivedBytes;
    SizeHoldsValues(kind);
    assert sent * Width(kind) == 8 * (sent * DatatypeSize(kind));
    assert received * Width(kind) == 8 * (received * DatatypeSize(kind));
  }

  class Context<T(0)> {
    const port: Port<T>
    const config: Config
    const rank: nat
    const worldSize: nat
    const zero: T
    const arithmetic: Arithmetic<T>
    var counts: seq<nat>
    var offsets: seq<nat>
    var temporary: array<T>
    var sequence: nat

    /** Missing or zero parameters take their defaults, and no more than 1024
      requests are kept in flight. */
    constructor (port: Port<T>, config: Option<Config>, rank: nat, worldSize: nat, zero: T, arithmetic: Arithmetic<T>)
      requires rank < worldSize
      ensures Valid() && fresh(temporary) && sequence == 0
      ensures this.port == port && this.rank == rank && this.worldSize == worldSize && this.zero == zero
      ensures this.arithmetic == arithmetic
      ensures this.config.pieceBytes == if config.None? || config.value.pieceBytes == 0 then 65536
                                        else config.value.pieceBytes
      ensures this.config.maxInflight == if config.None? || config.value.maxInflight == 0 then 4
                                         else Min(config.value.maxInflight, 1024)
      ensures this.config.mode == if config.None? then Auto else config.value.mode
      ensures 1 <= this.config.maxInflight <= 1024 && this.config.pieceBytes >= 1
    {
      this.port, this.rank, this.worldSize, this.zero, this.arithmetic := port, rank, worldSize, zero, arithmetic;
      this.config := Config(
        if config.None? || config.value.pieceBytes == 0 then DEFAULT_PIECE_BYTES else config.value.pieceBytes,
        if config.None? || config.value.maxInflight == 0 then DEFAULT_MAX_INFLIGHT
        else Min(config.value.maxInflight, MAX_INFLIGHT_LIMIT),
        if config.None? then Auto else config.value.mode);
      counts, offsets, sequence := [], [], 0;
      temporary := new T[0];
    }

    ghost predicate Valid()
      reads this
    {
      rank < worldSize && config.maxInflight >= 1 && sequence < 0x1_0000_0000
    }

    ghost predicate LayoutOk(count: nat)
      requires worldSize > 0
      reads this`counts, this`offsets
    {
      && |counts| == |offsets| == worldSize
      && (forall b :: 0 <= b < worldSize ==> counts[b] == BlockCount(worldSize, count, b))
      && (forall b :: 0 <= b < worldSize ==> offsets[b] == BlockOffset(worldSize, count, b))
    }

    /** The program a call of this rank follows. */
    ghost function Following(count: nat, kind: Datatype, operation: Operation): (p: Program<T>)
      requires Valid() && !kind.OtherDatatype?
      reads this
      ensures p.Valid() && p.loc.shape.count == count && p.loc.shape.size == worldSize && p.loc.rank == rank
    {
      var size := DatatypeSize(kind);
      Program(Local(Shape(worldSize, count, PieceElementsFor(config.pieceBytes, size)), rank, config.maxInflight),
              size, config.mode, sequence, operation, arithmetic, port.answers)
    }

    /** Buffers, port and the requests of a batch as the program's state. */
    ghost function View(work: array<T>, receives: seq<PostedRequest>, sends: seq<PostedRequest>): Machine<T>
      reads this, work, temporary, port
    {
      Machine(work[..], temporary[..], port.posts, port.waited, port.asked, Requests(receives), Requests(sends))
    }

    // --- the loops of a batch ---------------------------------------------------------------

    /** The machine as far as the caller can see it when a phase ends. */
    ghost predicate Shows(m: Machine<T>, work: array<T>)
      reads this, work, temporary, port
    {
      && m.work == work[..] && m.temp == temporary[..]
      && m.posts == port.posts && m.waited == port.waited && m.asked == port.asked
    }

    /** The plan and the tables agree with the schedule of step `s`. */
    ghost predicate PlanOk(p: Program<T>, plan: Plan, s: nat)
      requires Valid()
      reads this
    {
      && p.Valid() && s < p.loc.Steps()
      && p.loc.shape.size == worldSize && p.loc.rank == rank && p.loc.capacity == config.maxInflight
      && p.mode == config.mode && p.sequence == sequence && p.answers == port.answers && p.arithmetic == arithmetic
      && LayoutOk(p.loc.shape.count)
      && plan.gather == p.loc.Gathering(s) && plan.step == p.loc.PhaseStep(s)
      && plan.sendBlock == p.loc.SendBlock(s) && plan.recvBlock == p.loc.RecvBlock(s)
      && plan.sendCount == p.loc.shape.Count(plan.sendBlock) && plan.recvCount == p.loc.shape.Count(plan.recvBlock)
      && plan.sendPieces == p.loc.SendPieces(s) && plan.recvPieces == p.loc.RecvPieces(s)
    }

    ghost predicate ReceivesOk(p: Program<T>, s: nat, begin: nat, receives: seq<PostedRequest>)
      requires p.Valid()
    {
      forall k :: 0 <= k < |receives| ==>
        && begin + k < p.loc.RecvPieces(s) && receives[k].piece == begin + k
        && receives[k].offset == p.loc.shape.Start(begin + k) && receives[k].count == p.loc.RecvLength(s, begin + k)
    }

    /** Offsets and lengths as the loops compute them. */
    lemma ReceiveArithmetic(p: Program<T>, plan: Plan, s: nat, piece: nat)
      requires Valid() && PlanOk(p, plan, s) && piece < plan.recvPieces
      ensures var offset, n := piece * p.loc.shape.pieceElements, p.loc.RecvLength(s, piece);
              && 1 <= n == Min(p.loc.shape.pieceElements, plan.recvCount - offset)
              && 0 <= offset == p.loc.shape.Start(piece) && offset + n <= p.loc.shape.MaxBlockCount()
              && plan.recvBlock < |offsets| && p.loc.RecvFirst(s, piece) == offsets[plan.recvBlock] + offset
              && offsets[plan.recvBlock] + offset + n <= p.loc.shape.count
    {
      p.loc.shape.PieceInside(plan.recvBlock, piece);
    }

    lemma SendArithmetic(p: Program<T>, plan: Plan, s: nat, piece: nat)
      requires Valid() && PlanOk(p, plan, s) && piece < plan.sendPieces
      ensures var offset, n := piece * p.loc.shape.pieceElements, p.loc.SendLength(s, piece);
              && 1 <= n == Min(p.loc.shape.pieceElements, plan.sendCount - offset)
              && 0 <= offset && plan.sendBlock < |offsets| && p.loc.SendFirst(s, piece) == offsets[plan.sendBlock] + offset
    {}

    /** A batch of step `s` from piece `begin` on is being worked on. */
    ghost predicate InBatch(p: Program<T>, end: nat, plan: Plan, s: nat, begin: nat)
      reads this
    {
      Valid() && PlanOk(p, plan, s) && s < end <= p.loc.Steps() && begin < Max(plan.sendPieces, plan.recvPieces)
    }

    /** The part of the call that is over left things as the program says: the
      run goes on from `c`, or it has failed with `status`. */
    ghost predicate Follows(p: Program<T>, end: nat, result: (Status, Machine<T>), status: Status, c: Cursor,
                            work: array<T>, receives: seq<PostedRequest>, sends: seq<PostedRequest>)
      reads this, work, temporary, port
    {
      if status == Success then p.At(end, result, c, View(work, receives, sends))
      else result.0 == status && Shows(result.1, work)
    }

    method PostReceives(ghost p: Program<T>, ghost end: nat, ghost result: (Status, Machine<T>), ghost s: nat, plan: Plan,
                        elementSize: nat, pieceElements: nat, begin: nat, work: array<T>)
      returns (status: Status, receives: seq<PostedRequest>)
      requires InBatch(p, end, plan, s, begin)
      requires elementSize == p.elementSize && pieceElements == p.loc.shape.pieceElements
      requires p.At(end, result, Cursor(s, begin, Stage.PostReceives, begin), View(work, [], []))
      modifies port
      ensures status == Success ==> ReceivesOk(p, s, begin, receives)
      ensures Follows(p, end, result, status, Cursor(s, begin, Stage.PostSends, begin), work, receives, [])
    {
      hide Program.At, Program.Act, Program.Fits, Program.Run, Local.CursorOk, Local.Acting, Local.RecvPieces, Local.SendPieces,
           Local.RecvLength, Local.RecvFirst, Local.RecvBlock, Local.SendBlock, Shape.Count, Shape.Pieces, LayoutOk, MakeTag, Shape.Start,
           Local.Gathering, Local.PhaseStep;
      receives := [];
      var piece := begin;
      while piece < Min(begin + config.maxInflight, plan.recvPieces)
        invariant begin <= piece <= begin + config.maxInflight
        invariant |receives| == piece - begin && ReceivesOk(p, s, begin, receives)
        invariant p.At(end, result, Cursor(s, begin, Stage.PostReceives, piece), View(work, receives, []))
      {
        ghost var c, m := Cursor(s, begin, Stage.PostReceives, piece), View(work, receives, []);
        p.AtIteration(end, result, s, begin, Stage.PostReceives, piece, m);
        ReceiveArithmetic(p, plan, s, piece);
        var offset := piece * pieceElements;
        var elements := Min(pieceElements, plan.recvCount - offset);
        var tag := MakeTag(sequence, plan.gather, plan.step, piece);
        var region := if plan.gather then Region(false, offsets[plan.recvBlock] + offset, elements)
                      else Region(true, offset, elements);
        p.PostReceiveIs(c, m, tag, region);
        if tag.OutOfRange? {
          return TagRange, receives;
        }
        var ok, request := port.Submit(ReceivePost(tag.tag, region, elements * elementSize, config.mode));
        if !ok {
          return Transport, receives;
        }
        receives := receives + [PostedRequest(request, piece, offset, elements)];
        assert View(work, receives, []) == p.Act(c, m).1;
        piece := piece + 1;
      }
      p.AtLoopEnd(end, result, s, begin, Stage.PostReceives, piece, View(work, receives, []));
      status := Success;
    }

    method PostSends(ghost p: Program<T>, ghost end: nat, ghost result: (Status, Machine<T>), ghost s: nat, plan: Plan,
                     elementSize: nat, pieceElements: nat, begin: nat, work: array<T>, ghost receives: seq<PostedRequest>)
      returns (status: Status, sends: seq<PostedRequest>)
      requires InBatch(p, end, plan, s, begin)
      requires elementSize == p.elementSize && pieceElements == p.loc.shape.pieceElements
      requires p.At(end, result, Cursor(s, begin, Stage.PostSends, begin), View(work, receives, []))
      modifies port
      ensures Follows(p, end, result, status, Cursor(s, begin, Stage.WaitReceives, begin), work, receives, sends)
    {
      hide Program.At, Program.Act, Local.CursorOk, Local.Acting, Local.RecvPieces, Local.SendPieces, Local.SendLength,
           Local.SendFirst, LayoutOk;
      sends := [];
      var piece := begin;
      while piece < Min(begin + config.maxInflight, plan.sendPieces)
        invariant begin <= piece <= begin + config.maxInflight
        invariant p.At(end, result, Cursor(s, begin, Stage.PostSends, piece), View(work, receives, sends))
      {
        ghost var c, m := Cursor(s, begin, Stage.PostSends, piece), View(work, receives, sends);
        p.AtIteration(end, result, s, begin, Stage.PostSends, piece, m);
        SendArithmetic(p, plan, s, piece);
        var offset := piece * pieceElements;
        var elements := Min(pieceElements, plan.sendCount - offset);
        var tag := MakeTag(sequence, plan.gather, plan.step, piece);
        var first := offsets[plan.sendBlock] + offset;
        p.PostSendIs(c, m, tag, first, elements);
        if tag.OutOfRange? {
          return TagRange, sends;
        }
        var ok, request := port.Submit(SendPost(tag.tag, first, elements * elementSize, config.mode));
        if !ok {
          return Transport, sends;
        }
        sends := sends + [PostedRequest(request, piece, offset, elements)];
        assert View(work, receives, sends) == p.Act(c, m).1;
        piece := piece + 1;
      }
      p.AtLoopEnd(end, result, s, begin, Stage.PostSends, piece, View(work, receives, sends));
      status := Success;
    }

    method WaitReceives(ghost p: Program<T>, ghost end: nat, ghost result: (Status, Machine<T>), ghost s: nat, plan: Plan,
                        ghost begin: nat, work: array<T>, receives: seq<PostedRequest>, ghost sends: seq<PostedRequest>,
                        kind: Datatype, operation: Operation)
      returns (status: Status)
      requires InBatch(p, end, plan, s, begin) && work != temporary
      requires !kind.OtherDatatype? && (!plan.gather ==> operation == p.operation)
      requires ReceivesOk(p, s, begin, receives)
      requires p.At(end, result, Cursor(s, begin, Stage.WaitReceives, begin), View(work, receives, sends))
      modifies port, work, temporary
      ensures Follows(p, end, result, status, Cursor(s, begin, Stage.WaitSends, begin), work, receives, sends)
    {
      hide Program.Run, Program.Fits, Program.Act, Local.CursorOk, Local.Acting, Local.RecvPieces, Local.SendPieces,
           Local.RecvLength, Local.RecvFirst, LayoutOk, Overwrite, Combine;
      p.BatchPosted(Cursor(s, begin, Stage.WaitReceives, begin), View(work, receives, sends));
      var k := 0;
      while k < |receives|
        invariant k <= |receives|
        invariant p.At(end, result, Cursor(s, begin, Stage.WaitReceives, begin + k), View(work, receives, sends))
      {
        status := FinishReceive(p, end, result, s, plan, begin, k, work, receives, sends, kind, operation);
        if status != Success {
          return status;
        }
        k := k + 1;
      }
      p.AtLoopEnd(end, result, s, begin, Stage.WaitReceives, begin + k, View(work, receives, sends));
      status := Success;
    }

    /** What the program does at the wait for a receive, in the engine's terms. */
    lemma DueReceive(p: Program<T>, end: nat, result: (Status, Machine<T>), s: nat, plan: Plan, begin: nat, k: nat,
                     work: array<T>, receives: seq<PostedRequest>, m: Machine<T>)
      requires InBatch(p, end, plan, s, begin) && k < |receives| && ReceivesOk(p, s, begin, receives)
      requires p.At(end, result, Cursor(s, begin, Stage.WaitReceives, begin + k), m)
      requires m.work == work[..] && m.temp == temporary[..] && m.receives == Requests(receives)
      ensures var posted := receives[k];
              && posted.count >= 1 && plan.recvBlock < |offsets| && offsets[plan.recvBlock] + posted.offset + posted.count <= work.Length
              && (!plan.gather ==> posted.offset + posted.count <= temporary.Length)
      ensures p.answers == port.answers && p.arithmetic == arithmetic
      ensures var c, posted := Cursor(s, begin, Stage.WaitReceives, begin + k), receives[k];
              && p.Valid() && p.loc.CursorOk(c) && p.Fits(c, m) && p.Act(c, m) ==
                 (if p.answers(m.asked).Refused? then (Transport, m.(asked := m.asked + 1))
                  else
                    var data, first := Filled(p.answers(m.asked).data, posted.count), offsets[plan.recvBlock] + posted.offset;
                    var ended := m.(asked := m.asked + 1, waited := m.waited + [posted.request]);
                    if plan.gather then (Success, ended.(work := Overwrite(m.work, first, data)))
                    else
                      var filled := ended.(temp := Overwrite(m.temp, posted.offset, data));
                      if p.operation.OtherOperation? then (UnsupportedOperation, filled)
                      else (Success, filled.(work := Combine(p.arithmetic.Kernel(p.operation), m.work, first, data))))
              && var (status, m') := p.Act(c, m);
                 if status == Success then p.At(end, result, Cursor(s, begin, Stage.WaitReceives, begin + k + 1), m')
                 else result == (status, m')
    {
      hide Program.Run, Program.Fits, Program.Act, Local.CursorOk, Local.Acting, Local.RecvPieces, Local.SendPieces,
           Local.RecvLength, Local.RecvFirst, LayoutOk, Overwrite, Combine;
      var c := Cursor(s, begin, Stage.WaitReceives, begin + k);
      p.BatchPosted(c, m);
      p.AtIteration(end, result, s, begin, Stage.WaitReceives, begin + k, m);
      ReceiveArithmetic(p, plan, s, begin + k);
      p.WaitReceiveIs(c, m, offsets[plan.recvBlock] + receives[k].offset, receives[k].offset, receives[k].count);
      hide Program.At;
    }

    /** Waits for one receive; a reduce-scatter piece is then reduced. */
    method FinishReceive(ghost p: Program<T>, ghost end: nat, ghost result: (Status, Machine<T>), ghost s: nat, plan: Plan,
                         ghost begin: nat, k: nat, work: array<T>, receives: seq<PostedRequest>,
                         ghost sends: seq<PostedRequest>, kind: Datatype, operation: Operation)
      returns (status: Status)
      requires InBatch(p, end, plan, s, begin) && work != temporary && k < |receives|
      requires !kind.OtherDatatype? && (!plan.gather ==> operation == p.operation)
      requires ReceivesOk(p, s, begin, receives)
      requires p.At(end, result, Cursor(s, begin, Stage.WaitReceives, begin + k), View(work, receives, sends))
      modifies port, work, temporary
      ensures Follows(p, end, result, status, Cursor(s, begin, Stage.WaitReceives, begin + k + 1), work, receives, sends)
    {
      hide Program.Run, Program.Fits, Program.Act, Program.At, Local.CursorOk, Local.Acting, Program.WaitReceive, ReceivesOk,
           InBatch, PlanOk, LayoutOk, Overwrite, Combine, Arithmetic.Kernel, Arithmetic.AllMade, Filled, Requests;
      ghost var m := View(work, receives, sends);
      DueReceive(p, end, result, s, plan, begin, k, work, receives, m);
      ghost var act := p.Act(Cursor(s, begin, Stage.WaitReceives, begin + k), m);
      var posted := receives[k];
      var first := offsets[plan.recvBlock] + posted.offset;
      if plan.gather {
        var ok := port.WaitFilled(posted.request, work, first, posted.count);
        assert View(work, receives, sends) == act.1;
        status := if ok then Success else Transport;
      } else {
        var ok := port.WaitFilled(posted.request, temporary, posted.offset, posted.count);
        if !ok {
          assert View(work, receives, sends) == act.1;
          return Transport;
        }
        status := ReduceWaited(p, plan, m, act, posted, first, work, receives, sends, kind, operation);
      }
    }

    /** The part of the temporary buffer that was filled is reduced. */
    method ReduceWaited(ghost p: Program<T>, plan: Plan, ghost m: Machine<T>, ghost act: (Status, Machine<T>),
                        posted: PostedRequest, first: nat, work: array<T>, ghost receives: seq<PostedRequest>,
                        ghost sends: seq<PostedRequest>, kind: Datatype, operation: Operation)
      returns (status: Status)
      requires work != temporary && !kind.OtherDatatype? && operation == p.operation && p.arithmetic == arithmetic
      requires posted.count >= 1 && first + posted.count <= work.Length && posted.offset + posted.count <= temporary.Length
      requires p.answers(m.asked).Done? && |m.work| == work.Length && |m.temp| == temporary.Length
      requires var data := Filled(p.answers(m.asked).data, posted.count);
               && View(work, receives, sends)
                  == m.(asked := m.asked + 1, waited := m.waited + [posted.request], temp := Overwrite(m.temp, posted.offset, data))
               && act == if operation.OtherOperation? then (UnsupportedOperation, View(work, receives, sends))
                         else (Success, View(work, receives, sends).(
                                 work := Combine(arithmetic.Kernel(operation), m.work, first, data)))
      modifies work
      ensures status == act.0 && View(work, receives, sends) == act.1
    {
      hide Overwrite, Combine;
      ghost var data := Filled(p.answers(m.asked).data, posted.count);
      OverwrittenPart(m.temp, posted.offset, data);
      assert temporary[posted.offset..posted.offset + posted.count] == data;
      status := ReduceInPlace(arithmetic, work, first, temporary, posted.offset, posted.count, kind, operation);
    }

    method WaitSends(ghost p: Program<T>, ghost end: nat, ghost result: (Status, Machine<T>), ghost s: nat, ghost plan: Plan,
                     ghost begin: nat, work: array<T>, ghost receives: seq<PostedRequest>, sends: seq<PostedRequest>)
      returns (status: Status)
      requires InBatch(p, end, plan, s, begin)
      requires p.At(end, result, Cursor(s, begin, Stage.WaitSends, begin), View(work, receives, sends))
      modifies port
      ensures var next := begin + config.maxInflight;
              Follows(p, end, result, status, Cursor(s, next, Stage.BatchHead, next), work, receives, sends)
    {
      hide Program.Run, Program.Fits, Program.Act, Local.CursorOk, Local.Acting, Local.RecvPieces, Local.SendPieces, LayoutOk;
      p.BatchPosted(Cursor(s, begin, Stage.WaitSends, begin), View(work, receives, sends));
      var k := 0;
      while k < |sends|
        invariant k <= |sends|
        invariant p.At(end, result, Cursor(s, begin, Stage.WaitSends, begin + k), View(work, receives, sends))
      {
        ghost var c, m := Cursor(s, begin, Stage.WaitSends, begin + k), View(work, receives, sends);
        p.AtIteration(end, result, s, begin, Stage.WaitSends, begin + k, m);
        p.ActsAsWait(c, m);
        p.BatchPosted(c, m);
        var ok := port.Wait(sends[k].request);
        if !ok {
          return Transport;
        }
        assert View(work, receives, sends) == p.WaitSend(c, m).1;
        k := k + 1;
      }
      p.AtLoopEnd(end, result, s, begin, Stage.WaitSends, begin + k, View(work, receives, sends));
      status := Success;
    }

    // --- batches and steps --------------------------------------------------------------------

    method RunBatch(ghost p: Program<T>, ghost end: nat, ghost result: (Status, Machine<T>), ghost s: nat, plan: Plan,
                    elementSize: nat, pieceElements: nat, begin: nat, work: array<T>, kind: Datatype, operation: Operation)
      returns (status: Status, ghost receives: seq<PostedRequest>, ghost sends: seq<PostedRequest>)
      requires InBatch(p, end, plan, s, begin) && work != temporary
      requires elementSize == p.elementSize && pieceElements == p.loc.shape.pieceElements
      requires !kind.OtherDatatype? && (!plan.gather ==> operation == p.operation)
      requires p.At(end, result, Cursor(s, begin, Stage.PostReceives, begin), View(work, [], []))
      modifies port, work, temporary
      ensures var next := begin + config.maxInflight;
              Follows(p, end, result, status, Cursor(s, next, Stage.BatchHead, next), work, receives, sends)
    {
      hide Program.At, LayoutOk, Local.RecvPieces, Local.SendPieces;
      sends := [];
      var posted, posting;
      status, posted := PostReceives(p, end, result, s, plan, elementSize, pieceElements, begin, work);
      receives := posted;
      if status != Success { return; }
      status, posting := PostSends(p, end, result, s, plan, elementSize, pieceElements, begin, work, posted);
      sends := posting;
      if status != Success { return; }
      status := WaitReceives(p, end, result, s, plan, begin, work, posted, posting, kind, operation);
      if status != Success { return; }
      status := WaitSends(p, end, result, s, plan, begin, work, posted, posting);
    }

    method RunBatches(ghost p: Program<T>, ghost end: nat, ghost result: (Status, Machine<T>), ghost s: nat, plan: Plan,
                      elementSize: nat, pieceElements: nat, work: array<T>, kind: Datatype, operation: Operation)
      returns (status: Status)
      requires Valid() && PlanOk(p, plan, s) && s < end <= p.loc.Steps() && work != temporary
      requires elementSize == p.elementSize && pieceElements == p.loc.shape.pieceElements
      requires !kind.OtherDatatype? && (!plan.gather ==> operation == p.operation)
      requires p.At(end, result, Cursor(s, 0, Stage.BatchHead, 0), View(work, [], []))
      modifies port, work, temporary
      ensures Follows(p, end, result, status, Cursor(s + 1, 0, Stage.BatchHead, 0), work, [], [])
    {
      hide Program.At, LayoutOk, Local.RecvPieces, Local.SendPieces;
      var capacity := config.maxInflight;
      var pieces := Max(plan.sendPieces, plan.recvPieces);
      var totalBatches := (pieces + capacity - 1) / capacity;
      ghost var receives: seq<PostedRequest>, sends: seq<PostedRequest> := [], [];
      for batch := 0 to totalBatches
        invariant p.At(end, result, Cursor(s, batch * capacity, Stage.BatchHead, batch * capacity), View(work, receives, sends))
      {
        var begin := batch * capacity;
        BatchCount(pieces, capacity, batch);
        p.AtBatchTest(end, result, s, begin, View(work, receives, sends));
        assert View(work, receives, sends).(receives := [], sends := []) == View(work, [], []);
        status, receives, sends := RunBatch(p, end, result, s, plan, elementSize, pieceElements, begin, work, kind, operation);
        if status != Success { return; }
        MulMonotone(batch, batch + 1, capacity);
      }
      BatchCount(pieces, capacity, totalBatches);
      p.AtBatchTest(end, result, s, totalBatches * capacity, View(work, receives, sends));
      assert View(work, receives, sends).(receives := [], sends := []) == View(work, [], []);
      status := Success;
    }

    // --- the values a call posts ------------------------------------------------------------

    ghost predicate ProgramOf(p: Program<T>, kind: Datatype) {
      p.Valid() && p.loc.shape.size == worldSize && p.loc.rank == rank && p.elementSize == DatatypeSize(kind)
    }

    lemma ScatterValues(p: Program<T>, kind: Datatype, m: Machine<T>)
      requires rank < worldSize && ProgramOf(p, kind) && p.Fits(START, m) && worldSize - 1 <= p.loc.Steps()
      requires p.Run(worldSize - 1, START, m).0 == Success
      ensures var posts, count := p.Run(worldSize - 1, START, m).1.posts, p.loc.shape.count;
              var own, next := BlockCount(worldSize, count, rank), BlockCount(worldSize, count, PositiveMod(rank + 1, worldSize));
              && next <= count && own <= count && ValuesPosted(kind, m.posts, posts, count - next, count - own)
    {
      hide Program.Run, Program.Fits, ValuesPosted, Traffic.Moved;
      Traffic.ScatterTraffic(p, m);
      var count := p.loc.shape.count;
      BytesOfValues(kind, m.posts, p.Run(worldSize - 1, START, m).1.posts,
                    count - BlockCount(worldSize, count, PositiveMod(rank + 1, worldSize)), count - BlockCount(worldSize, count, rank));
    }

    lemma GatherValues(p: Program<T>, kind: Datatype, m: Machine<T>)
      requires rank < worldSize && ProgramOf(p, kind)
      requires p.loc.CursorOk(Cursor(worldSize - 1, 0, Stage.BatchHead, 0)) && p.Fits(Cursor(worldSize - 1, 0, Stage.BatchHead, 0), m)
      requires p.Run(p.loc.Steps(), Cursor(worldSize - 1, 0, Stage.BatchHead, 0), m).0 == Success
      ensures var posts := p.Run(p.loc.Steps(), Cursor(worldSize - 1, 0, Stage.BatchHead, 0), m).1.posts;
              var count := p.loc.shape.count;
              var next := BlockCount(worldSize, count, PositiveMod(rank + 1, worldSize));
              var nextButOne := BlockCount(worldSize, count, PositiveMod(rank + 2, worldSize));
              && next <= count && nextButOne <= count && ValuesPosted(kind, m.posts, posts, count - nextButOne, count - next)
    {
      hide Program.Run, Program.Fits, ValuesPosted, Traffic.Moved;
      Traffic.GatherTraffic(p, m);
      var count := p.loc.shape.count;
      BytesOfValues(kind, m.posts, p.Run(p.loc.Steps(), Cursor(worldSize - 1, 0, Stage.BatchHead, 0), m).1.posts,
                    count - BlockCount(worldSize, count, PositiveMod(rank + 2, worldSize)),
                    count - BlockCount(worldSize, count, PositiveMod(rank + 1, worldSize)));
    }

    lemma CallValues(p: Program<T>, kind: Datatype, m: Machine<T>)
      requires rank < worldSize && ProgramOf(p, kind) && p.Fits(START, m) && p.Run(p.loc.Steps(), START, m).0 == Success
      ensures var posts, count := p.Run(p.loc.Steps(), START, m).1.posts, p.loc.shape.count;
              var own, next := BlockCount(worldSize, count, rank), BlockCount(worldSize, count, PositiveMod(rank + 1, worldSize));
              var nextButOne := BlockCount(worldSize, count, PositiveMod(rank + 2, worldSize));
              && next + nextButOne <= 2 * count && own + next <= 2 * count
              && ValuesPosted(kind, m.posts, posts, 2 * count - next - nextButOne, 2 * count - own - next)
    {
      hide Program.Run, Program.Fits, ValuesPosted, Traffic.Moved;
      Traffic.CallTraffic(p, m);
      var count := p.loc.shape.count;
      var next := BlockCount(worldSize, count, PositiveMod(rank + 1, worldSize));
      BytesOfValues(kind, m.posts, p.Run(p.loc.Steps(), START, m).1.posts,
                    2 * count - next - BlockCount(worldSize, count, PositiveMod(rank + 2, worldSize)),
                    2 * count - BlockCount(worldSize, count, rank) - next);
    }

    // --- the calls ------------------------------------------------------------------------------

    /** A vector that changes its length keeps what fits and is padded. */
    ghost function Resized(old0: seq<T>, n: nat): (r: seq<T>)
      ensures |r| == n && forall i :: 0 <= i < n ==> r[i] == if i < |old0| then old0[i] else zero
    {
      seq(n, i requires 0 <= i < n => if i < |old0| then old0[i] else zero)
    }

    method ResizeTemporary(n: nat)
      modifies this`temporary
      ensures fresh(temporary) && temporary[..] == Resized(old(temporary[..]), n)
    {
      var resized := new T[n](i requires 0 <= i < n reads this, temporary =>
                                if i < temporary.Length then temporary[i] else zero);
      ghost var was := temporary[..];
      temporary := resized;
      assert temporary[..] == Resized(was, n);
    }

    method ComputeLayout(count: nat)
      requires Valid()
      modifies this`counts, this`offsets
      ensures Valid() && LayoutOk(count)
    {
      var status;
      status, counts, offsets := ComputeBlockLayout(count, worldSize, counts, offsets);
    }

    method LargestBlock(count: nat) returns (largest: nat)
      requires Valid() && LayoutOk(count)
      ensures largest == Shape(worldSize, count, 1).MaxBlockCount()
    {
      largest := 0;
      for b := 0 to |counts|
        invariant b == 0 ==> largest == 0
        invariant b > 0 ==> largest == BlockCount(worldSize, count, 0)
      {
        Shape(worldSize, count, 1).Balanced(0, b);
        largest := Max(largest, counts[b]);
      }
    }

    /** The machine a phase starts with. */
    ghost function Starting(work: seq<T>, temp: seq<T>): Machine<T>
      reads this, port
    {
      Machine(work, temp, port.posts, port.waited, port.asked, [], [])
    }

    method ReduceScatterInPlace(work: array<T>, count: nat, kind: Datatype, operation: Operation)
      returns (status: Status, owned: int)
      requires Valid() && work.Length == count && work != temporary
      modifies this`counts, this`offsets, this`temporary, port, work, temporary
      ensures Valid() && work != temporary && (temporary == old(temporary) || fresh(temporary))
      ensures kind.OtherDatatype? ==>
                status == UnsupportedDatatype && temporary == old(temporary) && Shows(old(Starting(work[..], temporary[..])), work)
      ensures !kind.OtherDatatype? ==>
                var p := old(Following(count, kind, operation));
                var temp := Resized(old(temporary[..]), p.loc.shape.MaxBlockCount());
                var out := p.Run(worldSize - 1, START, old(Starting(work[..], [])).(temp := temp));
                && status == out.0 && Shows(out.1, work)
                && (status == Success ==>
                      && owned == PositiveMod(rank + 1, worldSize)
                      && out.1 == View(work, [], []) && LayoutOk(count))
      ensures status == Success ==>
                var next := BlockCount(worldSize, count, PositiveMod(rank + 1, worldSize));
                && next <= count && BlockCount(worldSize, count, rank) <= count
                && ValuesPosted(kind, old(port.posts), port.posts, count - next, count - BlockCount(worldSize, count, rank))
    {
      hide Program.Run, Program.At, Program.Fits, Local.CursorOk, ValuesPosted, LayoutOk;
      owned := -1;
      var elementSize := DatatypeSize(kind);
      if elementSize == 0 {
        return UnsupportedDatatype, owned;
      }
      ghost var p := Following(count, kind, operation);
      ComputeLayout(count);
      var largest := LargestBlock(count);
      ResizeTemporary(largest);
      ghost var start := View(work, [], []);
      p.AtBeginning(worldSize - 1, 0, start);
      ghost var result := p.Run(worldSize - 1, START, start);
      status := ReduceScatterSteps(p, result, work, count, kind, operation);
      if status == Success {
        owned := PositiveMod(rank + 1, worldSize);
        p.AtEnd(worldSize - 1, result, View(work, [], []));
        ScatterValues(p, kind, start);
      }
    }

    method ReduceScatterSteps(ghost p: Program<T>, ghost result: (Status, Machine<T>), work: array<T>, count: nat,
                              kind: Datatype, operation: Operation)
      returns (status: Status)
      requires Valid() && LayoutOk(count) && work != temporary
      requires !kind.OtherDatatype? && p == Following(count, kind, operation)
      requires p.At(worldSize - 1, result, START, View(work, [], []))
      modifies port, work, temporary
      ensures Follows(p, worldSize - 1, result, status, Cursor(worldSize - 1, 0, Stage.BatchHead, 0), work, [], [])
    {
      hide Program.At, LayoutOk;
      var elementSize := DatatypeSize(kind);
      var pieceElements := PieceElementsFor(config.pieceBytes, elementSize);
      status := Success;
      var step := 0;
      while step < worldSize - 1
        invariant 0 <= step <= worldSize - 1 && status == Success
        invariant p.At(worldSize - 1, result, Cursor(step, 0, Stage.BatchHead, 0), View(work, [], []))
      {
        var sendBlock := PositiveMod(rank - step, worldSize);
        var recvBlock := PositiveMod(rank - step - 1, worldSize);
        BlocksOfStep(p.loc, step);
        LayoutEntries(count, sendBlock, recvBlock);
        var plan := Plan(false, step, sendBlock, recvBlock, counts[sendBlock], counts[recvBlock],
                         PieceCountFor(counts[sendBlock], pieceElements), PieceCountFor(counts[recvBlock], pieceElements));
        status := RunBatches(p, worldSize - 1, result, step, plan, elementSize, pieceElements, work, kind, operation);
        if status != Success { return; }
        step := step + 1;
      }
    }

    lemma LayoutEntries(count: nat, a: nat, b: nat)
      requires Valid() && LayoutOk(count) && a < worldSize && b < worldSize
      ensures |counts| == worldSize
      ensures counts[a] == BlockCount(worldSize, count, a) && counts[b] == BlockCount(worldSize, count, b)
    {}

    method AllGatherInPlace(work: array<T>, count: nat, kind: Datatype, owned: int, ghost operation: Operation)
      returns (status: Status)
      requires Valid() && work.Length == count && work != temporary
      modifies this`counts, this`offsets, port, work, temporary
      ensures Valid()
      ensures owned != PositiveMod(rank + 1, worldSize) ==>
                status == InvalidArgument && Shows(old(Starting(work[..], temporary[..])), work)
      ensures owned == PositiveMod(rank + 1, worldSize) && kind.OtherDatatype? ==>
                status == UnsupportedDatatype && Shows(old(Starting(work[..], temporary[..])), work)
      ensures owned == PositiveMod(rank + 1, worldSize) && !kind.OtherDatatype? ==>
                var p := old(Following(count, kind, operation));
                var out := p.Run(p.loc.Steps(), Cursor(worldSize - 1, 0, Stage.BatchHead, 0),
                                 old(Starting(work[..], temporary[..])));
                status == out.0 && Shows(out.1, work)
      ensures status == Success ==>
                var next := BlockCount(worldSize, count, PositiveMod(rank + 1, worldSize));
                var nextButOne := BlockCount(worldSize, count, PositiveMod(rank + 2, worldSize));
                && next <= count && nextButOne <= count
                && ValuesPosted(kind, old(port.posts), port.posts, count - nextButOne, count - next)
    {
      hide Program.Run, Program.At, Program.Fits, Local.CursorOk, ValuesPosted, LayoutOk;
      if owned < 0 || owned >= worldSize {
        PositiveModIsRotation(rank + 1, worldSize);
        return InvalidArgument;
      }
      var expectedOwned := PositiveMod(rank + 1, worldSize);
      if owned != expectedOwned {
        return InvalidArgument;
      }
      var elementSize := DatatypeSize(kind);
      if elementSize == 0 {
        return UnsupportedDatatype;
      }
      ghost var p := Following(count, kind, operation);
      ComputeLayout(count);
      ghost var start := View(work, [], []);
      p.AtBeginning(p.loc.Steps(), worldSize - 1, start);
      ghost var result := p.Run(p.loc.Steps(), Cursor(worldSize - 1, 0, Stage.BatchHead, 0), start);
      status := AllGatherSteps(p, result, work, count, kind, operation);
      if status == Success {
        p.AtEnd(p.loc.Steps(), result, View(work, [], []));
        GatherValues(p, kind, start);
      }
    }

    method AllGatherSteps(ghost p: Program<T>, ghost result: (Status, Machine<T>), work: array<T>, count: nat,
                          kind: Datatype, ghost operation: Operation)
      returns (status: Status)
      requires Valid() && LayoutOk(count) && work != temporary
      requires !kind.OtherDatatype? && p == Following(count, kind, operation)
      requires p.At(p.loc.Steps(), result, Cursor(worldSize - 1, 0, Stage.BatchHead, 0), View(work, [], []))
      modifies port, work, temporary
      ensures Follows(p, p.loc.Steps(), result, status, Cursor(p.loc.Steps(), 0, Stage.BatchHead, 0), work, [], [])
    {
      hide Program.At, LayoutOk;
      var elementSize := DatatypeSize(kind);
      var pieceElements := PieceElementsFor(config.pieceBytes, elementSize);
      status := Success;
      var step := 0;
      while step < worldSize - 1
        invariant 0 <= step <= worldSize - 1 && status == Success
        invariant p.At(p.loc.Steps(), result, Cursor(worldSize - 1 + step, 0, Stage.BatchHead, 0), View(work, [], []))
      {
        var sendBlock := PositiveMod(rank - step + 1, worldSize);
        var recvBlock := PositiveMod(rank - step, worldSize);
        BlocksOfStep(p.loc, worldSize - 1 + step);
        LayoutEntries(count, sendBlock, recvBlock);
        var plan := Plan(true, step, sendBlock, recvBlock, counts[sendBlock], counts[recvBlock],
                         PieceCountFor(counts[sendBlock], pieceElements), PieceCountFor(counts[recvBlock], pieceElements));
        status := RunBatches(p, p.loc.Steps(), result, worldSize - 1 + step, plan, elementSize, pieceElements, work, kind,
                             Operation.Sum);
        if status != Success { return; }
        step := step + 1;
      }
    }

    /** The call ends as the program says it does from `c` and `m` on. */
    ghost predicate Outcome(p: Program<T>, end: nat, c: Cursor, m: Machine<T>, status: Status, work: array<T>)
      requires p.Valid() && p.loc.CursorOk(c) && p.Fits(c, m) && end <= p.loc.Steps()
      reads this, work, temporary, port
    {
      var out := p.Run(end, c, m);
      status == out.0 && Shows(out.1, work)
    }

    /** The two phases of a call are one run of the program. */
    method BothPhases(work: array<T>, count: nat, kind: Datatype, operation: Operation)
      returns (status: Status)
      requires Valid() && work.Length == count && work != temporary && !kind.OtherDatatype?
      modifies this`counts, this`offsets, this`temporary, port, work, temporary
      ensures Valid()
      ensures var p := old(Following(count, kind, operation));
              var temp := Resized(old(temporary[..]), p.loc.shape.MaxBlockCount());
              Outcome(p, p.loc.Steps(), START, old(Starting(work[..], [])).(temp := temp), status, work)
    {
      ghost var p := Following(count, kind, operation);
      ghost var m := Starting(work[..], Resized(temporary[..], p.loc.shape.MaxBlockCount()));
      p.RunSplit(worldSize - 1, p.loc.Steps(), START, m);
      ghost var middle, out := p.Run(worldSize - 1, START, m), p.Run(p.loc.Steps(), START, m);
      hide Program.Run, Program.Fits, LayoutOk, Local.CursorOk, Local.Acting, BlockCount;
      var owned;
      status, owned := ReduceScatterInPlace(work, count, kind, operation);
      assert status == middle.0 && Shows(middle.1, work);
      if status != Success {
        assert out == middle;
        return;
      }
      assert middle.1 == Starting(work[..], temporary[..]) && p == Following(count, kind, operation);
      status := AllGatherInPlace(work, count, kind, owned, operation);
    }

    /** The whole call: the input is copied unless it is in place already; only
      a call that succeeds uses up a sequence number. */
    method AllReduce(send: array<T>, receive: array<T>, count: nat, kind: Datatype, operation: Operation)
      returns (status: Status)
      requires Valid() && send.Length == count == receive.Length && send != temporary && receive != temporary
      modifies this`counts, this`offsets, this`temporary, this`sequence, port, receive, temporary
      ensures Valid()
      ensures sequence == if status == Success then (old(sequence) + 1) % 0x1_0000_0000 else old(sequence)
      ensures count == 0 ==> status == InvalidArgument
      ensures count > 0 && kind.OtherDatatype? ==> status == UnsupportedDatatype
      ensures count == 0 || kind.OtherDatatype? ==> Shows(old(Starting(receive[..], temporary[..])), receive)
      ensures count > 0 && !kind.OtherDatatype? ==>
                var p := old(Following(count, kind, operation));
                var temp := Resized(old(temporary[..]), p.loc.shape.MaxBlockCount());
                Outcome(p, p.loc.Steps(), START, old(Starting(send[..], [])).(temp := temp), status, receive)
      ensures status == Success ==>
                var next := BlockCount(worldSize, count, PositiveMod(rank + 1, worldSize));
                var nextButOne := BlockCount(worldSize, count, PositiveMod(rank + 2, worldSize));
                && next + nextButOne <= 2 * count && BlockCount(worldSize, count, rank) + next <= 2 * count
                && ValuesPosted(kind, old(port.posts), port.posts, 2 * count - next - nextButOne,
                                2 * count - BlockCount(worldSize, count, rank) - next)
    {
      hide Program.Run, LayoutOk, Local.Acting, ValuesPosted, BlockCount, Resized, Local.Advance;
      if count == 0 {
        return InvalidArgument;
      }
      var elementSize := DatatypeSize(kind);
      if elementSize == 0 {
        return UnsupportedDatatype;
      }
      if send != receive {
        forall i | 0 <= i < count { receive[i] := send[i]; }
      }
      assert receive[..] == old(send[..]);
      ghost var p := Following(count, kind, operation);
      ghost var m := Starting(receive[..], []).(temp := Resized(temporary[..], p.loc.shape.MaxBlockCount()));
      assert p == old(Following(count, kind, operation));
      assert m == old(Starting(send[..], [])).(temp := Resized(old(temporary[..]), p.loc.shape.MaxBlockCount()));
      status := BothPhases(receive, count, kind, operation);
      assert Outcome(p, p.loc.Steps(), START, m, status, receive);
      if status == Success {
        CallValues(p, kind, m);
        sequence := (sequence + 1) % 0x1_0000_0000;
      }
    }
  }
}
