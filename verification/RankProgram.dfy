/** The program of one rank during one all-reduce as a function: what it posts
  and waits for, and what its buffers hold, for any answers of its transport. */
module RankProgram {
  import opened RingArithmetic
  import opened BlockLayout
  import opened Buffers
  import opened Tags
  import opened Schedule
  import opened Group
  import opened Reduction

  /** The transport's answer to a request: it fails, or, for a wait that ends a
    receive, has filled the region. */
  datatype Answer<!T> = Refused | Done(data: nat -> T)

  /** A request the transport has accepted; its number is its place in order. */
  datatype Post = ReceivePost(tag: nat, region: Region, bytes: nat, mode: Mode)
                | SendPost(tag: nat, lo: nat, bytes: nat, mode: Mode)

  /** `receives` and `sends` are the requests of the batch; `waited` the
    requests waited for; `asked` counts the answers the transport has given. */
  datatype Machine<T> = Machine(work: seq<T>, temp: seq<T>, posts: seq<Post>, waited: seq<nat>, asked: nat,
                                receives: seq<nat>, sends: seq<nat>)

  function Filled<T>(data: nat -> T, n: nat): (s: seq<T>)
    ensures |s| == n && forall j :: 0 <= j < n ==> s[j] == data(j)
  {
    seq(n, j requires 0 <= j < n => data(j))
  }

  /** The parameters of a call, and the answers its transport is going to give. */
  datatype Program<!T> = Program(loc: Local, elementSize: nat, mode: Mode, sequence: nat, operation: Operation,
                                 arithmetic: Arithmetic<T>, answers: nat -> Answer<T>) {

    predicate Valid() {
      loc.Valid() && elementSize >= 1
    }

    function TagFor(step: nat, piece: nat): MadeTag {
      MakeTag(sequence, loc.Gathering(step), loc.PhaseStep(step), piece)
    }

    /** How many requests of the batch have been posted. */
    function BatchReceives(c: Cursor): nat
      requires Valid()
    {
      if c.stage.BatchHead? then 0 else Max(0, loc.RecvPosted(c, c.step) - c.begin)
    }

    function BatchSends(c: Cursor): nat
      requires Valid()
    {
      if c.stage.BatchHead? then 0 else Max(0, loc.SendPosted(c, c.step) - c.begin)
    }

    predicate Fits(c: Cursor, m: Machine<T>)
      requires Valid()
    {
      && |m.work| == loc.shape.count
      && (c.step + 1 < loc.shape.size ==> |m.temp| == loc.shape.MaxBlockCount())
      && (!c.stage.BatchHead? ==> |m.receives| == BatchReceives(c) && |m.sends| == BatchSends(c))
    }

    function PostReceive(c: Cursor, m: Machine<T>): (Status, Machine<T>)
      requires Valid() && c.piece < loc.RecvPieces(c.step)
    {
      var tag, region := TagFor(c.step, c.piece), Target(loc, c.step, c.piece);
      if tag.OutOfRange? then (TagRange, m)
      else if answers(m.asked).Refused? then (Transport, m.(asked := m.asked + 1))
      else (Success, m.(asked := m.asked + 1,
                        posts := m.posts + [ReceivePost(tag.tag, region, region.size * elementSize, mode)],
                        receives := m.receives + [|m.posts|]))
    }

    function PostSend(c: Cursor, m: Machine<T>): (Status, Machine<T>)
      requires Valid() && c.piece < loc.SendPieces(c.step)
    {
      var tag, n := TagFor(c.step, c.piece), loc.SendLength(c.step, c.piece);
      if tag.OutOfRange? then (TagRange, m)
      else if answers(m.asked).Refused? then (Transport, m.(asked := m.asked + 1))
      else (Success, m.(asked := m.asked + 1,
                        posts := m.posts + [SendPost(tag.tag, loc.SendFirst(c.step, c.piece), n * elementSize, mode)],
                        sends := m.sends + [|m.posts|]))
    }

    /** The wait returns with the region filled; a reduce-scatter piece is then
      combined into the work buffer. */
    function WaitReceive(c: Cursor, m: Machine<T>): (Status, Machine<T>)
      requires Valid() && loc.CursorOk(c) && loc.Acting(c) && c.stage == WaitReceives && Fits(c, m)
    {
      var answer, n := answers(m.asked), loc.RecvLength(c.step, c.piece);
      loc.shape.PieceInside(loc.RecvBlock(c.step), c.piece);
      if answer.Refused? then (Transport, m.(asked := m.asked + 1))
      else
        var data, first := Filled(answer.data, n), loc.RecvFirst(c.step, c.piece);
        var ended := m.(asked := m.asked + 1, waited := m.waited + [m.receives[c.piece - c.begin]]);
        if loc.Gathering(c.step) then (Success, ended.(work := Overwrite(m.work, first, data)))
        else
          var filled := ended.(temp := Overwrite(m.temp, loc.shape.Start(c.piece), data));
          if operation.OtherOperation? then (UnsupportedOperation, filled)
          else (Success, filled.(work := Combine(arithmetic.Kernel(operation), m.work, first, data)))
    }

    function WaitSend(c: Cursor, m: Machine<T>): (Status, Machine<T>)
      requires Valid() && loc.CursorOk(c) && loc.Acting(c) && c.stage == WaitSends && Fits(c, m)
    {
      if answers(m.asked).Refused? then (Transport, m.(asked := m.asked + 1))
      else (Success, m.(asked := m.asked + 1, waited := m.waited + [m.sends[c.piece - c.begin]]))
    }

    function Act(c: Cursor, m: Machine<T>): (Status, Machine<T>)
      requires Valid() && loc.CursorOk(c) && Fits(c, m)
    {
      if !loc.Acting(c) then (Success, if c.stage.BatchHead? then m.(receives := [], sends := []) else m)
      else
        match c.stage
        case PostReceives => PostReceive(c, m)
        case PostSends => PostSend(c, m)
        case WaitReceives => WaitReceive(c, m)
        case WaitSends => WaitSend(c, m)
    }

    lemma ActFits(c: Cursor, m: Machine<T>)
      requires Valid() && loc.CursorOk(c) && !loc.Finished(c) && Fits(c, m) && Act(c, m).0 == Success
      ensures Fits(loc.Advance(c), Act(c, m).1)
    {
      if loc.Acting(c) { loc.ActingAdvance(c, c.step); }
      hide Shape.Pieces, Overwrite, Combine, TagFor;
    }

    /** From cursor `c` on, up to the start of step `end` or the first failure. */
    function Run(end: nat, c: Cursor, m: Machine<T>): (result: (Status, Machine<T>))
      requires Valid() && loc.CursorOk(c) && Fits(c, m) && end <= loc.Steps()
      ensures |result.1.work| == |m.work|
      decreases loc.Remaining(c)
    {
      if c.step >= end then (Success, m)
      else
        var (status, m') := Act(c, m);
        if status != Success then (status, m')
        else
          ActFits(c, m);
          Run(end, loc.Advance(c), m')
    }

    // --- one unfolding of a run ----------------------------------------------------------

    lemma RunCall(end: nat, c: Cursor, m: Machine<T>)
      requires Valid() && loc.CursorOk(c) && Fits(c, m) && c.step < end <= loc.Steps() && loc.Acting(c)
      ensures Act(c, m).0 != Success ==> Run(end, c, m) == Act(c, m)
      ensures Act(c, m).0 == Success ==>
                var n := c.(piece := c.piece + 1);
                loc.CursorOk(n) && Fits(n, Act(c, m).1) && Run(end, c, m) == Run(end, n, Act(c, m).1)
    {
      assert loc.Advance(c) == c.(piece := c.piece + 1);
      if Act(c, m).0 == Success { ActFits(c, m); }
      hide Act, Fits, Local.Acting, Local.Advance;
    }

    lemma RunTest(end: nat, c: Cursor, m: Machine<T>)
      requires Valid() && loc.CursorOk(c) && Fits(c, m) && c.step < end <= loc.Steps() && !loc.Acting(c)
      ensures Act(c, m) == (Success, if c.stage.BatchHead? then m.(receives := [], sends := []) else m)
      ensures var n := loc.Advance(c); Fits(n, Act(c, m).1) && Run(end, c, m) == Run(end, n, Act(c, m).1)
    {
      assert Act(c, m).0 == Success;
      ActFits(c, m);
      hide Fits, Local.Acting, Local.Advance;
    }

    // --- the same, loop by loop -----------------------------------------------------------

    /** The loop that starts at `begin` in `stage` has an iteration for `piece`. */
    predicate Iterates(end: nat, s: nat, begin: nat, stage: Stage, piece: nat)
      requires Valid()
    {
      && s < end <= loc.Steps() && begin < Max(loc.SendPieces(s), loc.RecvPieces(s))
      && begin <= piece < begin + loc.capacity && !stage.BatchHead?
      && piece < (if stage.PostReceives? || stage.WaitReceives? then loc.RecvPieces(s) else loc.SendPieces(s))
    }

    lemma IteratesActs(end: nat, s: nat, begin: nat, stage: Stage, piece: nat)
      requires Valid() && Iterates(end, s, begin, stage, piece)
      ensures loc.CursorOk(Cursor(s, begin, stage, piece)) && loc.Acting(Cursor(s, begin, stage, piece))
    {}

    lemma RunIteration(end: nat, s: nat, begin: nat, stage: Stage, piece: nat, m: Machine<T>)
      requires Valid() && Iterates(end, s, begin, stage, piece) && Fits(Cursor(s, begin, stage, piece), m)
      ensures var c := Cursor(s, begin, stage, piece);
              && loc.CursorOk(c) && loc.Acting(c) && loc.CursorOk(c.(piece := piece + 1))
              && (Act(c, m).0 != Success ==> Run(end, c, m) == Act(c, m))
              && (Act(c, m).0 == Success ==>
                    && Fits(c.(piece := piece + 1), Act(c, m).1)
                    && Run(end, c, m) == Run(end, c.(piece := piece + 1), Act(c, m).1))
    {
      hide Run, Fits, Act, Local.CursorOk, Local.Acting;
      IteratesActs(end, s, begin, stage, piece);
      var c := Cursor(s, begin, stage, piece);
      RunCall(end, c, m);
      NextOk(c);
    }

    /** A run that has come to cursor `c` with `m` and will have `result`. */
    ghost predicate At(end: nat, result: (Status, Machine<T>), c: Cursor, m: Machine<T>) {
      && Valid() && end <= loc.Steps() && loc.CursorOk(c) && Fits(c, m) && Run(end, c, m) == result
    }

    /** A phase that begins with step `s`, and one that is over. */
    lemma AtBeginning(end: nat, s: nat, m: Machine<T>)
      requires Valid() && s <= end <= loc.Steps() && |m.work| == loc.shape.count
      requires s + 1 < loc.shape.size ==> |m.temp| == loc.shape.MaxBlockCount()
      ensures var c := Cursor(s, 0, BatchHead, 0);
              loc.CursorOk(c) && Fits(c, m) && At(end, Run(end, c, m), c, m)
    {
      hide Run;
    }

    lemma AtEnd(end: nat, result: (Status, Machine<T>), m: Machine<T>)
      requires At(end, result, Cursor(end, 0, BatchHead, 0), m)
      ensures result == (Success, m)
    {}

    /** One iteration of a loop of a batch. */
    lemma AtIteration(end: nat, result: (Status, Machine<T>), s: nat, begin: nat, stage: Stage, piece: nat, m: Machine<T>)
      requires Valid() && Iterates(end, s, begin, stage, piece) && At(end, result, Cursor(s, begin, stage, piece), m)
      ensures loc.CursorOk(Cursor(s, begin, stage, piece)) && Fits(Cursor(s, begin, stage, piece), m)
      ensures loc.Acting(Cursor(s, begin, stage, piece))
      ensures var (status, m') := Act(Cursor(s, begin, stage, piece), m);
              if status == Success then At(end, result, Cursor(s, begin, stage, piece + 1), m') else result == (status, m')
    {
      hide Run, Fits, Act, Local.CursorOk, Local.Acting;
      RunIteration(end, s, begin, stage, piece, m);
    }

    lemma AtLoopEnd(end: nat, result: (Status, Machine<T>), s: nat, begin: nat, stage: Stage, piece: nat, m: Machine<T>)
      requires At(end, result, Cursor(s, begin, stage, piece), m)
      requires s < end && begin < Max(loc.SendPieces(s), loc.RecvPieces(s)) && !stage.BatchHead?
      requires begin <= piece <= begin + loc.capacity
      requires piece >= begin + loc.capacity
               || piece >= (if stage.PostReceives? || stage.WaitReceives? then loc.RecvPieces(s) else loc.SendPieces(s))
      ensures At(end, result, AfterLoop(s, begin, stage), m)
    {
      hide Run, Fits, Local.CursorOk;
      RunLoopEnd(end, s, begin, stage, piece, m);
    }

    lemma AtBatchTest(end: nat, result: (Status, Machine<T>), s: nat, begin: nat, m: Machine<T>)
      requires At(end, result, Cursor(s, begin, BatchHead, begin), m) && s < end
      ensures At(end, result, if begin < Max(loc.SendPieces(s), loc.RecvPieces(s)) then Cursor(s, begin, PostReceives, begin)
                              else Cursor(s + 1, 0, BatchHead, 0), m.(receives := [], sends := []))
    {
      hide Run, Fits, Local.CursorOk;
      RunBatchTest(end, s, begin, m);
    }

    /** A post, once its tag and region are known. */
    lemma PostReceiveIs(c: Cursor, m: Machine<T>, tag: MadeTag, region: Region)
      requires Valid() && loc.CursorOk(c) && Fits(c, m) && loc.Acting(c) && c.stage == PostReceives
      requires tag == TagFor(c.step, c.piece) && region == Target(loc, c.step, c.piece)
      ensures Act(c, m) ==
              if tag.OutOfRange? then (TagRange, m)
              else if answers(m.asked).Refused? then (Transport, m.(asked := m.asked + 1))
              else (Success, m.(asked := m.asked + 1,
                                posts := m.posts + [ReceivePost(tag.tag, region, region.size * elementSize, mode)],
                                receives := m.receives + [|m.posts|]))
    {
      hide TagFor, Target;
    }

    lemma PostSendIs(c: Cursor, m: Machine<T>, tag: MadeTag, first: nat, n: nat)
      requires Valid() && loc.CursorOk(c) && Fits(c, m) && loc.Acting(c) && c.stage == PostSends
      requires tag == TagFor(c.step, c.piece) && first == loc.SendFirst(c.step, c.piece) && n == loc.SendLength(c.step, c.piece)
      ensures Act(c, m) ==
              if tag.OutOfRange? then (TagRange, m)
              else if answers(m.asked).Refused? then (Transport, m.(asked := m.asked + 1))
              else (Success, m.(asked := m.asked + 1,
                                posts := m.posts + [SendPost(tag.tag, first, n * elementSize, mode)],
                                sends := m.sends + [|m.posts|]))
    {
      hide TagFor, Local.SendFirst;
    }

    lemma ActsAsWait(c: Cursor, m: Machine<T>)
      requires Valid() && loc.CursorOk(c) && Fits(c, m) && loc.Acting(c)
      ensures c.stage == WaitReceives ==> Act(c, m) == WaitReceive(c, m)
      ensures c.stage == WaitSends ==> Act(c, m) == WaitSend(c, m)
    {}

    /** The requests of a batch once it has been posted, and the buffers. */
    lemma BatchPosted(c: Cursor, m: Machine<T>)
      requires Valid() && loc.CursorOk(c) && Fits(c, m) && (c.stage == WaitReceives || c.stage == WaitSends)
      ensures |m.receives| == Max(0, Min(c.begin + loc.capacity, loc.RecvPieces(c.step)) - c.begin)
      ensures |m.sends| == Max(0, Min(c.begin + loc.capacity, loc.SendPieces(c.step)) - c.begin)
      ensures |m.work| == loc.shape.count && (!loc.Gathering(c.step) ==> |m.temp| == loc.shape.MaxBlockCount())
    {}

    /** A wait for a receive, once its region is known. */
    lemma WaitReceiveIs(c: Cursor, m: Machine<T>, first: nat, offset: nat, n: nat)
      requires Valid() && loc.CursorOk(c) && loc.Acting(c) && c.stage == WaitReceives && Fits(c, m)
      requires first == loc.RecvFirst(c.step, c.piece) && offset == loc.shape.Start(c.piece)
      requires n == loc.RecvLength(c.step, c.piece)
      ensures c.piece - c.begin < |m.receives| && first + n <= |m.work|
      ensures !loc.Gathering(c.step) ==> offset + n <= |m.temp|
      ensures Act(c, m) ==
              if answers(m.asked).Refused? then (Transport, m.(asked := m.asked + 1))
              else
                var data := Filled(answers(m.asked).data, n);
                var ended := m.(asked := m.asked + 1, waited := m.waited + [m.receives[c.piece - c.begin]]);
                if loc.Gathering(c.step) then (Success, ended.(work := Overwrite(m.work, first, data)))
                else
                  var filled := ended.(temp := Overwrite(m.temp, offset, data));
                  if operation.OtherOperation? then (UnsupportedOperation, filled)
                  else (Success, filled.(work := Combine(arithmetic.Kernel(operation), m.work, first, data)))
    {
      loc.shape.PieceInside(loc.RecvBlock(c.step), c.piece);
      hide Overwrite, Combine, Filled;
    }

    lemma NextOk(c: Cursor)
      requires Valid() && loc.CursorOk(c) && loc.Acting(c)
      ensures loc.CursorOk(c.(piece := c.piece + 1))
    {}

    /** What follows a loop of a batch: the next loop, and after the last the
      next batch. */
    function AfterLoop(s: nat, begin: nat, stage: Stage): Cursor
      requires !stage.BatchHead?
    {
      match stage
      case PostReceives => Cursor(s, begin, PostSends, begin)
      case PostSends => Cursor(s, begin, WaitReceives, begin)
      case WaitReceives => Cursor(s, begin, WaitSends, begin)
      case WaitSends => Cursor(s, begin + loc.capacity, BatchHead, begin + loc.capacity)
    }

    lemma RunLoopEnd(end: nat, s: nat, begin: nat, stage: Stage, piece: nat, m: Machine<T>)
      requires Valid() && s < end <= loc.Steps() && begin < Max(loc.SendPieces(s), loc.RecvPieces(s)) && !stage.BatchHead?
      requires begin <= piece <= begin + loc.capacity
      requires Fits(Cursor(s, begin, stage, piece), m)
      requires piece >= begin + loc.capacity
               || piece >= (if stage.PostReceives? || stage.WaitReceives? then loc.RecvPieces(s) else loc.SendPieces(s))
      ensures var c, n := Cursor(s, begin, stage, piece), AfterLoop(s, begin, stage);
              loc.CursorOk(c) && loc.CursorOk(n) && Fits(n, m) && Run(end, c, m) == Run(end, n, m)
    {
      hide Run, Fits, Act;
      var c := Cursor(s, begin, stage, piece);
      assert loc.CursorOk(c) && !loc.Acting(c) && loc.Advance(c) == AfterLoop(s, begin, stage);
      RunTest(end, c, m);
    }

    /** The test of the batch loop. */
    lemma RunBatchTest(end: nat, s: nat, begin: nat, m: Machine<T>)
      requires Valid() && s < end <= loc.Steps() && Fits(Cursor(s, begin, BatchHead, begin), m)
      ensures loc.CursorOk(Cursor(s, begin, BatchHead, begin))
      ensures var n := if begin < Max(loc.SendPieces(s), loc.RecvPieces(s)) then Cursor(s, begin, PostReceives, begin)
                       else Cursor(s + 1, 0, BatchHead, 0);
              var m' := m.(receives := [], sends := []);
              && loc.CursorOk(n) && Fits(n, m') && Run(end, Cursor(s, begin, BatchHead, begin), m) == Run(end, n, m')
    {
      RunTest(end, Cursor(s, begin, BatchHead, begin), m);
      hide Run, Fits;
    }

    /** A run over both phases is a run over one and then over the other. */
    lemma {:induction false} RunSplit(middle: nat, end: nat, c: Cursor, m: Machine<T>)
      requires Valid() && loc.CursorOk(c) && Fits(c, m) && middle <= end <= loc.Steps()
      requires c.step < middle || c == Cursor(middle, 0, BatchHead, 0)
      ensures var (status, m') := Run(middle, c, m);
              var next := Cursor(middle, 0, BatchHead, 0);
              if status != Success then Run(end, c, m) == (status, m')
              else Fits(next, m') && Run(end, c, m) == Run(end, next, m')
      decreases loc.Remaining(c)
    {
      hide Act, Fits;
      if c.step < middle {
        var (status, m') := Act(c, m);
        if status == Success {
          ActFits(c, m);
          RunSplit(middle, end, loc.Advance(c), m');
        }
      }
    }
  }
}
