/** One rank's end of the zero-copy transport: the life of its requests and of
  the memory registered for them. A request is known by its number, which
  stands for the address the device hands back; memory regions are numbered in
  the order of their registration. */
module VerbsEndpoint {
  import opened Buffers
  import opened Group
  import ZeroCopyRing

  datatype Kind = Sending | Receiving

  /** `ok` is the request's status so far. */
  datatype Request = Request(kind: Kind, tag: nat, mode: Mode, region: nat, completed: bool, ok: bool)

  datatype Opcode = SendDone | WriteDone | Received | ReceivedByWrite | OtherOpcode

  datatype Immediate = NoImmediate | Immediate(tag: nat)

  datatype Completion = Completion(id: nat, success: bool, opcode: Opcode, immediate: Immediate)

  /** `pending` are the requests posted and not consumed, `regions` counts the
    registrations so far, `released` lists the deregistrations. */
  datatype Books = Books(pending: map<nat, Request>, nextId: nat, regions: nat, released: seq<nat>)

  const NO_BOOKS := Books(map[], 1, 0, [])

  // --- invariant ---------------------------------------------------------------------------

  ghost predicate Held(b: Books, region: nat) {
    exists id :: id in b.pending && b.pending[id].region == region
  }

  /** Every region ever registered is held by one pending request or has been
    released, and never both nor twice. */
  ghost predicate BooksOk(b: Books) {
    && b.nextId >= 1
    && (forall id :: id in b.pending ==> 1 <= id < b.nextId && b.pending[id].region < b.regions)
    && (forall id, other :: id in b.pending && other in b.pending && id != other ==>
          b.pending[id].region != b.pending[other].region)
    && (forall id :: id in b.pending ==> b.pending[id].region !in b.released)
    && (forall k :: 0 <= k < |b.released| ==> b.released[k] < b.regions)
    && (forall j, k :: 0 <= j < k < |b.released| ==> b.released[j] != b.released[k])
    && (forall region :: 0 <= region < b.regions ==> region in b.released || Held(b, region))
  }

  // --- operations as functions -----------------------------------------------------------------

  /** A request registered, numbered and entered. */
  function Enter(b: Books, kind: Kind, tag: nat, mode: Mode): Books {
    Books(b.pending[b.nextId := Request(kind, tag, mode, b.regions, false, true)], b.nextId + 1, b.regions + 1, b.released)
  }

  /** A request taken out and its memory deregistered. */
  function Consume(b: Books, id: nat): Books
    requires id in b.pending
  {
    b.(pending := b.pending - {id}, released := b.released + [b.pending[id].region])
  }

  /** Whether a completion is what its request was posted for. */
  predicate Fitting(r: Request, c: Completion) {
    && c.success
    && match r.kind
       case Sending =>
         || (r.mode.Eager? && c.opcode.SendDone?)
         || (r.mode.Rendezvous? && c.opcode.WriteDone?)
       case Receiving =>
         && ((r.mode.Eager? && c.opcode.Received?) || (r.mode.Rendezvous? && c.opcode.ReceivedByWrite?))
         && c.immediate == Immediate(r.tag)
  }

  /** A request that has failed stays so. */
  function Noted(r: Request, c: Completion): (n: Request)
    ensures n.completed && (n.ok ==> r.ok && c.success)
  {
    r.(completed := true, ok := r.ok && Fitting(r, c))
  }

  function NoteFirst(b: Books, c: Completion): (r: Books)
    requires c.id in b.pending
    ensures r.pending.Keys == b.pending.Keys
  {
    b.(pending := b.pending[c.id := Noted(b.pending[c.id], c)])
  }

  /** Completions handled in order, up to one that names no pending request. */
  function Absorb(b: Books, cs: seq<Completion>): (r: (Books, bool))
    ensures r.0.pending.Keys == b.pending.Keys && r.0.nextId == b.nextId && r.0.regions == b.regions
    ensures r.0.released == b.released
    decreases |cs|
  {
    if cs == [] then (b, true)
    else if cs[0].id !in b.pending then (b, false)
    else Absorb(NoteFirst(b, cs[0]), cs[1..])
  }

  // --- what the operations keep -----------------------------------------------------------------

  lemma EnterOk(b: Books, kind: Kind, tag: nat, mode: Mode)
    requires BooksOk(b)
    ensures BooksOk(Enter(b, kind, tag, mode))
  {
    hide Held;
    var b' := Enter(b, kind, tag, mode);
    forall region | 0 <= region < b'.regions
      ensures region in b'.released || Held(b', region)
    {
      if region == b.regions {
        HeldBy(b', b.nextId);
      } else if region !in b.released {
        var id := Holder(b, region);
        HeldBy(b', id);
      }
    }
  }

  lemma HeldBy(b: Books, id: nat)
    requires id in b.pending
    ensures Held(b, b.pending[id].region)
  {}

  lemma Holder(b: Books, region: nat) returns (id: nat)
    requires Held(b, region)
    ensures id in b.pending && b.pending[id].region == region
  {
    id :| id in b.pending && b.pending[id].region == region;
  }

  lemma ConsumeOk(b: Books, id: nat)
    requires BooksOk(b) && id in b.pending
    ensures BooksOk(Consume(b, id))
  {
    var b', gone := Consume(b, id), b.pending[id].region;
    forall region | 0 <= region < b'.regions
      ensures region in b'.released || Held(b', region)
    {
      if region == gone {
        assert b'.released[|b.released|] == gone;
      } else if region in b.released {
        var k :| 0 <= k < |b.released| && b.released[k] == region;
        assert b'.released[k] == region;
      } else {
        var x :| x in b.pending && b.pending[x].region == region;
        assert x in b'.pending && b'.pending[x].region == region;
      }
    }
    hide Held;
  }

  /** A post that fails after its memory was registered gives it back at once. */
  lemma FailedPostOk(b: Books, kind: Kind, tag: nat, mode: Mode)
    requires BooksOk(b)
    ensures var b' := Consume(Enter(b, kind, tag, mode), b.nextId);
            BooksOk(b') && b'.pending == b.pending && b'.released == b.released + [b.regions] && b'.nextId == b.nextId + 1
  {
    EnterOk(b, kind, tag, mode);
    ConsumeOk(Enter(b, kind, tag, mode), b.nextId);
    assert b.nextId !in b.pending;
    assert (b.pending[b.nextId := Request(kind, tag, mode, b.regions, false, true)] - {b.nextId}) == b.pending;
  }

  lemma {:induction false} AbsorbOk(b: Books, cs: seq<Completion>)
    requires BooksOk(b)
    ensures BooksOk(Absorb(b, cs).0)
    decreases |cs|
  {
    if cs != [] && cs[0].id in b.pending {
      var b' := NoteFirst(b, cs[0]);
      assert forall id :: id in b'.pending <==> id in b.pending;
      assert forall id :: id in b.pending ==> b'.pending[id].region == b.pending[id].region;
      forall region | 0 <= region < b'.regions
        ensures region in b'.released || Held(b', region)
      {
        if region !in b.released {
          var id :| id in b.pending && b.pending[id].region == region;
          assert id in b'.pending && b'.pending[id].region == region;
        }
      }
      AbsorbOk(b', cs[1..]);
    }
  }

  lemma NoteFirstOk(b: Books, c: Completion)
    requires BooksOk(b) && c.id in b.pending
    ensures BooksOk(NoteFirst(b, c))
  {
    AbsorbOk(b, [c]);
    AbsorbOne(b, c);
    hide BooksOk, NoteFirst, Absorb;
  }

  lemma AbsorbOne(b: Books, c: Completion)
    ensures Absorb(b, [c]) == if c.id in b.pending then (NoteFirst(b, c), true) else (b, false)
  {
    if c.id in b.pending { AbsorbNone(NoteFirst(b, c)); }
  }

  lemma AbsorbNext(b: Books, cs: seq<Completion>)
    requires cs != []
    ensures Absorb(b, cs) == if cs[0].id in b.pending then Absorb(NoteFirst(b, cs[0]), cs[1..]) else (b, false)
  {}

  lemma AbsorbNone(b: Books)
    ensures Absorb(b, []) == (b, true)
  {}

  // --- an endpoint and its device ------------------------------------------------------------------

  /** An endpoint as a value: its books, the completion queue, and what the
    statements below speak of: the requests the device accepted, as they were
    posted, those consumed, and the completion of each one reported. */
  datatype Ledger = Ledger(books: Books, queue: seq<Completion>, posted: map<nat, Request>, consumed: set<nat>,
                           reported: map<nat, Completion>)

  const UNUSED := Ledger(NO_BOOKS, [], map[], {}, map[])

  /** The pending requests are exactly those accepted and not consumed. */
  ghost predicate Kept(l: Ledger) {
    && BooksOk(l.books)
    && l.consumed <= l.posted.Keys
    && l.books.pending.Keys == l.posted.Keys - l.consumed
    && forall id :: id in l.posted ==> id < l.books.nextId
  }

  ghost predicate Queued(queue: seq<Completion>, id: nat) {
    exists k :: 0 <= k < |queue| && queue[k].id == id
  }

  ghost predicate QueueOk(queue: seq<Completion>, consumed: set<nat>, reported: map<nat, Completion>) {
    && (forall k :: 0 <= k < |queue| ==>
          queue[k].id !in consumed && queue[k].id in reported && reported[queue[k].id] == queue[k])
    && (forall j, k :: 0 <= j < k < |queue| ==> queue[j].id != queue[k].id)
  }

  ghost predicate FreshlyPosted(posted: map<nat, Request>) {
    forall id :: id in posted ==> !posted[id].completed && posted[id].ok
  }

  /** What a pending request looks like: as posted, until its completion has
    been taken off the queue; from then on judged by that completion. */
  ghost function Seen(l: Ledger, id: nat): Request
    requires id in l.posted
  {
    if id in l.reported && !Queued(l.queue, id) then Noted(l.posted[id], l.reported[id]) else l.posted[id]
  }

  /** No completion is lost, made up, seen twice or taken for another's. */
  ghost predicate Sound(l: Ledger) {
    && Kept(l) && FreshlyPosted(l.posted)
    && l.consumed <= l.reported.Keys <= l.posted.Keys
    && QueueOk(l.queue, l.consumed, l.reported)
    && forall id :: id in l.books.pending ==> l.books.pending[id] == Seen(l, id)
  }

  // --- what happens at an endpoint -------------------------------------------------------------------

  /** A post that got as far as the device. */
  function Posting(l: Ledger, kind: Kind, tag: nat, mode: Mode, accepted: bool): Ledger {
    var id, entered := l.books.nextId, Enter(l.books, kind, tag, mode);
    if accepted then l.(books := entered, posted := l.posted[id := entered.pending[id]])
    else l.(books := Consume(entered, id))
  }

  /** The device reports the one completion of an accepted request. */
  ghost predicate Reportable(l: Ledger, c: Completion) {
    c.id in l.posted && c.id !in l.reported
  }

  function Reporting(l: Ledger, c: Completion): Ledger {
    l.(queue := l.queue + [c], reported := l.reported[c.id := c])
  }

  function TakeFirst(l: Ledger): Ledger
    requires l.queue != [] && l.queue[0].id in l.books.pending
  {
    l.(books := NoteFirst(l.books, l.queue[0]), queue := l.queue[1..])
  }

  function Polled(l: Ledger): Ledger {
    l.(books := Absorb(l.books, l.queue).0, queue := [])
  }

  datatype WaitResult = NotPending | Blocked | Confused | Finished(ok: bool)

  /** Waiting for one request: completions of others that come before its own
    are noted with theirs and kept. `Blocked` is a wait that goes on polling an
    empty queue. */
  function Waiting(l: Ledger, id: nat): (r: (Ledger, WaitResult))
    decreases |l.queue|
  {
    if id !in l.books.pending then (l, NotPending)
    else if l.books.pending[id].completed then
      (l.(books := Consume(l.books, id), consumed := l.consumed + {id}), Finished(l.books.pending[id].ok))
    else if l.queue == [] then (l, Blocked)
    else if l.queue[0].id !in l.books.pending then (l.(queue := l.queue[1..]), Confused)
    else Waiting(TakeFirst(l), id)
  }

  // --- all of it keeps an endpoint sound -----------------------------------------------------------------

  lemma PostingKept(l: Ledger, kind: Kind, tag: nat, mode: Mode, accepted: bool)
    requires Kept(l)
    ensures Kept(Posting(l, kind, tag, mode, accepted))
    ensures l.books.nextId !in l.posted
  {
    EnterOk(l.books, kind, tag, mode);
    FailedPostOk(l.books, kind, tag, mode);
    hide BooksOk, Consume;
  }

  lemma AcceptedSeen(l: Ledger, request: Request, id: nat)
    requires id in l.posted && l.reported.Keys <= l.posted.Keys && l.books.nextId !in l.posted
    ensures var l' := l.(posted := l.posted[l.books.nextId := request]);
            Seen(l', l.books.nextId) == request && Seen(l', id) == Seen(l, id)
  {
    assert l.books.nextId !in l.reported.Keys;
    hide Queued, Noted;
  }

  lemma PostingSound(l: Ledger, kind: Kind, tag: nat, mode: Mode, accepted: bool)
    requires Sound(l)
    ensures Sound(Posting(l, kind, tag, mode, accepted))
  {
    hide BooksOk, Consume, QueueOk, Noted, Queued, Seen;
    PostingKept(l, kind, tag, mode, accepted);
    FailedPostOk(l.books, kind, tag, mode);
    var l', entered := Posting(l, kind, tag, mode, accepted), l.books.nextId;
    hide Kept;
    assert forall id :: id in l.books.pending ==> id in l.posted by { PendingPosted(l); }
    assert entered !in l.reported.Keys;
    forall id | id in l'.books.pending
      ensures id in l'.posted && l'.books.pending[id] == Seen(l', id)
    {
      if accepted {
        if id == entered {
          SeenFresh(l', id);
        } else {
          AcceptedSeen(l, l'.posted[entered], id);
          SeenSame(l', l.(posted := l'.posted), id);
        }
      } else {
        SeenSame(l, l', id);
      }
    }
  }

  lemma PendingPosted(l: Ledger)
    requires Kept(l)
    ensures forall id :: id in l.books.pending ==> id in l.posted
  {
    assert forall id :: id in l.books.pending ==> id in l.books.pending.Keys;
    hide BooksOk;
  }

  lemma SeenFresh(l: Ledger, id: nat)
    ensures id in l.posted && id !in l.reported ==> Seen(l, id) == l.posted[id]
  {}

  lemma SeenSame(l: Ledger, l': Ledger, id: nat)
    requires l'.queue == l.queue && l'.posted == l.posted && l'.reported == l.reported
    ensures id in l.posted ==> Seen(l, id) == Seen(l', id)
  {}

  lemma ReportingSound(l: Ledger, c: Completion)
    requires Sound(l) && Reportable(l, c)
    ensures Sound(Reporting(l, c))
  {
    var l' := Reporting(l, c);
    hide BooksOk, Noted;
    assert l'.queue[|l.queue|] == c;
    forall id | id in l'.books.pending
      ensures l'.books.pending[id] == Seen(l', id)
    {
      assert l.books.pending[id] == Seen(l, id);
      ReportQueued(l.queue, c, id);
    }
  }

  lemma ReportQueued(queue: seq<Completion>, c: Completion, id: nat)
    ensures Queued(queue + [c], id) <==> id == c.id || Queued(queue, id)
  {
    if k :| 0 <= k < |queue| && queue[k].id == id { assert (queue + [c])[k].id == id; }
    assert (queue + [c])[|queue|] == c;
  }

  lemma HeadQueued(queue: seq<Completion>, id: nat)
    requires queue != []
    ensures Queued(queue, id) <==> id == queue[0].id || Queued(queue[1..], id)
  {
    if k :| 0 <= k < |queue[1..]| && queue[1..][k].id == id { assert queue[k + 1].id == id; }
    if k :| 0 <= k < |queue| && queue[k].id == id && k > 0 { assert queue[1..][k - 1].id == id; }
  }

  lemma HeadGone(queue: seq<Completion>, consumed: set<nat>, reported: map<nat, Completion>)
    requires queue != [] && QueueOk(queue, consumed, reported)
    ensures QueueOk(queue[1..], consumed, reported) && !Queued(queue[1..], queue[0].id)
  {
    assert forall k :: 0 <= k < |queue[1..]| ==> queue[1..][k] == queue[k + 1];
  }

  /** The first completion names a request that waits for it. */
  lemma HeadPending(l: Ledger)
    requires Sound(l) && l.queue != []
    ensures l.queue[0].id in l.books.pending && l.books.pending[l.queue[0].id] == l.posted[l.queue[0].id]
    ensures l.reported[l.queue[0].id] == l.queue[0]
  {
    hide BooksOk, Noted, FreshlyPosted;
    HeadQueued(l.queue, l.queue[0].id);
    assert l.queue[0].id in l.books.pending.Keys;
    hide Queued;
  }

  lemma TakeFirstSound(l: Ledger)
    requires Sound(l) && l.queue != []
    ensures l.queue[0].id in l.books.pending && Sound(TakeFirst(l))
  {
    HeadPending(l);
    NoteFirstOk(l.books, l.queue[0]);
    HeadGone(l.queue, l.consumed, l.reported);
    hide BooksOk, QueueOk, Noted, FreshlyPosted, Queued;
    var l' := TakeFirst(l);
    forall id | id in l'.books.pending
      ensures l'.books.pending[id] == Seen(l', id)
    {
      assert l.books.pending[id] == Seen(l, id);
      HeadQueued(l.queue, id);
    }
  }

  /** A completed request has its own completion behind it. */
  lemma CompletedIsReported(l: Ledger, id: nat)
    requires Sound(l) && id in l.books.pending
    ensures l.books.pending[id].completed <==> id in l.reported && !Queued(l.queue, id)
    ensures l.books.pending[id].completed ==> l.books.pending[id].ok == Fitting(l.posted[id], l.reported[id])
    ensures id in l.posted && id !in l.consumed
  {
    hide BooksOk, QueueOk, Queued, Fitting;
    assert id in l.books.pending.Keys;
    assert l.books.pending[id] == Seen(l, id);
  }

  lemma ConsumeSound(l: Ledger, id: nat)
    requires Sound(l) && id in l.books.pending && l.books.pending[id].completed
    ensures Sound(l.(books := Consume(l.books, id), consumed := l.consumed + {id}))
  {
    CompletedIsReported(l, id);
    ConsumeOk(l.books, id);
    var l' := l.(books := Consume(l.books, id), consumed := l.consumed + {id});
    hide BooksOk, Noted, FreshlyPosted;
    assert l'.books.pending.Keys == l.books.pending.Keys - {id};
    forall other | other in l'.books.pending
      ensures l'.books.pending[other] == Seen(l', other)
    {
      assert l.books.pending[other] == Seen(l, other);
    }
    assert QueueOk(l'.queue, l'.consumed, l'.reported);
  }

  /** Polling: no completion names an unknown request, and afterwards every
    request that was reported is completed. */
  lemma {:induction false} PolledSound(l: Ledger)
    requires Sound(l)
    ensures Absorb(l.books, l.queue).1 && Sound(Polled(l))
    decreases |l.queue|
  {
    hide Sound;
    if l.queue != [] {
      TakeFirstSound(l);
      PolledSound(TakeFirst(l));
    }
  }

  /** A wait never meets an unknown request. It returns exactly when its
    request's completion has been reported, and with the verdict on that one. */
  lemma {:induction false} WaitingSound(l: Ledger, id: nat)
    requires Sound(l)
    ensures Sound(Waiting(l, id).0)
    ensures Waiting(l, id).1 ==
            if id !in l.posted || id in l.consumed then NotPending
            else if id in l.reported then Finished(Fitting(l.posted[id], l.reported[id]))
            else Blocked
    decreases |l.queue|
  {
    assert id in l.books.pending <==> id in l.posted && id !in l.consumed by { PendingKeys(l, id); }
    if id in l.books.pending {
      CompletedIsReported(l, id);
      if l.books.pending[id].completed {
        ConsumeSound(l, id);
        assert id in l.reported;
      } else if l.queue == [] {
        assert !Queued(l.queue, id);
      } else {
        TakeFirstSound(l);
        WaitingSound(TakeFirst(l), id);
      }
    }
    hide Sound, Fitting, Consume, NoteFirst;
  }

  lemma PendingKeys(l: Ledger, id: nat)
    requires Kept(l)
    ensures id in l.books.pending <==> id in l.posted && id !in l.consumed
  {
    assert id in l.books.pending <==> id in l.books.pending.Keys;
    hide BooksOk;
  }

  // --- every history ---------------------------------------------------------------------------------------

  /** What can happen at an endpoint, in any order: posts that get as far as the
    device, completions it reports, polls by progress or test, and waits. */
  datatype Event = Post(kind: Kind, bytes: nat, tag: nat, requested: Mode, accepted: bool) | Report(c: Completion) | Poll
                 | Wait(id: nat)

  ghost predicate Possible(l: Ledger, e: Event) {
    e.Report? ==> Reportable(l, e.c)
  }

  function Apply(l: Ledger, e: Event): Ledger {
    match e
    case Post(kind, bytes, tag, requested, accepted) =>
      Posting(l, kind, tag, ZeroCopyRing.ChooseMode(requested, bytes), accepted)
    case Report(c) => Reporting(l, c)
    case Poll => Polled(l)
    case Wait(id) => Waiting(l, id).0
  }

  ghost predicate History(l: Ledger, events: seq<Event>)
    decreases |events|
  {
    events != [] ==> Possible(l, events[0]) && History(Apply(l, events[0]), events[1..])
  }

  function Outcome(l: Ledger, events: seq<Event>): Ledger
    decreases |events|
  {
    if events == [] then l else Outcome(Apply(l, events[0]), events[1..])
  }

  lemma {:induction false} HistorySound(l: Ledger, events: seq<Event>)
    requires Sound(l) && History(l, events)
    ensures Sound(Outcome(l, events))
    decreases |events|
  {
    if events != [] {
      match events[0] {
        case Post(kind, bytes, tag, requested, accepted) =>
          PostingSound(l, kind, tag, ZeroCopyRing.ChooseMode(requested, bytes), accepted);
        case Report(c) => ReportingSound(l, c);
        case Poll => PolledSound(l);
        case Wait(id) => WaitingSound(l, id);
      }
      hide Sound, Posting, Reporting, Polled, Waiting;
      HistorySound(Apply(l, events[0]), events[1..]);
    }
  }

  /** In no history of an endpoint does a poll or a wait come across a
    completion of an unknown request; a wait for a pending request returns
    exactly when its completion was reported, and with the verdict on it. */
  lemma NeverConfused(events: seq<Event>, id: nat)
    requires History(UNUSED, events)
    ensures var l := Outcome(UNUSED, events);
            && Absorb(l.books, l.queue).1
            && Waiting(l, id).1 ==
               if id !in l.posted || id in l.consumed then NotPending
               else if id in l.reported then Finished(Fitting(l.posted[id], l.reported[id]))
               else Blocked
  {
    UnusedSound();
    HistorySound(UNUSED, events);
    hide Sound, Waiting, Absorb, Outcome, History;
    PolledSound(Outcome(UNUSED, events));
    WaitingSound(Outcome(UNUSED, events), id);
  }

  lemma UnusedSound()
    ensures Sound(UNUSED)
  {}

  // --- the verdict of a wait -----------------------------------------------------------------------------------

  /** What the device is handed: a send or a write into remote memory, each
    carrying a tag, or a receive with room for so many bytes. */
  datatype WorkRequest = SendWithImmediate(tag: nat) | WriteWithImmediate(tag: nat, target: Region) | ReceiveInto(bytes: nat)

  /** What a device that succeeds reports, to the side that handed in `w` and to
    the side it reaches; a failure is reported with any opcode and tag. */
  predicate ReportsSent(w: WorkRequest, c: Completion) {
    c.success ==>
      match w
      case SendWithImmediate(_) => c.opcode == SendDone
      case WriteWithImmediate(_, _) => c.opcode == WriteDone
      case ReceiveInto(_) => false
  }

  predicate ReportsReceived(w: WorkRequest, c: Completion) {
    c.success ==>
      match w
      case SendWithImmediate(tag) => c.opcode == Received && c.immediate == Immediate(tag)
      case WriteWithImmediate(tag, _) => c.opcode == ReceivedByWrite && c.immediate == Immediate(tag)
      case ReceiveInto(_) => false
  }

  /** `w` goes out in the mode a rank asked for with so many bytes: eager
    requests, and others of at most 4096 bytes, as sends. */
  predicate GoesOut(w: WorkRequest, requested: Mode, bytes: nat) {
    && !w.ReceiveInto?
    && (w.SendWithImmediate? <==> requested.Eager? || (requested.Auto? && bytes <= 4096))
  }

  lemma {:induction false} OutcomeSplit(l: Ledger, first: seq<Event>, second: seq<Event>)
    ensures Outcome(l, first + second) == Outcome(Outcome(l, first), second)
    ensures History(l, first + second) <==> History(l, first) && History(Outcome(l, first), second)
    decreases |first|
  {
    hide Apply, Possible;
    if first == [] {
      assert first + second == second;
    } else {
      assert (first + second)[1..] == first[1..] + second;
      OutcomeSplit(Apply(l, first[0]), first[1..], second);
    }
  }

  /** What a request was posted for is never changed. */
  lemma {:induction false} PostedStays(l: Ledger, events: seq<Event>, id: nat)
    requires Sound(l) && History(l, events) && id in l.posted
    ensures id in Outcome(l, events).posted && Outcome(l, events).posted[id] == l.posted[id]
    decreases |events|
  {
    if events != [] {
      HistorySound(l, events[..1]);
      assert Outcome(l, events[..1]) == Apply(l, events[0]) by { OneEvent(l, events[0]); assert events[..1] == [events[0]]; }
      assert Kept(l);
      match events[0] {
        case Wait(other) => WaitingPosted(l, other);
        case _ =>
      }
      hide Sound, Kept, Outcome, Waiting, Polled, Enter, Consume, Seen, QueueOk;
      PostedStays(Apply(l, events[0]), events[1..], id);
      OutcomeSplit(l, events[..1], events[1..]);
      assert events == events[..1] + events[1..];
    }
  }

  lemma OneEvent(l: Ledger, e: Event)
    ensures Outcome(l, [e]) == Apply(l, e) && (History(l, [e]) <==> Possible(l, e))
  {
    assert [e][1..] == [];
    hide Apply, Possible;
  }

  lemma {:induction false} WaitingPosted(l: Ledger, id: nat)
    ensures Waiting(l, id).0.posted == l.posted
    decreases |l.queue|
  {
    if id in l.books.pending && !l.books.pending[id].completed && l.queue != [] && l.queue[0].id in l.books.pending {
      WaitingPosted(TakeFirst(l), id);
    }
    hide NoteFirst, Consume;
  }

  /** A request as it is entered: the mode is the one asked for, or follows
    from the size. */
  lemma PostRecorded(l: Ledger, kind: Kind, bytes: nat, tag: nat, requested: Mode)
    ensures var id, l' := l.books.nextId, Apply(l, Post(kind, bytes, tag, requested, true));
            var mode := if !requested.Auto? then requested else if bytes <= 4096 then Eager else Rendezvous;
            && id in l'.posted && id in l'.books.pending
            && l'.posted[id] == Request(kind, tag, mode, l.books.regions, false, true) == l'.books.pending[id]
  {}

  /** Some history in which a request was posted and its completion has come. */
  ghost predicate Reported(before: seq<Event>, post: Event, after: seq<Event>, id: nat) {
    && post.Post? && post.accepted && History(UNUSED, before + [post] + after)
    && id == Outcome(UNUSED, before).books.nextId
    && var l := Outcome(UNUSED, before + [post] + after);
       id in l.reported && id !in l.consumed
  }

  /** A wait for a send says whether the send succeeded, when the device was
    handed what the mode calls for. */
  lemma SendVerdict(before: seq<Event>, post: Event, after: seq<Event>, id: nat, w: WorkRequest)
    requires Reported(before, post, after, id) && post.kind.Sending?
    requires GoesOut(w, post.requested, post.bytes)
    requires ReportsSent(w, Outcome(UNUSED, before + [post] + after).reported[id])
    ensures var l := Outcome(UNUSED, before + [post] + after);
            Waiting(l, id).1 == Finished(l.reported[id].success)
  {
    hide Outcome, History, Waiting, Apply;
    VerdictIsFitting(before, post, after, id);
  }

  /** A wait for a receive says that what came succeeded, and that it was sent
    in the same mode and with the same tag. */
  lemma ReceiveVerdict(before: seq<Event>, post: Event, after: seq<Event>, id: nat, w: WorkRequest, requested: Mode, bytes: nat)
    requires Reported(before, post, after, id) && post.kind.Receiving?
    requires GoesOut(w, requested, bytes)
    requires ReportsReceived(w, Outcome(UNUSED, before + [post] + after).reported[id])
    ensures var l := Outcome(UNUSED, before + [post] + after);
            Waiting(l, id).1 == Finished(l.reported[id].success && w.tag == post.tag
                                         && (GoesOut(w, post.requested, post.bytes)))
  {
    hide Outcome, History, Waiting, Apply;
    VerdictIsFitting(before, post, after, id);
  }

  lemma VerdictIsFitting(before: seq<Event>, post: Event, after: seq<Event>, id: nat)
    requires Reported(before, post, after, id)
    ensures var l := Outcome(UNUSED, before + [post] + after);
            var mode := if !post.requested.Auto? then post.requested else if post.bytes <= 4096 then Eager else Rendezvous;
            exists region :: Waiting(l, id).1 == Finished(Fitting(Request(post.kind, post.tag, mode, region, false, true), l.reported[id]))
  {
    var events, start := before + [post] + after, Outcome(UNUSED, before);
    NeverConfused(events, id);
    assert events == before + ([post] + after);
    OutcomeSplit(UNUSED, before, [post] + after);
    OutcomeSplit(start, [post], after);
    OneEvent(start, post);
    UnusedSound();
    HistorySound(UNUSED, before);
    HistorySound(start, [post]);
    PostRecorded(start, post.kind, post.bytes, post.tag, post.requested);
    hide Outcome, History, Waiting, Apply, Sound, Fitting, Reported;
    PostedStays(Apply(start, post), after, id);
  }

  /** The requests pending are as many as were accepted less those consumed. */
  lemma Accounting(events: seq<Event>)
    requires History(UNUSED, events)
    ensures var l := Outcome(UNUSED, events);
            |l.books.pending| == |l.posted| - |l.consumed| && |l.consumed| <= |l.reported| <= |l.posted|
  {
    UnusedSound();
    HistorySound(UNUSED, events);
    var l := Outcome(UNUSED, events);
    assert l.consumed <= l.reported.Keys <= l.posted.Keys && l.books.pending.Keys == l.posted.Keys - l.consumed;
    hide Sound, Outcome, History;
    assert |l.books.pending| == |l.books.pending.Keys| && |l.posted| == |l.posted.Keys| && |l.reported| == |l.reported.Keys|;
    Subset(l.consumed, l.reported.Keys);
    Subset(l.reported.Keys, l.posted.Keys);
    Subset(l.consumed, l.posted.Keys);
  }

  lemma Subset(a: set<nat>, b: set<nat>)
    requires a <= b
    ensures |a| + |b - a| == |b|
  {
    assert a + (b - a) == b;
  }

  // --- the endpoint ---------------------------------------------------------------------------------

  /** How a post ends: not made, made, or made and then not announced to the
    sender, in which case the request stays pending although the call failed. */
  datatype PostResult = Rejected | Posted(id: nat) | Unannounced(id: nat)

  /** The next control message, if the socket still works. */
  datatype Incoming = Broken | Message(genuine: bool, tag: nat, bytes: nat, mode: Mode, target: Region)

  const POLL_BATCH: nat := 16

  /** What a post asks for before the device is asked: sizes its lengths can
    express, and for a send the descriptor of just this transfer. */
  predicate Expressible(bytes: nat) { 0 < bytes <= 0xFFFF_FFFF }

  predicate Matching(bytes: nat, tag: nat, requested: Mode, incoming: Incoming) {
    incoming.Message? && incoming == Message(true, tag, bytes, ZeroCopyRing.ChooseMode(requested, bytes), incoming.target)
  }

  /** A request that is entered, accepted by the device as `w`, and pending as
    it was posted: in the mode asked for, or the one that follows from the size. */
  ghost predicate Entered(l: Ledger, handed: map<nat, WorkRequest>, id: nat, kind: Kind, bytes: nat, tag: nat, requested: Mode,
                          w: WorkRequest) {
    var mode := if !requested.Auto? then requested else if bytes <= 4096 then Eager else Rendezvous;
    && id in l.posted && id in l.books.pending && id in handed && handed[id] == w
    && l.posted[id] == l.books.pending[id] && l.posted[id].kind == kind && l.posted[id].tag == tag && l.posted[id].mode == mode
  }

  lemma EnteredByPost(l: Ledger, handed: map<nat, WorkRequest>, kind: Kind, bytes: nat, tag: nat, requested: Mode, w: WorkRequest)
    ensures var id, handed' := l.books.nextId, handed[l.books.nextId := w];
            && Entered(Posting(l, kind, tag, ZeroCopyRing.ChooseMode(requested, bytes), true), handed', id, kind, bytes, tag,
                       requested, w)
            && handed' - {id} == handed - {id}
  {
    PostRecorded(l, kind, bytes, tag, requested);
  }

  class Endpoint {
    var books: Books
    var queue: seq<Completion>
    var handed: map<nat, WorkRequest>
    ghost var posted: map<nat, Request>
    ghost var consumed: set<nat>
    ghost var reported: map<nat, Completion>

    ghost function State(): Ledger
      reads this
    {
      Ledger(books, queue, posted, consumed, reported)
    }

    ghost predicate Valid()
      reads this
    {
      Kept(State())
    }

    constructor ()
      ensures Valid() && State() == UNUSED && Sound(State()) && handed == map[]
    {
      books, queue, handed := NO_BOOKS, [], map[];
      posted, consumed, reported := map[], {}, map[];
      new;
      UnusedSound();
    }

    /** `registered` and `accepted` say whether the device takes the memory and
      the work request, `announced` whether the descriptor can be written. */
    method PostReceive(buffer: Region, bytes: nat, tag: nat, requested: Mode, registered: bool, accepted: bool, announced: bool)
      returns (result: PostResult, message: Incoming)
      requires Valid()
      modifies this
      ensures Valid() && (old(Sound(State())) ==> Sound(State()))
      ensures var possible, id, mode := Expressible(bytes) && registered, old(books.nextId), ZeroCopyRing.ChooseMode(requested, bytes);
              && State() == (if possible then Posting(old(State()), Receiving, tag, mode, accepted) else old(State()))
              && id !in old(posted)
              && result == (if !possible || !accepted then Rejected else if announced then Posted(id) else Unannounced(id))
      ensures !result.Rejected? ==>
                var eager := requested.Eager? || (requested.Auto? && bytes <= 4096);
                && Entered(State(), handed, result.id, Receiving, bytes, tag, requested, ReceiveInto(if eager then bytes else 0))
                && message == Message(true, tag, bytes, if eager then Eager else Rendezvous, buffer)
                && handed - {result.id} == old(handed) - {result.id}
      ensures result.Rejected? ==> handed == old(handed)
    {
      hide Kept, Sound, BooksOk, Entered;
      ghost var before := State();
      var mode, id := ZeroCopyRing.ChooseMode(requested, bytes), books.nextId;
      PostingKept(before, Receiving, tag, mode, accepted);
      if Sound(before) { PostingSound(before, Receiving, tag, mode, accepted); }
      message := Broken;
      if bytes == 0 || bytes > MAX_BYTES || !registered {
        return Rejected, message;
      }
      books := Enter(books, Receiving, tag, mode);
      var work := ReceiveInto(if mode.Eager? then bytes else 0);
      if !accepted {
        books := Consume(books, id);
        return Rejected, message;
      }
      EnteredByPost(before, handed, Receiving, bytes, tag, requested, work);
      handed, posted := handed[id := work], posted[id := books.pending[id]];
      message := Message(true, tag, bytes, mode, buffer);
      if !announced {
        return Unannounced(id), message;
      }
      return Posted(id), message;
    }

    /** The descriptor is read and checked before anything is registered; a
      write goes to the memory it names. */
    method PostSend(bytes: nat, tag: nat, requested: Mode, incoming: Incoming, registered: bool, accepted: bool)
      returns (result: PostResult)
      requires Valid()
      modifies this
      ensures Valid() && (old(Sound(State())) ==> Sound(State()))
      ensures var id, mode := old(books.nextId), ZeroCopyRing.ChooseMode(requested, bytes);
              var possible := Expressible(bytes) && registered && Matching(bytes, tag, requested, incoming);
              && State() == (if possible then Posting(old(State()), Sending, tag, mode, accepted) else old(State()))
              && id !in old(posted)
              && result == (if !possible || !accepted then Rejected else Posted(id))
      ensures result.Posted? ==>
                var eager := requested.Eager? || (requested.Auto? && bytes <= 4096);
                && Entered(State(), handed, result.id, Sending, bytes, tag, requested,
                           if eager then SendWithImmediate(tag) else WriteWithImmediate(tag, incoming.target))
                && GoesOut(handed[result.id], requested, bytes)
                && handed - {result.id} == old(handed) - {result.id}
      ensures !result.Posted? ==> handed == old(handed)
    {
      hide Kept, Sound, BooksOk, Entered;
      ghost var before := State();
      var mode, id := ZeroCopyRing.ChooseMode(requested, bytes), books.nextId;
      PostingKept(before, Sending, tag, mode, accepted);
      if Sound(before) { PostingSound(before, Sending, tag, mode, accepted); }
      if bytes == 0 || bytes > MAX_BYTES {
        return Rejected;
      }
      if incoming.Broken? {
        return Rejected;
      }
      if !incoming.genuine || incoming.tag != tag || incoming.bytes != bytes || incoming.mode != mode {
        return Rejected;
      }
      if !registered {
        return Rejected;
      }
      books := Enter(books, Sending, tag, mode);
      var work := if mode.Eager? then SendWithImmediate(tag) else WriteWithImmediate(tag, incoming.target);
      if !accepted {
        books := Consume(books, id);
        return Rejected;
      }
      EnteredByPost(before, handed, Sending, bytes, tag, requested, work);
      handed, posted := handed[id := work], posted[id := books.pending[id]];
      return Posted(id);
    }

    /** The device's own step: it queues the completion of a request it has
      accepted and not reported yet. */
    method ReportCompletion(c: Completion)
      requires Valid() && Reportable(State(), c)
      modifies this`queue, this`reported
      ensures Valid() && (old(Sound(State())) ==> Sound(State()))
      ensures State() == Reporting(old(State()), c)
    {
      if Sound(State()) { ReportingSound(State(), c); }
      queue, reported := queue + [c], reported[c.id := c];
    }

    /** Fails when the completion names no pending request. */
    method HandleCompletion(c: Completion) returns (known: bool)
      requires Valid()
      modifies this`books
      ensures Valid() && known == (c.id in old(books.pending))
      ensures books == Absorb(old(books), [c]).0 && known == Absorb(old(books), [c]).1
      ensures known ==> books == NoteFirst(old(books), c)
      ensures !known ==> books == old(books)
    {
      hide BooksOk, Absorb, NoteFirst;
      AbsorbOk(books, [c]);
      AbsorbOne(books, c);
      if c.id !in books.pending {
        return false;
      }
      books := NoteFirst(books, c);
      known := true;
    }

    /** Takes everything queued, 16 completions at a time. */
    method PollAvailable() returns (known: bool, processed: nat)
      requires Valid()
      modifies this`books, this`queue
      ensures Valid() && (old(Sound(State())) ==> known && Sound(State()))
      ensures known == Absorb(old(books), old(queue)).1 && books == Absorb(old(books), old(queue)).0
      ensures known ==> State() == Polled(old(State())) && processed == |old(queue)|
    {
      hide Kept, Sound, Absorb;
      if Sound(State()) { PolledSound(State()); }
      processed := 0;
      while true
        invariant Valid() && processed + |queue| == |old(queue)|
        invariant Absorb(old(books), old(queue)) == Absorb(books, queue)
        decreases |queue|
      {
        var count := if |queue| < POLL_BATCH then |queue| else POLL_BATCH;
        if count == 0 {
          AbsorbNone(books);
          assert queue == [];
          return true, processed;
        }
        var batch := queue[..count];
        assert queue == batch[0..] + queue[count..];
        QueueIrrelevant(State(), queue[count..]);
        queue := queue[count..];
        ghost var rest := queue;
        var index := 0;
        while index < count
          invariant Valid() && index <= count && queue == rest
          invariant Absorb(old(books), old(queue)) == Absorb(books, batch[index..] + queue)
        {
          AbsorbNext(books, batch[index..] + queue);
          assert (batch[index..] + queue)[1..] == batch[index + 1..] + queue;
          var handled := HandleCompletion(batch[index]);
          if !handled {
            return false, processed;
          }
          index := index + 1;
        }
        assert batch[index..] + queue == queue;
        processed := processed + count;
      }
    }

    /** Polls one completion at a time until the request is done. */
    method WaitRequest(id: nat) returns (result: WaitResult)
      requires Valid()
      modifies this
      ensures Valid() && (old(Sound(State())) ==> !result.Confused? && Sound(State()))
      ensures (State(), result) == Waiting(old(State()), id) && handed == old(handed)
    {
      hide Kept, Sound, Consume, NoteFirst;
      if Sound(State()) { WaitingSound(State(), id); }
      if id !in books.pending {
        return NotPending;
      }
      while !books.pending[id].completed
        invariant Valid() && id in books.pending && handed == old(handed)
        invariant Waiting(old(State()), id) == Waiting(State(), id)
        decreases |queue|
      {
        if queue == [] {
          return Blocked;
        }
        var completion := queue[0];
        QueueIrrelevant(State(), queue[1..]);
        queue := queue[1..];
        var known := HandleCompletion(completion);
        if !known {
          return Confused;
        }
      }
      assert Kept(State().(books := Consume(books, id), consumed := consumed + {id})) by { ConsumeKept(State(), id); }
      result := Finished(books.pending[id].ok);
      books := Consume(books, id);
      consumed := consumed + {id};
    }

    /** Reports whether a request is done, after taking what is queued. */
    method TestRequest(id: nat) returns (found: bool, known: bool, completed: bool)
      requires Valid()
      modifies this`books, this`queue
      ensures Valid() && found == (id in old(books.pending))
      ensures old(Sound(State())) ==> known && Sound(State()) && completed == (found && id in reported)
      ensures !found || old(books.pending[id].completed) ==> State() == old(State()) && known
      ensures found && known && !old(books.pending[id].completed) ==> State() == Polled(old(State()))
      ensures found && known ==> id in books.pending && completed == books.pending[id].completed
    {
      hide Kept, Sound, Absorb;
      found, known, completed := id in books.pending, true, false;
      if found {
        if Sound(State()) { CompletedIsReported(State(), id); }
        if !books.pending[id].completed {
          var processed;
          known, processed := PollAvailable();
          if Sound(State()) && known {
            CompletedIsReported(State(), id);
            assert !Queued(queue, id);
          }
        }
        completed := books.pending[id].completed;
      }
    }

    /** Releases the memory of every request that is still pending, after which
      every region ever registered has been released exactly once. */
    method Destroy()
      requires Valid()
      modifies this
      ensures books.pending == map[] && posted == old(posted) && handed == old(handed)
      ensures BooksOk(books) && books.regions == old(books.regions) && old(books.released) <= books.released
      ensures forall region :: 0 <= region < books.regions ==> region in books.released
    {
      hide Kept, BooksOk, Consume;
      assert BooksOk(books) by { KeptBooks(State()); }
      var left := books.pending.Keys;
      while left != {}
        invariant BooksOk(books) && left == books.pending.Keys && posted == old(posted) && handed == old(handed)
        invariant books.regions == old(books.regions) && old(books.released) <= books.released
        decreases |left|
      {
        var id :| id in left;
        ConsumeOk(books, id);
        Consumed(books, id);
        books := Consume(books, id);
        left := left - {id};
      }
      assert books.pending == map[];
      AllReleased(books);
    }
  }

  lemma KeptBooks(l: Ledger)
    requires Kept(l)
    ensures BooksOk(l.books)
  {}

  lemma Consumed(b: Books, id: nat)
    requires id in b.pending
    ensures Consume(b, id).pending.Keys == b.pending.Keys - {id} && Consume(b, id).regions == b.regions
    ensures b.released <= Consume(b, id).released
  {}

  lemma AllReleased(b: Books)
    requires BooksOk(b) && b.pending == map[]
    ensures forall region :: 0 <= region < b.regions ==> region in b.released
  {}

  lemma QueueIrrelevant(l: Ledger, queue: seq<Completion>)
    ensures Kept(l.(queue := queue)) <==> Kept(l)
  {}

  lemma ConsumeKept(l: Ledger, id: nat)
    requires Kept(l) && id in l.books.pending
    ensures Kept(l.(books := Consume(l.books, id), consumed := l.consumed + {id}))
  {
    ConsumeOk(l.books, id);
    assert Consume(l.books, id).pending.Keys == l.books.pending.Keys - {id};
    hide BooksOk;
  }
}
