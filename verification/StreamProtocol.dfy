/**
  One SSE stream end to end: the ledger being written while a gateway catches up by pages,
  attaches, and follows live events through the daemon's bounded client queue.

  Code between two awaits of the daemon or of the gateway is one step. Every interleaving
  of the steps is a run.
*/
module StreamProtocol {
  import opened Wrappers
  import opened EventLedger
  import opened StreamGateway

  const PAGE := 200
  const QUEUE := 500

  datatype Msg = PageReply(page: Page) | AttachReply(events: seq<Event>) | Live(event: Event)

  datatype Request = NoRequest | AskPage(after: nat) | AskAttach(after: nat)

  /**
    A connection from the gateway to the daemon. `queue` is the daemon's queue for it,
    `wire` what the writer has sent and the reader not yet read, `reply` the answer the
    waiting coroutine has not yet picked up. A queue overflow closes the connection, so
    nothing put on the queue after it is delivered: `cut`.

    The last four fields record history: the ledger's length when it was attached, how many
    entries then lay beyond the cursor, the entries emitted up to and including the attach
    reply, and the live events queued since.
  */
  datatype Conn = Conn(sid: Session, last: nat, gw: Gateway, request: Request,
                       queue: seq<Msg>, wire: seq<Msg>, reply: Option<Msg>,
                       subscribed: bool, cut: bool,
                       attachedAt: nat, landed: nat, base: seq<Event>, sent: seq<Event>)

  ghost function Opened(sid: Session, last: nat, credit: nat): Conn {
    Conn(sid, last, Fresh(last, credit), AskPage(last), [], [], None, false, false, 0, 0, [], [])
  }

  // ---- the steps ----

  ghost function Broadcast(c: Conn, e: Event): Conn {
    if !c.subscribed || e.session != c.sid || c.cut then c
    else if |c.queue| < QUEUE then c.(queue := c.queue + [Live(e)], sent := c.sent + [e])
    else c.(cut := true)
  }

  ghost function BroadcastAll(c: Conn, batch: seq<Event>): Conn {
    if batch == [] then c else Broadcast(BroadcastAll(c, batch[..|batch| - 1]), batch[|batch| - 1])
  }

  ghost function ServePage(log: seq<Event>, c: Conn): Conn
    requires c.request.AskPage?
  {
    c.(request := NoRequest, queue := c.queue + [PageReply(EventsSince(log, c.sid, c.request.after, PAGE))])
  }

  /** The subscription and the one-page replay are made in the same step. */
  ghost function ServeAttach(log: seq<Event>, c: Conn): Conn
    requires c.request.AskAttach?
  {
    var events := EventsSince(log, c.sid, c.request.after, PAGE).events;
    c.(request := NoRequest, subscribed := true, queue := c.queue + [AttachReply(events)],
       attachedAt := |log|, landed := |Since(log, c.sid, c.request.after)|, base := c.gw.calls + events)
  }

  ghost function Write(c: Conn, n: nat): Conn
    requires n <= |c.queue|
  {
    c.(wire := c.wire + c.queue[..n], queue := c.queue[n..])
  }

  ghost function Read(c: Conn): Conn
    requires c.wire != []
  {
    var msg, rest := c.wire[0], c.wire[1..];
    if msg.Live? then c.(gw := OnLive(c.gw, msg.event), wire := rest)
    else c.(reply := Some(msg), wire := rest)
  }

  ghost function Resume(c: Conn): Conn
    requires c.reply.Some? && !c.reply.value.Live?
  {
    match c.reply.value
    case PageReply(page) =>
      var gw := OnPage(c.gw, page);
      c.(gw := gw, reply := None,
         request := if page.hasMore && !gw.stop then AskPage(gw.cursor) else AskAttach(gw.cursor))
    case AttachReply(events) => c.(gw := OnAttach(c.gw, events), reply := None)
  }

  datatype Step = Record(batch: seq<Event>) | ServingPage | ServingAttach | Writing(n: nat)
                | Reading | Resuming | Breaking

  ghost predicate Enabled(log: seq<Event>, c: Conn, step: Step) {
    match step
    case Record(batch) => Ordered(log + batch)
    case ServingPage => c.request.AskPage?
    case ServingAttach => c.request.AskAttach?
    case Writing(n) => 0 < n <= |c.queue|
    case Reading => c.wire != [] && (c.wire[0].Live? || c.reply.None?)
    case Resuming => c.reply.Some? && !c.reply.value.Live?
    case Breaking => true
  }

  /** `Breaking`: a heartbeat finds the browser's socket closed. */
  ghost function Apply(log: seq<Event>, c: Conn, step: Step): (seq<Event>, Conn)
    requires Enabled(log, c, step)
  {
    match step
    case Record(batch) => (log + batch, BroadcastAll(c, batch))
    case ServingPage => (log, ServePage(log, c))
    case ServingAttach => (log, ServeAttach(log, c))
    case Writing(n) => (log, Write(c, n))
    case Reading => (log, Read(c))
    case Resuming => (log, Resume(c))
    case Breaking => (log, c.(gw := c.gw.(stop := true)))
  }

  /** `steps` is a run from `(log, c)`. */
  ghost predicate Runs(log: seq<Event>, c: Conn, steps: seq<Step>)
    decreases |steps|
  {
    steps == [] ||
    (Enabled(log, c, steps[0]) &&
     var next := Apply(log, c, steps[0]);
     Runs(next.0, next.1, steps[1..]))
  }

  ghost function After(log: seq<Event>, c: Conn, steps: seq<Step>): (seq<Event>, Conn)
    requires Runs(log, c, steps)
    decreases |steps|
  {
    if steps == [] then (log, c)
    else var next := Apply(log, c, steps[0]); After(next.0, next.1, steps[1..])
  }

  // ---- the invariant ----

  ghost function AsLive(events: seq<Event>): seq<Msg> {
    seq(|events|, i requires 0 <= i < |events| => Live(events[i]))
  }

  /** Everything between the daemon and the gateway's emit, in the order it will be emitted. */
  ghost function InFlight(c: Conn): seq<Msg> {
    (if c.reply.Some? then [c.reply.value] else []) + AsLive(c.gw.pendingLive) + c.wire + c.queue
  }

  /** A page read when the ledger was shorter is still the next stretch of unseen entries. */
  ghost predicate GoodPage(log: seq<Event>, sid: Session, cursor: nat, page: Page) {
    var next := MaxId(page.events, cursor);
    && cursor <= next == page.next
    && Since(log, sid, cursor) == page.events + Since(log, sid, next)
    && (page.events != [] ==> next == page.events[|page.events| - 1].id)
    && (page.events == [] ==> next == cursor)
  }

  ghost predicate CatchingUp(log: seq<Event>, c: Conn) {
    && !c.subscribed && !c.cut && !c.gw.attached && c.gw.pendingLive == [] && c.sent == []
    && Since(log, c.sid, c.last) == c.gw.calls + Since(log, c.sid, c.gw.cursor)
    && c.last <= c.gw.cursor
    && (if c.gw.calls == [] then c.gw.cursor == c.last else c.gw.calls[|c.gw.calls| - 1].id == c.gw.cursor)
    && match c.request
       case NoRequest =>
         && |InFlight(c)| == 1 && InFlight(c)[0].PageReply?
         && GoodPage(log, c.sid, c.gw.cursor, InFlight(c)[0].page)
       case AskPage(after) => after == c.gw.cursor && InFlight(c) == []
       case AskAttach(after) => after == c.gw.cursor && InFlight(c) == []
  }

  ghost function AtAttach(log: seq<Event>, c: Conn): seq<Event>
    requires c.attachedAt <= |log|
  {
    Since(log[..c.attachedAt], c.sid, c.last)
  }

  /** The session's entries written since the attach. */
  ghost function SinceAttach(log: seq<Event>, c: Conn): seq<Event>
    requires c.attachedAt <= |log|
  {
    OfSession(log[c.attachedAt..], c.sid)
  }

  /** What was replayed and queued, against the ledger. */
  ghost predicate Sourced(log: seq<Event>, c: Conn) {
    && c.attachedAt <= |log|
    && c.base <= AtAttach(log, c)
    && (c.landed <= PAGE <==> c.base == AtAttach(log, c))
    && c.sent <= SinceAttach(log, c)
    && (!c.cut ==> c.sent == SinceAttach(log, c))
  }

  /** What was emitted and what is in flight, against what was replayed and queued. */
  ghost predicate Conveyed(c: Conn) {
    && c.gw.calls <= c.base + c.sent
    && if c.gw.attached then
         && c.reply.None? && c.gw.pendingLive == [] && |c.base| <= |c.gw.calls|
         && InFlight(c) == AsLive((c.base + c.sent)[|c.gw.calls|..])
       else
         && |c.gw.calls| <= |c.base|
         && InFlight(c) == [AttachReply(c.base[|c.gw.calls|..])] + AsLive(c.sent)
         && (c.reply.None? ==> c.gw.pendingLive == [])
  }

  ghost predicate Attached(log: seq<Event>, c: Conn) {
    c.subscribed && c.request == NoRequest && Sourced(log, c) && Conveyed(c)
  }

  ghost predicate Inv(log: seq<Event>, c: Conn) {
    && Ordered(log)
    && FramesLead(c.gw) && Topped(c.gw)
    && (CatchingUp(log, c) || Attached(log, c))
  }

  // ---- facts about the pieces ----

  lemma AttachSplit(log: seq<Event>, c: Conn)
    requires Ordered(log) && Attached(log, c)
    ensures Ordered(AtAttach(log, c) + SinceAttach(log, c))
    ensures Ordered(c.base + c.sent)
    ensures Since(log, c.sid, c.last) == AtAttach(log, c) + Above(SinceAttach(log, c), c.last)
  {
    var before, after := log[..c.attachedAt], log[c.attachedAt..];
    assert log == before + after;
    SinceAppend(before, after, c.sid, c.last);
    SplitOrdered(before, after, c.sid, c.last);
    OrderedParts(AtAttach(log, c), SinceAttach(log, c), c.base, c.sent);
  }

  // ---- every step keeps the invariant ----

  lemma BroadcastKeeps(log: seq<Event>, c: Conn, e: Event)
    requires Inv(log, c) && Ordered(log + [e])
    ensures Inv(log + [e], Broadcast(c, e))
  {
    if CatchingUp(log, c) {
      CatchUpGrows(log, c, e);
    } else {
      AttachedGrows(log, c, e);
    }
  }

  lemma AttachedGrows(log: seq<Event>, c: Conn, e: Event)
    requires Attached(log, c)
    ensures Attached(log + [e], Broadcast(c, e))
  {
    SourcedGrows(log, c, e);
    ConveyedGrows(c, e);
  }

  lemma SourcedGrows(log: seq<Event>, c: Conn, e: Event)
    requires Sourced(log, c) && c.subscribed
    ensures Sourced(log + [e], Broadcast(c, e))
  {
    AttachPointStays(log, c, e);
  }

  lemma AttachPointStays(log: seq<Event>, c: Conn, e: Event)
    requires c.attachedAt <= |log|
    ensures AtAttach(log + [e], c) == AtAttach(log, c)
    ensures SinceAttach(log + [e], c) == SinceAttach(log, c) + if e.session == c.sid then [e] else []
  {
    assert (log + [e])[..c.attachedAt] == log[..c.attachedAt];
    assert (log + [e])[c.attachedAt..] == log[c.attachedAt..] + [e];
    OfSessionAppend(log[c.attachedAt..], [e], c.sid);
    SinceOfOne(e, c.sid, 0);
  }

  lemma ConveyedGrows(c: Conn, e: Event)
    requires Conveyed(c) && c.subscribed
    ensures Conveyed(Broadcast(c, e))
  {
    var c' := Broadcast(c, e);
    if c'.sent != c.sent {
      var all, k := c.base + c.sent, |c.gw.calls|;
      assert c'.base + c'.sent == all + [e];
      assert (all + [e])[k..] == all[k..] + [e];
      assert InFlight(c') == InFlight(c) + [Live(e)];
      LiveAppend(all[k..], e);
      LiveAppend(c.sent, e);
    }
  }

  lemma LiveAppend(a: seq<Event>, e: Event)
    ensures AsLive(a + [e]) == AsLive(a) + [Live(e)]
  {
  }

  /** New rows come after everything seen, so they are unseen from every cursor reached. */
  lemma CatchUpGrows(log: seq<Event>, c: Conn, e: Event)
    requires Ordered(log) && CatchingUp(log, c) && Ordered(log + [e])
    ensures CatchingUp(log + [e], c)
  {
    UnseenGrows(log, e, c.sid, c.last, c.gw.cursor, c.gw.calls);
    if c.request.NoRequest? {
      var page := InFlight(c)[0].page;
      UnseenGrows(log, e, c.sid, c.gw.cursor, page.next, page.events);
    }
  }

  lemma UnseenGrows(log: seq<Event>, e: Event, sid: Session, low: nat, high: nat, seen: seq<Event>)
    requires Ordered(log + [e])
    requires Since(log, sid, low) == seen + Since(log, sid, high)
    requires (seen == [] && low == high) || (seen != [] && seen[|seen| - 1].id == high)
    ensures Since(log + [e], sid, low) == seen + Since(log + [e], sid, high)
  {
    SinceAppend(log, [e], sid, low);
    SinceAppend(log, [e], sid, high);
    UnseenAlike(log, e, sid, low, high, seen);
    Extended(Since(log, sid, low), seen, Since(log, sid, high), Since([e], sid, low));
  }

  lemma Extended(all: seq<Event>, seen: seq<Event>, rest: seq<Event>, more: seq<Event>)
    requires all == seen + rest
    ensures all + more == seen + (rest + more)
  {
  }

  /** A row appended later is unseen past `low` exactly when it is unseen past `high`. */
  lemma UnseenAlike(log: seq<Event>, e: Event, sid: Session, low: nat, high: nat, seen: seq<Event>)
    requires Ordered(log + [e])
    requires Since(log, sid, low) == seen + Since(log, sid, high)
    requires (seen == [] && low == high) || (seen != [] && seen[|seen| - 1].id == high)
    ensures Since([e], sid, low) == Since([e], sid, high)
  {
    SinceOfOne(e, sid, low);
    SinceOfOne(e, sid, high);
    if seen != [] {
      var last := seen[|seen| - 1];
      SinceMembers(log, sid, low);
      assert last == Since(log, sid, low)[|seen| - 1];
      var p :| 0 <= p < |log| && log[p] == last;
      assert (log + [e])[p].id < (log + [e])[|log|].id;
    }
  }

  lemma {:induction false} RecordKeeps(log: seq<Event>, c: Conn, batch: seq<Event>)
    requires Inv(log, c) && Ordered(log + batch)
    ensures Inv(log + batch, BroadcastAll(c, batch))
  {
    if batch == [] {
      assert log + batch == log;
    } else {
      var front, e := batch[..|batch| - 1], batch[|batch| - 1];
      assert log + batch == (log + front) + [e];
      OrderedParts(log + front, [e], log + front, []);
      RecordKeeps(log, c, front);
      BroadcastKeeps(log + front, BroadcastAll(c, front), e);
    }
  }

  lemma ServePageKeeps(log: seq<Event>, c: Conn)
    requires Inv(log, c) && c.request.AskPage?
    ensures Inv(log, ServePage(log, c))
  {
    PageIsGood(log, c.sid, c.gw.cursor);
    assert InFlight(ServePage(log, c)) == [PageReply(EventsSince(log, c.sid, c.gw.cursor, PAGE))];
  }

  lemma PageIsGood(log: seq<Event>, sid: Session, cursor: nat)
    requires Ordered(log)
    ensures GoodPage(log, sid, cursor, EventsSince(log, sid, cursor, PAGE))
  {
    PageSplitsUnseen(log, sid, cursor, PAGE);
    PageNext(log, sid, cursor, |EventsSince(log, sid, cursor, PAGE).events|);
  }

  lemma ServeAttachKeeps(log: seq<Event>, c: Conn)
    requires Inv(log, c) && c.request.AskAttach?
    ensures Inv(log, ServeAttach(log, c))
  {
    ServeAttachSourced(log, c);
  }

  lemma ServeAttachSourced(log: seq<Event>, c: Conn)
    requires c.request.AskAttach? && c.request.after == c.gw.cursor && !c.cut && c.sent == []
    requires Since(log, c.sid, c.last) == c.gw.calls + Since(log, c.sid, c.gw.cursor)
    ensures Sourced(log, ServeAttach(log, c))
  {
    var c' := ServeAttach(log, c);
    assert log[..|log|] == log && log[|log|..] == [];
    assert SinceAttach(log, c') == [];
  }

  lemma WriteInFlight(c: Conn, n: nat)
    requires n <= |c.queue|
    ensures InFlight(Write(c, n)) == InFlight(c)
  {
    assert (c.wire + c.queue[..n]) + c.queue[n..] == c.wire + c.queue;
  }

  lemma WriteKeeps(log: seq<Event>, c: Conn, n: nat)
    requires Inv(log, c) && n <= |c.queue|
    ensures Inv(log, Write(c, n))
  {
    WriteInFlight(c, n);
    if CatchingUp(log, c) {
      assert CatchingUp(log, Write(c, n));
    } else {
      assert Conveyed(Write(c, n)) && Sourced(log, Write(c, n));
    }
  }

  lemma ReadKeeps(log: seq<Event>, c: Conn)
    requires Inv(log, c) && Enabled(log, c, Reading)
    ensures Inv(log, Read(c))
  {
    if CatchingUp(log, c) {
      assert c.reply.None? by {
        assert |InFlight(c)| >= |c.wire|;
      }
      assert InFlight(c) == c.wire + c.queue;
      assert InFlight(Read(c)) == InFlight(c);
    } else {
      ReadAttached(log, c);
    }
  }

  lemma ReadAttached(log: seq<Event>, c: Conn)
    requires Ordered(log) && Attached(log, c) && FramesLead(c.gw) && Topped(c.gw) && Enabled(log, c, Reading)
    ensures Attached(log, Read(c)) && FramesLead(Read(c).gw) && Topped(Read(c).gw)
  {
    if c.gw.attached {
      AttachSplit(log, c);
      ReadFollowing(c);
      EmitNext(c);
    } else {
      ReadHandover(c);
    }
    assert Sourced(log, Read(c));
  }

  lemma ReadHandover(c: Conn)
    requires Conveyed(c) && !c.gw.attached && c.wire != [] && (c.wire[0].Live? || c.reply.None?)
    ensures Conveyed(Read(c)) && Read(c).gw == c.gw.(pendingLive := Read(c).gw.pendingLive)
  {
    assert c.wire == [c.wire[0]] + c.wire[1..];
    assert InFlight(c)[0].AttachReply?;
    if c.wire[0].Live? { ReadHeld(c); } else { ReadReply(c); }
  }

  lemma ReadHeld(c: Conn)
    requires Conveyed(c) && !c.gw.attached && c.wire != [] && c.wire[0].Live? && InFlight(c)[0].AttachReply?
    ensures c.reply.Some? && InFlight(Read(c)) == InFlight(c)
  {
    assert c.wire == [c.wire[0]] + c.wire[1..];
    assert c.reply.None? ==> InFlight(c) == c.wire + c.queue;
    LiveAppend(c.gw.pendingLive, c.wire[0].event);
  }

  lemma ReadReply(c: Conn)
    requires c.wire != [] && !c.wire[0].Live? && c.reply.None? && c.gw.pendingLive == []
    ensures InFlight(Read(c)) == InFlight(c)
  {
    assert c.wire == [c.wire[0]] + c.wire[1..];
  }

  /** The next message of an attached stream is the next live event queued. */
  lemma ReadFollowing(c: Conn)
    requires Conveyed(c) && c.gw.attached && c.wire != []
    ensures |c.gw.calls| < |c.base + c.sent| && c.wire[0] == Live((c.base + c.sent)[|c.gw.calls|])
    ensures c.wire[1..] + c.queue == AsLive((c.base + c.sent)[|c.gw.calls| + 1..])
  {
    var rest := (c.base + c.sent)[|c.gw.calls|..];
    assert InFlight(c) == c.wire + c.queue;
    assert c.wire[0] == AsLive(rest)[0];
    assert (c.wire + c.queue)[1..] == c.wire[1..] + c.queue;
    assert AsLive(rest)[1..] == AsLive(rest[1..]);
  }

  lemma EmitNext(c: Conn)
    requires Conveyed(c) && c.gw.attached && c.wire != [] && FramesLead(c.gw) && Topped(c.gw)
    requires Ordered(c.base + c.sent)
    requires |c.gw.calls| < |c.base + c.sent| && c.wire[0] == Live((c.base + c.sent)[|c.gw.calls|])
    requires c.wire[1..] + c.queue == AsLive((c.base + c.sent)[|c.gw.calls| + 1..])
    ensures Conveyed(Read(c)) && FramesLead(Read(c).gw) && Topped(Read(c).gw)
  {
    var all, k := c.base + c.sent, |c.gw.calls|;
    EmitOneFresh(c.gw, all[k]);
    assert Read(c).gw == EmitOnce(c.gw, all[k]);
    FollowingConveyed(c, Read(c));
  }

  lemma FollowingConveyed(c: Conn, c': Conn)
    requires Conveyed(c) && c.gw.attached && c' == c.(gw := c'.gw, wire := c'.wire)
    requires OnlyEmitted(c.gw, c'.gw) && |c'.gw.calls| == |c.gw.calls| + 1 && c'.gw.calls <= c.base + c.sent
    requires c'.wire + c'.queue == AsLive((c.base + c.sent)[|c.gw.calls| + 1..])
    ensures Conveyed(c')
  {
    assert InFlight(c') == c'.wire + c'.queue;
  }

  lemma ResumeKeeps(log: seq<Event>, c: Conn)
    requires Inv(log, c) && Enabled(log, c, Resuming)
    ensures Inv(log, Resume(c))
  {
    assert InFlight(c)[0] == c.reply.value;
    if CatchingUp(log, c) {
      ResumePage(log, c);
    } else {
      ResumeAttached(log, c);
    }
  }

  lemma ResumeAttached(log: seq<Event>, c: Conn)
    requires Ordered(log) && Attached(log, c) && FramesLead(c.gw) && Topped(c.gw)
    requires Enabled(log, c, Resuming) && InFlight(c)[0] == c.reply.value
    ensures Attached(log, Resume(c)) && FramesLead(Resume(c).gw) && Topped(Resume(c).gw)
  {
    AttachSplit(log, c);
    assert !c.gw.attached;
    ResumeAttach(c);
    assert Sourced(log, Resume(c));
  }

  lemma ResumePage(log: seq<Event>, c: Conn)
    requires Inv(log, c) && CatchingUp(log, c) && c.reply.Some? && c.reply.value.PageReply?
    ensures Inv(log, Resume(c)) && Resume(c).gw.calls == c.gw.calls + c.reply.value.page.events
  {
    var page := c.reply.value.page;
    var cursor := c.gw.cursor;
    assert InFlight(c)[0] == c.reply.value;
    assert c.gw.calls + (page.events + Since(log, c.sid, page.next))
        == (c.gw.calls + page.events) + Since(log, c.sid, page.next);
    SinceOrdered(log, c.sid, c.last);
    OrderedParts(c.gw.calls + page.events, Since(log, c.sid, page.next), c.gw.calls + page.events, []);
    EmitAllFresh(c.gw, page.events);
    assert |c.wire + c.queue| == 0;
    var c' := Resume(c);
    assert c'.gw.cursor == page.next && c'.gw.calls == c.gw.calls + page.events;
    assert Since(log, c.sid, c.last) == c'.gw.calls + Since(log, c.sid, page.next);
    assert InFlight(c') == [];
  }

  lemma ResumeAttach(c: Conn)
    requires Conveyed(c) && !c.gw.attached && c.reply.Some? && InFlight(c)[0] == c.reply.value
    requires Ordered(c.base + c.sent) && FramesLead(c.gw) && Topped(c.gw)
    ensures c.reply.value.AttachReply?
    ensures Conveyed(Resume(c)) && FramesLead(Resume(c).gw) && Topped(Resume(c).gw)
  {
    HeldIsSent(c);
    ReplyIsTheRest(c);
    OrderedParts(c.base, c.sent, c.base, c.gw.pendingLive);
    HandOver(c.gw, c.reply.value.events);
    HandedOver(c, Resume(c));
  }

  lemma ReplyIsTheRest(c: Conn)
    requires Conveyed(c) && !c.gw.attached && c.reply.Some? && InFlight(c)[0] == c.reply.value
    ensures c.reply.value.AttachReply? && c.gw.calls + c.reply.value.events == c.base
  {
    var calls := c.gw.calls;
    assert forall i :: 0 <= i < |calls| ==> calls[i] == (c.base + c.sent)[i];
  }

  lemma HandedOver(c: Conn, c': Conn)
    requires c.gw.pendingLive <= c.sent && c.wire + c.queue == AsLive(c.sent[|c.gw.pendingLive|..])
    requires c' == c.(gw := c'.gw, reply := None)
    requires c'.gw.attached && c'.gw.pendingLive == [] && c'.gw.calls == c.base + c.gw.pendingLive
    ensures Conveyed(c')
  {
    var held := c.gw.pendingLive;
    assert (c.base + c.sent)[|c.base + held|..] == c.sent[|held|..];
    assert InFlight(c') == c.wire + c.queue;
  }

  /** The attach reply, then the live events held back meanwhile, are all emitted in order. */
  lemma HandOver(g: Gateway, events: seq<Event>)
    requires Ordered(g.calls + events + g.pendingLive) && FramesLead(g) && Topped(g)
    ensures var r := OnAttach(g, events);
            && r.calls == g.calls + events + g.pendingLive
            && r.attached && r.pendingLive == []
            && FramesLead(r) && Topped(r)
  {
    OrderedParts(g.calls + events, g.pendingLive, g.calls + events, []);
    assert g.calls + events + [] == g.calls + events;
    OrderedParts(g.calls + events, g.pendingLive, [], g.pendingLive);
    EmitAllFresh(g, events);
    SortOfOrdered(g.pendingLive);
    EmitAllFresh(EmitAll(g, events).(attached := true), g.pendingLive);
  }

  lemma HeldIsSent(c: Conn)
    requires Conveyed(c) && !c.gw.attached && c.reply.Some?
    ensures c.gw.pendingLive <= c.sent && c.wire + c.queue == AsLive(c.sent[|c.gw.pendingLive|..])
  {
    var held, rest := c.gw.pendingLive, c.wire + c.queue;
    assert InFlight(c) == [c.reply.value] + (AsLive(held) + rest);
    assert InFlight(c)[1..] == AsLive(held) + rest;
    assert InFlight(c)[1..] == AsLive(c.sent);
    assert |c.sent| == |held| + |rest|;
    forall i | 0 <= i < |held| ensures held[i] == c.sent[i] {
      assert AsLive(c.sent)[i] == AsLive(held)[i];
    }
    forall i | 0 <= i < |rest| ensures rest[i] == AsLive(c.sent[|held|..])[i] {
      assert AsLive(c.sent)[|held| + i] == rest[i];
    }
  }

  lemma StepKeeps(log: seq<Event>, c: Conn, step: Step)
    requires Inv(log, c) && Enabled(log, c, step)
    ensures var next := Apply(log, c, step); Inv(next.0, next.1)
  {
    match step
    case Record(batch) => RecordKeeps(log, c, batch);
    case ServingPage => ServePageKeeps(log, c);
    case ServingAttach => ServeAttachKeeps(log, c);
    case Writing(n) => WriteKeeps(log, c, n);
    case Reading => ReadKeeps(log, c);
    case Resuming => ResumeKeeps(log, c);
    case Breaking => BreakKeeps(log, c);
  }

  lemma BreakKeeps(log: seq<Event>, c: Conn)
    requires Inv(log, c)
    ensures Inv(log, c.(gw := c.gw.(stop := true)))
  {
    assert InFlight(c.(gw := c.gw.(stop := true))) == InFlight(c);
  }

  lemma OpenedInv(log: seq<Event>, sid: Session, last: nat, credit: nat)
    requires Ordered(log)
    ensures Inv(log, Opened(sid, last, credit))
  {
  }

  lemma {:induction false} RunKeeps(log: seq<Event>, c: Conn, steps: seq<Step>)
    requires Inv(log, c) && Runs(log, c, steps)
    ensures Inv(After(log, c, steps).0, After(log, c, steps).1)
    decreases |steps|
  {
    if steps != [] {
      StepKeeps(log, c, steps[0]);
      var next := Apply(log, c, steps[0]);
      RunKeeps(next.0, next.1, steps[1..]);
    }
  }
}
