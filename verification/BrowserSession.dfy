/**
  The browser at the far end. Its event source reconnects by itself after every lost
  connection, sending the URL's original `after` and the id of the last event it received,
  and the server resumes from the larger of the two.
*/
module BrowserSession {
  import opened EventLedger
  import opened StreamGateway
  import opened StreamProtocol
  import opened StreamDelivery

  function Max(x: nat, y: nat): nat {
    if x < y then y else x
  }

  /** `last` is the page's own cursor, `lastEventId` the one kept by its event source. */
  datatype Browser = Browser(last: nat, lastEventId: nat, handled: seq<Event>)

  function Handle(b: Browser, e: Event): Browser {
    if e.id != 0 && e.id <= b.last then b.(lastEventId := e.id)
    else Browser(if e.id != 0 then e.id else b.last, e.id, b.handled + [e])
  }

  /**
    `taken` frames of the current connection have reached the page; `before` is what was
    handled when the connection was opened.
  */
  datatype World = World(log: seq<Event>, start: nat, conn: Conn, taken: nat, browser: Browser, before: seq<Event>)

  datatype Move = Inside(step: Step) | Receive | Reconnect(credit: nat)

  ghost function Begin(log: seq<Event>, sid: Session, start: nat, credit: nat): World {
    World(log, start, Opened(sid, start, credit), 0, Browser(start, 0, []), [])
  }

  ghost predicate Can(w: World, m: Move) {
    match m
    case Inside(step) => Enabled(w.log, w.conn, step) && (step.Record? ==> Positive(step.batch))
    case Receive => w.taken < |w.conn.gw.frames|
    case Reconnect(_) => true
  }

  /** A lost connection takes whatever was in flight with it. */
  ghost function Move1(w: World, m: Move): World
    requires Can(w, m)
  {
    match m
    case Inside(step) =>
      var next := Apply(w.log, w.conn, step);
      w.(log := next.0, conn := next.1)
    case Receive => w.(taken := w.taken + 1, browser := Handle(w.browser, w.conn.gw.frames[w.taken]))
    case Reconnect(credit) =>
      w.(conn := Opened(w.conn.sid, Max(w.start, w.browser.lastEventId), credit), taken := 0,
         before := w.browser.handled)
  }

  ghost predicate Positive(log: seq<Event>) {
    forall i :: 0 <= i < |log| ==> log[i].id > 0
  }

  // ---- the invariant ----

  /** The resume cursor is the id of a ledger row that was there before the attach. */
  ghost predicate Known(log: seq<Event>, c: Conn) {
    exists p :: 0 <= p < |log| && (c.subscribed ==> p < c.attachedAt) && log[p].id == c.last
  }

  ghost predicate Cursors(w: World) {
    var frames, b := w.conn.gw.frames, w.browser;
    && w.taken <= |frames|
    && (w.conn.last == w.start || (w.conn.last > w.start && Known(w.log, w.conn)))
    && b.last == Max(w.start, b.lastEventId)
    && (if w.taken == 0 then b.last == w.conn.last else b.lastEventId == frames[w.taken - 1].id)
    && b.last == ReadTo(frames, w.taken, w.conn.last)
  }

  ghost function ReadTo(s: seq<Event>, t: nat, last: nat): nat
    requires t <= |s|
  {
    if t == 0 then last else Max(last, s[t - 1].id)
  }

  ghost predicate NothingSkipped(w: World) {
    && Since(w.log, w.conn.sid, w.start) == w.before + Since(w.log, w.conn.sid, w.conn.last)
    && w.taken <= |w.conn.gw.frames|
    && w.browser.handled == w.before + Above(w.conn.gw.frames[..w.taken], w.conn.last)
  }

  ghost predicate WInv(w: World) {
    && Positive(w.log) && Inv(w.log, w.conn) && Cursors(w)
    && NothingSkipped(w) && !Overrun(w)
  }

  /** The attach replay was cut short at one page. */
  ghost predicate CutShort(c: Conn) {
    c.subscribed && c.landed > PAGE
  }

  /** The page has taken a live frame that follows a replay cut short. */
  ghost predicate Overrun(w: World) {
    CutShort(w.conn) && w.taken > |w.conn.base|
  }

  /** The step that does it: the next frame is past the replay. */
  ghost predicate Skips(w: World, m: Move) {
    m == Receive && CutShort(w.conn) && w.taken >= |w.conn.base|
  }

  // ---- what a connection's frames say about the ledger ----

  lemma HeadBelow(f: seq<Event>, t: nat, last: nat)
    requires Ordered(f) && t <= |f|
    ensures t > 0 ==> Above(f[..t], ReadTo(f, t, last)) == []
  {
    var head := f[..t];
    if t > 0 {
      assert forall i :: 0 <= i < t ==> head[i].id <= f[t - 1].id;
      AboveNone(head, ReadTo(f, t, last));
    }
  }

  lemma TailAbove(f: seq<Event>, t: nat, last: nat)
    requires Ordered(f) && t <= |f|
    ensures Above(f[t..], ReadTo(f, t, last)) == Above(f[t..], last)
  {
    var tail, m := f[t..], ReadTo(f, t, last);
    if m != last {
      assert forall i :: 0 <= i < |tail| ==> tail[i] == f[t + i];
      AboveAll(tail, m);
      AboveAll(tail, last);
    }
  }

  /** Reading the first `t` entries of a stream and moving the cursor past them. */
  lemma CutAbove(f: seq<Event>, t: nat, last: nat)
    requires Ordered(f) && t <= |f|
    ensures Above(f, last) == Above(f[..t], last) + Above(f, ReadTo(f, t, last))
  {
    HeadBelow(f, t, last);
    TailAbove(f, t, last);
    CutParts(f[..t], f[t..], last, ReadTo(f, t, last));
    assert f == f[..t] + f[t..];
  }

  lemma CutParts(head: seq<Event>, tail: seq<Event>, low: nat, high: nat)
    requires (head == [] || Above(head, high) == []) && Above(tail, high) == Above(tail, low)
    ensures Above(head + tail, low) == Above(head, low) + Above(head + tail, high)
  {
    AboveAppend(head, tail, low);
    AboveAppend(head, tail, high);
  }

  lemma StreamIsUnseen(log: seq<Event>, c: Conn)
    requires Inv(log, c) && !CutShort(c)
    ensures c.subscribed ==> c.attachedAt <= |log|
    ensures Since(log, c.sid, c.last) == Above(FullStream(log, c), c.last)
  {
    if c.subscribed {
      AttachSplit(log, c);
      AboveTwice(OfSession(log[..c.attachedAt], c.sid), c.last, c.last);
      AboveAppend(AtAttach(log, c), SinceAttach(log, c), c.last);
    } else {
      AboveTwice(OfSession(log, c.sid), c.last, c.last);
    }
  }

  /** Unseen entries `all`, streamed as `f`, of which `frames` arrived and `t` were read. */
  lemma ReadSplit(all: seq<Event>, f: seq<Event>, frames: seq<Event>, t: nat, last: nat)
    requires Ordered(f) && frames <= f && t <= |frames| && Above(all, last) == Above(f, last)
    ensures Above(all, last) == Above(frames[..t], last) + Above(all, ReadTo(frames, t, last))
  {
    var m := ReadTo(frames, t, last);
    assert f[..t] == frames[..t];
    assert ReadTo(f, t, last) == m;
    CutAbove(f, t, last);
    AboveTwice(all, last, m);
    AboveTwice(f, last, m);
  }

  /** What was read of a replay, even one cut short, is the front of the unseen entries. */
  lemma ReplayIsUnseen(log: seq<Event>, c: Conn, t: nat)
    requires Inv(log, c) && CutShort(c) && t <= |c.gw.frames| && t <= |c.base|
    ensures t <= |Since(log, c.sid, c.last)| && c.gw.frames[..t] == Since(log, c.sid, c.last)[..t]
  {
    EmittedSoFar(log, c);
    AttachSplit(log, c);
    var frames, base := c.gw.frames, c.base;
    SameFront(frames, base + SinceAttach(log, c), t);
    SameFront(base, base + SinceAttach(log, c), t);
    SameFront(base, AtAttach(log, c), t);
    SameFront(AtAttach(log, c), Since(log, c.sid, c.last), t);
  }

  lemma SameFront(a: seq<Event>, b: seq<Event>, t: nat)
    requires a <= b && t <= |a|
    ensures a[..t] == b[..t]
  {
  }

  /** The unseen entries of a connection, split where its reader has got to. */
  lemma UnseenSplit(log: seq<Event>, c: Conn, t: nat)
    requires Inv(log, c) && t <= |c.gw.frames| && (CutShort(c) ==> t <= |c.base|)
    ensures Since(log, c.sid, c.last)
         == Above(c.gw.frames[..t], c.last) + Since(log, c.sid, ReadTo(c.gw.frames, t, c.last))
  {
    if CutShort(c) {
      ReplayIsUnseen(log, c, t);
      ReplaySplit(log, c.sid, c.gw.frames, t, c.last);
    } else {
      StreamSplit(log, c, t);
    }
  }

  lemma StreamSplit(log: seq<Event>, c: Conn, t: nat)
    requires Inv(log, c) && !CutShort(c) && t <= |c.gw.frames|
    ensures Since(log, c.sid, c.last)
         == Above(c.gw.frames[..t], c.last) + Since(log, c.sid, ReadTo(c.gw.frames, t, c.last))
  {
    EmittedSoFar(log, c);
    StreamIsUnseen(log, c);
    ReadSplit(OfSession(log, c.sid), FullStream(log, c), c.gw.frames, t, c.last);
  }

  lemma ReplaySplit(log: seq<Event>, sid: Session, frames: seq<Event>, t: nat, last: nat)
    requires Ordered(log) && t <= |frames|
    requires t <= |Since(log, sid, last)| && frames[..t] == Since(log, sid, last)[..t]
    ensures Since(log, sid, last) == Above(frames[..t], last) + Since(log, sid, ReadTo(frames, t, last))
  {
    SinceOrdered(log, sid, last);
    AboveTwice(OfSession(log, sid), last, last);
    ReadSplit(OfSession(log, sid), Since(log, sid, last), frames[..t], t, last);
    assert frames[..t][..t] == frames[..t];
  }

  /** What the page handled, followed by what it has yet to see, are the entries beyond its start. */
  ghost predicate NothingLost(w: World) {
    Since(w.log, w.conn.sid, w.start) == w.browser.handled + Since(w.log, w.conn.sid, w.browser.last)
  }

  /** Until an overrun nothing is lost. */
  lemma HandledPlusUnseen(w: World)
    requires WInv(w)
    ensures NothingLost(w)
  {
    UnseenSplit(w.log, w.conn, w.taken);
    Reassociate(w.before, Above(w.conn.gw.frames[..w.taken], w.conn.last), Since(w.log, w.conn.sid, w.browser.last));
  }

  lemma Reassociate(a: seq<Event>, b: seq<Event>, c: seq<Event>)
    ensures a + (b + c) == (a + b) + c
  {
  }

  // ---- every move keeps the invariant ----

  lemma {:induction false} BroadcastAllKeeps(c: Conn, batch: seq<Event>)
    ensures var r := BroadcastAll(c, batch); r == c.(queue := r.queue, sent := r.sent, cut := r.cut)
  {
    if batch != [] {
      BroadcastAllKeeps(c, batch[..|batch| - 1]);
    }
  }

  lemma StepFacts(log: seq<Event>, c: Conn, step: Step)
    requires Enabled(log, c, step)
    ensures var (log', c') := Apply(log, c, step);
            && log <= log' && c'.sid == c.sid && c'.last == c.last
            && c.gw.frames <= c'.gw.frames
            && (if step.ServingAttach?
                then c'.subscribed && c'.attachedAt == |log| && c'.gw.frames == c.gw.frames && c.gw.calls <= c'.base
                else c'.subscribed == c.subscribed && c'.attachedAt == c.attachedAt && c'.landed == c.landed
                     && c'.base == c.base)
  {
    match step
    case Record(batch) => BroadcastAllKeeps(c, batch);
    case Resuming =>
      match c.reply.value {
        case PageReply(page) => EmitAllExtends(c.gw, page.events);
        case AttachReply(events) =>
          EmitAllExtends(c.gw, events);
          EmitAllExtends(EmitAll(c.gw, events).(attached := true), SortById(c.gw.pendingLive));
      }
    case _ =>
  }

  /** Rows written later are past both cursors. */
  lemma LaterRows(log: seq<Event>, more: seq<Event>, sid: Session, start: nat, last: nat, before: seq<Event>)
    requires Ordered(log + more) && Since(log, sid, start) == before + Since(log, sid, last)
    requires last == start || (last > start && exists p :: 0 <= p < |log| && log[p].id == last)
    ensures Since(log + more, sid, start) == before + Since(log + more, sid, last)
  {
    SinceAppend(log, more, sid, start);
    SinceAppend(log, more, sid, last);
    if last != start {
      var s := OfSession(more, sid);
      MoreIsPast(log, more, sid, last, s);
      AboveAll(s, start);
      AboveAll(s, last);
    }
    Reassociate(before, Since(log, sid, last), Since(more, sid, last));
  }

  lemma MoreIsPast(log: seq<Event>, more: seq<Event>, sid: Session, last: nat, s: seq<Event>)
    requires Ordered(log + more) && (exists p :: 0 <= p < |log| && log[p].id == last) && s == OfSession(more, sid)
    ensures forall i :: 0 <= i < |s| ==> s[i].id > last
  {
    var p :| 0 <= p < |log| && log[p].id == last;
    OfSessionMembers(more, sid);
    forall i | 0 <= i < |s| ensures s[i].id > last {
      assert s[i] in s;
      var q :| 0 <= q < |more| && more[q] == s[i];
      assert (log + more)[p].id < (log + more)[|log| + q].id;
    }
  }

  lemma InsideKeeps(w: World, step: Step)
    requires WInv(w) && Can(w, Inside(step))
    ensures WInv(Move1(w, Inside(step)))
  {
    var (log', c') := Apply(w.log, w.conn, step);
    StepKeeps(w.log, w.conn, step);
    StepFacts(w.log, w.conn, step);
    InsideSkipsNothing(w, log', c');
    InsideCursors(w, log', c');
  }

  lemma InsideSkipsNothing(w: World, log': seq<Event>, c': Conn)
    requires NothingSkipped(w) && Cursors(w) && w.log <= log' && Ordered(log')
    requires c'.sid == w.conn.sid && c'.last == w.conn.last && w.conn.gw.frames <= c'.gw.frames
    ensures NothingSkipped(w.(log := log', conn := c'))
  {
    var more := log'[|w.log|..];
    assert log' == w.log + more;
    LaterRows(w.log, more, c'.sid, w.start, c'.last, w.before);
    assert w.conn.gw.frames[..w.taken] == c'.gw.frames[..w.taken];
  }

  lemma InsideCursors(w: World, log': seq<Event>, c': Conn)
    requires Cursors(w) && c'.last == w.conn.last && w.conn.gw.frames <= c'.gw.frames
    requires Known(w.log, w.conn) ==> Known(log', c')
    ensures Cursors(w.(log := log', conn := c'))
  {
  }

  /** Every frame is a ledger row, and beyond the resume cursor when that is one too. */
  lemma FrameFacts(log: seq<Event>, c: Conn, i: nat)
    requires Inv(log, c) && i < |c.gw.frames|
    ensures exists p :: 0 <= p < |log| && log[p] == c.gw.frames[i]
    ensures Known(log, c) ==> c.gw.frames[i].id > c.last
    ensures i > 0 ==> c.gw.frames[i - 1].id < c.gw.frames[i].id
  {
    EmittedSoFar(log, c);
    var f := FullStream(log, c);
    var e := c.gw.frames[i];
    assert f[i] == e && (i > 0 ==> f[i - 1] == c.gw.frames[i - 1]);
    if c.subscribed {
      FrameOrigin(log, c, i);
    } else {
      SinceMembers(log, c.sid, c.last);
      assert e in f;
    }
  }

  lemma FrameOrigin(log: seq<Event>, c: Conn, i: nat)
    requires Ordered(log) && Attached(log, c) && i < |FullStream(log, c)| && c.subscribed
    ensures exists p :: 0 <= p < |log| && log[p] == FullStream(log, c)[i]
    ensures Known(log, c) ==> FullStream(log, c)[i].id > c.last
  {
    var e := FullStream(log, c)[i];
    if i < |c.base| {
      SinceMembers(log[..c.attachedAt], c.sid, c.last);
      assert e == AtAttach(log, c)[i];
      assert e in AtAttach(log, c);
      var p :| 0 <= p < c.attachedAt && log[..c.attachedAt][p] == e;
      assert log[p] == e;
    } else {
      OfSessionMembers(log[c.attachedAt..], c.sid);
      assert e == SinceAttach(log, c)[i - |c.base|];
      assert e in SinceAttach(log, c);
      var q :| 0 <= q < |log| - c.attachedAt && log[c.attachedAt..][q] == e;
      assert log[c.attachedAt + q] == e;
      if Known(log, c) {
        var p :| 0 <= p < |log| && p < c.attachedAt && log[p].id == c.last;
        assert log[p].id < log[c.attachedAt + q].id;
      }
    }
  }

  /** Taking a frame keeps the invariant, unless it is the first past a replay cut short. */
  lemma ReceiveKeeps(w: World)
    requires WInv(w) && Can(w, Receive)
    ensures Cursors(Move1(w, Receive)) && NothingSkipped(Move1(w, Receive))
    ensures Overrun(Move1(w, Receive)) <==> Skips(w, Receive)
  {
    FrameFacts(w.log, w.conn, w.taken);
    assert w.conn.gw.frames[w.taken].id > 0;
    ReceiveHandled(w);
  }

  lemma ReceiveHandled(w: World)
    requires NothingSkipped(w) && Can(w, Receive) && w.conn.gw.frames[w.taken].id > 0
    requires w.conn.gw.frames[w.taken].id <= w.browser.last <==> w.conn.gw.frames[w.taken].id <= w.conn.last
    ensures NothingSkipped(Move1(w, Receive))
  {
    AboveNext(w.conn.gw.frames, w.taken, w.conn.last);
  }

  lemma AboveNext(f: seq<Event>, t: nat, last: nat)
    requires t < |f|
    ensures Above(f[..t + 1], last) == Above(f[..t], last) + if f[t].id > last then [f[t]] else []
  {
    assert f[..t + 1][..t] == f[..t];
  }

  lemma ReconnectKeeps(w: World, credit: nat)
    requires WInv(w)
    ensures WInv(Move1(w, Reconnect(credit)))
  {
    var w' := Move1(w, Reconnect(credit));
    HandledPlusUnseen(w);
    OpenedInv(w.log, w.conn.sid, w.browser.last, credit);
    if w.browser.last > w.start {
      ReachedIsKnown(w);
      var p :| 0 <= p < |w.log| && w.log[p].id == w.browser.last;
      assert Known(w.log, w'.conn);
    }
    assert w'.conn.gw.frames[..0] == [];
  }

  lemma ReachedIsKnown(w: World)
    requires Inv(w.log, w.conn) && Cursors(w) && w.browser.last > w.start
    ensures exists p :: 0 <= p < |w.log| && w.log[p].id == w.browser.last
  {
    var frames, t := w.conn.gw.frames, w.taken;
    if t > 0 && w.browser.last == frames[t - 1].id {
      FrameFacts(w.log, w.conn, t - 1);
    } else {
      assert w.conn.last == w.browser.last;
    }
  }

  // ---- what an overrun does ----

  /** An entry beyond the start that the page has moved past without handling it. */
  ghost predicate Missed(w: World, e: Event) {
    e in Since(w.log, w.conn.sid, w.start) && e.id <= w.browser.last && e !in w.browser.handled
  }

  ghost predicate LostSome(w: World) {
    exists e :: Missed(w, e)
  }

  lemma MissedIsLost(w: World, e: Event)
    requires Missed(w, e)
    ensures !NothingLost(w)
  {
    SinceMembers(w.log, w.conn.sid, w.browser.last);
  }

  /** A missed entry is missed for good. */
  lemma MissedForGood(w: World, m: Move, e: Event)
    requires Missed(w, e) && Can(w, m)
    ensures Missed(Move1(w, m), e)
  {
    SinceMembers(w.log, w.conn.sid, w.start);
    match m
    case Inside(step) =>
      StepFacts(w.log, w.conn, step);
      SinceMembers(Move1(w, m).log, w.conn.sid, w.start);
    case _ =>
  }

  /** The first entry left out of a replay cut short lies between the replay and the live events. */
  lemma LeftOut(log: seq<Event>, c: Conn) returns (e: Event)
    requires Inv(log, c) && CutShort(c)
    ensures e in log && e.session == c.sid && e.id > c.last
    ensures forall i :: 0 <= i < |c.gw.frames| ==>
              if i < |c.base| then c.gw.frames[i].id < e.id else e.id < c.gw.frames[i].id
  {
    AttachSplit(log, c);
    EmittedSoFar(log, c);
    var before, live, f := AtAttach(log, c), SinceAttach(log, c), c.gw.frames;
    e := before[|c.base|];
    SinceMembers(log[..c.attachedAt], c.sid, c.last);
    assert e in before;
    var p :| 0 <= p < c.attachedAt && log[..c.attachedAt][p] == e;
    assert log[p] == e;
    Between(before, live, c.base, f, |c.base|);
  }

  lemma Between(before: seq<Event>, live: seq<Event>, base: seq<Event>, f: seq<Event>, k: nat)
    requires Ordered(before + live) && k == |base| < |before| && base <= before && f <= base + live
    ensures forall i :: 0 <= i < |f| ==> if i < k then f[i].id < before[k].id else before[k].id < f[i].id
  {
    var all := before + live;
    assert all[k] == before[k];
    forall i | 0 <= i < |f| ensures if i < k then f[i].id < before[k].id else before[k].id < f[i].id {
      if i < k {
        assert f[i] == all[i];
      } else {
        assert f[i] == (base + live)[i] == all[|before| + i - k];
      }
    }
  }

  lemma OverrunMisses(w: World) returns (e: Event)
    requires Inv(w.log, w.conn) && Cursors(w) && NothingSkipped(w) && Overrun(w)
    ensures Missed(w, e)
  {
    e := LeftOut(w.log, w.conn);
    SinceMembers(w.log, w.conn.sid, w.start);
    var taken := w.conn.gw.frames[..w.taken];
    AboveMembers(taken, w.conn.last);
    assert e !in taken;
    NotBefore(w, e);
  }

  /** What lies beyond the resume cursor was not handled by an earlier connection. */
  lemma NotBefore(w: World, e: Event)
    requires Ordered(w.log) && NothingSkipped(w) && e in w.log && e.session == w.conn.sid && e.id > w.conn.last
    ensures e !in w.before
  {
    var all, rest := Since(w.log, w.conn.sid, w.start), Since(w.log, w.conn.sid, w.conn.last);
    SinceOrdered(w.log, w.conn.sid, w.start);
    SinceMembers(w.log, w.conn.sid, w.conn.last);
    var j :| 0 <= j < |rest| && rest[j] == e;
    forall i | 0 <= i < |w.before| ensures w.before[i] != e {
      assert all[i] == w.before[i] && all[|w.before| + j] == e;
    }
  }

  // ---- whole sessions ----

  ghost predicate Plays(w: World, moves: seq<Move>)
    decreases |moves|
  {
    moves == [] || (Can(w, moves[0]) && Plays(Move1(w, moves[0]), moves[1..]))
  }

  ghost function Played(w: World, moves: seq<Move>): World
    requires Plays(w, moves)
    decreases |moves|
  {
    if moves == [] then w else Played(Move1(w, moves[0]), moves[1..])
  }

  /** Somewhere in the session the page takes a live frame of a connection whose replay was cut short. */
  ghost predicate TakesPastGap(w: World, moves: seq<Move>)
    requires Plays(w, moves)
    decreases |moves|
  {
    moves != [] && (Skips(w, moves[0]) || TakesPastGap(Move1(w, moves[0]), moves[1..]))
  }

  lemma MoveKeeps(w: World, m: Move)
    requires WInv(w) && Can(w, m) && !Skips(w, m)
    ensures WInv(Move1(w, m))
  {
    match m
    case Inside(step) => InsideKeeps(w, step);
    case Receive => ReceiveKeeps(w);
    case Reconnect(credit) => ReconnectKeeps(w, credit);
  }

  lemma {:induction false} StaysMissed(w: World, moves: seq<Move>, e: Event)
    requires Missed(w, e) && Plays(w, moves)
    ensures Missed(Played(w, moves), e)
    decreases |moves|
  {
    if moves != [] {
      MissedForGood(w, moves[0], e);
      StaysMissed(Move1(w, moves[0]), moves[1..], e);
    }
  }

  lemma {:induction false} PlayedExactly(w: World, moves: seq<Move>)
    requires WInv(w) && Plays(w, moves)
    ensures if TakesPastGap(w, moves) then LostSome(Played(w, moves)) else WInv(Played(w, moves))
    decreases |moves|
  {
    if moves != [] {
      var next := Move1(w, moves[0]);
      if Skips(w, moves[0]) {
        ReceiveKeeps(w);
        var e := OverrunMisses(next);
        StaysMissed(next, moves[1..], e);
        assert Missed(Played(w, moves), e);
      } else {
        MoveKeeps(w, moves[0]);
        PlayedExactly(next, moves[1..]);
      }
    }
  }

  /**
    Over any number of overflows, closes and resumes, what the page has handled, followed by
    what it has yet to see, is exactly the session's entries beyond where it started if and
    only if it never took a live frame of a connection whose attach found more than one page.
  */
  lemma NothingLostExactlyWhen(log: seq<Event>, sid: Session, start: nat, credit: nat, moves: seq<Move>)
    requires Ordered(log) && Positive(log) && Plays(Begin(log, sid, start, credit), moves)
    ensures NothingLost(Played(Begin(log, sid, start, credit), moves))
        <==> !TakesPastGap(Begin(log, sid, start, credit), moves)
  {
    PlayedExactly(Begin(log, sid, start, credit), moves);
    var w := Played(Begin(log, sid, start, credit), moves);
    if !TakesPastGap(Begin(log, sid, start, credit), moves) {
      HandledPlusUnseen(w);
    } else {
      var e :| Missed(w, e);
      MissedIsLost(w, e);
    }
  }

  // ---- what holds of every session ----

  /** What was handled strictly increases and lies between the start and the page's cursor. */
  ghost predicate Steady(w: World) {
    && Positive(w.log) && Inv(w.log, w.conn) && w.taken <= |w.conn.gw.frames| && w.start <= w.browser.last
    && Ordered(w.browser.handled)
    && forall i :: 0 <= i < |w.browser.handled| ==>
         w.browser.handled[i] in w.log && w.start < w.browser.handled[i].id <= w.browser.last
  }

  lemma MoveSteady(w: World, m: Move)
    requires Steady(w) && Can(w, m)
    ensures Steady(Move1(w, m))
  {
    match m
    case Inside(step) =>
      StepKeeps(w.log, w.conn, step);
      StepFacts(w.log, w.conn, step);
    case Receive =>
      FrameFacts(w.log, w.conn, w.taken);
    case Reconnect(credit) =>
      OpenedInv(w.log, w.conn.sid, Max(w.start, w.browser.lastEventId), credit);
  }

  lemma {:induction false} PlayedSteady(w: World, moves: seq<Move>)
    requires Steady(w) && Plays(w, moves)
    ensures Steady(Played(w, moves)) && Played(w, moves).start == w.start
    decreases |moves|
  {
    if moves != [] {
      MoveSteady(w, moves[0]);
      PlayedSteady(Move1(w, moves[0]), moves[1..]);
    }
  }

  lemma BeginSteady(log: seq<Event>, sid: Session, start: nat, credit: nat)
    requires Ordered(log) && Positive(log)
    ensures Steady(Begin(log, sid, start, credit))
  {
    OpenedInv(log, sid, start, credit);
  }

  /** Over every session, lossy or not, handled ids strictly increase and are ledger rows beyond the start. */
  lemma HandledIdsIncrease(log: seq<Event>, sid: Session, start: nat, credit: nat, moves: seq<Move>)
    requires Ordered(log) && Positive(log) && Plays(Begin(log, sid, start, credit), moves)
    ensures var w := Played(Begin(log, sid, start, credit), moves);
            && Ordered(w.log) && Ordered(w.browser.handled)
            && forall i :: 0 <= i < |w.browser.handled| ==>
                 w.browser.handled[i] in w.log && w.browser.handled[i].id > start
  {
    BeginSteady(log, sid, start, credit);
    PlayedSteady(Begin(log, sid, start, credit), moves);
  }

  /** The page has handled every entry beyond its start. */
  ghost predicate UpToDate(w: World) {
    w.browser.handled == Since(w.log, w.conn.sid, w.start)
  }

  /** A healthy connection with nothing under way, all of whose frames were taken. */
  ghost predicate Quiet(w: World) {
    && w.conn.gw.attached && !w.conn.cut && !w.conn.gw.stop
    && w.conn.wire == [] && w.conn.queue == [] && w.taken == |w.conn.gw.frames|
  }

  lemma QuietIsUpToDate(w: World)
    requires WInv(w) && Quiet(w)
    ensures UpToDate(w) <==> !CutShort(w.conn)
  {
    var log, c := w.log, w.conn;
    QuietStreamIsComplete(log, c);
    assert c.gw.frames[..w.taken] == c.gw.frames;
    if CutShort(c) { NotUpToDate(w); } else { StreamIsUnseen(log, c); }
  }

  /**
    Over every session: once its connection, healthy, has gone quiet, the page is fully up to
    date if and only if it never took a live frame past a gap and the last attach found at
    most one page.
  */
  lemma QuietPageIsUpToDateWhen(log: seq<Event>, sid: Session, start: nat, credit: nat, moves: seq<Move>)
    requires Ordered(log) && Positive(log) && Plays(Begin(log, sid, start, credit), moves)
    requires Quiet(Played(Begin(log, sid, start, credit), moves))
    ensures var w := Played(Begin(log, sid, start, credit), moves);
            UpToDate(w) <==> !TakesPastGap(Begin(log, sid, start, credit), moves) && !CutShort(w.conn)
  {
    var w := Played(Begin(log, sid, start, credit), moves);
    PlayedExactly(Begin(log, sid, start, credit), moves);
    if !TakesPastGap(Begin(log, sid, start, credit), moves) {
      QuietIsUpToDate(w);
    } else {
      var e :| Missed(w, e);
      assert e in Since(w.log, w.conn.sid, w.start) && e !in w.browser.handled;
    }
  }

  lemma NotUpToDate(w: World)
    requires WInv(w) && CutShort(w.conn)
    ensures !UpToDate(w)
  {
    var e := LeftOut(w.log, w.conn);
    SinceMembers(w.log, w.conn.sid, w.start);
    AboveMembers(w.conn.gw.frames[..w.taken], w.conn.last);
    NotBefore(w, e);
    assert e !in w.browser.handled;
  }

  // ---- a session that loses an entry ----

  lemma {:induction false} LogGrows(log: seq<Event>, c: Conn, steps: seq<Step>)
    requires Runs(log, c, steps)
    ensures log <= After(log, c, steps).0
    decreases |steps|
  {
    if steps != [] {
      var next := Apply(log, c, steps[0]);
      LogGrows(next.0, next.1, steps[1..]);
    }
  }

  ghost function AllInside(steps: seq<Step>): seq<Move> {
    seq(|steps|, i requires 0 <= i < |steps| => Inside(steps[i]))
  }

  /** A run of one connection is a session in which the page has taken nothing yet. */
  lemma {:induction false} RunIsPlay(w: World, steps: seq<Step>)
    requires Runs(w.log, w.conn, steps) && Positive(After(w.log, w.conn, steps).0)
    ensures Plays(w, AllInside(steps))
    ensures var (log, c) := After(w.log, w.conn, steps);
            Played(w, AllInside(steps)) == w.(log := log, conn := c)
    decreases |steps|
  {
    if steps != [] {
      var next := Apply(w.log, w.conn, steps[0]);
      LogGrows(next.0, next.1, steps[1..]);
      if steps[0].Record? {
        var batch := steps[0].batch;
        forall i | 0 <= i < |batch| ensures batch[i].id > 0 {
          assert batch[i] == (w.log + batch)[|w.log| + i] == After(w.log, w.conn, steps).0[|w.log| + i];
        }
      }
      RunIsPlay(w.(log := next.0, conn := next.1), steps[1..]);
      assert AllInside(steps)[1..] == AllInside(steps[1..]);
    }
  }

  ghost function Receives(n: nat): seq<Move> {
    seq(n, _ => Receive)
  }

  /** Frames beyond the page's cursor, in order, are all handled. */
  lemma {:induction false} TakesAll(w: World, n: nat)
    requires w.taken + n == |w.conn.gw.frames| && Ordered(w.conn.gw.frames)
    requires n > 0 ==> w.browser.last < w.conn.gw.frames[w.taken].id
    ensures Plays(w, Receives(n))
    ensures var r := Played(w, Receives(n));
            r.log == w.log && r.conn == w.conn && r.start == w.start
            && r.browser.handled == w.browser.handled + w.conn.gw.frames[w.taken..]
    decreases n
  {
    if n > 0 {
      TakesAll(Move1(w, Receive), n - 1);
      assert Receives(n)[1..] == Receives(n - 1);
      var f := w.conn.gw.frames;
      assert [f[w.taken]] + f[w.taken + 1..] == f[w.taken..];
      assert w.browser.handled + f[w.taken..] == (w.browser.handled + [f[w.taken]]) + f[w.taken + 1..];
    }
  }

  lemma {:induction false} PlaysOn(w: World, a: seq<Move>, b: seq<Move>)
    requires Plays(w, a) && Plays(Played(w, a), b)
    ensures Plays(w, a + b) && Played(w, a + b) == Played(Played(w, a), b)
    decreases |a|
  {
    if a == [] {
      assert a + b == b;
    } else {
      PlaysOn(Move1(w, a[0]), a[1..], b);
      assert (a + b)[1..] == a[1..] + b;
    }
  }

  /** 202 entries are written, and the page handles all but the 201st and has moved past it. */
  lemma BurstLosesAnEntry() returns (moves: seq<Move>)
    ensures Plays(Begin([], "s", 0, 500), moves)
    ensures var w := Played(Begin([], "s", 0, 500), moves);
            w.log == Since(w.log, "s", 0) == Burst(202) && w.browser.handled == Burst(200) + [Burst(202)[201]]
    ensures TakesPastGap(Begin([], "s", 0, 500), moves)
  {
    var w0 := Begin([], "s", 0, 500);
    var steps := BurstRun();
    RunIsPlay(w0, steps);
    var w1 := Played(w0, AllInside(steps));
    RunKeepsIdentity([], Opened("s", 0, 500), steps);
    BurstUnseen(202);
    assert forall i, j :: 0 <= i < j < 201 ==> w1.conn.gw.frames[i].id < w1.conn.gw.frames[j].id;
    TakesAll(w1, 201);
    assert w1.conn.gw.frames[0..] == w1.conn.gw.frames;
    PlaysOn(w0, AllInside(steps), Receives(201));
    moves := AllInside(steps) + Receives(201);
    NothingLostExactlyWhen([], "s", 0, 500, moves);
    ShortOfOne(Played(w0, moves));
  }

  lemma ShortOfOne(w: World)
    requires Since(w.log, w.conn.sid, w.start) == Burst(202)
    requires w.browser.handled == Burst(200) + [Burst(202)[201]]
    ensures !NothingLost(w)
  {
    assert w.browser.handled[200] == Burst(202)[201] != Burst(202)[200];
  }
}
