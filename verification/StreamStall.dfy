/**
  A page of the ledger can be one line too long for the client's reader. Reading it ends the
  connection, the browser reconnects with the cursor it had, and the same page is asked for
  again: the session never gets past it.
*/
module StreamStall {
  import opened Wrappers
  import opened EventLedger
  import opened StreamGateway
  import opened StreamProtocol
  import opened StreamDelivery
  import opened BrowserSession
  import opened IpcWriter

  function TextLength(events: seq<Event>): nat {
    if events == [] then 0 else TextLength(events[..|events| - 1]) + |events[|events| - 1].body|
  }

  /** The encoding of a page takes at least one byte for every character of its entries' texts. */
  ghost predicate Wordy(encode: Msg -> Bytes) {
    forall page: Page :: |encode(PageReply(page))| >= TextLength(page.events)
  }

  ghost predicate Overlong(events: seq<Event>) {
    TextLength(events) > LINE_LIMIT + 1
  }

  lemma {:induction false} TextGrows(few: seq<Event>, all: seq<Event>)
    requires few <= all
    ensures TextLength(few) <= TextLength(all)
    decreases |all|
  {
    if few != all { TextGrows(few, all[..|all| - 1]); }
  }

  /** In no move of the session does the reader take a line that does not fit. */
  ghost predicate Legible(encode: Msg -> Bytes, w: World, moves: seq<Move>)
    requires Plays(w, moves)
    decreases |moves|
  {
    moves == [] ||
    ((moves[0] == Inside(Reading) ==> Fits(encode(w.conn.wire[0]))) &&
     Legible(encode, Move1(w, moves[0]), moves[1..]))
  }

  /** What is under way to a gateway still waiting for its first page, or to be asked for it. */
  ghost predicate Awaiting(c: Conn, front: seq<Event>) {
    && !c.subscribed && c.reply.None? && c.gw.frames == []
    && var flying := c.wire + c.queue;
       if flying == [] then c.request == AskPage(c.last)
       else c.request == NoRequest && |flying| == 1 && flying[0].PageReply? && front <= flying[0].page.events
  }

  /** The page is waiting for entries that begin with `front`. */
  ghost predicate Stalled(w: World, front: seq<Event>) {
    && w.taken == 0 && w.browser.last == Max(w.start, w.browser.lastEventId) == w.conn.last
    && front <= EventsSince(w.log, w.conn.sid, w.conn.last, PAGE).events
    && Awaiting(w.conn, front)
  }

  /** A page asked for later begins as it would now. */
  lemma PageExtends(log: seq<Event>, more: seq<Event>, sid: Session, last: nat)
    ensures EventsSince(log, sid, last, PAGE).events <= EventsSince(log + more, sid, last, PAGE).events
  {
    SinceAppend(log, more, sid, last);
  }

  lemma StepStalls(log: seq<Event>, c: Conn, step: Step, front: seq<Event>)
    requires Enabled(log, c, step) && step != Reading && Awaiting(c, front)
    requires front <= EventsSince(log, c.sid, c.last, PAGE).events
    ensures var (log', c') := Apply(log, c, step);
            && c'.sid == c.sid && c'.last == c.last && Awaiting(c', front)
            && front <= EventsSince(log', c.sid, c.last, PAGE).events
  {
    match step
    case Record(batch) =>
      Unsubscribed(c, batch);
      PageExtends(log, batch, c.sid, c.last);
    case ServingPage =>
      assert c.wire + c.queue == [] ==> c.wire == [] && c.queue == [];
    case Writing(n) =>
      assert (c.wire + c.queue[..n]) + c.queue[n..] == c.wire + c.queue;
    case _ =>
  }

  lemma FirstIsOverlong(encode: Msg -> Bytes, c: Conn, front: seq<Event>)
    requires Wordy(encode) && Overlong(front) && Awaiting(c, front) && c.wire != []
    ensures !Fits(encode(c.wire[0]))
  {
    var page := (c.wire + c.queue)[0].page;
    assert c.wire[0] == PageReply(page);
    TextGrows(front, page.events);
  }

  lemma MoveStalls(encode: Msg -> Bytes, w: World, m: Move, front: seq<Event>)
    requires Wordy(encode) && Overlong(front) && Stalled(w, front) && Can(w, m)
    requires m == Inside(Reading) ==> Fits(encode(w.conn.wire[0]))
    ensures Stalled(Move1(w, m), front) && Move1(w, m).browser == w.browser
  {
    match m
    case Inside(step) =>
      if step == Reading { FirstIsOverlong(encode, w.conn, front); } else { StepStalls(w.log, w.conn, step, front); }
    case Receive =>
    case Reconnect(_) =>
  }

  lemma {:induction false} PlayStalls(encode: Msg -> Bytes, w: World, moves: seq<Move>, front: seq<Event>)
    requires Wordy(encode) && Overlong(front) && Stalled(w, front) && Plays(w, moves) && Legible(encode, w, moves)
    ensures Played(w, moves).browser == w.browser
    decreases |moves|
  {
    if moves != [] {
      MoveStalls(encode, w, moves[0], front);
      PlayStalls(encode, Move1(w, moves[0]), moves[1..], front);
    }
  }

  /**
    Once the next page is too long for the reader, no session ever moves the page's cursor
    again, however often it reconnects and whatever else is written.
  */
  lemma OverlongPageIsNeverPassed(encode: Msg -> Bytes, w: World, credit: nat, moves: seq<Move>)
    requires Cursors(w) && Wordy(encode)
    requires Overlong(EventsSince(w.log, w.conn.sid, w.browser.last, PAGE).events)
    requires Plays(Move1(w, Reconnect(credit)), moves) && Legible(encode, Move1(w, Reconnect(credit)), moves)
    ensures Played(Move1(w, Reconnect(credit)), moves).browser == w.browser
  {
    PlayStalls(encode, Move1(w, Reconnect(credit)), moves,
               EventsSince(w.log, w.conn.sid, w.browser.last, PAGE).events);
  }

  ghost function LongEntry(): Event {
    Event(1, "s", seq(65538, _ => 'x'))
  }

  /** One entry of 65538 characters keeps every page from ever handling anything. */
  lemma OneLongEntryStalls(encode: Msg -> Bytes, credit: nat, moves: seq<Move>)
    requires Wordy(encode)
    requires Plays(Begin([LongEntry()], "s", 0, credit), moves)
    requires Legible(encode, Begin([LongEntry()], "s", 0, credit), moves)
    ensures Played(Begin([LongEntry()], "s", 0, credit), moves).browser == Browser(0, 0, [])
  {
    var w := Begin([LongEntry()], "s", 0, credit);
    assert Move1(w, Reconnect(credit)) == w;
    SinceOfOne(LongEntry(), "s", 0);
    assert [LongEntry()][..0] == [] && TextLength([]) == 0;
    OverlongPageIsNeverPassed(encode, w, credit, moves);
  }

  /** Such encodings into lines exist. */
  lemma WordyEncoderExists() returns (encode: Msg -> Bytes)
    ensures Wordy(encode) && forall m :: IsLine(encode(m))
  {
    encode := (m: Msg) => Long(if m.PageReply? then TextLength(m.page.events) else 0);
    forall m ensures IsLine(encode(m)) {
      assert encode(m) == Long(if m.PageReply? then TextLength(m.page.events) else 0);
    }
  }
}
