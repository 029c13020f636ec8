/**
  An undisturbed session catches up: as long as nothing has been lost, one more connection,
  left alone, brings the page everything it has yet to see.
*/
module SessionProgress {
  import opened Wrappers
  import opened EventLedger
  import opened StreamGateway
  import opened StreamProtocol
  import opened StreamDelivery
  import opened StreamProgress
  import opened BrowserSession

  /** Nothing was written since the latest page, or the attach, was served. */
  ghost predicate Current(log: seq<Event>, c: Conn) {
    if c.subscribed then c.landed <= PAGE && c.attachedAt == |log|
    else match c.request
      case AskPage(_) => true
      case AskAttach(after) => Since(log, c.sid, after) == []
      case NoRequest =>
        |InFlight(c)| == 1 && InFlight(c)[0].PageReply? ==>
          PageInFlight(c).hasMore || Since(log, c.sid, PageInFlight(c).next) == []
  }

  lemma ServedIsCurrent(log: seq<Event>, c: Conn)
    requires Inv(log, c) && !c.subscribed && c.request.AskPage?
    ensures Current(log, ServePage(log, c))
  {
    var page := EventsSince(log, c.sid, c.request.after, PAGE);
    assert c.queue == [] && c.wire == [] && c.reply.None? by { assert |InFlight(c)| >= |c.wire| + |c.queue|; }
    assert InFlight(ServePage(log, c)) == [PageReply(page)];
    PageSplitsUnseen(log, c.sid, c.request.after, PAGE);
  }

  lemma ResumedIsCurrent(log: seq<Event>, c: Conn)
    requires Inv(log, c) && !c.subscribed && Current(log, c) && Enabled(log, c, Resuming) && !Resume(c).gw.stop
    ensures Current(log, Resume(c))
  {
    assert InFlight(c)[0] == c.reply.value;
    assert PageInFlight(c) == c.reply.value.page;
  }

  lemma ReadIsCurrent(log: seq<Event>, c: Conn)
    requires Inv(log, c) && !c.subscribed && Current(log, c) && Enabled(log, c, Reading)
    ensures Current(log, Read(c))
  {
    assert c.reply.None? by { assert |InFlight(c)| >= |c.wire|; }
    assert InFlight(c) == c.wire + c.queue;
    assert InFlight(Read(c)) == InFlight(c);
  }

  lemma OnwardIsCurrent(log: seq<Event>, c: Conn, step: Step)
    requires Healthy(log, c) && Current(log, c) && Enabled(log, c, step) && Onward(step)
    ensures Current(log, Apply(log, c, step).1)
  {
    if !c.subscribed {
      match step
      case ServingPage => ServedIsCurrent(log, c);
      case ServingAttach =>
      case Writing(n) => WriteInFlight(c, n);
      case Reading => ReadIsCurrent(log, c);
      case Resuming =>
        OnwardKeeps(log, c, step);
        ResumedIsCurrent(log, c);
    }
  }

  lemma {:induction false} RunIsCurrent(log: seq<Event>, c: Conn, steps: seq<Step>)
    requires Healthy(log, c) && Current(log, c) && Runs(log, c, steps)
    requires forall i :: 0 <= i < |steps| ==> Onward(steps[i])
    ensures After(log, c, steps).0 == log && Current(log, After(log, c, steps).1)
    decreases |steps|
  {
    if steps != [] {
      OnwardKeeps(log, c, steps[0]);
      OnwardIsCurrent(log, c, steps[0]);
      RunIsCurrent(log, Apply(log, c, steps[0]).1, steps[1..]);
    }
  }

  /** All that a connection attached to a ledger as long as this one brings. */
  lemma AttachedAtTheEnd(log: seq<Event>, c: Conn)
    requires Inv(log, c) && c.gw.attached && Current(log, c)
    ensures FullStream(log, c) == Since(log, c.sid, c.last)
  {
    assert log[..|log|] == log && log[|log|..] == [];
    assert SinceAttach(log, c) == [];
    assert c.base + [] == c.base;
  }

  /** A fresh connection left alone writes out exactly the entries beyond its cursor. */
  lemma OpenedCatchesUp(log: seq<Event>, sid: Session, last: nat) returns (steps: seq<Step>)
    requires Ordered(log)
    ensures Runs(log, Opened(sid, last, |Since(log, sid, last)|), steps)
    ensures var (log', c') := After(log, Opened(sid, last, |Since(log, sid, last)|), steps);
            log' == log && c'.gw.frames == Since(log, sid, last)
  {
    var c := Opened(sid, last, |Since(log, sid, last)|);
    OpenedInv(log, sid, last, c.gw.credit);
    steps := StreamSettles(log, c);
    RunIsCurrent(log, c, steps);
    RunKeepsIdentity(log, c, steps);
    AttachedAtTheEnd(log, After(log, c, steps).1);
  }

  /** From every session that has lost nothing, some finite continuation brings the page up to date. */
  lemma CatchesUp(w: World) returns (moves: seq<Move>)
    requires WInv(w)
    ensures Plays(w, moves) && Played(w, moves).log == w.log && UpToDate(Played(w, moves))
  {
    var unseen := Since(w.log, w.conn.sid, w.browser.last);
    var reopened := Move1(w, Reconnect(|unseen|));
    HandledPlusUnseen(w);
    var steps := OpenedCatchesUp(w.log, w.conn.sid, w.browser.last);
    RunIsPlay(reopened, steps);
    RunKeepsIdentity(w.log, reopened.conn, steps);
    var delivered := Played(reopened, AllInside(steps));
    SinceOrdered(w.log, w.conn.sid, w.browser.last);
    SinceMembers(w.log, w.conn.sid, w.browser.last);
    assert unseen != [] ==> unseen[0] in unseen;
    TakesAll(delivered, |unseen|);
    PlaysOn(reopened, AllInside(steps), Receives(|unseen|));
    var rest := AllInside(steps) + Receives(|unseen|);
    moves := [Reconnect(|unseen|)] + rest;
    assert moves[1..] == rest;
    assert unseen[0..] == unseen;
  }

  ghost predicate CanCatchUp(w: World) {
    exists more: seq<Move> :: Plays(w, more) && UpToDate(Played(w, more))
  }

  lemma LostCannotCatchUp(w: World)
    requires LostSome(w)
    ensures !CanCatchUp(w)
  {
    var e :| Missed(w, e);
    forall more: seq<Move> | Plays(w, more) ensures !UpToDate(Played(w, more)) {
      StaysMissed(w, more, e);
      var end := Played(w, more);
      assert e in Since(end.log, end.conn.sid, end.start) && e !in end.browser.handled;
    }
  }

  /**
    From any session the page can still be brought up to date if and only if it never took a
    live frame of a connection whose attach found more than one page.
  */
  lemma CanCatchUpExactlyWhen(log: seq<Event>, sid: Session, start: nat, credit: nat, moves: seq<Move>)
    requires Ordered(log) && Positive(log) && Plays(Begin(log, sid, start, credit), moves)
    ensures CanCatchUp(Played(Begin(log, sid, start, credit), moves))
        <==> !TakesPastGap(Begin(log, sid, start, credit), moves)
  {
    var w := Played(Begin(log, sid, start, credit), moves);
    PlayedExactly(Begin(log, sid, start, credit), moves);
    if TakesPastGap(Begin(log, sid, start, credit), moves) {
      LostCannotCatchUp(w);
    } else {
      var more := CatchesUp(w);
    }
  }
}
