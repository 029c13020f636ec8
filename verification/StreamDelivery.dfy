/**
  What the stream protocol delivers: one stream emits the unseen entries exactly once and
  in order, and a browser that reconnects after any number of lost connections handles the
  ledger without a gap.
*/
module StreamDelivery {
  import opened Wrappers
  import opened EventLedger
  import opened StreamGateway
  import opened StreamProtocol

  // ---- one stream ----

  /** All that a connection would emit if nothing more was written and nothing broke. */
  ghost function FullStream(log: seq<Event>, c: Conn): seq<Event>
    requires c.subscribed ==> c.attachedAt <= |log|
  {
    if c.subscribed then c.base + SinceAttach(log, c) else Since(log, c.sid, c.last)
  }

  lemma EmittedSoFar(log: seq<Event>, c: Conn)
    requires Inv(log, c)
    ensures c.subscribed ==> c.attachedAt <= |log|
    ensures c.gw.frames <= c.gw.calls <= FullStream(log, c)
    ensures Ordered(FullStream(log, c))
  {
    if CatchingUp(log, c) {
      SinceOrdered(log, c.sid, c.last);
    } else {
      AttachSplit(log, c);
      OrderedParts(AtAttach(log, c), SinceAttach(log, c), c.base, SinceAttach(log, c));
    }
  }

  /** The first entry written after the attach is beyond the cursor the stream resumed from. */
  ghost predicate CursorBehind(log: seq<Event>, c: Conn)
    requires c.attachedAt <= |log|
  {
    SinceAttach(log, c) == [] || c.last < SinceAttach(log, c)[0].id
  }

  lemma AboveFirst(s: seq<Event>, after: nat)
    requires Ordered(s)
    ensures Above(s, after) == s <==> (s == [] || after < s[0].id)
  {
    AboveMembers(s, after);
    if s != [] {
      assert s[0] in s;
      if after < s[0].id {
        AboveAll(s, after);
      }
    }
  }

  lemma HeldBackLess(log: seq<Event>, c: Conn)
    requires Ordered(log) && Attached(log, c)
    ensures CursorBehind(log, c) ==> Since(log, c.sid, c.last) == AtAttach(log, c) + SinceAttach(log, c)
  {
    AttachSplit(log, c);
    OfSessionOrdered(log[c.attachedAt..], c.sid) by { OrderedTail(log, c.attachedAt); }
    AboveFirst(SinceAttach(log, c), c.last);
  }

  lemma OrderedTail(log: seq<Event>, k: nat)
    requires Ordered(log) && k <= |log|
    ensures Ordered(log[k..]) && Ordered(log[..k])
  {
  }

  /**
    Exactly when the stitching is exact. An attached stream has emitted a prefix of the
    unseen entries -- none lost, doubled or out of order -- if and only if it has emitted no
    live event yet, or at most one page of entries had landed between the last catch-up page
    and the attach and the cursor it resumed from was not ahead of the ledger.
  */
  lemma StitchingExactWhen(log: seq<Event>, c: Conn)
    requires Inv(log, c) && c.subscribed
    ensures c.attachedAt <= |log|
    ensures c.gw.calls <= Since(log, c.sid, c.last)
        <==> |c.gw.calls| <= |c.base| || (c.landed <= PAGE && CursorBehind(log, c))
  {
    AttachSplit(log, c);
    HeldBackLess(log, c);
    var k := |c.base|;
    if k < |c.gw.calls| {
      var before, live, all := AtAttach(log, c), SinceAttach(log, c), Since(log, c.sid, c.last);
      assert c.gw.calls[k] == (c.base + c.sent)[k] == live[0];
      assert live[0] == (before + live)[|before|];
      if c.landed > PAGE {
        assert k < |before|;
        assert all[k] == before[k] == (before + live)[k];
        assert all[k].id < live[0].id;
      } else if !CursorBehind(log, c) {
        SinceMembers(log, c.sid, c.last);
        assert live[0] !in all;
      }
    }
  }

  /** Over every run of a fresh stream: the entries after `last`, once each and in order. */
  lemma StreamIsExact(log: seq<Event>, sid: Session, last: nat, credit: nat, steps: seq<Step>)
    requires Ordered(log) && Runs(log, Opened(sid, last, credit), steps)
    ensures var (log', c) := After(log, Opened(sid, last, credit), steps);
            && Ordered(log')
            && c.gw.frames <= c.gw.calls
            && (!c.subscribed ==> c.gw.calls <= Since(log', sid, last))
            && (c.subscribed ==> c.attachedAt <= |log'|)
            && (c.subscribed && c.landed <= PAGE && CursorBehind(log', c) ==> c.gw.calls <= Since(log', sid, last))
  {
    OpenedInv(log, sid, last, credit);
    RunKeeps(log, Opened(sid, last, credit), steps);
    RunKeepsIdentity(log, Opened(sid, last, credit), steps);
    var (log', c) := After(log, Opened(sid, last, credit), steps);
    if c.subscribed {
      StitchingExactWhen(log', c);
    }
  }

  lemma {:induction false} BroadcastAllKeepsIdentity(c: Conn, batch: seq<Event>)
    ensures BroadcastAll(c, batch).sid == c.sid && BroadcastAll(c, batch).last == c.last
  {
    if batch != [] {
      BroadcastAllKeepsIdentity(c, batch[..|batch| - 1]);
    }
  }

  lemma {:induction false} RunKeepsIdentity(log: seq<Event>, c: Conn, steps: seq<Step>)
    requires Runs(log, c, steps)
    ensures After(log, c, steps).1.sid == c.sid && After(log, c, steps).1.last == c.last
    decreases |steps|
  {
    if steps != [] {
      if steps[0].Record? {
        BroadcastAllKeepsIdentity(c, steps[0].batch);
      }
      var next := Apply(log, c, steps[0]);
      RunKeepsIdentity(next.0, next.1, steps[1..]);
    }
  }

  /**
    Nothing is left behind: an attached stream that was neither cut nor stopped, with
    nothing in flight, has written every entry.
  */
  lemma QuietStreamIsComplete(log: seq<Event>, c: Conn)
    requires Inv(log, c) && c.gw.attached && !c.cut && !c.gw.stop && c.wire == [] && c.queue == []
    ensures c.attachedAt <= |log| && c.gw.frames == FullStream(log, c)
  {
    assert InFlight(c) == [];
    assert |(c.base + c.sent)[|c.gw.calls|..]| == |InFlight(c)|;
  }

  // ---- the two ways the condition fails are reachable ----

  lemma {:induction false} RunSnoc(log: seq<Event>, c: Conn, steps: seq<Step>, step: Step)
    requires Runs(log, c, steps)
    requires var now := After(log, c, steps); Enabled(now.0, now.1, step)
    ensures Runs(log, c, steps + [step])
    ensures var now := After(log, c, steps); After(log, c, steps + [step]) == Apply(now.0, now.1, step)
    decreases |steps|
  {
    var all := steps + [step];
    if steps == [] {
      assert all[1..] == [];
    } else {
      var next := Apply(log, c, steps[0]);
      RunSnoc(next.0, next.1, steps[1..], step);
      assert all[1..] == steps[1..] + [step];
    }
  }

  /** The first steps of any stream over an empty ledger: an empty page, then the attach is asked for. */
  lemma EmptyCatchUp(sid: Session, last: nat, credit: nat) returns (steps: seq<Step>)
    ensures Runs([], Opened(sid, last, credit), steps)
    ensures After([], Opened(sid, last, credit), steps) == ([], Opened(sid, last, credit).(request := AskAttach(last)))
  {
    var c := Opened(sid, last, credit);
    var none: seq<Event> := [];
    var page := Page([], false, last);
    assert EventsSince(none, sid, last, PAGE) == page;
    steps := [];
    RunSnoc(none, c, steps, ServingPage);
    steps := steps + [ServingPage];
    assert ServePage(none, c).queue == [PageReply(page)];
    assert After(none, c, steps) == (none, c.(request := NoRequest, queue := [PageReply(page)]));
    RunSnoc(none, c, steps, Writing(1));
    steps := steps + [Writing(1)];
    assert [] + [PageReply(page)][..1] == [PageReply(page)];
    assert [PageReply(page)][1..] == [];
    assert After(none, c, steps) == (none, c.(request := NoRequest, wire := [PageReply(page)]));
    RunSnoc(none, c, steps, Reading);
    steps := steps + [Reading];
    assert After(none, c, steps) == (none, c.(request := NoRequest, reply := Some(PageReply(page))));
    RunSnoc(none, c, steps, Resuming);
    steps := steps + [Resuming];
  }

  /** From the attach being served to the attach reply emitted. */
  lemma Attaching(log0: seq<Event>, c0: Conn, start: seq<Step>, log: seq<Event>, c: Conn)
    returns (steps: seq<Step>)
    requires Runs(log0, c0, start) && After(log0, c0, start) == (log, c)
    requires c.request.AskAttach? && c.queue == [] && c.wire == [] && c.reply.None? && c.gw.pendingLive == []
    ensures Runs(log0, c0, steps)
    ensures var served := ServeAttach(log, c);
            After(log0, c0, steps)
            == (log, served.(queue := [], gw := OnAttach(c.gw, EventsSince(log, c.sid, c.request.after, PAGE).events)))
  {
    var reply := AttachReply(EventsSince(log, c.sid, c.request.after, PAGE).events);
    var served := ServeAttach(log, c);
    RunSnoc(log0, c0, start, ServingAttach);
    steps := start + [ServingAttach];
    assert served.queue == [reply];
    RunSnoc(log0, c0, steps, Writing(1));
    steps := steps + [Writing(1)];
    assert Write(served, 1) == served.(queue := [], wire := [reply]);
    RunSnoc(log0, c0, steps, Reading);
    steps := steps + [Reading];
    assert After(log0, c0, steps) == (log, served.(queue := [], wire := [], reply := Some(reply)));
    RunSnoc(log0, c0, steps, Resuming);
    steps := steps + [Resuming];
    assert served.(queue := [], wire := [], reply := None) == served.(queue := []);
  }

  /** One more event is recorded, queued, written and emitted live. */
  lemma OneLive(log0: seq<Event>, c0: Conn, start: seq<Step>, log: seq<Event>, c: Conn, e: Event)
    returns (steps: seq<Step>)
    requires Runs(log0, c0, start) && After(log0, c0, start) == (log, c)
    requires Ordered(log + [e]) && e.session == c.sid && c.subscribed && !c.cut && c.gw.attached
    requires c.queue == [] && c.wire == []
    ensures Runs(log0, c0, steps)
    ensures After(log0, c0, steps) == (log + [e], c.(gw := EmitOnce(c.gw, e), sent := c.sent + [e]))
  {
    RunSnoc(log0, c0, start, Record([e]));
    steps := start + [Record([e])];
    assert [e][..0] == [];
    assert BroadcastAll(c, []) == c;
    assert BroadcastAll(c, [e]) == c.(queue := [Live(e)], sent := c.sent + [e]);
    RunSnoc(log0, c0, steps, Writing(1));
    steps := steps + [Writing(1)];
    assert [] + [Live(e)][..1] == [Live(e)] && [Live(e)][1..] == [];
    assert After(log0, c0, steps) == (log + [e], c.(wire := [Live(e)], sent := c.sent + [e]));
    RunSnoc(log0, c0, steps, Reading);
    steps := steps + [Reading];
  }

  /** A resume cursor ahead of the ledger: an entry the client claims to have is emitted. */
  lemma StaleCursorRun() returns (steps: seq<Step>)
    ensures Runs([], Opened("s", 5, 1), steps)
    ensures var (log', c') := After([], Opened("s", 5, 1), steps);
            c'.landed <= PAGE && c'.gw.frames == [Event(1, "s", "x")] && Since(log', "s", 5) == []
  {
    var c := Opened("s", 5, 1);
    var e := Event(1, "s", "x");
    var asked := c.(request := AskAttach(5));
    var none: seq<Event> := [];
    steps := EmptyCatchUp("s", 5, 1);
    steps := Attaching(none, c, steps, none, asked);
    var attached := After(none, c, steps).1;
    steps := OneLive(none, c, steps, none, attached, e);
    SinceOfOne(e, "s", 5);
    assert none + [e] == [e];
  }

  ghost function Burst(n: nat): seq<Event> {
    seq(n, i requires 0 <= i < n => Event(i + 1, "s", "x"))
  }

  lemma {:induction false} BurstOfSession(n: nat)
    ensures OfSession(Burst(n), "s") == Burst(n)
  {
    if n > 0 {
      BurstOfSession(n - 1);
      assert Burst(n)[..n - 1] == Burst(n - 1);
    }
  }

  lemma BurstUnseen(n: nat)
    ensures Ordered(Burst(n)) && Since(Burst(n), "s", 0) == Burst(n)
  {
    BurstOfSession(n);
    var burst := Burst(n);
    assert forall i :: 0 <= i < |burst| ==> burst[i].id > 0;
    AboveAll(burst, 0);
  }

  lemma BurstAttached()
    ensures Ordered(Burst(201)) && Since(Burst(201), "s", 0) == Burst(201)
    ensures EventsSince(Burst(201), "s", 0, PAGE).events == Burst(200)
    ensures var g := OnAttach(Fresh(0, 500), Burst(200));
            && g.calls == Burst(200) && g.attached && g.pendingLive == [] && FramesLead(g) && Topped(g)
            && !g.stop && g.credit == 300
  {
    BurstUnseen(201);
    assert Burst(201)[..200] == Burst(200);
    BurstHandedOver(Fresh(0, 500));
    BurstSpends(Fresh(0, 500));
  }

  lemma BurstHandedOver(g: Gateway)
    requires g == Fresh(0, 500)
    ensures var r := OnAttach(g, Burst(200));
            r.calls == Burst(200) && r.attached && r.pendingLive == [] && FramesLead(r) && Topped(r)
  {
    BurstUnseen(200);
    assert g.calls + Burst(200) + g.pendingLive == Burst(200);
    HandOver(g, Burst(200));
  }

  lemma BurstSpends(g: Gateway)
    requires g == Fresh(0, 500) && |OnAttach(g, Burst(200)).calls| == 200
    ensures var r := OnAttach(g, Burst(200)); !r.stop && r.credit == 300
  {
    var replayed := EmitAll(g, Burst(200)).(attached := true);
    EmitAllKeeps(g, Burst(200));
    assert OnAttach(g, Burst(200)) == EmitAll(replayed, []).(pendingLive := []);
    assert EmitAll(replayed, []) == replayed;
    EmitAllSpends(g, Burst(200));
  }

  /** 201 entries land between the last page and the attach: entry 201 is skipped for good. */
  lemma BurstRun() returns (steps: seq<Step>)
    ensures Runs([], Opened("s", 0, 500), steps)
    ensures var (log', c') := After([], Opened("s", 0, 500), steps);
            && log' == Since(log', "s", 0) == Burst(202)
            && c'.gw.frames == c'.gw.calls == Burst(200) + [Burst(202)[201]]
  {
    var c := Opened("s", 0, 500);
    steps := BurstRecorded();
    BurstAttached();
    steps := Attaching([], c, steps, Burst(201), c.(request := AskAttach(0)));
    BurstEnds(After([], c, steps).1) by {
      assert ServeAttach(Burst(201), c.(request := AskAttach(0))).gw == c.gw;
    }
    var e := Burst(202)[201];
    steps := OneLive([], c, steps, Burst(201), After([], c, steps).1, e);
  }

  /** The catch-up finds an empty ledger; then, before the attach, 201 entries are written. */
  lemma BurstRecorded() returns (steps: seq<Step>)
    ensures Runs([], Opened("s", 0, 500), steps)
    ensures After([], Opened("s", 0, 500), steps) == (Burst(201), Opened("s", 0, 500).(request := AskAttach(0)))
  {
    var c := Opened("s", 0, 500);
    BurstUnseen(201);
    steps := EmptyCatchUp("s", 0, 500);
    assert [] + Burst(201) == Burst(201);
    RunSnoc([], c, steps, Record(Burst(201)));
    steps := steps + [Record(Burst(201))];
    Unsubscribed(c.(request := AskAttach(0)), Burst(201));
  }

  lemma BurstEnds(c: Conn)
    requires c.gw.calls == Burst(200) && FramesLead(c.gw) && Topped(c.gw) && !c.gw.stop && c.gw.credit > 0
    ensures Burst(201) + [Burst(202)[201]] == Burst(202) && Ordered(Burst(202))
    ensures Since(Burst(202), "s", 0) == Burst(202)
    ensures var g := EmitOnce(c.gw, Burst(202)[201]); g.frames == g.calls == Burst(200) + [Burst(202)[201]]
  {
    BurstUnseen(202);
    assert Burst(200)[199].id < Burst(202)[201].id;
    EmitOneFresh(c.gw, Burst(202)[201]);
    EmitSpends(c.gw, Burst(202)[201]);
  }

  lemma {:induction false} Unsubscribed(c: Conn, batch: seq<Event>)
    requires !c.subscribed
    ensures BroadcastAll(c, batch) == c
  {
    if batch != [] {
      Unsubscribed(c, batch[..|batch| - 1]);
    }
  }
}
