/**
  An undisturbed stream settles: from any state reached by the protocol, once nothing more is
  written and nothing breaks, the daemon, the writer, the reader and the gateway bring
  everything to the browser in finitely many steps.
*/
module StreamProgress {
  import opened Wrappers
  import opened EventLedger
  import opened StreamGateway
  import opened StreamProtocol
  import opened StreamDelivery

  /** A step that only carries on what is under way. */
  predicate Onward(step: Step) {
    step.ServingPage? || step.ServingAttach? || step.Writing? || step.Reading? || step.Resuming?
  }

  /** Neither cut nor stopped, with a socket that takes a frame for every entry still to be emitted. */
  ghost predicate Healthy(log: seq<Event>, c: Conn) {
    && Inv(log, c) && !c.cut && !c.gw.stop
    && (c.subscribed ==> c.attachedAt <= |log|)
    && |FullStream(log, c)| <= c.gw.credit + |c.gw.calls|
  }

  ghost predicate Settled(c: Conn) {
    c.gw.attached && c.wire == [] && c.queue == [] && !c.cut && !c.gw.stop
  }

  /** What a step does to the gateway is to emit some events. */
  lemma OnwardEmits(log: seq<Event>, c: Conn, step: Step)
    requires Enabled(log, c, step) && Onward(step) && !c.gw.stop
    requires |Apply(log, c, step).1.gw.calls| <= c.gw.credit + |c.gw.calls|
    ensures var g := Apply(log, c, step).1.gw; !g.stop && g.credit + |g.calls| == c.gw.credit + |c.gw.calls|
  {
    match step
    case Reading => if c.wire[0].Live? && c.gw.attached { EmitSpends(c.gw, c.wire[0].event); }
    case Resuming => ResumeEmits(c);
    case _ =>
  }

  lemma ResumeEmits(c: Conn)
    requires c.reply.Some? && !c.reply.value.Live? && !c.gw.stop
    requires |Resume(c).gw.calls| <= c.gw.credit + |c.gw.calls|
    ensures var g := Resume(c).gw; !g.stop && g.credit + |g.calls| == c.gw.credit + |c.gw.calls|
  {
    match c.reply.value
    case PageReply(page) => EmitAllSpends(c.gw, page.events);
    case AttachReply(events) => AttachSpends(c.gw, events);
  }

  lemma AttachSpends(g: Gateway, events: seq<Event>)
    requires !g.stop && |OnAttach(g, events).calls| <= g.credit + |g.calls|
    ensures var r := OnAttach(g, events); !r.stop && r.credit + |r.calls| == g.credit + |g.calls|
  {
    var replayed := EmitAll(g, events).(attached := true);
    CallsGrow(replayed, SortById(g.pendingLive));
    EmitAllKeeps(g, events);
    EmitAllSpends(g, events);
    EmitAllSpends(replayed, SortById(g.pendingLive));
  }

  lemma {:induction false} CallsGrow(g: Gateway, events: seq<Event>)
    ensures |g.calls| <= |EmitAll(g, events).calls|
  {
    if events != [] { CallsGrow(g, events[..|events| - 1]); }
  }

  /** Serving the attach may cut the stretch to be emitted short; no onward step makes it longer. */
  lemma StretchStays(log: seq<Event>, c: Conn, step: Step)
    requires Inv(log, c) && Enabled(log, c, step) && Onward(step) && (c.subscribed ==> c.attachedAt <= |log|)
    ensures var c' := Apply(log, c, step).1;
            (c'.subscribed ==> c'.attachedAt <= |log|) && FullStream(log, c') <= FullStream(log, c)
  {
    if step.ServingAttach? {
      ServeAttachKeeps(log, c);
      assert log[..|log|] == log && log[|log|..] == [];
    } else {
    }
  }

  lemma OnwardKeeps(log: seq<Event>, c: Conn, step: Step)
    requires Healthy(log, c) && Enabled(log, c, step) && Onward(step)
    ensures Apply(log, c, step).0 == log && Healthy(log, Apply(log, c, step).1)
    ensures FullStream(log, Apply(log, c, step).1) <= FullStream(log, c)
  {
    var c' := Apply(log, c, step).1;
    StepKeeps(log, c, step);
    StretchStays(log, c, step);
    EmittedSoFar(log, c');
    OnwardEmits(log, c, step);
  }

  lemma RunCons(log: seq<Event>, c: Conn, step: Step, rest: seq<Step>)
    requires Enabled(log, c, step)
    requires var next := Apply(log, c, step); Runs(next.0, next.1, rest)
    ensures Runs(log, c, [step] + rest)
    ensures var next := Apply(log, c, step); After(log, c, [step] + rest) == After(next.0, next.1, rest)
  {
    assert ([step] + rest)[1..] == rest;
  }

  ghost predicate Settles(log: seq<Event>, c: Conn, steps: seq<Step>) {
    && Runs(log, c, steps) && (forall i :: 0 <= i < |steps| ==> Onward(steps[i]))
    && var (log', c') := After(log, c, steps); log' == log && Healthy(log, c') && Settled(c')
  }

  lemma SettlesCons(log: seq<Event>, c: Conn, step: Step, rest: seq<Step>)
    requires Healthy(log, c) && Enabled(log, c, step) && Onward(step) && Settles(log, Apply(log, c, step).1, rest)
    ensures Settles(log, c, [step] + rest)
  {
    RunCons(log, c, step, rest);
    assert forall i :: 0 <= i < |rest| ==> ([step] + rest)[i + 1] == rest[i];
  }

  /** How far an attached stream's messages still have to go. */
  ghost function Distance(c: Conn): nat {
    3 * |c.queue| + 2 * |c.wire| + if c.reply.Some? then 1 else 0
  }

  /** Once subscribed, everything queued is written, read and emitted. */
  lemma {:induction false} AttachedSettles(log: seq<Event>, c: Conn) returns (steps: seq<Step>)
    requires Healthy(log, c) && c.subscribed
    ensures Settles(log, c, steps)
    decreases Distance(c)
  {
    if c.reply.None? && c.wire == [] && c.queue == [] {
      steps := [];
    } else {
      var step := NextStep(log, c);
      OnwardKeeps(log, c, step);
      var rest := AttachedSettles(log, Apply(log, c, step).1);
      SettlesCons(log, c, step, rest);
      steps := [step] + rest;
    }
  }

  lemma NextStep(log: seq<Event>, c: Conn) returns (step: Step)
    requires Healthy(log, c) && c.subscribed && !(c.reply.None? && c.wire == [] && c.queue == [])
    ensures Enabled(log, c, step) && Onward(step)
    ensures var c' := Apply(log, c, step).1; c'.subscribed && Distance(c') < Distance(c)
  {
    if c.reply.Some? {
      step := Resuming;
      assert InFlight(c)[0] == c.reply.value;
    } else if c.wire != [] {
      step := Reading;
    } else {
      step := Writing(|c.queue|);
    }
  }

  // ---- catching up ----

  ghost predicate EmptyHanded(page: Page) {
    page.hasMore && page.events == []
  }

  /** The page under way to a gateway that is catching up. */
  ghost function PageInFlight(c: Conn): Page
    requires |InFlight(c)| == 1 && InFlight(c)[0].PageReply?
  {
    InFlight(c)[0].page
  }

  ghost function Left(log: seq<Event>, c: Conn): nat {
    var all := |Since(log, c.sid, c.last)|;
    if |c.gw.calls| <= all then all - |c.gw.calls| else 0
  }

  /** A page just served that promises more brings something. */
  ghost function Phase(c: Conn): nat {
    match c.request
    case AskAttach(_) => 0
    case AskPage(_) => 2
    case NoRequest =>
      if |InFlight(c)| == 1 && InFlight(c)[0].PageReply? && EmptyHanded(PageInFlight(c)) then 3 else 1
  }

  lemma CatchUpStep(log: seq<Event>, c: Conn) returns (step: Step)
    requires Healthy(log, c) && !c.subscribed && !c.request.AskAttach?
    ensures Enabled(log, c, step) && Onward(step) && !step.ServingAttach?
    ensures step.ServingPage? <==> c.request.AskPage?
    ensures step.Resuming? <==> c.request.NoRequest? && c.reply.Some?
    ensures step.Resuming? ==> c.reply.value == InFlight(c)[0] && c.reply.value.PageReply?
  {
    if c.request.AskPage? {
      step := ServingPage;
    } else {
      assert InFlight(c) == (if c.reply.Some? then [c.reply.value] else []) + c.wire + c.queue;
      step := if c.reply.Some? then Resuming else if c.wire != [] then Reading else Writing(|c.queue|);
    }
  }

  lemma ServedIsNotEmptyHanded(log: seq<Event>, c: Conn)
    requires Healthy(log, c) && !c.subscribed && c.request.AskPage?
    ensures var c' := ServePage(log, c); Phase(c') == 1 && Left(log, c') == Left(log, c)
  {
    var page := EventsSince(log, c.sid, c.request.after, PAGE);
    assert c.queue == [] && c.wire == [] && c.reply.None? by { assert |InFlight(c)| >= |c.wire| + |c.queue|; }
    assert InFlight(ServePage(log, c)) == [PageReply(page)];
  }

  /** A page picked up brings entries, or else asks for the attach or for what it promised. */
  lemma PickedUp(log: seq<Event>, c: Conn, c': Conn, page: Page)
    requires !c.subscribed && !c'.subscribed && c'.sid == c.sid && c'.last == c.last
    requires c.request.NoRequest? && InFlight(c) == [PageReply(page)]
    requires |c'.gw.calls| == |c.gw.calls| + |page.events| <= |Since(log, c.sid, c.last)|
    requires c'.request.AskAttach? || (c'.request.AskPage? && page.hasMore)
    ensures Left(log, c') <= Left(log, c) && (Left(log, c') < Left(log, c) || Phase(c') < Phase(c))
  {
  }

  lemma PickingUp(log: seq<Event>, c: Conn)
    requires Healthy(log, c) && !c.subscribed && c.request.NoRequest?
    requires c.reply.Some? && c.reply.value == InFlight(c)[0] && c.reply.value.PageReply?
    ensures var c' := Resume(c);
            !c'.subscribed && Left(log, c') <= Left(log, c) && (Left(log, c') < Left(log, c) || Phase(c') < Phase(c))
  {
    ResumePage(log, c);
    OnwardKeeps(log, c, Resuming);
    EmittedSoFar(log, Resume(c));
    PickedUp(log, c, Resume(c), c.reply.value.page);
  }

  lemma {:induction false} CatchUpSettles(log: seq<Event>, c: Conn) returns (steps: seq<Step>)
    requires Healthy(log, c) && !c.subscribed
    ensures Settles(log, c, steps)
    decreases Left(log, c), Phase(c), Distance(c)
  {
    var step, rest := ServingAttach, [];
    if c.request.AskAttach? {
      OnwardKeeps(log, c, step);
      rest := AttachedSettles(log, ServeAttach(log, c));
    } else {
      step := CatchUpStep(log, c);
      OnwardKeeps(log, c, step);
      if step.ServingPage? {
        ServedIsNotEmptyHanded(log, c);
      } else if step.Resuming? {
        PickingUp(log, c);
      } else {
      }
      rest := CatchUpSettles(log, Apply(log, c, step).1);
    }
    SettlesCons(log, c, step, rest);
    steps := [step] + rest;
  }

  /**
    From every state of a healthy stream some finite run of serving, writing, reading and
    resuming alone writes out the whole stretch, nothing left in flight.
  */
  lemma StreamSettles(log: seq<Event>, c: Conn) returns (steps: seq<Step>)
    requires Healthy(log, c)
    ensures Settles(log, c, steps)
    ensures var c' := After(log, c, steps).1;
            (c'.subscribed ==> c'.attachedAt <= |log|) && c'.gw.frames == FullStream(log, c')
  {
    if c.subscribed { steps := AttachedSettles(log, c); } else { steps := CatchUpSettles(log, c); }
    QuietStreamIsComplete(log, After(log, c, steps).1);
  }
}
