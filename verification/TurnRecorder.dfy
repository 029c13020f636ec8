/**
  Recording one turn: events stream in from the runtime, are batched, and the turn may be
  cancelled from another connection between any two of them.
*/
module TurnRecorder {
  import opened Wrappers

  const BATCH_MAX := 24

  datatype Kind = TurnStarted | ThinkingStarted | ThinkingCompleted | ApprovalRequired
                | TurnCompleted | TurnFailed | TurnCancelled | TurnBlocked | Ordinary

  datatype Event = Event(kind: Kind, body: string)

  predicate Terminal(e: Event) {
    e.kind in {TurnCompleted, TurnFailed, TurnCancelled, TurnBlocked}
  }

  predicate Critical(e: Event) {
    Terminal(e) || e.kind in {TurnStarted, ThinkingStarted, ThinkingCompleted, ApprovalRequired}
  }

  /** A ledger row: a producer's event, the note a cancellation leaves, or that of a failure. */
  datatype Row = Produced(event: Event) | CancelNote | FailNote

  /** `due`: the batch interval has passed when the event arrives. */
  datatype Input = Arrive(event: Event, due: bool) | Cancel | Finish | Raise

  /**
    A turn in progress: its entries in the active and cancelled tables, the events waiting
    for a flush, and the batches written to the ledger.
  */
  datatype Turn = Turn(active: bool, cancelled: bool, paused: bool, over: bool,
                       pending: seq<Event>, batches: seq<seq<Row>>)

  const SUBMITTED := Turn(true, false, false, false, [], [])

  function Rows(events: seq<Event>): seq<Row> {
    seq(|events|, i requires 0 <= i < |events| => Produced(events[i]))
  }

  function OnEvent(t: Turn, e: Event, due: bool): Turn {
    if t.cancelled then t.(pending := [])
    else
      var held := t.pending + [e];
      var flush := Critical(e) || |held| >= BATCH_MAX || due;
      t.(pending := if flush then [] else held,
         batches := if flush then t.batches + [Rows(held)] else t.batches,
         paused := t.paused || e.kind == ApprovalRequired,
         active := t.active && !Terminal(e))
  }

  function OnCancel(t: Turn): Turn {
    if !t.active then t
    else t.(batches := t.batches + [[CancelNote]], cancelled := true, active := false)
  }

  function Flush(t: Turn): seq<seq<Row>> {
    if t.pending == [] then t.batches else t.batches + [Rows(t.pending)]
  }

  /** Both ends clear the cancelled mark and, unless an approval is awaited, the active one. */
  function OnEnd(t: Turn, raised: bool): Turn {
    var batches :=
      if !raised then Flush(t)
      else if t.cancelled then t.batches
      else Flush(t) + [[FailNote]];
    var active := t.active && t.paused && !(raised && !t.cancelled);
    Turn(active, false, t.paused, true, [], batches)
  }

  function Step(t: Turn, input: Input): Turn {
    match input
    case Arrive(e, due) => if t.over then t else OnEvent(t, e, due)
    case Cancel => OnCancel(t)
    case Finish => if t.over then t else OnEnd(t, false)
    case Raise => if t.over then t else OnEnd(t, true)
  }

  function Run(inputs: seq<Input>): Turn {
    if inputs == [] then SUBMITTED else Step(Run(inputs[..|inputs| - 1]), inputs[|inputs| - 1])
  }

  // ---- the turn as the daemon executes it ----

  class TurnTask {
    var active: bool
    var cancelled: bool
    var paused: bool
    var over: bool
    var pending: seq<Event>
    var batches: seq<seq<Row>>

    function Now(): Turn
      reads this
    {
      Turn(active, cancelled, paused, over, pending, batches)
    }

    constructor ()
      ensures Now() == SUBMITTED
    {
      active, cancelled, paused, over, pending, batches := true, false, false, false, [], [];
    }

    method CancelTurn() returns (accepted: bool)
      modifies this
      ensures accepted == old(active) && Now() == OnCancel(old(Now()))
    {
      if !active { return false; }
      batches := batches + [[CancelNote]];
      cancelled := true;
      active := false;
      return true;
    }

    method Receive(e: Event, due: bool)
      modifies this
      ensures Now() == OnEvent(old(Now()), e, due)
    {
      if cancelled {
        pending := [];
        return;
      }
      pending := pending + [e];
      if Critical(e) || |pending| >= BATCH_MAX || due {
        batches := batches + [Rows(pending)];
        pending := [];
      }
      if e.kind == ApprovalRequired { paused := true; }
      if Terminal(e) { active := false; }
    }

    method End(raised: bool)
      modifies this
      ensures Now() == OnEnd(old(Now()), raised)
    {
      if !raised {
        if pending != [] { batches := batches + [Rows(pending)]; }
      } else if !cancelled {
        active := false;
        if pending != [] { batches := batches + [Rows(pending)]; }
        batches := batches + [[FailNote]];
      }
      pending := [];
      cancelled := false;
      if !paused { active := false; }
      over := true;
    }

    /** The event loop of the turn, with what other connections do interleaved. */
    method Execute(inputs: seq<Input>)
      requires Now() == SUBMITTED
      modifies this
      ensures Now() == Run(inputs)
    {
      for i := 0 to |inputs|
        invariant Now() == Run(inputs[..i])
      {
        assert inputs[..i + 1][..i] == inputs[..i];
        match inputs[i]
        case Arrive(e, due) => if !over { Receive(e, due); }
        case Cancel => var _ := CancelTurn();
        case Finish => if !over { End(false); }
        case Raise => if !over { End(true); }
      }
      assert inputs[..|inputs|] == inputs;
    }
  }

  // ---- the ledger against the stream ----

  /** The events that reached the loop: those that arrived before the stream ended. */
  function Stream(inputs: seq<Input>): seq<Event> {
    if inputs == [] then []
    else
      var front, last := inputs[..|inputs| - 1], inputs[|inputs| - 1];
      if last.Arrive? && !Run(front).over then Stream(front) + [last.event] else Stream(front)
  }

  function Ledger(batches: seq<seq<Row>>): seq<Row> {
    if batches == [] then [] else Ledger(batches[..|batches| - 1]) + batches[|batches| - 1]
  }

  function EventsOf(rows: seq<Row>): seq<Event> {
    if rows == [] then []
    else EventsOf(rows[..|rows| - 1]) + (match rows[|rows| - 1] case Produced(e) => [e] case _ => [])
  }

  lemma {:induction false} EventsOfAppend(a: seq<Row>, b: seq<Row>)
    ensures EventsOf(a + b) == EventsOf(a) + EventsOf(b)
  {
    if b == [] {
      assert a + b == a;
    } else {
      assert (a + b)[..|a + b| - 1] == a + b[..|b| - 1];
      EventsOfAppend(a, b[..|b| - 1]);
    }
  }

  lemma {:induction false} EventsOfRows(events: seq<Event>)
    ensures EventsOf(Rows(events)) == events
  {
    if events != [] {
      assert Rows(events)[..|events| - 1] == Rows(events[..|events| - 1]);
      EventsOfRows(events[..|events| - 1]);
    }
  }

  function Recorded(t: Turn): seq<Event> {
    EventsOf(Ledger(t.batches))
  }

  lemma LedgerSnoc(batches: seq<seq<Row>>, batch: seq<Row>)
    ensures Ledger(batches + [batch]) == Ledger(batches) + batch
    ensures EventsOf(Ledger(batches + [batch])) == EventsOf(Ledger(batches)) + EventsOf(batch)
  {
    assert (batches + [batch])[..|batches|] == batches;
    EventsOfAppend(Ledger(batches), batch);
  }

  // ---- what every run keeps ----

  /**
    The events recorded are a prefix of those streamed, and until a cancellation what is
    pending is exactly the rest; afterwards it may also have been dropped.
  */
  ghost predicate Prefix(t: Turn, stream: seq<Event>) {
    && Recorded(t) <= stream
    && (t.pending != [] || !t.cancelled ==> t.over || Recorded(t) + t.pending == stream)
  }

  ghost predicate Batched(t: Turn) {
    && |t.pending| < BATCH_MAX
    && (forall e :: e in t.pending ==> !Critical(e))
    && forall i :: 0 <= i < |t.batches| ==> |t.batches[i]| <= BATCH_MAX
  }

  lemma RowsBatch(t: Turn, held: seq<Event>)
    ensures Recorded(t.(batches := t.batches + [Rows(held)])) == Recorded(t) + held
    ensures Ledger(t.batches + [Rows(held)]) == Ledger(t.batches) + Rows(held)
  {
    LedgerSnoc(t.batches, Rows(held));
    EventsOfRows(held);
  }

  lemma NoteBatch(t: Turn, note: Row)
    requires !note.Produced?
    ensures Recorded(t.(batches := t.batches + [[note]])) == Recorded(t)
    ensures Ledger(t.batches + [[note]]) == Ledger(t.batches) + [note]
  {
    LedgerSnoc(t.batches, [note]);
    assert [note][..0] == [] && EventsOf([note]) == [];
  }

  lemma StepKeepsPrefix(t: Turn, stream: seq<Event>, input: Input)
    requires Prefix(t, stream)
    ensures Prefix(Step(t, input), if input.Arrive? && !t.over then stream + [input.event] else stream)
  {
    match input
    case Arrive(e, due) => RowsBatch(t, t.pending + [e]);
    case Cancel => NoteBatch(t, CancelNote);
    case Finish => RowsBatch(t, t.pending);
    case Raise =>
      RowsBatch(t, t.pending);
      NoteBatch(t.(batches := Flush(t)), FailNote);
  }

  lemma {:induction false} RecordedIsPrefix(inputs: seq<Input>)
    ensures Prefix(Run(inputs), Stream(inputs))
  {
    if inputs == [] {
      assert Ledger([]) == [] && EventsOf([]) == [];
    } else {
      var front := inputs[..|inputs| - 1];
      RecordedIsPrefix(front);
      StepKeepsPrefix(Run(front), Stream(front), inputs[|inputs| - 1]);
    }
  }

  /** At an event that is critical, due or the 24th waiting, everything produced so far is recorded. */
  lemma FlushCatchesUp(inputs: seq<Input>, e: Event, due: bool)
    requires !Run(inputs).over && !Run(inputs).cancelled
    requires Critical(e) || due || |Run(inputs).pending| + 1 >= BATCH_MAX
    ensures Recorded(Run(inputs + [Arrive(e, due)])) == Stream(inputs) + [e]
  {
    var longer := inputs + [Arrive(e, due)];
    assert longer[..|inputs|] == inputs;
    RecordedIsPrefix(longer);
  }

  /** No batch exceeds 24 rows, and a critical event never waits: it is flushed on arrival. */
  lemma {:induction false} BatchesAreBounded(inputs: seq<Input>)
    ensures Batched(Run(inputs))
  {
    if inputs != [] {
      BatchesAreBounded(inputs[..|inputs| - 1]);
    }
  }

  // ---- cancellation ----

  /** The events recorded after the note of a cancellation. */
  function AfterCancel(rows: seq<Row>): seq<Event> {
    if rows == [] then []
    else
      var front, last := rows[..|rows| - 1], rows[|rows| - 1];
      AfterCancel(front) + (if last.Produced? && CancelNote in front then [last.event] else [])
  }

  lemma {:induction false} AfterCancelAppend(a: seq<Row>, b: seq<Row>)
    requires CancelNote !in b
    ensures AfterCancel(a + b) == AfterCancel(a) + (if CancelNote in a then EventsOf(b) else [])
  {
    if b == [] {
      assert a + b == a;
    } else {
      var front := b[..|b| - 1];
      assert (a + b)[..|a + b| - 1] == a + front;
      AfterCancelAppend(a, front);
    }
  }

  lemma AfterCancelRows(rows: seq<Row>, events: seq<Event>)
    ensures AfterCancel(rows + Rows(events)) == AfterCancel(rows) + (if CancelNote in rows then events else [])
    ensures CancelNote in rows + Rows(events) <==> CancelNote in rows
  {
    AfterCancelAppend(rows, Rows(events));
    EventsOfRows(events);
  }

  lemma AfterCancelNote(rows: seq<Row>, note: Row)
    requires !note.Produced?
    ensures AfterCancel(rows + [note]) == AfterCancel(rows)
  {
    assert (rows + [note])[..|rows|] == rows;
  }

  ghost predicate LateFlush(t: Turn, input: Input) {
    input == Finish && !t.over && t.cancelled && t.pending != []
  }

  /** Where a turn stands with respect to its cancellation. */
  ghost predicate Standing(t: Turn) {
    var noted := CancelNote in Ledger(t.batches);
    && (t.cancelled ==> noted && (t.over || AfterCancel(Ledger(t.batches)) == []))
    && (noted ==> !t.active && (t.cancelled || t.over))
    && (!noted ==> AfterCancel(Ledger(t.batches)) == [])
    && (t.over ==> t.pending == [])
  }

  lemma StandingKept(t: Turn, input: Input)
    requires Standing(t)
    ensures Standing(Step(t, input))
    ensures LateFlush(t, input) ==> AfterCancel(Ledger(Step(t, input).batches)) == t.pending
    ensures !LateFlush(t, input) ==>
              AfterCancel(Ledger(Step(t, input).batches)) == AfterCancel(Ledger(t.batches))
  {
    var rows := Ledger(t.batches);
    match input
    case Arrive(e, due) =>
      RowsBatch(t, t.pending + [e]);
      AfterCancelRows(rows, t.pending + [e]);
    case Cancel =>
      NoteBatch(t, CancelNote);
      AfterCancelNote(rows, CancelNote);
    case Finish =>
      RowsBatch(t, t.pending);
      AfterCancelRows(rows, t.pending);
    case Raise => RaiseStanding(t);
  }

  lemma RaiseStanding(t: Turn)
    requires Standing(t)
    ensures Standing(Step(t, Raise))
    ensures AfterCancel(Ledger(Step(t, Raise).batches)) == AfterCancel(Ledger(t.batches))
  {
    if !t.over && !t.cancelled {
      var rows := Ledger(t.batches);
      RowsBatch(t, t.pending);
      AfterCancelRows(rows, t.pending);
      var flushed := t.(batches := Flush(t));
      NoteBatch(flushed, FailNote);
      AfterCancelNote(Ledger(flushed.batches), FailNote);
    }
  }

  lemma {:induction false} StandingAlways(inputs: seq<Input>)
    ensures Standing(Run(inputs))
  {
    if inputs != [] {
      StandingAlways(inputs[..|inputs| - 1]);
      StandingKept(Run(inputs[..|inputs| - 1]), inputs[|inputs| - 1]);
    }
  }

  ghost predicate FlushedLateAt(inputs: seq<Input>, k: nat)
    requires k < |inputs|
  {
    LateFlush(Run(inputs[..k]), inputs[k])
  }

  ghost predicate FlushedLate(inputs: seq<Input>) {
    exists k: nat :: k < |inputs| && FlushedLateAt(inputs, k)
  }

  lemma FlushedLateAtFront(inputs: seq<Input>, k: nat)
    requires k < |inputs| - 1
    ensures FlushedLateAt(inputs, k) <==> FlushedLateAt(inputs[..|inputs| - 1], k)
  {
    assert inputs[..|inputs| - 1][..k] == inputs[..k];
  }

  lemma FlushedLateSnoc(inputs: seq<Input>)
    requires inputs != []
    ensures var front, last := inputs[..|inputs| - 1], inputs[|inputs| - 1];
            FlushedLate(inputs) <==> FlushedLate(front) || LateFlush(Run(front), last)
  {
    var n := |inputs| - 1;
    if FlushedLate(inputs) {
      var k: nat :| k < |inputs| && FlushedLateAt(inputs, k);
      if k < n { FlushedLateAtFront(inputs, k); }
    }
    if FlushedLate(inputs[..n]) {
      var k: nat :| k < n && FlushedLateAt(inputs[..n], k);
      FlushedLateAtFront(inputs, k);
    }
    assert FlushedLateAt(inputs, n) <==> LateFlush(Run(inputs[..n]), inputs[n]);
  }

  /**
    Exactly when a producer event follows the cancellation in the ledger: when the stream
    finished, without another event, while events were still waiting for a flush.
  */
  lemma {:induction false} ProducerAfterCancelWhen(inputs: seq<Input>)
    ensures AfterCancel(Ledger(Run(inputs).batches)) != [] <==> FlushedLate(inputs)
  {
    if inputs != [] {
      var front, last := inputs[..|inputs| - 1], inputs[|inputs| - 1];
      ProducerAfterCancelWhen(front);
      StandingAlways(front);
      StandingKept(Run(front), last);
      FlushedLateSnoc(inputs);
    }
  }

  /** Whenever the stream finishes, the last event it brought is a terminal one. */
  ghost predicate EndsInTerminal(inputs: seq<Input>) {
    forall k :: 0 <= k < |inputs| && inputs[k] == Finish && !Run(inputs[..k]).over ==>
      Stream(inputs[..k]) != [] && Terminal(Stream(inputs[..k])[|Stream(inputs[..k])| - 1])
  }

  lemma WaitingIsNotTerminal(t: Turn, stream: seq<Event>)
    requires Prefix(t, stream) && Batched(t) && !t.over && t.pending != []
    ensures stream != [] && !Terminal(stream[|stream| - 1])
  {
    assert stream[|stream| - 1] == t.pending[|t.pending| - 1];
    assert t.pending[|t.pending| - 1] in t.pending;
  }

  /** So a stream that ends in a terminal event leaves nothing after its cancellation. */
  lemma NothingAfterCancel(inputs: seq<Input>)
    requires EndsInTerminal(inputs)
    ensures AfterCancel(Ledger(Run(inputs).batches)) == []
  {
    ProducerAfterCancelWhen(inputs);
    forall k: nat | k < |inputs| ensures !FlushedLateAt(inputs, k) {
      RecordedIsPrefix(inputs[..k]);
      BatchesAreBounded(inputs[..k]);
      if !Run(inputs[..k]).over && Run(inputs[..k]).pending != [] {
        WaitingIsNotTerminal(Run(inputs[..k]), Stream(inputs[..k]));
      }
    }
  }

  // ---- nothing is lost without a cancellation ----

  ghost predicate Complete(t: Turn, stream: seq<Event>) {
    t.over && CancelNote !in Ledger(t.batches) ==> Recorded(t) == stream
  }

  lemma StepKeepsComplete(t: Turn, stream: seq<Event>, input: Input)
    requires Prefix(t, stream) && Complete(t, stream) && Standing(t)
    ensures Complete(Step(t, input), if input.Arrive? && !t.over then stream + [input.event] else stream)
  {
    match input
    case Arrive(e, due) =>
    case Cancel => NoteBatch(t, CancelNote);
    case Finish =>
      RowsBatch(t, t.pending);
      AfterCancelRows(Ledger(t.batches), t.pending);
    case Raise =>
      if !t.over {
        RowsBatch(t, t.pending);
        NoteBatch(t.(batches := Flush(t)), FailNote);
      }
  }

  /** An uncancelled turn that is over has recorded its whole stream. */
  lemma {:induction false} UncancelledIsComplete(inputs: seq<Input>)
    ensures Complete(Run(inputs), Stream(inputs))
  {
    if inputs != [] {
      var front := inputs[..|inputs| - 1];
      UncancelledIsComplete(front);
      RecordedIsPrefix(front);
      StandingAlways(front);
      StepKeepsComplete(Run(front), Stream(front), inputs[|inputs| - 1]);
    }
  }

  // ---- terminal rows ----

  predicate TerminalRow(r: Row) {
    r.Produced? ==> Terminal(r.event)
  }

  function Terminals(rows: seq<Row>): nat {
    if rows == [] then 0
    else Terminals(rows[..|rows| - 1]) + (if TerminalRow(rows[|rows| - 1]) then 1 else 0)
  }

  lemma {:induction false} TerminalsAppend(a: seq<Row>, b: seq<Row>)
    ensures Terminals(a + b) == Terminals(a) + Terminals(b)
  {
    if b == [] {
      assert a + b == a;
    } else {
      assert (a + b)[..|a + b| - 1] == a + b[..|b| - 1];
      TerminalsAppend(a, b[..|b| - 1]);
    }
  }

  lemma {:induction false} NoTerminals(events: seq<Event>)
    requires forall e :: e in events ==> !Terminal(e)
    ensures Terminals(Rows(events)) == 0
  {
    if events != [] {
      var front := events[..|events| - 1];
      assert Rows(events)[..|events| - 1] == Rows(front);
      assert events[|events| - 1] in events;
      forall e | e in front ensures !Terminal(e) { assert e in events; }
      NoTerminals(front);
    }
  }

  lemma TerminalsOfBatch(t: Turn, held: seq<Event>, e: Event)
    requires forall x :: x in held ==> !Terminal(x)
    ensures Terminals(Ledger(t.batches + [Rows(held)])) == Terminals(Ledger(t.batches))
    ensures Terminals(Ledger(t.batches + [Rows(held + [e])]))
         == Terminals(Ledger(t.batches)) + if Terminal(e) then 1 else 0
  {
    RowsBatch(t, held);
    RowsBatch(t, held + [e]);
    NoTerminals(held);
    TerminalsAppend(Ledger(t.batches), Rows(held));
    assert Rows(held + [e]) == Rows(held) + [Produced(e)];
    TerminalsAppend(Ledger(t.batches), Rows(held + [e]));
    assert (Rows(held) + [Produced(e)])[..|held|] == Rows(held);
  }

  lemma TerminalsOfNote(batches: seq<seq<Row>>, note: Row)
    requires !note.Produced?
    ensures Terminals(Ledger(batches + [[note]])) == Terminals(Ledger(batches)) + 1
  {
    LedgerSnoc(batches, [note]);
    assert (Ledger(batches) + [note])[..|Ledger(batches)|] == Ledger(batches);
  }

  /** A second end of the turn: a terminal event or a failure after an uncancelled terminal event. */
  ghost predicate SecondEnd(t: Turn, input: Input) {
    && !t.active && !t.cancelled && !t.over
    && (input == Raise || (input.Arrive? && Terminal(input.event)))
  }

  ghost predicate Ended(t: Turn, n: nat) {
    && (t.active ==> n == 0)
    && (!t.active && !t.over ==> n > 0)
  }

  lemma EndedKept(t: Turn, input: Input)
    requires Batched(t) && Standing(t) && Ended(t, Terminals(Ledger(t.batches)))
    ensures var n, n' := Terminals(Ledger(t.batches)), Terminals(Ledger(Step(t, input).batches));
            && Ended(Step(t, input), n')
            && n' >= n
            && (SecondEnd(t, input) ==> n' == n + 1)
            && (!SecondEnd(t, input) ==> n' == n || (n == 0 && n' == 1))
  {
    match input
    case Arrive(e, due) => TerminalsOfBatch(t, t.pending, e);
    case Cancel => TerminalsOfNote(t.batches, CancelNote);
    case Finish => TerminalsOfBatch(t, t.pending, Event(Ordinary, ""));
    case Raise =>
      TerminalsOfBatch(t, t.pending, Event(Ordinary, ""));
      TerminalsOfNote(Flush(t), FailNote);
  }

  ghost predicate EndedAgainAt(inputs: seq<Input>, k: nat)
    requires k < |inputs|
  {
    SecondEnd(Run(inputs[..k]), inputs[k])
  }

  ghost predicate EndedTwice(inputs: seq<Input>) {
    exists k: nat :: k < |inputs| && EndedAgainAt(inputs, k)
  }

  lemma EndedAgainAtFront(inputs: seq<Input>, k: nat)
    requires k < |inputs| - 1
    ensures EndedAgainAt(inputs, k) <==> EndedAgainAt(inputs[..|inputs| - 1], k)
  {
    assert inputs[..|inputs| - 1][..k] == inputs[..k];
  }

  lemma EndedTwiceSnoc(inputs: seq<Input>)
    requires inputs != []
    ensures var front, last := inputs[..|inputs| - 1], inputs[|inputs| - 1];
            EndedTwice(inputs) <==> EndedTwice(front) || SecondEnd(Run(front), last)
  {
    var n := |inputs| - 1;
    if EndedTwice(inputs) {
      var k: nat :| k < |inputs| && EndedAgainAt(inputs, k);
      if k < n { EndedAgainAtFront(inputs, k); }
    }
    if EndedTwice(inputs[..n]) {
      var k: nat :| k < n && EndedAgainAt(inputs[..n], k);
      EndedAgainAtFront(inputs, k);
    }
    assert EndedAgainAt(inputs, n) <==> SecondEnd(Run(inputs[..n]), inputs[n]);
  }

  /** Exactly when the ledger shows a turn ending more than once. */
  lemma {:induction false} OneTerminalWhen(inputs: seq<Input>)
    ensures Ended(Run(inputs), Terminals(Ledger(Run(inputs).batches)))
    ensures Terminals(Ledger(Run(inputs).batches)) <= 1 <==> !EndedTwice(inputs)
  {
    if inputs != [] {
      var front, last := inputs[..|inputs| - 1], inputs[|inputs| - 1];
      OneTerminalWhen(front);
      BatchesAreBounded(front);
      StandingAlways(front);
      EndedKept(Run(front), last);
      EndedTwiceSnoc(inputs);
    }
  }

  ghost predicate TerminalArrival(input: Input) {
    input.Arrive? && Terminal(input.event)
  }

  lemma {:induction false} InactiveSawTerminal(inputs: seq<Input>) returns (j: nat)
    requires !Run(inputs).active && !Run(inputs).cancelled && !Run(inputs).over
    ensures j < |inputs| && TerminalArrival(inputs[j])
  {
    j := |inputs| - 1;
    if !TerminalArrival(inputs[j]) {
      j := InactiveSawTerminal(inputs[..j]);
    }
  }

  /** A stream with one terminal event, nothing streamed or raised after it, ends its turn once. */
  lemma OneTerminalEvent(inputs: seq<Input>)
    requires forall j, k :: 0 <= j < k < |inputs| && TerminalArrival(inputs[j])
               ==> !inputs[k].Arrive? && inputs[k] != Raise
    ensures Terminals(Ledger(Run(inputs).batches)) <= 1
  {
    OneTerminalWhen(inputs);
    forall k: nat | k < |inputs| ensures !EndedAgainAt(inputs, k) {
      var t := Run(inputs[..k]);
      if !t.active && !t.cancelled && !t.over {
        var j := InactiveSawTerminal(inputs[..k]);
        assert inputs[..k][j] == inputs[j];
      }
    }
  }

  /** Both exceptions happen: an event flushed after its cancellation, and a turn that ends twice. */
  lemma ExceptionsHappen()
    ensures FlushedLate([Arrive(Event(Ordinary, "x"), false), Cancel, Finish])
    ensures EndedTwice([Arrive(Event(TurnCompleted, "x"), false), Raise])
  {
    var e := Event(Ordinary, "x");
    var late := [Arrive(e, false), Cancel, Finish];
    assert late[..0] == [] && late[..1][..0] == [] && late[..2][..1] == late[..1];
    var t1 := OnEvent(SUBMITTED, e, false);
    assert Run(late[..0]) == SUBMITTED && Run(late[..1]) == t1 && Run(late[..2]) == OnCancel(t1);
    assert FlushedLateAt(late, 2);
    var done := Event(TurnCompleted, "x");
    var twice := [Arrive(done, false), Raise];
    assert twice[..0] == [] && twice[..1][..0] == [];
    assert Run(twice[..0]) == SUBMITTED && Run(twice[..1]) == OnEvent(SUBMITTED, done, false);
    assert EndedAgainAt(twice, 1);
  }

  // ---- when a turn is active ----

  /** The input that ended the turn's stream, if one has. */
  function EndOf(inputs: seq<Input>): Option<Input> {
    if inputs == [] then None
    else
      var before, last := EndOf(inputs[..|inputs| - 1]), inputs[|inputs| - 1];
      if before.Some? then before else if last in {Finish, Raise} then Some(last) else None
  }

  ghost predicate Awaits(stream: seq<Event>) {
    exists e :: e in stream && e.kind == ApprovalRequired
  }

  ghost predicate HasTerminal(stream: seq<Event>) {
    exists e :: e in stream && Terminal(e)
  }

  /** Not cancelled, no terminal event, and not ended, or ended while an approval is awaited. */
  ghost predicate ShouldBeActive(inputs: seq<Input>) {
    && Cancel !in inputs && !HasTerminal(Stream(inputs))
    && (EndOf(inputs) == None || (EndOf(inputs) == Some(Finish) && Awaits(Stream(inputs))))
  }

  ghost predicate Told(t: Turn, inputs: seq<Input>) {
    && (t.over <==> EndOf(inputs).Some?)
    && (t.active <==> ShouldBeActive(inputs))
    && (t.cancelled ==> Cancel in inputs)
    && (Cancel !in inputs ==> (t.paused <==> Awaits(Stream(inputs))))
  }

  lemma StreamedOne(stream: seq<Event>, e: Event)
    ensures Awaits(stream + [e]) <==> Awaits(stream) || e.kind == ApprovalRequired
    ensures HasTerminal(stream + [e]) <==> HasTerminal(stream) || Terminal(e)
  {
    assert e in stream + [e];
    assert forall x :: x in stream ==> x in stream + [e];
  }

  lemma {:induction false} ActiveIsTold(inputs: seq<Input>)
    ensures Told(Run(inputs), inputs)
  {
    if inputs != [] {
      var front, last := inputs[..|inputs| - 1], inputs[|inputs| - 1];
      ActiveIsTold(front);
      assert inputs == front + [last];
      if last.Arrive? { StreamedOne(Stream(front), last.event); }
    }
  }

  ghost predicate LedgerTold(t: Turn, inputs: seq<Input>) {
    && !t.cancelled && (t.over ==> t.pending == [])
    && Ledger(t.batches) + Rows(t.pending)
       == Rows(Stream(inputs)) + if EndOf(inputs) == Some(Raise) then [FailNote] else []
  }

  lemma ArriveTold(t: Turn, stream: seq<Event>, e: Event, due: bool)
    requires Ledger(t.batches) + Rows(t.pending) == Rows(stream) && !t.cancelled
    ensures var after := OnEvent(t, e, due);
            Ledger(after.batches) + Rows(after.pending) == Rows(stream + [e])
  {
    var held, rows := t.pending + [e], Ledger(t.batches);
    calc {
      rows + Rows(held);
      { assert Rows(held) == Rows(t.pending) + [Produced(e)]; }
      rows + Rows(t.pending) + [Produced(e)];
      { assert Rows(stream + [e]) == Rows(stream) + [Produced(e)]; }
      Rows(stream + [e]);
    }
    var after := OnEvent(t, e, due);
    if after.pending == [] {
      LedgerSnoc(t.batches, Rows(held));
      assert Rows(after.pending) == [];
    }
  }

  lemma EndTold(t: Turn, stream: seq<Event>, raised: bool)
    requires Ledger(t.batches) + Rows(t.pending) == Rows(stream) && !t.cancelled
    ensures Ledger(OnEnd(t, raised).batches) == Rows(stream) + if raised then [FailNote] else []
  {
    LedgerSnoc(t.batches, Rows(t.pending));
    LedgerSnoc(Flush(t), [FailNote]);
    assert t.pending == [] ==> Rows(t.pending) == [];
    assert Ledger(Flush(t)) == Rows(stream);
  }

  lemma {:induction false} LedgerIsTold(inputs: seq<Input>)
    requires Cancel !in inputs
    ensures LedgerTold(Run(inputs), inputs)
  {
    if inputs != [] {
      var front, last := inputs[..|inputs| - 1], inputs[|inputs| - 1];
      assert inputs == front + [last];
      LedgerIsTold(front);
      ActiveIsTold(front);
      var t, stream := Run(front), Stream(front);
      assert Rows([]) == [];
      if !t.over && last.Arrive? {
        ArriveTold(t, stream, last.event, last.due);
      } else if !t.over {
        EndTold(t, stream, last.Raise?);
      }
    }
  }

  /**
    A turn nobody cancels leaves in the ledger, once its stream has ended, every event of the
    stream in order, and after them a note exactly when the stream ended in an exception.
  */
  lemma UncancelledLedgerIs(inputs: seq<Input>)
    requires Cancel !in inputs && EndOf(inputs).Some?
    ensures Ledger(Run(inputs).batches)
         == Rows(Stream(inputs)) + if EndOf(inputs) == Some(Raise) then [FailNote] else []
  {
    LedgerIsTold(inputs);
    ActiveIsTold(inputs);
    assert Rows([]) == [];
  }

  /**
    A turn can still be cancelled, and the cancellation leaves its entry, exactly when it was
    not cancelled before, streamed no terminal event, and its stream has not ended, or ended
    without an exception while an approval is awaited.
  */
  lemma CancelledExactlyWhen(inputs: seq<Input>)
    ensures Ledger(Run(inputs + [Cancel]).batches)
         == Ledger(Run(inputs).batches) + if ShouldBeActive(inputs) then [CancelNote] else []
    ensures Run(inputs).active <==> ShouldBeActive(inputs)
  {
    assert (inputs + [Cancel])[..|inputs|] == inputs;
    ActiveIsTold(inputs);
    LedgerSnoc(Run(inputs).batches, [CancelNote]);
  }

  /** A turn that asked for an approval stays active when its stream ends, and is ended by a cancellation. */
  lemma PausedStaysActive() returns (inputs: seq<Input>)
    ensures inputs == [Arrive(Event(ApprovalRequired, "x"), false), Finish]
    ensures Run(inputs).over && Run(inputs).active && !Run(inputs + [Cancel]).active
  {
    var e := Event(ApprovalRequired, "x");
    inputs := [Arrive(e, false), Finish];
    assert inputs[..1] == [Arrive(e, false)] && [Arrive(e, false)][..0] == [];
    assert (inputs + [Cancel])[..2] == inputs;
    assert Run([]) == SUBMITTED && Run([Arrive(e, false)]) == OnEvent(SUBMITTED, e, false);
  }
}
