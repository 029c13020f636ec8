/**
  Request correlation in the daemon client: callers register a future under a fresh request
  id and wait; one reader loop completes futures from the response stream until the
  connection ends. Steps are the event loop's.
*/
module RequestClient {

  type RequestId = string

  /** The reader task: made by `connect`, at work, at its end, or cancelled before its first step. */
  datatype Reader = Created | Started | Ended | Dropped

  datatype Future = Waiting | Answered(body: string) | TimedOut | Broken

  /**
    `pending` is the client's table of registered futures and `calls` the calls between
    registering and returning. `futures` are all futures ever made.
  */
  datatype State = State(connected: bool, reader: Reader, pending: set<RequestId>, calls: set<RequestId>,
                         futures: map<RequestId, Future>)

  const CONNECTED := State(true, Created, {}, {}, map[])

  /**
    `StartReading` is the reader task's first turn, `Fail` a write that raises, `Expire` the
    caller's timeout, `Return` the end of a call whose future is complete, `Disconnect` the
    first lines of `close`, and `StopReading` any end of the reader loop. A task cancelled
    before its first turn runs no line of its body, not even the last block of the loop.
  */
  datatype Step = StartReading | Send(id: RequestId) | Fail(id: RequestId) | Deliver(id: RequestId, body: string)
                | Expire(id: RequestId) | Return(id: RequestId) | Disconnect | StopReading

  ghost predicate Enabled(s: State, step: Step) {
    match step
    case StartReading => s.reader == Created
    case Send(id) => id !in s.futures
    case Fail(id) => id in s.calls
    case Deliver(_, _) => s.reader == Started
    case Expire(id) => id in s.calls && id in s.futures && s.futures[id] == Waiting
    case Return(id) => id in s.calls && id in s.futures && s.futures[id] != Waiting
    case Disconnect => true
    case StopReading => s.reader == Started
  }

  function Complete(s: State, id: RequestId, outcome: Future): map<RequestId, Future> {
    if id in s.pending && id in s.futures && s.futures[id] == Waiting then s.futures[id := outcome] else s.futures
  }

  function BreakAll(s: State): map<RequestId, Future> {
    map id | id in s.futures :: if id in s.pending && s.futures[id] == Waiting then Broken else s.futures[id]
  }

  function Apply(s: State, step: Step): State {
    match step
    case StartReading => s.(reader := Started)
    case Send(id) =>
      if !s.connected then s
      else s.(pending := s.pending + {id}, calls := s.calls + {id}, futures := s.futures[id := Waiting])
    case Fail(id) => s.(pending := s.pending - {id}, calls := s.calls - {id})
    case Deliver(id, body) => s.(futures := Complete(s, id, Answered(body)))
    case Expire(id) => s.(futures := Complete(s, id, TimedOut))
    case Return(id) => s.(pending := s.pending - {id}, calls := s.calls - {id})
    case Disconnect => s.(connected := false, reader := if s.reader == Created then Dropped else s.reader)
    case StopReading => s.(connected := false, reader := Ended, futures := BreakAll(s))
  }

  // ---- the client, updated in place ----

  class Client {
    var connected: bool
    var reader: Reader
    var pending: set<RequestId>
    var futures: map<RequestId, Future>
    ghost var calls: set<RequestId>

    ghost function Now(): State
      reads this
    {
      State(connected, reader, pending, calls, futures)
    }

    constructor ()
      ensures Now() == CONNECTED
    {
      connected, reader, pending, futures, calls := true, Created, {}, map[], {};
    }

    method BeginRequest(id: RequestId) returns (registered: bool)
      modifies this
      ensures registered == old(connected) && Now() == Apply(old(Now()), Send(id))
    {
      if !connected { return false; }
      futures := futures[id := Waiting];
      pending := pending + {id};
      calls := calls + {id};
      return true;
    }

    method EndRequest(id: RequestId)
      modifies this
      ensures Now() == Apply(old(Now()), Return(id)) == Apply(old(Now()), Fail(id))
    {
      pending := pending - {id};
      calls := calls - {id};
    }

    method OnResponse(id: RequestId, body: string)
      modifies this
      ensures Now() == Apply(old(Now()), Deliver(id, body))
    {
      if id in pending && id in futures && futures[id] == Waiting {
        futures := futures[id := Answered(body)];
      }
    }

    /** The reader task has its first turn. */
    method BeginReading()
      modifies this`reader
      ensures Now() == Apply(old(Now()), StartReading)
    {
      reader := Started;
    }

    /** What `close` does at once; a reader at work then runs to its end. */
    method Close()
      modifies this`connected, this`reader
      ensures Now() == Apply(old(Now()), Disconnect)
    {
      connected := false;
      if reader == Created { reader := Dropped; }
    }

    /** The reader loop's last block: every registered future still waiting fails. */
    method OnReaderEnd()
      modifies this
      ensures Now() == Apply(old(Now()), StopReading)
    {
      connected := false;
      reader := Ended;
      var rest := pending;
      while rest != {}
        invariant rest <= pending && !connected && reader == Ended
        invariant pending == old(pending) && calls == old(calls)
        invariant futures.Keys == old(futures).Keys
        invariant forall id :: id in futures ==>
                    futures[id] == if id in pending && id !in rest && old(futures)[id] == Waiting then Broken
                                   else old(futures)[id]
        decreases |rest|
      {
        var id :| id in rest;
        rest := rest - {id};
        if id in futures && futures[id] == Waiting {
          futures := futures[id := Broken];
        }
      }
    }
  }

  // ---- whole runs ----

  ghost predicate Inv(s: State) {
    && s.pending == s.calls
    && s.pending <= s.futures.Keys
    && (s.connected ==> s.reader == Created || s.reader == Started)
    && (s.reader == Created ==> s.connected)
    && (s.reader == Ended ==> forall id :: id in s.pending ==> s.futures[id] != Waiting)
  }

  /** The state after the first `n` steps. */
  function After(steps: seq<Step>, n: nat): State
    requires n <= |steps|
  {
    if n == 0 then CONNECTED else Apply(After(steps, n - 1), steps[n - 1])
  }

  ghost predicate LegalAt(steps: seq<Step>, k: nat)
    requires k < |steps|
  {
    Enabled(After(steps, k), steps[k])
  }

  ghost predicate Legal(steps: seq<Step>) {
    forall k: nat :: k < |steps| ==> LegalAt(steps, k)
  }

  lemma StepKeeps(s: State, step: Step)
    requires Inv(s) && Enabled(s, step)
    ensures Inv(Apply(s, step))
  {
  }

  /**
    On every run the table holds exactly the calls in flight, and once the reader loop has
    run to its end no registered future is left waiting.
  */
  lemma {:induction false} TableMatchesCalls(steps: seq<Step>, n: nat)
    requires Legal(steps) && n <= |steps|
    ensures Inv(After(steps, n))
  {
    if n > 0 {
      TableMatchesCalls(steps, n - 1);
      assert LegalAt(steps, n - 1);
      StepKeeps(After(steps, n - 1), steps[n - 1]);
    }
  }

  // ---- what becomes of a call ----

  /** Step `j` sends the request, nothing before it having ended the connection. */
  ghost predicate SentAt(steps: seq<Step>, j: nat, id: RequestId)
    requires j < |steps|
  {
    steps[j] == Send(id) && forall i: nat :: i < j ==> steps[i] != Disconnect && steps[i] != StopReading
  }

  /** A response to the request, its timeout, its failing write, or the end of the reader. */
  predicate Ends(step: Step, id: RequestId) {
    (step.Deliver? && step.id == id) || step == Expire(id) || step == Fail(id) || step == StopReading
  }

  /** Step `k` is the first after `j` to end the wait for the request sent by step `j`. */
  ghost predicate EndedBy(steps: seq<Step>, j: nat, k: nat, id: RequestId)
    requires j < k < |steps|
  {
    Ends(steps[k], id) && StillOpen(steps, j, k, id)
  }

  ghost predicate StillOpen(steps: seq<Step>, j: nat, n: nat, id: RequestId)
    requires j < n <= |steps|
  {
    forall i: nat :: j < i < n ==> !Ends(steps[i], id)
  }

  /** What a future holds once `step` has ended the wait; after a failed write nobody waits for it. */
  function OutcomeOf(step: Step): Future {
    match step
    case Deliver(_, body) => Answered(body)
    case Expire(_) => TimedOut
    case StopReading => Broken
    case _ => Waiting
  }

  ghost predicate OpenCall(s: State, id: RequestId) {
    id in s.futures && s.futures[id] == Waiting && id in s.pending
  }

  ghost predicate DoneCall(s: State, id: RequestId, outcome: Future) {
    id in s.futures && s.futures[id] == outcome && (outcome == Waiting ==> id !in s.pending)
  }

  lemma OpenStep(s: State, step: Step, id: RequestId)
    requires Inv(s) && Enabled(s, step) && OpenCall(s, id)
    ensures if Ends(step, id) then DoneCall(Apply(s, step), id, OutcomeOf(step)) else OpenCall(Apply(s, step), id)
  {
  }

  lemma DoneStep(s: State, step: Step, id: RequestId, outcome: Future)
    requires Enabled(s, step) && DoneCall(s, id, outcome)
    ensures DoneCall(Apply(s, step), id, outcome)
  {
  }

  /** The client is connected until something ends the connection. */
  lemma {:induction false} ConnectedUntil(steps: seq<Step>, n: nat)
    requires n <= |steps|
    ensures After(steps, n).connected
        <==> forall i: nat :: i < n ==> steps[i] != Disconnect && steps[i] != StopReading
  {
    if n > 0 { ConnectedUntil(steps, n - 1); }
  }

  lemma {:induction false} FuturesAreSent(steps: seq<Step>, n: nat, id: RequestId)
    requires n <= |steps|
    ensures id in After(steps, n).futures <==> exists j: nat :: j < n && SentAt(steps, j, id)
  {
    if n > 0 {
      FuturesAreSent(steps, n - 1, id);
      ConnectedUntil(steps, n - 1);
      assert SentAt(steps, n - 1, id) <==> steps[n - 1] == Send(id) && After(steps, n - 1).connected;
      assert id in After(steps, n).futures
          <==> id in After(steps, n - 1).futures || SentAt(steps, n - 1, id);
    }
  }

  lemma {:induction false} FutureIsTold(steps: seq<Step>, j: nat, n: nat, id: RequestId)
    requires Legal(steps) && j < n <= |steps| && SentAt(steps, j, id)
    ensures StillOpen(steps, j, n, id) ==> OpenCall(After(steps, n), id)
    ensures forall k: nat :: j < k < n && EndedBy(steps, j, k, id) ==>
              DoneCall(After(steps, n), id, OutcomeOf(steps[k]))
  {
    assert LegalAt(steps, n - 1);
    if n == j + 1 {
      ConnectedUntil(steps, j);
    } else {
      var s, step := After(steps, n - 1), steps[n - 1];
      FutureIsTold(steps, j, n - 1, id);
      TableMatchesCalls(steps, n - 1);
      if StillOpen(steps, j, n - 1, id) { OpenStep(s, step, id); }
      forall k: nat | j < k < n && EndedBy(steps, j, k, id)
        ensures DoneCall(After(steps, n), id, OutcomeOf(steps[k]))
      {
        if k < n - 1 { DoneStep(s, step, id, OutcomeOf(steps[k])); }
      }
    }
  }

  lemma {:induction false} FirstEnd(steps: seq<Step>, j: nat, n: nat, id: RequestId) returns (k: nat)
    requires j < n <= |steps| && !StillOpen(steps, j, n, id)
    ensures j < k < n && EndedBy(steps, j, k, id)
  {
    if StillOpen(steps, j, n - 1, id) { k := n - 1; } else { k := FirstEnd(steps, j, n - 1, id); }
  }

  /**
    Over every run: the future of a call is answered, timed out or broken if and only if the
    first of its own response, its timeout, its failing write and the end of the reader, after
    it was sent, is the response with that body, the timeout, or the end of the reader.
  */
  lemma CompletedExactlyWhen(steps: seq<Step>, n: nat, id: RequestId, outcome: Future)
    requires Legal(steps) && n <= |steps| && outcome != Waiting
    ensures id in After(steps, n).futures && After(steps, n).futures[id] == outcome
        <==> exists j: nat, k: nat :: j < k < n && SentAt(steps, j, id) && EndedBy(steps, j, k, id)
                                      && OutcomeOf(steps[k]) == outcome
  {
    FuturesAreSent(steps, n, id);
    if id in After(steps, n).futures && After(steps, n).futures[id] == outcome {
      var j: nat :| j < n && SentAt(steps, j, id);
      FutureIsTold(steps, j, n, id);
      var k := FirstEnd(steps, j, n, id);
    }
    forall j: nat, k: nat | j < k < n && SentAt(steps, j, id) && EndedBy(steps, j, k, id)
      ensures id in After(steps, n).futures && After(steps, n).futures[id] == OutcomeOf(steps[k])
    {
      FutureIsTold(steps, j, n, id);
    }
  }

  /** It is left waiting if and only if none of these has come, or the failing write came first. */
  lemma WaitingExactlyWhen(steps: seq<Step>, n: nat, id: RequestId)
    requires Legal(steps) && n <= |steps|
    ensures id in After(steps, n).futures && After(steps, n).futures[id] == Waiting
        <==> exists j: nat :: j < n && SentAt(steps, j, id)
                              && (StillOpen(steps, j, n, id)
                                  || exists k: nat :: j < k < n && EndedBy(steps, j, k, id) && steps[k] == Fail(id))
  {
    FuturesAreSent(steps, n, id);
    forall j: nat | j < n && SentAt(steps, j, id)
      ensures id in After(steps, n).futures
      ensures After(steps, n).futures[id] == Waiting
          <==> StillOpen(steps, j, n, id)
               || exists k: nat :: j < k < n && EndedBy(steps, j, k, id) && steps[k] == Fail(id)
    {
      FutureIsTold(steps, j, n, id);
      if !StillOpen(steps, j, n, id) {
        var k := FirstEnd(steps, j, n, id);
        OnlyEnd(steps, j, k, n, id);
      }
    }
  }

  lemma OnlyEnd(steps: seq<Step>, j: nat, k: nat, n: nat, id: RequestId)
    requires j < k < n <= |steps| && EndedBy(steps, j, k, id)
    ensures forall i: nat :: j < i < n && EndedBy(steps, j, i, id) ==> i == k
  {
  }

  /**
    A future is completed at most once, and only by a response with its own id, its own
    timeout, or the end of the connection.
  */
  lemma CompletedOnce(s: State, step: Step, id: RequestId)
    requires Inv(s) && Enabled(s, step) && id in s.futures
    ensures id in Apply(s, step).futures
    ensures s.futures[id] != Waiting ==> Apply(s, step).futures[id] == s.futures[id]
    ensures s.futures[id] == Waiting && Apply(s, step).futures[id] != Waiting ==>
              || (step.Deliver? && step.id == id && Apply(s, step).futures[id] == Answered(step.body))
              || (step == Expire(id) && Apply(s, step).futures[id] == TimedOut)
              || (step == StopReading && Apply(s, step).futures[id] == Broken)
  {
  }

  ghost function Completions(steps: seq<Step>, n: nat, id: RequestId): nat
    requires n <= |steps|
  {
    if n == 0 then 0
    else
      var before, after := After(steps, n - 1).futures, After(steps, n).futures;
      Completions(steps, n - 1, id) + if id in before && id in after && before[id] != after[id] then 1 else 0
  }

  /** Over a whole run a future changes at most once, and exactly once if it is complete. */
  lemma {:induction false} CompletionsAreUnique(steps: seq<Step>, n: nat, id: RequestId)
    requires Legal(steps) && n <= |steps|
    ensures Completions(steps, n, id) <= 1
    ensures Completions(steps, n, id) == 1
        <==> id in After(steps, n).futures && After(steps, n).futures[id] != Waiting
  {
    if n > 0 {
      var s := After(steps, n - 1);
      CompletionsAreUnique(steps, n - 1, id);
      TableMatchesCalls(steps, n - 1);
      assert LegalAt(steps, n - 1);
      if id in s.futures { CompletedOnce(s, steps[n - 1], id); }
    }
  }

  // ---- a client closed before its reader's first turn ----

  /** The reader will run no more, and the call still waits: only its own timeout can end it. */
  ghost predicate LeftWaiting(s: State, id: RequestId) {
    (s.reader == Ended || s.reader == Dropped) && id in s.pending && id in s.futures && s.futures[id] == Waiting
  }

  ghost predicate ClosesEarly(s: State, step: Step, id: RequestId) {
    step == Disconnect && s.reader == Created && id in s.pending && id in s.futures && s.futures[id] == Waiting
  }

  ghost predicate EverLeftWaiting(steps: seq<Step>, n: nat, id: RequestId)
    requires n <= |steps|
  {
    LeftWaiting(After(steps, n), id) || (n > 0 && EverLeftWaiting(steps, n - 1, id))
  }

  ghost predicate ClosedEarly(steps: seq<Step>, n: nat, id: RequestId)
    requires n <= |steps|
  {
    n > 0 && (ClosedEarly(steps, n - 1, id) || ClosesEarly(After(steps, n - 1), steps[n - 1], id))
  }

  lemma LeftWaitingStep(s: State, step: Step, id: RequestId)
    requires Inv(s) && Enabled(s, step)
    ensures ClosesEarly(s, step, id) ==> LeftWaiting(Apply(s, step), id)
    ensures LeftWaiting(Apply(s, step), id) ==> LeftWaiting(s, id) || ClosesEarly(s, step, id)
  {
  }

  /** Only the caller's own timeout, or its write failing, ends the wait. */
  lemma OnlyTheCallerGivesUp(s: State, step: Step, id: RequestId)
    requires Inv(s) && Enabled(s, step) && LeftWaiting(s, id)
    ensures LeftWaiting(Apply(s, step), id) <==> step != Expire(id) && step != Fail(id)
  {
  }

  /**
    A call is left waiting by a reader that will run no more exactly when the client was
    closed before the reader's first turn, with the call in flight.
  */
  lemma {:induction false} LeftWaitingExactlyWhen(steps: seq<Step>, n: nat, id: RequestId)
    requires Legal(steps) && n <= |steps|
    ensures EverLeftWaiting(steps, n, id) <==> ClosedEarly(steps, n, id)
  {
    if n > 0 {
      TableMatchesCalls(steps, n - 1);
      assert LegalAt(steps, n - 1);
      LeftWaitingExactlyWhen(steps, n - 1, id);
      LeftWaitingStep(After(steps, n - 1), steps[n - 1], id);
    }
  }

  /** It happens: a request is sent and the client closed before the reader task has had a turn. */
  lemma ClosedBeforeReading() returns (steps: seq<Step>)
    ensures |steps| == 2 && Legal(steps) && LeftWaiting(After(steps, 2), "a")
  {
    steps := [Send("a"), Disconnect];
    assert After(steps, 0) == CONNECTED && After(steps, 1) == Apply(CONNECTED, Send("a"));
    assert LegalAt(steps, 0) && LegalAt(steps, 1);
  }
}
