/**
  The wake-word handshake between the capture thread, which numbers wakes and stamps
  utterances, and the pipeline thread, which executes a command only for an utterance whose
  stamp is the wake it last heard of. The channel between them is bounded and drops events
  when full. Times are nanoseconds; the settings are compared in whole milliseconds.
*/
module VoiceActivation {
  import opened Wrappers

  const EVENT_QUEUE := 8
  const U64 := 0x1_0000_0000_0000_0000

  type ActivationId = nat

  datatype Config = Config(wakeCooldown: nat, commandTimeout: nat)

  function Millis(d: int): int {
    d / 1_000_000
  }

  datatype Event = WakeDetected(id: ActivationId, at: int)
                 | Utterance(activation: Option<ActivationId>, capturedAt: int)

  datatype Wake = Wake(id: ActivationId, at: int)
  datatype Command = Command(id: ActivationId, spokenAt: int)

  /**
    The variables of both loops and the channel between them. `wakes`, `heard` and
    `executed` record the wakes numbered, those the pipeline was told of, and the commands
    it ran.
  */
  datatype State = State(clock: int, lastWake: int, counter: nat, active: Option<Wake>, queue: seq<Event>,
                         awaiting: Option<ActivationId>,
                         wakes: seq<Wake>, heard: seq<ActivationId>, executed: seq<Command>)

  /** `Detect` and `Speak` happen at a time not before the clock; `Take` runs one pipeline turn. */
  datatype Action = Detect(now: int) | Speak(now: int, saved: bool) | Take(asks: bool)

  function Start(c: Config, now: int): State {
    State(now, now - (c.wakeCooldown + 1) * 1_000_000, 0, None, [], None, [], [], [])
  }

  function Send(queue: seq<Event>, e: Event): seq<Event> {
    if |queue| < EVENT_QUEUE then queue + [e] else queue
  }

  function OnDetection(c: Config, s: State, now: int): State {
    if Millis(now - s.lastWake) < c.wakeCooldown then s.(clock := now)
    else
      var id := (s.counter + 1) % U64;
      s.(clock := now, lastWake := now, counter := id, active := Some(Wake(id, now)),
         queue := Send(s.queue, WakeDetected(id, now)), wakes := s.wakes + [Wake(id, now)])
  }

  function Stamp(c: Config, s: State, now: int): Option<ActivationId> {
    if s.active.Some? && Millis(now - s.active.value.at) <= c.commandTimeout then Some(s.active.value.id) else None
  }

  function OnUtterance(c: Config, s: State, now: int, saved: bool): State {
    if saved then s.(clock := now, queue := Send(s.queue, Utterance(Stamp(c, s, now), now)))
    else s.(clock := now)
  }

  /** `asks`: transcription, wake phrase and instant commands leave a command to run. */
  function OnTake(s: State, asks: bool): State
    requires s.queue != []
  {
    var rest := s.(queue := s.queue[1..]);
    match s.queue[0]
    case WakeDetected(id, _) => rest.(awaiting := Some(id), heard := s.heard + [id])
    case Utterance(activation, at) =>
      var wasWaiting := s.awaiting.Some? && activation.Some? && s.awaiting.value == activation.value;
      rest.(awaiting := None,
            executed := if wasWaiting && asks then s.executed + [Command(activation.value, at)] else s.executed)
  }

  /** Both loops' variables, updated in place. */
  class Handshake {
    const config: Config
    var lastWake: int
    var counter: nat
    var active: Option<Wake>
    var queue: seq<Event>
    var awaiting: Option<ActivationId>
    ghost var clock: int
    ghost var wakes: seq<Wake>
    ghost var heard: seq<ActivationId>
    ghost var executed: seq<Command>

    ghost function Now(): State
      reads this
    {
      State(clock, lastWake, counter, active, queue, awaiting, wakes, heard, executed)
    }

    constructor (c: Config, now: int)
      ensures config == c && Now() == Start(c, now)
    {
      config := c;
      lastWake, counter, active, queue, awaiting := now - (c.wakeCooldown + 1) * 1_000_000, 0, None, [], None;
      clock, wakes, heard, executed := now, [], [], [];
    }

    method TrySend(e: Event) returns (dropped: bool)
      modifies this`queue
      ensures queue == Send(old(queue), e) && dropped == (|old(queue)| >= EVENT_QUEUE)
    {
      if |queue| >= EVENT_QUEUE { return true; }
      queue := queue + [e];
      dropped := false;
    }

    method Detected(now: int)
      modifies this
      ensures Now() == OnDetection(config, old(Now()), now)
    {
      clock := now;
      if Millis(now - lastWake) >= config.wakeCooldown {
        lastWake := now;
        counter := (counter + 1) % U64;
        active := Some(Wake(counter, now));
        wakes := wakes + [Wake(counter, now)];
        var _ := TrySend(WakeDetected(counter, now));
      }
    }

    method Spoken(now: int, saved: bool)
      modifies this
      ensures Now() == OnUtterance(config, old(Now()), now, saved)
    {
      clock := now;
      var stamp := None;
      if active.Some? && Millis(now - active.value.at) <= config.commandTimeout {
        stamp := Some(active.value.id);
      }
      if saved {
        var _ := TrySend(Utterance(stamp, now));
      }
    }

    method TakeOne(asks: bool) returns (command: Option<ActivationId>)
      requires queue != []
      modifies this
      ensures Now() == OnTake(old(Now()), asks)
      ensures command.Some? <==> |executed| > |old(executed)|
      ensures command.Some? ==> executed[|executed| - 1].id == command.value
    {
      var event := queue[0];
      queue := queue[1..];
      command := None;
      match event
      case WakeDetected(id, _) =>
        awaiting := Some(id);
        heard := heard + [id];
      case Utterance(activation, at) =>
        var wasWaiting := awaiting.Some? && activation.Some? && awaiting.value == activation.value;
        awaiting := None;
        if wasWaiting && asks {
          executed := executed + [Command(activation.value, at)];
          command := activation;
        }
    }
  }

  // ---- the invariant ----

  /** Wakes are numbered from one, each at least the cooldown after the one before. */
  ghost predicate Numbered(c: Config, s: State) {
    && s.counter == |s.wakes|
    && (forall i :: 0 <= i < |s.wakes| ==> s.wakes[i].id == i + 1)
    && (forall i :: 0 < i < |s.wakes| ==> Millis(s.wakes[i].at - s.wakes[i - 1].at) >= c.wakeCooldown)
    && (s.wakes != [] ==> s.lastWake == s.wakes[|s.wakes| - 1].at)
    && (s.active.Some? ==> s.wakes != [] && s.active.value == s.wakes[|s.wakes| - 1])
  }

  ghost predicate InTime(c: Config, s: State, id: ActivationId, at: int) {
    1 <= id <= |s.wakes| && Millis(at - s.wakes[id - 1].at) <= c.commandTimeout
  }

  ghost predicate Stamped(c: Config, s: State) {
    && (forall i :: 0 <= i < |s.queue| && s.queue[i].Utterance? && s.queue[i].activation.Some? ==>
          InTime(c, s, s.queue[i].activation.value, s.queue[i].capturedAt))
    && (forall k :: 0 <= k < |s.executed| ==> InTime(c, s, s.executed[k].id, s.executed[k].spokenAt))
  }

  function WakeIds(queue: seq<Event>): seq<ActivationId> {
    if queue == [] then []
    else (if queue[0].WakeDetected? then [queue[0].id] else []) + WakeIds(queue[1..])
  }

  lemma {:induction false} WakeIdsSend(queue: seq<Event>, e: Event)
    ensures WakeIds(queue + [e]) == WakeIds(queue) + if e.WakeDetected? then [e.id] else []
  {
    if queue == [] {
      assert [e][1..] == [];
    } else {
      WakeIdsSend(queue[1..], e);
      assert (queue + [e])[1..] == queue[1..] + [e];
    }
  }

  ghost predicate Rising(ids: seq<ActivationId>, top: nat) {
    && (forall i, j :: 0 <= i < j < |ids| ==> ids[i] < ids[j])
    && forall i :: 0 <= i < |ids| ==> ids[i] <= top
  }

  /** The wakes told of so far, followed by those still in the channel, come in increasing order. */
  ghost predicate Increasing(s: State) {
    Rising(s.heard + WakeIds(s.queue), |s.wakes|)
  }

  /** Each command ran for its own wake: a wake told of, and none is used twice. */
  ghost predicate Matched(s: State) {
    && (s.awaiting.Some? ==> s.heard != [] && s.awaiting.value == s.heard[|s.heard| - 1])
    && (forall k :: 0 <= k < |s.executed| ==> s.executed[k].id in s.heard)
    && (forall k, l :: 0 <= k < l < |s.executed| ==> s.executed[k].id < s.executed[l].id)
    && (s.awaiting.Some? ==> forall k :: 0 <= k < |s.executed| ==> s.executed[k].id < s.awaiting.value)
  }

  ghost predicate Inv(c: Config, s: State) {
    Numbered(c, s) && Stamped(c, s) && Increasing(s) && Matched(s)
  }

  ghost predicate Enabled(s: State, a: Action) {
    match a
    case Detect(now) => now >= s.clock
    case Speak(now, _) => now >= s.clock
    case Take(_) => s.queue != []
  }

  function Apply(c: Config, s: State, a: Action): State
    requires a.Take? ==> s.queue != []
  {
    match a
    case Detect(now) => OnDetection(c, s, now)
    case Speak(now, saved) => OnUtterance(c, s, now, saved)
    case Take(asks) => OnTake(s, asks)
  }

  lemma SendKeeps(c: Config, s: State, e: Event)
    requires Stamped(c, s)
    requires e.Utterance? && e.activation.Some? ==> InTime(c, s, e.activation.value, e.capturedAt)
    ensures Stamped(c, s.(queue := Send(s.queue, e)))
  {
    var s' := s.(queue := Send(s.queue, e));
    forall i | 0 <= i < |s'.queue| && s'.queue[i].Utterance? && s'.queue[i].activation.Some?
      ensures InTime(c, s', s'.queue[i].activation.value, s'.queue[i].capturedAt)
    {
      if i < |s.queue| { assert InTime(c, s, s.queue[i].activation.value, s.queue[i].capturedAt); }
    }
    forall k | 0 <= k < |s'.executed| ensures InTime(c, s', s'.executed[k].id, s'.executed[k].spokenAt) {
      assert InTime(c, s, s.executed[k].id, s.executed[k].spokenAt);
    }
  }

  lemma WakeKeepsStamps(c: Config, s: State, later: State)
    requires Stamped(c, s) && s.wakes <= later.wakes && later.queue == s.queue && later.executed == s.executed
    ensures Stamped(c, later)
  {
    forall i | 0 <= i < |s.queue| && s.queue[i].Utterance? && s.queue[i].activation.Some?
      ensures InTime(c, later, s.queue[i].activation.value, s.queue[i].capturedAt)
    {
      assert InTime(c, s, s.queue[i].activation.value, s.queue[i].capturedAt);
    }
    forall k | 0 <= k < |s.executed| ensures InTime(c, later, s.executed[k].id, s.executed[k].spokenAt) {
      assert InTime(c, s, s.executed[k].id, s.executed[k].spokenAt);
    }
  }

  function Woken(s: State, now: int): State {
    var wake := Wake(|s.wakes| + 1, now);
    s.(clock := now, lastWake := now, counter := wake.id, active := Some(wake), wakes := s.wakes + [wake])
  }

  /** The new wake is also announced, if there is room. */
  function Announced(s: State, now: int): State {
    Woken(s, now).(queue := Send(s.queue, WakeDetected(|s.wakes| + 1, now)))
  }

  lemma WokenNumbered(c: Config, s: State, now: int)
    requires Numbered(c, s) && Millis(now - s.lastWake) >= c.wakeCooldown
    ensures Numbered(c, Announced(s, now))
  {
  }

  lemma WokenIncreasing(s: State, now: int)
    requires Increasing(s)
    ensures Increasing(Announced(s, now))
  {
    var id := |s.wakes| + 1;
    WakeIdsSend(s.queue, WakeDetected(id, now));
    RisingGrows(s.heard + WakeIds(s.queue), id);
    assert s.heard + (WakeIds(s.queue) + [id]) == (s.heard + WakeIds(s.queue)) + [id];
  }

  lemma DetectKeeps(c: Config, s: State, now: int)
    requires Inv(c, s) && |OnDetection(c, s, now).wakes| < U64
    ensures Inv(c, OnDetection(c, s, now))
  {
    if Millis(now - s.lastWake) < c.wakeCooldown {
      ClockKeeps(c, s, now);
    } else {
      DetectionWakes(c, s, now);
      AnnouncedKeeps(c, s, now);
    }
  }

  lemma ClockKeeps(c: Config, s: State, now: int)
    requires Inv(c, s)
    ensures Inv(c, s.(clock := now))
  {
    WakeKeepsStamps(c, s, s.(clock := now));
    MatchedStays(s, s.(clock := now));
  }

  lemma AnnouncedKeeps(c: Config, s: State, now: int)
    requires Inv(c, s) && Millis(now - s.lastWake) >= c.wakeCooldown
    ensures Inv(c, Announced(s, now))
  {
    WokenNumbered(c, s, now);
    WokenIncreasing(s, now);
    WakeKeepsStamps(c, s, Woken(s, now));
    SendKeeps(c, Woken(s, now), WakeDetected(|s.wakes| + 1, now));
    MatchedStays(s, Announced(s, now));
  }

  lemma DetectionWakes(c: Config, s: State, now: int)
    requires s.counter == |s.wakes| && |s.wakes| + 1 < U64 && Millis(now - s.lastWake) >= c.wakeCooldown
    ensures OnDetection(c, s, now) == Announced(s, now)
  {
    assert (s.counter + 1) % U64 == |s.wakes| + 1;
  }

  lemma MatchedStays(s: State, later: State)
    requires Matched(s) && later.awaiting == s.awaiting && later.heard == s.heard && later.executed == s.executed
    ensures Matched(later)
  {
  }

  lemma RisingGrows(ids: seq<ActivationId>, id: nat)
    requires id > 0 && Rising(ids, id - 1)
    ensures Rising(ids + [id], id) && Rising(ids, id)
  {
  }

  lemma SpeakKeeps(c: Config, s: State, now: int, saved: bool)
    requires Inv(c, s)
    ensures Inv(c, OnUtterance(c, s, now, saved))
  {
    ClockKeeps(c, s, now);
    if saved {
      StampInTime(c, s, now);
      SendKeeps(c, s.(clock := now), Utterance(Stamp(c, s, now), now));
      SentUtterance(s.queue, Utterance(Stamp(c, s, now), now));
      MatchedStays(s, OnUtterance(c, s, now, saved));
    }
  }

  lemma StampInTime(c: Config, s: State, now: int)
    requires Numbered(c, s)
    ensures Stamp(c, s, now).Some? ==> InTime(c, s.(clock := now), Stamp(c, s, now).value, now)
  {
  }

  lemma SentUtterance(queue: seq<Event>, e: Event)
    requires e.Utterance?
    ensures WakeIds(Send(queue, e)) == WakeIds(queue)
  {
    WakeIdsSend(queue, e);
  }

  lemma TakeWakeKeeps(c: Config, s: State, asks: bool)
    requires Inv(c, s) && s.queue != [] && s.queue[0].WakeDetected?
    ensures Increasing(OnTake(s, asks)) && Matched(OnTake(s, asks))
  {
    var id, rest := s.queue[0].id, WakeIds(s.queue[1..]);
    assert WakeIds(s.queue) == [id] + rest;
    assert (s.heard + [id]) + rest == s.heard + ([id] + rest);
    HeardIsPast(s, s.heard + ([id] + rest), id);
  }

  /** The next wake to be told of is newer than every command. */
  lemma HeardIsPast(s: State, line: seq<ActivationId>, id: ActivationId)
    requires Matched(s) && s.heard <= line && |s.heard| < |line| && line[|s.heard|] == id
    requires forall i, j :: 0 <= i < j < |line| ==> line[i] < line[j]
    ensures forall k :: 0 <= k < |s.executed| ==> s.executed[k].id < id && s.executed[k].id in s.heard + [id]
  {
    forall k | 0 <= k < |s.executed| ensures s.executed[k].id < id {
      var i :| 0 <= i < |s.heard| && s.heard[i] == s.executed[k].id;
      assert line[i] < line[|s.heard|];
    }
  }

  lemma TakeUtteranceKeeps(c: Config, s: State, asks: bool)
    requires Inv(c, s) && s.queue != [] && s.queue[0].Utterance?
    ensures Increasing(OnTake(s, asks)) && Matched(OnTake(s, asks))
  {
    assert WakeIds(OnTake(s, asks).queue) == WakeIds(s.queue);
  }

  lemma TakeKeeps(c: Config, s: State, asks: bool)
    requires Inv(c, s) && s.queue != []
    ensures Inv(c, OnTake(s, asks))
  {
    var s' := OnTake(s, asks);
    if s.queue[0].WakeDetected? { TakeWakeKeeps(c, s, asks); } else { TakeUtteranceKeeps(c, s, asks); }
    forall i | 0 <= i < |s'.queue| && s'.queue[i].Utterance? && s'.queue[i].activation.Some?
      ensures InTime(c, s', s'.queue[i].activation.value, s'.queue[i].capturedAt)
    {
      assert s'.queue[i] == s.queue[i + 1];
      assert InTime(c, s, s.queue[i + 1].activation.value, s.queue[i + 1].capturedAt);
    }
    forall k | 0 <= k < |s'.executed| ensures InTime(c, s', s'.executed[k].id, s'.executed[k].spokenAt) {
      if k < |s.executed| {
        assert InTime(c, s, s.executed[k].id, s.executed[k].spokenAt);
      } else {
        assert InTime(c, s, s.queue[0].activation.value, s.queue[0].capturedAt);
      }
    }
  }

  ghost predicate Runs(c: Config, s: State, actions: seq<Action>)
    decreases |actions|
  {
    actions == [] || (Enabled(s, actions[0]) && Runs(c, Apply(c, s, actions[0]), actions[1..]))
  }

  ghost function After(c: Config, s: State, actions: seq<Action>): State
    requires Runs(c, s, actions)
    decreases |actions|
  {
    if actions == [] then s else After(c, Apply(c, s, actions[0]), actions[1..])
  }

  lemma {:induction false} WakesGrow(c: Config, s: State, actions: seq<Action>)
    requires Runs(c, s, actions)
    ensures s.wakes <= After(c, s, actions).wakes
    decreases |actions|
  {
    if actions != [] {
      WakesGrow(c, Apply(c, s, actions[0]), actions[1..]);
    }
  }

  lemma {:induction false} RunKeeps(c: Config, s: State, actions: seq<Action>)
    requires Inv(c, s) && Runs(c, s, actions) && |After(c, s, actions).wakes| < U64
    ensures Inv(c, After(c, s, actions))
    decreases |actions|
  {
    if actions != [] {
      var next := Apply(c, s, actions[0]);
      WakesGrow(c, next, actions[1..]);
      match actions[0] {
        case Detect(now) => DetectKeeps(c, s, now);
        case Speak(at, saved) => SpeakKeeps(c, s, at, saved);
        case Take(asks) => TakeKeeps(c, s, asks);
      }
      RunKeeps(c, next, actions[1..]);
    }
  }

  lemma StartInv(c: Config, now: int)
    ensures Inv(c, Start(c, now))
  {
    assert WakeIds([]) == [];
  }

  lemma InvMeans(c: Config, s: State)
    requires Inv(c, s)
    ensures forall k, l :: 0 <= k < l < |s.executed| ==> s.executed[k].id != s.executed[l].id
    ensures forall k :: 0 <= k < |s.executed| ==>
              && s.executed[k].id in s.heard
              && 1 <= s.executed[k].id <= |s.wakes|
              && s.wakes[s.executed[k].id - 1].id == s.executed[k].id
              && Millis(s.executed[k].spokenAt - s.wakes[s.executed[k].id - 1].at) <= c.commandTimeout
    ensures forall i :: 0 < i < |s.wakes| ==> Millis(s.wakes[i].at - s.wakes[i - 1].at) >= c.wakeCooldown
  {
    forall k | 0 <= k < |s.executed| ensures InTime(c, s, s.executed[k].id, s.executed[k].spokenAt) {
    }
  }

  /**
    Over any run with fewer than 2^64 wakes, whatever the channel drops: commands are
    executed for distinct wakes, each one announced to the pipeline and being the very wake
    the utterance was stamped with; the utterance ended within the command timeout of that
    wake; and successive wakes are at least the cooldown apart.
  */
  lemma CommandsMatchWakes(c: Config, now: int, actions: seq<Action>)
    requires Runs(c, Start(c, now), actions) && |After(c, Start(c, now), actions).wakes| < U64
    ensures var s := After(c, Start(c, now), actions);
            && (forall k, l :: 0 <= k < l < |s.executed| ==> s.executed[k].id != s.executed[l].id)
            && (forall k :: 0 <= k < |s.executed| ==>
                  && s.executed[k].id in s.heard
                  && 1 <= s.executed[k].id <= |s.wakes|
                  && s.wakes[s.executed[k].id - 1].id == s.executed[k].id
                  && Millis(s.executed[k].spokenAt - s.wakes[s.executed[k].id - 1].at) <= c.commandTimeout)
            && (forall i :: 0 < i < |s.wakes| ==> Millis(s.wakes[i].at - s.wakes[i - 1].at) >= c.wakeCooldown)
  {
    var s0 := Start(c, now);
    StartInv(c, now);
    RunKeeps(c, s0, actions);
    InvMeans(c, After(c, s0, actions));
  }

  // ---- what must happen, told from the history alone ----

  /** An event the pipeline took, and whether it left a command to run. */
  datatype Turn = Turn(event: Event, asks: bool)

  /** What a history amounts to: when wakes were numbered, what the channel took in and what was taken out. */
  datatype Log = Log(wakes: seq<int>, sent: seq<Event>, turns: seq<Turn>)

  /** A detection counts as a wake unless it comes within the cooldown of the last one. */
  predicate CountsAsWake(c: Config, wakes: seq<int>, now: int) {
    wakes == [] || Millis(now - wakes[|wakes| - 1]) >= c.wakeCooldown
  }

  /** An utterance carries the number of the latest wake, unless the command timeout has passed. */
  function NumberFor(c: Config, wakes: seq<int>, now: int): Option<ActivationId> {
    if wakes != [] && Millis(now - wakes[|wakes| - 1]) <= c.commandTimeout then Some(|wakes|) else None
  }

  predicate HasRoom(log: Log) {
    |log.sent| < |log.turns| + EVENT_QUEUE
  }

  function Offered(log: Log, e: Event): seq<Event> {
    if HasRoom(log) then log.sent + [e] else log.sent
  }

  function LogAfter(c: Config, log: Log, a: Action): Log {
    match a
    case Detect(now) =>
      if CountsAsWake(c, log.wakes, now) then
        log.(wakes := log.wakes + [now], sent := Offered(log, WakeDetected(|log.wakes| + 1, now)))
      else log
    case Speak(now, saved) =>
      if saved then log.(sent := Offered(log, Utterance(NumberFor(c, log.wakes, now), now))) else log
    case Take(asks) =>
      if |log.turns| < |log.sent| then log.(turns := log.turns + [Turn(log.sent[|log.turns|], asks)]) else log
  }

  /** The log of the first `k` actions. */
  function LogUpto(c: Config, actions: seq<Action>, k: nat): Log
    requires k <= |actions|
  {
    if k == 0 then Log([], [], []) else LogAfter(c, LogUpto(c, actions, k - 1), actions[k - 1])
  }

  function LogOf(c: Config, actions: seq<Action>): Log {
    LogUpto(c, actions, |actions|)
  }

  lemma {:induction false} LogOfFront(c: Config, actions: seq<Action>, k: nat)
    requires k < |actions|
    ensures LogUpto(c, actions[..|actions| - 1], k) == LogUpto(c, actions, k)
  {
    if k > 0 { LogOfFront(c, actions, k - 1); }
  }

  /**
    Turn `k` is an utterance with a command for the wake the pipeline was last told of, and no
    other utterance was taken since: the turn before told it of that wake.
  */
  predicate Answers(turns: seq<Turn>, k: nat)
    requires k < |turns|
  {
    && turns[k].asks && turns[k].event.Utterance?
    && k > 0 && turns[k - 1].event.WakeDetected? && turns[k].event.activation == Some(turns[k - 1].event.id)
  }

  function CommandOf(t: Turn): Command
    requires t.event.Utterance? && t.event.activation.Some?
  {
    Command(t.event.activation.value, t.event.capturedAt)
  }

  function Answered(turns: seq<Turn>): seq<Command> {
    if turns == [] then []
    else
      var n := |turns| - 1;
      Answered(turns[..n]) + if Answers(turns, n) then [CommandOf(turns[n])] else []
  }

  lemma AnswersFront(turns: seq<Turn>, k: nat)
    requires k < |turns| - 1
    ensures Answers(turns, k) <==> Answers(turns[..|turns| - 1], k)
    ensures turns[..|turns| - 1][k] == turns[k]
  {
  }

  lemma {:induction false} AnsweredMembers(turns: seq<Turn>, command: Command)
    ensures command in Answered(turns)
        <==> exists k: nat :: k < |turns| && Answers(turns, k) && CommandOf(turns[k]) == command
  {
    if turns != [] {
      var n := |turns| - 1;
      AnsweredMembers(turns[..n], command);
      forall k: nat | k < n ensures Answers(turns, k) <==> Answers(turns[..n], k) { AnswersFront(turns, k); }
    }
  }

  /** What the pipeline waits for after the turns it took. */
  function Expects(turns: seq<Turn>): Option<ActivationId> {
    if turns != [] && turns[|turns| - 1].event.WakeDetected? then Some(turns[|turns| - 1].event.id) else None
  }

  ghost predicate TellsWakes(c: Config, s: State, log: Log) {
    && |s.wakes| == |log.wakes| && (forall i :: 0 <= i < |log.wakes| ==> s.wakes[i] == Wake(i + 1, log.wakes[i]))
    && s.counter == |log.wakes|
    && s.active == (if log.wakes == [] then None else Some(Wake(|log.wakes|, log.wakes[|log.wakes| - 1])))
    && s.lastWake <= s.clock
    && (if log.wakes == [] then Millis(s.clock - s.lastWake) >= c.wakeCooldown
        else s.lastWake == log.wakes[|log.wakes| - 1])
  }

  ghost predicate Tells(c: Config, s: State, log: Log) {
    && TellsWakes(c, s, log)
    && |log.turns| <= |log.sent| && s.queue == log.sent[|log.turns|..]
    && s.awaiting == Expects(log.turns) && s.executed == Answered(log.turns)
  }

  lemma {:induction false} LastAction(c: Config, s: State, actions: seq<Action>)
    requires Runs(c, s, actions) && actions != []
    ensures Runs(c, s, actions[..|actions| - 1])
    ensures var now := After(c, s, actions[..|actions| - 1]);
            Enabled(now, actions[|actions| - 1]) && After(c, s, actions) == Apply(c, now, actions[|actions| - 1])
    decreases |actions|
  {
    if |actions| == 1 {
      assert actions[..0] == [];
    } else {
      LastAction(c, Apply(c, s, actions[0]), actions[1..]);
      assert actions[1..][..|actions| - 2] == actions[..|actions| - 1][1..];
    }
  }

  lemma SentTells(log: Log, queue: seq<Event>, e: Event)
    requires |log.turns| <= |log.sent| && queue == log.sent[|log.turns|..]
    ensures Send(queue, e) == Offered(log, e)[|log.turns|..]
  {
  }

  lemma DetectTells(c: Config, s: State, log: Log, now: int)
    requires Tells(c, s, log) && now >= s.clock && |OnDetection(c, s, now).wakes| < U64
    ensures Tells(c, OnDetection(c, s, now), LogAfter(c, log, Detect(now)))
  {
    assert Millis(now - s.lastWake) >= Millis(s.clock - s.lastWake);
    assert CountsAsWake(c, log.wakes, now) <==> Millis(now - s.lastWake) >= c.wakeCooldown;
    if CountsAsWake(c, log.wakes, now) {
      assert (s.counter + 1) % U64 == s.counter + 1;
      SentTells(log, s.queue, WakeDetected(|log.wakes| + 1, now));
    }
  }

  lemma SpeakTells(c: Config, s: State, log: Log, now: int, saved: bool)
    requires Tells(c, s, log) && now >= s.clock
    ensures Tells(c, OnUtterance(c, s, now, saved), LogAfter(c, log, Speak(now, saved)))
  {
    assert Millis(now - s.lastWake) >= Millis(s.clock - s.lastWake);
    if saved { SentTells(log, s.queue, Utterance(NumberFor(c, log.wakes, now), now)); }
  }

  lemma TakeTells(c: Config, s: State, log: Log, asks: bool)
    requires Tells(c, s, log) && s.queue != []
    ensures Tells(c, OnTake(s, asks), LogAfter(c, log, Take(asks)))
  {
    var turn := Turn(s.queue[0], asks);
    assert s.queue[0] == log.sent[|log.turns|];
    assert (log.turns + [turn])[..|log.turns|] == log.turns;
    assert s.queue[1..] == log.sent[|log.turns| + 1..];
  }

  lemma StepTells(c: Config, s: State, log: Log, a: Action)
    requires Tells(c, s, log) && Enabled(s, a) && |Apply(c, s, a).wakes| < U64
    ensures Tells(c, Apply(c, s, a), LogAfter(c, log, a))
  {
    match a
    case Detect(now) => DetectTells(c, s, log, now);
    case Speak(now, saved) => SpeakTells(c, s, log, now, saved);
    case Take(asks) => TakeTells(c, s, log, asks);
  }

  lemma UptoNext(c: Config, actions: seq<Action>, k: nat)
    requires k < |actions|
    ensures LogUpto(c, actions, k + 1) == LogAfter(c, LogUpto(c, actions, k), actions[k])
  {
  }

  /** Every run does to both loops' variables what its history tells. */
  lemma {:induction false} RunTells(c: Config, start: int, actions: seq<Action>)
    requires Runs(c, Start(c, start), actions) && |After(c, Start(c, start), actions).wakes| < U64
    ensures Tells(c, After(c, Start(c, start), actions), LogOf(c, actions))
    decreases |actions|
  {
    var s0 := Start(c, start);
    if actions != [] {
      var front, last := actions[..|actions| - 1], actions[|actions| - 1];
      LastAction(c, s0, actions);
      var s := After(c, s0, front);
      RunTells(c, start, front);
      LogOfFront(c, actions, |front|);
      UptoNext(c, actions, |front|);
      StepTells(c, s, LogOf(c, front), last);
    }
  }

  /**
    Over every run, a command is run if and only if some utterance taken with one to run is
    stamped with the wake the pipeline was last told of, none taken since; and in that order.
  */
  lemma CommandsRunExactlyWhen(c: Config, start: int, actions: seq<Action>, command: Command)
    requires Runs(c, Start(c, start), actions) && |After(c, Start(c, start), actions).wakes| < U64
    ensures var turns := LogOf(c, actions).turns;
            && After(c, Start(c, start), actions).executed == Answered(turns)
            && (command in Answered(turns)
                <==> exists k: nat :: k < |turns| && Answers(turns, k) && CommandOf(turns[k]) == command)
  {
    RunTells(c, start, actions);
    AnsweredMembers(LogOf(c, actions).turns, command);
  }

  lemma {:induction false} TurnsAreSent(c: Config, actions: seq<Action>, k: nat)
    requires k <= |actions|
    ensures var log := LogUpto(c, actions, k);
            |log.turns| <= |log.sent| && forall i :: 0 <= i < |log.turns| ==> log.turns[i].event == log.sent[i]
  {
    if k > 0 { TurnsAreSent(c, actions, k - 1); }
  }

  lemma SentStep(c: Config, log: Log, a: Action, p: nat)
    requires p < |log.sent|
    ensures p < |LogAfter(c, log, a).sent| && LogAfter(c, log, a).sent[p] == log.sent[p]
  {
  }

  /** What was sent stays where it is. */
  lemma {:induction false} SentStays(c: Config, actions: seq<Action>, a: nat, b: nat, p: nat)
    requires a <= b <= |actions| && p < |LogUpto(c, actions, a).sent|
    ensures p < |LogUpto(c, actions, b).sent|
    ensures LogUpto(c, actions, b).sent[p] == LogUpto(c, actions, a).sent[p]
    decreases b - a
  {
    if a < b {
      SentStays(c, actions, a, b - 1, p);
      SentStep(c, LogUpto(c, actions, b - 1), actions[b - 1], p);
    }
  }

  /** Nothing happens at `k` that would be numbered or sent to the pipeline. */
  predicate Silent(c: Config, actions: seq<Action>, k: nat)
    requires k < |actions|
  {
    match actions[k]
    case Detect(now) => !CountsAsWake(c, LogUpto(c, actions, k).wakes, now)
    case Speak(_, saved) => !saved
    case Take(_) => true
  }

  lemma {:induction false} SilenceKeeps(c: Config, actions: seq<Action>, i: nat, j: nat)
    requires i <= j <= |actions| && forall k: nat :: i <= k < j ==> Silent(c, actions, k)
    ensures LogUpto(c, actions, j).wakes == LogUpto(c, actions, i).wakes
    ensures LogUpto(c, actions, j).sent == LogUpto(c, actions, i).sent
    decreases j - i
  {
    if i < j {
      SilenceKeeps(c, actions, i, j - 1);
      assert Silent(c, actions, j - 1);
    }
  }

  lemma SpokenNext(c: Config, before: Log, woken: Log, spoken: Log, wake: Action, speak: Action)
    requires wake.Detect? && CountsAsWake(c, before.wakes, wake.now) && HasRoom(before)
    requires woken.wakes == LogAfter(c, before, wake).wakes && woken.sent == LogAfter(c, before, wake).sent
    requires speak.Speak? && speak.saved && HasRoom(woken) && Millis(speak.now - wake.now) <= c.commandTimeout
    requires spoken == LogAfter(c, woken, speak)
    ensures var p, id := |before.sent|, |before.wakes| + 1;
            && |spoken.sent| == p + 2 && spoken.sent[p] == WakeDetected(id, wake.now)
            && spoken.sent[p + 1] == Utterance(Some(id), speak.now)
  {
  }

  /** A wake announced at `i` and the utterance at `j`, nothing sent in between, are next to each other. */
  lemma SentInARow(c: Config, actions: seq<Action>, i: nat, j: nat)
    requires i < j < |actions| && actions[i].Detect? && actions[j].Speak? && actions[j].saved
    requires CountsAsWake(c, LogUpto(c, actions, i).wakes, actions[i].now) && HasRoom(LogUpto(c, actions, i))
    requires HasRoom(LogUpto(c, actions, j)) && forall k: nat :: i < k < j ==> Silent(c, actions, k)
    requires Millis(actions[j].now - actions[i].now) <= c.commandTimeout
    ensures var before, sent := LogUpto(c, actions, i), LogOf(c, actions).sent;
            var p, id := |before.sent|, |before.wakes| + 1;
            && p + 1 < |sent| && sent[p] == WakeDetected(id, actions[i].now)
            && sent[p + 1] == Utterance(Some(id), actions[j].now)
  {
    var before, woken, spoken := LogUpto(c, actions, i), LogUpto(c, actions, j), LogUpto(c, actions, j + 1);
    UptoNext(c, actions, i);
    UptoNext(c, actions, j);
    SilenceKeeps(c, actions, i + 1, j);
    SpokenNext(c, before, woken, spoken, actions[i], actions[j]);
    SentStays(c, actions, j + 1, |actions|, |before.sent|);
    SentStays(c, actions, j + 1, |actions|, |before.sent| + 1);
  }

  /**
    A wake past the cooldown, then a saved utterance within the command timeout, neither of
    them dropped and nothing else sent in between: once the pipeline has taken both, the
    utterance leaving a command to run, the command of that wake has been run.
  */
  lemma WakeThenCommand(c: Config, start: int, actions: seq<Action>, i: nat, j: nat)
    requires Runs(c, Start(c, start), actions) && |After(c, Start(c, start), actions).wakes| < U64
    requires i < j < |actions| && actions[i].Detect? && actions[j].Speak? && actions[j].saved
    requires CountsAsWake(c, LogUpto(c, actions, i).wakes, actions[i].now) && HasRoom(LogUpto(c, actions, i))
    requires HasRoom(LogUpto(c, actions, j)) && forall k: nat :: i < k < j ==> Silent(c, actions, k)
    requires Millis(actions[j].now - actions[i].now) <= c.commandTimeout
    requires var p, turns := |LogUpto(c, actions, i).sent|, LogOf(c, actions).turns;
             p + 1 < |turns| && turns[p + 1].asks
    ensures Command(|LogUpto(c, actions, i).wakes| + 1, actions[j].now) in After(c, Start(c, start), actions).executed
  {
    var p, turns := |LogUpto(c, actions, i).sent|, LogOf(c, actions).turns;
    var command := Command(|LogUpto(c, actions, i).wakes| + 1, actions[j].now);
    SentInARow(c, actions, i, j);
    TurnsAreSent(c, actions, |actions|);
    assert turns[p].event == WakeDetected(command.id, actions[i].now);
    assert turns[p + 1].event == Utterance(Some(command.id), actions[j].now);
    assert Answers(turns, p + 1) && CommandOf(turns[p + 1]) == command;
    CommandsRunExactlyWhen(c, start, actions, command);
  }
}
