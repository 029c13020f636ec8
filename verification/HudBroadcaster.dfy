/**
  The HUD event broadcaster. `send` takes the last-event lock and the client-list lock one
  after the other, never together, and writes to the sockets under neither; `subscribe`
  holds the client-list lock throughout. Threads interleave between those sections.
*/
module HudBroadcaster {
  import opened Wrappers

  const MAX_SUBSCRIBERS := 8

  type Line = string
  type ClientId = nat
  type ThreadId = nat

  // ---- the locked data ----

  /** `last` is the last event's line, or in the step system the number of the store it came from. */
  datatype Shared<E> = Shared(clients: seq<ClientId>, last: Option<E>, nextId: ClientId)

  function Without(clients: seq<ClientId>, failed: set<ClientId>): seq<ClientId> {
    if clients == [] then []
    else
      var front := Without(clients[..|clients| - 1], failed);
      if clients[|clients| - 1] in failed then front else front + [clients[|clients| - 1]]
  }

  lemma {:induction false} WithoutFacts(clients: seq<ClientId>, failed: set<ClientId>)
    ensures |Without(clients, failed)| <= |clients|
    ensures forall c :: c in Without(clients, failed) <==> c in clients && c !in failed
    ensures Distinct(clients) ==> Distinct(Without(clients, failed))
  {
    if clients != [] {
      var n := |clients| - 1;
      WithoutFacts(clients[..n], failed);
      assert clients == clients[..n] + [clients[n]];
      if Distinct(clients) {
        assert Distinct(clients[..n]);
        assert clients[n] !in clients[..n];
      }
    }
  }

  ghost predicate Distinct(clients: seq<ClientId>) {
    forall i, j :: 0 <= i < j < |clients| ==> clients[i] != clients[j]
  }

  // The three updates of the locked data.

  function Registered<E>(s: Shared<E>): Shared<E> {
    Shared(s.clients + [s.nextId], s.last, s.nextId + 1)
  }

  function Replaced<E>(s: Shared<E>, event: E): Shared<E> {
    s.(last := Some(event))
  }

  function Retained<E>(s: Shared<E>, failed: set<ClientId>): Shared<E> {
    s.(clients := Without(s.clients, failed))
  }

  /** The locked sections of the two operations. */
  class Broadcaster {
    var clients: seq<ClientId>
    var lastEvent: Option<Line>
    var nextClientId: ClientId

    function Now(): Shared<Line>
      reads this
    {
      Shared(clients, lastEvent, nextClientId)
    }

    constructor ()
      ensures Now() == Shared([], None, 1)
    {
      clients, lastEvent, nextClientId := [], None, 1;
    }

    method Register() returns (id: ClientId)
      modifies this
      ensures id == old(nextClientId) && Now() == Registered(old(Now()))
    {
      id := nextClientId;
      nextClientId := nextClientId + 1;
      clients := clients + [id];
    }

    method StoreLast(line: Line)
      modifies this`lastEvent
      ensures Now() == Replaced(old(Now()), line)
    {
      lastEvent := Some(line);
    }

    method Retain(failed: set<ClientId>)
      modifies this`clients
      ensures Now() == Retained(old(Now()), failed)
    {
      var kept: seq<ClientId> := [];
      for i := 0 to |clients|
        invariant clients == old(clients) && kept == Without(clients[..i], failed)
      {
        assert clients[..i + 1][..i] == clients[..i];
        if clients[i] !in failed {
          kept := kept + [clients[i]];
        }
      }
      assert clients[..|clients|] == clients;
      clients := kept;
    }
  }

  // ---- threads ----

  /** The events stored, in order, are known by their numbers, so equal lines stay apart. */
  type StoreNo = nat

  /**
    Where a thread is. A subscriber holds the list lock from admission on, first without and
    then with the last event read and written to its socket. A sender has stored its event,
    or is writing it to the clients of its snapshot.
  */
  datatype Pc =
    | Admitted
    | Caught(got: seq<StoreNo>)
    | Stored(event: StoreNo)
    | Writing(event: StoreNo, todo: seq<ClientId>, failed: set<ClientId>)

  /**
    `stores` are the lines stored so far, `received` the events written to each client and
    `owed` those stored while it was listed.
  */
  datatype Hub = Hub(shared: Shared<StoreNo>, holder: Option<ThreadId>, threads: map<ThreadId, Pc>,
                     stores: seq<Line>, received: map<ClientId, seq<StoreNo>>, owed: map<ClientId, set<StoreNo>>)

  const EMPTY := Hub(Shared([], None, 1), None, map[], [], map[], map[])

  datatype Action = Admit | CatchUp | Abort | Join | Store(line: Line) | Snapshot | WriteTo(ok: bool) | Leave

  ghost predicate Enabled(h: Hub, t: ThreadId, a: Action) {
    match a
    case Admit => t !in h.threads && h.holder.None? && |h.shared.clients| < MAX_SUBSCRIBERS
    case CatchUp => t in h.threads && h.threads[t].Admitted?
    case Abort => t in h.threads && (h.threads[t].Admitted? || h.threads[t].Caught?)
    case Join => t in h.threads && h.threads[t].Caught?
    case Store(_) => t !in h.threads
    case Snapshot => t in h.threads && h.threads[t].Stored? && h.holder.None?
    case WriteTo(_) => t in h.threads && h.threads[t].Writing? && h.threads[t].todo != []
    case Leave =>
      && t in h.threads && h.threads[t].Writing? && h.threads[t].todo == []
      && (h.threads[t].failed == {} || h.holder.None?)
  }

  ghost function Owe(owed: map<ClientId, set<StoreNo>>, clients: seq<ClientId>, event: StoreNo)
    : map<ClientId, set<StoreNo>>
  {
    map c | c in owed :: if c in clients then owed[c] + {event} else owed[c]
  }

  ghost function Apply(h: Hub, t: ThreadId, a: Action): Hub
    requires Enabled(h, t, a)
  {
    match a
    case Admit => h.(holder := Some(t), threads := h.threads[t := Admitted])
    case CatchUp =>
      h.(threads := h.threads[t := Caught(if h.shared.last.Some? then [h.shared.last.value] else [])])
    case Abort => h.(holder := None, threads := h.threads - {t})
    case Join =>
      var id := h.shared.nextId;
      h.(shared := Registered(h.shared), holder := None, threads := h.threads - {t},
         received := h.received[id := h.threads[t].got], owed := h.owed[id := {}])
    case Store(line) =>
      var event := |h.stores|;
      h.(shared := Replaced(h.shared, event), threads := h.threads[t := Stored(event)],
         stores := h.stores + [line], owed := Owe(h.owed, h.shared.clients, event))
    case Snapshot => h.(threads := h.threads[t := Writing(h.threads[t].event, h.shared.clients, {})])
    case WriteTo(ok) =>
      var Writing(event, todo, failed) := h.threads[t];
      var c, rest := todo[0], todo[1..];
      if ok then
        h.(threads := h.threads[t := Writing(event, rest, failed)],
           received := h.received[c := (if c in h.received then h.received[c] else []) + [event]])
      else h.(threads := h.threads[t := Writing(event, rest, failed + {c})])
    case Leave => h.(shared := Retained(h.shared, h.threads[t].failed), threads := h.threads - {t})
  }

  // ---- the invariant ----

  /** Thread state `p` will still bring `event` to client `c`, or drop the client. */
  ghost predicate Carries(p: Pc, event: StoreNo, c: ClientId) {
    || p == Stored(event)
    || (p.Writing? && p.event == event && (c in p.todo || c in p.failed))
  }

  ghost predicate Underway(h: Hub, event: StoreNo, c: ClientId) {
    exists t :: t in h.threads && Carries(h.threads[t], event, c)
  }

  ghost predicate Reached(h: Hub, event: StoreNo, c: ClientId)
    requires c in h.received
  {
    event in h.received[c] || Underway(h, event, c)
  }

  ghost predicate Listed(h: Hub) {
    && |h.shared.clients| <= MAX_SUBSCRIBERS && Distinct(h.shared.clients)
    && (forall c :: c in h.shared.clients ==> c < h.shared.nextId && c in h.received && c in h.owed)
  }

  predicate Subscribing(p: Pc) {
    p.Admitted? || p.Caught?
  }

  /** The lock is held by the one thread that is subscribing, if there is one, and else it is free. */
  ghost predicate Locked(h: Hub) {
    && (forall t :: h.holder == Some(t) <==> t in h.threads && Subscribing(h.threads[t]))
    && (h.holder.Some? ==> |h.shared.clients| < MAX_SUBSCRIBERS)
  }

  ghost predicate Delivering(h: Hub)
    requires Listed(h)
  {
    && (forall c, event :: c in h.shared.clients && event in h.owed[c] ==> Reached(h, event, c))
    && (h.shared.last.Some? ==> forall c :: c in h.shared.clients ==> Reached(h, h.shared.last.value, c))
  }

  /** A subscriber that has read the last event knows it, or a newer one cannot be snapshot before it joins. */
  ghost predicate Catching(h: Hub) {
    forall t :: t in h.threads && h.threads[t].Caught? && h.shared.last.Some? ==>
      h.threads[t].got == [h.shared.last.value] || Pending(h, h.shared.last.value)
  }

  ghost predicate Pending(h: Hub, event: StoreNo) {
    exists t :: t in h.threads && h.threads[t] == Stored(event)
  }

  ghost predicate Inv(h: Hub) {
    Listed(h) && Locked(h) && Delivering(h) && Catching(h)
  }

  // ---- every step keeps it ----

  lemma Kept(h: Hub, h': Hub, t: ThreadId, event: StoreNo, c: ClientId)
    requires c in h.received && c in h'.received && Reached(h, event, c)
    requires h.received[c] <= h'.received[c]
    requires forall u :: u in h.threads && u != t ==> u in h'.threads && h'.threads[u] == h.threads[u]
    requires t in h.threads && Carries(h.threads[t], event, c) ==>
               event in h'.received[c] || (t in h'.threads && Carries(h'.threads[t], event, c))
    ensures Reached(h', event, c)
  {
    if event in h.received[c] {
      assert event in h'.received[c];
    } else {
      var u :| u in h.threads && Carries(h.threads[u], event, c);
      if u != t {
        assert Carries(h'.threads[u], event, c);
      }
    }
  }

  lemma KeptAll(h: Hub, h': Hub, t: ThreadId)
    requires Listed(h) && Delivering(h) && Listed(h')
    requires forall c :: c in h'.shared.clients ==> c in h.shared.clients && h'.owed[c] == h.owed[c]
    requires h'.shared.last == h.shared.last
    requires forall c :: c in h'.shared.clients ==> h.received[c] <= h'.received[c]
    requires forall u :: u in h.threads && u != t ==> u in h'.threads && h'.threads[u] == h.threads[u]
    requires forall c, event :: c in h'.shared.clients && t in h.threads && Carries(h.threads[t], event, c) ==>
               event in h'.received[c] || (t in h'.threads && Carries(h'.threads[t], event, c))
    ensures Delivering(h')
  {
    forall c, event | c in h'.shared.clients && event in h'.owed[c] ensures Reached(h', event, c) {
      Kept(h, h', t, event, c);
    }
    if h'.shared.last.Some? {
      forall c | c in h'.shared.clients ensures Reached(h', h'.shared.last.value, c) {
        Kept(h, h', t, h'.shared.last.value, c);
      }
    }
  }

  lemma SubscriberKeeps(h: Hub, t: ThreadId, a: Action)
    requires Inv(h) && Enabled(h, t, a) && (a.Admit? || a.CatchUp? || a.Abort?)
    ensures Inv(Apply(h, t, a))
  {
    var h' := Apply(h, t, a);
    KeptAll(h, h', t);
    PendingKept(h, h', t);
  }

  lemma PendingKept(h: Hub, h': Hub, t: ThreadId)
    requires forall u :: u in h.threads && u != t ==> u in h'.threads && h'.threads[u] == h.threads[u]
    requires t in h.threads ==> !h.threads[t].Stored?
    ensures forall event :: Pending(h, event) ==> Pending(h', event)
  {
    forall event | Pending(h, event) ensures Pending(h', event) {
      var u :| u in h.threads && h.threads[u] == Stored(event);
      assert h'.threads[u] == Stored(event);
    }
  }

  lemma JoinKeeps(h: Hub, t: ThreadId)
    requires Inv(h) && Enabled(h, t, Join)
    ensures Inv(Apply(h, t, Join))
  {
    var h' := Apply(h, t, Join);
    var id := h.shared.nextId;
    PendingKept(h, h', t);
    forall i | 0 <= i < |h.shared.clients| ensures h.shared.clients[i] != id {
      assert h.shared.clients[i] in h.shared.clients;
    }
    forall c, event | c in h'.shared.clients && event in h'.owed[c] ensures Reached(h', event, c) {
      Kept(h, h', t, event, c);
    }
    if h'.shared.last.Some? {
      var event := h'.shared.last.value;
      forall c | c in h'.shared.clients ensures Reached(h', event, c) {
        if c == id {
          if event !in h'.received[id] {
            assert Pending(h', event);
            var u :| u in h'.threads && h'.threads[u] == Stored(event);
            assert Carries(h'.threads[u], event, id);
          }
        } else {
          Kept(h, h', t, event, c);
        }
      }
    }
  }

  lemma StoreKeeps(h: Hub, t: ThreadId, line: Line)
    requires Inv(h) && Enabled(h, t, Store(line))
    ensures Inv(Apply(h, t, Store(line)))
  {
    var h', event := Apply(h, t, Store(line)), |h.stores|;
    assert h'.threads[t] == Stored(event);
    forall c | c in h'.shared.clients ensures Reached(h', event, c) {
      assert Carries(h'.threads[t], event, c);
    }
    forall c, x | c in h'.shared.clients && x in h'.owed[c] ensures Reached(h', x, c) {
      if x != event { Kept(h, h', t, x, c); }
    }
    assert Pending(h', event);
  }

  lemma SnapshotKeeps(h: Hub, t: ThreadId)
    requires Inv(h) && Enabled(h, t, Snapshot)
    ensures Inv(Apply(h, t, Snapshot))
  {
    KeptAll(h, Apply(h, t, Snapshot), t);
  }

  lemma WriteKeeps(h: Hub, t: ThreadId, ok: bool)
    requires Inv(h) && Enabled(h, t, WriteTo(ok))
    ensures Inv(Apply(h, t, WriteTo(ok)))
  {
    var h' := Apply(h, t, WriteTo(ok));
    var p := h.threads[t];
    assert p.todo == [p.todo[0]] + p.todo[1..];
    KeptAll(h, h', t);
    PendingKept(h, h', t);
  }

  lemma LeaveKeeps(h: Hub, t: ThreadId)
    requires Inv(h) && Enabled(h, t, Leave)
    ensures Inv(Apply(h, t, Leave))
  {
    var h' := Apply(h, t, Leave);
    WithoutFacts(h.shared.clients, h.threads[t].failed);
    KeptAll(h, h', t);
    PendingKept(h, h', t);
  }

  lemma StepKeeps(h: Hub, t: ThreadId, a: Action)
    requires Inv(h) && Enabled(h, t, a)
    ensures Inv(Apply(h, t, a))
  {
    match a
    case Admit => SubscriberKeeps(h, t, a);
    case CatchUp => SubscriberKeeps(h, t, a);
    case Abort => SubscriberKeeps(h, t, a);
    case Join => JoinKeeps(h, t);
    case Store(line) => StoreKeeps(h, t, line);
    case Snapshot => SnapshotKeeps(h, t);
    case WriteTo(ok) => WriteKeeps(h, t, ok);
    case Leave => LeaveKeeps(h, t);
  }

  // ---- whole runs ----

  datatype Move = Move(t: ThreadId, a: Action)

  ghost predicate Runs(h: Hub, moves: seq<Move>)
    decreases |moves|
  {
    moves == [] || (Enabled(h, moves[0].t, moves[0].a) && Runs(Apply(h, moves[0].t, moves[0].a), moves[1..]))
  }

  ghost function After(h: Hub, moves: seq<Move>): Hub
    requires Runs(h, moves)
    decreases |moves|
  {
    if moves == [] then h else After(Apply(h, moves[0].t, moves[0].a), moves[1..])
  }

  lemma {:induction false} RunKeeps(h: Hub, moves: seq<Move>)
    requires Inv(h) && Runs(h, moves)
    ensures Inv(After(h, moves))
    decreases |moves|
  {
    if moves != [] {
      StepKeeps(h, moves[0].t, moves[0].a);
      RunKeeps(Apply(h, moves[0].t, moves[0].a), moves[1..]);
    }
  }

  /** The events a run stores while the client is listed. */
  ghost function StoredFor(h: Hub, moves: seq<Move>, c: ClientId): set<StoreNo>
    requires Runs(h, moves)
    decreases |moves|
  {
    if moves == [] then {}
    else
      (if moves[0].a.Store? && c in h.shared.clients then {|h.stores|} else {})
      + StoredFor(Apply(h, moves[0].t, moves[0].a), moves[1..], c)
  }

  ghost predicate OwesKnown(h: Hub) {
    forall c :: c in h.owed ==> c < h.shared.nextId
  }

  lemma OwedStep(h: Hub, t: ThreadId, a: Action, c: ClientId)
    requires Inv(h) && OwesKnown(h) && Enabled(h, t, a)
    ensures OwesKnown(Apply(h, t, a))
    ensures var now := if a.Store? && c in h.shared.clients then {|h.stores|} else {};
            && (c in h.owed ==> c in Apply(h, t, a).owed && Apply(h, t, a).owed[c] == h.owed[c] + now)
            && (c !in h.owed ==> now == {} && (c in Apply(h, t, a).owed ==> Apply(h, t, a).owed[c] == {}))
  {
  }

  /** What is owed to a client is what was stored while it was listed. */
  lemma {:induction false} OwedIsStored(h: Hub, moves: seq<Move>, c: ClientId)
    requires Inv(h) && OwesKnown(h) && Runs(h, moves) && c in After(h, moves).owed
    ensures After(h, moves).owed[c] == (if c in h.owed then h.owed[c] else {}) + StoredFor(h, moves, c)
    decreases |moves|
  {
    if moves != [] {
      StepKeeps(h, moves[0].t, moves[0].a);
      OwedStep(h, moves[0].t, moves[0].a, c);
      OwedIsStored(Apply(h, moves[0].t, moves[0].a), moves[1..], c);
    }
  }

  /**
    In every interleaving, once no call is in flight, every listed client has been written
    the current last event and every event stored while it was listed; the list never
    exceeds 8 clients and its ids are distinct.
  */
  lemma HandOverIsComplete(moves: seq<Move>)
    requires Runs(EMPTY, moves)
    ensures var h := After(EMPTY, moves);
            && |h.shared.clients| <= MAX_SUBSCRIBERS && Distinct(h.shared.clients)
            && (forall c :: c in h.shared.clients ==> c in h.received && c in h.owed)
            && (h.threads == map[] ==>
                  forall c :: c in h.shared.clients ==>
                    && (h.shared.last.Some? ==> h.shared.last.value in h.received[c])
                    && forall event :: event in StoredFor(EMPTY, moves, c) ==> event in h.received[c])
  {
    RunKeeps(EMPTY, moves);
    var h := After(EMPTY, moves);
    if h.threads == map[] {
      forall c, event | c in h.shared.clients && Reached(h, event, c) ensures event in h.received[c] {
        assert !Underway(h, event, c);
      }
      forall c | c in h.shared.clients
        ensures forall event :: event in StoredFor(EMPTY, moves, c) ==> event in h.received[c]
      {
        OwedIsStored(EMPTY, moves, c);
      }
    }
  }

  lemma {:induction false} RunSnoc(h: Hub, moves: seq<Move>, t: ThreadId, a: Action)
    requires Runs(h, moves) && Enabled(After(h, moves), t, a)
    ensures Runs(h, moves + [Move(t, a)])
    ensures After(h, moves + [Move(t, a)]) == Apply(After(h, moves), t, a)
    decreases |moves|
  {
    var all := moves + [Move(t, a)];
    if moves == [] {
      assert all[1..] == [];
    } else {
      RunSnoc(Apply(h, moves[0].t, moves[0].a), moves[1..], t, a);
      assert all[1..] == moves[1..] + [Move(t, a)];
    }
  }

  // ---- every run can come to rest ----

  lemma RunCons(h: Hub, t: ThreadId, a: Action, rest: seq<Move>)
    requires Enabled(h, t, a) && Runs(Apply(h, t, a), rest)
    ensures Runs(h, [Move(t, a)] + rest) && After(h, [Move(t, a)] + rest) == After(Apply(h, t, a), rest)
  {
    assert ([Move(t, a)] + rest)[1..] == rest;
  }

  lemma {:induction false} RunOn(h: Hub, first: seq<Move>, rest: seq<Move>)
    requires Runs(h, first) && Runs(After(h, first), rest)
    ensures Runs(h, first + rest) && After(h, first + rest) == After(After(h, first), rest)
    decreases |first|
  {
    if first == [] {
      assert first + rest == rest;
    } else {
      RunOn(Apply(h, first[0].t, first[0].a), first[1..], rest);
      assert (first + rest)[1..] == first[1..] + rest;
    }
  }

  /** Nobody begins anything new. */
  ghost predicate NoNewcomers(moves: seq<Move>) {
    forall i :: 0 <= i < |moves| ==> !moves[i].a.Admit? && !moves[i].a.Store?
  }

  lemma {:induction false} FinishesWriting(h: Hub, t: ThreadId) returns (moves: seq<Move>)
    requires h.holder.None? && t in h.threads && h.threads[t].Writing?
    ensures Runs(h, moves) && NoNewcomers(moves) && After(h, moves).threads == h.threads - {t}
    decreases |h.threads[t].todo|
  {
    if h.threads[t].todo == [] {
      moves := [];
      RunCons(h, t, Leave, moves);
      moves := [Move(t, Leave)] + moves;
    } else {
      var next := Apply(h, t, WriteTo(true));
      moves := FinishesWriting(next, t);
      RunCons(h, t, WriteTo(true), moves);
      moves := [Move(t, WriteTo(true))] + moves;
      assert next.threads - {t} == h.threads - {t};
    }
  }

  lemma Finishes(h: Hub, t: ThreadId) returns (moves: seq<Move>)
    requires Inv(h) && t in h.threads && (h.holder.None? || h.holder == Some(t))
    ensures Runs(h, moves) && NoNewcomers(moves) && After(h, moves).threads == h.threads - {t}
  {
    if Subscribing(h.threads[t]) {
      RunCons(h, t, Abort, []);
      moves := [Move(t, Abort)] + [];
    } else if h.threads[t].Stored? {
      var next := Apply(h, t, Snapshot);
      moves := FinishesWriting(next, t);
      RunCons(h, t, Snapshot, moves);
      moves := [Move(t, Snapshot)] + moves;
      assert next.threads - {t} == h.threads - {t};
    } else {
      moves := FinishesWriting(h, t);
    }
  }

  /** From every state reached, the calls in flight can all end with no new one: none waits for ever on a lock. */
  lemma {:induction false} ComesToRest(h: Hub) returns (moves: seq<Move>)
    requires Inv(h)
    ensures Runs(h, moves) && NoNewcomers(moves) && After(h, moves).threads == map[]
    decreases |h.threads|
  {
    if h.threads == map[] {
      moves := [];
    } else {
      var any :| any in h.threads;
      var t := if h.holder.Some? then h.holder.value else any;
      var first := Finishes(h, t);
      RunKeeps(h, first);
      assert h.threads.Keys == (h.threads - {t}).Keys + {t};
      var rest := ComesToRest(After(h, first));
      RunOn(h, first, rest);
      moves := first + rest;
    }
  }

  /** The list lock is free unless a subscriber is between taking it and joining or giving up. */
  lemma LockIsFree(moves: seq<Move>)
    requires Runs(EMPTY, moves)
    ensures var h := After(EMPTY, moves);
            h.holder.None? <==> forall t :: t in h.threads ==> !Subscribing(h.threads[t])
  {
    RunKeeps(EMPTY, moves);
    var h := After(EMPTY, moves);
    if h.holder.Some? { assert h.holder == Some(h.holder.value); }
  }

  // ---- who is listed ----

  /** The client a move fails to write to. */
  ghost function FailsFor(h: Hub, t: ThreadId, a: Action): set<ClientId>
    requires Enabled(h, t, a)
  {
    if a == WriteTo(false) then {h.threads[t].todo[0]} else {}
  }

  /** The clients some write of a run failed for. */
  ghost function FailedFor(h: Hub, moves: seq<Move>): set<ClientId>
    requires Runs(h, moves)
    decreases |moves|
  {
    if moves == [] then {}
    else FailsFor(h, moves[0].t, moves[0].a) + FailedFor(Apply(h, moves[0].t, moves[0].a), moves[1..])
  }

  /** A failed write of the client is still to be acted upon. */
  ghost predicate Doomed(h: Hub, c: ClientId) {
    exists t :: t in h.threads && h.threads[t].Writing? && c in h.threads[t].failed
  }

  ghost predicate KnownIds(h: Hub, failed: set<ClientId>) {
    && (forall c :: c in failed ==> c < h.shared.nextId)
    && (forall t, c :: t in h.threads && h.threads[t].Writing? && c in h.threads[t].todo ==> c < h.shared.nextId)
  }

  ghost predicate ListedWhen(h: Hub, failed: set<ClientId>) {
    && (forall c :: c in h.owed && c !in failed ==> c in h.shared.clients)
    && (forall t :: t in h.threads && h.threads[t].Writing? ==> h.threads[t].failed <= failed)
    && (forall c :: c in h.shared.clients && c in failed ==> Doomed(h, c))
  }

  lemma DoomedKept(h: Hub, h': Hub, t: ThreadId, c: ClientId)
    requires forall u :: u in h.threads && u != t ==> u in h'.threads && h'.threads[u] == h.threads[u]
    requires t in h.threads && h.threads[t].Writing? && c in h.threads[t].failed ==>
               t in h'.threads && h'.threads[t].Writing? && c in h'.threads[t].failed
    requires Doomed(h, c)
    ensures Doomed(h', c)
  {
    var u :| u in h.threads && h.threads[u].Writing? && c in h.threads[u].failed;
    assert u in h'.threads && h'.threads[u].Writing? && c in h'.threads[u].failed;
  }

  lemma KnownIdsStep(h: Hub, failed: set<ClientId>, t: ThreadId, a: Action)
    requires Listed(h) && KnownIds(h, failed) && Enabled(h, t, a)
    ensures KnownIds(Apply(h, t, a), failed + FailsFor(h, t, a))
  {
    var h' := Apply(h, t, a);
    if a.WriteTo? { assert h.threads[t].todo[0] in h.threads[t].todo; }
    forall u, c | u in h'.threads && h'.threads[u].Writing? && c in h'.threads[u].todo ensures c < h'.shared.nextId {
      if u == t && a.WriteTo? {
        assert c in h.threads[t].todo;
      } else if u == t {
        assert a.Snapshot? && c in h.shared.clients;
      } else {
        assert c in h.threads[u].todo;
      }
    }
  }

  lemma ListedStep(h: Hub, failed: set<ClientId>, t: ThreadId, a: Action)
    requires Listed(h) && KnownIds(h, failed) && ListedWhen(h, failed) && Enabled(h, t, a)
    ensures ListedWhen(Apply(h, t, a), failed + FailsFor(h, t, a))
  {
    var h' := Apply(h, t, a);
    if a.Leave? { WithoutFacts(h.shared.clients, h.threads[t].failed); }
    forall c | c in h'.shared.clients && c in failed + FailsFor(h, t, a) ensures Doomed(h', c) {
      if a == WriteTo(false) && c == h.threads[t].todo[0] {
        assert c in h'.threads[t].failed;
      } else {
        DoomedKept(h, h', t, c);
      }
    }
  }

  lemma {:induction false} ListedRun(h: Hub, failed: set<ClientId>, moves: seq<Move>)
    requires Inv(h) && KnownIds(h, failed) && ListedWhen(h, failed) && Runs(h, moves)
    ensures ListedWhen(After(h, moves), failed + FailedFor(h, moves))
    decreases |moves|
  {
    if moves == [] {
      assert failed + {} == failed;
    } else {
      var t, a := moves[0].t, moves[0].a;
      StepKeeps(h, t, a);
      KnownIdsStep(h, failed, t, a);
      ListedStep(h, failed, t, a);
      ListedRun(Apply(h, t, a), failed + FailsFor(h, t, a), moves[1..]);
      assert failed + FailedFor(h, moves)
          == failed + FailsFor(h, t, a) + FailedFor(Apply(h, t, a), moves[1..]);
    }
  }

  /**
    Over every run a client that joined stays listed as long as no write to it fails; with no
    call in flight the listed clients are exactly those.
  */
  lemma ListedExactlyWhen(moves: seq<Move>)
    requires Runs(EMPTY, moves)
    ensures var h, failed := After(EMPTY, moves), FailedFor(EMPTY, moves);
            && (forall c :: c in h.owed && c !in failed ==> c in h.shared.clients)
            && (h.threads == map[] ==> forall c :: c in h.shared.clients <==> c in h.owed && c !in failed)
  {
    RunKeeps(EMPTY, moves);
    ListedRun(EMPTY, {}, moves);
    assert {} + FailedFor(EMPTY, moves) == FailedFor(EMPTY, moves);
  }

  // ---- which event a client was written last ----

  /** The last event is the newest store, and every sender is at one of the stores. */
  ghost predicate Numbered(h: Hub) {
    && h.shared.last == (if h.stores == [] then None else Some(|h.stores| - 1))
    && forall t :: t in h.threads && (h.threads[t].Stored? || h.threads[t].Writing?) ==> h.threads[t].event < |h.stores|
  }

  /** The last event is still under way to the client, or is what it was written last. */
  ghost predicate Fresh(h: Hub, c: ClientId)
    requires c in h.received
  {
    h.shared.last.Some? ==>
      Underway(h, h.shared.last.value, c)
      || (h.received[c] != [] && h.received[c][|h.received[c]| - 1] == h.shared.last.value)
  }

  /** A sender with an older event writes to a listed client to which the last event is no longer under way. */
  ghost predicate Overtakes(h: Hub, m: Move, c: ClientId) {
    && m.a == WriteTo(true) && Enabled(h, m.t, m.a)
    && c in h.shared.clients && h.threads[m.t].todo[0] == c
    && h.shared.last.Some? && h.threads[m.t].event < h.shared.last.value
    && !Underway(h, h.shared.last.value, c)
  }

  lemma UnderwayKept(h: Hub, h': Hub, t: ThreadId, event: StoreNo, c: ClientId)
    requires forall u :: u != t ==> (u in h.threads <==> u in h'.threads)
    requires forall u :: u in h.threads && u != t ==> h'.threads[u] == h.threads[u]
    requires (t in h.threads && Carries(h.threads[t], event, c))
        <==> (t in h'.threads && Carries(h'.threads[t], event, c))
    ensures Underway(h, event, c) <==> Underway(h', event, c)
  {
    if Underway(h, event, c) {
      var u :| u in h.threads && Carries(h.threads[u], event, c);
      assert u in h'.threads && Carries(h'.threads[u], event, c);
    }
    if Underway(h', event, c) {
      var u :| u in h'.threads && Carries(h'.threads[u], event, c);
      assert u in h.threads && Carries(h.threads[u], event, c);
    }
  }

  lemma FreshAtStore(h: Hub, t: ThreadId, line: Line, c: ClientId)
    requires Inv(h) && Enabled(h, t, Store(line)) && c in h.shared.clients
    ensures Fresh(Apply(h, t, Store(line)), c)
  {
    var h' := Apply(h, t, Store(line));
    assert t in h'.threads && Carries(h'.threads[t], |h.stores|, c);
  }

  lemma FreshAtJoin(h: Hub, t: ThreadId)
    requires Inv(h) && Enabled(h, t, Join)
    ensures Fresh(Apply(h, t, Join), h.shared.nextId)
  {
    var h' := Apply(h, t, Join);
    if h.shared.last.Some? && h.threads[t].got != [h.shared.last.value] {
      var u :| u in h.threads && h.threads[u] == Stored(h.shared.last.value);
      assert u in h'.threads && Carries(h'.threads[u], h.shared.last.value, h.shared.nextId);
    }
  }

  lemma FreshAtWrite(h: Hub, t: ThreadId, ok: bool, c: ClientId)
    requires Inv(h) && Numbered(h) && Enabled(h, t, WriteTo(ok)) && c in h.shared.clients
    ensures Fresh(Apply(h, t, WriteTo(ok)), c) <==> Fresh(h, c) && !Overtakes(h, Move(t, WriteTo(ok)), c)
  {
    var h', p := Apply(h, t, WriteTo(ok)), h.threads[t];
    assert p.todo == [p.todo[0]] + p.todo[1..];
    if h.shared.last.Some? {
      var last := h.shared.last.value;
      if p.event == last && ok && c == p.todo[0] {
        assert Carries(h.threads[t], last, c);
      } else {
        UnderwayKept(h, h', t, last, c);
      }
    }
  }

  /** Only an overtaking write makes a client's last line stale, and only a new store refreshes it. */
  lemma FreshStep(h: Hub, t: ThreadId, a: Action, c: ClientId)
    requires Inv(h) && Numbered(h) && Enabled(h, t, a) && c in Apply(h, t, a).shared.clients
    ensures c in h.shared.clients || (a == Join && c == h.shared.nextId)
    ensures c in Apply(h, t, a).received
    ensures var now := Fresh(Apply(h, t, a), c);
            if a.Store? || c !in h.shared.clients then now
            else now <==> Fresh(h, c) && !Overtakes(h, Move(t, a), c)
  {
    var h' := Apply(h, t, a);
    StepKeeps(h, t, a);
    match a
    case Store(line) => FreshAtStore(h, t, line, c);
    case Join => if c == h.shared.nextId { FreshAtJoin(h, t); } else { FreshElsewhere(h, h', t, c); }
    case WriteTo(ok) => FreshAtWrite(h, t, ok, c);
    case Leave =>
      WithoutFacts(h.shared.clients, h.threads[t].failed);
      FreshElsewhere(h, h', t, c);
    case _ => FreshElsewhere(h, h', t, c);
  }

  lemma FreshElsewhere(h: Hub, h': Hub, t: ThreadId, c: ClientId)
    requires c in h.received && c in h'.received && h'.received[c] == h.received[c] && h'.shared.last == h.shared.last
    requires forall u :: u != t ==> (u in h.threads <==> u in h'.threads)
    requires forall u :: u in h.threads && u != t ==> h'.threads[u] == h.threads[u]
    requires forall event :: (t in h.threads && Carries(h.threads[t], event, c))
                             <==> (t in h'.threads && Carries(h'.threads[t], event, c))
    ensures Fresh(h', c) <==> Fresh(h, c)
  {
    if h.shared.last.Some? { UnderwayKept(h, h', t, h.shared.last.value, c); }
  }

  lemma NumberedStep(h: Hub, t: ThreadId, a: Action)
    requires Numbered(h) && Enabled(h, t, a)
    ensures Numbered(Apply(h, t, a))
  {
  }

  // ---- over whole runs ----

  lemma {:induction false} LastMove(h: Hub, moves: seq<Move>)
    requires Runs(h, moves) && moves != []
    ensures var front, last := moves[..|moves| - 1], moves[|moves| - 1];
            && Runs(h, front) && Enabled(After(h, front), last.t, last.a)
            && After(h, moves) == Apply(After(h, front), last.t, last.a)
    decreases |moves|
  {
    if |moves| == 1 {
      assert moves[..0] == [];
    } else {
      LastMove(Apply(h, moves[0].t, moves[0].a), moves[1..]);
      assert moves[1..][..|moves| - 2] == moves[..|moves| - 1][1..];
    }
  }

  lemma {:induction false} PrefixRuns(moves: seq<Move>, k: nat)
    requires Runs(EMPTY, moves) && k <= |moves|
    ensures Runs(EMPTY, moves[..k])
    decreases |moves|
  {
    if k == |moves| {
      assert moves[..k] == moves;
    } else {
      LastMove(EMPTY, moves);
      PrefixRuns(moves[..|moves| - 1], k);
      assert moves[..|moves| - 1][..k] == moves[..k];
    }
  }

  /** Since the last store of the run, an older event was written to the client after the newest. */
  ghost predicate Overtaken(moves: seq<Move>, c: ClientId)
    requires Runs(EMPTY, moves)
  {
    exists k: nat :: k < |moves| && OvertakenAt(moves, k, c)
  }

  ghost predicate OvertakenAt(moves: seq<Move>, k: nat, c: ClientId)
    requires Runs(EMPTY, moves) && k < |moves|
  {
    PrefixRuns(moves, k);
    Overtakes(After(EMPTY, moves[..k]), moves[k], c) && forall j :: k < j < |moves| ==> !moves[j].a.Store?
  }

  lemma OvertakenAtFront(moves: seq<Move>, k: nat, c: ClientId)
    requires Runs(EMPTY, moves) && k < |moves| - 1 && Runs(EMPTY, moves[..|moves| - 1])
    ensures OvertakenAt(moves, k, c)
        <==> OvertakenAt(moves[..|moves| - 1], k, c) && !moves[|moves| - 1].a.Store?
  {
    var n, front := |moves| - 1, moves[..|moves| - 1];
    assert front[..k] == moves[..k];
    assert moves == front + [moves[n]];
  }

  lemma OvertakenNow(moves: seq<Move>, c: ClientId)
    requires Runs(EMPTY, moves) && moves != [] && Runs(EMPTY, moves[..|moves| - 1])
    ensures OvertakenAt(moves, |moves| - 1, c)
        <==> Overtakes(After(EMPTY, moves[..|moves| - 1]), moves[|moves| - 1], c)
  {
  }

  lemma OvertakenSnoc(moves: seq<Move>, c: ClientId)
    requires Runs(EMPTY, moves) && moves != []
    requires Runs(EMPTY, moves[..|moves| - 1])
    ensures var front, last := moves[..|moves| - 1], moves[|moves| - 1];
            Overtaken(moves, c) <==> !last.a.Store? && (Overtaken(front, c) || Overtakes(After(EMPTY, front), last, c))
  {
    var n, front := |moves| - 1, moves[..|moves| - 1];
    OvertakenNow(moves, c);
    if Overtaken(moves, c) {
      var k: nat :| k < |moves| && OvertakenAt(moves, k, c);
      if k < n { OvertakenAtFront(moves, k, c); }
    }
    if Overtaken(front, c) {
      var k: nat :| k < n && OvertakenAt(front, k, c);
      OvertakenAtFront(moves, k, c);
    }
  }

  lemma {:induction false} RunNumbered(moves: seq<Move>)
    requires Runs(EMPTY, moves)
    ensures Numbered(After(EMPTY, moves))
    decreases |moves|
  {
    if moves != [] {
      LastMove(EMPTY, moves);
      var front, last := moves[..|moves| - 1], moves[|moves| - 1];
      RunNumbered(front);
      NumberedStep(After(EMPTY, front), last.t, last.a);
    }
  }

  /** Only a client that was listed can have been overtaken. */
  lemma {:induction false} OvertakenWasListed(moves: seq<Move>, c: ClientId)
    requires Runs(EMPTY, moves) && Overtaken(moves, c)
    ensures c < After(EMPTY, moves).shared.nextId
    decreases |moves|
  {
    LastMove(EMPTY, moves);
    OvertakenSnoc(moves, c);
    var front := moves[..|moves| - 1];
    RunKeeps(EMPTY, front);
    if Overtaken(front, c) { OvertakenWasListed(front, c); }
  }

  lemma {:induction false} FreshExactlyWhen(moves: seq<Move>, c: ClientId)
    requires Runs(EMPTY, moves) && c in After(EMPTY, moves).shared.clients
    ensures c in After(EMPTY, moves).received && (Fresh(After(EMPTY, moves), c) <==> !Overtaken(moves, c))
    decreases |moves|
  {
    if moves != [] {
      LastMove(EMPTY, moves);
      var front, last := moves[..|moves| - 1], moves[|moves| - 1];
      var h := After(EMPTY, front);
      RunKeeps(EMPTY, front);
      RunNumbered(front);
      FreshStep(h, last.t, last.a, c);
      OvertakenSnoc(moves, c);
      if c in h.shared.clients {
        FreshExactlyWhen(front, c);
      } else if Overtaken(front, c) {
        OvertakenWasListed(front, c);
      }
    }
  }

  /**
    In every interleaving, once no call is in flight: the last line a listed client was
    written is the last event if and only if, since that event was stored, no sender with an
    older one wrote to the client after the last sender of the newest was done with it.
  */
  lemma LastLineIsLastEventWhen(moves: seq<Move>, c: ClientId)
    requires Runs(EMPTY, moves)
    requires var h := After(EMPTY, moves); h.threads == map[] && c in h.shared.clients && h.shared.last.Some?
    ensures var h := After(EMPTY, moves);
            && c in h.received && h.received[c] != []
            && (h.received[c][|h.received[c]| - 1] == h.shared.last.value <==> !Overtaken(moves, c))
  {
    HandOverIsComplete(moves);
    FreshExactlyWhen(moves, c);
  }

  // ---- a condition the callers can keep ----

  ghost predicate NoSender(h: Hub) {
    forall t :: t in h.threads ==> !h.threads[t].Stored? && !h.threads[t].Writing?
  }

  /** No event is stored while another sender is between its store and its leaving. */
  ghost predicate OneAtATime(moves: seq<Move>)
    requires Runs(EMPTY, moves)
  {
    forall k :: 0 <= k < |moves| && moves[k].a.Store? ==> SenderFreeAt(moves, k)
  }

  ghost predicate SenderFreeAt(moves: seq<Move>, k: nat)
    requires Runs(EMPTY, moves) && k < |moves|
  {
    PrefixRuns(moves, k);
    NoSender(After(EMPTY, moves[..k]))
  }

  ghost predicate AllCurrent(h: Hub) {
    forall t :: t in h.threads && (h.threads[t].Stored? || h.threads[t].Writing?)
      ==> h.shared.last == Some(h.threads[t].event)
  }

  lemma {:induction false} InTurn(moves: seq<Move>, c: ClientId)
    requires Runs(EMPTY, moves) && OneAtATime(moves)
    ensures AllCurrent(After(EMPTY, moves)) && !Overtaken(moves, c)
    decreases |moves|
  {
    if moves != [] {
      LastMove(EMPTY, moves);
      var front, last := moves[..|moves| - 1], moves[|moves| - 1];
      forall k: nat | k < |front| && front[k].a.Store? ensures SenderFreeAt(front, k) {
        assert front[..k] == moves[..k] && SenderFreeAt(moves, k);
      }
      InTurn(front, c);
      assert last.a.Store? ==> SenderFreeAt(moves, |front|);
      OvertakenSnoc(moves, c);
    }
  }

  /** If sends are made one at a time, every listed client ends with the last event. */
  lemma SendsInTurnEndWithTheLast(moves: seq<Move>, c: ClientId)
    requires Runs(EMPTY, moves) && OneAtATime(moves)
    requires var h := After(EMPTY, moves); h.threads == map[] && c in h.shared.clients && h.shared.last.Some?
    ensures var h := After(EMPTY, moves);
            c in h.received && h.received[c] != [] && h.received[c][|h.received[c]| - 1] == h.shared.last.value
  {
    InTurn(moves, c);
    LastLineIsLastEventWhen(moves, c);
  }

  // ---- and it can fail ----

  /** One client listed, nothing in flight. */
  lemma OneClient() returns (moves: seq<Move>)
    ensures Runs(EMPTY, moves)
    ensures After(EMPTY, moves) == Hub(Shared([1], None, 2), None, map[], [], map[1 := []], map[1 := {}])
  {
    moves := [];
    RunSnoc(EMPTY, moves, 1, Admit);
    moves := moves + [Move(1, Admit)];
    RunSnoc(EMPTY, moves, 1, CatchUp);
    moves := moves + [Move(1, CatchUp)];
    RunSnoc(EMPTY, moves, 1, Join);
    moves := moves + [Move(1, Join)];
    var h := After(EMPTY, moves);
    assert h.shared == Shared([1], None, 2) && h.threads == map[];
    assert h.received == map[1 := []] && h.owed == map[1 := {}];
  }

  /** A sender that has stored its event snapshots one client, writes to it and leaves. */
  lemma SendOne(moves: seq<Move>, t: ThreadId, event: StoreNo) returns (more: seq<Move>)
    requires Runs(EMPTY, moves)
    requires var h := After(EMPTY, moves);
             && t in h.threads && h.threads[t] == Stored(event) && h.holder.None?
             && h.shared.clients == [1] && 1 in h.received
    ensures Runs(EMPTY, more)
    ensures var h := After(EMPTY, moves);
            After(EMPTY, more) == h.(threads := h.threads - {t}, received := h.received[1 := h.received[1] + [event]])
  {
    var h := After(EMPTY, moves);
    RunSnoc(EMPTY, moves, t, Snapshot);
    more := moves + [Move(t, Snapshot)];
    RunSnoc(EMPTY, more, t, WriteTo(true));
    more := more + [Move(t, WriteTo(true))];
    RunSnoc(EMPTY, more, t, Leave);
    more := more + [Move(t, Leave)];
    assert [1][..0] == [] && Without([1], {}) == [1];
    var h' := After(EMPTY, more);
    assert h'.threads == h.threads - {t};
  }

  /** Two senders have stored their events when a client joins and is told the newer one. */
  lemma StoredThenJoined() returns (moves: seq<Move>)
    ensures Runs(EMPTY, moves)
    ensures var h := After(EMPTY, moves);
            && h.threads == map[1 := Stored(0), 2 := Stored(1)] && h.received == map[1 := [1]]
            && h.shared.clients == [1] && h.shared.last == Some(1) && h.holder.None?
  {
    moves := [];
    RunSnoc(EMPTY, moves, 1, Store("a"));
    moves := moves + [Move(1, Store("a"))];
    RunSnoc(EMPTY, moves, 2, Store("b"));
    moves := moves + [Move(2, Store("b"))];
    RunSnoc(EMPTY, moves, 3, Admit);
    moves := moves + [Move(3, Admit)];
    RunSnoc(EMPTY, moves, 3, CatchUp);
    moves := moves + [Move(3, CatchUp)];
    RunSnoc(EMPTY, moves, 3, Join);
    moves := moves + [Move(3, Join)];
  }

  /** An older event may come last but one: a client that caught up is written the last event again. */
  lemma StaleButRefreshed() returns (moves: seq<Move>)
    ensures Runs(EMPTY, moves)
    ensures var h := After(EMPTY, moves);
            && h.threads == map[] && h.shared.last == Some(1)
            && 1 in h.shared.clients && 1 in h.received && h.received[1] == [1, 0, 1]
  {
    moves := StoredThenJoined();
    moves := SendOne(moves, 1, 0);
    moves := SendOne(moves, 2, 1);
    assert After(EMPTY, moves).threads == map[];
  }

  /** Two sends overlap and the client is left with the first event. */
  lemma LastLineCanBeStale() returns (moves: seq<Move>)
    ensures Runs(EMPTY, moves)
    ensures var h := After(EMPTY, moves);
            && h.threads == map[] && h.stores == ["a", "b"] && h.shared.last == Some(1)
            && 1 in h.shared.clients && 1 in h.received && h.received[1] == [1, 0]
  {
    moves := OneClient();
    RunSnoc(EMPTY, moves, 1, Store("a"));
    moves := moves + [Move(1, Store("a"))];
    RunSnoc(EMPTY, moves, 2, Store("b"));
    moves := moves + [Move(2, Store("b"))];
    var h := After(EMPTY, moves);
    assert h.threads == map[1 := Stored(0), 2 := Stored(1)];
    moves := SendOne(moves, 2, 1);
    moves := SendOne(moves, 1, 0);
    assert After(EMPTY, moves).threads == map[];
  }
}
