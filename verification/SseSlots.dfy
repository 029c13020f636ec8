/**
  Admission of event streams: a semaphore of permits for the whole server and, under a lock,
  a count per session. The two are taken and given back in separate steps by concurrent
  handler threads.
*/
module SseSlots {

  const MAX_STREAMS := 48
  const MAX_PER_SESSION := 4

  type Session = string
  type ThreadId = nat

  /** Between the permit and the count, streaming, or between the count and the permit. */
  datatype Pc = Permitted(sid: Session) | Streaming(sid: Session) | Ending(sid: Session)

  datatype State = State(taken: nat, active: map<Session, nat>, threads: map<ThreadId, Pc>)

  const IDLE := State(0, map[], map[])

  // ---- the two counters ----

  function CountOf(active: map<Session, nat>, sid: Session): nat {
    if sid in active then active[sid] else 0
  }

  /** The count given back: a missing one is read as 1, and one that reaches zero is removed. */
  function GivenBack(active: map<Session, nat>, sid: Session): map<Session, nat> {
    var count := if sid in active then active[sid] else 1;
    if count <= 1 then active - {sid} else active[sid := count - 1]
  }

  datatype Counters = Counters(taken: nat, active: map<Session, nat>)

  function Acquired(k: Counters): Counters {
    if k.taken < MAX_STREAMS then k.(taken := k.taken + 1) else k
  }

  /** The count goes up, or at the limit the permit goes back. */
  function Entered(k: Counters, sid: Session): Counters {
    if CountOf(k.active, sid) >= MAX_PER_SESSION then Released(k)
    else k.(active := k.active[sid := CountOf(k.active, sid) + 1])
  }

  function Left(k: Counters, sid: Session): Counters {
    k.(active := GivenBack(k.active, sid))
  }

  function Released(k: Counters): Counters {
    k.(taken := if k.taken > 0 then k.taken - 1 else 0)
  }

  class Gate {
    var taken: nat
    var active: map<Session, nat>

    function Now(): Counters
      reads this
    {
      Counters(taken, active)
    }

    constructor ()
      ensures Now() == Counters(0, map[])
    {
      taken, active := 0, map[];
    }

    method TryAcquire() returns (ok: bool)
      modifies this`taken
      ensures ok == (old(taken) < MAX_STREAMS) && Now() == Acquired(old(Now()))
    {
      ok := taken < MAX_STREAMS;
      if ok { taken := taken + 1; }
    }

    method Enter(sid: Session) returns (ok: bool)
      requires taken > 0
      modifies this
      ensures ok == (CountOf(old(active), sid) < MAX_PER_SESSION) && Now() == Entered(old(Now()), sid)
    {
      var count := CountOf(active, sid);
      if count >= MAX_PER_SESSION {
        taken := taken - 1;
        return false;
      }
      active := active[sid := count + 1];
      return true;
    }

    method Leave(sid: Session)
      modifies this`active
      ensures Now() == Left(old(Now()), sid)
    {
      var remaining: int := if sid in active then active[sid] as int - 1 else 0;
      if remaining <= 0 {
        active := active - {sid};
      } else {
        active := active[sid := remaining];
      }
    }

    method Release()
      requires taken > 0
      modifies this`taken
      ensures Now() == Released(old(Now()))
    {
      taken := taken - 1;
    }
  }

  // ---- handler threads ----

  datatype Action = Acquiring(sid: Session) | Entering | Leaving | Releasing

  ghost predicate Enabled(s: State, t: ThreadId, a: Action) {
    match a
    case Acquiring(_) => t !in s.threads
    case Entering => t in s.threads && s.threads[t].Permitted?
    case Leaving => t in s.threads && s.threads[t].Streaming?
    case Releasing => t in s.threads && s.threads[t].Ending? && s.taken > 0
  }

  ghost function At(k: Counters, threads: map<ThreadId, Pc>): State {
    State(k.taken, k.active, threads)
  }

  ghost function Apply(s: State, t: ThreadId, a: Action): State
    requires Enabled(s, t, a)
  {
    var k := Counters(s.taken, s.active);
    match a
    case Acquiring(sid) =>
      At(Acquired(k), if s.taken < MAX_STREAMS then s.threads[t := Permitted(sid)] else s.threads)
    case Entering =>
      var sid := s.threads[t].sid;
      At(Entered(k, sid),
         if CountOf(s.active, sid) < MAX_PER_SESSION then s.threads[t := Streaming(sid)] else s.threads - {t})
    case Leaving => At(Left(k, s.threads[t].sid), s.threads[t := Ending(s.threads[t].sid)])
    case Releasing => At(Released(k), s.threads - {t})
  }

  // ---- conservation ----

  ghost function Streams(s: State, sid: Session): set<ThreadId> {
    set t | t in s.threads && s.threads[t] == Streaming(sid)
  }

  ghost function Between(s: State): set<ThreadId> {
    set t | t in s.threads && !s.threads[t].Streaming?
  }

  ghost function Sum(m: map<Session, nat>): nat {
    if m == map[] then 0
    else
      var k :| k in m;
      m[k] + Sum(m - {k})
  }

  lemma {:induction false} SumWithout(m: map<Session, nat>, k: Session)
    requires k in m
    ensures Sum(m) == m[k] + Sum(m - {k})
    decreases |m|
  {
    var j :| j in m && Sum(m) == m[j] + Sum(m - {j});
    if j != k {
      SumWithout(m - {j}, k);
      SumWithout(m - {k}, j);
      assert m - {j} - {k} == m - {k} - {j};
    }
  }

  /** Setting one entry changes the sum by the difference. */
  lemma SumSet(m: map<Session, nat>, k: Session, n: nat)
    ensures Sum(m[k := n]) == Sum(m) - CountOf(m, k) + n
  {
    SumWithout(m[k := n], k);
    assert m[k := n] - {k} == m - {k};
    if k in m {
      SumWithout(m, k);
    } else {
      assert m - {k} == m;
    }
  }

  ghost predicate Inv(s: State) {
    && s.taken <= MAX_STREAMS
    && s.taken == Sum(s.active) + |Between(s)|
    && (forall sid :: sid in s.active ==> 0 < s.active[sid] <= MAX_PER_SESSION)
    && (forall sid :: CountOf(s.active, sid) == |Streams(s, sid)|)
  }

  lemma ThreadMoves(s: State, t: ThreadId, p: Pc)
    requires t !in s.threads || !s.threads[t].Streaming?
    ensures var s' := s.(threads := s.threads[t := p]);
            && Between(s') == (if p.Streaming? then Between(s) - {t} else Between(s) + {t})
            && forall sid :: Streams(s', sid) == if p == Streaming(sid) then Streams(s, sid) + {t} else Streams(s, sid)
  {
  }

  lemma ThreadEnds(s: State, t: ThreadId)
    requires t in s.threads && !s.threads[t].Streaming?
    ensures var s' := s.(threads := s.threads - {t});
            && Between(s') == Between(s) - {t}
            && forall sid :: Streams(s', sid) == Streams(s, sid)
  {
  }

  lemma EnterKeeps(s: State, t: ThreadId)
    requires Inv(s) && Enabled(s, t, Entering)
    ensures Inv(Apply(s, t, Entering))
  {
    assert t in Between(s);
    if CountOf(s.active, s.threads[t].sid) >= MAX_PER_SESSION { RefusedKeeps(s, t); } else { AdmittedKeeps(s, t); }
  }

  lemma RefusedKeeps(s: State, t: ThreadId)
    requires Inv(s) && Enabled(s, t, Entering) && CountOf(s.active, s.threads[t].sid) >= MAX_PER_SESSION
    ensures Inv(Apply(s, t, Entering))
  {
    var s' := Apply(s, t, Entering);
    assert t in Between(s);
    ThreadEnds(s, t);
    forall x ensures Streams(s', x) == Streams(s, x) {
      assert Streams(s', x) == Streams(s.(threads := s.threads - {t}), x);
    }
    assert Between(s') == Between(s) - {t};
  }

  lemma AdmittedKeeps(s: State, t: ThreadId)
    requires Inv(s) && Enabled(s, t, Entering) && CountOf(s.active, s.threads[t].sid) < MAX_PER_SESSION
    ensures Inv(Apply(s, t, Entering))
  {
    var sid := s.threads[t].sid;
    var s' := Apply(s, t, Entering);
    assert t in Between(s);
    ThreadMoves(s, t, Streaming(sid));
    SumSet(s.active, sid, CountOf(s.active, sid) + 1);
    assert Between(s') == Between(s) - {t};
    forall x ensures CountOf(s'.active, x) == |Streams(s', x)| { AdmittedCount(s, t, x); }
  }

  lemma AdmittedCount(s: State, t: ThreadId, x: Session)
    requires Inv(s) && Enabled(s, t, Entering) && CountOf(s.active, s.threads[t].sid) < MAX_PER_SESSION
    ensures var s' := Apply(s, t, Entering); CountOf(s'.active, x) == |Streams(s', x)|
  {
    var s' := Apply(s, t, Entering);
    var sid := s.threads[t].sid;
    ThreadMoves(s, t, Streaming(sid));
    assert Streams(s', x) == Streams(s.(threads := s.threads[t := Streaming(sid)]), x);
    assert t !in Streams(s, x);
  }

  lemma LeaveKeeps(s: State, t: ThreadId)
    requires Inv(s) && Enabled(s, t, Leaving)
    ensures Inv(Apply(s, t, Leaving))
  {
    var sid := s.threads[t].sid;
    var s' := Apply(s, t, Leaving);
    assert t in Streams(s, sid) && t !in Between(s);
    assert Between(s') == Between(s) + {t};
    assert CountOf(s.active, sid) > 0;
    SumSet(s.active, sid, s.active[sid] - 1);
    if s.active[sid] == 1 {
      SumWithout(s.active, sid);
    }
    forall x ensures CountOf(s'.active, x) == |Streams(s', x)| {
      if x == sid {
        assert Streams(s', x) == Streams(s, x) - {t};
      } else {
        assert Streams(s', x) == Streams(s, x);
      }
    }
  }

  lemma StepKeeps(s: State, t: ThreadId, a: Action)
    requires Inv(s) && Enabled(s, t, a)
    ensures Inv(Apply(s, t, a))
  {
    var s' := Apply(s, t, a);
    match a
    case Acquiring(sid) =>
      if s.taken < MAX_STREAMS {
        ThreadMoves(s, t, Permitted(sid));
        assert forall x :: Streams(s', x) == Streams(s.(threads := s.threads[t := Permitted(sid)]), x);
      }
    case Entering => EnterKeeps(s, t);
    case Leaving => LeaveKeeps(s, t);
    case Releasing =>
      assert t in Between(s);
      ThreadEnds(s, t);
      assert forall x :: Streams(s', x) == Streams(s.(threads := s.threads - {t}), x);
  }

  /** The semaphore is never released more often than it was acquired. */
  lemma ReleaseIsAlwaysPossible(s: State, t: ThreadId)
    requires Inv(s) && t in s.threads && !s.threads[t].Streaming?
    ensures s.taken > 0
  {
    assert t in Between(s);
  }

  datatype Move = Move(t: ThreadId, a: Action)

  ghost predicate Runs(s: State, moves: seq<Move>)
    decreases |moves|
  {
    moves == [] || (Enabled(s, moves[0].t, moves[0].a) && Runs(Apply(s, moves[0].t, moves[0].a), moves[1..]))
  }

  ghost function After(s: State, moves: seq<Move>): State
    requires Runs(s, moves)
    decreases |moves|
  {
    if moves == [] then s else After(Apply(s, moves[0].t, moves[0].a), moves[1..])
  }

  lemma {:induction false} RunKeeps(s: State, moves: seq<Move>)
    requires Inv(s) && Runs(s, moves)
    ensures Inv(After(s, moves))
    decreases |moves|
  {
    if moves != [] {
      StepKeeps(s, moves[0].t, moves[0].a);
      RunKeeps(Apply(s, moves[0].t, moves[0].a), moves[1..]);
    }
  }

  /**
    In every interleaving: the permits taken are the streams counted plus those between their
    two bookkeeping steps; no session streams more than 4 times and the server no more than
    48; and when no handler is left, every permit is back and the table is empty.
  */
  lemma SlotsAreConserved(moves: seq<Move>)
    requires Runs(IDLE, moves)
    ensures var s := After(IDLE, moves);
            && s.taken == Sum(s.active) + |Between(s)| && s.taken <= MAX_STREAMS
            && (forall sid :: |Streams(s, sid)| <= MAX_PER_SESSION)
            && (s.threads == map[] ==> s.taken == 0 && s.active == map[])
  {
    assert forall sid :: Streams(IDLE, sid) == {};
    assert Between(IDLE) == {};
    RunKeeps(IDLE, moves);
    var s := After(IDLE, moves);
    forall sid ensures |Streams(s, sid)| <= MAX_PER_SESSION {
      assert CountOf(s.active, sid) == |Streams(s, sid)|;
    }
    if s.threads == map[] {
      assert Between(s) == {};
      forall sid ensures sid !in s.active {
        assert Streams(s, sid) == {};
        assert CountOf(s.active, sid) == |Streams(s, sid)|;
      }
      assert s.active == map[];
    }
  }

  lemma SizeWith(m: map<ThreadId, Pc>, t: ThreadId, p: Pc)
    ensures |m[t := p]| == |m| + if t in m then 0 else 1
  {
    assert m[t := p].Keys == m.Keys + {t};
    if t in m { assert m.Keys + {t} == m.Keys; }
  }

  lemma SizeWithout(m: map<ThreadId, Pc>, t: ThreadId)
    requires t in m
    ensures |m - {t}| == |m| - 1
  {
    assert (m - {t}).Keys == m.Keys - {t};
  }

  lemma StepCounts(s: State, t: ThreadId, a: Action)
    requires Inv(s) && Enabled(s, t, a) && s.taken == |s.threads|
    ensures Apply(s, t, a).taken == |Apply(s, t, a).threads|
  {
    match a
    case Acquiring(sid) => SizeWith(s.threads, t, Permitted(sid));
    case Entering =>
      SizeWith(s.threads, t, Streaming(s.threads[t].sid));
      SizeWithout(s.threads, t);
      assert s.taken > 0 by { ReleaseIsAlwaysPossible(s, t); }
    case Leaving => SizeWith(s.threads, t, Ending(s.threads[t].sid));
    case Releasing => SizeWithout(s.threads, t);
  }

  lemma {:induction false} RunCounts(s: State, moves: seq<Move>)
    requires Inv(s) && Runs(s, moves) && s.taken == |s.threads|
    ensures After(s, moves).taken == |After(s, moves).threads|
    decreases |moves|
  {
    if moves != [] {
      StepKeeps(s, moves[0].t, moves[0].a);
      StepCounts(s, moves[0].t, moves[0].a);
      RunCounts(Apply(s, moves[0].t, moves[0].a), moves[1..]);
    }
  }

  /**
    In every interleaving a handler gets a permit exactly when fewer than 48 are at work, and
    then streams exactly when fewer than 4 of its session do.
  */
  lemma AdmittedExactlyWhen(moves: seq<Move>, t: ThreadId)
    requires Runs(IDLE, moves)
    ensures var s := After(IDLE, moves);
            && (forall sid :: Enabled(s, t, Acquiring(sid)) ==>
                  (Apply(s, t, Acquiring(sid)).threads == s.threads[t := Permitted(sid)] <==> |s.threads| < 48))
            && (Enabled(s, t, Entering) ==>
                  var sid := s.threads[t].sid;
                  (Apply(s, t, Entering).threads == s.threads[t := Streaming(sid)] <==> |Streams(s, sid)| < 4))
  {
    assert forall sid :: Streams(IDLE, sid) == {};
    assert Between(IDLE) == {};
    RunKeeps(IDLE, moves);
    RunCounts(IDLE, moves);
    var s := After(IDLE, moves);
    if Enabled(s, t, Entering) {
      var sid := s.threads[t].sid;
      assert t in s.threads[t := Streaming(sid)] && t !in s.threads - {t};
      assert CountOf(s.active, sid) == |Streams(s, sid)|;
    }
    forall sid | Enabled(s, t, Acquiring(sid)) ensures s.threads[t := Permitted(sid)] != s.threads {
      assert t in s.threads[t := Permitted(sid)];
    }
  }
}
