/**
  Direct UI approvals. A tool started from the UI may need the user's approval; the daemon
  keeps it in a bounded table until it is decided, and runs it in a worker thread once
  granted. Handlers interleave at their awaits. The approval manager is the machine
  PENDING to GRANTED, DENIED or lapsed, in which only a PENDING approval can move.
*/
module DirectApprovals {

  const CAPACITY := 64

  type Id = string
  type Session = string

  datatype Approval = Pending | Granted | Denied | Lapsed

  /**
    `direct` is the daemon's table, `running` the worker threads, `runs` every execution
    started and `refusals` every approval the daemon reported as denied.
  */
  datatype State = State(approvals: map<Id, Approval>, direct: map<Id, Session>, running: set<Id>,
                         runs: multiset<Id>, refusals: set<Id>)

  const START := State(map[], map[], {}, multiset{}, {})

  /** `listed`: the manager could list its pending approvals; when not, nothing is pruned. */
  function Prune(s: State, listed: bool): State {
    if listed then
      s.(direct := map id | id in s.direct && id in s.approvals && s.approvals[id] == Pending :: s.direct[id])
    else s
  }

  function Settle(approvals: map<Id, Approval>, id: Id, a: Approval): map<Id, Approval> {
    if id in approvals && approvals[id] == Pending then approvals[id := a] else approvals
  }

  datatype Outcome = Refused | Done

  /** The tool came back asking for approval: register it if there is room. */
  function Register(s: State, id: Id, session: Session, listed: bool): (State, Outcome) {
    var p := Prune(s, listed);
    if |p.direct| >= CAPACITY then (p, Refused)
    else (p.(approvals := p.approvals[id := Pending], direct := p.direct[id := session]), Done)
  }

  /** The user's decision on an approval of this table; any other is not the daemon's own. */
  function Decide(s: State, id: Id, session: Session, allow: bool, listed: bool): (State, Outcome) {
    var p := Prune(s, listed);
    if id !in p.direct || (session != "" && p.direct[id] != session) then (p, Refused)
    else if !allow then
      (p.(approvals := Settle(p.approvals, id, Denied), direct := p.direct - {id}, refusals := p.refusals + {id}),
       Done)
    else if id in p.approvals && p.approvals[id] == Pending then
      (p.(approvals := p.approvals[id := Granted], running := p.running + {id}, runs := p.runs + multiset{id}), Done)
    else (p, Refused)
  }

  /** The worker thread of a granted approval is back; when the tool raised, its entry stays behind. */
  function Finished(s: State, id: Id, raised: bool): State {
    s.(running := s.running - {id}, direct := if raised then s.direct else s.direct - {id})
  }

  datatype Action =
    | Registering(id: Id, session: Session, listed: bool)
    | Deciding(id: Id, session: Session, allow: bool, listed: bool)
    | Finishing(id: Id, raised: bool)
    | Elsewhere(id: Id, outcome: Approval)

  /** A new approval gets a fresh id; `Elsewhere` is the manager settling one on its own. */
  ghost predicate Enabled(s: State, a: Action) {
    match a
    case Registering(id, _, _) => id !in s.approvals
    case Deciding(_, _, _, _) => true
    case Finishing(id, _) => id in s.running
    case Elsewhere(_, outcome) => outcome != Pending
  }

  function Apply(s: State, a: Action): State {
    match a
    case Registering(id, session, listed) => Register(s, id, session, listed).0
    case Deciding(id, session, allow, listed) => Decide(s, id, session, allow, listed).0
    case Finishing(id, raised) => Finished(s, id, raised)
    case Elsewhere(id, outcome) => s.(approvals := Settle(s.approvals, id, outcome))
  }

  // ---- the daemon's table, updated in place ----

  class ApprovalTable {
    var approvals: map<Id, Approval>
    var direct: map<Id, Session>
    var running: set<Id>
    ghost var runs: multiset<Id>
    ghost var refusals: set<Id>

    ghost function Now(): State
      reads this
    {
      State(approvals, direct, running, runs, refusals)
    }

    constructor ()
      ensures Now() == START
    {
      approvals, direct, running, runs, refusals := map[], map[], {}, multiset{}, {};
    }

    method PruneDirectPending(listed: bool)
      modifies this`direct
      ensures Now() == Prune(old(Now()), listed)
    {
      if !listed { return; }
      var rest := direct.Keys;
      while rest != {}
        invariant rest <= direct.Keys <= old(direct).Keys
        invariant forall id :: id in old(direct) ==>
                    (id in direct <==> id in rest || (id in approvals && approvals[id] == Pending))
        invariant forall id :: id in direct ==> direct[id] == old(direct)[id]
        decreases |rest|
      {
        var id :| id in rest;
        rest := rest - {id};
        if id !in approvals || approvals[id] != Pending {
          direct := direct - {id};
        }
      }
    }

    method RegisterDirect(id: Id, session: Session, listed: bool) returns (outcome: Outcome)
      modifies this`approvals, this`direct
      ensures (Now(), outcome) == Register(old(Now()), id, session, listed)
    {
      PruneDirectPending(listed);
      if |direct| >= CAPACITY { return Refused; }
      approvals := approvals[id := Pending];
      direct := direct[id := session];
      return Done;
    }

    method ResolveDirect(id: Id, session: Session, allow: bool, listed: bool) returns (outcome: Outcome)
      modifies this
      ensures (Now(), outcome) == Decide(old(Now()), id, session, allow, listed)
    {
      PruneDirectPending(listed);
      if id !in direct { return Refused; }
      if session != "" && direct[id] != session { return Refused; }
      if !allow {
        approvals := Settle(approvals, id, Denied);
        direct := direct - {id};
        refusals := refusals + {id};
        return Done;
      }
      if id !in approvals || approvals[id] != Pending { return Refused; }
      approvals := approvals[id := Granted];
      running := running + {id};
      runs := runs + multiset{id};
      return Done;
    }

    method FinishDirect(id: Id, raised: bool)
      modifies this
      ensures Now() == Finished(old(Now()), id, raised)
    {
      running := running - {id};
      if raised { return; }
      direct := direct - {id};
    }
  }

  // ---- what every run keeps ----

  ghost predicate Inv(s: State) {
    && |s.direct| <= CAPACITY
    && (forall id :: id in s.direct ==> id in s.approvals)
    && (forall id :: id in s.approvals && s.approvals[id] == Pending ==> id in s.direct)
    && (forall id :: id in s.running ==> id in s.runs)
    && (forall id :: id in s.runs ==> s.runs[id] == 1 && id in s.approvals && s.approvals[id] == Granted)
    && (forall id :: id in s.refusals ==> id in s.approvals && s.approvals[id] != Pending)
  }

  lemma SubmapSize<V>(small: map<Id, V>, big: map<Id, V>)
    requires small.Keys <= big.Keys
    ensures |small| <= |big|
  {
    var rest := big.Keys - small.Keys;
    assert big.Keys == small.Keys + rest;
    assert |big.Keys| == |small.Keys| + |rest|;
  }

  lemma PruneKeeps(s: State, listed: bool)
    requires Inv(s)
    ensures Inv(Prune(s, listed))
  {
    SubmapSize(Prune(s, listed).direct, s.direct);
  }

  lemma RegisterKeeps(s: State, id: Id, session: Session, listed: bool)
    requires Inv(s) && id !in s.approvals
    ensures Inv(Register(s, id, session, listed).0)
  {
    PruneKeeps(s, listed);
    var p := Prune(s, listed);
    if |p.direct| < CAPACITY {
    }
  }

  lemma DecideKeeps(s: State, id: Id, session: Session, allow: bool, listed: bool)
    requires Inv(s)
    ensures Inv(Decide(s, id, session, allow, listed).0)
  {
    PruneKeeps(s, listed);
    DecidePrunedKeeps(Prune(s, listed), id, session, allow);
  }

  lemma DecidePrunedKeeps(p: State, id: Id, session: Session, allow: bool)
    requires Inv(p)
    ensures Inv(Decide(p, id, session, allow, false).0)
  {
    if id in p.direct && (session == "" || p.direct[id] == session) {
      if allow { GrantKeeps(p, id, session); } else { DenyKeeps(p, id, session); }
    }
  }

  lemma DenyKeeps(p: State, id: Id, session: Session)
    requires Inv(p) && id in p.direct && (session == "" || p.direct[id] == session)
    ensures Inv(Decide(p, id, session, false, false).0)
  {
    SubmapSize(p.direct - {id}, p.direct);
  }

  lemma GrantKeeps(p: State, id: Id, session: Session)
    requires Inv(p) && id in p.direct && (session == "" || p.direct[id] == session)
    ensures Inv(Decide(p, id, session, true, false).0)
  {
    if id in p.runs { assert p.runs[id] == 1; }
  }

  lemma StepKeeps(s: State, a: Action)
    requires Inv(s) && Enabled(s, a)
    ensures Inv(Apply(s, a))
  {
    match a
    case Registering(id, session, listed) => RegisterKeeps(s, id, session, listed);
    case Deciding(id, session, allow, listed) => DecideKeeps(s, id, session, allow, listed);
    case Finishing(id, raised) => SubmapSize(Finished(s, id, raised).direct, s.direct);
    case Elsewhere(id, outcome) =>
  }

  /** No step takes an approval out of the table while it is still pending. */
  lemma PendingIsNeverDropped(s: State, a: Action, id: Id)
    requires Inv(s) && Enabled(s, a) && id in s.direct && id !in Apply(s, a).direct
    ensures id in Apply(s, a).approvals && Apply(s, a).approvals[id] != Pending
  {
    StepKeeps(s, a);
  }

  // ---- whole runs ----

  /** The state after the first `n` actions. */
  function After(actions: seq<Action>, n: nat): State
    requires n <= |actions|
  {
    if n == 0 then START else Apply(After(actions, n - 1), actions[n - 1])
  }

  ghost predicate LegalAt(actions: seq<Action>, k: nat)
    requires k < |actions|
  {
    Enabled(After(actions, k), actions[k])
  }

  ghost predicate Legal(actions: seq<Action>) {
    forall k: nat :: k < |actions| ==> LegalAt(actions, k)
  }

  /**
    Over every interleaving: at most 64 entries; every pending approval of the table is still
    in it; and an approval is executed at most once, only if it ended GRANTED, so never one
    the manager DENIED.
  */
  lemma {:induction false} TableIsSound(actions: seq<Action>, n: nat)
    requires Legal(actions) && n <= |actions|
    ensures Inv(After(actions, n))
  {
    if n > 0 {
      TableIsSound(actions, n - 1);
      assert LegalAt(actions, n - 1);
      StepKeeps(After(actions, n - 1), actions[n - 1]);
    }
  }

  /** The user refuses, while the pending list cannot be read, an approval that was executed. */
  ghost predicate LateRefusal(s: State, a: Action) {
    && a.Deciding? && !a.allow && !a.listed
    && a.id in s.direct && a.id in s.runs && (a.session == "" || s.direct[a.id] == a.session)
  }

  ghost predicate RefusedLateAt(actions: seq<Action>, k: nat)
    requires k < |actions|
  {
    LateRefusal(After(actions, k), actions[k])
  }

  ghost predicate RefusedLate(actions: seq<Action>, n: nat)
    requires n <= |actions|
  {
    exists k: nat :: k < n && RefusedLateAt(actions, k)
  }

  lemma RefusedLateNext(actions: seq<Action>, n: nat)
    requires n < |actions|
    ensures RefusedLate(actions, n + 1) <==> RefusedLate(actions, n) || RefusedLateAt(actions, n)
  {
    if RefusedLate(actions, n) {
      var k: nat :| k < n && RefusedLateAt(actions, k);
    }
  }

  ghost predicate BothWays(s: State) {
    exists id :: id in s.refusals && id in s.runs
  }

  lemma RefusalStep(s: State, a: Action)
    requires Inv(s) && Enabled(s, a)
    ensures BothWays(Apply(s, a)) <==> BothWays(s) || LateRefusal(s, a)
  {
    if BothWays(s) { StillBothWays(s, a); }
    if LateRefusal(s, a) {
      assert a.id in Apply(s, a).refusals && a.id in Apply(s, a).runs;
    }
    if BothWays(Apply(s, a)) { NewlyBothWays(s, a); }
  }

  lemma StillBothWays(s: State, a: Action)
    requires BothWays(s)
    ensures BothWays(Apply(s, a))
  {
    var id :| id in s.refusals && id in s.runs;
    assert id in Apply(s, a).refusals && id in Apply(s, a).runs;
  }

  lemma NewlyBothWays(s: State, a: Action)
    requires Inv(s) && Enabled(s, a) && BothWays(Apply(s, a))
    ensures BothWays(s) || LateRefusal(s, a)
  {
    if a.Deciding? {
      var id :| id in Apply(s, a).refusals && id in Apply(s, a).runs;
      DecidedBothWays(s, a, id);
    } else {
      OnlyDecisionsReport(s, a);
    }
  }

  lemma OnlyDecisionsReport(s: State, a: Action)
    requires !a.Deciding?
    ensures Apply(s, a).refusals == s.refusals && Apply(s, a).runs == s.runs
  {
  }

  lemma DecidedBothWays(s: State, a: Action, id: Id)
    requires Inv(s) && a.Deciding?
    requires id in Apply(s, a).refusals && id in Apply(s, a).runs
    ensures BothWays(s) || LateRefusal(s, a)
  {
    if a.allow {
      assert Apply(s, a).refusals == s.refusals;
      assert id in s.runs;
    } else {
      assert Apply(s, a).runs == s.runs;
    }
  }

  /**
    Exactly when the daemon reports an approval both executed and denied: when the manager
    fails to list its pending approvals while a granted one is refused.
  */
  lemma {:induction false} ReportedBothWaysWhen(actions: seq<Action>, n: nat)
    requires Legal(actions) && n <= |actions|
    ensures BothWays(After(actions, n)) <==> RefusedLate(actions, n)
  {
    if n > 0 {
      TableIsSound(actions, n - 1);
      ReportedBothWaysWhen(actions, n - 1);
      assert LegalAt(actions, n - 1);
      RefusalStep(After(actions, n - 1), actions[n - 1]);
      RefusedLateNext(actions, n - 1);
    }
  }

  /** It can happen: approve, then refuse while the tool runs and the list is unavailable. */
  lemma ReportedBothWaysHappens() returns (actions: seq<Action>)
    ensures |actions| == 3 && Legal(actions) && BothWays(After(actions, 3))
  {
    actions := [Registering("a", "s", true), Deciding("a", "s", true, true), Deciding("a", "s", false, false)];
    var s1 := Registered();
    var s2 := Approved(s1);
    RefusedToo(s2);
    assert After(actions, 0) == START && After(actions, 1) == s1 && After(actions, 2) == s2;
    assert LegalAt(actions, 0) && LegalAt(actions, 1) && LegalAt(actions, 2);
  }

  lemma Registered() returns (s: State)
    ensures s == Apply(START, Registering("a", "s", true))
    ensures s.approvals == map["a" := Pending] && s.direct == map["a" := "s"] && s.runs == multiset{}
  {
    s := Apply(START, Registering("a", "s", true));
  }

  lemma Approved(s: State) returns (s': State)
    requires s.approvals == map["a" := Pending] && s.direct == map["a" := "s"]
    ensures s' == Apply(s, Deciding("a", "s", true, true))
    ensures s'.approvals == map["a" := Granted] && s'.direct == map["a" := "s"] && "a" in s'.runs
  {
    s' := Apply(s, Deciding("a", "s", true, true));
    assert Prune(s, true).direct == s.direct;
  }

  lemma RefusedToo(s: State)
    requires s.approvals == map["a" := Granted] && s.direct == map["a" := "s"] && "a" in s.runs
    ensures BothWays(Apply(s, Deciding("a", "s", false, false)))
  {
    var s' := Apply(s, Deciding("a", "s", false, false));
    assert "a" in s'.refusals && "a" in s'.runs;
  }

  // ---- whose decisions count, told from the history ----

  /** The daemon's answer to a registration or a decision. */
  function Answer(s: State, a: Action): Outcome
    requires a.Registering? || a.Deciding?
  {
    if a.Registering? then Register(s, a.id, a.session, a.listed).1
    else Decide(s, a.id, a.session, a.allow, a.listed).1
  }

  /** Action `j` registered the approval `id`, and there was room for it. */
  ghost predicate Registers(actions: seq<Action>, j: nat, id: Id)
    requires j < |actions|
  {
    actions[j].Registering? && actions[j].id == id && Answer(After(actions, j), actions[j]) == Done
  }

  /** A decision on this very approval that names no session, or the one it was registered for. */
  predicate Owns(reg: Action, a: Action)
    requires reg.Registering?
  {
    a.Deciding? && a.id == reg.id && (a.session == "" || a.session == reg.session)
  }

  predicate Settles(reg: Action, a: Action)
    requires reg.Registering?
  {
    Owns(reg, a) || (a.Elsewhere? && a.id == reg.id)
  }

  predicate Lists(a: Action) {
    (a.Registering? || a.Deciding?) && a.listed
  }

  /** Nobody has decided, up to action `n`, on the approval registered by action `j`. */
  ghost predicate Open(actions: seq<Action>, j: nat, n: nat)
    requires j < n <= |actions| && actions[j].Registering?
  {
    forall i: nat :: j < i < n ==> !Settles(actions[j], actions[i])
  }

  /** Its own refusal, its tool coming back, or a reading of the list that finds it settled. */
  ghost predicate TakesOut(actions: seq<Action>, j: nat, i: nat)
    requires j < i < |actions| && actions[j].Registering?
  {
    || (Owns(actions[j], actions[i]) && !actions[i].allow)
    || actions[i] == Finishing(actions[j].id, false)
    || (Lists(actions[i]) && !Open(actions, j, i))
  }

  ghost predicate Held(actions: seq<Action>, j: nat, n: nat)
    requires j < n <= |actions| && actions[j].Registering?
  {
    forall i: nat :: j < i < n ==> !TakesOut(actions, j, i)
  }

  /** Still in the table when action `k` has read the list. */
  ghost predicate HeldAt(actions: seq<Action>, j: nat, k: nat)
    requires j < k < |actions| && actions[j].Registering?
  {
    Held(actions, j, k) && (Lists(actions[k]) ==> Open(actions, j, k))
  }

  ghost predicate Grants(actions: seq<Action>, j: nat, k: nat)
    requires j < k < |actions| && actions[j].Registering?
  {
    Owns(actions[j], actions[k]) && actions[k].allow && Open(actions, j, k)
  }

  ghost predicate Refuses(actions: seq<Action>, j: nat, k: nat)
    requires j < k < |actions| && actions[j].Registering?
  {
    Owns(actions[j], actions[k]) && !actions[k].allow && HeldAt(actions, j, k)
  }

  ghost predicate WasGranted(actions: seq<Action>, j: nat, n: nat)
    requires j < n <= |actions| && actions[j].Registering?
  {
    exists k: nat :: j < k < n && Grants(actions, j, k)
  }

  ghost predicate WasRefused(actions: seq<Action>, j: nat, n: nat)
    requires j < n <= |actions| && actions[j].Registering?
  {
    exists k: nat :: j < k < n && Refuses(actions, j, k)
  }

  // ---- one step of one approval ----

  /** `reg` is known to the manager, and its entry, if there is one, is for its session. */
  ghost predicate Known(s: State, reg: Action)
    requires reg.Registering?
  {
    reg.id in s.approvals && (reg.id in s.direct ==> s.direct[reg.id] == reg.session)
  }

  lemma StaysKnown(s: State, a: Action, reg: Action)
    requires Enabled(s, a) && reg.Registering? && Known(s, reg)
    ensures Known(Apply(s, a), reg)
  {
  }

  lemma StepSettles(s: State, a: Action, reg: Action)
    requires Inv(s) && Enabled(s, a) && reg.Registering? && Known(s, reg)
    ensures reg.id in Apply(s, a).approvals
    ensures Apply(s, a).approvals[reg.id] == Pending <==> s.approvals[reg.id] == Pending && !Settles(reg, a)
  {
    if a.Deciding? {
      DecisionSettles(s, a, reg);
    } else {
    }
  }

  lemma DecisionSettles(s: State, a: Action, reg: Action)
    requires Inv(s) && a.Deciding? && reg.Registering? && Known(s, reg)
    ensures reg.id in Apply(s, a).approvals
    ensures Apply(s, a).approvals[reg.id] == Pending <==> s.approvals[reg.id] == Pending && !Owns(reg, a)
  {
    var p := Prune(s, a.listed);
    assert p.approvals == s.approvals && (s.approvals[reg.id] == Pending ==> reg.id in p.direct);
    if a.id == reg.id {
    } else {
    }
  }

  lemma StepHolds(s: State, a: Action, reg: Action)
    requires Inv(s) && Enabled(s, a) && reg.Registering? && Known(s, reg)
    ensures reg.id in Apply(s, a).direct
        <==> && reg.id in s.direct && !(Owns(reg, a) && !a.allow) && a != Finishing(reg.id, false)
             && !(Lists(a) && s.approvals[reg.id] != Pending)
  {
  }

  lemma StepGrants(s: State, a: Action, reg: Action)
    requires Inv(s) && reg.Registering? && Known(s, reg)
    ensures reg.id in Apply(s, a).runs
        <==> reg.id in s.runs || (Owns(reg, a) && a.allow && s.approvals[reg.id] == Pending)
  {
    if a.Deciding? {
      var p := Prune(s, a.listed);
      assert p.runs == s.runs && (s.approvals[reg.id] == Pending ==> reg.id in p.direct);
    } else {
      OnlyDecisionsReport(s, a);
    }
  }

  lemma StepRefuses(s: State, a: Action, reg: Action)
    requires reg.Registering? && Known(s, reg)
    ensures reg.id in Apply(s, a).refusals
        <==> || reg.id in s.refusals
             || (&& Owns(reg, a) && !a.allow && reg.id in s.direct
                 && (Lists(a) ==> s.approvals[reg.id] == Pending))
  {
    if a.Deciding? {
      var p := Prune(s, a.listed);
      assert p.refusals == s.refusals;
      assert reg.id in p.direct <==> reg.id in s.direct && (a.listed ==> s.approvals[reg.id] == Pending);
    } else {
      OnlyDecisionsReport(s, a);
    }
  }

  lemma JustRegistered(s: State, reg: Action)
    requires Inv(s) && reg.Registering? && Enabled(s, reg) && Answer(s, reg) == Done
    ensures var s' := Apply(s, reg);
            && Known(s', reg) && s'.approvals[reg.id] == Pending && reg.id in s'.direct
            && reg.id !in s'.runs && reg.id !in s'.refusals
  {
  }

  // ---- the life of one approval ----

  ghost predicate Lives(actions: seq<Action>, j: nat, n: nat)
    requires j < n <= |actions| && actions[j].Registering?
  {
    var s, reg := After(actions, n), actions[j];
    && Known(s, reg)
    && (s.approvals[reg.id] == Pending <==> Open(actions, j, n))
    && (reg.id in s.direct <==> Held(actions, j, n))
    && (reg.id in s.runs <==> WasGranted(actions, j, n))
    && (reg.id in s.refusals <==> WasRefused(actions, j, n))
  }

  lemma OpenNext(actions: seq<Action>, j: nat, n: nat)
    requires j < n < |actions| && actions[j].Registering?
    ensures Open(actions, j, n + 1) <==> Open(actions, j, n) && !Settles(actions[j], actions[n])
    ensures Held(actions, j, n + 1) <==> Held(actions, j, n) && !TakesOut(actions, j, n)
  {
  }

  lemma DecidedNext(actions: seq<Action>, j: nat, n: nat)
    requires j < n < |actions| && actions[j].Registering?
    ensures WasGranted(actions, j, n + 1) <==> WasGranted(actions, j, n) || Grants(actions, j, n)
    ensures WasRefused(actions, j, n + 1) <==> WasRefused(actions, j, n) || Refuses(actions, j, n)
  {
    if WasGranted(actions, j, n) {
      var k: nat :| j < k < n && Grants(actions, j, k);
    }
    if WasRefused(actions, j, n) {
      var k: nat :| j < k < n && Refuses(actions, j, k);
    }
  }

  lemma LivesOn(actions: seq<Action>, j: nat, n: nat)
    requires j + 1 < n <= |actions| && actions[j].Registering? && Lives(actions, j, n - 1)
    requires Inv(After(actions, n - 1)) && Enabled(After(actions, n - 1), actions[n - 1])
    ensures Lives(actions, j, n)
  {
    var s, a, reg := After(actions, n - 1), actions[n - 1], actions[j];
    assert After(actions, n) == Apply(s, a);
    StaysKnown(s, a, reg);
    StepSettles(s, a, reg);
    StepHolds(s, a, reg);
    StepGrants(s, a, reg);
    StepRefuses(s, a, reg);
    OpenNext(actions, j, n - 1);
    DecidedNext(actions, j, n - 1);
  }

  lemma NothingYet(actions: seq<Action>, j: nat, n: nat)
    requires j < n <= |actions| && n == j + 1 && actions[j].Registering?
    ensures Open(actions, j, n) && Held(actions, j, n) && !WasGranted(actions, j, n) && !WasRefused(actions, j, n)
  {
  }

  lemma LivesFirst(actions: seq<Action>, j: nat, n: nat)
    requires j < n <= |actions| && n == j + 1 && actions[j].Registering? && Registers(actions, j, actions[j].id)
    requires Inv(After(actions, j)) && Enabled(After(actions, j), actions[j])
    ensures Lives(actions, j, n)
  {
    assert After(actions, n) == Apply(After(actions, j), actions[j]);
    JustRegistered(After(actions, j), actions[j]);
    NothingYet(actions, j, n);
  }

  /** The state after the first `n` actions is sound and tells every approval's life. */
  ghost predicate AllLive(actions: seq<Action>, n: nat)
    requires n <= |actions|
  {
    forall j: nat :: j < n && actions[j].Registering? && Registers(actions, j, actions[j].id) ==> Lives(actions, j, n)
  }

  lemma AllLiveOn(actions: seq<Action>, n: nat)
    requires 0 < n <= |actions| && AllLive(actions, n - 1)
    requires Inv(After(actions, n - 1)) && Enabled(After(actions, n - 1), actions[n - 1])
    ensures AllLive(actions, n)
  {
    forall j: nat | j < n && actions[j].Registering? && Registers(actions, j, actions[j].id)
      ensures Lives(actions, j, n)
    {
      if j == n - 1 { LivesFirst(actions, j, n); } else { LivesOn(actions, j, n); }
    }
  }

  lemma {:induction false} LivesAreTold(actions: seq<Action>, n: nat)
    requires Legal(actions) && n <= |actions|
    ensures AllLive(actions, n)
  {
    if n > 0 {
      LivesAreTold(actions, n - 1);
      TableIsSound(actions, n - 1);
      assert LegalAt(actions, n - 1);
      AllLiveOn(actions, n);
    }
  }

  lemma StepRegisters(s: State, a: Action)
    ensures Apply(s, a).approvals.Keys
         == s.approvals.Keys + if a.Registering? && Answer(s, a) == Done then {a.id} else {}
  {
  }

  /** The manager knows exactly the approvals registered. */
  lemma {:induction false} KnownAreRegistered(actions: seq<Action>, n: nat, id: Id)
    requires n <= |actions|
    ensures id in After(actions, n).approvals <==> exists j: nat :: j < n && Registers(actions, j, id)
  {
    if n > 0 {
      KnownAreRegistered(actions, n - 1, id);
      StepRegisters(After(actions, n - 1), actions[n - 1]);
      assert id in After(actions, n).approvals
          <==> id in After(actions, n - 1).approvals || Registers(actions, n - 1, id);
    }
  }

  /**
    Over every interleaving an approval is executed if and only if an approval by someone who
    names no session, or the one it was registered for, came before anyone else settled it.
  */
  lemma ExecutedExactlyWhen(actions: seq<Action>, n: nat, id: Id)
    requires Legal(actions) && n <= |actions|
    ensures id in After(actions, n).runs
        <==> exists j: nat, k: nat :: j < k < n && Registers(actions, j, id) && Grants(actions, j, k)
  {
    LivesAreTold(actions, n);
    TableIsSound(actions, n);
    KnownAreRegistered(actions, n, id);
    if id in After(actions, n).runs {
      var j: nat :| j < n && Registers(actions, j, id);
      assert WasGranted(actions, j, n);
    }
    forall j: nat, k: nat | j < k < n && Registers(actions, j, id) && Grants(actions, j, k)
      ensures id in After(actions, n).runs
    {
      assert WasGranted(actions, j, n);
    }
  }

  /** It is reported denied if and only if such a refusal came while its entry was in the table. */
  lemma DeniedExactlyWhen(actions: seq<Action>, n: nat, id: Id)
    requires Legal(actions) && n <= |actions|
    ensures id in After(actions, n).refusals
        <==> exists j: nat, k: nat :: j < k < n && Registers(actions, j, id) && Refuses(actions, j, k)
  {
    LivesAreTold(actions, n);
    TableIsSound(actions, n);
    KnownAreRegistered(actions, n, id);
    if id in After(actions, n).refusals {
      var j: nat :| j < n && Registers(actions, j, id);
      assert WasRefused(actions, j, n);
    }
    forall j: nat, k: nat | j < k < n && Registers(actions, j, id) && Refuses(actions, j, k)
      ensures id in After(actions, n).refusals
    {
      assert WasRefused(actions, j, n);
    }
  }

  /** The action `n` is a decision the approval registered by action `j` lets pass. */
  ghost predicate Passes(actions: seq<Action>, j: nat, n: nat)
    requires j < n < |actions| && actions[j].Registering?
  {
    Grants(actions, j, n) || Refuses(actions, j, n)
  }

  lemma DecisionAnswer(s: State, a: Action)
    requires Inv(s) && a.Deciding?
    ensures Answer(s, a) == Done
        <==> && a.id in s.direct && (a.session == "" || a.session == s.direct[a.id])
             && (a.allow || Lists(a) ==> s.approvals[a.id] == Pending)
  {
  }

  /** A decision is answered Done exactly when it grants or refuses an approval. */
  lemma DecisionDoneExactlyWhen(actions: seq<Action>, n: nat)
    requires Legal(actions) && n < |actions| && actions[n].Deciding?
    ensures Answer(After(actions, n), actions[n]) == Done
        <==> exists j: nat :: j < n && Registers(actions, j, actions[n].id) && Passes(actions, j, n)
  {
    LivesAreTold(actions, n);
    TableIsSound(actions, n);
    KnownAreRegistered(actions, n, actions[n].id);
    DecisionAnswer(After(actions, n), actions[n]);
    forall j: nat | j < n && Registers(actions, j, actions[n].id)
      ensures Passes(actions, j, n) <==> Answer(After(actions, n), actions[n]) == Done
    {
      assert Lives(actions, j, n);
    }
  }

  lemma RegistrationAnswer(s: State, a: Action) returns (on: set<Id>)
    requires Inv(s) && a.Registering?
    ensures forall id :: id in on <==> id in s.direct && (Lists(a) ==> s.approvals[id] == Pending)
    ensures Answer(s, a) == Done <==> |on| < CAPACITY
  {
    on := Prune(s, a.listed).direct.Keys;
  }

  /** A registration is answered Done exactly when fewer than 64 approvals are still in the table. */
  lemma RegistrationDoneExactlyWhen(actions: seq<Action>, n: nat) returns (on: set<Id>)
    requires Legal(actions) && n < |actions| && actions[n].Registering?
    ensures forall id :: id in on
                    <==> exists j: nat :: j < n && Registers(actions, j, id) && HeldAt(actions, j, n)
    ensures Answer(After(actions, n), actions[n]) == Done <==> |on| < CAPACITY
  {
    LivesAreTold(actions, n);
    TableIsSound(actions, n);
    on := RegistrationAnswer(After(actions, n), actions[n]);
    forall id ensures id in on <==> exists j: nat :: j < n && Registers(actions, j, id) && HeldAt(actions, j, n) {
      KnownAreRegistered(actions, n, id);
      forall j: nat | j < n && Registers(actions, j, id) ensures HeldAt(actions, j, n) <==> id in on {
        assert Lives(actions, j, n);
      }
    }
  }
}
