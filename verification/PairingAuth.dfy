/**
  One-time pairing for the remote web interface: a rotating pairing code and a bounded table
  of browser sessions. Tokens are fresh and their digests injective, so a session is known
  by its token. Times are ticks of a clock that does not go back.
*/
module PairingAuth {
  import opened Sets
  import opened Whitespace
  import opened Wrappers

  type Token = string
  type Code = string

  datatype Limits = Limits(pairingTtl: nat, sessionTtl: nat, maxSessions: nat)
  {
    ghost predicate Valid() {
      pairingTtl >= 60 && sessionTtl >= 300 && 1 <= maxSessions <= 64
    }
  }

  datatype Session = Session(token: Token, created: int, expires: int, ip: string)

  // ---- the session table, in insertion order ----

  function Pruned(s: seq<Session>, now: int): seq<Session> {
    if s == [] then []
    else
      var front, last := Pruned(s[..|s| - 1], now), s[|s| - 1];
      if last.expires <= now then front else front + [last]
  }

  function Dropped(s: seq<Session>, token: Token): seq<Session> {
    if s == [] then []
    else
      var front, last := Dropped(s[..|s| - 1], token), s[|s| - 1];
      if last.token == token then front else front + [last]
  }

  /** The first session among those created earliest. */
  function Oldest(s: seq<Session>): (i: nat)
    requires s != []
    ensures i < |s|
    ensures forall j :: 0 <= j < |s| ==> s[i].created <= s[j].created
    ensures forall j :: 0 <= j < i ==> s[i].created < s[j].created
  {
    if |s| == 1 then 0
    else
      var i := Oldest(s[..|s| - 1]);
      if s[|s| - 1].created < s[i].created then |s| - 1 else i
  }

  function Admitted(lim: Limits, s: seq<Session>, session: Session): seq<Session> {
    if s != [] && |s| >= lim.maxSessions then Dropped(s, s[Oldest(s)].token) + [session] else s + [session]
  }

  function Find(s: seq<Session>, token: Token): Option<Session> {
    if s == [] then None
    else if s[|s| - 1].token == token then Some(s[|s| - 1])
    else Find(s[..|s| - 1], token)
  }

  function Answer(s: seq<Session>, token: Token, ip: Option<string>): Option<Session> {
    var found := Find(s, token);
    if token != "" && found.Some? && (ip.None? || found.value.ip in {"", ip.value}) then found else None
  }

  // ---- histories ----

  /** A successful pairing, a logout, or any other call that prunes the table. */
  datatype Event = Join(token: Token, at: int, ip: string) | Quit(token: Token) | Sweep(at: int)

  function SessionOf(lim: Limits, e: Event): Session
    requires e.Join?
  {
    Session(e.token, e.at, e.at + lim.sessionTtl, e.ip)
  }

  function Next(lim: Limits, s: seq<Session>, e: Event): seq<Session> {
    match e
    case Join(_, at, _) => Admitted(lim, Pruned(s, at), SessionOf(lim, e))
    case Quit(token) => Dropped(s, token)
    case Sweep(at) => Pruned(s, at)
  }

  function TableAfter(lim: Limits, h: seq<Event>): seq<Session> {
    if h == [] then [] else Next(lim, TableAfter(lim, h[..|h| - 1]), h[|h| - 1])
  }

  lemma TableAfterOne(lim: Limits, h: seq<Event>, e: Event)
    ensures TableAfter(lim, h + [e]) == Next(lim, TableAfter(lim, h), e)
  {
    assert (h + [e])[..|h|] == h;
  }

  // ---- the one-time code ----

  /** An attempt to pair with a code stripped of white space, or a rotation; `next` is the code drawn if one is. */
  datatype Use = Attempt(given: Code, at: int, next: Code) | Renewal(at: int, next: Code)

  datatype Held = Held(code: Code, expires: int)

  predicate Accepted(held: Held, u: Use) {
    u.Attempt? && u.at <= held.expires && u.given == held.code
  }

  // ---- the authenticator, updated in place ----

  class Auth {
    const limits: Limits
    var sessions: seq<Session>
    var code: Code
    var codeExpires: int
    ghost var history: seq<Event>

    ghost predicate Valid()
      reads this
    {
      sessions == TableAfter(limits, history)
    }

    constructor (lim: Limits, firstCode: Code, now: int)
      ensures Valid() && history == [] && limits == lim
      ensures code == firstCode && codeExpires == now + lim.pairingTtl
    {
      limits, history := lim, [];
      sessions, code, codeExpires := [], firstCode, now + lim.pairingTtl;
    }

    method Rotate(newCode: Code, now: int)
      modifies this`code, this`codeExpires
      ensures Held(code, codeExpires) == Held(newCode, now + limits.pairingTtl)
    {
      code := newCode;
      codeExpires := now + limits.pairingTtl;
    }

    method Prune(now: int)
      modifies this`sessions
      ensures sessions == Pruned(old(sessions), now)
    {
      var kept: seq<Session> := [];
      for i := 0 to |sessions|
        invariant sessions == old(sessions) && kept == Pruned(sessions[..i], now)
      {
        assert sessions[..i + 1][..i] == sessions[..i];
        if sessions[i].expires > now { kept := kept + [sessions[i]]; }
      }
      assert sessions[..|sessions|] == sessions;
      sessions := kept;
    }

    method Admit(session: Session)
      modifies this`sessions
      ensures sessions == Admitted(limits, old(sessions), session)
    {
      if sessions != [] && |sessions| >= limits.maxSessions {
        sessions := Dropped(sessions, sessions[Oldest(sessions)].token);
      }
      sessions := sessions + [session];
    }

    /** `token` and `newCode` are the fresh random values a successful pairing draws. */
    method Pair(supplied: Code, ip: string, now: int, token: Token, newCode: Code) returns (paired: bool)
      requires Valid()
      modifies this
      ensures Valid() && history == old(history) + [if paired then Join(token, now, ip) else Sweep(now)]
      ensures paired == Accepted(old(Held(code, codeExpires)), Attempt(Strip(Python, supplied), now, newCode))
      ensures Held(code, codeExpires)
           == if paired then Held(newCode, now + limits.pairingTtl) else old(Held(code, codeExpires))
    {
      paired := Offer(Strip(Python, supplied), ip, now, token, newCode);
      ghost var event := if paired then Join(token, now, ip) else Sweep(now);
      TableAfterOne(limits, history, event);
      history := history + [event];
    }

    /** The rest of a pairing, once the code is stripped. */
    method Offer(given: Code, ip: string, now: int, token: Token, newCode: Code) returns (paired: bool)
      modifies this`sessions, this`code, this`codeExpires
      ensures paired <==> now <= old(codeExpires) && given == old(code)
      ensures !paired ==> sessions == Pruned(old(sessions), now)
      ensures !paired ==> code == old(code) && codeExpires == old(codeExpires)
      ensures paired ==>
                sessions == Admitted(limits, Pruned(old(sessions), now), SessionOf(limits, Join(token, now, ip)))
      ensures paired ==> code == newCode && codeExpires == now + limits.pairingTtl
    {
      Prune(now);
      if now > codeExpires || given != code { return false; }
      Admit(Session(token, now, now + limits.sessionTtl, ip));
      Rotate(newCode, now);
      return true;
    }

    method Authenticate(token: Token, ip: Option<string>, now: int) returns (session: Option<Session>)
      requires Valid()
      modifies this`sessions, this`history
      ensures Valid() && history == old(history) + if token == "" then [] else [Sweep(now)]
      ensures session == Answer(Pruned(old(sessions), now), token, ip)
    {
      if token == "" { return None; }
      Prune(now);
      history := history + [Sweep(now)];
      session := Find(sessions, token);
      if session.None? { return; }
      if ip.Some? && session.value.ip != "" {
        if session.value.ip != ip.value { return None; }
      }
    }

    method Logout(token: Token) returns (removed: bool)
      requires Valid()
      modifies this`sessions, this`history
      ensures Valid() && history == old(history) + if token == "" then [] else [Quit(token)]
      ensures removed == (token != "" && Find(old(sessions), token).Some?)
    {
      if token == "" { return false; }
      removed := Find(sessions, token).Some?;
      sessions := Dropped(sessions, token);
      history := history + [Quit(token)];
    }
  }

  ghost predicate NotBefore(h: seq<Event>, t: int) {
    forall i :: 0 <= i < |h| && !h[i].Quit? ==> h[i].at <= t
  }

  /** Times do not go back and every pairing draws a new token. */
  ghost predicate Proper(h: seq<Event>) {
    && (forall i, j :: 0 <= i < j < |h| && !h[i].Quit? && !h[j].Quit? ==> h[i].at <= h[j].at)
    && (forall i, j :: 0 <= i < j < |h| && h[i].Join? && h[j].Join? ==> h[i].token != h[j].token)
  }

  // ---- who should be signed in, without looking at the table ----

  /** Pairing `j` is neither expired at `t` nor logged out among the first `k` events. */
  ghost predicate Standing(lim: Limits, h: seq<Event>, j: nat, k: nat, t: int)
    requires j < k <= |h|
  {
    h[j].Join? && t < h[j].at + lim.sessionTtl && forall q :: j < q < k ==> h[q] != Quit(h[j].token)
  }

  ghost function StandingFrom(lim: Limits, h: seq<Event>, i: nat, k: nat, t: int): set<nat>
    requires k <= |h|
  {
    set j | i <= j < k && Standing(lim, h, j, k, t)
  }

  /** The pairing at `k` finds the table filled by pairings `i` and later, so `i` is the oldest. */
  ghost predicate PushesOut(lim: Limits, h: seq<Event>, i: nat, k: nat)
    requires i < k < |h|
  {
    h[k].Join? && |StandingFrom(lim, h, i, k, h[k].at)| >= lim.maxSessions
  }

  ghost predicate SignedIn(lim: Limits, h: seq<Event>, i: nat, t: int)
    requires i < |h|
  {
    Standing(lim, h, i, |h|, t) && forall k :: i < k < |h| ==> !PushesOut(lim, h, i, k)
  }

  /** The pairings signed in at `t`, oldest first, among the first `n` events. */
  ghost function Ranks(lim: Limits, h: seq<Event>, t: int, n: nat): seq<nat>
    requires n <= |h|
  {
    if n == 0 then []
    else Ranks(lim, h, t, n - 1) + if SignedIn(lim, h, n - 1, t) then [n - 1] else []
  }

  function SessionsAt(lim: Limits, h: seq<Event>, ranks: seq<nat>): seq<Session>
    requires forall r :: 0 <= r < |ranks| ==> ranks[r] < |h| && h[ranks[r]].Join?
  {
    seq(|ranks|, r requires 0 <= r < |ranks| => SessionOf(lim, h[ranks[r]]))
  }

  // ---- index sequences ----

  ghost predicate Rising(s: seq<nat>) {
    forall q, r :: 0 <= q < r < |s| ==> s[q] < s[r]
  }

  lemma {:induction false} RanksFacts(lim: Limits, h: seq<Event>, t: int, n: nat)
    requires n <= |h|
    ensures Rising(Ranks(lim, h, t, n))
    ensures forall i: nat :: i in Ranks(lim, h, t, n) <==> i < n && SignedIn(lim, h, i, t)
  {
    if n > 0 {
      RanksFacts(lim, h, t, n - 1);
      var front := Ranks(lim, h, t, n - 1);
      forall q | 0 <= q < |front| ensures front[q] < n - 1 {
        assert front[q] in front;
      }
    }
  }

  ghost function Chosen(s: seq<nat>, p: nat -> bool): seq<nat> {
    if s == [] then []
    else Chosen(s[..|s| - 1], p) + if p(s[|s| - 1]) then [s[|s| - 1]] else []
  }

  lemma {:induction false} ChosenFacts(s: seq<nat>, p: nat -> bool)
    requires Rising(s)
    ensures Rising(Chosen(s, p))
    ensures forall x :: x in Chosen(s, p) <==> x in s && p(x)
  {
    if s != [] {
      var front := s[..|s| - 1];
      ChosenFacts(front, p);
      assert s == front + [s[|s| - 1]];
      forall q | 0 <= q < |Chosen(front, p)| ensures Chosen(front, p)[q] < s[|s| - 1] {
        assert Chosen(front, p)[q] in front;
      }
    }
  }

  ghost function Members(s: seq<nat>): set<nat> {
    set x | x in s
  }

  lemma FrontMembers(s: seq<nat>)
    requires Rising(s) && s != []
    ensures Rising(s[..|s| - 1]) && s[|s| - 1] !in s[..|s| - 1]
    ensures Members(s) == Members(s[..|s| - 1]) + {s[|s| - 1]}
  {
    assert s == s[..|s| - 1] + [s[|s| - 1]];
  }

  lemma {:induction false} RisingSize(s: seq<nat>)
    requires Rising(s)
    ensures |Members(s)| == |s|
  {
    if s != [] {
      FrontMembers(s);
      RisingSize(s[..|s| - 1]);
    }
  }

  lemma LastIsGreatest(s: seq<nat>, x: nat)
    requires Rising(s) && x in s
    ensures x <= s[|s| - 1]
  {
  }

  lemma SameLast(a: seq<nat>, b: seq<nat>)
    requires Rising(a) && Rising(b) && a != [] && b != [] && Members(a) == Members(b)
    ensures a[|a| - 1] == b[|b| - 1]
  {
    assert a[|a| - 1] in Members(a) && b[|b| - 1] in Members(b);
    LastIsGreatest(a, b[|b| - 1]);
    LastIsGreatest(b, a[|a| - 1]);
  }

  lemma SameFront(a: seq<nat>, b: seq<nat>)
    requires Rising(a) && Rising(b) && a != [] && b != [] && Members(a) == Members(b)
    ensures Members(a[..|a| - 1]) == Members(b[..|b| - 1])
  {
    SameLast(a, b);
    FrontMembers(a);
    FrontMembers(b);
    var fa, fb, x := Members(a[..|a| - 1]), Members(b[..|b| - 1]), a[|a| - 1];
    assert x !in fa && x !in fb;
    assert fa == Members(a) - {x} == fb;
  }

  lemma {:induction false} RisingIsUnique(a: seq<nat>, b: seq<nat>)
    requires Rising(a) && Rising(b) && Members(a) == Members(b)
    ensures a == b
  {
    RisingSize(a);
    RisingSize(b);
    if a != [] {
      SameLast(a, b);
      SameFront(a, b);
      RisingIsUnique(a[..|a| - 1], b[..|b| - 1]);
      assert a == a[..|a| - 1] + [a[|a| - 1]] && b == b[..|b| - 1] + [b[|b| - 1]];
    }
  }

  // ---- the table operations on index sequences ----

  ghost predicate Joins(h: seq<Event>, s: seq<nat>) {
    forall r :: 0 <= r < |s| ==> s[r] < |h| && h[s[r]].Join?
  }

  ghost function Fresh(lim: Limits, h: seq<Event>, t: int): nat -> bool {
    (i: nat) => i < |h| && h[i].Join? && t < h[i].at + lim.sessionTtl
  }

  ghost function NotToken(h: seq<Event>, token: Token): nat -> bool {
    (i: nat) => i < |h| && h[i].Join? && h[i].token != token
  }

  lemma {:induction false} PrunedSessions(lim: Limits, h: seq<Event>, s: seq<nat>, t: int)
    requires Joins(h, s)
    ensures Joins(h, Chosen(s, Fresh(lim, h, t)))
    ensures Pruned(SessionsAt(lim, h, s), t) == SessionsAt(lim, h, Chosen(s, Fresh(lim, h, t)))
  {
    if s != [] {
      var front := s[..|s| - 1];
      PrunedSessions(lim, h, front, t);
      assert SessionsAt(lim, h, s)[..|s| - 1] == SessionsAt(lim, h, front);
    }
  }

  lemma {:induction false} DroppedSessions(lim: Limits, h: seq<Event>, s: seq<nat>, token: Token)
    requires Joins(h, s)
    ensures Joins(h, Chosen(s, NotToken(h, token)))
    ensures Dropped(SessionsAt(lim, h, s), token) == SessionsAt(lim, h, Chosen(s, NotToken(h, token)))
  {
    if s != [] {
      var front := s[..|s| - 1];
      DroppedSessions(lim, h, front, token);
      assert SessionsAt(lim, h, s)[..|s| - 1] == SessionsAt(lim, h, front);
    }
  }

  // ---- one more event ----

  ghost predicate LogsOut(e: Event, pairing: Event) {
    e.Quit? && pairing.Join? && e.token == pairing.token
  }

  lemma SignedInStep(lim: Limits, h: seq<Event>, e: Event, i: nat, t: int)
    requires i < |h|
    ensures SignedIn(lim, h + [e], i, t)
        <==> SignedIn(lim, h, i, t) && !LogsOut(e, h[i]) && !PushesOut(lim, h + [e], i, |h|)
  {
    var h' := h + [e];
    assert h'[i] == h[i] && h'[|h|] == e;
    StandingStep(lim, h, e, i, t);
    forall k | i < k < |h| ensures PushesOut(lim, h', i, k) <==> PushesOut(lim, h, i, k) {
      assert h'[k] == h[k];
      if h[k].Join? { StandingPrefix(lim, h, e, i, k, h[k].at); }
    }
  }

  lemma StandingStep(lim: Limits, h: seq<Event>, e: Event, i: nat, t: int)
    requires i < |h|
    ensures Standing(lim, h + [e], i, |h| + 1, t) <==> Standing(lim, h, i, |h|, t) && !LogsOut(e, h[i])
  {
    var h' := h + [e];
    assert h'[i] == h[i] && h'[|h|] == e;
    assert forall q :: i < q < |h| ==> h'[q] == h[q];
    if Standing(lim, h, i, |h|, t) && !LogsOut(e, h[i]) {
      forall q | i < q < |h| + 1 ensures h'[q] != Quit(h'[i].token) {
        if q < |h| { assert h'[q] == h[q]; }
      }
    }
    if Standing(lim, h', i, |h| + 1, t) {
      forall q | i < q < |h| ensures h[q] != Quit(h[i].token) {
        assert h'[q] != Quit(h'[i].token);
      }
    }
  }

  lemma StandingPrefix(lim: Limits, h: seq<Event>, e: Event, i: nat, k: nat, t: int)
    requires k <= |h|
    ensures StandingFrom(lim, h + [e], i, k, t) == StandingFrom(lim, h, i, k, t)
  {
    var h' := h + [e];
    forall j | i <= j < k ensures Standing(lim, h', j, k, t) <==> Standing(lim, h, j, k, t) {
      assert h'[j] == h[j];
      assert forall q :: j < q < k ==> h'[q] == h[q];
    }
  }

  /** Whoever was paired after someone still signed in, and stands, is signed in too. */
  lemma LaterStays(lim: Limits, h: seq<Event>, i: nat, j: nat, t: int)
    requires i <= j < |h| && SignedIn(lim, h, i, t) && Standing(lim, h, j, |h|, t)
    ensures SignedIn(lim, h, j, t)
  {
    forall k | j < k < |h| ensures !PushesOut(lim, h, j, k) {
      if h[k].Join? {
        var mine, theirs := StandingFrom(lim, h, j, k, h[k].at), StandingFrom(lim, h, i, k, h[k].at);
        assert mine <= theirs;
        SubsetSize(mine, theirs);
        assert !PushesOut(lim, h, i, k);
      }
    }
  }

  // ---- the table is the set of those signed in ----

  ghost function AllRanks(lim: Limits, h: seq<Event>, t: int): seq<nat> {
    Ranks(lim, h, t, |h|)
  }

  /** A rising list of exactly those signed in is the list of ranks. */
  lemma RanksAre(lim: Limits, h: seq<Event>, t: int, s: seq<nat>)
    requires Rising(s)
    requires forall i: nat :: i in s <==> i < |h| && SignedIn(lim, h, i, t)
    ensures s == AllRanks(lim, h, t)
  {
    var ranks := AllRanks(lim, h, t);
    RanksFacts(lim, h, t, |h|);
    forall i: nat ensures i in Members(s) <==> i in Members(ranks) {
      assert i in s <==> i in ranks;
    }
    assert Members(s) == Members(ranks);
    RisingIsUnique(s, AllRanks(lim, h, t));
  }

  ghost predicate Mirrors(lim: Limits, h: seq<Event>, t: int) {
    var ranks := AllRanks(lim, h, t);
    Joins(h, ranks) && Pruned(TableAfter(lim, h), t) == SessionsAt(lim, h, ranks)
  }

  /** Pruning later drops exactly the pairings that have expired meanwhile. */
  lemma PruneLater(lim: Limits, h: seq<Event>, t: int, u: int)
    requires t <= u && Mirrors(lim, h, t)
    ensures Mirrors(lim, h, u)
    ensures AllRanks(lim, h, u) == Chosen(AllRanks(lim, h, t), Fresh(lim, h, u))
  {
    var ranks := AllRanks(lim, h, t);
    RanksFacts(lim, h, t, |h|);
    ChosenFacts(ranks, Fresh(lim, h, u));
    RanksAre(lim, h, u, Chosen(ranks, Fresh(lim, h, u)));
    PrunedSessions(lim, h, ranks, u);
    PrunedTwice(TableAfter(lim, h), t, u);
  }

  lemma {:induction false} PrunedTwice(s: seq<Session>, t: int, u: int)
    requires t <= u
    ensures Pruned(Pruned(s, t), u) == Pruned(s, u)
  {
    if s != [] { PrunedTwice(s[..|s| - 1], t, u); }
  }

  lemma {:induction false} PrunedDropped(s: seq<Session>, token: Token, t: int)
    ensures Pruned(Dropped(s, token), t) == Dropped(Pruned(s, t), token)
  {
    if s != [] { PrunedDropped(s[..|s| - 1], token, t); }
  }

  lemma SweepMirrors(lim: Limits, h: seq<Event>, at: int, t: int)
    requires at <= t && Mirrors(lim, h, t)
    ensures Mirrors(lim, h + [Sweep(at)], t)
  {
    var h' := h + [Sweep(at)];
    var ranks := AllRanks(lim, h, t);
    RanksFacts(lim, h, t, |h|);
    forall i: nat ensures i in ranks <==> i < |h'| && SignedIn(lim, h', i, t) {
      if i < |h| { SignedInStep(lim, h, Sweep(at), i, t); }
    }
    RanksAre(lim, h', t, ranks);
    PrunedTwice(TableAfter(lim, h), at, t);
    assert h'[..|h|] == h;
  }

  lemma QuitMirrors(lim: Limits, h: seq<Event>, token: Token, t: int)
    requires Mirrors(lim, h, t)
    ensures Mirrors(lim, h + [Quit(token)], t)
  {
    var h' := h + [Quit(token)];
    var ranks := AllRanks(lim, h, t);
    var left := Chosen(ranks, NotToken(h, token));
    RanksFacts(lim, h, t, |h|);
    ChosenFacts(ranks, NotToken(h, token));
    forall i: nat ensures i in left <==> i < |h'| && SignedIn(lim, h', i, t) {
      if i < |h| { SignedInStep(lim, h, Quit(token), i, t); }
    }
    RanksAre(lim, h', t, left);
    DroppedSessions(lim, h, ranks, token);
    PrunedDropped(TableAfter(lim, h), token, t);
    assert h'[..|h|] == h;
  }

  // ---- one more pairing ----

  /** Among those signed in, the later ones are exactly the later pairings that stand. */
  lemma StandingTail(lim: Limits, h: seq<Event>, r: nat, t: int)
    requires r < |AllRanks(lim, h, t)|
    ensures |StandingFrom(lim, h, AllRanks(lim, h, t)[r], |h|, t)| == |AllRanks(lim, h, t)| - r
  {
    var ranks := AllRanks(lim, h, t);
    RanksFacts(lim, h, t, |h|);
    var i, tail := ranks[r], ranks[r..];
    assert i in ranks;
    forall j: nat ensures j in StandingFrom(lim, h, i, |h|, t) <==> j in Members(tail) {
      if j in StandingFrom(lim, h, i, |h|, t) {
        LaterStays(lim, h, i, j, t);
      }
      if j in tail { assert j in ranks; }
    }
    assert StandingFrom(lim, h, i, |h|, t) == Members(tail);
    RisingSize(tail);
  }

  /** A further pairing pushes out the oldest of a full table and no one else. */
  ghost function RanksAfterJoin(ranks: seq<nat>, maxSessions: nat, newest: nat): seq<nat> {
    (if ranks != [] && |ranks| >= maxSessions then ranks[1..] else ranks) + [newest]
  }

  lemma SignedInAfterJoin(lim: Limits, h: seq<Event>, e: Event, i: nat)
    requires lim.Valid() && e.Join? && i < |h| && |AllRanks(lim, h, e.at)| <= lim.maxSessions
    ensures SignedIn(lim, h + [e], i, e.at) <==> i in RanksAfterJoin(AllRanks(lim, h, e.at), lim.maxSessions, |h|)
  {
    var ranks := AllRanks(lim, h, e.at);
    RanksFacts(lim, h, e.at, |h|);
    SignedInStep(lim, h, e, i, e.at);
    if SignedIn(lim, h, i, e.at) {
      var r :| 0 <= r < |ranks| && ranks[r] == i;
      StandingTail(lim, h, r, e.at);
      StandingPrefix(lim, h, e, i, |h|, e.at);
      assert PushesOut(lim, h + [e], i, |h|) <==> |ranks| - r >= lim.maxSessions;
      if r > 0 { assert i in ranks[1..] by { assert ranks[1..][r - 1] == i; } }
    }
  }

  lemma JoinRanks(lim: Limits, h: seq<Event>, e: Event)
    requires lim.Valid() && e.Join? && |AllRanks(lim, h, e.at)| <= lim.maxSessions
    ensures AllRanks(lim, h + [e], e.at) == RanksAfterJoin(AllRanks(lim, h, e.at), lim.maxSessions, |h|)
  {
    var h', ranks := h + [e], AllRanks(lim, h, e.at);
    var next := RanksAfterJoin(ranks, lim.maxSessions, |h|);
    RanksFacts(lim, h, e.at, |h|);
    assert forall r :: 0 <= r < |ranks| ==> ranks[r] in ranks;
    forall i: nat ensures i in next <==> i < |h'| && SignedIn(lim, h', i, e.at) {
      if i < |h| { SignedInAfterJoin(lim, h, e, i); }
    }
    RanksAre(lim, h', e.at, next);
  }

  /** Dropping the oldest session by its token takes off the front of the table. */
  lemma OldestIsFirst(lim: Limits, h: seq<Event>, s: seq<nat>)
    requires Proper(h) && Joins(h, s) && Rising(s) && s != []
    ensures var p := SessionsAt(lim, h, s);
            Oldest(p) == 0 && Dropped(p, p[0].token) == SessionsAt(lim, h, s[1..])
  {
    var p := SessionsAt(lim, h, s);
    assert forall r :: 0 < r < |s| ==> s[0] < s[r];
    assert p[0].created <= p[Oldest(p)].created;
    DroppedSessions(lim, h, s, p[0].token);
    OthersAreTheTail(h, s);
  }

  lemma OthersAreTheTail(h: seq<Event>, s: seq<nat>)
    requires Proper(h) && Joins(h, s) && Rising(s) && s != []
    ensures Chosen(s, NotToken(h, h[s[0]].token)) == s[1..]
  {
    var left := Chosen(s, NotToken(h, h[s[0]].token));
    ChosenFacts(s, NotToken(h, h[s[0]].token));
    forall x: nat ensures x in Members(left) <==> x in Members(s[1..]) {
      if x in s && x != s[0] {
        var r :| 0 <= r < |s| && s[r] == x;
        assert s[1..][r - 1] == x && h[x].token != h[s[0]].token;
      }
    }
    assert Members(left) == Members(s[1..]);
    RisingIsUnique(left, s[1..]);
  }

  lemma {:induction false} NothingToPrune(s: seq<Session>, t: int)
    requires forall i :: 0 <= i < |s| ==> s[i].expires > t
    ensures Pruned(s, t) == s
  {
    if s != [] {
      NothingToPrune(s[..|s| - 1], t);
      assert s == s[..|s| - 1] + [s[|s| - 1]];
    }
  }

  lemma SignedInIsUnexpired(lim: Limits, h: seq<Event>, t: int)
    ensures Joins(h, AllRanks(lim, h, t))
    ensures var table := SessionsAt(lim, h, AllRanks(lim, h, t)); Pruned(table, t) == table
  {
    var ranks := AllRanks(lim, h, t);
    RanksFacts(lim, h, t, |h|);
    forall r | 0 <= r < |ranks| ensures ranks[r] < |h| && SignedIn(lim, h, ranks[r], t) {
      assert ranks[r] in ranks;
    }
    NothingToPrune(SessionsAt(lim, h, ranks), t);
  }

  lemma AdmittedSessions(lim: Limits, h: seq<Event>, e: Event, ranks: seq<nat>)
    requires Proper(h) && e.Join? && Joins(h, ranks) && Rising(ranks)
    requires forall r :: 0 <= r < |ranks| ==> ranks[r] < |h|
    ensures var next := RanksAfterJoin(ranks, lim.maxSessions, |h|);
            && Joins(h + [e], next)
            && Admitted(lim, SessionsAt(lim, h, ranks), SessionOf(lim, e)) == SessionsAt(lim, h + [e], next)
  {
    if ranks != [] { OldestIsFirst(lim, h, ranks); }
  }

  lemma RanksAreRising(lim: Limits, h: seq<Event>, t: int)
    ensures Rising(AllRanks(lim, h, t))
    ensures forall r :: 0 <= r < |AllRanks(lim, h, t)| ==> AllRanks(lim, h, t)[r] < |h|
  {
    RanksFacts(lim, h, t, |h|);
    forall r | 0 <= r < |AllRanks(lim, h, t)| ensures AllRanks(lim, h, t)[r] < |h| {
      assert AllRanks(lim, h, t)[r] in AllRanks(lim, h, t);
    }
  }

  lemma JoinMirrors(lim: Limits, h: seq<Event>, e: Event)
    requires lim.Valid() && Proper(h) && e.Join? && Mirrors(lim, h, e.at)
    requires |AllRanks(lim, h, e.at)| <= lim.maxSessions
    ensures Mirrors(lim, h + [e], e.at)
  {
    TableAfterOne(lim, h, e);
    RanksAreRising(lim, h, e.at);
    AdmittedSessions(lim, h, e, AllRanks(lim, h, e.at));
    JoinRanks(lim, h, e);
    SignedInIsUnexpired(lim, h + [e], e.at);
  }

  // ---- the main results ----

  lemma {:induction false} PrunedSize(s: seq<Session>, t: int)
    ensures |Pruned(s, t)| <= |s|
  {
    if s != [] { PrunedSize(s[..|s| - 1], t); }
  }

  lemma {:induction false} DroppedSize(s: seq<Session>, token: Token)
    ensures |Dropped(s, token)| <= |s|
    ensures Find(s, token).Some? ==> |Dropped(s, token)| < |s|
  {
    if s != [] { DroppedSize(s[..|s| - 1], token); }
  }

  lemma {:induction false} FindPresent(s: seq<Session>, i: nat)
    requires i < |s|
    ensures Find(s, s[i].token).Some?
  {
    if i < |s| - 1 { FindPresent(s[..|s| - 1], i); }
  }

  /** The table never holds more than `max_sessions` sessions, whatever the history. */
  lemma {:induction false} TableIsBounded(lim: Limits, h: seq<Event>)
    requires lim.Valid()
    ensures |TableAfter(lim, h)| <= lim.maxSessions
  {
    if h != [] {
      var before := TableAfter(lim, h[..|h| - 1]);
      TableIsBounded(lim, h[..|h| - 1]);
      match h[|h| - 1]
      case Join(token, at, ip) =>
        var p := Pruned(before, at);
        PrunedSize(before, at);
        if p != [] {
          FindPresent(p, Oldest(p));
          DroppedSize(p, p[Oldest(p)].token);
        }
      case Quit(token) => DroppedSize(before, token);
      case Sweep(at) => PrunedSize(before, at);
    }
  }

  /** At any moment the unexpired table lists, in order, exactly the pairings that are signed in. */
  lemma {:induction false} TableMirrors(lim: Limits, h: seq<Event>, t: int)
    requires lim.Valid() && Proper(h) && NotBefore(h, t)
    ensures Mirrors(lim, h, t)
  {
    if h != [] {
      var front, e := h[..|h| - 1], h[|h| - 1];
      assert h == front + [e];
      match e
      case Join(_, at, _) =>
        TableMirrors(lim, front, at);
        TableIsBounded(lim, front);
        PrunedSize(TableAfter(lim, front), at);
        JoinMirrors(lim, front, e);
        PruneLater(lim, h, at, t);
      case Quit(token) =>
        TableMirrors(lim, front, t);
        QuitMirrors(lim, front, token, t);
      case Sweep(at) =>
        TableMirrors(lim, front, t);
        SweepMirrors(lim, front, at, t);
    }
  }

  lemma {:induction false} FindFacts(s: seq<Session>, token: Token)
    ensures Find(s, token).Some? <==> exists i :: 0 <= i < |s| && s[i].token == token
    ensures Find(s, token).Some? ==> Find(s, token).value in s && Find(s, token).value.token == token
  {
    if s != [] {
      var front := s[..|s| - 1];
      FindFacts(front, token);
      if exists i :: 0 <= i < |s| && s[i].token == token {
        var i :| 0 <= i < |s| && s[i].token == token;
        if i < |front| { assert front[i].token == token; }
      }
    }
  }

  /** A session found in the table is that of a pairing still signed in. */
  lemma FoundIsSignedIn(lim: Limits, h: seq<Event>, token: Token, t: int) returns (i: nat)
    requires Mirrors(lim, h, t) && Find(Pruned(TableAfter(lim, h), t), token).Some?
    ensures i < |h| && SignedIn(lim, h, i, t) && h[i].token == token
    ensures Find(Pruned(TableAfter(lim, h), t), token).value.ip == h[i].ip
  {
    var ranks := AllRanks(lim, h, t);
    var table := SessionsAt(lim, h, ranks);
    RanksFacts(lim, h, t, |h|);
    FindFacts(table, token);
    var r :| 0 <= r < |table| && table[r] == Find(table, token).value;
    i := ranks[r];
    assert i in ranks;
  }

  lemma SignedInIsFound(lim: Limits, h: seq<Event>, t: int, i: nat)
    requires Mirrors(lim, h, t) && i < |h| && SignedIn(lim, h, i, t)
    ensures Find(Pruned(TableAfter(lim, h), t), h[i].token).Some?
  {
    var ranks := AllRanks(lim, h, t);
    var table := SessionsAt(lim, h, ranks);
    RanksFacts(lim, h, t, |h|);
    FindFacts(table, h[i].token);
    assert i in ranks;
    var r :| 0 <= r < |ranks| && ranks[r] == i;
    assert table[r].token == h[i].token;
  }

  /**
    A token authenticates exactly when some pairing drew it that is still within its lifetime,
    was not logged out, was not pushed out by later pairings, and has this client address.
   */
  lemma AuthenticatesExactlyWhen(lim: Limits, h: seq<Event>, token: Token, ip: Option<string>, t: int)
    requires lim.Valid() && Proper(h) && NotBefore(h, t)
    ensures Answer(Pruned(TableAfter(lim, h), t), token, ip).Some?
        <==> token != "" && exists i: nat :: i < |h| && SignedIn(lim, h, i, t) && h[i].token == token
                                             && (ip.None? || h[i].ip in {"", ip.value})
  {
    TableMirrors(lim, h, t);
    if Find(Pruned(TableAfter(lim, h), t), token).Some? {
      var i := FoundIsSignedIn(lim, h, token, t);
      forall j: nat | j < |h| && SignedIn(lim, h, j, t) && h[j].token == token ensures j == i {
      }
    } else {
      forall j: nat | j < |h| && SignedIn(lim, h, j, t) ensures h[j].token != token { SignedInIsFound(lim, h, t, j); }
    }
  }

  // ---- no code pairs twice ----

  function HeldAfter(lim: Limits, first: Held, uses: seq<Use>): Held {
    if uses == [] then first
    else
      var held, u := HeldAfter(lim, first, uses[..|uses| - 1]), uses[|uses| - 1];
      if u.Renewal? || Accepted(held, u) then Held(u.next, u.at + lim.pairingTtl) else held
  }

  ghost predicate FreshCodes(first: Held, uses: seq<Use>) {
    && (forall i :: 0 <= i < |uses| ==> uses[i].next != first.code)
    && (forall i, j :: 0 <= i < j < |uses| ==> uses[i].next != uses[j].next)
  }

  ghost predicate PairedAt(lim: Limits, first: Held, uses: seq<Use>, i: nat)
    requires i < |uses|
  {
    Accepted(HeldAfter(lim, first, uses[..i]), uses[i])
  }

  lemma {:induction false} HeldIsDrawnEarlier(lim: Limits, first: Held, uses: seq<Use>, k: nat)
    requires k <= |uses|
    ensures var code := HeldAfter(lim, first, uses[..k]).code;
            code == first.code || exists q :: 0 <= q < k && code == uses[q].next
  {
    if k > 0 {
      assert uses[..k][..k - 1] == uses[..k - 1];
      HeldIsDrawnEarlier(lim, first, uses, k - 1);
    }
  }

  lemma {:induction false} HeldIsDrawnSince(lim: Limits, first: Held, uses: seq<Use>, i: nat, k: nat)
    requires i < k <= |uses| && PairedAt(lim, first, uses, i)
    ensures var code := HeldAfter(lim, first, uses[..k]).code;
            exists q :: i <= q < k && code == uses[q].next
  {
    assert uses[..k][..k - 1] == uses[..k - 1];
    if k > i + 1 { HeldIsDrawnSince(lim, first, uses, i, k - 1); }
  }

  /** A new code is issued by a rotation and by every pairing. */
  ghost predicate Issues(lim: Limits, first: Held, uses: seq<Use>, q: nat)
    requires q < |uses|
  {
    uses[q].Renewal? || PairedAt(lim, first, uses, q)
  }

  /** Use `q` issues a code and nothing after it, up to use `k`, issues another. */
  ghost predicate LastIssue(lim: Limits, first: Held, uses: seq<Use>, q: nat, k: nat)
    requires q < k <= |uses|
  {
    Issues(lim, first, uses, q) && forall r: nat :: q < r < k ==> !Issues(lim, first, uses, r)
  }

  ghost predicate NoneIssued(lim: Limits, first: Held, uses: seq<Use>, k: nat)
    requires k <= |uses|
  {
    forall r: nat :: r < k ==> !Issues(lim, first, uses, r)
  }

  lemma HeldNext(lim: Limits, first: Held, uses: seq<Use>, k: nat)
    requires k < |uses|
    ensures HeldAfter(lim, first, uses[..k + 1])
         == if Issues(lim, first, uses, k) then Held(uses[k].next, uses[k].at + lim.pairingTtl)
            else HeldAfter(lim, first, uses[..k])
  {
    assert uses[..k + 1][..k] == uses[..k];
  }

  lemma {:induction false} HeldIsFirst(lim: Limits, first: Held, uses: seq<Use>, k: nat)
    requires k <= |uses| && NoneIssued(lim, first, uses, k)
    ensures HeldAfter(lim, first, uses[..k]) == first
  {
    if k > 0 {
      HeldIsFirst(lim, first, uses, k - 1);
      HeldNext(lim, first, uses, k - 1);
    }
  }

  lemma {:induction false} HeldIsLastIssued(lim: Limits, first: Held, uses: seq<Use>, q: nat, k: nat)
    requires q < k <= |uses| && LastIssue(lim, first, uses, q, k)
    ensures HeldAfter(lim, first, uses[..k]) == Held(uses[q].next, uses[q].at + lim.pairingTtl)
  {
    HeldNext(lim, first, uses, k - 1);
    if q < k - 1 { HeldIsLastIssued(lim, first, uses, q, k - 1); }
  }

  lemma {:induction false} SomeLastIssue(lim: Limits, first: Held, uses: seq<Use>, k: nat) returns (q: nat)
    requires k <= |uses| && !NoneIssued(lim, first, uses, k)
    ensures q < k && LastIssue(lim, first, uses, q, k)
  {
    if Issues(lim, first, uses, k - 1) { q := k - 1; } else { q := SomeLastIssue(lim, first, uses, k - 1); }
  }

  lemma LastIssueIsOne(lim: Limits, first: Held, uses: seq<Use>, q: nat, r: nat, k: nat)
    requires q < k <= |uses| && r < k && LastIssue(lim, first, uses, q, k) && LastIssue(lim, first, uses, r, k)
    ensures q == r
  {
  }

  /**
    An attempt pairs exactly when it gives the code issued last, in time: the first code if
    none has been issued since, else the one of the latest rotation or pairing.
  */
  lemma PairsExactlyWhen(lim: Limits, first: Held, uses: seq<Use>, i: nat)
    requires i < |uses|
    ensures PairedAt(lim, first, uses, i)
        <==> && uses[i].Attempt?
             && ((NoneIssued(lim, first, uses, i) && uses[i].given == first.code && uses[i].at <= first.expires)
                 || exists q: nat :: q < i && LastIssue(lim, first, uses, q, i)
                                     && uses[i].given == uses[q].next && uses[i].at <= uses[q].at + lim.pairingTtl)
  {
    if NoneIssued(lim, first, uses, i) {
      HeldIsFirst(lim, first, uses, i);
    } else {
      var q := SomeLastIssue(lim, first, uses, i);
      HeldIsLastIssued(lim, first, uses, q, i);
      forall r: nat | r < i && LastIssue(lim, first, uses, r, i) ensures r == q {
        LastIssueIsOne(lim, first, uses, q, r, i);
      }
    }
  }

  /** With fresh codes no code pairs two sessions, over any run of attempts and rotations. */
  lemma CodePairsOnce(lim: Limits, first: Held, uses: seq<Use>, i: nat, j: nat)
    requires FreshCodes(first, uses) && i < j < |uses|
    requires PairedAt(lim, first, uses, i) && PairedAt(lim, first, uses, j)
    ensures uses[i].given != uses[j].given
  {
    HeldIsDrawnEarlier(lim, first, uses, i);
    HeldIsDrawnSince(lim, first, uses, i, j);
  }
}
