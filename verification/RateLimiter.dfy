/**
  The per-key sliding-window limiter of the remote server. Its table is a dictionary in
  insertion order, trimmed from the oldest key when it grows past its bound.
*/
module RateLimiter {
  import opened Sets

  type Key = string

  /** The settings in force: at least one event, one second and eight keys. */
  datatype Settings = Settings(limit: nat, window: real, maxKeys: nat)
  {
    ghost predicate Valid() {
      limit >= 1 && window >= 1.0 && maxKeys >= 8
    }
  }

  /** Each argument is raised on its own, and only if it is below its minimum. */
  function Clamped(limit: int, window: real, maxKeys: int): (s: Settings)
    ensures s.Valid()
    ensures s.limit >= limit && (s.limit == limit || s.limit == 1)
    ensures s.window >= window && (s.window == window || s.window == 1.0)
    ensures s.maxKeys >= maxKeys && (s.maxKeys == maxKeys || s.maxKeys == 8)
  {
    Settings(if limit > 1 then limit else 1, if window > 1.0 then window else 1.0, if maxKeys > 8 then maxKeys else 8)
  }

  /** The dictionary of deques and the order its keys were inserted in. */
  datatype Table = Table(order: seq<Key>, events: map<Key, seq<real>>)

  function Recent(q: seq<real>, cutoff: real): seq<real> {
    if q == [] || q[0] > cutoff then q else Recent(q[1..], cutoff)
  }

  function Touched(t: Table, key: Key): Table {
    if key in t.events then t else Table(t.order + [key], t.events[key := []])
  }

  function Evicted(t: Table, victims: seq<Key>, key: Key): Table {
    if victims == [] then t
    else
      var rest := Evicted(t, victims[..|victims| - 1], key);
      var victim := victims[|victims| - 1];
      if victim == key then rest else Table(Removed(rest.order, victim), rest.events - {victim})
  }

  function Removed(order: seq<Key>, key: Key): seq<Key> {
    if order == [] then []
    else if order[0] == key then order[1..]
    else [order[0]] + Removed(order[1..], key)
  }

  /** The key inserted if new, and its grants older than the window dropped. */
  function Trimmed(s: Settings, t: Table, key: Key, now: real): (r: Table)
    ensures key in r.events
  {
    var touched := Touched(t, key);
    touched.(events := touched.events[key := Recent(touched.events[key], now - s.window)])
  }

  function Granted(t: Table, key: Key, now: real): (r: Table)
    requires key in t.events
    ensures key in r.events
  {
    t.(events := t.events[key := t.events[key] + [now]])
  }

  function Bounded(s: Settings, t: Table, key: Key): Table {
    var excess := |t.events| - s.maxKeys;
    if 0 < excess <= |t.order| then Evicted(t, t.order[..excess], key) else t
  }

  function Allow(s: Settings, t: Table, key: Key, now: real): (Table, bool) {
    var trimmed := Trimmed(s, t, key, now);
    if |trimmed.events[key]| >= s.limit then (trimmed, false)
    else (Bounded(s, Granted(trimmed, key, now), key), true)
  }

  // ---- the limiter, updated in place ----

  class Limiter {
    const settings: Settings
    var order: seq<Key>
    var events: map<Key, seq<real>>

    function Now(): Table
      reads this
    {
      Table(order, events)
    }

    constructor (limit: int, window: real, maxKeys: int)
      ensures settings == Clamped(limit, window, maxKeys) && Now() == Table([], map[])
    {
      settings := Clamped(limit, window, maxKeys);
      order, events := [], map[];
    }

    /** The oldest grants fall out of the window. */
    static method Trim(all: seq<real>, cutoff: real) returns (q: seq<real>)
      ensures q == Recent(all, cutoff)
    {
      q := all;
      while q != [] && q[0] <= cutoff
        invariant Recent(q, cutoff) == Recent(all, cutoff)
        decreases |q|
      {
        q := q[1..];
      }
    }

    method Evict(victims: seq<Key>, key: Key)
      modifies this`order, this`events
      ensures Now() == Evicted(old(Now()), victims, key)
    {
      for i := 0 to |victims|
        invariant Now() == Evicted(old(Now()), victims[..i], key)
      {
        assert victims[..i + 1][..i] == victims[..i];
        if victims[i] != key {
          order := Removed(order, victims[i]);
          events := events - {victims[i]};
        }
      }
      assert victims[..|victims|] == victims;
    }

    method Touch(key: Key, now: real)
      requires |order| == |events|
      modifies this`order, this`events
      ensures Now() == Trimmed(settings, old(Now()), key, now) && |order| == |events|
    {
      if key !in events {
        assert (events[key := []]).Keys == events.Keys + {key};
        order := order + [key];
        events := events[key := []];
      }
      var q := Trim(events[key], now - settings.window);
      assert (events[key := q]).Keys == events.Keys;
      events := events[key := q];
    }

    method Check(key: Key, now: real) returns (allowed: bool)
      requires |order| == |events|
      modifies this`order, this`events
      ensures (Now(), allowed) == Allow(settings, old(Now()), key, now)
    {
      Touch(key, now);
      if |events[key]| >= settings.limit { return false; }
      assert (events[key := events[key] + [now]]).Keys == events.Keys;
      events := events[key := events[key] + [now]];
      allowed := true;
      if |events| > settings.maxKeys {
        Evict(order[..|events| - settings.maxKeys], key);
      }
    }
  }

  // ---- against the history of grants ----

  /** The table with, for each key in it, every grant since the key was last inserted. */
  datatype History = History(table: Table, grants: map<Key, seq<real>>, clock: real)

  function Called(s: Settings, h: History, key: Key, now: real): History {
    var (t, allowed) := Allow(s, h.table, key, now);
    var before := if key in h.grants then h.grants[key] else [];
    var all := h.grants[key := if allowed then before + [now] else before];
    History(t, Kept(all, t.events), now)
  }

  function Kept(grants: map<Key, seq<real>>, events: map<Key, seq<real>>): map<Key, seq<real>> {
    map k | k in grants && k in events :: grants[k]
  }

  ghost predicate Sorted(g: seq<real>) {
    forall i, j :: 0 <= i < j < |g| ==> g[i] <= g[j]
  }

  /** Any `limit + 1` successive grants span at least a window. */
  ghost predicate Spaced(s: Settings, g: seq<real>) {
    forall i, j :: 0 <= i < j < |g| && j == i + s.limit ==> g[j] - g[i] >= s.window
  }

  /** `q` are the grants later than some instant at least a window in the past. */
  ghost predicate Tail(s: Settings, q: seq<real>, g: seq<real>, clock: real) {
    && |q| <= |g| && q == g[|g| - |q|..]
    && (|q| < |g| ==> g[|g| - |q| - 1] <= clock - s.window)
  }

  ghost predicate KeyInv(s: Settings, q: seq<real>, g: seq<real>, clock: real) {
    && Sorted(g) && Spaced(s, g) && Tail(s, q, g, clock) && |q| <= s.limit
    && (g != [] ==> g[|g| - 1] <= clock)
  }

  /** The insertion order lists the table's keys, each once. */
  ghost predicate Shape(t: Table) {
    && |t.order| == |t.events|
    && (forall i, j :: 0 <= i < j < |t.order| ==> t.order[i] != t.order[j])
    && forall k :: k in t.events <==> k in t.order
  }

  ghost predicate Counted(s: Settings, events: map<Key, seq<real>>, grants: map<Key, seq<real>>, clock: real) {
    && grants.Keys == events.Keys
    && forall k :: k in grants ==> KeyInv(s, events[k], grants[k], clock)
  }

  ghost predicate Inv(s: Settings, h: History) {
    Shape(h.table) && |h.table.events| <= s.maxKeys && Counted(s, h.table.events, h.grants, h.clock)
  }

  lemma {:induction false} RecentIsTail(s: Settings, q: seq<real>, g: seq<real>, now: real)
    requires Sorted(g) && Tail(s, q, g, now)
    ensures var r := Recent(q, now - s.window);
            Tail(s, r, g, now) && |r| <= |q| && forall i :: 0 <= i < |r| ==> r[i] > now - s.window
    decreases |q|
  {
    if q != [] {
      if q[0] <= now - s.window {
        assert q[1..] == g[|g| - |q| + 1..];
        RecentIsTail(s, q[1..], g, now);
      } else {
        assert forall i :: 0 <= i < |q| ==> q[i] == g[|g| - |q| + i];
      }
    }
  }

  lemma SpacedGrows(s: Settings, r: seq<real>, g: seq<real>, now: real)
    requires s.Valid() && Sorted(g) && Spaced(s, g) && Tail(s, r, g, now) && |r| < s.limit
    ensures Spaced(s, g + [now])
  {
    var g' := g + [now];
    forall i, j | 0 <= i < j < |g'| && j == i + s.limit ensures g'[j] - g'[i] >= s.window {
      if j == |g| {
        assert g[i] <= g[|g| - |r| - 1];
      }
    }
  }

  /** Granting one more event keeps the spacing when fewer than `limit` are recent. */
  lemma GrantKeeps(s: Settings, q: seq<real>, g: seq<real>, clock: real, now: real)
    requires s.Valid() && KeyInv(s, q, g, clock) && clock <= now
    ensures var r := Recent(q, now - s.window);
            && KeyInv(s, r, g, now)
            && (|r| < s.limit ==> KeyInv(s, r + [now], g + [now], now))
  {
    var r := Recent(q, now - s.window);
    assert Tail(s, q, g, now);
    RecentIsTail(s, q, g, now);
    if |r| < s.limit {
      SpacedGrows(s, r, g, now);
      GrownTail(s, r, g, now);
    }
  }

  lemma GrownTail(s: Settings, r: seq<real>, g: seq<real>, now: real)
    requires Sorted(g) && Tail(s, r, g, now) && (g != [] ==> g[|g| - 1] <= now)
    ensures Sorted(g + [now]) && Tail(s, r + [now], g + [now], now)
  {
    assert (g + [now])[|g| - |r|..] == g[|g| - |r|..] + [now];
  }

  // ---- eviction ----

  lemma {:induction false} RemovedFacts(order: seq<Key>, key: Key)
    requires key in order && forall i, j :: 0 <= i < j < |order| ==> order[i] != order[j]
    ensures |Removed(order, key)| == |order| - 1
    ensures forall k :: k in Removed(order, key) <==> k in order && k != key
    ensures var r := Removed(order, key); forall i, j :: 0 <= i < j < |r| ==> r[i] != r[j]
  {
    if order[0] != key {
      assert order == [order[0]] + order[1..];
      RemovedFacts(order[1..], key);
      assert order[0] !in order[1..];
      assert order[0] !in Removed(order[1..], key);
    } else {
      assert order == [key] + order[1..];
    }
  }

  /** Only a newly inserted key makes the table overflow, so what goes is another, older, key. */
  lemma OneVictim(s: Settings, t: Table, key: Key)
    requires s.Valid() && Shape(t) && |t.events| == s.maxKeys + 1 && t.order[|t.order| - 1] == key
    ensures t.order[0] != key && t.order[0] in t.events && key in t.events
    ensures Evicted(t, t.order[..1], key) == Table(Removed(t.order, t.order[0]), t.events - {t.order[0]})
  {
    var one := t.order[..1];
    assert one == [t.order[0]] && one[..0] == [];
    assert t.order[0] in t.order && t.order[|t.order| - 1] in t.order;
  }

  // ---- every call keeps the invariant ----

  function Grants(h: History, key: Key): seq<real> {
    if key in h.grants then h.grants[key] else []
  }

  lemma TrimCounted(s: Settings, h: History, key: Key, now: real)
    requires s.Valid() && Counted(s, h.table.events, h.grants, h.clock) && h.clock <= now
    ensures Counted(s, Trimmed(s, h.table, key, now).events, h.grants[key := Grants(h, key)], now)
  {
    var q, g := if key in h.table.events then h.table.events[key] else [], Grants(h, key);
    TrimmedKey(s, q, g, h.clock, now);
    ReplaceCounted(s, h.table.events, h.grants, key, Recent(q, now - s.window), g, now);
    TrimmedEvents(s, h.table, key, now);
  }

  lemma TrimmedEvents(s: Settings, t: Table, key: Key, now: real)
    ensures Trimmed(s, t, key, now).events
         == t.events[key := Recent(if key in t.events then t.events[key] else [], now - s.window)]
  {
  }

  lemma ReplaceCounted(s: Settings, events: map<Key, seq<real>>, grants: map<Key, seq<real>>, key: Key, q: seq<real>,
                       g: seq<real>, clock: real)
    requires Counted(s, events, grants, clock) && KeyInv(s, q, g, clock)
    ensures Counted(s, events[key := q], grants[key := g], clock)
  {
    var events', grants' := events[key := q], grants[key := g];
    forall k | k in grants' ensures KeyInv(s, events'[k], grants'[k], clock) {
      if k != key { assert KeyInv(s, events[k], grants[k], clock); }
    }
  }

  lemma TrimmedKey(s: Settings, q: seq<real>, g: seq<real>, clock: real, now: real)
    requires s.Valid() && (KeyInv(s, q, g, clock) || q == g == []) && clock <= now
    ensures KeyInv(s, Recent(q, now - s.window), g, now)
  {
    if g != [] || q != [] {
      GrantKeeps(s, q, g, clock, now);
    }
  }

  lemma GrantCounted(s: Settings, events: map<Key, seq<real>>, grants: map<Key, seq<real>>, key: Key, now: real)
    requires s.Valid() && Counted(s, events, grants, now) && key in events && |events[key]| < s.limit
    ensures Counted(s, events[key := events[key] + [now]], grants[key := grants[key] + [now]], now)
  {
    SpacedGrows(s, events[key], grants[key], now);
    GrownTail(s, events[key], grants[key], now);
  }

  /** Bounding keeps the shape, brings the table within its bound and drops at most the oldest key. */
  lemma BoundedShape(s: Settings, t: Table, key: Key)
    requires s.Valid() && Shape(t) && |t.events| <= s.maxKeys + 1
    requires |t.events| == s.maxKeys + 1 ==> t.order[|t.order| - 1] == key
    ensures var r := Bounded(s, t, key);
            && Shape(r) && |r.events| <= s.maxKeys
            && r.events.Keys <= t.events.Keys && forall k :: k in r.events ==> r.events[k] == t.events[k]
  {
    if |t.events| == s.maxKeys + 1 {
      OneVictim(s, t, key);
    }
  }

  lemma CallShape(s: Settings, t: Table, key: Key, now: real)
    requires s.Valid() && Shape(t) && |t.events| <= s.maxKeys
    ensures var r := Allow(s, t, key, now).0; Shape(r) && |r.events| <= s.maxKeys
    ensures var (r, allowed) := Allow(s, t, key, now);
            var trimmed := Trimmed(s, t, key, now);
            var all := if allowed then Granted(trimmed, key, now).events else trimmed.events;
            r.events.Keys <= all.Keys && forall k :: k in r.events ==> r.events[k] == all[k]
  {
    var trimmed := Trimmed(s, t, key, now);
    if |trimmed.events[key]| < s.limit {
      BoundedShape(s, Granted(trimmed, key, now), key);
    } else {
    }
  }

  lemma CallCounted(s: Settings, h: History, key: Key, now: real)
    requires s.Valid() && Shape(h.table) && |h.table.events| <= s.maxKeys && h.clock <= now
    requires Counted(s, h.table.events, h.grants, h.clock)
    ensures Counted(s, Called(s, h, key, now).table.events, Called(s, h, key, now).grants, now)
  {
    CallShape(s, h.table, key, now);
    TrimCounted(s, h, key, now);
    var trimmed, grants := Trimmed(s, h.table, key, now).events, h.grants[key := Grants(h, key)];
    var fewer := Allow(s, h.table, key, now).0.events;
    if |trimmed[key]| < s.limit {
      GrantCounted(s, trimmed, grants, key, now);
      SetTwice(h.grants, key, Grants(h, key), Grants(h, key) + [now]);
    } else {
    }
  }

  lemma SetTwice(m: map<Key, seq<real>>, key: Key, v: seq<real>, w: seq<real>)
    ensures m[key := v][key := w] == m[key := w]
  {
  }

  lemma CallKeeps(s: Settings, h: History, key: Key, now: real)
    requires s.Valid() && Inv(s, h) && h.clock <= now
    ensures Inv(s, Called(s, h, key, now))
  {
    CallShape(s, h.table, key, now);
    CallCounted(s, h, key, now);
  }

  // ---- what the invariant means ----

  /** How many grants lie in the half-open span `(low, high]`. */
  function Count(g: seq<real>, low: real, high: real): nat {
    if g == [] then 0
    else Count(g[..|g| - 1], low, high) + if low < g[|g| - 1] <= high then 1 else 0
  }

  lemma {:induction false} CountSplit(g: seq<real>, k: nat, low: real, high: real)
    requires k <= |g|
    ensures Count(g[..k], low, high) <= Count(g, low, high) <= Count(g[..k], low, high) + |g| - k
    ensures (forall i :: k <= i < |g| ==> low < g[i] <= high) ==>
              Count(g, low, high) == Count(g[..k], low, high) + |g| - k
  {
    if k == |g| {
      assert g[..k] == g;
    } else {
      var front := g[..|g| - 1];
      assert front[..k] == g[..k];
      CountSplit(front, k, low, high);
    }
  }

  lemma {:induction false} CountBefore(g: seq<real>, low: real, high: real)
    requires forall i :: 0 <= i < |g| ==> g[i] <= low
    ensures Count(g, low, high) == 0
  {
    if g != [] { CountBefore(g[..|g| - 1], low, high); }
  }

  lemma {:induction false} SpanIsBounded(s: Settings, g: seq<real>, low: real, high: real)
    requires s.Valid() && Sorted(g) && Spaced(s, g) && high - low <= s.window
    ensures Count(g, low, high) <= s.limit
  {
    if g != [] {
      var n := |g| - 1;
      if low < g[n] <= high {
        if n >= s.limit {
          var early := g[..n + 1 - s.limit];
          assert g[n] - g[n - s.limit] >= s.window;
          CountBefore(early, low, high) by {
            assert forall i :: 0 <= i < |early| ==> early[i] <= g[n - s.limit];
          }
        } else {
          assert g[..0] == [];
        }
        CountSplit(g, if n >= s.limit then n + 1 - s.limit else 0, low, high);
      } else {
        SpanIsBounded(s, g[..n], low, high);
      }
    }
  }

  datatype Call = Call(key: Key, now: real)

  ghost predicate Timed(start: real, calls: seq<Call>) {
    && (forall i :: 0 <= i < |calls| ==> start <= calls[i].now)
    && forall i, j :: 0 <= i < j < |calls| ==> calls[i].now <= calls[j].now
  }

  function After(s: Settings, start: real, calls: seq<Call>): History {
    if calls == [] then History(Table([], map[]), map[], start)
    else
      var last := calls[|calls| - 1];
      Called(s, After(s, start, calls[..|calls| - 1]), last.key, last.now)
  }

  lemma {:induction false} AfterInv(s: Settings, start: real, calls: seq<Call>)
    requires s.Valid() && Timed(start, calls)
    ensures Inv(s, After(s, start, calls))
    ensures After(s, start, calls).clock == if calls == [] then start else calls[|calls| - 1].now
  {
    if calls != [] {
      var n := |calls| - 1;
      AfterInv(s, start, calls[..n]);
      CallKeeps(s, After(s, start, calls[..n]), calls[n].key, calls[n].now);
    }
  }

  lemma WindowBound(s: Settings, h: History, key: Key, t: real)
    requires s.Valid() && Counted(s, h.table.events, h.grants, h.clock)
    ensures Count(Grants(h, key), t - s.window, t) <= s.limit
  {
    if key in h.grants {
      var g := h.grants[key];
      assert KeyInv(s, h.table.events[key], g, h.clock);
      SpanIsBounded(s, g, t - s.window, t);
    }
  }

  /**
    Over any calls with a clock that does not go back: the table never exceeds its bound, and
    no half-open span of a window holds more than `limit` of a key's grants since it was last
    inserted.
  */
  lemma NoWindowOverflows(s: Settings, start: real, calls: seq<Call>, key: Key, t: real)
    requires s.Valid() && Timed(start, calls)
    ensures |After(s, start, calls).table.events| <= s.maxKeys
    ensures Count(Grants(After(s, start, calls), key), t - s.window, t) <= s.limit
  {
    AfterInv(s, start, calls);
    WindowBound(s, After(s, start, calls), key, t);
  }

  lemma CountFrom(g: seq<real>, k: nat, low: real, high: real)
    requires k <= |g| && forall i :: k <= i < |g| ==> low < g[i] <= high
    requires forall i :: 0 <= i < k ==> g[i] <= low
    ensures Count(g, low, high) == |g| - k
  {
    CountSplit(g, k, low, high);
    CountBefore(g[..k], low, high);
  }

  /** The recent grants are those in the window. */
  lemma CountIsTail(s: Settings, r: seq<real>, g: seq<real>, now: real, cutoff: real)
    requires Sorted(g) && Tail(s, r, g, now) && cutoff == now - s.window && (g != [] ==> g[|g| - 1] <= now)
    requires forall i :: 0 <= i < |r| ==> r[i] > cutoff
    ensures Count(g, cutoff, now) == |r|
  {
    var k := |g| - |r|;
    forall i | k <= i < |g| ensures cutoff < g[i] <= now {
      assert g[i] == r[i - k];
    }
    forall i | 0 <= i < k ensures g[i] <= cutoff {
      assert g[i] <= g[k - 1];
    }
    CountFrom(g, k, cutoff, now);
  }

  lemma RecentCount(s: Settings, q: seq<real>, g: seq<real>, clock: real, now: real)
    requires s.Valid() && KeyInv(s, q, g, clock) && clock <= now
    ensures |Recent(q, now - s.window)| == Count(g, now - s.window, now)
    ensures |Recent(q, now - s.window)| <= s.limit
  {
    RecentIsTail(s, q, g, now);
    CountIsTail(s, Recent(q, now - s.window), g, now, now - s.window);
  }

  lemma Verdict(s: Settings, h: History, key: Key, now: real)
    requires s.Valid() && Counted(s, h.table.events, h.grants, h.clock) && h.clock <= now
    ensures !Allow(s, h.table, key, now).1 <==> Count(Grants(h, key), now - s.window, now) == s.limit
  {
    TrimmedEvents(s, h.table, key, now);
    if key in h.grants {
      RecentCount(s, h.table.events[key], h.grants[key], h.clock, now);
    }
  }

  /** A call is refused exactly when `limit` grants since its key was last inserted lie in the window. */
  lemma RefusedExactlyWhenFull(s: Settings, start: real, calls: seq<Call>, key: Key, now: real)
    requires s.Valid() && Timed(start, calls) && start <= now && (calls != [] ==> calls[|calls| - 1].now <= now)
    ensures !Allow(s, After(s, start, calls).table, key, now).1
        <==> Count(Grants(After(s, start, calls), key), now - s.window, now) == s.limit
  {
    AfterInv(s, start, calls);
    Verdict(s, After(s, start, calls), key, now);
  }

  // ---- which keys the table forgets ----

  lemma BoundedOrder(s: Settings, t: Table, key: Key)
    requires s.Valid() && Shape(t) && |t.events| <= s.maxKeys + 1
    requires |t.events| == s.maxKeys + 1 ==> t.order[|t.order| - 1] == key
    ensures Bounded(s, t, key).order == if |t.events| > s.maxKeys then t.order[1..] else t.order
  {
    if |t.events| == s.maxKeys + 1 { OneVictim(s, t, key); }
  }

  /** A new key goes to the end; a grant that makes the keys too many drops the one at the front. */
  lemma CallOrder(s: Settings, t: Table, key: Key, now: real)
    requires s.Valid() && Shape(t) && |t.events| <= s.maxKeys
    ensures var (r, granted) := Allow(s, t, key, now);
            var inserted := if key in t.events then t.order else t.order + [key];
            r.order == if granted && |inserted| > s.maxKeys then inserted[1..] else inserted
  {
    var trimmed := Trimmed(s, t, key, now);
    if |trimmed.events[key]| < s.limit { BoundedOrder(s, Granted(trimmed, key, now), key); }
  }

  ghost function TableAfter(s: Settings, start: real, calls: seq<Call>): Table {
    After(s, start, calls).table
  }

  ghost predicate GrantsNext(s: Settings, start: real, calls: seq<Call>, call: Call) {
    Allow(s, TableAfter(s, start, calls), call.key, call.now).1
  }

  function Inserted(t: Table, key: Key): seq<Key> {
    if key in t.events then t.order else t.order + [key]
  }

  /** How many keys a call with the answer `granted` drops at the front. */
  function Drops(s: Settings, t: Table, key: Key, granted: bool): nat {
    if granted && |Inserted(t, key)| > s.maxKeys then 1 else 0
  }

  /** What it makes of the order. */
  ghost predicate Reorders(s: Settings, t: Table, key: Key, granted: bool, r: Table) {
    var d := Drops(s, t, key, granted);
    && Shape(t) && Shape(r) && |t.order| <= s.maxKeys
    && |r.order| == |Inserted(t, key)| - d
    && forall p: nat :: p < |r.order| ==> r.order[p] == Inserted(t, key)[p + d]
  }

  lemma CallReorders(s: Settings, t: Table, key: Key, now: real)
    requires s.Valid() && Shape(t) && |t.events| <= s.maxKeys
    ensures Reorders(s, t, key, Allow(s, t, key, now).1, Allow(s, t, key, now).0)
  {
    CallOrder(s, t, key, now);
    CallShape(s, t, key, now);
    ReordersBy(s, t, key, Allow(s, t, key, now).1, Allow(s, t, key, now).0);
  }

  lemma ReordersBy(s: Settings, t: Table, key: Key, granted: bool, r: Table)
    requires Shape(t) && Shape(r) && |t.order| <= s.maxKeys
    requires r.order == if granted && |Inserted(t, key)| > s.maxKeys then Inserted(t, key)[1..] else Inserted(t, key)
    ensures Reorders(s, t, key, granted, r)
  {
  }

  lemma TimedFront(start: real, calls: seq<Call>)
    requires Timed(start, calls) && calls != []
    ensures Timed(start, calls[..|calls| - 1])
    ensures var front, last := calls[..|calls| - 1], calls[|calls| - 1];
            start <= last.now && (front != [] ==> front[|front| - 1].now <= last.now)
  {
  }

  lemma TableNext(s: Settings, start: real, calls: seq<Call>)
    requires s.Valid() && Timed(start, calls) && calls != []
    ensures var front, last := calls[..|calls| - 1], calls[|calls| - 1];
            Reorders(s, TableAfter(s, start, front), last.key, GrantsNext(s, start, front, last),
                     TableAfter(s, start, calls))
  {
    var front, last := calls[..|calls| - 1], calls[|calls| - 1];
    TimedFront(start, calls);
    AfterInv(s, start, front);
    CallReorders(s, TableAfter(s, start, front), last.key, last.now);
  }

  /** The call that put a key of the table where it is. */
  ghost function InsertedAt(s: Settings, start: real, calls: seq<Call>, key: Key): nat
    requires key in TableAfter(s, start, calls).events
  {
    var n := |calls| - 1;
    if key in TableAfter(s, start, calls[..n]).events then InsertedAt(s, start, calls[..n], key) else n
  }

  ghost predicate ByInsertion(s: Settings, start: real, calls: seq<Call>) {
    var t := TableAfter(s, start, calls);
    && (forall p: nat :: p < |t.order| ==> t.order[p] in t.events)
    && (forall p: nat :: p < |t.order| ==> InsertedAt(s, start, calls, t.order[p]) < |calls|)
    && forall p: nat, q: nat :: p < q < |t.order| ==>
         InsertedAt(s, start, calls, t.order[p]) < InsertedAt(s, start, calls, t.order[q])
  }

  /** A key of the new order was `d` places further on in the old one, or is the one just inserted. */
  lemma ComesFrom(s: Settings, t: Table, key: Key, granted: bool, r: Table, p: nat)
    requires Reorders(s, t, key, granted, r) && p < |r.order|
    ensures var d := Drops(s, t, key, granted);
            && r.order[p] in r.events
            && (if p + d < |t.order| then r.order[p] == t.order[p + d] && r.order[p] in t.events
                else p + d == |t.order| && r.order[p] == key && key !in t.events)
  {
    var d := Drops(s, t, key, granted);
    assert r.order[p] in r.order;
    if p + d < |t.order| { assert t.order[p + d] in t.order; }
  }

  /** The first key of a full table leaves it when a key that is not in it is granted. */
  lemma FirstLeaves(s: Settings, t: Table, key: Key, granted: bool, r: Table, k: Key)
    requires Reorders(s, t, key, granted, r) && k in t.events
    ensures t.order != []
    ensures k !in r.events <==> granted && |t.events| == s.maxKeys && key !in t.events && t.order[0] == k
  {
    var d := Drops(s, t, key, granted);
    assert k in t.order;
    var q: nat :| q < |t.order| && t.order[q] == k;
    if q >= d {
      assert r.order[q - d] == k;
    } else {
      forall p: nat | p < |r.order| ensures r.order[p] != k { ComesFrom(s, t, key, granted, r, p); }
    }
  }

  lemma {:induction false} OrderIsByInsertion(s: Settings, start: real, calls: seq<Call>)
    requires s.Valid() && Timed(start, calls)
    ensures ByInsertion(s, start, calls)
  {
    if calls != [] {
      var front := calls[..|calls| - 1];
      OrderIsByInsertion(s, start, front);
      TableNext(s, start, calls);
      ByInsertionOn(s, start, calls);
    }
  }

  lemma InsertedBefore(s: Settings, start: real, calls: seq<Call>, key: Key)
    requires calls != [] && key in TableAfter(s, start, calls).events
    ensures InsertedAt(s, start, calls, key)
         == if key in TableAfter(s, start, calls[..|calls| - 1]).events
            then InsertedAt(s, start, calls[..|calls| - 1], key) else |calls| - 1
  {
  }

  lemma ByInsertionOn(s: Settings, start: real, calls: seq<Call>)
    requires calls != [] && ByInsertion(s, start, calls[..|calls| - 1])
    requires var front, last := calls[..|calls| - 1], calls[|calls| - 1];
             Reorders(s, TableAfter(s, start, front), last.key, GrantsNext(s, start, front, last),
                      TableAfter(s, start, calls))
    ensures ByInsertion(s, start, calls)
  {
    var front, last := calls[..|calls| - 1], calls[|calls| - 1];
    var t, r, granted := TableAfter(s, start, front), TableAfter(s, start, calls), GrantsNext(s, start, front, last);
    forall p: nat | p < |r.order|
      ensures r.order[p] in r.events && InsertedAt(s, start, calls, r.order[p]) < |calls|
    {
      ComesFrom(s, t, last.key, granted, r, p);
      InsertedBefore(s, start, calls, r.order[p]);
    }
    forall p: nat, q: nat | p < q < |r.order|
      ensures InsertedAt(s, start, calls, r.order[p]) < InsertedAt(s, start, calls, r.order[q])
    {
      ComesFrom(s, t, last.key, granted, r, p);
      ComesFrom(s, t, last.key, granted, r, q);
      InsertedBefore(s, start, calls, r.order[p]);
      InsertedBefore(s, start, calls, r.order[q]);
    }
  }

  ghost predicate Earliest(s: Settings, start: real, calls: seq<Call>, key: Key)
    requires key in TableAfter(s, start, calls).events
  {
    forall k :: k in TableAfter(s, start, calls).events ==>
      InsertedAt(s, start, calls, key) <= InsertedAt(s, start, calls, k)
  }

  lemma EarliestIsFirst(s: Settings, start: real, calls: seq<Call>, key: Key)
    requires s.Valid() && Timed(start, calls) && key in TableAfter(s, start, calls).events
    requires Shape(TableAfter(s, start, calls))
    ensures TableAfter(s, start, calls).order != []
    ensures Earliest(s, start, calls, key) <==> TableAfter(s, start, calls).order[0] == key
  {
    var t := TableAfter(s, start, calls);
    OrderIsByInsertion(s, start, calls);
    assert key in t.order;
    if t.order[0] == key {
      forall k | k in t.events ensures InsertedAt(s, start, calls, key) <= InsertedAt(s, start, calls, k) {
        assert k in t.order;
        var q: nat :| q < |t.order| && t.order[q] == k;
      }
    } else {
      var q: nat :| q < |t.order| && t.order[q] == key;
      assert InsertedAt(s, start, calls, t.order[0]) < InsertedAt(s, start, calls, t.order[q]);
    }
  }

  /**
    A key leaves the table exactly at a grant to a key that is not in it while it is full, and
    then it is the key inserted earliest.
  */
  lemma KeyLeavesExactlyWhen(s: Settings, start: real, calls: seq<Call>, key: Key)
    requires s.Valid() && Timed(start, calls) && calls != []
    requires key in TableAfter(s, start, calls[..|calls| - 1]).events
    ensures var front, last := calls[..|calls| - 1], calls[|calls| - 1];
            var t := TableAfter(s, start, front);
            key !in TableAfter(s, start, calls).events
            <==> && GrantsNext(s, start, front, last) && |t.events| == s.maxKeys && last.key !in t.events
                 && Earliest(s, start, front, key)
  {
    var front, last := calls[..|calls| - 1], calls[|calls| - 1];
    var t, r := TableAfter(s, start, front), TableAfter(s, start, calls);
    TimedFront(start, calls);
    TableNext(s, start, calls);
    FirstLeaves(s, t, last.key, GrantsNext(s, start, front, last), r, key);
    EarliestIsFirst(s, start, front, key);
  }

  // ---- as long as the keys fit in the table ----

  ghost function KeysOf(calls: seq<Call>): set<Key> {
    set i | 0 <= i < |calls| :: calls[i].key
  }

  /** Every grant there ever was for a key. */
  ghost function AllGrants(s: Settings, start: real, calls: seq<Call>, key: Key): seq<real> {
    if calls == [] then []
    else
      var front, last := calls[..|calls| - 1], calls[|calls| - 1];
      AllGrants(s, start, front, key)
      + if last.key == key && GrantsNext(s, start, front, last) then [last.now] else []
  }

  lemma KeysGrow(calls: seq<Call>)
    requires calls != []
    ensures KeysOf(calls) == KeysOf(calls[..|calls| - 1]) + {calls[|calls| - 1].key}
    ensures |KeysOf(calls[..|calls| - 1])| <= |KeysOf(calls)|
  {
    var front, last := calls[..|calls| - 1], calls[|calls| - 1];
    forall k | k in KeysOf(front) ensures k in KeysOf(calls) {
      var i :| 0 <= i < |front| && front[i].key == k;
      assert calls[i].key == k;
    }
    assert calls[|calls| - 1].key in KeysOf(calls);
    forall k | k in KeysOf(calls) ensures k in KeysOf(front) + {last.key} {
      var i :| 0 <= i < |calls| && calls[i].key == k;
      if i < |front| { assert front[i].key == k; }
    }
    SubsetSize(KeysOf(front), KeysOf(calls));
  }

  /** While the keys named fit in the table, it holds exactly them. */
  lemma {:induction false} TableHoldsAll(s: Settings, start: real, calls: seq<Call>)
    requires s.Valid() && Timed(start, calls) && |KeysOf(calls)| <= s.maxKeys
    ensures TableAfter(s, start, calls).events.Keys == KeysOf(calls)
  {
    if calls != [] {
      var front, last := calls[..|calls| - 1], calls[|calls| - 1];
      KeysGrow(calls);
      TimedFront(start, calls);
      TableHoldsAll(s, start, front);
      TableNext(s, start, calls);
      InsertedFits(s, TableAfter(s, start, front), last.key, GrantsNext(s, start, front, last),
                   TableAfter(s, start, calls), KeysOf(calls));
    } else {
      assert TableAfter(s, start, []) == Table([], map[]);
    }
  }

  lemma InsertedFits(s: Settings, t: Table, key: Key, granted: bool, r: Table, all: set<Key>)
    requires Reorders(s, t, key, granted, r) && all == t.events.Keys + {key} && |all| <= s.maxKeys
    ensures r.events.Keys == all
  {
    NothingDrops(s, t, key, granted, all);
    forall k ensures k in r.events.Keys <==> k in all { StaysInserted(s, t, key, granted, r, k); }
  }

  lemma NothingDrops(s: Settings, t: Table, key: Key, granted: bool, all: set<Key>)
    requires Shape(t) && all == t.events.Keys + {key} && |all| <= s.maxKeys
    ensures Drops(s, t, key, granted) == 0
  {
    if key !in t.events { assert |all| == |t.events.Keys| + 1; } else { assert all == t.events.Keys; }
  }

  lemma StaysInserted(s: Settings, t: Table, key: Key, granted: bool, r: Table, k: Key)
    requires Reorders(s, t, key, granted, r) && Drops(s, t, key, granted) == 0
    ensures k in r.events <==> k in t.events || k == key
  {
    assert r.order == Inserted(t, key);
    InsertedKeys(t, key, k);
  }

  lemma InsertedKeys(t: Table, key: Key, k: Key)
    requires Shape(t)
    ensures k in Inserted(t, key) <==> k in t.events || k == key
  {
    assert k in t.events <==> k in t.order;
    assert key in t.events <==> key in t.order;
  }

  /** What a call does to the grants of a key, when it drops none. */
  lemma CalledGrants(s: Settings, h: History, key: Key, now: real, k: Key)
    requires h.grants.Keys == h.table.events.Keys
    requires Called(s, h, key, now).table.events.Keys == h.table.events.Keys + {key}
    ensures Grants(Called(s, h, key, now), k)
         == Grants(h, k) + if k == key && Allow(s, h.table, key, now).1 then [now] else []
  {
  }

  /** Then what it counts by are all the grants there ever were. */
  lemma {:induction false} NothingIsForgotten(s: Settings, start: real, calls: seq<Call>, key: Key)
    requires s.Valid() && Timed(start, calls) && |KeysOf(calls)| <= s.maxKeys
    ensures Grants(After(s, start, calls), key) == AllGrants(s, start, calls, key)
  {
    if calls != [] {
      var front, last := calls[..|calls| - 1], calls[|calls| - 1];
      KeysGrow(calls);
      NothingIsForgotten(s, start, front, key);
      HeldGrants(s, start, calls, key);
    }
  }

  lemma HeldGrants(s: Settings, start: real, calls: seq<Call>, key: Key)
    requires s.Valid() && Timed(start, calls) && calls != [] && |KeysOf(calls)| <= s.maxKeys
    ensures var front, last := calls[..|calls| - 1], calls[|calls| - 1];
            Grants(After(s, start, calls), key)
            == Grants(After(s, start, front), key)
               + if last.key == key && GrantsNext(s, start, front, last) then [last.now] else []
  {
    var front, last := calls[..|calls| - 1], calls[|calls| - 1];
    KeysGrow(calls);
    TimedFront(start, calls);
    TableHoldsAll(s, start, calls);
    TableHoldsAll(s, start, front);
    GrantsAreOfKeys(s, start, front);
    CalledGrants(s, After(s, start, front), last.key, last.now, key);
  }

  lemma GrantsAreOfKeys(s: Settings, start: real, calls: seq<Call>)
    requires s.Valid() && Timed(start, calls)
    ensures After(s, start, calls).grants.Keys == TableAfter(s, start, calls).events.Keys
  {
    AfterInv(s, start, calls);
  }

  lemma FewInFront(s: Settings, start: real, calls: seq<Call>)
    requires Timed(start, calls) && calls != [] && |KeysOf(calls)| <= s.maxKeys
    ensures var front, last := calls[..|calls| - 1], calls[|calls| - 1];
            && Timed(start, front) && |KeysOf(front)| <= s.maxKeys && start <= last.now
            && (front != [] ==> front[|front| - 1].now <= last.now)
  {
    KeysGrow(calls);
    TimedFront(start, calls);
  }

  lemma LastVerdict(s: Settings, start: real, front: seq<Call>, last: Call)
    requires s.Valid() && Timed(start, front) && start <= last.now
    requires front != [] ==> front[|front| - 1].now <= last.now
    ensures !GrantsNext(s, start, front, last)
        <==> Count(Grants(After(s, start, front), last.key), last.now - s.window, last.now) == s.limit
  {
    RefusedExactlyWhenFull(s, start, front, last.key, last.now);
  }

  /**
    Over calls that name no more keys than the table holds: a call is refused if and only if
    exactly `limit` of all the grants its key ever had lie in the window before it.
  */
  lemma FewKeysRefusedExactlyWhen(s: Settings, start: real, calls: seq<Call>)
    requires s.Valid() && Timed(start, calls) && calls != [] && |KeysOf(calls)| <= s.maxKeys
    ensures var front, last := calls[..|calls| - 1], calls[|calls| - 1];
            !GrantsNext(s, start, front, last)
            <==> Count(AllGrants(s, start, front, last.key), last.now - s.window, last.now) == s.limit
  {
    var front, last := calls[..|calls| - 1], calls[|calls| - 1];
    FewInFront(s, start, calls);
    NothingIsForgotten(s, start, front, last.key);
    LastVerdict(s, start, front, last);
  }
}
