/**
  The remote gateway's end of one event stream: catch-up pages, the attach reply and live
  events all funnel through one deduplicating `EmitOnce` into the SSE socket.

  `Gateway` is the state of the closures in `_stream_events_async`, and `Stream` the same
  state updated in place.
*/
module StreamGateway {
  import opened EventLedger

  const DEDUPE_LIMIT := 4096
  const DEDUPE_KEEP := 2048

  // ---- the bounded deduplication set ----

  ghost predicate IsGreatest(m: nat, ids: set<nat>) {
    m in ids && forall x :: x in ids ==> x <= m
  }

  lemma {:induction false} GreatestExists(ids: set<nat>)
    requires ids != {}
    ensures exists m :: IsGreatest(m, ids)
    decreases |ids|
  {
    var x :| x in ids;
    if ids == {x} {
      assert IsGreatest(x, ids);
    } else {
      GreatestExists(ids - {x});
      var m :| IsGreatest(m, ids - {x});
      forall y | y in ids ensures y <= if x > m then x else m {
        assert y == x || y in ids - {x};
      }
      assert IsGreatest(if x > m then x else m, ids);
    }
  }

  ghost function Greatest(ids: set<nat>): (m: nat)
    requires ids != {}
    ensures IsGreatest(m, ids)
  {
    GreatestExists(ids);
    var m :| IsGreatest(m, ids);
    m
  }

  ghost function Bounded(ids: set<nat>): set<nat> {
    if |ids| <= DEDUPE_LIMIT then ids else set x | x in ids && x >= Greatest(ids) - DEDUPE_KEEP
  }

  ghost function Remember(ids: set<nat>, id: nat): set<nat> {
    if id in ids then ids else Bounded(ids + {id})
  }

  /** The set after `EmitOnce` was called with the ids of `history`, oldest first. */
  ghost function Remembered(history: seq<nat>): set<nat> {
    if history == [] then {} else Remember(Remembered(history[..|history| - 1]), history[|history| - 1])
  }

  lemma {:induction false} RangeSize(ids: set<nat>, low: int, high: int)
    requires low <= high + 1 && forall x :: x in ids ==> low <= x <= high
    ensures |ids| <= high + 1 - low
    decreases high - low
  {
    if low <= high {
      var rest := set x | x in ids && x != high;
      RangeSize(rest, low, high - 1);
      if high in ids {
        assert ids == rest + {high as nat};
      } else {
        assert ids == rest;
      }
    } else {
      assert forall x :: x !in ids;
      assert ids == {};
    }
  }

  ghost predicate NearHead(x: nat, history: seq<nat>) {
    x in history && forall y :: y in history ==> y <= x + DEDUPE_KEEP
  }

  /** Every emitted id within 2048 of all the others is still in the set. */
  ghost predicate KeepsHead(ids: set<nat>, history: seq<nat>) {
    forall x :: NearHead(x, history) ==> x in ids
  }

  lemma TrimmedSize(grown: set<nat>)
    ensures |Bounded(grown)| <= DEDUPE_LIMIT
  {
    if |grown| > DEDUPE_LIMIT {
      var m := Greatest(grown);
      RangeSize(Bounded(grown), m - DEDUPE_KEEP, m);
    }
  }

  lemma RememberOne(ids: set<nat>, history: seq<nat>, id: nat)
    requires KeepsHead(ids, history) && forall x :: x in ids ==> x in history
    ensures KeepsHead(Remember(ids, id), history + [id])
    ensures forall x :: x in Remember(ids, id) ==> x in history + [id]
  {
    var all := history + [id];
    forall x | NearHead(x, all) ensures x in Remember(ids, id) {
      if x != id {
        assert forall y :: y in history ==> y in all;
        assert NearHead(x, history);
      }
      if id !in ids && |ids + {id}| > DEDUPE_LIMIT {
        assert Greatest(ids + {id}) in all;
      }
    }
  }

  /**
    The bounded set refines the unbounded one near the head: it never holds more than 4096
    ids, holds only ids that were emitted, and holds every emitted id within 2048 of the
    largest one, so none of those can be emitted twice.
  */
  lemma {:induction false} RememberedNearHead(history: seq<nat>)
    ensures |Remembered(history)| <= DEDUPE_LIMIT
    ensures forall x :: x in Remembered(history) ==> x in history
    ensures KeepsHead(Remembered(history), history)
  {
    if history != [] {
      var front, id := history[..|history| - 1], history[|history| - 1];
      RememberedNearHead(front);
      RememberOne(Remembered(front), front, id);
      TrimmedSize(Remembered(front) + {id});
      assert history == front + [id];
    }
  }

  // ---- the gateway's state ----

  /**
    `calls` are the events handed to the SSE `emit` callback and `frames` those whose frame
    was written. `credit` is how many more frames the browser's socket will take before a
    write fails, which sets `stop`.
  */
  datatype Gateway = Gateway(cursor: nat, attached: bool, pendingLive: seq<Event>, emitted: set<nat>,
                             calls: seq<Event>, frames: seq<Event>, credit: nat, stop: bool)

  ghost function Fresh(last: nat, credit: nat): Gateway {
    Gateway(last, false, [], {}, [], [], credit, false)
  }

  ghost function Emit(g: Gateway, e: Event): Gateway {
    if g.stop then g.(calls := g.calls + [e])
    else if g.credit == 0 then g.(calls := g.calls + [e], stop := true)
    else g.(calls := g.calls + [e], frames := g.frames + [e], credit := g.credit - 1)
  }

  ghost function EmitOnce(g: Gateway, e: Event): Gateway {
    if e.id in g.emitted then g else Emit(g.(emitted := Remember(g.emitted, e.id)), e)
  }

  ghost function EmitAll(g: Gateway, events: seq<Event>): Gateway {
    if events == [] then g else EmitOnce(EmitAll(g, events[..|events| - 1]), events[|events| - 1])
  }

  ghost function OnLive(g: Gateway, e: Event): Gateway {
    if g.attached then EmitOnce(g, e) else g.(pendingLive := g.pendingLive + [e])
  }

  /** One catch-up page: the cursor moves past the page, and past `next` when there is more. */
  ghost function OnPage(g: Gateway, page: Page): Gateway {
    var emitted := EmitAll(g, page.events);
    var seen := MaxId(page.events, g.cursor);
    emitted.(cursor := if page.hasMore && page.next > seen then page.next else seen)
  }

  ghost function OnAttach(g: Gateway, events: seq<Event>): Gateway {
    var replayed := EmitAll(g, events);
    EmitAll(replayed.(attached := true), SortById(g.pendingLive)).(pendingLive := [])
  }

  // ---- the stable sort of the live events held back ----

  function Insert(s: seq<Event>, e: Event): seq<Event> {
    if s == [] || s[|s| - 1].id <= e.id then s + [e]
    else Insert(s[..|s| - 1], e) + [s[|s| - 1]]
  }

  function SortById(s: seq<Event>): seq<Event> {
    if s == [] then [] else Insert(SortById(s[..|s| - 1]), s[|s| - 1])
  }

  lemma {:induction false} SortOfOrdered(s: seq<Event>)
    requires Ordered(s)
    ensures SortById(s) == s
  {
    if s != [] {
      OrderedFront(s);
      SortOfOrdered(s[..|s| - 1]);
    }
  }

  // ---- what a run of emissions amounts to ----

  /** No id in the deduplication set is larger than that of the last event emitted. */
  ghost predicate Topped(g: Gateway) {
    forall x :: x in g.emitted ==> g.calls != [] && x <= g.calls[|g.calls| - 1].id
  }

  /** The frames written are a prefix of the events emitted, all of them unless stopped. */
  ghost predicate FramesLead(g: Gateway) {
    && g.frames <= g.calls
    && (!g.stop ==> g.frames == g.calls)
  }

  ghost predicate OnlyEmitted(g: Gateway, r: Gateway) {
    r == g.(emitted := r.emitted, calls := r.calls, frames := r.frames, credit := r.credit, stop := r.stop)
  }

  lemma EmitOneFresh(g: Gateway, e: Event)
    requires FramesLead(g) && Topped(g)
    requires g.calls != [] ==> g.calls[|g.calls| - 1].id < e.id
    ensures EmitOnce(g, e).calls == g.calls + [e] && OnlyEmitted(g, EmitOnce(g, e))
    ensures FramesLead(EmitOnce(g, e)) && Topped(EmitOnce(g, e))
  {
    assert e.id !in g.emitted;
  }

  /** Events that continue the emitted ones in id order are all emitted, in order. */
  lemma {:induction false} EmitAllFresh(g: Gateway, events: seq<Event>)
    requires Ordered(g.calls + events) && FramesLead(g) && Topped(g)
    ensures EmitAll(g, events).calls == g.calls + events && OnlyEmitted(g, EmitAll(g, events))
    ensures FramesLead(EmitAll(g, events)) && Topped(EmitAll(g, events))
  {
    if events != [] {
      var front, e := events[..|events| - 1], events[|events| - 1];
      assert events == front + [e];
      LastOfOrdered(g.calls, front, e);
      EmitAllFresh(g, front);
      EmitOneFresh(EmitAll(g, front), e);
    }
  }

  lemma LastOfOrdered(calls: seq<Event>, front: seq<Event>, e: Event)
    requires Ordered(calls + (front + [e]))
    ensures calls + (front + [e]) == (calls + front) + [e] && Ordered(calls + front)
    ensures calls + front != [] ==> (calls + front)[|calls + front| - 1].id < e.id
  {
    var all, some := calls + (front + [e]), calls + front;
    assert all == some + [e];
    assert forall i :: 0 <= i < |some| ==> some[i] == all[i];
    if some != [] { assert all[|some| - 1].id < all[|some|].id; }
  }

  lemma {:induction false} EmitAllExtends(g: Gateway, events: seq<Event>)
    ensures g.frames <= EmitAll(g, events).frames
  {
    if events != [] {
      EmitAllExtends(g, events[..|events| - 1]);
    }
  }

  /** As long as the socket takes every frame, each event emitted costs one. */
  lemma EmitSpends(g: Gateway, e: Event)
    requires !g.stop && |EmitOnce(g, e).calls| <= g.credit + |g.calls|
    ensures var r := EmitOnce(g, e); !r.stop && r.credit + |r.calls| == g.credit + |g.calls|
  {
  }

  lemma {:induction false} EmitAllSpends(g: Gateway, events: seq<Event>)
    requires !g.stop && |EmitAll(g, events).calls| <= g.credit + |g.calls|
    ensures var r := EmitAll(g, events); !r.stop && r.credit + |r.calls| == g.credit + |g.calls|
  {
    if events != [] {
      EmitAllSpends(g, events[..|events| - 1]);
      EmitSpends(EmitAll(g, events[..|events| - 1]), events[|events| - 1]);
    }
  }

  // ---- no id near the head is emitted twice ----

  ghost function Ids(events: seq<Event>): seq<nat> {
    seq(|events|, i requires 0 <= i < |events| => events[i].id)
  }

  /** One of the first `n` events emitted is more than 2048 beyond `id`. */
  ghost predicate Passed(calls: seq<Event>, n: nat, id: nat)
    requires n <= |calls|
  {
    exists k :: 0 <= k < n && calls[k].id > id + DEDUPE_KEEP
  }

  /** An id is emitted again only after one more than 2048 beyond it. */
  ghost predicate OnceNearHead(calls: seq<Event>) {
    forall i: nat, j: nat :: i < j < |calls| && calls[i].id == calls[j].id ==> Passed(calls, j, calls[i].id)
  }

  ghost predicate Traced(g: Gateway) {
    g.emitted == Remembered(Ids(g.calls)) && OnceNearHead(g.calls)
  }

  lemma PassedLonger(calls: seq<Event>, n: nat, id: nat, e: Event)
    requires n <= |calls| && Passed(calls, n, id)
    ensures Passed(calls + [e], n, id)
  {
    var k :| 0 <= k < n && calls[k].id > id + DEDUPE_KEEP;
    assert (calls + [e])[k] == calls[k];
  }

  /** An id emitted before but not near the head has been passed. */
  lemma NotNearIsPassed(calls: seq<Event>, i: nat)
    requires i < |calls| && !NearHead(calls[i].id, Ids(calls))
    ensures Passed(calls, |calls|, calls[i].id)
  {
    var ids, id := Ids(calls), calls[i].id;
    assert ids[i] == id;
    var y :| y in ids && y > id + DEDUPE_KEEP;
    var k :| 0 <= k < |ids| && ids[k] == y;
    assert calls[k].id == y;
  }

  lemma OnceMore(calls: seq<Event>, e: Event)
    requires OnceNearHead(calls) && !NearHead(e.id, Ids(calls))
    ensures OnceNearHead(calls + [e])
  {
    var all := calls + [e];
    forall i: nat, j: nat | i < j < |all| && all[i].id == all[j].id ensures Passed(all, j, all[i].id) {
      if j < |calls| {
        assert all[i] == calls[i] && all[j] == calls[j];
      } else {
        assert all[i] == calls[i] && all[j] == e;
        NotNearIsPassed(calls, i);
      }
      PassedLonger(calls, j, calls[i].id, e);
    }
  }

  lemma NewIsNotNear(ids: set<nat>, history: seq<nat>, id: nat)
    requires ids == Remembered(history) && id !in ids
    ensures !NearHead(id, history) && Remember(ids, id) == Remembered(history + [id])
  {
    RememberedNearHead(history);
    assert (history + [id])[..|history|] == history;
  }

  lemma EmitTraced(g: Gateway, e: Event)
    requires Traced(g)
    ensures Traced(EmitOnce(g, e))
  {
    if e.id !in g.emitted {
      NewIsNotNear(g.emitted, Ids(g.calls), e.id);
      OnceMore(g.calls, e);
      assert Ids(g.calls + [e]) == Ids(g.calls) + [e.id];
    }
  }

  lemma {:induction false} EmitAllTraced(g: Gateway, events: seq<Event>)
    requires Traced(g)
    ensures Traced(EmitAll(g, events))
  {
    if events != [] {
      EmitAllTraced(g, events[..|events| - 1]);
      EmitTraced(EmitAll(g, events[..|events| - 1]), events[|events| - 1]);
    }
  }

  /** What can happen to the gateway, in any order and with any contents; `Lost` is its browser gone. */
  datatype Input = OneLive(e: Event) | OnePage(page: Page) | Attach(events: seq<Event>) | Lost

  ghost function Taken(g: Gateway, input: Input): Gateway {
    match input
    case OneLive(e) => OnLive(g, e)
    case OnePage(page) => OnPage(g, page)
    case Attach(events) => OnAttach(g, events)
    case Lost => g.(stop := true)
  }

  ghost function AllTaken(last: nat, credit: nat, inputs: seq<Input>): Gateway {
    if inputs == [] then Fresh(last, credit)
    else Taken(AllTaken(last, credit, inputs[..|inputs| - 1]), inputs[|inputs| - 1])
  }

  /**
    Whatever a gateway is sent, it emits an id a second time only when an id more than 2048
    beyond it has been emitted in between or before: none within 2048 of the largest is doubled.
  */
  lemma {:induction false} NoneTwiceNearHead(last: nat, credit: nat, inputs: seq<Input>)
    ensures Traced(AllTaken(last, credit, inputs))
    ensures OnceNearHead(AllTaken(last, credit, inputs).calls)
  {
    if inputs == [] {
      assert Ids([]) == [];
    } else {
      var g := AllTaken(last, credit, inputs[..|inputs| - 1]);
      NoneTwiceNearHead(last, credit, inputs[..|inputs| - 1]);
      match inputs[|inputs| - 1]
      case OneLive(e) => EmitTraced(g, e);
      case OnePage(page) => EmitAllTraced(g, page.events);
      case Attach(events) =>
        EmitAllTraced(g, events);
        EmitAllTraced(EmitAll(g, events).(attached := true), SortById(g.pendingLive));
      case Lost =>
    }
  }

  /** The closures' state, updated in place. */
  class Stream {
    var cursor: nat
    var attached: bool
    var pendingLive: seq<Event>
    var emitted: set<nat>
    var calls: seq<Event>
    var frames: seq<Event>
    var credit: nat
    var stop: bool

    ghost function State(): Gateway
      reads this
    {
      Gateway(cursor, attached, pendingLive, emitted, calls, frames, credit, stop)
    }

    constructor (last: nat, frameCredit: nat)
      ensures State() == Fresh(last, frameCredit)
    {
      cursor, attached, pendingLive, emitted := last, false, [], {};
      calls, frames, credit, stop := [], [], frameCredit, false;
    }

    method SendFrame(e: Event)
      modifies this
      ensures State() == Emit(old(State()), e)
    {
      calls := calls + [e];
      if stop { return; }
      if credit == 0 {
        stop := true;
      } else {
        frames := frames + [e];
        credit := credit - 1;
      }
    }

    method EmitOnceHere(e: Event)
      modifies this
      ensures State() == EmitOnce(old(State()), e)
    {
      if e.id in emitted { return; }
      emitted := emitted + {e.id};
      if |emitted| > DEDUPE_LIMIT {
        var top := LargestOf(emitted);
        emitted := set x | x in emitted && x >= top - DEDUPE_KEEP;
      }
      SendFrame(e);
    }

    method EmitEach(events: seq<Event>)
      modifies this
      ensures State() == EmitAll(old(State()), events)
    {
      for i := 0 to |events|
        invariant State() == EmitAll(old(State()), events[..i])
      {
        EmitOnceHere(events[i]);
        assert events[..i + 1][..i] == events[..i];
      }
      assert events[..|events|] == events;
    }

    method HandleLive(e: Event)
      modifies this
      ensures State() == OnLive(old(State()), e)
    {
      if !attached {
        pendingLive := pendingLive + [e];
        return;
      }
      EmitOnceHere(e);
    }

    method HandlePage(page: Page)
      modifies this
      ensures State() == OnPage(old(State()), page)
    {
      for i := 0 to |page.events|
        invariant State() == EmitAll(old(State()), page.events[..i]).(cursor := MaxId(page.events[..i], old(cursor)))
      {
        var e := page.events[i];
        PageStep(old(State()), page.events, i, old(cursor));
        EmitIgnoresCursor(EmitAll(old(State()), page.events[..i]), e, cursor);
        EmitOnceHere(e);
        cursor := if e.id > cursor then e.id else cursor;
      }
      assert page.events[..|page.events|] == page.events;
      if page.hasMore && page.next > cursor {
        cursor := page.next;
      }
    }

    method HandleAttach(events: seq<Event>)
      modifies this
      ensures State() == OnAttach(old(State()), events)
    {
      ghost var held := pendingLive;
      EmitEach(events);
      EmitAllKeeps(old(State()), events);
      attached := true;
      EmitEach(SortById(pendingLive));
      pendingLive := [];
    }
  }

  lemma PageStep(g: Gateway, events: seq<Event>, i: nat, least: nat)
    requires i < |events|
    ensures EmitAll(g, events[..i + 1]) == EmitOnce(EmitAll(g, events[..i]), events[i])
    ensures var m := MaxId(events[..i], least);
            MaxId(events[..i + 1], least) == if events[i].id > m then events[i].id else m
  {
    assert events[..i + 1][..i] == events[..i];
  }

  lemma EmitIgnoresCursor(g: Gateway, e: Event, c: nat)
    ensures EmitOnce(g.(cursor := c), e) == EmitOnce(g, e).(cursor := c)
  {
  }

  lemma {:induction false} EmitAllKeeps(g: Gateway, events: seq<Event>)
    ensures EmitAll(g, events).pendingLive == g.pendingLive
    ensures EmitAll(g, events).cursor == g.cursor
    ensures EmitAll(g, events).attached == g.attached
  {
    if events != [] {
      EmitAllKeeps(g, events[..|events| - 1]);
    }
  }

  method LargestOf(ids: set<nat>) returns (m: nat)
    requires ids != {}
    ensures m == Greatest(ids)
  {
    m :| m in ids;
    var rest := ids - {m};
    while rest != {}
      invariant m in ids && rest <= ids
      invariant forall x :: x in ids && x !in rest ==> x <= m
      decreases |rest|
    {
      var x :| x in rest;
      rest := rest - {x};
      if x > m { m := x; }
    }
  }
}
