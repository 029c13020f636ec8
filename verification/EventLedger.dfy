/**
  The daemon's event ledger: one append-only table of events whose row ids only grow,
  shared by all sessions, and the bounded page read that replay is built on.
*/
module EventLedger {

  type Session = string

  datatype Event = Event(id: nat, session: Session, body: string)

  /** Row ids strictly increase along the ledger. */
  ghost predicate Ordered(log: seq<Event>) {
    forall i, j :: 0 <= i < j < |log| ==> log[i].id < log[j].id
  }

  lemma OrderedFront(s: seq<Event>)
    requires Ordered(s) && s != []
    ensures Ordered(s[..|s| - 1]) && s == s[..|s| - 1] + [s[|s| - 1]]
    ensures |s| > 1 ==> s[..|s| - 1][|s| - 2].id < s[|s| - 1].id
  {
  }

  /** The entries of one session, in ledger order. */
  function OfSession(log: seq<Event>, sid: Session): seq<Event> {
    if log == [] then []
    else OfSession(log[..|log| - 1], sid) + (if log[|log| - 1].session == sid then [log[|log| - 1]] else [])
  }

  /** The entries whose id exceeds `after`. */
  function Above(log: seq<Event>, after: nat): seq<Event> {
    if log == [] then []
    else Above(log[..|log| - 1], after) + (if log[|log| - 1].id > after then [log[|log| - 1]] else [])
  }

  /** What a reader whose cursor is `after` has still to see of session `sid`. */
  function Since(log: seq<Event>, sid: Session, after: nat): seq<Event> {
    Above(OfSession(log, sid), after)
  }

  lemma {:induction false} OfSessionMembers(log: seq<Event>, sid: Session)
    ensures forall e :: e in OfSession(log, sid) <==> e in log && e.session == sid
  {
    if log != [] {
      OfSessionMembers(log[..|log| - 1], sid);
      assert log == log[..|log| - 1] + [log[|log| - 1]];
    }
  }

  lemma {:induction false} AboveMembers(log: seq<Event>, after: nat)
    ensures forall e :: e in Above(log, after) <==> e in log && e.id > after
  {
    if log != [] {
      AboveMembers(log[..|log| - 1], after);
      assert log == log[..|log| - 1] + [log[|log| - 1]];
    }
  }

  /** Exactly the session's entries beyond the cursor are unseen. */
  lemma SinceMembers(log: seq<Event>, sid: Session, after: nat)
    ensures forall e :: e in Since(log, sid, after) <==> e in log && e.session == sid && e.id > after
  {
    OfSessionMembers(log, sid);
    AboveMembers(OfSession(log, sid), after);
  }

  lemma SinceOfOne(e: Event, sid: Session, after: nat)
    ensures OfSession([e], sid) == if e.session == sid then [e] else []
    ensures Since([e], sid, after) == if e.session == sid && e.id > after then [e] else []
  {
    assert [e][..0] == [] && OfSession([], sid) == [] && Above([], after) == [];
  }

  lemma {:induction false} OfSessionAppend(log: seq<Event>, more: seq<Event>, sid: Session)
    ensures OfSession(log + more, sid) == OfSession(log, sid) + OfSession(more, sid)
  {
    if more == [] {
      assert log + more == log;
    } else {
      assert (log + more)[..|log + more| - 1] == log + more[..|more| - 1];
      OfSessionAppend(log, more[..|more| - 1], sid);
    }
  }

  lemma {:induction false} AboveAppend(log: seq<Event>, more: seq<Event>, after: nat)
    ensures Above(log + more, after) == Above(log, after) + Above(more, after)
  {
    if more == [] {
      assert log + more == log;
    } else {
      assert (log + more)[..|log + more| - 1] == log + more[..|more| - 1];
      AboveAppend(log, more[..|more| - 1], after);
    }
  }

  lemma SinceAppend(log: seq<Event>, more: seq<Event>, sid: Session, after: nat)
    ensures Since(log + more, sid, after) == Since(log, sid, after) + Since(more, sid, after)
  {
    OfSessionAppend(log, more, sid);
    AboveAppend(OfSession(log, sid), OfSession(more, sid), after);
  }

  lemma {:induction false} OfSessionOrdered(log: seq<Event>, sid: Session)
    requires Ordered(log)
    ensures Ordered(OfSession(log, sid))
  {
    if log != [] {
      var front := log[..|log| - 1];
      OfSessionOrdered(front, sid);
      OfSessionMembers(front, sid);
    }
  }

  lemma {:induction false} AboveOrdered(log: seq<Event>, after: nat)
    requires Ordered(log)
    ensures Ordered(Above(log, after))
  {
    if log != [] {
      AboveOrdered(log[..|log| - 1], after);
      AboveMembers(log[..|log| - 1], after);
    }
  }

  lemma SinceOrdered(log: seq<Event>, sid: Session, after: nat)
    requires Ordered(log)
    ensures Ordered(Since(log, sid, after))
  {
    OfSessionOrdered(log, sid);
    AboveOrdered(OfSession(log, sid), after);
  }

  lemma {:induction false} AboveAll(log: seq<Event>, after: nat)
    requires forall i :: 0 <= i < |log| ==> log[i].id > after
    ensures Above(log, after) == log
  {
    if log != [] {
      var front := log[..|log| - 1];
      assert log == front + [log[|log| - 1]];
      AboveAll(front, after);
    }
  }

  lemma {:induction false} AboveNone(log: seq<Event>, after: nat)
    requires forall i :: 0 <= i < |log| ==> log[i].id <= after
    ensures Above(log, after) == []
  {
    if log != [] {
      AboveNone(log[..|log| - 1], after);
    }
  }

  lemma {:induction false} AboveTwice(log: seq<Event>, low: nat, high: nat)
    requires low <= high
    ensures Above(Above(log, low), high) == Above(log, high)
  {
    if log != [] {
      var front := log[..|log| - 1];
      var lastly := log[|log| - 1];
      AboveTwice(front, low, high);
      AboveAppend(Above(front, low), if lastly.id > low then [lastly] else [], high);
    }
  }

  lemma {:induction false} AboveSuffix(s: seq<Event>, k: nat)
    requires Ordered(s) && 0 < k <= |s|
    ensures Above(s, s[k - 1].id) == s[k..]
  {
    var front := s[..|s| - 1];
    if k == |s| {
      AboveNone(s, s[k - 1].id);
    } else {
      AboveSuffix(front, k);
      assert s[k..] == front[k..] + [s[|s| - 1]];
    }
  }

  /** Moving the cursor past the first `k` unseen entries leaves exactly the others. */
  lemma SinceDrop(log: seq<Event>, sid: Session, after: nat, k: nat)
    requires Ordered(log) && 0 < k <= |Since(log, sid, after)|
    ensures after < Since(log, sid, after)[k - 1].id
    ensures Since(log, sid, Since(log, sid, after)[k - 1].id) == Since(log, sid, after)[k..]
  {
    var all := Since(log, sid, after);
    SinceOrdered(log, sid, after);
    SinceMembers(log, sid, after);
    assert all[k - 1] in all;
    AboveTwice(OfSession(log, sid), after, all[k - 1].id);
    AboveSuffix(all, k);
  }

  lemma OrderedParts(x: seq<Event>, y: seq<Event>, x': seq<Event>, y': seq<Event>)
    requires Ordered(x + y) && x' <= x && y' <= y
    ensures Ordered(x' + y') && Ordered(x) && Ordered(y)
  {
    var all, few := x + y, x' + y';
    forall i | 0 <= i < |few|
      ensures few[i] == all[if i < |x'| then i else |x| + i - |x'|]
    {
    }
    forall i, j | 0 <= i < j < |x| ensures x[i].id < x[j].id {
      assert all[i].id < all[j].id;
    }
    forall i, j | 0 <= i < j < |y| ensures y[i].id < y[j].id {
      assert all[|x| + i].id < all[|x| + j].id;
    }
    forall i, j | 0 <= i < j < |few| ensures few[i].id < few[j].id {
      var p := if i < |x'| then i else |x| + i - |x'|;
      var q := if j < |x'| then j else |x| + j - |x'|;
      assert all[p].id < all[q].id;
    }
  }

  /** What a reader had to see at a cut, followed by all that was written after it. */
  lemma SplitOrdered(before: seq<Event>, after: seq<Event>, sid: Session, low: nat)
    requires Ordered(before + after)
    ensures Ordered(Since(before, sid, low) + OfSession(after, sid))
  {
    OrderedParts(before, after, before, after);
    SinceOrdered(before, sid, low);
    OfSessionOrdered(after, sid);
    SinceMembers(before, sid, low);
    OfSessionMembers(after, sid);
    var x, y := Since(before, sid, low), OfSession(after, sid);
    forall i, j | 0 <= i < |x| && 0 <= j < |y| ensures x[i].id < y[j].id {
      assert x[i] in x && y[j] in y;
      var p :| 0 <= p < |before| && before[p] == x[i];
      var q :| 0 <= q < |after| && after[q] == y[j];
      assert (before + after)[p].id < (before + after)[|before| + q].id;
    }
  }

  // ---- the bounded read ----

  datatype Page = Page(events: seq<Event>, hasMore: bool, next: nat)

  function MaxId(events: seq<Event>, least: nat): nat {
    if events == [] then least
    else
      var m := MaxId(events[..|events| - 1], least);
      if events[|events| - 1].id > m then events[|events| - 1].id else m
  }

  function First(s: seq<Event>, n: nat): seq<Event> {
    if |s| <= n then s else s[..n]
  }

  function EventsSince(log: seq<Event>, sid: Session, last: nat, limit: nat): Page {
    var unseen := Since(log, sid, last);
    Page(First(unseen, limit), |unseen| > limit, MaxId(First(unseen, limit), last))
  }

  /** In an ordered list the greatest id is the last one. */
  lemma {:induction false} MaxIdIsLast(events: seq<Event>, least: nat)
    requires Ordered(events) && (events != [] ==> events[0].id > least)
    ensures MaxId(events, least) == if events == [] then least else events[|events| - 1].id
  {
    if events != [] {
      MaxIdIsLast(events[..|events| - 1], least);
    }
  }

  /**
    A page is the next stretch of the unseen entries, its `next` cursor sees exactly the
    rest, and `hasMore` tells whether there is a rest.
  */
  lemma PageSplitsUnseen(log: seq<Event>, sid: Session, last: nat, limit: nat)
    requires Ordered(log) && limit > 0
    ensures var page := EventsSince(log, sid, last, limit);
            && last <= page.next
            && |page.events| <= limit
            && Since(log, sid, last) == page.events + Since(log, sid, page.next)
            && (page.hasMore <==> Since(log, sid, page.next) != [])
  {
    var unseen := Since(log, sid, last);
    var k := if |unseen| <= limit then |unseen| else limit;
    assert First(unseen, limit) == unseen[..k];
    PageNext(log, sid, last, k);
    if k > 0 {
      SinceDrop(log, sid, last, k);
    }
    assert unseen == unseen[..k] + unseen[k..];
  }

  lemma PageNext(log: seq<Event>, sid: Session, last: nat, k: nat)
    requires Ordered(log) && k <= |Since(log, sid, last)|
    ensures MaxId(Since(log, sid, last)[..k], last) == if k == 0 then last else Since(log, sid, last)[k - 1].id
  {
    var unseen := Since(log, sid, last);
    SinceOrdered(log, sid, last);
    SinceMembers(log, sid, last);
    if k > 0 {
      assert unseen[0] in unseen;
      MaxIdIsLast(unseen[..k], last);
    }
  }

  /** The row loop of `_get_events_since` over a query fetching one row more than asked for. */
  method GetEventsSince(log: seq<Event>, sid: Session, last: nat, limit: nat) returns (page: Page)
    ensures page == EventsSince(log, sid, last, limit)
  {
    var rows := First(Since(log, sid, last), limit + 1);
    var kept := First(rows, limit);
    assert kept == First(Since(log, sid, last), limit);
    var events: seq<Event> := [];
    var next := last;
    for i := 0 to |kept|
      invariant events == kept[..i]
      invariant next == MaxId(events, last)
    {
      ghost var before := events;
      events := events + [kept[i]];
      assert events[..|events| - 1] == before;
      next := if kept[i].id > next then kept[i].id else next;
    }
    assert events == kept;
    page := Page(events, |rows| > limit, next);
  }
}
