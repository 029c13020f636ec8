/**
  The daemon's write side: rows are inserted, then each is offered to every subscribed
  client's bounded queue. A full queue costs the client its connection, never an event.
*/
module DaemonLedger {
  import opened EventLedger
  import opened StreamProtocol

  type ClientId = nat

  /** A client's queue; `cut` once its connection was closed for being full. */
  datatype Channel = Channel(queue: seq<Msg>, cut: bool)

  ghost function Offer(ch: Channel, e: Event): Channel {
    if ch.cut then ch
    else if |ch.queue| < QUEUE then ch.(queue := ch.queue + [Live(e)])
    else ch.(cut := true)
  }

  ghost function OfferAll(ch: Channel, events: seq<Event>): Channel {
    if events == [] then ch else Offer(OfferAll(ch, events[..|events| - 1]), events[|events| - 1])
  }

  /** The queue a stream's connection sees is the daemon's channel for it. */
  lemma {:induction false} OfferIsBroadcast(c: Conn, events: seq<Event>)
    requires c.subscribed && forall e :: e in events ==> e.session == c.sid
    ensures var r := BroadcastAll(c, events);
            && Channel(r.queue, r.cut) == OfferAll(Channel(c.queue, c.cut), events)
            && r == c.(queue := r.queue, cut := r.cut, sent := r.sent)
  {
    if events != [] {
      OfferIsBroadcast(c, events[..|events| - 1]);
    }
  }

  /** A queue never exceeds its bound, and holds the offered events until the first that did not fit. */
  lemma {:induction false} OfferedPrefix(ch: Channel, events: seq<Event>)
    requires |ch.queue| <= QUEUE
    ensures var r := OfferAll(ch, events);
            && |r.queue| <= QUEUE
            && (ch.cut ==> r == ch)
            && (!ch.cut ==> exists k ::
                  0 <= k <= |events| && r == Channel(ch.queue + AsLive(events[..k]), k < |events|)
                  && (k < |events| ==> |r.queue| == QUEUE))
  {
    if events == [] {
      assert ch.queue + AsLive(events[..0]) == ch.queue;
    } else {
      var n := |events|;
      var front := events[..n - 1];
      OfferedPrefix(ch, front);
      if !ch.cut {
        var k :| 0 <= k <= n - 1 && OfferAll(ch, front) == Channel(ch.queue + AsLive(front[..k]), k < n - 1)
                 && (k < n - 1 ==> |OfferAll(ch, front).queue| == QUEUE);
        assert front[..k] == events[..k];
        if k == n - 1 && |OfferAll(ch, front).queue| < QUEUE {
          assert events[..n] == front + [events[n - 1]];
          LiveAppend(front, events[n - 1]);
          assert front[..k] == front;
          assert OfferAll(ch, events) == Channel(ch.queue + AsLive(events[..n]), n < n);
        } else {
          assert OfferAll(ch, events) == Channel(ch.queue + AsLive(events[..k]), k < n);
        }
      }
    }
  }

  class Daemon {
    var log: seq<Event>
    var lastRow: nat
    var subscribers: map<Session, set<ClientId>>
    var channels: map<ClientId, Channel>

    ghost predicate Valid()
      reads this
    {
      && Ordered(log)
      && (forall i :: 0 <= i < |log| ==> 0 < log[i].id <= lastRow)
      && (forall sid :: sid in subscribers ==> subscribers[sid] <= channels.Keys)
    }

    function SubscribersOf(sid: Session): set<ClientId>
      reads this
    {
      if sid in subscribers then subscribers[sid] else {}
    }

    constructor ()
      ensures Valid() && log == [] && channels == map[]
    {
      log, lastRow, subscribers, channels := [], 0, map[], map[];
    }

    method BroadcastEvent(e: Event)
      requires Valid()
      modifies this`channels
      ensures Valid() && channels.Keys == old(channels.Keys)
      ensures forall k :: k in channels ==>
                channels[k] == if k in SubscribersOf(e.session) then Offer(old(channels)[k], e) else old(channels)[k]
    {
      var rest := SubscribersOf(e.session);
      while rest != {}
        invariant rest <= SubscribersOf(e.session) <= channels.Keys == old(channels.Keys)
        invariant forall k :: k in channels ==>
                    channels[k] == if k in SubscribersOf(e.session) && k !in rest
                                   then Offer(old(channels)[k], e) else old(channels)[k]
        decreases |rest|
      {
        var k :| k in rest;
        var ch := channels[k];
        if !ch.cut {
          channels := channels[k := if |ch.queue| < QUEUE then ch.(queue := ch.queue + [Live(e)])
                                    else ch.(cut := true)];
        }
        rest := rest - {k};
      }
    }

    /** All rows are inserted before the first is broadcast; one step of the event loop. */
    method RecordEvents(sid: Session, bodies: seq<string>) returns (events: seq<Event>)
      requires Valid()
      modifies this`log, this`lastRow, this`channels
      ensures Valid() && log == old(log) + events && channels.Keys == old(channels.Keys)
      ensures |events| == |bodies|
      ensures forall i :: 0 <= i < |events| ==> events[i].session == sid && events[i].body == bodies[i]
      ensures forall k :: k in channels ==>
                channels[k] == if k in SubscribersOf(sid) then OfferAll(old(channels)[k], events) else old(channels)[k]
    {
      events := [];
      for i := 0 to |bodies|
        invariant Valid() && channels == old(channels)
        invariant |events| == i && log == old(log) + events
        invariant forall j :: 0 <= j < i ==> events[j].session == sid && events[j].body == bodies[j]
      {
        lastRow := lastRow + 1;
        var e := Event(lastRow, sid, bodies[i]);
        log := log + [e];
        events := events + [e];
      }
      for i := 0 to |events|
        invariant Valid() && channels.Keys == old(channels.Keys) && log == old(log) + events
        invariant forall k :: k in channels ==>
                    channels[k] == if k in SubscribersOf(sid) then OfferAll(old(channels)[k], events[..i])
                                   else old(channels)[k]
      {
        assert events[..i + 1][..i] == events[..i];
        BroadcastEvent(events[i]);
      }
      assert events[..|events|] == events;
    }
  }
}
