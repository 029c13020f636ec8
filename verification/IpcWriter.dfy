/**
  The daemon's client writer: it drains a client's queue in batches, one socket write per
  batch, and the client reads the byte stream back line by line.
*/
module IpcWriter {

  const BATCH_MESSAGES := 32
  const BATCH_BYTES := 512 * 1024
  const NEWLINE: Byte := 10

  /** The longest line, without its newline, that a stream reader of the standard library hands out. */
  const LINE_LIMIT := 65536

  type Byte = b: int | 0 <= b < 256

  type Bytes = seq<Byte>

  /** An encoded message: one JSON line, in which only the last byte is a newline. */
  ghost predicate IsLine(m: Bytes) {
    m != [] && m[|m| - 1] == NEWLINE && forall i :: 0 <= i < |m| - 1 ==> m[i] != NEWLINE
  }

  function Join(messages: seq<Bytes>): Bytes {
    if messages == [] then [] else Join(messages[..|messages| - 1]) + messages[|messages| - 1]
  }

  function Total(messages: seq<Bytes>): nat {
    |Join(messages)|
  }

  lemma Reassociate<T>(a: seq<T>, b: seq<T>, c: seq<T>)
    ensures a + (b + c) == (a + b) + c
  {
  }

  lemma {:induction false} JoinAppend(a: seq<Bytes>, b: seq<Bytes>)
    ensures Join(a + b) == Join(a) + Join(b)
  {
    if b == [] {
      assert a + b == a;
    } else {
      assert (a + b)[..|a + b| - 1] == a + b[..|b| - 1];
      JoinAppend(a, b[..|b| - 1]);
      Reassociate(Join(a), Join(b[..|b| - 1]), b[|b| - 1]);
    }
  }

  lemma TotalSnoc(messages: seq<Bytes>, m: Bytes)
    ensures Total(messages + [m]) == Total(messages) + |m|
  {
    assert (messages + [m])[..|messages|] == messages;
  }

  // ---- the client's line reader ----

  /** A message the reader hands out; on a longer one it raises, and the connection ends. */
  predicate Fits(m: Bytes) {
    |m| <= LINE_LIMIT + 1
  }

  /** The messages before the first that does not fit. */
  function BeforeOverlong(messages: seq<Bytes>): (r: seq<Bytes>)
    ensures r <= messages
  {
    if messages == [] || !Fits(messages[0]) then [] else [messages[0]] + BeforeOverlong(messages[1..])
  }

  /** A reader over the bytes received so far: what it has handed out, and whether it has given up. */
  datatype Reader = Reader(lines: seq<Bytes>, partial: Bytes, failed: bool)

  /** One more byte arrives. Without a newline too many bytes fail the read as a too long line does. */
  function Arrive(r: Reader, b: Byte): Reader {
    if r.failed then r
    else if b == NEWLINE then Reader(r.lines + [r.partial + [b]], [], false)
    else if |r.partial| >= LINE_LIMIT then r.(failed := true)
    else r.(partial := r.partial + [b])
  }

  function Read(data: Bytes): Reader {
    if data == [] then Reader([], [], false) else Arrive(Read(data[..|data| - 1]), data[|data| - 1])
  }

  lemma {:induction false} FailedStays(data: Bytes, more: Bytes)
    requires Read(data).failed
    ensures Read(data + more) == Read(data)
  {
    if more == [] {
      assert data + more == data;
    } else {
      assert (data + more)[..|data + more| - 1] == data + more[..|more| - 1];
      FailedStays(data, more[..|more| - 1]);
    }
  }

  lemma {:induction false} ReadPart(data: Bytes, part: Bytes)
    requires Read(data).partial == [] && !Read(data).failed && forall i :: 0 <= i < |part| ==> part[i] != NEWLINE
    ensures var r := Read(data + part);
            r.lines == Read(data).lines && r.failed == (|part| > LINE_LIMIT) && (!r.failed ==> r.partial == part)
  {
    if part == [] {
      assert data + part == data;
    } else {
      var front := part[..|part| - 1];
      ReadPart(data, front);
      assert (data + part)[..|data + part| - 1] == data + front;
      assert front + [part[|part| - 1]] == part;
    }
  }

  lemma ReadLine(data: Bytes, line: Bytes)
    requires Read(data).partial == [] && !Read(data).failed && IsLine(line)
    ensures var r := Read(data + line);
            if Fits(line) then r == Reader(Read(data).lines + [line], [], false)
            else r.failed && r.lines == Read(data).lines
  {
    var front := line[..|line| - 1];
    assert line == front + [NEWLINE];
    ReadPart(data, front);
    Reassociate(data, front, [NEWLINE]);
    assert ((data + front) + [NEWLINE])[..|data + front|] == data + front;
  }

  lemma {:induction false} BeforeOverlongSnoc(messages: seq<Bytes>, m: Bytes)
    ensures BeforeOverlong(messages + [m])
         == if BeforeOverlong(messages) == messages && Fits(m) then messages + [m] else BeforeOverlong(messages)
  {
    if messages == [] {
      assert [] + [m] == [m] && [m][1..] == [];
    } else {
      assert (messages + [m])[1..] == messages[1..] + [m];
      BeforeOverlongSnoc(messages[1..], m);
      assert messages == [messages[0]] + messages[1..];
      if BeforeOverlong(messages) == messages { assert BeforeOverlong(messages)[1..] == messages[1..]; }
    }
  }

  lemma {:induction false} AllFit(messages: seq<Bytes>)
    ensures BeforeOverlong(messages) == messages <==> forall m :: m in messages ==> Fits(m)
  {
    if messages != [] {
      AllFit(messages[1..]);
      assert messages == [messages[0]] + messages[1..];
      if BeforeOverlong(messages) == messages { assert BeforeOverlong(messages)[1..] == messages[1..]; }
    }
  }

  /** Reading what was joined gives the messages before the first over-long one, and fails at that one. */
  lemma {:induction false} ReadBack(messages: seq<Bytes>)
    requires forall m :: m in messages ==> IsLine(m)
    ensures var r := Read(Join(messages));
            && r.lines == BeforeOverlong(messages)
            && (r.failed <==> BeforeOverlong(messages) != messages)
            && (!r.failed ==> r.partial == [])
  {
    if messages != [] {
      var front, m := messages[..|messages| - 1], messages[|messages| - 1];
      assert messages == front + [m];
      ReadBack(front);
      BeforeOverlongSnoc(front, m);
      assert BeforeOverlong(messages) == messages ==> BeforeOverlong(front) == front && Fits(m);
      if Read(Join(front)).failed { FailedStays(Join(front), m); } else { ReadLine(Join(front), m); }
    }
  }

  /** All of them are read, and the connection stays up, if and only if every one fits. */
  lemma AllReadExactlyWhen(messages: seq<Bytes>)
    requires forall m :: m in messages ==> IsLine(m)
    ensures var r := Read(Join(messages)); r.lines == messages && !r.failed <==> forall m :: m in messages ==> Fits(m)
  {
    ReadBack(messages);
    AllFit(messages);
  }

  ghost function Long(n: nat): Bytes {
    seq(n, _ => 32) + [NEWLINE]
  }

  /** A line of 65537 bytes is not read, nor is anything after it. */
  lemma OverlongEndsTheConnection(short: Bytes)
    requires IsLine(short) && Fits(short)
    ensures IsLine(Long(65537)) && Read(Join([short, Long(65537), short])) == Read(Join([short, Long(65537)]))
    ensures Read(Join([short, Long(65537)])).lines == [short] && Read(Join([short, Long(65537)])).failed
  {
    var a, b := [short, Long(65537)], [short, Long(65537), short];
    assert a[..1] == [short] && a[1..] == [Long(65537)] && b[..2] == a;
    ReadBack(a);
    assert BeforeOverlong(a) == [short];
    FailedStays(Join(a), short);
  }

  /** The queue with the socket it is drained into. */
  class Writer {
    var queue: seq<Bytes>
    var socket: Bytes
    ghost var taken: seq<Bytes>

    ghost predicate Valid()
      reads this
    {
      socket == Join(taken)
    }

    /** The queued messages are never reordered, merged or lost on the way to the socket. */
    ghost function Messages(): seq<Bytes>
      reads this
    {
      taken + queue
    }

    constructor ()
      ensures Valid() && Messages() == []
    {
      queue, socket, taken := [], [], [];
    }

    method Put(m: Bytes)
      requires Valid()
      modifies this`queue
      ensures Valid() && Messages() == old(Messages()) + [m] && taken == old(taken)
    {
      queue := queue + [m];
    }

    /** The inner loop: what is queued already, up to the limits. */
    method TakeBatch() returns (batch: seq<Bytes>)
      requires queue != []
      modifies this`queue
      ensures old(queue) == batch + queue
      ensures 1 <= |batch| <= BATCH_MESSAGES
      ensures |batch| > 1 ==> Total(batch[..|batch| - 1]) < BATCH_BYTES
      ensures queue == [] || |batch| == BATCH_MESSAGES || Total(batch) >= BATCH_BYTES
    {
      batch := [queue[0]];
      queue := queue[1..];
      TotalSnoc([], batch[0]);
      assert [] + [batch[0]] == batch;
      var bytes := |batch[0]|;
      while |batch| < BATCH_MESSAGES && bytes < BATCH_BYTES
        invariant old(queue) == batch + queue && 1 <= |batch| <= BATCH_MESSAGES
        invariant bytes == Total(batch)
        invariant |batch| > 1 ==> Total(batch[..|batch| - 1]) < BATCH_BYTES
        decreases |queue|
      {
        if queue == [] { break; }
        var item := queue[0];
        queue := queue[1..];
        TotalSnoc(batch, item);
        assert (batch + [item])[..|batch|] == batch;
        batch := batch + [item];
        bytes := bytes + |item|;
      }
    }

    /** One round of the writer loop, from a non-empty queue. */
    method WriteBatch() returns (ghost batch: seq<Bytes>)
      requires Valid() && queue != []
      modifies this
      ensures Valid() && Messages() == old(Messages())
      ensures taken == old(taken) + batch && old(queue) == batch + queue
      ensures 1 <= |batch| <= BATCH_MESSAGES
      ensures |batch| > 1 ==> Total(batch[..|batch| - 1]) < BATCH_BYTES
      ensures queue == [] || |batch| == BATCH_MESSAGES || Total(batch) >= BATCH_BYTES
    {
      var round := TakeBatch();
      JoinAppend(taken, round);
      Reassociate(taken, round, queue);
      socket := socket + Join(round);
      taken := taken + round;
      batch := round;
    }
  }

  /**
    However the queue was cut into batches, the client reads the same message sequence: all of
    it as long as every message fits, and else the messages before the first that does not.
  */
  lemma BatchingIsInvisible(w: Writer)
    requires w.Valid() && forall m :: m in w.taken ==> IsLine(m)
    ensures Read(w.socket).lines == BeforeOverlong(w.taken)
    ensures Read(w.socket).lines == w.taken && !Read(w.socket).failed <==> forall m :: m in w.taken ==> Fits(m)
  {
    ReadBack(w.taken);
    AllReadExactlyWhen(w.taken);
  }
}
