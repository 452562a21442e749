/**
 The two ends of an in-process channel and the channel on top of one of them
 (transport_inprocess.cpp, channel.cpp), method by method. `IpcSystem` covers the interleavings;
 here one thread runs at a time, and what the other threads do while `read` waits is a script.
 */
module IpcChannel {
  import opened Bytes
  import opened IpcFraming

  /** What a waiting reader can be woken by: the peer writes a chunk, or this end is closed. */
  datatype Arrival = Chunk(data: seq<byte>) | Closed

  function Arriving(script: seq<Arrival>): seq<byte>
  {
    if script == [] then []
    else (if script[0].Chunk? then script[0].data else []) + Arriving(script[1..])
  }

  class Pipe {
    var queue: seq<seq<byte>>
    var closed: bool

    constructor ()
      ensures queue == [] && !closed
    {
      queue, closed := [], false;
    }
  }

  /** `Starved`: the reader waits for ever, because the script has ended and the pipe is open. */
  datatype Outcome = Full | Disconnected | Starved

  class Transport {
    const rx: Pipe
    const tx: Pipe
    var connected: bool
    var current: seq<byte>
    var currentPos: nat

    ghost predicate Valid()
      reads this
    {
      rx != tx && currentPos <= |current|
    }

    /** The bytes a read can still get without waiting. */
    ghost function Pending(): seq<byte>
      requires Valid()
      reads this, rx
    {
      current[currentPos..] + Concat(rx.queue)
    }

    constructor (rx: Pipe, tx: Pipe)
      requires rx != tx
      ensures Valid() && this.rx == rx && this.tx == tx && connected && currentPos == |current|
    {
      this.rx, this.tx := rx, tx;
      connected, current, currentPos := true, [], 0;
    }

    /** A write is queued whole or discarded whole, and after one is discarded all are. */
    method Write(data: seq<byte>)
      requires Valid()
      modifies this`connected, tx`queue
      ensures Valid()
      ensures tx.queue == if old(connected) && !tx.closed then old(tx.queue) + [data] else old(tx.queue)
      ensures connected == (old(connected) && !tx.closed)
    {
      if !connected {
        return;
      }
      if tx.closed {
        connected := false;
        return;
      }
      tx.queue := tx.queue + [data];
    }

    method Close()
      requires Valid()
      modifies this`connected, rx`closed
      ensures Valid() && !connected
      ensures rx.closed == (old(rx.closed) || old(connected))
    {
      if !connected {
        return;
      }
      connected := false;
      rx.closed := true;
    }

    /** The condition-variable wait: until the queue is non-empty or the pipe is closed. */
    method Wait(script: seq<Arrival>) returns (rest: seq<Arrival>)
      requires Valid()
      modifies this`connected, rx
      ensures Valid()
      ensures Concat(rx.queue) + Arriving(rest) == old(Concat(rx.queue)) + Arriving(script)
      ensures rx.queue != [] || rx.closed || rest == []
      ensures |rest| + |rx.queue| <= |script| + |old(rx.queue)|
      ensures rx.queue != [] || !rx.closed ==> connected == old(connected)
    {
      rest := script;
      while rx.queue == [] && !rx.closed && rest != []
        invariant Valid()
        invariant |rest| + |rx.queue| <= |script| + |old(rx.queue)|
        invariant Concat(rx.queue) + Arriving(rest) == old(Concat(rx.queue)) + Arriving(script)
        invariant rx.queue != [] || !rx.closed ==> connected == old(connected)
        decreases rest
      {
        match rest[0] {
          case Chunk(data) =>
            rx.queue := rx.queue + [data];
            ConcatSingle(data);
          case Closed =>
            connected := false;
            rx.closed := true;
        }
        rest := rest[1..];
      }
    }

    /** Copies what the chunk still holds, as far as the buffer goes. */
    method TakeFromChunk(buf: array<byte>, total: nat) returns (total': nat)
      requires Valid() && total < buf.Length && currentPos < |current|
      modifies this`currentPos, buf
      ensures Valid() && total < total' <= buf.Length
      ensures buf[..total'] + Pending() == old(buf[..total] + Pending())
    {
      var avail := |current| - currentPos;
      var n := if avail < buf.Length - total then avail else buf.Length - total;
      ghost var old0, chunk, queued := buf[..total], current[currentPos..], Concat(rx.queue);
      forall i | 0 <= i < n {
        buf[total + i] := current[currentPos + i];
      }
      currentPos := currentPos + n;
      total' := total + n;
      hide Concat;
      assert buf[..total'] == old0 + chunk[..n];
      assert current[currentPos..] == chunk[n..];
      assert old0 + (chunk + queued) == (old0 + chunk[..n]) + (chunk[n..] + queued);
    }

    method NextChunk()
      requires Valid() && currentPos == |current| && rx.queue != []
      modifies this`current, this`currentPos, rx`queue
      ensures Valid() && |rx.queue| == |old(rx.queue)| - 1 && Pending() == old(Pending())
    {
      current := rx.queue[0];
      currentPos := 0;
      rx.queue := rx.queue[1..];
    }

    /** The second half of an iteration of `read`: waits, and moves the next chunk to the front if there is one. */
    method Refill(script: seq<Arrival>) returns (rest: seq<Arrival>, found: bool)
      requires Valid() && currentPos == |current|
      modifies this`connected, this`current, this`currentPos, rx
      ensures Valid()
      ensures Pending() + Arriving(rest) == old(Pending()) + Arriving(script)
      ensures found ==> |rest| + |rx.queue| < |script| + |old(rx.queue)| && connected == old(connected)
      ensures !found ==> Pending() == [] && if rx.closed then !connected else rest == []
    {
      hide Arriving, Concat;
      NoFront(current, currentPos, Concat(rx.queue));
      rest := Wait(script);
      NoFront(current, currentPos, Concat(rx.queue));
      found := rx.queue != [];
      assert !found ==> Concat(rx.queue) == [] by { assert Concat([]) == [] by { NoChunks(); } }
      hide Pending;
      if found {
        NextChunk();
      } else if rx.closed {
        connected := false;
      }
    }

    /**
     `buf` receives exactly the next bytes of the stream, whatever chunks they come in. When the
     pipe is closed or runs dry first, what was read is lost and nothing is left to read.
     */
    method Read(buf: array<byte>, script: seq<Arrival>)
      returns (outcome: Outcome, rest: seq<Arrival>, ghost got: seq<byte>)
      requires Valid()
      modifies this`connected, this`current, this`currentPos, rx, buf
      ensures Valid()
      ensures got + (Pending() + Arriving(rest)) == old(Pending()) + Arriving(script)
      ensures outcome == Full ==> got == buf[..] && connected == old(connected)
      ensures outcome != Full ==> |got| < buf.Length && Pending() == []
      ensures outcome == Disconnected ==> !connected && rx.closed
      ensures outcome == Starved ==> rest == [] && !rx.closed
    {
      hide Pending, Arriving;
      rest := script;
      var total: nat := 0;
      assert buf[..0] == [];
      while total < buf.Length
        invariant Valid() && total <= buf.Length && connected == old(connected)
        invariant buf[..total] + (Pending() + Arriving(rest)) == old(Pending()) + Arriving(script)
        decreases |rest| + |rx.queue|, buf.Length - total
      {
        ghost var before, pending, coming := buf[..total], Pending(), Arriving(rest);
        if currentPos < |current| {
          total := TakeFromChunk(buf, total);
          Regroup(buf[..total], Pending(), coming);
          Regroup(before, pending, coming);
        } else {
          var found;
          rest, found := Refill(rest);
          if !found {
            got := buf[..total];
            outcome := if rx.closed then Disconnected else Starved;
            return;
          }
        }
      }
      got := buf[..];
      outcome := Full;
      assert buf[..total] == buf[..];
    }
  }

  class Channel {
    const transport: Transport

    constructor (transport: Transport)
      ensures this.transport == transport
    {
      this.transport := transport;
    }

    /** On a live pipe, one whole frame joins the stream; on a dead one, nothing does. */
    method SendRaw(m: Message)
      requires transport.Valid()
      modifies transport`connected, transport.tx`queue
      ensures transport.Valid()
      ensures Concat(transport.tx.queue)
           == old(Concat(transport.tx.queue)) + (if old(transport.connected) && !transport.tx.closed then Frame(m) else [])
    {
      var hdr := HeaderOf(m);
      hide *;
      FrameIs(m);
      QueuedTwice(transport.tx.queue, hdr, m.payload);
      transport.Write(hdr);
      if m.payload != [] {
        transport.Write(m.payload);
      }
    }

    /**
     Whatever bytes arrive: the messages are exactly the complete frames in what was taken from the
     stream, in order, and an error is reported if and only if a header in it fails its checks, which
     is then the last taken. Without an error the loop ends when this end is disconnected or waits for
     ever, and nothing that could be read is left.
     */
    method ReadLoop(script: seq<Arrival>)
      returns (messages: seq<Message>, failure: Failure, starved: bool, ghost taken: seq<byte>, ghost left: seq<Arrival>)
      requires transport.Valid()
      modifies transport, transport.rx
      ensures transport.Valid()
      ensures taken + (transport.Pending() + Arriving(left)) == old(transport.Pending()) + Arriving(script)
      ensures Deframe(taken) == Deframed(messages, failure)
      ensures failure == NoFailure ==> starved || !transport.connected
      ensures failure == NoFailure && old(transport.connected) ==> transport.Pending() == []
      ensures starved ==> left == []
    {
      hide DecodeHeader, Deframe, Concat, Check, Arriving, Consumed;
      messages, failure, starved, taken := [], NoFailure, false, [];
      var rest := script;
      ConsumedNone();
      while transport.connected
        invariant transport.Valid() && failure == NoFailure && !starved && transport.connected == old(transport.connected)
        invariant taken + (transport.Pending() + Arriving(rest)) == old(transport.Pending()) + Arriving(script)
        invariant Consumed(taken, messages)
        decreases |transport.Pending() + Arriving(rest)|
      {
        ghost var stream := transport.Pending() + Arriving(rest);
        var hdrBuf := new byte[HEADER_LEN];
        var outcome, rest', got := transport.Read(hdrBuf, rest);
        rest := rest';
        if outcome != Full {
          starved := outcome == Starved;
          ConsumedShort(taken, messages, got);
          Regroup(taken, got, transport.Pending() + Arriving(rest));
          taken, left := taken + got, rest;
          return;
        }
        ghost var head := hdrBuf[..];
        Regroup(taken, head, transport.Pending() + Arriving(rest));
        var hdr := DecodeHeader(hdrBuf[..]);
        if Check(hdr) != NoFailure {
          failure := Check(hdr);
          ConsumedBad(taken, messages, head);
          taken, left := taken + head, rest;
          return;
        }
        var payload := new byte[hdr.payloadLen];
        ghost var body := [];
        if hdr.payloadLen > 0 {
          var outcome', rest'', got' := transport.Read(payload, rest);
          rest, body := rest'', got';
          Regroup(taken + head, body, transport.Pending() + Arriving(rest));
          if outcome' != Full {
            starved := outcome' == Starved;
            ConsumedCut(taken, messages, head, body);
            taken, left := taken + head + body, rest;
            return;
          }
        }
        ConsumedFrame(taken, messages, head, payload[..]);
        messages := messages + [Message(hdr.kind, payload[..])];
        taken := taken + head + payload[..];
      }
      ConsumedShort(taken, messages, []);
      assert taken + [] == taken;
      left := rest;
    }
  }

  /** `taken` is made of whole frames, those of `messages`. */
  ghost predicate Consumed(taken: seq<byte>, messages: seq<Message>)
  {
    forall x: seq<byte> :: Deframe(taken + x) == Deframed(messages + Deframe(x).messages, Deframe(x).failure)
  }

  lemma ConsumedNone()
    ensures Consumed([], [])
  {
    forall x: seq<byte> ensures Deframe([] + x) == Deframed([] + Deframe(x).messages, Deframe(x).failure) {
      assert [] + x == x;
    }
  }

  lemma ConsumedFrame(taken: seq<byte>, messages: seq<Message>, head: seq<byte>, payload: seq<byte>)
    requires Consumed(taken, messages) && |head| == HEADER_LEN
    requires Check(DecodeHeader(head)) == NoFailure && |payload| == DecodeHeader(head).payloadLen
    ensures Consumed(taken + head + payload, messages + [Message(DecodeHeader(head).kind, payload)])
  {
    hide DecodeHeader, Check, Deframe;
    forall x: seq<byte> ensures Deframe(taken + head + payload + x)
      == Deframed(messages + [Message(DecodeHeader(head).kind, payload)] + Deframe(x).messages, Deframe(x).failure)
    {
      var tail := payload + x;
      assert taken + head + payload + x == taken + (head + tail);
      DeframeAfterHeader(head, tail);
      assert tail[..|payload|] == payload && tail[|payload|..] == x;
    }
  }

  /** The stream ends before the next header is complete. */
  lemma ConsumedShort(taken: seq<byte>, messages: seq<Message>, got: seq<byte>)
    requires Consumed(taken, messages) && |got| < HEADER_LEN
    ensures Deframe(taken + got) == Deframed(messages, NoFailure)
  {
    assert Deframe(got) == Deframed([], NoFailure);
  }

  lemma ConsumedBad(taken: seq<byte>, messages: seq<Message>, head: seq<byte>)
    requires Consumed(taken, messages) && |head| == HEADER_LEN && Check(DecodeHeader(head)) != NoFailure
    ensures Deframe(taken + head) == Deframed(messages, Check(DecodeHeader(head)))
  {
    hide DecodeHeader, Check, Deframe;
    DeframeAfterHeader(head, []);
    assert head + [] == head;
  }

  /** The stream ends before the payload is complete. */
  lemma ConsumedCut(taken: seq<byte>, messages: seq<Message>, head: seq<byte>, body: seq<byte>)
    requires Consumed(taken, messages) && |head| == HEADER_LEN
    requires Check(DecodeHeader(head)) == NoFailure && |body| < DecodeHeader(head).payloadLen
    ensures Deframe(taken + head + body) == Deframed(messages, NoFailure)
  {
    hide DecodeHeader, Check, Deframe;
    DeframeAfterHeader(head, body);
    assert taken + head + body == taken + (head + body);
  }

  lemma NoFront(chunk: seq<byte>, at: nat, queued: seq<byte>)
    requires at == |chunk|
    ensures chunk[at..] + queued == queued
  {
  }

  lemma NoChunks()
    ensures Concat([]) == []
  {
  }

  lemma FrameIs(m: Message)
    ensures Frame(m) == if m.payload == [] then HeaderOf(m) else HeaderOf(m) + m.payload
  {
    hide HeaderOf;
    assert m.payload == [] ==> HeaderOf(m) + m.payload == HeaderOf(m);
  }

  /** What one chunk, and a second, add to the bytes queued. */
  lemma QueuedTwice(queue: seq<seq<byte>>, a: seq<byte>, b: seq<byte>)
    ensures Concat(queue + [a]) == Concat(queue) + a
    ensures Concat(queue + [a] + [b]) == Concat(queue) + (a + b)
    ensures Concat(queue) + [] == Concat(queue)
  {
    ConcatSingle(a);
    ConcatSingle(b);
    ConcatAppend(queue, [a]);
    ConcatAppend(queue + [a], [b]);
    hide Concat;
    assert (Concat(queue) + a) + b == Concat(queue) + (a + b);
  }
}
