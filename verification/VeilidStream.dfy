/**
 * The stream object of `src/stream.rs` with its fields updated in place. Each method is proved
 * against the value functions of module Protocol. The clock is a parameter; what a method hands
 * to the network is its result.
 */
module Streams {
  import opened Bytes
  import opened Framing
  import opened Address
  import opened Wire
  import opened Protocol
  import opened Receiver

  lemma DrainOne(queue: map<nat, seq<byte>>, n: nat)
    requires n + 1 in queue
    ensures (queue - {n + 1}).Keys == queue.Keys - {n + 1} && |queue.Keys - {n + 1}| < |queue.Keys|
    ensures var d := Drain(queue - {n + 1}, n + 1);
            Drain(queue, n) == Drained(d.end, d.queue, queue[n + 1] + d.bytes)
  {
  }

  lemma DrainNone(queue: map<nat, seq<byte>>, n: nat)
    requires n + 1 !in queue
    ensures Drain(queue, n) == Drained(n, queue, [])
  {
  }

  lemma AppendTwice(i: Inbound, a: seq<byte>, b: seq<byte>)
    ensures i.buffer + (a + b) == (i.buffer + a) + b && i.accepted + (a + b) == (i.accepted + a) + b
  {
  }

  /** The cursor may be moved before the frames are taken out, as `recv_message` does. */
  lemma AcceptUnfolds(i: Inbound, now: int, data: seq<byte>)
    ensures var d := Drain(i.queue, i.received + 1);
            var taken := AppendInbound(i, data + d.bytes).(received := d.end, queue := d.queue);
            Accept(i, now, data) == UpdateInbound(taken).(lastHeard := now)
  {
    hide Drain, Deframe, Flatten;
  }

  class VeilidStream {
    const myStreamId: nat
    const localAddress: Address
    const remoteAddress: Address
    const myKey: PublicKey
    var remoteStreamId: nat
    var remotePublicKey: Option<PublicKey>
    var status: Status
    // whom to wake when data becomes readable
    var waker: Option<nat>

    var inboundStream: seq<byte>
    var inboundBuffer: seq<byte>
    var inboundReceivedSeq: nat
    var inboundMessageQueue: map<nat, seq<byte>>
    var inboundLastTimestamp: int

    var outboundStream: seq<byte>
    var outboundMessageQueue: map<nat, OutboundMessage>
    var outboundLastSeq: nat
    var outboundDeliveredSeq: nat
    var outboundLastTimestamp: int

    ghost var accepted: seq<byte>
    ghost var read: seq<byte>
    ghost var dropped: nat
    ghost var writes: seq<seq<byte>>
    ghost var packets: seq<seq<byte>>
    ghost var sends: map<nat, seq<int>>

    ghost function Ctl(): Control
      reads this
    {
      Control(myStreamId, remoteStreamId, localAddress, remoteAddress, myKey, remotePublicKey, status)
    }

    ghost function Inb(): Inbound
      reads this
    {
      Inbound(inboundStream, inboundBuffer, inboundReceivedSeq, inboundMessageQueue, inboundLastTimestamp,
              accepted, read, dropped)
    }

    ghost function Out(): Outbound
      reads this
    {
      Outbound(outboundStream, outboundMessageQueue, outboundLastSeq, outboundDeliveredSeq, outboundLastTimestamp,
               writes, packets, sends)
    }

    ghost function State(): Stream
      reads this
    {
      Stream(Ctl(), Inb(), Out())
    }

    /** Queued messages carry the number they are filed under and fit in a packet. */
    ghost predicate Valid()
      reads this
    {
      forall k :: k in outboundMessageQueue ==>
        outboundMessageQueue[k].number == k && PacketSized(outboundMessageQueue[k].data)
    }

    constructor (local: Address, remote: Address, remoteId: nat, key: PublicKey, now: int, wall: nat)
      ensures Valid() && State() == NewStream(local, remote, remoteId, key, now, wall)
      ensures myStreamId == wall && localAddress == local && remoteAddress == remote && myKey == key
    {
      myStreamId, localAddress, remoteAddress, myKey := wall, local, remote, key;
      remoteStreamId, remotePublicKey, status, waker := remoteId, None, Dialing, None;
      inboundStream, inboundBuffer, inboundReceivedSeq, inboundMessageQueue := [], [], 0, map[];
      inboundLastTimestamp, outboundLastTimestamp := now, now;
      outboundStream, outboundMessageQueue, outboundLastSeq, outboundDeliveredSeq := [], map[], 0, 0;
      accepted, read, dropped := [], [], 0;
      writes, packets, sends := [], [], map[];
    }

    // ---- liveness ----

    method IsActive(now: int) returns (active: bool)
      ensures active == Protocol.IsActive(State(), now)
    {
      if status != Active { return false; }
      active := inboundLastTimestamp > now - STREAM_TIMEOUT;
    }

    method IsExpired(now: int) returns (expired: bool)
      ensures expired == Protocol.IsExpired(State(), now)
    {
      if status == Expired { return false; }
      expired := !(inboundLastTimestamp > now - STREAM_TIMEOUT);
    }

    method GetStatus(now: int) returns (s: Status)
      ensures s == Protocol.GetStatus(State(), now)
    {
      match status
      case Dialing => s := Dialing;
      case Listening => s := Listening;
      case Active =>
        if inboundLastTimestamp > now - STREAM_TIMEOUT { s := Active; } else { s := Expired; }
      case Expired => s := Expired;
    }

    // ---- inbound ----

    method RecvInboundBuffer(data: seq<byte>)
      modifies this`inboundBuffer, this`accepted
      ensures Inb() == AppendInbound(old(Inb()), data)
    {
      inboundBuffer := inboundBuffer + data;
      accepted := accepted + data;
    }

    /** The first loop of `update_inbound_stream`; false means it took the early return. */
    method TakeCompleteSlices() returns (slices: seq<seq<byte>>, finished: bool)
      modifies this`inboundBuffer
      ensures Deframe(old(inboundBuffer)) == Deframed(slices, inboundBuffer)
      ensures finished <==> !Stalls(inboundBuffer)
    {
      hide Deframe, FromLe;
      slices := [];
      while inboundBuffer != []
        invariant var rest := Deframe(inboundBuffer);
                  Deframe(old(inboundBuffer)) == Deframed(slices + rest.frames, rest.rest)
        decreases |inboundBuffer|
      {
        if |inboundBuffer| < 4 {
          DeframeNone(inboundBuffer);
          assert slices + [] == slices;
          return slices, false;
        }
        var sliceLen := FromLe(inboundBuffer);
        if |inboundBuffer| >= sliceLen + 4 {
          var slice := inboundBuffer[4..4 + sliceLen];
          DeframeOne(inboundBuffer, 4 + sliceLen);
          SnocAppend(slices, slice, Deframe(inboundBuffer[4 + sliceLen..]).frames);
          slices := slices + [slice];
          inboundBuffer := inboundBuffer[4 + sliceLen..];
        } else {
          break;
        }
      }
      DeframeNone(inboundBuffer);
      assert slices + [] == slices;
      finished := true;
    }

    /**
     * Moves the complete frames of the buffer to the readable stream, unless 1 to 3 bytes are
     * left after them: then the call returns early and the frames it took out are gone.
     */
    method UpdateInboundStream()
      modifies this`inboundBuffer, this`inboundStream, this`dropped
      ensures Inb() == UpdateInbound(old(Inb()))
      ensures inboundBuffer == Deframe(old(inboundBuffer)).rest
      ensures inboundStream == old(inboundStream)
                               + (if 1 <= |inboundBuffer| <= 3 then [] else Flatten(Deframe(old(inboundBuffer)).frames))
    {
      hide Deframe, Flatten;
      var completeSlices, finished := TakeCompleteSlices();
      if !finished {
        dropped := dropped + |Flatten(completeSlices)|;
        return;
      }
      ghost var rest := inboundBuffer;
      FlattenNone(completeSlices);
      var i := 0;
      while i < |completeSlices|
        invariant 0 <= i <= |completeSlices|
        invariant inboundBuffer == rest && dropped == old(dropped)
        invariant inboundStream == old(inboundStream) + Flatten(completeSlices[..i])
      {
        FlattenTakeNext(completeSlices, i);
        Reassociate(old(inboundStream), Flatten(completeSlices[..i]), completeSlices[i]);
        inboundStream := inboundStream + completeSlices[i];
        i := i + 1;
      }
      assert completeSlices[..|completeSlices|] == completeSlices;
    }

    /** Drops the queued messages the peer has acknowledged. */
    method RemoveSentMessagesFromQueue()
      requires Valid()
      modifies this`outboundMessageQueue
      ensures Valid()
      ensures Out() == Acked(old(Out()), outboundDeliveredSeq)
    {
      outboundMessageQueue := map k | k in outboundMessageQueue && k > outboundDeliveredSeq :: outboundMessageQueue[k];
    }

    /** The loop of `recv_message` that takes the parked messages following number `start`. */
    method DrainMessageQueue(start: nat) returns (finalSeq: nat)
      modifies this`inboundMessageQueue, this`inboundBuffer, this`accepted
      ensures var d := Drain(old(inboundMessageQueue), start);
              finalSeq == d.end && inboundMessageQueue == d.queue
              && inboundBuffer == old(inboundBuffer) + d.bytes && accepted == old(accepted) + d.bytes
    {
      hide Drain;
      finalSeq := start;
      ghost var taken: seq<byte> := [];
      while finalSeq + 1 in inboundMessageQueue
        invariant var rest := Drain(inboundMessageQueue, finalSeq);
                  Drain(old(inboundMessageQueue), start) == Drained(rest.end, rest.queue, taken + rest.bytes)
        invariant inboundBuffer == old(inboundBuffer) + taken && accepted == old(accepted) + taken
        decreases |inboundMessageQueue.Keys|
      {
        var data := inboundMessageQueue[finalSeq + 1];
        DrainOne(inboundMessageQueue, finalSeq);
        Reassociate(taken, data, Drain(inboundMessageQueue - {finalSeq + 1}, finalSeq + 1).bytes);
        inboundMessageQueue := inboundMessageQueue - {finalSeq + 1};
        RecvInboundBuffer(data);
        taken := taken + data;
        finalSeq := finalSeq + 1;
      }
      DrainNone(inboundMessageQueue, finalSeq);
      assert taken + [] == taken;
    }

    /** Appends the next packet and the parked ones after it, and moves the cursor. */
    method TakeInOrder(data: seq<byte>)
      modifies this`inboundMessageQueue, this`inboundBuffer, this`accepted, this`inboundReceivedSeq
      ensures var d := Drain(old(inboundMessageQueue), old(inboundReceivedSeq) + 1);
              Inb() == AppendInbound(old(Inb()), data + d.bytes).(received := d.end, queue := d.queue)
    {
      hide Drain;
      ghost var i := Inb();
      ghost var d := Drain(inboundMessageQueue, inboundReceivedSeq + 1);
      RecvInboundBuffer(data);
      var finalSeq := DrainMessageQueue(inboundReceivedSeq + 1);
      AppendTwice(i, data, d.bytes);
      inboundReceivedSeq := finalSeq;
    }

    /** `recv_message` on the packet that is next in order, the stream being active. */
    method RecvNext(now: int, deliveredSeq: nat, data: seq<byte>)
      requires Valid()
      modifies this
      ensures Valid() && waker == old(waker)
      ensures Ctl() == old(Ctl())
      ensures Inb() == Accept(old(Inb()), now, data) && Out() == Acked(old(Out()), deliveredSeq)
    {
      hide Drain, UpdateInbound;
      ghost var i := Inb();
      TakeInOrder(data);
      ghost var taken := Inb();
      outboundDeliveredSeq := deliveredSeq;
      RemoveSentMessagesFromQueue();
      assert Inb() == taken;
      UpdateInboundStream();
      inboundLastTimestamp := now;
      AcceptUnfolds(i, now, data);
    }

    method RecvMessage(now: int, deliveredSeq: nat, number: nat, data: seq<byte>)
      requires Valid()
      modifies this
      ensures Valid() && waker == old(waker)
      ensures State() == Protocol.RecvMessage(old(State()), now, deliveredSeq, number, data)
      ensures number == old(inboundReceivedSeq) + 1 && Protocol.IsActive(old(State()), now) ==>
                && outboundDeliveredSeq == deliveredSeq
                && (forall k :: k in outboundMessageQueue <==> k in old(outboundMessageQueue) && k > deliveredSeq)
    {
      hide Accept, Acked;
      PacketAcknowledges(State(), now, deliveredSeq, number, data);
      if number <= inboundReceivedSeq {
        // discard duplicates
      } else if number > inboundReceivedSeq + 1 {
        if number < inboundReceivedSeq + WINDOW {
          inboundMessageQueue := inboundMessageQueue[number := data];
        }
      } else {
        var active := IsActive(now);
        if active {
          RecvNext(now, deliveredSeq, data);
        }
      }
    }

    method ReadInboundStream(n: nat) returns (data: Option<seq<byte>>)
      modifies this`inboundStream, this`read
      ensures data == ReadResult(old(Inb()), n) && Inb() == Read(old(Inb()), n)
      ensures data.Some? ==> data.value + inboundStream == old(inboundStream) && |data.value| <= n
    {
      if inboundStream == [] {
        data := None;
      } else {
        var readable := if n <= |inboundStream| then n else |inboundStream|;
        data := Some(inboundStream[..readable]);
        read := read + inboundStream[..readable];
        inboundStream := inboundStream[readable..];
      }
    }

    // ---- outbound ----

    function EncodeMessage(receivedSeq: nat, number: nat, data: seq<byte>): Payload {
      Payload(receivedSeq, number, myStreamId, myKey, ToMultiaddr(localAddress), data)
    }

    method SendDial() returns (m: Payload)
      ensures m == DialMessage(State())
    {
      m := EncodeMessage(0, 0, DIAL + myKey);
    }

    method SendListen() returns (m: Payload)
      ensures m == ListenMessage(State())
    {
      m := EncodeMessage(0, 0, LISTEN + myKey);
    }

    method SendStatusIfStale(now: int) returns (out: set<Payload>)
      ensures out == StatusIfStale(State(), now)
    {
      var active := IsActive(now);
      if now - outboundLastTimestamp >= KEEPALIVE_TIMEOUT && active {
        out := {EncodeMessage(inboundReceivedSeq, outboundLastSeq, STATUS)};
      } else {
        out := {};
      }
    }

    /** Appends a framed write; `spawn` says whether a task is started to cut and send packets. */
    method InsertToOutboundStream(data: seq<byte>, now: int) returns (spawn: bool)
      modifies this`outboundStream, this`writes
      ensures Out() == Write(old(Out()), data) && spawn == Protocol.IsActive(old(State()), now)
      ensures var n := old(|outboundStream|);
              && |outboundStream| == n + 4 + |data| && outboundStream[..n] == old(outboundStream)
              && LeValue(outboundStream[n..n + 4]) == |data| % U32 && outboundStream[n + 4..] == data
    {
      outboundStream := outboundStream + ToLe(|data|);
      outboundStream := outboundStream + data;
      assert old(outboundStream) + ToLe(|data|) + data == old(outboundStream) + Frame(data);
      ToLeIsLittleEndian(|data|);
      assert outboundStream[|old(outboundStream)|..|old(outboundStream)| + 4] == ToLe(|data|);
      writes := writes + [data];
      spawn := IsActive(now);
    }

    method GenerateMessages()
      requires Valid()
      modifies this`outboundStream, this`outboundMessageQueue, this`outboundLastSeq, this`packets
      ensures Valid()
      ensures Out() == Generate(old(Out())) && outboundStream == []
    {
      while outboundStream != []
        invariant Valid()
        invariant Generate(Out()) == Generate(old(Out()))
        decreases |outboundStream|
      {
        var drainLimit := if PACKET_LIMIT <= |outboundStream| then PACKET_LIMIT else |outboundStream|;
        var msg := outboundStream[..drainLimit];
        ghost var before := Out();
        assert msg == Chunk(before.stream);
        outboundStream := outboundStream[drainLimit..];
        outboundLastSeq := NextSeq(outboundLastSeq);
        outboundMessageQueue := outboundMessageQueue[outboundLastSeq := OutboundMessage(outboundLastSeq, msg, None)];
        packets := packets + [msg];
        assert Out() == GenerateOne(before);
      }
    }

    /** Sends what is due. The size panic is `assert false`: a valid stream never gets there. */
    method SendMessages(now: int) returns (out: set<Payload>)
      requires Valid()
      modifies this`outboundMessageQueue, this`sends
      ensures Valid()
      ensures State() == AfterSend(old(State()), now)
      ensures out == Outgoing(old(State()), now)
      ensures forall m :: m in out ==> m.receivedSeq == inboundReceivedSeq
    {
      ghost var before := State();
      var due := MarkSent(now);
      out := {};
      var todo := due;
      while todo != {}
        invariant todo <= due
        invariant out == set k | k in before.out.queue && k in due && k !in todo :: DataMessage(before, k)
      {
        var k :| k in todo;
        assert PacketSized(outboundMessageQueue[k].data);
        if |outboundMessageQueue[k].data| > NETWORK_LIMIT {
          assert false;
        }
        out := out + {EncodeMessage(inboundReceivedSeq, k, outboundMessageQueue[k].data)};
        todo := todo - {k};
      }
    }

    /** The locked part of `send_messages`: picks what is due and stamps it. */
    method MarkSent(now: int) returns (due: set<nat>)
      requires Valid()
      modifies this`outboundMessageQueue, this`sends
      ensures Valid() && Out() == Sent(old(Out()), now)
      ensures due == set k | k in old(outboundMessageQueue) && IsDue(old(outboundMessageQueue[k]), now)
    {
      due := set k | k in outboundMessageQueue && IsDue(outboundMessageQueue[k], now);
      ghost var before := Out();
      StampDue(due, now);
      sends := Sent(before, now).sends;
      assert outboundMessageQueue == Sent(before, now).queue;
    }

    method StampDue(due: set<nat>, now: int)
      requires due <= outboundMessageQueue.Keys
      modifies this`outboundMessageQueue
      ensures outboundMessageQueue == map k | k in old(outboundMessageQueue) ::
        if k in due then old(outboundMessageQueue[k]).(lastTry := Some(now)) else old(outboundMessageQueue[k])
    {
      var todo := due;
      while todo != {}
        invariant todo <= due && outboundMessageQueue.Keys == old(outboundMessageQueue.Keys)
        invariant forall k :: k in outboundMessageQueue ==>
          outboundMessageQueue[k]
          == if k in due && k !in todo then old(outboundMessageQueue[k]).(lastTry := Some(now))
             else old(outboundMessageQueue[k])
      {
        var k :| k in todo;
        outboundMessageQueue := outboundMessageQueue[k := outboundMessageQueue[k].(lastTry := Some(now))];
        todo := todo - {k};
      }
    }
  }
}
