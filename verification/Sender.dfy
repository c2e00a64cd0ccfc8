/** What every mix of writes, packet cutting, acknowledgements and sends keeps of the outbound half. */
module Sender {
  import opened Bytes
  import opened Framing
  import opened Wire
  import opened Protocol

  predicate Spaced(times: seq<int>) {
    forall i, j :: 0 <= i < j < |times| ==> times[j] - times[i] >= MESSAGE_RETRY_TIMEOUT
  }

  /** Every framed byte is in exactly one packet, in number order, or still waiting to be cut. */
  predicate Conserves(o: Outbound) {
    Flatten(o.packets) + o.stream == Framed(o.writes)
  }

  predicate WellNumbered(o: Outbound) {
    && o.lastSeq == |o.packets|
    && (forall i :: 0 <= i < |o.packets| ==> PacketSized(o.packets[i]))
    && (forall k :: k in o.queue ==>
          1 <= k <= |o.packets| && o.queue[k].number == k && o.queue[k].data == o.packets[k - 1])
  }

  /** Each packet's recorded sends are a retry interval apart; `lastTry` is the latest of them. */
  predicate WellTimed(o: Outbound, clock: int) {
    && (forall k :: k in o.sends ==> 1 <= k <= |o.packets| && Spaced(o.sends[k]))
    && (forall k, i :: k in o.sends && 0 <= i < |o.sends[k]| ==> o.sends[k][i] <= clock)
    && (forall k :: k in o.queue ==> TriedLast(o.queue[k].lastTry, SendsOf(o, k)))
  }

  predicate TriedLast(lastTry: Option<int>, times: seq<int>) {
    match lastTry
    case None => times == []
    case Some(t) => times != [] && times[|times| - 1] == t
  }

  predicate OutInv(o: Outbound, clock: int) {
    Conserves(o) && WellNumbered(o) && WellTimed(o, clock)
  }

  /** Every packet numbered above n can still be sent again. */
  predicate Holds(o: Outbound, n: nat) {
    forall k :: n < k <= |o.packets| ==> k in o.queue
  }

  lemma WriteKeeps(o: Outbound, data: seq<byte>, clock: int)
    requires OutInv(o, clock)
    ensures OutInv(Write(o, data), clock)
  {
    FramedSnoc(o.writes, data);
    assert (Flatten(o.packets) + o.stream) + Frame(data) == Flatten(o.packets) + (o.stream + Frame(data));
  }

  lemma GenerateOneKeeps(o: Outbound, clock: int)
    requires OutInv(o, clock) && o.stream != [] && |o.packets| + 1 < U32
    ensures OutInv(GenerateOne(o), clock)
  {
    hide Framed, Flatten;
    var p := GenerateOne(o);
    var data := Chunk(o.stream);
    FlattenSnoc(o.packets, data);
    assert data + p.stream == o.stream;
    assert (Flatten(o.packets) + data) + p.stream == Flatten(o.packets) + (data + p.stream);
    assert |o.packets| + 1 !in o.sends;
    forall k | k in p.queue
      ensures 1 <= k <= |p.packets| && p.queue[k].number == k && p.queue[k].data == p.packets[k - 1]
      ensures TriedLast(p.queue[k].lastTry, SendsOf(p, k))
    {
      if k != |o.packets| + 1 { assert k in o.queue && SendsOf(p, k) == SendsOf(o, k); }
    }
  }

  /** However the run goes on, the packets cut are the chunks of the waiting bytes. */
  lemma {:induction false} GeneratePackets(o: Outbound)
    ensures Generate(o).packets == o.packets + Chunks(o.stream) && Generate(o).stream == []
    ensures Generate(o).writes == o.writes && Generate(o).delivered == o.delivered && Generate(o).sends == o.sends
    ensures Generate(o).lastSent == o.lastSent
    decreases |o.stream|
  {
    if o.stream != [] {
      GeneratePackets(GenerateOne(o));
      assert o.packets + Chunks(o.stream) == GenerateOne(o).packets + Chunks(GenerateOne(o).stream);
    } else {
      assert o.packets + [] == o.packets;
    }
  }

  /** Cutting packets leaves the queued ones alone and queues every new one. */
  ghost predicate QueueGrows(o: Outbound, p: Outbound) {
    && (forall k :: k in o.queue && k <= |o.packets| ==> k in p.queue && p.queue[k] == o.queue[k])
    && (forall k :: |o.packets| < k <= |p.packets| ==> k in p.queue)
  }

  lemma QueueGrowsByOne(o: Outbound, p: Outbound)
    requires o.stream != [] && o.lastSeq == |o.packets| && |o.packets| + 1 < U32
    requires QueueGrows(GenerateOne(o), p) && |o.packets| < |p.packets|
    ensures QueueGrows(o, p)
  {
    var one := GenerateOne(o);
    assert |one.packets| == |o.packets| + 1 && |o.packets| + 1 in one.queue;
    forall k | k in o.queue && k <= |o.packets| ensures k in p.queue && p.queue[k] == o.queue[k] {
      assert k in one.queue && one.queue[k] == o.queue[k];
    }
  }

  lemma {:induction false} GenerateKeeps(o: Outbound, clock: int)
    requires OutInv(o, clock) && |o.packets| + |Chunks(o.stream)| < U32
    ensures OutInv(Generate(o), clock) && QueueGrows(o, Generate(o))
    decreases |o.stream|
  {
    hide Conserves, WellTimed, QueueGrows, Chunk;
    if o.stream != [] {
      var one := GenerateOne(o);
      GenerateOneKeeps(o, clock);
      GenerateKeeps(one, clock);
      GeneratePackets(one);
      QueueGrowsByOne(o, Generate(o));
    } else {
      QueueGrowsNot(o);
    }
  }

  lemma QueueGrowsNot(o: Outbound)
    ensures QueueGrows(o, o)
  {
  }

  lemma AckKeeps(o: Outbound, ack: nat, clock: int)
    requires OutInv(o, clock)
    ensures OutInv(Acked(o, ack), clock)
    ensures forall n: nat :: Holds(o, n) && ack <= n ==> Holds(Acked(o, ack), n)
  {
    forall k | k in o.queue ensures SendsOf(Acked(o, ack), k) == SendsOf(o, k) {}
  }

  lemma SentKeeps(o: Outbound, clock: int)
    requires OutInv(o, clock)
    ensures OutInv(Sent(o, clock), clock)
  {
    var p := Sent(o, clock);
    assert Conserves(p) && WellNumbered(p);
    SentStaysTimed(o, clock);
  }

  lemma SentStaysTimed(o: Outbound, clock: int)
    requires WellNumbered(o) && WellTimed(o, clock)
    ensures WellTimed(Sent(o, clock), clock)
  {
    var p := Sent(o, clock);
    forall k | k in p.sends ensures 1 <= k <= |p.packets| && Spaced(p.sends[k]) {
      SentTimes(o, k, clock);
    }
    forall k, i | k in p.sends && 0 <= i < |p.sends[k]| ensures p.sends[k][i] <= clock {
      SentTimes(o, k, clock);
    }
    forall k | k in p.queue ensures TriedLast(p.queue[k].lastTry, SendsOf(p, k)) {
      SentTimes(o, k, clock);
    }
  }

  lemma SpacedSnoc(times: seq<int>, lastTry: Option<int>, clock: int)
    requires Spaced(times) && TriedLast(lastTry, times)
    requires lastTry == None || clock - lastTry.value >= MESSAGE_RETRY_TIMEOUT
    ensures Spaced(times + [clock]) && TriedLast(Some(clock), times + [clock])
  {
    var next := times + [clock];
    forall i, j | 0 <= i < j < |next| ensures next[j] - next[i] >= MESSAGE_RETRY_TIMEOUT {
      if j == |times| && i < |times| - 1 { assert times[|times| - 1] - times[i] >= MESSAGE_RETRY_TIMEOUT; }
    }
  }

  lemma SentTimes(o: Outbound, k: nat, clock: int)
    requires WellTimed(o, clock) && (k in o.sends || k in o.queue)
    ensures Spaced(SendsOf(Sent(o, clock), k))
    ensures forall i :: 0 <= i < |SendsOf(Sent(o, clock), k)| ==> SendsOf(Sent(o, clock), k)[i] <= clock
    ensures k in o.queue ==> TriedLast(Sent(o, clock).queue[k].lastTry, SendsOf(Sent(o, clock), k))
  {
    var times := SendsOf(o, k);
    assert Spaced(times);
    if k in o.queue && IsDue(o.queue[k], clock) {
      SpacedSnoc(times, o.queue[k].lastTry, clock);
      assert SendsOf(Sent(o, clock), k) == times + [clock];
    } else {
      assert SendsOf(Sent(o, clock), k) == times;
    }
  }

  // ---- what goes out ----

  /** A send hands packet k to the network. */
  ghost predicate Emits(s: Stream, now: int, k: nat) { exists m :: m in Outgoing(s, now) && m.msgSeq == k }

  /**
   * A send hands over exactly the queued packets that were never tried or not for five seconds,
   * each once, with the bytes queued under its number and the receive cursor as acknowledgement;
   * it records those sends and changes nothing else.
   */
  lemma SendExactly(s: Stream, now: int)
    ensures forall m :: m in Outgoing(s, now) ==>
              m.receivedSeq == s.inb.received && m.msgSeq in s.out.queue && m.data == s.out.queue[m.msgSeq].data
    ensures forall k :: Emits(s, now, k) <==>
              k in s.out.queue
              && (s.out.queue[k].lastTry == None || now - s.out.queue[k].lastTry.value >= 5_000_000_000)
    ensures forall k :: SendsOf(AfterSend(s, now).out, k)
                        == SendsOf(s.out, k) + (if Emits(s, now, k) then [now] else [])
    ensures forall k :: k in s.out.queue ==>
              && k in AfterSend(s, now).out.queue && AfterSend(s, now).out.queue[k].data == s.out.queue[k].data
              && AfterSend(s, now).out.queue[k].lastTry
                 == if Emits(s, now, k) then Some(now) else s.out.queue[k].lastTry
  {
    forall k ensures Emits(s, now, k) <==> k in s.out.queue && IsDue(s.out.queue[k], now) {
      if k in s.out.queue && IsDue(s.out.queue[k], now) { assert DataMessage(s, k) in Outgoing(s, now); }
    }
  }

  /** Numbers are counted up by one per packet and wrap at 2^32. */
  lemma {:induction false} NumbersWrap(o: Outbound)
    requires o.lastSeq < 0x1_0000_0000
    ensures Generate(o).lastSeq == (o.lastSeq + |Chunks(o.stream)|) % 0x1_0000_0000
    decreases |o.stream|
  {
    if o.stream != [] {
      NumbersWrap(GenerateOne(o));
    }
  }

  /** Whatever is cut and sent acknowledges exactly what has been received. */
  lemma FlushAcknowledges(s: Stream, now: int)
    ensures forall m :: m in FlushMessages(s, now) ==> m.receivedSeq == s.inb.received
  {
    hide Generate;
    SendExactly(Generated(s), now);
  }

  // ---- whole runs ----

  datatype Op = OpWrite(data: seq<byte>) | OpGenerate | OpAck(ack: nat) | OpSend(now: int)

  function Apply(o: Outbound, op: Op): Outbound {
    match op
    case OpWrite(data) => Write(o, data)
    case OpGenerate => Generate(o)
    case OpAck(ack) => Acked(o, ack)
    case OpSend(now) => Sent(o, now)
  }

  function ApplyAll(o: Outbound, ops: seq<Op>): Outbound
    decreases |ops|
  {
    if ops == [] then o else Apply(ApplyAll(o, ops[..|ops| - 1]), ops[|ops| - 1])
  }

  /** The latest time of a send in the run. */
  function ClockAfter(start: int, ops: seq<Op>): int
    decreases |ops|
  {
    if ops == [] then start
    else
      var before := ClockAfter(start, ops[..|ops| - 1]);
      match ops[|ops| - 1]
      case OpSend(now) => if now >= before then now else before
      case _ => before
  }

  predicate ClockMonotone(start: int, ops: seq<Op>) {
    forall i :: 0 <= i < |ops| && ops[i].OpSend? ==> ops[i].now >= ClockAfter(start, ops[..i])
  }

  function EmptyOutbound(start: int): Outbound { Outbound([], map[], 0, 0, start, [], [], map[]) }

  lemma ApplyGrows(o: Outbound, op: Op)
    ensures o.packets <= Apply(o, op).packets && o.writes <= Apply(o, op).writes
  {
    if op.OpGenerate? { GeneratePackets(o); }
  }

  /**
   * After any mix of writes, packet cutting, acknowledgements of any numbers and sends by a
   * clock that never goes back: no framed byte is lost, doubled or reordered, numbering has no
   * gaps, every packet has 1 to 32623 bytes, and the queued copies are the original packets.
   */
  lemma {:induction false} SenderRun(start: int, ops: seq<Op>)
    requires ClockMonotone(start, ops)
    requires |ApplyAll(EmptyOutbound(start), ops).packets| < U32
    ensures OutInv(ApplyAll(EmptyOutbound(start), ops), ClockAfter(start, ops))
    decreases |ops|
  {
    if ops != [] {
      var n := |ops| - 1;
      var before, op := ApplyAll(EmptyOutbound(start), ops[..n]), ops[n];
      var clock := ClockAfter(start, ops[..n]);
      ApplyGrows(before, op);
      forall i | 0 <= i < n && ops[..n][i].OpSend? ensures ops[..n][i].now >= ClockAfter(start, ops[..n][..i]) {
        assert ops[..n][..i] == ops[..i];
      }
      SenderRun(start, ops[..n]);
      match op
      case OpWrite(data) => WriteKeeps(before, data, clock);
      case OpGenerate => GeneratePackets(before); GenerateKeeps(before, clock);
      case OpAck(ack) => AckKeeps(before, ack, clock);
      case OpSend(now) => SentKeeps(before, now);
    }
  }

  /** The size panic of `send_messages` cannot happen: no queued packet exceeds the network limit. */
  lemma NeverOversize(start: int, ops: seq<Op>, k: nat)
    requires ClockMonotone(start, ops)
    requires |ApplyAll(EmptyOutbound(start), ops).packets| < U32
    requires k in ApplyAll(EmptyOutbound(start), ops).queue
    ensures |ApplyAll(EmptyOutbound(start), ops).queue[k].data| <= NETWORK_LIMIT
  {
    SenderRun(start, ops);
  }

  /** At least five seconds, in nanoseconds, lie between any two of the times. */
  predicate FiveSecondsApart(times: seq<int>) {
    forall i, j :: 0 <= i < j < |times| ==> times[j] - times[i] >= 5_000_000_000
  }

  /**
   * Retransmission discipline: two sends of one number are at least five seconds apart, and
   * right after a send every queued packet was tried within the last five seconds.
   */
  lemma RetransmissionDiscipline(start: int, ops: seq<Op>, now: int)
    requires ClockMonotone(start, ops + [OpSend(now)])
    requires |ApplyAll(EmptyOutbound(start), ops).packets| < U32
    ensures var o := ApplyAll(EmptyOutbound(start), ops + [OpSend(now)]);
            && (forall k :: k in o.sends ==> FiveSecondsApart(o.sends[k]))
            && (forall k :: k in o.queue ==>
                  && o.queue[k].lastTry.Some?
                  && now - 5_000_000_000 < o.queue[k].lastTry.value <= now
                  && o.queue[k].lastTry.value in SendsOf(o, k))
  {
    var all := ops + [OpSend(now)];
    assert all[..|all| - 1] == ops && all[|all| - 1] == OpSend(now);
    SenderRun(start, all);
    var before := ApplyAll(EmptyOutbound(start), ops);
    var o := ApplyAll(EmptyOutbound(start), all);
    assert o == Sent(before, now);
    assert ClockAfter(start, all) == now by { assert all[..|ops|] == ops; }
    forall k | k in o.queue
      ensures o.queue[k].lastTry.Some? && now - MESSAGE_RETRY_TIMEOUT < o.queue[k].lastTry.value <= now
      ensures o.queue[k].lastTry.value in SendsOf(o, k)
    {
      assert TriedLast(o.queue[k].lastTry, SendsOf(o, k));
      if !IsDue(before.queue[k], now) { assert o.queue[k] == before.queue[k]; }
    }
  }

  /**
   * A packet that starts where write number j starts, has at least 4 bytes, and whose write is
   * shorter than 0x47000000 bytes is never taken for a control message.
   */
  lemma AlignedPacketIsData(o: Outbound, k: nat, j: nat)
    requires Conserves(o) && k < |o.packets| && j < |o.writes|
    requires Flatten(o.packets[..k]) == Framed(o.writes[..j])
    requires |o.packets[k]| >= 4 && |o.writes[j]| < 0x4700_0000
    ensures KindOf(o.packets[k]) == KData
  {
    hide KindOf;
    var before, packet, after := Flatten(o.packets[..k]), o.packets[k], Flatten(o.packets[k + 1..]) + o.stream;
    var ws := o.writes[j..];
    FlattenSplit(o.packets, k + 1);
    FlattenTakeNext(o.packets, k);
    FramedAppend(o.writes[..j], ws);
    assert o.writes[..j] + ws == o.writes;
    assert before + (packet + after) == before + Framed(ws);
    assert packet + after == (before + (packet + after))[|before|..];
    assert Framed(ws) == (before + Framed(ws))[|before|..];
    FrameAlignedIsData(ws, packet);
  }
}
