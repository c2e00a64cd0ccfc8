/**
 * What the inbound half keeps, whatever the order of packet arrivals: the accepted bytes do not
 * depend on it. What the application reads does, because the order decides where the cursor stops.
 */
module Receiver {
  import opened Bytes
  import opened Framing
  import opened Wire
  import opened Protocol

  /** The deframer's books: leftover bytes, and payload bytes readable, read or dropped. */
  predicate InbInv(i: Inbound) {
    var whole := Deframe(i.accepted);
    && i.buffer == whole.rest
    && |i.read| + |i.stream| + i.dropped == |Flatten(whole.frames)|
    && (i.dropped == 0 ==> i.read + i.stream == Flatten(whole.frames))
  }

  /**
   * The window invariant: parked numbers lie in received+2 .. received+19,
   * and each parked packet is the peer's packet of that number.
   */
  predicate Parked(i: Inbound, packets: seq<seq<byte>>) {
    forall k :: k in i.queue ==>
      i.received + 2 <= k < i.received + WINDOW && k <= |packets| && i.queue[k] == packets[k - 1]
  }

  /** Exactly the first `received` packets of the peer have been accepted, in order. */
  predicate InOrder(i: Inbound, packets: seq<seq<byte>>) {
    i.received <= |packets| && i.accepted == Flatten(packets[..i.received])
  }

  predicate Matches(i: Inbound, packets: seq<seq<byte>>) { InOrder(i, packets) && Parked(i, packets) }

  lemma MatchesLonger(i: Inbound, packets: seq<seq<byte>>, more: seq<seq<byte>>)
    requires Matches(i, packets) && packets <= more
    ensures Matches(i, more)
  {
    assert packets[..i.received] == more[..i.received];
  }

  /** At most 18 packets are parked. */
  lemma ParkedBound(i: Inbound, packets: seq<seq<byte>>)
    requires Parked(i, packets)
    ensures |i.queue| <= 18
  {
    assert |i.queue| == |i.queue.Keys|;
    BoundedSize(i.queue.Keys, i.received + 2, i.received + WINDOW);
  }

  lemma {:induction false} BoundedSize(a: set<nat>, lo: nat, hi: nat)
    requires lo <= hi && forall k :: k in a ==> lo <= k < hi
    ensures |a| <= hi - lo
    decreases hi
  {
    if lo == hi {
      assert a == {};
    } else {
      BoundedSize(a - {hi - 1}, lo, hi - 1);
    }
  }

  predicate Copies(queue: map<nat, seq<byte>>, packets: seq<seq<byte>>) {
    forall k :: k in queue ==> 1 <= k <= |packets| && queue[k] == packets[k - 1]
  }

  /** What is left of the reorder map once the numbers n+1 .. end are taken from it. */
  ghost predicate IsLeft(queue: map<nat, seq<byte>>, n: nat, end: nat, left: map<nat, seq<byte>>) {
    && (forall k :: k in left <==> k in queue && !(n < k <= end))
    && (forall k :: k in left ==> left[k] == queue[k])
  }

  /** The drain loop takes exactly the contiguous run after n and stops at the first gap. */
  lemma {:induction false} DrainTakesRun(queue: map<nat, seq<byte>>, n: nat)
    ensures var d := Drain(queue, n);
            && n <= d.end
            && d.end + 1 !in queue
            && (forall k :: n < k <= d.end ==> k in queue)
            && IsLeft(queue, n, d.end, d.queue)
    decreases |queue.Keys|
  {
    if n + 1 in queue {
      var smaller := queue - {n + 1};
      assert smaller.Keys == queue.Keys - {n + 1};
      DrainTakesRun(smaller, n + 1);
      forall k | n < k <= Drain(queue, n).end ensures k in queue {
        assert k == n + 1 || k in smaller;
      }
    }
  }

  lemma {:induction false} DrainBytes(queue: map<nat, seq<byte>>, n: nat, packets: seq<seq<byte>>)
    requires Copies(queue, packets) && n <= |packets|
    ensures n <= Drain(queue, n).end <= |packets|
    ensures Drain(queue, n).bytes == Flatten(packets[n..Drain(queue, n).end])
    decreases |queue.Keys|
  {
    if n + 1 in queue {
      var smaller := queue - {n + 1};
      assert smaller.Keys == queue.Keys - {n + 1};
      DrainBytes(smaller, n + 1, packets);
      FlattenRun(packets, n, Drain(smaller, n + 1).end);
    } else {
      assert packets[n..n] == [];
    }
  }

  lemma FlattenRun(packets: seq<seq<byte>>, n: nat, end: nat)
    requires n < end <= |packets|
    ensures Flatten(packets[n..end]) == packets[n] + Flatten(packets[n + 1..end])
  {
    assert packets[n..end][1..] == packets[n + 1..end];
  }

  lemma FlattenJoin(packets: seq<seq<byte>>, n: nat, end: nat)
    requires n <= end <= |packets|
    ensures Flatten(packets[..end]) == Flatten(packets[..n]) + Flatten(packets[n..end])
  {
    assert packets[..end] == packets[..n] + packets[n..end];
    FlattenAppend(packets[..n], packets[n..end]);
  }

  // ---- the steps ----

  lemma AppendDeframes(i: Inbound, piece: seq<byte>)
    requires InbInv(i)
    ensures var d := Deframe(i.buffer + piece);
            var whole := Deframe(i.accepted + piece);
            && whole.rest == d.rest
            && Flatten(whole.frames) == Flatten(Deframe(i.accepted).frames) + Flatten(d.frames)
  {
    DeframeAppend(i.accepted, piece);
    FlattenAppend(Deframe(i.accepted).frames, Deframe(i.buffer + piece).frames);
  }

  lemma TakeKeepsBooks(i: Inbound, piece: seq<byte>)
    requires InbInv(i)
    ensures InbInv(UpdateInbound(AppendInbound(i, piece)))
  {
    AppendDeframes(i, piece);
    var j := UpdateInbound(AppendInbound(i, piece));
    var more := Flatten(Deframe(i.buffer + piece).frames);
    if j.dropped == 0 && !Stalls(j.buffer) {
      Reassociate(i.read, i.stream, more);
    }
  }

  /** Where the cursor, the reorder map and the accepted bytes are after an in-order packet. */
  lemma AcceptAdvances(i: Inbound, packets: seq<seq<byte>>, now: int)
    requires Matches(i, packets) && i.received < |packets|
    ensures var j := Accept(i, now, packets[i.received]);
            && i.received < j.received <= |packets|
            && j.received + 1 !in i.queue
            && (forall k :: i.received + 1 < k <= j.received ==> k in i.queue)
            && IsLeft(i.queue, i.received + 1, j.received, j.queue)
            && j.accepted == i.accepted + Flatten(packets[i.received..j.received])
  {
    hide Drain, Flatten, Update, LostBytes;
    DrainTakesRun(i.queue, i.received + 1);
    DrainBytes(i.queue, i.received + 1, packets);
    FlattenRun(packets, i.received, Drain(i.queue, i.received + 1).end);
  }

  lemma AcceptKeeps(i: Inbound, packets: seq<seq<byte>>, now: int)
    requires InbInv(i) && Matches(i, packets) && i.received < |packets|
    ensures var j := Accept(i, now, packets[i.received]);
            InbInv(j) && Matches(j, packets) && j.received > i.received && i.accepted <= j.accepted
  {
    hide Deframe, Flatten, Drain;
    var j := Accept(i, now, packets[i.received]);
    TakeKeepsBooks(i, packets[i.received] + Drain(i.queue, i.received + 1).bytes);
    AcceptAdvances(i, packets, now);
    FlattenJoin(packets, i.received, j.received);
  }

  lemma ParkKeeps(i: Inbound, packets: seq<seq<byte>>, number: nat)
    requires InbInv(i) && Matches(i, packets) && 1 <= number <= |packets|
    ensures var j := Park(i, number, packets[number - 1]);
            InbInv(j) && Matches(j, packets) && j == i.(queue := j.queue)
  {
  }

  lemma ReadKeeps(i: Inbound, n: nat, packets: seq<seq<byte>>)
    requires InbInv(i) && Matches(i, packets)
    ensures InbInv(Read(i, n)) && Matches(Read(i, n), packets)
    ensures Read(i, n).read + Read(i, n).stream == i.read + i.stream
  {
    if i.stream != [] {
      var data := ReadResult(i, n).value;
      assert data + i.stream[|data|..] == i.stream;
      Reassociate(i.read, data, i.stream[|data|..]);
    }
  }

  // ---- the acknowledgement that comes with a packet ----

  /**
   * The next packet in order, received in time, has its acknowledgement stored and everything up
   * to it removed from the queue; any other packet leaves the outbound half alone.
   */
  lemma PacketAcknowledges(s: Stream, now: int, ack: nat, number: nat, data: seq<byte>)
    ensures var o, p := s.out, RecvMessage(s, now, ack, number, data).out;
            if number == s.inb.received + 1 && IsActive(s, now) then
              && p.delivered == ack
              && (forall k :: k in p.queue <==> k in o.queue && k > ack)
              && (forall k :: k in p.queue ==> p.queue[k] == o.queue[k])
              && p == o.(delivered := p.delivered, queue := p.queue)
            else p == o
  {
    hide Accept, Park;
  }

  /** Just the numbers 2 to 19 above the cursor are parked; earlier and later ones are discarded. */
  lemma ParksWindow(s: Stream, now: int, ack: nat, number: nat, data: seq<byte>)
    requires number != s.inb.received + 1
    ensures var q := RecvMessage(s, now, ack, number, data).inb.queue;
            if s.inb.received + 2 <= number <= s.inb.received + 19 then q == s.inb.queue[number := data]
            else q == s.inb.queue
  {
  }

  /** A read returns as many of the first bytes as there are and fit. */
  lemma ReadTakes(i: Inbound, n: nat)
    ensures ReadResult(i, n) == None <==> i.stream == []
    ensures i.stream != [] ==>
              var data := ReadResult(i, n).value;
              data <= i.stream && (|data| == n || |data| == |i.stream| <= n)
  {
  }

  // ---- which packets can be accepted ----

  /** Packets that read as control messages never get past the message handler. */
  predicate OnlyData(i: Inbound, packets: seq<seq<byte>>) {
    && (forall k :: 0 <= k < i.received && k < |packets| ==> KindOf(packets[k]) == KData)
    && (forall k :: k in i.queue ==> KindOf(i.queue[k]) == KData)
  }

  lemma AcceptKeepsData(i: Inbound, packets: seq<seq<byte>>, now: int)
    requires Matches(i, packets) && OnlyData(i, packets)
    requires i.received < |packets| && KindOf(packets[i.received]) == KData
    ensures OnlyData(Accept(i, now, packets[i.received]), packets)
  {
    hide KindOf, Drain, Deframe, Flatten;
    var j := Accept(i, now, packets[i.received]);
    AcceptAdvances(i, packets, now);
    forall k | 0 <= k < j.received && k < |packets| ensures KindOf(packets[k]) == KData {
      assert k <= i.received || k + 1 in i.queue;
    }
  }

  // ---- packet boundaries and the readable stream ----

  /** Accepting drops payload bytes if and only if the cursor moves across payload to a losing boundary. */
  lemma AcceptExactly(i: Inbound, packets: seq<seq<byte>>, now: int)
    requires InbInv(i) && Matches(i, packets) && i.received < |packets|
    ensures var j := Accept(i, now, packets[i.received]);
            && i.received < j.received <= |packets| && j.received < i.received + WINDOW
            && i.dropped <= j.dropped && j.read == i.read
            && (j.dropped == i.dropped <==> !Loses(packets, i.received, j.received))
            && Completed(packets, i.received) <= Completed(packets, j.received)
            && (!Loses(packets, i.received, j.received) ==>
                  j.stream == i.stream + Completed(packets, j.received)[|Completed(packets, i.received)|..])
  {
    hide Deframe, Flatten, Drain, Update, LostBytes;
    var j := Accept(i, now, packets[i.received]);
    AcceptTakes(i, packets, now);
    assert i.buffer == Leftover(packets, i.received);
    LostExactly(packets, i.received, j.received);
    CallExactly(packets, i.received, j.received, Inflow(i.buffer, i.stream));
  }

  lemma AcceptTakes(i: Inbound, packets: seq<seq<byte>>, now: int)
    requires Matches(i, packets) && i.received < |packets|
    ensures var j := Accept(i, now, packets[i.received]);
            && i.received < j.received <= |packets| && j.received < i.received + WINDOW
            && var run := Flatten(packets[i.received..j.received]);
               j == UpdateInbound(AppendInbound(i, run)).(received := j.received, queue := j.queue, lastHeard := now)
  {
    hide Drain, UpdateInbound;
    DrainTakesRun(i.queue, i.received + 1);
    DrainBytes(i.queue, i.received + 1, packets);
    var end := Drain(i.queue, i.received + 1).end;
    assert end == i.received + 1 || end in i.queue;
    FlattenRun(packets, i.received, end);
  }

  // ---- confluence of the reorder buffer ----

  datatype Arrival = Arrival(now: int, ack: nat, number: nat)

  predicate Numbered(a: Arrival, packets: seq<seq<byte>>) { 1 <= a.number <= |packets| }

  predicate AllNumbered(arrivals: seq<Arrival>, packets: seq<seq<byte>>) {
    forall i :: 0 <= i < |arrivals| ==> Numbered(arrivals[i], packets)
  }

  function RecvAll(s: Stream, packets: seq<seq<byte>>, arrivals: seq<Arrival>): Stream
    requires AllNumbered(arrivals, packets)
    decreases |arrivals|
  {
    if arrivals == [] then s
    else
      var a := arrivals[|arrivals| - 1];
      var before := RecvAll(s, packets, arrivals[..|arrivals| - 1]);
      RecvMessage(before, a.now, a.ack, a.number, packets[a.number - 1])
  }

  function NumbersOf(arrivals: seq<Arrival>): set<nat> {
    set i | 0 <= i < |arrivals| :: arrivals[i].number
  }

  predicate StaysActive(s: Stream, packets: seq<seq<byte>>, arrivals: seq<Arrival>)
    requires AllNumbered(arrivals, packets)
  {
    forall i :: 0 <= i < |arrivals| ==> IsActive(RecvAll(s, packets, arrivals[..i]), arrivals[i].now)
  }

  /** end is the largest number such that start+1 .. end are all available. */
  predicate IsRunEnd(available: set<nat>, start: nat, end: nat) {
    && start <= end
    && (forall k :: start < k <= end ==> k in available)
    && end + 1 !in available
  }

  lemma RunEndUnique(available: set<nat>, start: nat, e1: nat, e2: nat)
    requires IsRunEnd(available, start, e1) && IsRunEnd(available, start, e2)
    ensures e1 == e2
  {
    assert e1 < e2 ==> e1 + 1 in available;
    assert e2 < e1 ==> e2 + 1 in available;
  }

  /** The inbound half is settled by which numbers are available, not by how they came. */
  ghost predicate SettledBy(i: Inbound, available: set<nat>, start: nat, packets: seq<seq<byte>>) {
    && IsRunEnd(available, start, i.received)
    && (forall k :: k in i.queue <==> k in available && k > i.received)
    && InbInv(i) && Matches(i, packets)
  }

  /**
   * Any arrivals from the next 19 numbers, in any order and with repetitions, while the stream
   * stays active: the cursor ends at the largest gap-free number, the packets above it are
   * parked, and the accepted bytes are the packets up to it.
   */
  lemma {:induction false} ArrivalsSettle(s: Stream, packets: seq<seq<byte>>, arrivals: seq<Arrival>)
    requires InbInv(s.inb) && Matches(s.inb, packets) && AllNumbered(arrivals, packets)
    requires forall i :: 0 <= i < |arrivals| ==> s.inb.received < arrivals[i].number < s.inb.received + WINDOW
    requires StaysActive(s, packets, arrivals)
    ensures SettledBy(RecvAll(s, packets, arrivals).inb,
                      s.inb.queue.Keys + NumbersOf(arrivals), s.inb.received, packets)
    decreases |arrivals|
  {
    hide Deframe, Flatten, Accept, Park, RecvMessage;
    var start, parked := s.inb.received, s.inb.queue.Keys;
    if arrivals == [] {
      assert parked + NumbersOf(arrivals) == parked;
    } else {
      var n := |arrivals| - 1;
      var rest, a := arrivals[..n], arrivals[n];
      var t := RecvAll(s, packets, arrivals);
      assert t == RecvMessage(RecvAll(s, packets, rest), a.now, a.ack, a.number, packets[a.number - 1]);
      assert arrivals == rest + [a];
      StaysActiveBefore(s, packets, arrivals);
      ArrivalsSettle(s, packets, rest);
      var before, known := RecvAll(s, packets, rest), parked + NumbersOf(rest);
      assert parked + NumbersOf(arrivals) == known + {a.number} by {
        NumbersSnoc(rest, a);
      }
      assert IsActive(before, a.now);
      ArrivalSettles(before, packets, a, known, start);
    }
  }

  lemma StaysActiveBefore(s: Stream, packets: seq<seq<byte>>, arrivals: seq<Arrival>)
    requires arrivals != [] && AllNumbered(arrivals, packets) && StaysActive(s, packets, arrivals)
    ensures StaysActive(s, packets, arrivals[..|arrivals| - 1])
  {
    var rest := arrivals[..|arrivals| - 1];
    forall i | 0 <= i < |rest| ensures IsActive(RecvAll(s, packets, rest[..i]), rest[i].now) {
      assert rest[..i] == arrivals[..i];
    }
  }

  lemma NumbersSnoc(rest: seq<Arrival>, a: Arrival)
    ensures NumbersOf(rest + [a]) == NumbersOf(rest) + {a.number}
  {
    var all := rest + [a];
    forall k | k in NumbersOf(rest) + {a.number} ensures k in NumbersOf(all) {
      if k == a.number { assert all[|rest|].number == k; }
      else { var i :| 0 <= i < |rest| && rest[i].number == k; assert all[i].number == k; }
    }
  }

  lemma ArrivalSettles(s: Stream, packets: seq<seq<byte>>, a: Arrival, known: set<nat>, start: nat)
    requires SettledBy(s.inb, known, start, packets) && Numbered(a, packets)
    requires start < a.number < start + WINDOW && IsActive(s, a.now)
    ensures SettledBy(RecvMessage(s, a.now, a.ack, a.number, packets[a.number - 1]).inb,
                      known + {a.number}, start, packets)
  {
    hide Accept, Deframe, Flatten, KindOf;
    if a.number == s.inb.received + 1 {
      AcceptSettles(s.inb, packets, a.now, known, start);
    } else {
      ParkKeeps(s.inb, packets, a.number);
    }
  }

  lemma AcceptSettles(i: Inbound, packets: seq<seq<byte>>, now: int, known: set<nat>, start: nat)
    requires SettledBy(i, known, start, packets) && i.received < |packets|
    ensures SettledBy(Accept(i, now, packets[i.received]), known + {i.received + 1}, start, packets)
  {
    var j := Accept(i, now, packets[i.received]);
    AcceptKeeps(i, packets, now);
    AcceptAdvances(i, packets, now);
    var more := known + {i.received + 1};
    forall k | start < k <= j.received ensures k in more {
      assert k <= i.received || k == i.received + 1 || k in i.queue;
    }
  }

  // ---- what the reader sees of a series of arrivals ----

  function Cursor(s: Stream, packets: seq<seq<byte>>, arrivals: seq<Arrival>): nat
    requires AllNumbered(arrivals, packets)
  {
    RecvAll(s, packets, arrivals).inb.received
  }

  /** No arrival moves the cursor across completed payload to a boundary that leaves 1 to 3 bytes. */
  ghost predicate LosesNothing(s: Stream, packets: seq<seq<byte>>, arrivals: seq<Arrival>)
    requires AllNumbered(arrivals, packets)
  {
    forall k :: 0 <= k < |arrivals| ==>
      !Loses(packets, Cursor(s, packets, arrivals[..k]), Cursor(s, packets, arrivals[..k + 1]))
  }

  lemma LosesNothingSnoc(s: Stream, packets: seq<seq<byte>>, arrivals: seq<Arrival>)
    requires arrivals != [] && AllNumbered(arrivals, packets)
    ensures var n := |arrivals| - 1;
            LosesNothing(s, packets, arrivals) <==>
            LosesNothing(s, packets, arrivals[..n])
            && !Loses(packets, Cursor(s, packets, arrivals[..n]), Cursor(s, packets, arrivals))
  {
    hide Cursor, Loses;
    var n := |arrivals| - 1;
    assert arrivals[..n + 1] == arrivals;
    forall k | 0 <= k <= n ensures arrivals[..n][..k] == arrivals[..k] {}
  }

  /** The books after one arrival, from those before it. */
  lemma ArrivalBooks(s: Stream, packets: seq<seq<byte>>, a: Arrival)
    requires InbInv(s.inb) && Matches(s.inb, packets) && Numbered(a, packets)
    ensures var i, j := s.inb, RecvMessage(s, a.now, a.ack, a.number, packets[a.number - 1]).inb;
            && InbInv(j) && Matches(j, packets)
            && i.received <= j.received <= |packets| && j.received < i.received + WINDOW
            && i.dropped <= j.dropped && j.read == i.read
            && (j.dropped == i.dropped <==> !Loses(packets, i.received, j.received))
            && Completed(packets, i.received) <= Completed(packets, j.received)
            && (!Loses(packets, i.received, j.received) ==>
                  j.stream == i.stream + Completed(packets, j.received)[|Completed(packets, i.received)|..])
  {
    hide Loses, InbInv, Matches, Completed, Accept;
    if a.number == s.inb.received + 1 && IsActive(s, a.now) {
      AcceptExactly(s.inb, packets, a.now);
      AcceptKeeps(s.inb, packets, a.now);
    } else {
      NoMoveNoLoss(packets, s.inb);
      if a.number != s.inb.received + 1 { ParkKeeps(s.inb, packets, a.number); }
    }
  }

  lemma NoMoveNoLoss(packets: seq<seq<byte>>, i: Inbound)
    requires Matches(i, packets)
    ensures i.received <= |packets| && !Loses(packets, i.received, i.received)
    ensures i.stream + Completed(packets, i.received)[|Completed(packets, i.received)|..] == i.stream
  {
  }

  lemma SliceJoin(t: seq<byte>, a: seq<byte>, b: seq<byte>, c: seq<byte>)
    requires a <= b <= c
    ensures (t + b[|a|..]) + c[|b|..] == t + c[|a|..]
  {
    assert c == b + c[|b|..];
  }

  /**
   * Whatever arrives, in whatever order: the readable stream gains all payload that the accepted
   * packets complete if and only if no stop of the cursor loses.
   */
  lemma {:induction false} ArrivalsExactly(s: Stream, packets: seq<seq<byte>>, arrivals: seq<Arrival>)
    requires InbInv(s.inb) && Matches(s.inb, packets) && AllNumbered(arrivals, packets)
    ensures var i, j := s.inb, RecvAll(s, packets, arrivals).inb;
            && InbInv(j) && Matches(j, packets)
            && i.received <= j.received <= |packets| && i.dropped <= j.dropped && j.read == i.read
            && (j.dropped == i.dropped <==> LosesNothing(s, packets, arrivals))
            && Completed(packets, i.received) <= Completed(packets, j.received)
            && (j.stream == i.stream + Completed(packets, j.received)[|Completed(packets, i.received)|..]
                <==> LosesNothing(s, packets, arrivals))
    decreases |arrivals|
  {
    hide Loses, InbInv, Matches, Completed, RecvMessage, LosesNothing;
    var i, j := s.inb, RecvAll(s, packets, arrivals).inb;
    if arrivals == [] {
      NoMoveNoLoss(packets, i);
      NoArrivals(s, packets, arrivals);
    } else {
      var n := |arrivals| - 1;
      var a, before := arrivals[n], RecvAll(s, packets, arrivals[..n]);
      ArrivalsExactly(s, packets, arrivals[..n]);
      ArrivalBooks(before, packets, a);
      LosesNothingSnoc(s, packets, arrivals);
      SliceJoin(i.stream, Completed(packets, i.received),
                Completed(packets, before.inb.received), Completed(packets, j.received));
      Books(i, packets);
      Books(j, packets);
    }
  }

  lemma NoArrivals(s: Stream, packets: seq<seq<byte>>, arrivals: seq<Arrival>)
    requires arrivals == []
    ensures AllNumbered(arrivals, packets) && LosesNothing(s, packets, arrivals)
  {
  }

  lemma Books(i: Inbound, packets: seq<seq<byte>>)
    requires InbInv(i) && Matches(i, packets)
    ensures i.received <= |packets|
    ensures |i.read| + |i.stream| + i.dropped == |Completed(packets, i.received)|
  {
  }

  /**
   * Two series of arrivals of the same numbers, in any order and with repetitions, leave the same
   * cursor, reorder map, accepted bytes and leftover bytes. If one of them loses nothing, they
   * leave the same readable stream if and only if the other loses nothing either.
   */
  lemma SameNumbersSameBytes(s: Stream, packets: seq<seq<byte>>, one: seq<Arrival>, two: seq<Arrival>)
    requires InbInv(s.inb) && Matches(s.inb, packets)
    requires AllNumbered(one, packets) && AllNumbered(two, packets) && NumbersOf(one) == NumbersOf(two)
    requires forall k :: k in NumbersOf(one) ==> s.inb.received < k < s.inb.received + WINDOW
    requires StaysActive(s, packets, one) && StaysActive(s, packets, two)
    ensures var i, j := RecvAll(s, packets, one).inb, RecvAll(s, packets, two).inb;
            && i.received == j.received && i.queue == j.queue && i.accepted == j.accepted && i.buffer == j.buffer
            && (LosesNothing(s, packets, one) ==> (i.stream == j.stream <==> LosesNothing(s, packets, two)))
  {
    hide Deframe, Flatten, RecvAll, RecvMessage, StaysActive, Loses, LosesNothing, Completed;
    forall x | 0 <= x < |one| ensures one[x].number in NumbersOf(one) {}
    forall x | 0 <= x < |two| ensures two[x].number in NumbersOf(two) {}
    ArrivalsSettle(s, packets, one);
    ArrivalsSettle(s, packets, two);
    var available := s.inb.queue.Keys + NumbersOf(one);
    var i, j := RecvAll(s, packets, one).inb, RecvAll(s, packets, two).inb;
    RunEndUnique(available, s.inb.received, i.received, j.received);
    assert i.queue.Keys == j.queue.Keys;
    ArrivalsExactly(s, packets, one);
    ArrivalsExactly(s, packets, two);
  }
}
