/**
 * What the order of arrivals decides: how packets must be cut for every order to be read whole,
 * and for at least one order to be.
 */
module Orders {
  import opened Bytes
  import opened Framing
  import opened Protocol
  import opened Receiver

  // ---- boundaries that are safe for every order ----

  /**
   * No move of the cursor that the window allows loses: a condition on the packets alone, which
   * the sender can check.
   */
  predicate SafeBoundaries(packets: seq<seq<byte>>) {
    forall n, end :: 0 <= n < |packets| && n < end <= |packets| && end < n + WINDOW ==> !Loses(packets, n, end)
  }

  lemma {:induction false} SafeLosesNothing(s: Stream, packets: seq<seq<byte>>, arrivals: seq<Arrival>)
    requires InbInv(s.inb) && Matches(s.inb, packets) && AllNumbered(arrivals, packets) && SafeBoundaries(packets)
    ensures LosesNothing(s, packets, arrivals)
    decreases |arrivals|
  {
    hide Loses, InbInv, Matches, Completed, RecvMessage, LosesNothing, SafeBoundaries;
    if arrivals == [] {
      NoArrivals(s, packets, arrivals);
    } else {
      var n := |arrivals| - 1;
      SafeLosesNothing(s, packets, arrivals[..n]);
      ArrivalsExactly(s, packets, arrivals[..n]);
      var before := RecvAll(s, packets, arrivals[..n]);
      ArrivalBooks(before, packets, arrivals[n]);
      SafeMove(packets, before.inb.received, Cursor(s, packets, arrivals));
      LosesNothingSnoc(s, packets, arrivals);
    }
  }

  lemma SafeMove(packets: seq<seq<byte>>, n: nat, end: nat)
    requires SafeBoundaries(packets) && n <= end < n + WINDOW
    ensures !Loses(packets, n, end)
  {
  }

  /** Numbers 1 .. n in order, all at one time. */
  function Upwards(now: int, n: nat): seq<Arrival> {
    if n == 0 then [] else Upwards(now, n - 1) + [Arrival(now, 0, n)]
  }

  /** Numbers end .. n + 1, the last one first. */
  function Downwards(now: int, n: nat, end: nat): (r: seq<Arrival>)
    requires n <= end
    ensures |r| == end - n && forall i :: 0 <= i < |r| ==> r[i] == Arrival(now, 0, end - i)
    decreases end - n
  {
    if n == end then [] else Downwards(now, n + 1, end) + [Arrival(now, 0, n + 1)]
  }

  predicate AllAt(arrivals: seq<Arrival>, now: int) { forall i :: 0 <= i < |arrivals| ==> arrivals[i].now == now }

  lemma {:induction false} AllAtOnce(s: Stream, packets: seq<seq<byte>>, arrivals: seq<Arrival>, now: int)
    requires IsActive(s, now) && AllNumbered(arrivals, packets) && AllAt(arrivals, now)
    ensures IsActive(RecvAll(s, packets, arrivals), now) && StaysActive(s, packets, arrivals)
    decreases |arrivals|
  {
    hide RecvMessage, Fresh;
    if arrivals != [] {
      var n := |arrivals| - 1;
      AllAtOnce(s, packets, arrivals[..n], now);
      StillActive(RecvAll(s, packets, arrivals[..n]), packets, arrivals[n], now);
      forall i | 0 <= i < |arrivals| ensures IsActive(RecvAll(s, packets, arrivals[..i]), arrivals[i].now) {
        if i < n { assert arrivals[..n][..i] == arrivals[..i]; }
      }
    }
  }

  lemma StillActive(s: Stream, packets: seq<seq<byte>>, a: Arrival, now: int)
    requires IsActive(s, now) && Numbered(a, packets) && a.now == now
    ensures IsActive(RecvMessage(s, a.now, a.ack, a.number, packets[a.number - 1]), now)
  {
    hide Drain, Update;
  }

  lemma NextAlone(s: Stream, data: seq<byte>, now: int)
    requires IsActive(s, now) && s.inb.queue == map[]
    ensures var i := RecvMessage(s, now, 0, s.inb.received + 1, data).inb;
            i.received == s.inb.received + 1 && i.queue == map[]
  {
    hide Accept, UpdateInbound;
    AcceptAlone(s.inb, now, data);
  }

  lemma {:induction false} UpwardsArrive(s: Stream, packets: seq<seq<byte>>, now: int, n: nat)
    requires IsActive(s, now) && s.inb.received == 0 && s.inb.queue == map[] && n <= |packets|
    ensures AllNumbered(Upwards(now, n), packets) && AllAt(Upwards(now, n), now)
    ensures var t := RecvAll(s, packets, Upwards(now, n));
            t.inb.received == n && t.inb.queue == map[] && IsActive(t, now)
  {
    hide RecvMessage, IsActive, StaysActive;
    if n > 0 {
      UpwardsArrive(s, packets, now, n - 1);
      var ups, before := Upwards(now, n), RecvAll(s, packets, Upwards(now, n - 1));
      assert ups[..|ups| - 1] == Upwards(now, n - 1);
      NextAlone(before, packets[n - 1], now);
      AllAtOnce(s, packets, ups, now);
    }
  }

  lemma {:induction false} RecvJoin(s: Stream, packets: seq<seq<byte>>, one: seq<Arrival>, two: seq<Arrival>)
    requires AllNumbered(one, packets) && AllNumbered(two, packets)
    ensures AllNumbered(one + two, packets)
    ensures RecvAll(s, packets, one + two) == RecvAll(RecvAll(s, packets, one), packets, two)
    decreases |two|
  {
    hide RecvMessage;
    if two == [] {
      assert one + two == one;
    } else {
      var n := |two| - 1;
      RecvJoin(s, packets, one, two[..n]);
      var all := one + two;
      assert all[..|all| - 1] == one + two[..n];
    }
  }

  lemma DownwardsNumbers(now: int, n: nat, end: nat)
    requires n <= end
    ensures forall k :: k in NumbersOf(Downwards(now, n, end)) <==> n < k <= end
  {
    var down := Downwards(now, n, end);
    forall k | n < k <= end ensures k in NumbersOf(down) { assert down[end - k].number == k; }
  }

  /** Where the numbers end .. m + 1 take a cursor that stands at n with nothing parked. */
  lemma DownwardsArrive(s: Stream, packets: seq<seq<byte>>, now: int, n: nat, m: nat, end: nat)
    requires InbInv(s.inb) && Matches(s.inb, packets) && IsActive(s, now) && s.inb.received == n && s.inb.queue == map[]
    requires n <= m < end <= |packets| && end < n + WINDOW
    ensures AllNumbered(Downwards(now, m, end), packets)
    ensures Cursor(s, packets, Downwards(now, m, end)) == if m == n then end else n
  {
    hide RecvMessage, RecvAll, InbInv, Matches, StaysActive;
    var down := Downwards(now, m, end);
    AllAtOnce(s, packets, down, now);
    ArrivalsSettle(s, packets, down);
    DownwardsNumbers(now, m, end);
    var available := s.inb.queue.Keys + NumbersOf(down);
    RunEndUnique(available, n, Cursor(s, packets, down), if m == n then end else n);
  }

  /** A losing move within the window is taken by 1 .. n in order and then end down to n + 1. */
  lemma SomeOrderLoses(s: Stream, packets: seq<seq<byte>>, now: int, n: nat, end: nat) returns (arrivals: seq<Arrival>)
    requires InbInv(s.inb) && Matches(s.inb, packets) && IsActive(s, now) && s.inb.received == 0 && s.inb.queue == map[]
    requires n < end < n + WINDOW && Loses(packets, n, end)
    ensures AllNumbered(arrivals, packets) && AllAt(arrivals, now) && !LosesNothing(s, packets, arrivals)
  {
    hide RecvMessage, RecvAll, InbInv, Matches, Loses, LosesNothing, IsActive, Cursor;
    assert end <= |packets| by { LosesInside(packets, n, end); }
    var up, down, early := Upwards(now, n), Downwards(now, n, end), Downwards(now, n + 1, end);
    UpwardsArrive(s, packets, now, n);
    ArrivalsExactly(s, packets, up);
    var t := RecvAll(s, packets, up);
    DownwardsArrive(t, packets, now, n, n, end);
    if n + 1 < end { DownwardsArrive(t, packets, now, n, n + 1, end); }
    arrivals := up + down;
    assert arrivals[..|arrivals| - 1] == up + early;
    CursorJoin(s, packets, up, down);
    CursorJoin(s, packets, up, early);
    if n + 1 == end { CursorStart(t, packets); }
    LosesNothingSnoc(s, packets, arrivals);
  }

  lemma LosesInside(packets: seq<seq<byte>>, n: nat, end: nat)
    requires Loses(packets, n, end)
    ensures n <= end <= |packets|
  {
  }

  lemma CursorJoin(s: Stream, packets: seq<seq<byte>>, one: seq<Arrival>, two: seq<Arrival>)
    requires AllNumbered(one, packets) && AllNumbered(two, packets)
    ensures AllNumbered(one + two, packets)
    ensures Cursor(s, packets, one + two) == Cursor(RecvAll(s, packets, one), packets, two)
  {
    RecvJoin(s, packets, one, two);
  }

  lemma CursorStart(s: Stream, packets: seq<seq<byte>>)
    ensures Cursor(s, packets, []) == s.inb.received
  {
  }

  ghost predicate EveryOrderIsSafe(s: Stream, packets: seq<seq<byte>>) {
    forall arrivals: seq<Arrival> | AllNumbered(arrivals, packets) :: LosesNothing(s, packets, arrivals)
  }

  /**
   * For a fresh active receiver: every series of arrivals, in every order and with any repetitions,
   * gives the reader all payload the accepted packets complete, if and only if the packets are cut
   * so that no move within the window loses.
   */
  lemma SafeForEveryOrder(s: Stream, packets: seq<seq<byte>>, now: int)
    requires IsFresh(s.inb) && IsActive(s, now)
    ensures EveryOrderIsSafe(s, packets) <==> SafeBoundaries(packets)
  {
    hide Loses, LosesNothing, IsActive;
    assert InbInv(s.inb) && Matches(s.inb, packets) by { FreshBooks(s.inb, packets); }
    if SafeBoundaries(packets) {
      forall arrivals: seq<Arrival> | AllNumbered(arrivals, packets) ensures LosesNothing(s, packets, arrivals) {
        SafeLosesNothing(s, packets, arrivals);
      }
    } else {
      var n: nat, end: nat :| n < end <= |packets| && end < n + WINDOW && Loses(packets, n, end);
      var arrivals := SomeOrderLoses(s, packets, now, n, end);
      assert AllNumbered(arrivals, packets) && !LosesNothing(s, packets, arrivals);
    }
  }

  /** Nothing has arrived yet. */
  predicate IsFresh(i: Inbound) { i == Inbound([], [], 0, map[], i.lastHeard, [], [], 0) }

  lemma FreshBooks(i: Inbound, packets: seq<seq<byte>>)
    requires IsFresh(i)
    ensures InbInv(i) && Matches(i, packets)
  {
    assert packets[..0] == [];
  }

  // ---- boundaries that some order gets past ----

  /**
   * The cursor can come to stand at n without loss: by moves that the window allows and that do
   * not lose. Again a condition on the packets alone.
   */
  predicate CanStopAt(packets: seq<seq<byte>>, n: nat)
    decreases n
  {
    n == 0 || exists m :: 0 <= m < n && n < m + WINDOW && CanStopAt(packets, m) && !Loses(packets, m, n)
  }

  lemma StopNext(packets: seq<seq<byte>>, m: nat, n: nat)
    requires CanStopAt(packets, m) && m <= n < m + WINDOW && !Loses(packets, m, n)
    ensures CanStopAt(packets, n)
  {
  }

  /** Safe boundaries can all be stopped at, one by one. */
  lemma {:induction false} SafeStops(packets: seq<seq<byte>>, n: nat)
    requires SafeBoundaries(packets) && n <= |packets|
    ensures CanStopAt(packets, n)
  {
    if n > 0 {
      SafeStops(packets, n - 1);
      SafeMove(packets, n - 1, n);
      StopNext(packets, n - 1, n);
    }
  }

  /** Arrivals that lose nothing leave the cursor where it can stop. */
  lemma {:induction false} LosesNothingStops(s: Stream, packets: seq<seq<byte>>, arrivals: seq<Arrival>)
    requires InbInv(s.inb) && Matches(s.inb, packets) && AllNumbered(arrivals, packets) && s.inb.received == 0
    requires LosesNothing(s, packets, arrivals)
    ensures CanStopAt(packets, Cursor(s, packets, arrivals))
    decreases |arrivals|
  {
    hide Loses, InbInv, Matches, Completed, RecvMessage, LosesNothing, CanStopAt;
    if arrivals == [] {
      NoStops(packets);
    } else {
      var n := |arrivals| - 1;
      LosesNothingSnoc(s, packets, arrivals);
      LosesNothingStops(s, packets, arrivals[..n]);
      ArrivalsExactly(s, packets, arrivals[..n]);
      ArrivalBooks(RecvAll(s, packets, arrivals[..n]), packets, arrivals[n]);
      StopNext(packets, Cursor(s, packets, arrivals[..n]), Cursor(s, packets, arrivals));
    }
  }

  lemma NoStops(packets: seq<seq<byte>>)
    ensures CanStopAt(packets, 0)
  {
  }

  /** The numbers end .. m + 1, with m above the cursor n, do not move it, so they lose nothing. */
  lemma {:induction false} DownwardsWait(s: Stream, packets: seq<seq<byte>>, now: int, n: nat, m: nat, end: nat)
    requires InbInv(s.inb) && Matches(s.inb, packets) && IsActive(s, now) && s.inb.received == n && s.inb.queue == map[]
    requires n < m <= end <= |packets| && end < n + WINDOW
    ensures AllNumbered(Downwards(now, m, end), packets) && LosesNothing(s, packets, Downwards(now, m, end))
    ensures Cursor(s, packets, Downwards(now, m, end)) == n
    decreases end - m
  {
    hide RecvMessage, RecvAll, InbInv, Matches, Loses, LosesNothing, IsActive;
    var down := Downwards(now, m, end);
    if m == end {
      NoArrivals(s, packets, down);
      CursorStart(s, packets);
    } else {
      DownwardsArrive(s, packets, now, n, m, end);
      DownwardsWait(s, packets, now, n, m + 1, end);
      assert down[..|down| - 1] == Downwards(now, m + 1, end);
      NoMoveNoLoss(packets, s.inb);
      LosesNothingSnoc(s, packets, down);
    }
  }

  /** A safe move from n to end is made by the numbers end .. n + 1, the last one first. */
  lemma MoveDownwards(s: Stream, packets: seq<seq<byte>>, now: int, n: nat, end: nat)
    requires InbInv(s.inb) && Matches(s.inb, packets) && IsActive(s, now) && s.inb.received == n && s.inb.queue == map[]
    requires n < end <= |packets| && end < n + WINDOW && !Loses(packets, n, end)
    ensures AllNumbered(Downwards(now, n, end), packets)
    ensures var t := RecvAll(s, packets, Downwards(now, n, end));
            t.inb.received == end && t.inb.queue == map[] && t.inb.dropped == s.inb.dropped && IsActive(t, now)
  {
    hide RecvMessage, RecvAll, InbInv, Matches, Loses, LosesNothing, IsActive, StaysActive;
    var down := Downwards(now, n, end);
    AllAtOnce(s, packets, down, now);
    DownwardsArrive(s, packets, now, n, n, end);
    DownwardsWait(s, packets, now, n, n + 1, end);
    assert down[..|down| - 1] == Downwards(now, n + 1, end);
    LosesNothingSnoc(s, packets, down);
    ArrivalsExactly(s, packets, down);
    ArrivalsSettle(s, packets, down);
    DownwardsNumbers(now, n, end);
    assert RecvAll(s, packets, down).inb.queue.Keys == {};
  }

  /** Where the cursor can stop, some arrivals take it without loss, each packet arriving once. */
  lemma {:induction false} ArrivalsTo(s: Stream, packets: seq<seq<byte>>, now: int, n: nat)
    returns (arrivals: seq<Arrival>)
    requires IsFresh(s.inb) && IsActive(s, now) && n <= |packets| && CanStopAt(packets, n)
    ensures |arrivals| == n && AllNumbered(arrivals, packets) && AllAt(arrivals, now)
    ensures var t := RecvAll(s, packets, arrivals);
            t.inb.received == n && t.inb.queue == map[] && t.inb.dropped == 0 && IsActive(t, now)
    decreases n
  {
    hide RecvMessage, InbInv, Matches, Loses, LosesNothing, IsActive, Completed;
    if n == 0 {
      arrivals := [];
    } else {
      var m :| 0 <= m < n && n < m + WINDOW && CanStopAt(packets, m) && !Loses(packets, m, n);
      var before := ArrivalsTo(s, packets, now, m);
      FreshBooks(s.inb, packets);
      ArrivalsExactly(s, packets, before);
      MoveDownwards(RecvAll(s, packets, before), packets, now, m, n);
      RecvJoin(s, packets, before, Downwards(now, m, n));
      arrivals := before + Downwards(now, m, n);
    }
  }

  /** Some arrivals make s accept all the packets and lose nothing. */
  ghost predicate SomeOrderIsSafe(s: Stream, packets: seq<seq<byte>>) {
    exists arrivals: seq<Arrival> | AllNumbered(arrivals, packets) ::
      LosesNothing(s, packets, arrivals) && Cursor(s, packets, arrivals) == |packets|
  }

  /**
   * For a fresh active receiver: some series of arrivals gives the reader the payload of all the
   * packets if and only if the cursor can come to stand at the last of them without loss.
   */
  lemma SafeForSomeOrder(s: Stream, packets: seq<seq<byte>>, now: int)
    requires IsFresh(s.inb) && IsActive(s, now)
    ensures SomeOrderIsSafe(s, packets) <==> CanStopAt(packets, |packets|)
  {
    hide LosesNothing, IsActive, CanStopAt, RecvAll, InbInv, Matches;
    FreshBooks(s.inb, packets);
    if CanStopAt(packets, |packets|) {
      var arrivals := ArrivalsTo(s, packets, now, |packets|);
      ArrivalsExactly(s, packets, arrivals);
      assert LosesNothing(s, packets, arrivals) && Cursor(s, packets, arrivals) == |packets|;
    } else if SomeOrderIsSafe(s, packets) {
      var arrivals: seq<Arrival> :| AllNumbered(arrivals, packets)
        && LosesNothing(s, packets, arrivals) && Cursor(s, packets, arrivals) == |packets|;
      LosesNothingStops(s, packets, arrivals);
    }
  }

  // ---- an example ----

  /**
   * The order decides what is read. After a 32617-byte write the first packet ends two bytes into
   * the next header: arriving in order, the two packets give the reader the second write without
   * the first; arriving in the opposite order they give both.
   */
  lemma OrderChangesTheStream(s: Stream, w1: seq<byte>, w2: seq<byte>, now: int, ack: nat)
    requires IsFresh(s.inb) && IsActive(s, now)
    requires |w1| == PACKET_LIMIT - 6 && 1 <= |w2| <= PACKET_LIMIT - 2
    ensures var packets := Chunks(Framed([w1, w2]));
            && |packets| == 2
            && var first, second := Arrival(now, ack, 1), Arrival(now, ack, 2);
            && RecvAll(s, packets, [first, second]).inb.stream == w2
            && RecvAll(s, packets, [second, first]).inb.stream == w1 + w2
  {
    hide Deframe, Flatten, Update, Chunks, Framed, LostBytes, Drain, RecvMessage;
    var packets := Chunks(Framed([w1, w2]));
    TwoPackets(w1, w2);
    var first, second := Arrival(now, ack, 1), Arrival(now, ack, 2);
    RecvTwo(s, packets, first, second);
    RecvTwo(s, packets, second, first);
    InOrderLosesFirst(s, w1, w2, now, ack);
    OppositeOrderKeepsBoth(s, w1, w2, now, ack);
  }

  lemma RecvTwo(s: Stream, packets: seq<seq<byte>>, a: Arrival, b: Arrival)
    requires Numbered(a, packets) && Numbered(b, packets)
    ensures RecvAll(s, packets, [a, b])
            == RecvMessage(RecvMessage(s, a.now, a.ack, a.number, packets[a.number - 1]),
                           b.now, b.ack, b.number, packets[b.number - 1])
  {
    hide RecvMessage;
    var two := [a, b];
    assert two[..1] == [a] && [a][..0] == [];
    assert RecvAll(s, packets, two[..1])
           == RecvMessage(RecvAll(s, packets, [a][..0]), a.now, a.ack, a.number, packets[a.number - 1]);
  }

  lemma AcceptAlone(i: Inbound, now: int, data: seq<byte>)
    requires i.queue == map[]
    ensures Accept(i, now, data)
            == UpdateInbound(AppendInbound(i, data)).(received := i.received + 1, queue := map[], lastHeard := now)
  {
    hide UpdateInbound;
    assert data + [] == data;
  }

  lemma InOrderLosesFirst(s: Stream, w1: seq<byte>, w2: seq<byte>, now: int, ack: nat)
    requires IsFresh(s.inb) && IsActive(s, now)
    requires |w1| == PACKET_LIMIT - 6 && 1 <= |w2| <= PACKET_LIMIT - 2
    ensures var packets := Chunks(Framed([w1, w2]));
            |packets| == 2
            && RecvMessage(RecvMessage(s, now, ack, 1, packets[0]), now, ack, 2, packets[1]).inb.stream == w2
  {
    hide Deframe, Flatten, Chunks, Framed, Accept;
    var packets := Chunks(Framed([w1, w2]));
    TwoPackets(w1, w2);
    EarlyReturnLosesAWrite(w1, w2);
    FeedTwo(Inflow([], []), packets[0], packets[1]);
    AcceptAlone(s.inb, now, packets[0]);
    var t := RecvMessage(s, now, ack, 1, packets[0]);
    AcceptAlone(t.inb, now, packets[1]);
  }

  lemma OppositeOrderKeepsBoth(s: Stream, w1: seq<byte>, w2: seq<byte>, now: int, ack: nat)
    requires IsFresh(s.inb) && IsActive(s, now)
    requires |w1| == PACKET_LIMIT - 6 && 1 <= |w2| <= PACKET_LIMIT - 2
    ensures var packets := Chunks(Framed([w1, w2]));
            |packets| == 2
            && RecvMessage(RecvMessage(s, now, ack, 2, packets[1]), now, ack, 1, packets[0]).inb.stream == w1 + w2
  {
    hide Deframe, Flatten, Chunks, Framed, Drain;
    var packets := Chunks(Framed([w1, w2]));
    TwoPackets(w1, w2);
    var all := packets[0] + packets[1];
    assert all == Framed([w1, w2]);
    RoundTrip([w1, w2]);
    TwoParked(packets[1]);
    FlattenSnoc([w1], w2);
    FlattenOne(w1);
    assert [w1] + [w2] == [w1, w2];
    assert [] + all == all;
  }

  lemma TwoParked(data: seq<byte>)
    ensures Drain(map[2 := data], 1) == Drained(2, map[], data)
  {
    var queue: map<nat, seq<byte>> := map[2 := data];
    assert queue - {2} == map[];
    assert Drain(map[], 2) == Drained(2, map[], []);
    assert data + [] == data;
  }
}
