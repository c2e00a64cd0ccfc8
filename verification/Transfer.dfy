/**
 * From two idle ends to the peer's application: which lists of writes some run delivers whole,
 * and which every run does.
 */
module Transfer {
  import opened Bytes
  import opened Framing
  import opened Wire
  import opened Protocol
  import opened Receiver
  import opened Orders
  import opened Network
  import opened NetworkInvariant
  import opened NetworkTheorems
  import opened Reading
  import opened Deliveries
  import opened Progress
  import opened Handshake

  // ---- all packets on the network, none arrived ----

  /** a is Active and has sent all packets of ws, b waits in Listen and has received nothing. */
  predicate Loaded(s: System, ws: seq<seq<byte>>) {
    && Inv(s) && Bounded(s.a) && Bounded(s.b)
    && JustHeard(s.a) && s.a.session.value.out.stream == [] && Writes(s.a) == ws
    && Packets(s.a) == Chunks(Framed(ws)) && AllInChannel(s.a, 0)
    && Waits(s.b, Listening) && Planned(s.b) == []
    && IsFresh(s.b.session.value.inb) && s.b.session.value.inb.lastHeard == s.b.clock
  }

  lemma LoadedFromPrepared(s: System, ws: seq<seq<byte>>) returns (t: System)
    requires Prepared(s, ws) && |Chunks(Framed(ws))| < U32 - WINDOW
    ensures StepsTo(s, t, 3) && Loaded(t, ws)
  {
    hide OwnInv, Step, StepsTo, Genuine, AllInChannel, Plan, Chunks, Framed;
    var u, dial := DialGoesOut(s);
    RoomBounds(u.a);
    var v, listen := DialArrives(u, dial);
    t := ListenArrives(v, listen);
    OneStep(s, u);
    OneStep(u, v);
    OneStep(v, t);
    StepsJoin(s, u, v, 1, 1);
    StepsJoin(s, v, t, 2, 1);
  }

  lemma LoadedFromScratch(s: System, ws: seq<seq<byte>>) returns (t: System)
    requires Init(s) && |Chunks(Framed(ws))| < U32 - WINDOW
    ensures StepsTo(s, t, |ws| + 4) && Loaded(t, ws)
  {
    hide Init, StepsTo, Prepared, Loaded, Chunks, Framed;
    var u := DialAndWrite(s, ws);
    t := LoadedFromPrepared(u, ws);
    StepsJoin(s, u, t, |ws| + 1, 3);
  }

  // ---- any series of arrivals is a schedule ----

  /** The stream of b as a data message finds it. */
  function Woken(b: Endpoint): Stream
    requires b.session.Some?
  {
    WithStatus(b.session.value, Active)
  }

  /** The inbound half depends on no acknowledgement and on nothing in the outbound half. */
  lemma RecvInbound(s: Stream, t: Stream, now: int, ack: nat, other: nat, number: nat, data: seq<byte>)
    requires s.inb == t.inb && s.ctl.status == t.ctl.status
    ensures RecvMessage(s, now, ack, number, data).inb == RecvMessage(t, now, other, number, data).inb
    ensures RecvMessage(s, now, ack, number, data).ctl == s.ctl
  {
    hide Accept, Park;
  }

  lemma {:induction false} RecvAllControl(s: Stream, packets: seq<seq<byte>>, arrivals: seq<Arrival>)
    requires AllNumbered(arrivals, packets)
    ensures RecvAll(s, packets, arrivals).ctl == s.ctl
    decreases |arrivals|
  {
    hide RecvMessage;
    if arrivals != [] {
      var n := |arrivals| - 1;
      var a, before := arrivals[n], RecvAll(s, packets, arrivals[..n]);
      RecvAllControl(s, packets, arrivals[..n]);
      RecvInbound(before, before, a.now, a.ack, a.ack, a.number, packets[a.number - 1]);
    }
  }

  predicate Receptive(e: Endpoint) { e.mapped && (Has(e, Listening) || Has(e, Active)) }

  lemma PickPacket(x: Endpoint, k: nat) returns (m: Payload)
    requires x.session.Some? && 1 <= k <= |Packets(x)| && AllInChannel(x, 0) && TagFree(Packets(x))
    ensures m in x.sent && m.msgSeq == k && m.data == Packets(x)[k - 1] && Genuine(x, m) && KindOf(m.data) == KData
  {
    hide KindOf;
    assert InChannel(x, k);
    m :| m in x.sent && m.msgSeq == k && Genuine(x, m) && IsPacket(x.session.value, m);
  }

  /** One arrival, of a packet that is on the network. */
  lemma ArrivalHappens(s: System, k: nat, other: nat) returns (t: System)
    requires Inv(s) && Bounded(s.a) && Bounded(s.b) && Receptive(s.b)
    requires 1 <= k <= |Packets(s.a)| && AllInChannel(s.a, 0) && TagFree(Packets(s.a))
    ensures StepsTo(s, t, 1) && Inv(t) && t.a == s.a && Bounded(t.b) && Receptive(t.b) && Has(t.b, Active)
    ensures t.b.clock == s.b.clock && Planned(t.b) == Planned(s.b)
    ensures t.b.session.value.inb == RecvMessage(Woken(s.b), s.b.clock, other, k, Packets(s.a)[k - 1]).inb
  {
    hide Step, OwnInv, Handle, Grows, RecvMessage, Plan, AllInChannel, TagFree, KindOf, Genuine;
    var m := PickPacket(s.a, k);
    var act := Deliver(m, CALM.(now := s.b.clock));
    CanDeliver(s, m);
    DataOutcome(s.b, s.a, m, act.env);
    t := ByB(s, act);
    RecvShape(Woken(s.b), s.b.clock, m);
    RecvInbound(Woken(s.b), Woken(s.b), s.b.clock, m.receivedSeq, other, k, m.data);
    PerformKeeps(s.b, s.a, act);
    GrowsAddress(s.b, t.b);
    StepOfB(s, act);
    OneStep(s, t);
  }

  /** Every series of arrivals of packets that are on the network can be scheduled. */
  lemma {:induction false} ArrivalsHappen(s: System, arrivals: seq<Arrival>) returns (t: System)
    requires Inv(s) && Bounded(s.a) && Bounded(s.b) && Receptive(s.b)
    requires AllInChannel(s.a, 0) && TagFree(Packets(s.a))
    requires AllNumbered(arrivals, Packets(s.a)) && AllAt(arrivals, s.b.clock)
    ensures StepsTo(s, t, |arrivals|) && Inv(t) && t.a == s.a && Bounded(t.b) && Receptive(t.b)
    ensures t.b.clock == s.b.clock && Planned(t.b) == Planned(s.b) && (arrivals != [] ==> Has(t.b, Active))
    ensures t.b.session.value.inb == RecvAll(Woken(s.b), Packets(s.a), arrivals).inb
    decreases |arrivals|
  {
    hide Inv, StepsTo, Bounded, AllInChannel, TagFree, RecvMessage, Planned;
    if arrivals == [] {
      t := s;
      NoSteps(s);
    } else {
      var n := |arrivals| - 1;
      var a := arrivals[n];
      var u := ArrivalsHappen(s, arrivals[..n]);
      t := ArrivalHappens(u, a.number, a.ack);
      var before := RecvAll(Woken(s.b), Packets(s.a), arrivals[..n]);
      RecvAllControl(Woken(s.b), Packets(s.a), arrivals[..n]);
      RecvInbound(Woken(u.b), before, a.now, a.ack, a.ack, a.number, Packets(s.a)[a.number - 1]);
      StepsJoin(s, u, t, n, 1);
    }
  }

  // ---- a schedule that delivers everything ----

  /** Arrivals at the time the stream was last refreshed leave it refreshed then. */
  lemma {:induction false} HeardAllAt(s: Stream, packets: seq<seq<byte>>, arrivals: seq<Arrival>, now: int)
    requires AllNumbered(arrivals, packets) && AllAt(arrivals, now) && s.inb.lastHeard == now
    ensures RecvAll(s, packets, arrivals).inb.lastHeard == now
    decreases |arrivals|
  {
    hide Drain, Update;
    if arrivals != [] { HeardAllAt(s, packets, arrivals[..|arrivals| - 1], now); }
  }

  /** The packets arrive so that nothing is lost. */
  lemma ArriveWhole(s: System, ws: seq<seq<byte>>) returns (t: System)
    requires Loaded(s, ws) && TagFree(Packets(s.a)) && Packets(s.a) != [] && CanStopAt(Packets(s.a), |Packets(s.a)|)
    ensures StepsTo(s, t, |Packets(s.a)|) && Inv(t) && t.a == s.a && Bounded(t.b) && Planned(t.b) == []
    ensures Alive(t.b) && t.b.session.value.inb.lastHeard == t.b.clock
    ensures Received(t.b) == |Packets(t.a)| && Dropped(t.b) == 0
  {
    hide Inv, StepsTo, Bounded, AllInChannel, TagFree, RecvMessage, RecvAll, Planned, CanStopAt, Chunks, Framed;
    var now := s.b.clock;
    var arrivals := ArrivalsTo(Woken(s.b), Packets(s.a), now, |Packets(s.a)|);
    t := ArrivalsHappen(s, arrivals);
    HeardAllAt(Woken(s.b), Packets(s.a), arrivals, now);
  }

  lemma ReadsWhole(x: Endpoint, y: Endpoint)
    requires OwnInv(x, y) && OwnInv(y, x) && AllShort(Writes(x)) && AllReceived(x, y) && Dropped(y) == 0
    ensures Readable(y) == Flatten(Writes(x)) && Accepted(y) == Framed(Writes(x))
  {
    hide OwnInv, Flatten, Framed, Readable, Complete, Dropped;
    ReadableInv(x, y);
    CompleteIsWritten(x, y);
    EverythingIn(x, y);
  }

  /** After that, one STATUS empties the sender's queue. */
  lemma FinishWhole(s: System) returns (t: System)
    requires Inv(s) && Bounded(s.a) && Bounded(s.b) && JustHeard(s.a) && s.a.session.value.out.stream == []
    requires Alive(s.b) && s.b.session.value.inb.lastHeard == s.b.clock && HasRoom(s.b)
    requires Received(s.b) == |Packets(s.a)| && Dropped(s.b) == 0
    ensures StepsTo(s, t, 3) && Inv(t) && Bounded(t.a) && Bounded(t.b)
    ensures Writes(t.a) == Writes(s.a) && Packets(t.a) == Packets(s.a)
    ensures AllReceived(t.a, t.b) && Dropped(t.b) == 0
    ensures t.a.session.value.out.queue == map[]
  {
    hide OwnInv, Step, StepsTo, Plan;
    HeardNow(s.b, s.a);
    var u := WaitForStatus(s);
    t := StatusBack(u);
    StepsJoin(s, u, t, 1, 2);
  }

  /** The reader at b can have exactly the writes, all packets having arrived. */
  predicate ReadWhole(t: System, ws: seq<seq<byte>>) {
    && Writes(t.a) == ws && Packets(t.a) == Chunks(Framed(ws))
    && AllReceived(t.a, t.b) && Readable(t.b) == Flatten(ws)
  }

  /**
   * From two idle ends, whatever their keys and clocks: a dial and any writes whose packets do not
   * read as control messages and leave the cursor a way past their boundaries can be followed by
   * steps after which the peer's application can read exactly the writes, and the sender has
   * nothing left to send.
   */
  lemma EndToEnd(s: System, ws: seq<seq<byte>>) returns (t: System, n: nat)
    requires Init(s) && ws != [] && AllShort(ws)
    requires var packets := Chunks(Framed(ws));
             |packets| < U32 - WINDOW && TagFree(packets) && CanStopAt(packets, |packets|)
    ensures StepsTo(s, t, n) && n <= |ws| + |Chunks(Framed(ws))| + 7 && Reachable(t)
    ensures ReadWhole(t, ws) && Accepted(t.b) == Framed(ws)
    ensures t.a.session.Some? && t.a.session.value.out.queue == map[] && t.a.session.value.out.stream == []
  {
    hide StepsTo, Reachable, Init, Chunks, Framed, TagFree, CanStopAt, OwnInv, Flatten, AllInChannel, Plan;
    SomePackets(ws);
    var u := LoadedFromScratch(s, ws);
    var v := ArriveWhole(u, ws);
    t := FinishWhole(v);
    ReadsWhole(t.a, t.b);
    n := |ws| + 4 + |Packets(u.a)| + 3;
    StepsJoin(s, u, v, |ws| + 4, |Packets(u.a)|);
    StepsJoin(s, v, t, |ws| + 4 + |Packets(u.a)|, 3);
    InitReachable(s);
    StepsReach(s, t, n);
  }

  lemma SomePackets(ws: seq<seq<byte>>)
    requires ws != []
    ensures Chunks(Framed(ws)) != []
  {
  }

  // ---- exactly when some run delivers everything ----

  /** A run that loses nothing has taken the cursor by moves that lose nothing. */
  lemma {:induction false} RunStops(run: seq<System>, packets: seq<seq<byte>>)
    requires run != [] && IsRun(run) && Bounded(run[|run| - 1].a) && Bounded(run[|run| - 1].b)
    requires LosesNowhere(run, packets)
    ensures CanStopAt(packets, Received(run[|run| - 1].b))
    decreases |run|
  {
    hide IsRun, Step, Bounded, Inv, Loses, CanStopAt, StepHistory;
    var n := |run| - 1;
    if n == 0 {
      InitialCursor(run);
      NoStops(packets);
    } else {
      BeforeLast(run);
      StepBounds(run[n - 1], run[n]);
      assert !LosesAtStep(run, packets, n - 1);
      forall i | 0 <= i < n - 1 ensures !LosesAtStep(run[..n], packets, i) {
        assert !LosesAtStep(run, packets, i);
      }
      RunStops(run[..n], packets);
      StepOfRun(run, n - 1);
      StepCursor(run[n - 1], run[n]);
      StopNext(packets, Received(run[n - 1].b), Received(run[n].b));
    }
  }

  lemma InitialCursor(run: seq<System>)
    requires IsRun(run)
    ensures run != [] && Received(run[0].b) == 0
  {
    hide Step;
  }

  /**
   * However a run cut its packets: if the reader has all the writes, then no packet reads as a
   * control message and the cursor had a way past all the boundaries.
   */
  lemma ReadMeansPassable(s: System)
    requires Reachable(s) && AllShort(Writes(s.a)) && AllReceived(s.a, s.b) && Readable(s.b) == Flatten(Writes(s.a))
    ensures TagFree(Packets(s.a)) && CanStopAt(Packets(s.a), |Packets(s.a)|)
  {
    hide IsRun, Loses, LosesNowhere, Flatten, Readable, OwnInv, CanStopAt, KindOf;
    var run: seq<System> :| IsRun(run) && run != [] && run[|run| - 1] == s;
    AppDeliversAtB(run);
    RunStops(run, Packets(s.a));
    forall i | 0 <= i < |Packets(s.a)| ensures KindOf(Packets(s.a)[i]) == KData {
      ControlPacketBlocks(s, i);
    }
  }

  /** Some run from s delivers the writes whole, cut all at once. */
  ghost predicate CanReadWhole(s: System, ws: seq<seq<byte>>) {
    exists t: System, n: nat :: StepsTo(s, t, n) && Bounded(t.a) && Bounded(t.b) && ReadWhole(t, ws)
  }

  /**
   * From two idle ends: writes cut into the given packets can reach the reader whole if and only
   * if no packet reads as a control message and the cursor has a way past their boundaries.
   */
  lemma EndToEndExactly(s: System, ws: seq<seq<byte>>)
    requires Init(s) && ws != [] && AllShort(ws) && |Chunks(Framed(ws))| < U32 - WINDOW
    ensures var packets := Chunks(Framed(ws));
            CanReadWhole(s, ws) <==> TagFree(packets) && CanStopAt(packets, |packets|)
  {
    hide Reachable, Init, StepsTo, Bounded, Chunks, Framed, TagFree, CanStopAt, Flatten, Readable, AllReceived;
    var packets := Chunks(Framed(ws));
    if TagFree(packets) && CanStopAt(packets, |packets|) {
      var t, n := EndToEnd(s, ws);
      BoundedReachable(t);
      assert StepsTo(s, t, n) && ReadWhole(t, ws);
    } else if CanReadWhole(s, ws) {
      var t: System, n: nat :| StepsTo(s, t, n) && Bounded(t.a) && Bounded(t.b) && ReadWhole(t, ws);
      InitReachable(s);
      StepsReach(s, t, n);
      ReadMeansPassable(t);
    }
  }

  // ---- one write ----

  lemma OneFrameNeverLoses(packets: seq<seq<byte>>, w: seq<byte>, n: nat, end: nat)
    requires Flatten(packets) <= Frame(w) && Short(w)
    ensures !Loses(packets, n, end)
  {
    hide Flatten, Frame, Deframe;
    if n <= end <= |packets| {
      FlattenSplit(packets, end);
      FlattenSplit(packets[..end], n);
      assert packets[..end][..n] == packets[..n];
      if Flatten(packets[..end]) == Frame(w) {
        FramedOne(w);
        RoundTrip([w]);
      } else {
        PartOfAFrame(w, Flatten(packets[..end]));
        PartOfAFrame(w, Flatten(packets[..n]));
      }
    }
  }

  /** A single write is cut safely, whatever its length. */
  lemma OneWriteIsSafe(w: seq<byte>)
    requires Short(w)
    ensures SafeBoundaries(Chunks(Framed([w])))
  {
    hide Chunks, Frame, Framed, Loses;
    FramedOne(w);
    var packets := Chunks(Frame(w));
    ChunksOk(Frame(w));
    forall n, end | 0 <= n < |packets| && n < end <= |packets| && end < n + WINDOW ensures !Loses(packets, n, end) {
      OneFrameNeverLoses(packets, w, n, end);
    }
  }

  /** One write is always cut safely, so tag-free packets are all it needs. */
  lemma OneWriteEndToEnd(s: System, w: seq<byte>) returns (t: System, n: nat)
    requires Init(s) && Short(w) && |Chunks(Frame(w))| < U32 - WINDOW && TagFree(Chunks(Frame(w)))
    ensures StepsTo(s, t, n) && n <= |Chunks(Frame(w))| + 8 && Reachable(t)
    ensures Readable(t.b) == w && Accepted(t.b) == Frame(w)
    ensures t.a.session.Some? && t.a.session.value.out.queue == map[] && t.a.session.value.out.stream == []
  {
    hide StepsTo, Reachable, Init, Chunks, Frame, Framed, TagFree, Flatten, SafeBoundaries, CanStopAt;
    FramedOne(w);
    FlattenOne(w);
    OneWriteIsSafe(w);
    SafeStops(Chunks(Frame(w)), |Chunks(Frame(w))|);
    t, n := EndToEnd(s, [w]);
  }

  // ---- exactly when every run delivers everything ----

  /** The states of a schedule, as a run. */
  lemma {:induction false} RunTo(run: seq<System>, t: System, n: nat) returns (more: seq<System>)
    requires run != [] && IsRun(run) && StepsTo(run[|run| - 1], t, n)
    ensures more != [] && IsRun(more) && more[0] == run[0] && more[|more| - 1] == t
    decreases n
  {
    hide IsRun, Step;
    if n == 0 {
      more := run;
    } else {
      var u :| Step(run[|run| - 1], u) && StepsTo(u, t, n - 1);
      LongerRun(run, u);
      more := RunTo(run + [u], t, n - 1);
    }
  }

  /** Some order in which unsafely cut packets arrive loses payload. */
  lemma ArriveLosing(s: System, ws: seq<seq<byte>>) returns (t: System, n: nat)
    requires Loaded(s, ws) && TagFree(Packets(s.a)) && !SafeBoundaries(Packets(s.a))
    ensures StepsTo(s, t, n) && t.a == s.a && Bounded(t.b) && Dropped(t.b) != 0
  {
    hide Inv, StepsTo, Bounded, AllInChannel, TagFree, Loses, LosesNothing;
    hide RecvMessage, RecvAll, Planned, Chunks, Framed;
    var packets, b, now := Packets(s.a), Woken(s.b), s.b.clock;
    FreshBooks(b.inb, packets);
    var i: nat, end: nat :| i < end <= |packets| && end < i + WINDOW && Loses(packets, i, end);
    var arrivals := SomeOrderLoses(b, packets, now, i, end);
    ArrivalsExactly(b, packets, arrivals);
    t := ArrivalsHappen(s, arrivals);
    n := |arrivals|;
  }

  /** Packets cut unsafely lose payload in some run. */
  lemma UnsafeRunLoses(s: System, ws: seq<seq<byte>>) returns (run: seq<System>)
    requires Init(s) && |Chunks(Framed(ws))| < U32 - WINDOW
    requires TagFree(Chunks(Framed(ws))) && !SafeBoundaries(Chunks(Framed(ws)))
    ensures run != [] && IsRun(run) && run[0] == s && Bounded(run[|run| - 1].a) && Bounded(run[|run| - 1].b)
    ensures Packets(run[|run| - 1].a) == Chunks(Framed(ws)) && !LosesNever(run)
  {
    hide Step, StepsTo, Bounded, Inv, Chunks, Framed, TagFree, SafeBoundaries, AllInChannel, LosesNowhere;
    var u := LoadedFromScratch(s, ws);
    var t, n := ArriveLosing(u, ws);
    StepsJoin(s, u, t, |ws| + 4, n);
    assert IsRun([s]);
    run := RunTo([s], t, |ws| + 4 + n);
    RunCursor(run, Packets(u.a));
  }

  /** No run from s in which a cuts exactly these packets loses payload. */
  ghost predicate EveryRunIsWhole(s: System, packets: seq<seq<byte>>) {
    forall run: seq<System> |
      run != [] && IsRun(run) && run[0] == s && Bounded(run[|run| - 1].a) && Bounded(run[|run| - 1].b)
      && Packets(run[|run| - 1].a) == packets :: LosesNever(run)
  }

  /**
   * From two idle ends and for packets that do not read as control messages: every run reads whole
   * what it completes, whatever the network does, if and only if the packets are cut safely.
   */
  lemma SafeForEveryRun(s: System, ws: seq<seq<byte>>)
    requires Init(s) && |Chunks(Framed(ws))| < U32 - WINDOW && TagFree(Chunks(Framed(ws)))
    ensures EveryRunIsWhole(s, Chunks(Framed(ws))) <==> SafeBoundaries(Chunks(Framed(ws)))
  {
    hide Init, IsRun, Bounded, Chunks, Framed, TagFree, SafeBoundaries, LosesNowhere;
    var packets := Chunks(Framed(ws));
    if SafeBoundaries(packets) {
      forall run: seq<System> |
        run != [] && IsRun(run) && run[0] == s && Bounded(run[|run| - 1].a) && Bounded(run[|run| - 1].b)
        && Packets(run[|run| - 1].a) == packets ensures LosesNever(run) {
        SafeRunLosesNever(run);
      }
    } else {
      var run := UnsafeRunLoses(s, ws);
      assert !LosesNever(run);
    }
  }
}
