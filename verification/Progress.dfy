/**
 * Progress: from two active ends some schedule delivers everything and empties the queue, if and
 * only if no packet still to come reads as a control message.
 */
module Progress {
  import opened Bytes
  import opened Framing
  import opened Wire
  import opened Protocol
  import opened Sender
  import opened Receiver
  import opened Network
  import opened NetworkInvariant
  import opened NetworkTheorems
  import opened Reading
  import opened Deliveries

  /** t can be reached from s in n steps. */
  ghost predicate StepsTo(s: System, t: System, n: nat)
    decreases n
  {
    if n == 0 then s == t else exists u :: Step(s, u) && StepsTo(u, t, n - 1)
  }

  lemma {:induction false} StepsJoin(s: System, t: System, u: System, n: nat, k: nat)
    requires StepsTo(s, t, n) && StepsTo(t, u, k)
    ensures StepsTo(s, u, n + k)
    decreases n
  {
    hide Step;
    if n > 0 {
      var v :| Step(s, v) && StepsTo(v, t, n - 1);
      StepsJoin(v, t, u, n - 1, k);
    }
  }

  lemma NoSteps(s: System)
    ensures StepsTo(s, s, 0)
  {
  }

  lemma OneStep(s: System, t: System)
    requires Step(s, t)
    ensures StepsTo(s, t, 1)
  {
    hide Step;
    assert StepsTo(t, t, 0);
  }

  lemma {:induction false} SwapSteps(s: System, t: System, n: nat)
    requires StepsTo(s, t, n)
    ensures StepsTo(Swap(s), Swap(t), n)
    decreases n
  {
    hide Step;
    if n > 0 {
      var u :| Step(s, u) && StepsTo(u, t, n - 1);
      SwapStep(s, u);
      SwapSteps(u, t, n - 1);
    }
  }

  lemma {:induction false} StepsAreBounded(s: System, t: System, n: nat)
    requires StepsTo(s, t, n) && Bounded(t.a) && Bounded(t.b)
    ensures Bounded(s.a) && Bounded(s.b)
    decreases n
  {
    hide Step, Bounded;
    if n > 0 {
      var u :| Step(s, u) && StepsTo(u, t, n - 1);
      StepsAreBounded(u, t, n - 1);
      StepBounds(s, u);
    }
  }

  /** A schedule from a reachable state leads to a reachable state. */
  lemma {:induction false} StepsReach(s: System, t: System, n: nat)
    requires Reachable(s) && StepsTo(s, t, n) && Bounded(t.a) && Bounded(t.b)
    ensures Reachable(t)
    decreases n
  {
    hide Step, Bounded;
    if n > 0 {
      var u :| Step(s, u) && StepsTo(u, t, n - 1);
      var run :| IsRun(run) && run != [] && run[|run| - 1] == s;
      LongerRun(run, u);
      assert (run + [u])[|run + [u]| - 1] == u;
      StepsAreBounded(u, t, n - 1);
      StepsReach(u, t, n - 1);
    }
  }

  lemma LongerRun(run: seq<System>, u: System)
    requires IsRun(run) && run != [] && Step(run[|run| - 1], u)
    ensures IsRun(run + [u])
  {
    hide Step;
    var more := run + [u];
    forall i | 0 <= i < |more| - 1 ensures Step(more[i], more[i + 1]) {
      if i < |run| - 1 { assert Step(run[i], run[i + 1]); }
    }
  }

  /** Packet number k of e has been put on the network. */
  predicate InChannel(e: Endpoint, k: nat) {
    exists m :: m in e.sent && m.msgSeq == k && Genuine(e, m) && IsPacket(e.session.value, m)
  }

  /** No packet reads as a control message. */
  predicate TagFree(packets: seq<seq<byte>>) {
    forall i :: 0 <= i < |packets| ==> KindOf(packets[i]) == KData
  }

  predicate ActiveUntil(e: Endpoint, time: int) {
    e.mapped && e.session.Some? && IsActive(e.session.value, time)
  }

  /** Numbers stay below the wrap-around when all that waits at e is cut. */
  predicate HasRoom(e: Endpoint) { |Planned(e)| < U32 - WINDOW }

  const CALM: Env := Env(0, 1, true, true, true)

  // ---- one delivery ----

  /** x' has stored the acknowledgement and keeps exactly the queued packets above it, unchanged. */
  ghost predicate AcknowledgedUpTo(x: Endpoint, x': Endpoint, ack: nat) {
    && x.session.Some? && x'.session.Some?
    && var o, p := x.session.value.out, x'.session.value.out;
    && p.delivered == ack && (forall k :: k in p.queue <==> k in o.queue && k > ack)
    && (forall k :: k in p.queue ==> p.queue[k] == o.queue[k])
    && (ack == |Packets(x)| ==> p.queue == map[])
  }

  /**
   * Any delivery of the next packet to an active receiver, whatever the environment answers, is
   * accepted: the distance to the sender's last packet shrinks, and the acknowledgement that came
   * with it takes effect.
   */
  lemma NextDelivery(s: System, act: Action)
    requires Inv(s) && Bounded(s.a) && Bounded(s.b) && Alive(s.b) && IsDelivery(s, act, Received(s.b) + 1)
    ensures var t := ByB(s, act);
            && Step(s, t) && Inv(t) && t.a == s.a && Alive(t.b) && t.b.clock == s.b.clock
            && |Packets(t.a)| - Received(t.b) < |Packets(s.a)| - Received(s.b)
            && t.b.session.value.inb.lastHeard == t.b.clock
            && Planned(t.b) == Planned(s.b) && Packets(t.b) == Packets(s.b)
            && AcknowledgedUpTo(s.b, t.b, act.m.receivedSeq)
  {
    hide OutboundInv, InboundInv, ControlInv, Handle, Grows;
    var m, b := act.m, s.b.session.value;
    assert Genuine(s.a, m);
    KindOfGenuine(s.a, m);
    DataOutcome(s.b, s.a, m, act.env);
    assert WithStatus(b, Active) == b;
    NextAccepted(b, s.b, s.a, m);
    PacketAcknowledges(b, s.b.clock, m.receivedSeq, m.msgSeq, m.data);
    QueueEmptied(s.b, s.a);
    PerformKeeps(s.b, s.a, act);
    GrowsAddress(s.b, ByB(s, act).b);
    StepOfB(s, act);
  }

  /** What the peer has sent can be delivered at any time. */
  lemma CanDeliver(s: System, m: Payload)
    requires Inv(s) && s.b.mapped && m in s.a.sent && KindOf(m.data) == KData
    ensures IsDelivery(s, Deliver(m, CALM.(now := s.b.clock)), m.msgSeq)
  {
    hide OutboundInv, InboundInv, ControlInv, Handle, RecvMessage;
    assert Genuine(s.a, m);
    DataOutcome(s.b, s.a, m, CALM.(now := s.b.clock));
  }

  lemma NextAccepted(b: Stream, x: Endpoint, y: Endpoint, m: Payload)
    requires StreamInv(b, x, y) && IsActive(b, x.clock)
    requires Genuine(y, m) && IsPacket(y.session.value, m) && m.msgSeq == b.inb.received + 1
    ensures var t := RecvMessage(b, x.clock, m.receivedSeq, m.msgSeq, m.data);
            && t.inb.received > b.inb.received && IsActive(t, x.clock) && t.inb.lastHeard == x.clock
            && t.out.packets == b.out.packets && t.out.lastSent == b.out.lastSent
            && t.out.stream == b.out.stream && t.ctl == b.ctl
  {
    hide ControlInv, OutInv, InbInv, Deframe, Flatten;
    AcceptAdvances(b.inb, Packets(y), x.clock);
  }

  // ---- catching up ----

  predicate AllInChannel(x: Endpoint, arrived: nat) {
    forall k :: arrived < k <= |Packets(x)| ==> InChannel(x, k)
  }

  lemma PickNext(s: System) returns (m: Payload)
    requires Inv(s) && AllInChannel(s.a, Received(s.b)) && Received(s.b) < |Packets(s.a)| && TagFree(Packets(s.a))
    ensures m in s.a.sent && KindOf(m.data) == KData && m.msgSeq == Received(s.b) + 1
  {
    hide OwnInv;
    assert InChannel(s.a, Received(s.b) + 1);
    m :| m in s.a.sent && m.msgSeq == Received(s.b) + 1 && Genuine(s.a, m) && IsPacket(s.a.session.value, m);
    assert m.data == Packets(s.a)[m.msgSeq - 1];
  }

  lemma AliveIsMapped(e: Endpoint)
    requires Alive(e)
    ensures e.mapped
  {
  }

  /** At most last - received in-order deliveries bring the receiver up to date. */
  lemma {:induction false} CatchUp(s: System) returns (t: System, n: nat)
    requires Inv(s) && Bounded(s.a) && Bounded(s.b) && Alive(s.b)
    requires AllInChannel(s.a, Received(s.b)) && TagFree(Packets(s.a)) && Received(s.b) <= |Packets(s.a)|
    ensures StepsTo(s, t, n) && n <= |Packets(s.a)| - Received(s.b)
    ensures Inv(t) && t.a == s.a && Alive(t.b) && Planned(t.b) == Planned(s.b) && Packets(t.b) == Packets(s.b)
    ensures Received(t.b) == |Packets(t.a)|
    ensures if Received(s.b) == |Packets(s.a)| then t == s else t.b.session.value.inb.lastHeard == t.b.clock
    decreases |Packets(s.a)| - Received(s.b)
  {
    hide Step, StepsTo, OwnInv, InChannel, Alive, IsDelivery, Plan, TagFree;
    if Received(s.b) == |Packets(s.a)| {
      t, n := s, 0;
      NoSteps(s);
    } else {
      var m := PickNext(s);
      var act := Deliver(m, CALM.(now := s.b.clock));
      AliveIsMapped(s.b);
      CanDeliver(s, m);
      NextDelivery(s, act);
      var u := ByB(s, act);
      ReceivedBound(u);
      var k;
      t, k := CatchUp(u);
      OneStep(s, u);
      StepsJoin(s, u, t, 1, k);
      n := 1 + k;
    }
  }

  lemma ReceivedBound(s: System)
    requires Inv(s)
    ensures Received(s.b) <= |Packets(s.a)|
  {
    DeliversInv(s.a, s.b);
  }

  // ---- putting every queued packet on the network ----

  /** When all that e has queued is due to be sent again, a time `wait` from now, e is still active. */
  predicate CanResend(e: Endpoint, wait: nat) {
    ActiveUntil(e, e.clock + wait) && EveryDue(e.session.value.out, e.clock + wait)
  }

  /** One retry interval is always long enough. */
  lemma IntervalSuffices(x: Endpoint, y: Endpoint)
    requires OwnInv(x, y) && ActiveUntil(x, x.clock + MESSAGE_RETRY_TIMEOUT)
    ensures CanResend(x, MESSAGE_RETRY_TIMEOUT)
  {
    hide OwnInv, IsActive;
    AllDue(x, y);
  }

  /**
   * Any heartbeat of an active end whose queue is all due cuts what waits and puts every packet
   * the peer lacks on the network.
   */
  lemma HeartbeatResends(s: System)
    requires Inv(s) && Bounded(s.b) && Alive(s.a) && EveryDue(s.a.session.value.out, s.a.clock) && HasRoom(s.a)
    ensures var t := ByA(s, Heartbeat);
            && Step(s, t) && Inv(t) && Bounded(t.a) && t.b == s.b && Alive(t.a)
            && Writes(t.a) == Writes(s.a) && t.a.session.value.out.stream == [] && Packets(t.a) == Planned(s.a)
            && AllInChannel(t.a, Received(t.b))
  {
    hide OwnInv, Step, AllInChannel, Flush, Flatten, EveryDue;
    var t := ByA(s, Heartbeat);
    HeartbeatSends(s.a, s.b);
    FlushKeepsRest(s.a.session.value, s.a.clock);
    PerformKeeps(s.a, s.b, Heartbeat);
    GrowsAddress(s.a, t.a);
    StepOfA(s, Heartbeat);
    SentAll(s.a.session.value, s.a.clock, t.a, t.b);
  }

  lemma RoomBounds(e: Endpoint)
    requires HasRoom(e)
    ensures Bounded(e)
  {
  }

  lemma Resend(s: System, wait: nat) returns (t: System)
    requires Inv(s) && Bounded(s.b) && CanResend(s.a, wait) && HasRoom(s.a)
    ensures StepsTo(s, t, 2) && Inv(t) && Bounded(t.a) && t.b == s.b
    ensures Alive(t.a) && Writes(t.a) == Writes(s.a) && t.a.session.value.out.stream == []
    ensures Packets(t.a) == Planned(s.a)
    ensures AllInChannel(t.a, Received(t.b))
  {
    hide OwnInv, Step, StepsTo, AllInChannel, Flush, Flatten, EveryDue, Plan;
    RoomBounds(s.a);
    var u := ByA(s, Tick(wait));
    PerformKeeps(s.a, s.b, Tick(wait));
    HeartbeatResends(u);
    t := ByA(u, Heartbeat);
    StepOfA(s, Tick(wait));
    OneStep(s, u);
    OneStep(u, t);
    StepsJoin(s, u, t, 1, 1);
  }

  lemma StepOfA(s: System, action: Action)
    requires Enabled(s.a, s.b, action)
    ensures Step(s, s.(a := Perform(s.a, s.b, action)))
  {
  }

  lemma StepOfB(s: System, action: Action)
    requires Enabled(s.b, s.a, action)
    ensures Step(s, s.(b := Perform(s.b, s.a, action)))
  {
  }

  lemma HeartbeatSends(x: Endpoint, y: Endpoint)
    requires x.mapped && x.session.Some? && IsActive(x.session.value, x.clock)
    ensures var s := x.session.value;
            Perform(x, y, Heartbeat)
            == x.(session := Some(Flush(s, x.clock)), mapped := true,
                  sent := x.sent + (StatusIfStale(s, x.clock) + FlushMessages(s, x.clock)))
  {
  }

  predicate EveryDue(o: Outbound, now: int) { forall k :: k in o.queue ==> IsDue(o.queue[k], now) }

  lemma AllDue(x: Endpoint, y: Endpoint)
    requires OwnInv(x, y) && x.session.Some?
    ensures EveryDue(x.session.value.out, x.clock + MESSAGE_RETRY_TIMEOUT)
  {
    hide ControlInv, InboundInv, Conserves;
    var o := x.session.value.out;
    forall k | k in o.queue ensures IsDue(o.queue[k], x.clock + MESSAGE_RETRY_TIMEOUT) {
      assert TriedLast(o.queue[k].lastTry, SendsOf(o, k));
    }
  }

  lemma {:induction false} GeneratedDue(o: Outbound, now: int)
    requires EveryDue(o, now)
    ensures EveryDue(Generate(o), now)
    decreases |o.stream|
  {
    if o.stream != [] {
      GeneratedDue(GenerateOne(o), now);
    }
  }

  /** A flush with every queued message due puts every unreceived packet on the network. */
  lemma SentAll(s: Stream, now: int, x': Endpoint, y: Endpoint)
    requires OwnInv(x', y) && OwnInv(y, x') && EveryDue(s.out, now)
    requires x'.session == Some(Flush(s, now)) && FlushMessages(s, now) <= x'.sent
    ensures AllInChannel(x', Received(y))
  {
    hide ControlInv, InboundInv, Conserves, WellTimed, Generate, Genuine;
    var g := Generated(s);
    GeneratedDue(s.out, now);
    NothingForgottenInv(x', y);
    forall k | Received(y) < k <= |Packets(x')| ensures InChannel(x', k) {
      assert k in x'.session.value.out.queue && k in g.out.queue;
      var m := DataMessage(g, k);
      assert m in FlushMessages(s, now) && m in x'.sent;
      assert Genuine(x', m);
      assert IsPacket(x'.session.value, m);
    }
  }

  // ---- one acknowledgement back ----

  lemma StatusOutcome(x: Endpoint, y: Endpoint, m: Payload, env: Env)
    requires OwnInv(x, y) && x.mapped && Has(x, Active) && Genuine(y, m) && KindOf(m.data) == KStatus
    requires env.addressKnown
    ensures var s := x.session.value;
            HandleAt(x, y, m, env) == Quiet(s.(out := Acked(s.out, m.receivedSeq)))
  {
    hide OutboundInv, InboundInv;
    assert Refresh(x.session.value, m) == x.session.value;
  }

  /** The receiver's next heartbeat puts an acknowledgement of all it has on the network. */
  lemma StatusGoesOut(s: System) returns (t: System, m: Payload)
    requires Inv(s) && Bounded(s.a) && Alive(s.b)
    requires s.b.clock - s.b.session.value.out.lastSent >= KEEPALIVE_TIMEOUT
    requires HasRoom(s.b)
    ensures Step(s, t) && Inv(t) && t.a == s.a && Received(t.b) == Received(s.b) && Bounded(t.b)
    ensures t.b.session.Some? && t.b.session.value.inb == s.b.session.value.inb
    ensures m in t.b.sent && m.data == STATUS && m.receivedSeq == Received(s.b) && m.msgSeq == |Packets(s.b)|
  {
    hide OwnInv, Step, Flush, FlushMessages, Grows;
    NothingForgottenInv(s.b, s.a);
    var b := s.b.session.value;
    m := StatusMessage(b);
    t := s.(b := Perform(s.b, s.a, Heartbeat));
    HeartbeatSends(s.b, s.a);
    FlushKeepsRest(b, s.b.clock);
    PerformKeeps(s.b, s.a, Heartbeat);
    GrowsAddress(s.b, t.b);
    StepOfB(s, Heartbeat);
  }

  /**
   * Any delivery of a STATUS to an Active sender leaves exactly the packets above the number it
   * acknowledges in the queue, and none if that is the sender's last.
   */
  lemma StatusArrives(s: System, m: Payload, env: Env)
    requires Inv(s) && Bounded(s.a) && s.a.mapped && Has(s.a, Active)
    requires Enabled(s.a, s.b, Deliver(m, env)) && env.addressKnown && KindOf(m.data) == KStatus
    ensures var t := ByA(s, Deliver(m, env));
            && Step(s, t) && Inv(t) && t.b == s.b && Bounded(t.a) && t.a.session.Some?
            && t.a.session.value.out == Acked(s.a.session.value.out, m.receivedSeq)
            && AcknowledgedUpTo(s.a, t.a, m.receivedSeq)
  {
    hide OwnInv, Step, Handle, Grows;
    var act := Deliver(m, env);
    StatusSent(s, m);
    StatusOutcome(s.a, s.b, m, env);
    PerformKeeps(s.a, s.b, act);
    GrowsAddress(s.a, ByA(s, act).a);
    StepOfA(s, act);
    QueueEmptied(s.a, s.b);
  }

  lemma StatusBack(s: System) returns (t: System)
    requires Inv(s) && Bounded(s.a) && s.a.mapped && Has(s.a, Active) && Alive(s.b)
    requires s.b.clock - s.b.session.value.out.lastSent >= KEEPALIVE_TIMEOUT
    requires HasRoom(s.b)
    requires Received(s.b) == |Packets(s.a)|
    ensures StepsTo(s, t, 2) && Inv(t) && Bounded(t.a) && Bounded(t.b)
    ensures t.b.session.Some? && t.b.session.value.inb == s.b.session.value.inb && t.a.session.Some?
    ensures t.a.session.value.out == Acked(s.a.session.value.out, Received(s.b))
    ensures t.a.session.value.out.queue == map[]
  {
    hide Inv, Step, StepsTo;
    var u, m := StatusGoesOut(s);
    var env := CALM.(now := u.a.clock);
    StatusEnabled(u, m, env);
    StatusArrives(u, m, env);
    t := ByA(u, Deliver(m, env));
    OneStep(s, u);
    OneStep(u, t);
    StepsJoin(s, u, t, 1, 1);
  }

  lemma FlushKeepsRest(s: Stream, now: int)
    ensures var t := Flush(s, now);
            && t.inb == s.inb && t.ctl == s.ctl && t.out.stream == [] && t.out.writes == s.out.writes
            && t.out.packets == s.out.packets + Chunks(s.out.stream)
  {
    GeneratePackets(s.out);
  }

  lemma StatusSent(s: System, m: Payload)
    requires Inv(s) && m in s.b.sent
    ensures Genuine(s.b, m)
  {
  }

  lemma StatusEnabled(s: System, m: Payload, env: Env)
    requires Inv(s) && s.a.mapped && Has(s.a, Active) && m in s.b.sent && m.data == STATUS
    requires env == CALM.(now := s.a.clock)
    ensures Enabled(s.a, s.b, Deliver(m, env)) && KindOf(m.data) == KStatus
  {
    hide OwnInv, Handle;
    KindOfControl([]);
    StatusSent(s, m);
    StatusOutcome(s.a, s.b, m, env);
  }

  lemma QueueEmptied(x: Endpoint, y: Endpoint)
    requires OwnInv(x, y) && x.session.Some?
    ensures Acked(x.session.value.out, |Packets(x)|).queue == map[]
  {
    hide ControlInv, InboundInv, Conserves, WellTimed;
    var q := Acked(x.session.value.out, |Packets(x)|).queue;
    assert forall k :: k in q ==> false;
  }

  // ---- the schedule ----

  lemma EverythingIn(x: Endpoint, y: Endpoint)
    requires OwnInv(x, y) && OwnInv(y, x) && x.session.Some? && x.session.value.out.stream == []
    requires Received(y) == |Packets(x)|
    ensures Accepted(y) == Framed(Writes(x))
  {
    hide ControlInv, InboundInv, WellTimed, WellNumbered, Flatten, Framed;
    DeliversInv(x, y);
    var o := x.session.value.out;
    assert o.packets[..|o.packets|] == o.packets;
    assert Flatten(o.packets) + [] == Flatten(o.packets);
  }

  /** When e, its stream being open, is next due to send STATUS. */
  function StatusDue(e: Endpoint): int
    requires e.session.Some?
  {
    var due := e.session.value.out.lastSent + KEEPALIVE_TIMEOUT;
    if due > e.clock then due else e.clock
  }

  /**
   * The receiver y is active, and will be when it next reports to x: accepting a packet refreshes
   * it, so only one that lacks none has to last until its STATUS is due.
   */
  predicate WillReport(x: Endpoint, y: Endpoint) {
    Alive(y) && (Received(y) == |Planned(x)| ==> ActiveUntil(y, StatusDue(y)))
  }

  lemma WaitForStatus(s: System) returns (t: System)
    requires Inv(s) && Bounded(s.b) && s.b.session.Some? && ActiveUntil(s.b, StatusDue(s.b))
    ensures StepsTo(s, t, 1) && Inv(t) && t.a == s.a && t.b == s.b.(clock := t.b.clock) && Alive(t.b)
    ensures t.b.clock - t.b.session.value.out.lastSent >= KEEPALIVE_TIMEOUT
  {
    hide OwnInv, Step;
    var wait := Tick(StatusDue(s.b) - s.b.clock);
    t := s.(b := Perform(s.b, s.a, wait));
    PerformKeeps(s.b, s.a, wait);
    StepOfB(s, wait);
    OneStep(s, t);
  }

  lemma HeardNow(x: Endpoint, y: Endpoint)
    requires OwnInv(x, y) && Alive(x) && x.session.value.inb.lastHeard == x.clock
    ensures ActiveUntil(x, StatusDue(x))
  {
    hide ControlInv, InboundInv, OutInv, Holds;
  }

  lemma RecoversInv(s: System, wait: nat) returns (t: System, n: nat)
    requires Inv(s) && CanResend(s.a, wait) && WillReport(s.a, s.b)
    requires HasRoom(s.a) && HasRoom(s.b) && TagFree(Planned(s.a))
    ensures StepsTo(s, t, n) && n <= |Planned(s.a)| - Received(s.b) + 5
    ensures Inv(t) && Bounded(t.a) && Bounded(t.b)
    ensures Accepted(t.b) == Framed(Writes(s.a)) && Writes(t.a) == Writes(s.a) && AllReceived(t.a, t.b)
    ensures Packets(t.a) == Planned(s.a)
    ensures t.a.session.Some? && t.a.session.value.out.queue == map[] && t.a.session.value.out.stream == []
  {
    hide OwnInv, Step, StepsTo, Flush, Delivers, TagFree, AllInChannel, Plan, Framed, CanResend;
    RoomBounds(s.b);
    var u := Resend(s, wait);
    ReceivedBound(u);
    var v, k := CatchUp(u);
    if Received(u.b) < |Packets(u.a)| { HeardNow(v.b, v.a); }
    var w := WaitForStatus(v);
    t := StatusBack(w);
    StepsJoin(s, u, v, 2, k);
    StepsJoin(s, v, w, 2 + k, 1);
    StepsJoin(s, w, t, 3 + k, 2);
    n := 3 + k + 2;
    EverythingIn(t.a, t.b);
  }

  /**
   * From every reachable state with both ends Active, a sender that stays active until all it has
   * queued is due again, a receiver that is active to report, and packets that do not read as
   * control messages: at most (unreceived packets + 5) steps deliver every byte written so far
   * and leave the sender with nothing to send.
   */
  lemma Recovers(s: System, wait: nat) returns (t: System, n: nat)
    requires Reachable(s) && CanResend(s.a, wait) && WillReport(s.a, s.b)
    requires HasRoom(s.a) && HasRoom(s.b) && TagFree(Planned(s.a))
    ensures StepsTo(s, t, n) && n <= |Planned(s.a)| - Received(s.b) + 5
    ensures Reachable(t)
    ensures Accepted(t.b) == Framed(Writes(s.a))
    ensures t.a.session.Some? && t.a.session.value.out.queue == map[] && t.a.session.value.out.stream == []
  {
    hide Inv, StepsTo, TagFree, CanResend, WillReport, IsRun, AllReceived;
    ReachableInv(s);
    t, n := RecoversInv(s, wait);
    StepsReach(s, t, n);
  }

  // ---- packets that read as control messages ----

  lemma TagStays(p: seq<byte>, q: seq<byte>)
    requires p <= q && KindOf(p) != KData
    ensures KindOf(q) != KData
  {
  }

  lemma {:induction false} PlanExtends(s: System, t: System, n: nat)
    requires Reachable(s) && StepsTo(s, t, n) && Bounded(t.a) && Bounded(t.b)
    ensures Extends(Planned(s.a), Planned(t.a))
    decreases n
  {
    hide Step, Bounded, Reachable, Inv, Extends, Planned;
    if n == 0 {
      ExtendsSelf(Planned(s.a));
    } else {
      var u :| Step(s, u) && StepsTo(u, t, n - 1);
      assert StepsTo(s, u, 1) by { OneStep(s, u); }
      StepsAreBounded(u, t, n - 1);
      StepsReach(s, u, 1);
      PlanExtends(u, t, n - 1);
      ReachableInv(s);
      StepKeeps(s, u);
      HistoryExtends(s.a, u.a);
      ExtendsAgain(Planned(s.a), Planned(u.a), Planned(t.a));
    }
  }

  lemma HistoryExtends(x: Endpoint, x': Endpoint)
    requires StepHistory(x, x')
    ensures Extends(Planned(x), Planned(x'))
  {
    hide Extends;
  }

  /** The planned packets are what has been framed, and none is empty. */
  lemma PlanIsFramed(x: Endpoint, y: Endpoint)
    requires OwnInv(x, y)
    ensures Flatten(Planned(x)) == Framed(Writes(x))
    ensures Packets(x) <= Planned(x)
    ensures forall i :: 0 <= i < |Planned(x)| ==> Planned(x)[i] != []
  {
    hide ControlInv, InboundInv, WellTimed, SentOk, Chunks, Flatten, Framed;
    EmptyLists();
    if x.session.Some? {
      var o := x.session.value.out;
      ChunksOk(o.stream);
      FlattenAppend(o.packets, Chunks(o.stream));
    }
  }

  lemma ShortOfAll(packets: seq<seq<byte>>, n: nat)
    requires n < |packets| && packets[n] != []
    ensures |Flatten(packets[..n])| < |Flatten(packets)|
  {
    FlattenSplit(packets, n);
    assert packets[n..][0] == packets[n];
  }

  /** A control-like packet among those planned keeps everything written from being delivered. */
  lemma ControlPacketStops(s: System, t: System, n: nat, k: nat)
    requires Reachable(s) && StepsTo(s, t, n) && Bounded(t.a) && Bounded(t.b)
    requires k < |Planned(s.a)| && KindOf(Planned(s.a)[k]) != KData
    ensures Received(t.b) <= k && !(Framed(Writes(s.a)) <= Accepted(t.b))
  {
    hide IsRun, OwnInv, StepsTo, Planned, Flatten, Framed, KindOf;
    PlanExtends(s, t, n);
    StepsReach(s, t, n);
    ReachableInv(s);
    ReachableInv(t);
    PlanIsFramed(s.a, s.b);
    PlanIsFramed(t.a, t.b);
    TagStays(Planned(s.a)[k], Planned(t.a)[k]);
    ControlPacketBlocks(t, k);
    FifoDelivery(t);
    var r := Received(t.b);
    assert r <= k;
    assert Packets(t.a)[..r] == Planned(s.a)[..r];
    ShortOfAll(Planned(s.a), r);
  }

  /** Some schedule from s brings b every byte a has written so far. */
  ghost predicate Deliverable(s: System) {
    exists t: System, n: nat ::
      StepsTo(s, t, n) && Bounded(t.a) && Bounded(t.b) && Framed(Writes(s.a)) <= Accepted(t.b)
  }

  /**
   * From every reachable state with two ends that stay active as above: everything written can
   * still be delivered if and only if no packet, cut or still to be cut, begins with a control tag.
   */
  lemma RecoversExactly(s: System, wait: nat)
    requires Reachable(s) && CanResend(s.a, wait) && WillReport(s.a, s.b) && HasRoom(s.a) && HasRoom(s.b)
    ensures Deliverable(s) <==> TagFree(Planned(s.a))
  {
    hide Reachable, StepsTo, CanResend, WillReport, Bounded, Framed, KindOf;
    if TagFree(Planned(s.a)) {
      var t, n := Recovers(s, wait);
      BoundedReachable(t);
      assert StepsTo(s, t, n) && Framed(Writes(s.a)) <= Accepted(t.b);
    } else if Deliverable(s) {
      var t: System, n: nat :|
        StepsTo(s, t, n) && Bounded(t.a) && Bounded(t.b) && Framed(Writes(s.a)) <= Accepted(t.b);
      var k :| 0 <= k < |Planned(s.a)| && KindOf(Planned(s.a)[k]) != KData;
      ControlPacketStops(s, t, n, k);
    }
  }

  lemma BoundedReachable(s: System)
    requires Reachable(s)
    ensures Bounded(s.a) && Bounded(s.b)
  {
  }

  /** A write with the word DIAL at its offset 32619: its second packet reads as a DIAL message. */
  predicate HasDialAtBoundary(w: seq<byte>) {
    PACKET_LIMIT <= |w| && w[PACKET_LIMIT - 4..PACKET_LIMIT] == DIAL
  }

  lemma SecondPacketIsDial(w: seq<byte>)
    requires HasDialAtBoundary(w)
    ensures |Chunks(Frame(w))| >= 2 && KindOf(Chunks(Frame(w))[1]) == KDial
  {
    var rest := Frame(w)[PACKET_LIMIT..];
    assert rest[..4] == DIAL;
    assert Chunks(rest)[0] == Chunk(rest);
    assert Chunks(Frame(w))[1..] == Chunks(rest);
    assert Chunk(rest)[..4] == DIAL;
  }

  /**
   * Such a write stalls the stream for good: whatever happens after it, the peer's application
   * never reads a byte of it, nor of anything written later.
   */
  lemma DialInsideAWrite(s: System, t: System, n: nat, w: seq<byte>)
    requires Reachable(s) && s.a.session.Some? && Packets(s.a) == [] && Writes(s.a) == [w]
    requires HasDialAtBoundary(w) && Short(w)
    requires StepsTo(s, t, n) && Bounded(t.a) && Bounded(t.b)
    ensures Received(t.b) <= 1 && Readable(t.b) == []
  {
    hide IsRun, OwnInv, StepsTo, Framed, Frame, KindOf, Chunks, Flatten, Deframe, HasDialAtBoundary;
    ReachableInv(s);
    OnlyWrite(s.a, s.b, w);
    SecondPacketIsDial(w);
    ControlPacketStops(s, t, n, 1);
    StepsReach(s, t, n);
    ReachableInv(t);
    FifoDelivery(t);
    PlanExtends(s, t, n);
    FirstPart(s.a, t.a, w, Received(t.b));
    PartOfAFrame(w, Accepted(t.b));
    ReadableInv(t.a, t.b);
    EmptyLists();
  }

  lemma OnlyWrite(x: Endpoint, y: Endpoint, w: seq<byte>)
    requires OwnInv(x, y) && x.session.Some? && Packets(x) == [] && Writes(x) == [w]
    ensures Planned(x) == Chunks(Frame(w)) && Framed(Writes(x)) == Frame(w)
  {
    hide ControlInv, InboundInv, WellTimed, SentOk;
    EmptyLists();
    FramedOne(w);
    var o := x.session.value.out;
    assert [] + o.stream == o.stream && [] + Chunks(o.stream) == Chunks(o.stream);
  }

  lemma FirstPart(x: Endpoint, x': Endpoint, w: seq<byte>, r: nat)
    requires Planned(x) == Chunks(Frame(w)) && Extends(Planned(x), Planned(x'))
    requires r <= 1 < |Chunks(Frame(w))| && r <= |Packets(x')|
    ensures Flatten(Packets(x')[..r]) < Frame(w)
  {
    hide Flatten, Chunks, Frame;
    var chunks := Chunks(Frame(w));
    ChunksOk(Frame(w));
    assert Packets(x')[..r] == chunks[..r];
    ShortOfAll(chunks, r);
    FlattenSplit(chunks, r);
  }
}
