/** Which deliveries bring the receiver forward, in every run: exactly those that arrive in time. */
module Deliveries {
  import opened Bytes
  import opened Framing
  import opened Address
  import opened Wire
  import opened Protocol
  import opened Receiver
  import opened Network
  import opened NetworkInvariant
  import opened NetworkTheorems
  import opened Reading

  predicate Alive(e: Endpoint) { e.mapped && e.session.Some? && IsActive(e.session.value, e.clock) }

  /** Packet number k has been accepted or is parked. */
  predicate Holding(i: Inbound, k: nat) { k <= i.received || k in i.queue }

  predicate HasPacket(e: Endpoint, k: nat) { e.session.Some? && Holding(e.session.value.inb, k) }

  /** act hands b a data message with number k. */
  predicate IsDelivery(s: System, act: Action, k: nat) {
    && act.Deliver? && Enabled(s.b, s.a, act) && act.env.addressKnown
    && KindOf(act.m.data) == KData && act.m.msgSeq == k
  }

  /**
   * The delivery comes in time: to a stream that is in the map, inside the window, and, if the
   * number is the next one, before the stream has timed out.
   */
  predicate InTimeFor(b: Endpoint, k: nat) {
    && b.mapped && k < Received(b) + WINDOW
    && (k == Received(b) + 1 ==> b.session.Some? && Fresh(b.session.value, b.clock))
  }

  ghost predicate Brings(s: System, t: System, k: nat) {
    InTimeFor(s.b, k) && exists act :: IsDelivery(s, act, k) && t == ByB(s, act)
  }

  // ---- one delivery ----

  /** A data message meets a stream in Listen or Active, in which it is signed and has the bound id. */
  lemma DataOutcome(x: Endpoint, y: Endpoint, m: Payload, env: Env)
    requires OwnInv(x, y) && OwnInv(y, x) && Genuine(y, m) && KindOf(m.data) == KData
    requires x.mapped && env.addressKnown
    ensures x.session.Some? && (Has(x, Listening) || Has(x, Active)) && IsPacket(y.session.value, m)
    ensures HandleAt(x, y, m, env)
            == Quiet(RecvMessage(WithStatus(x.session.value, Active), env.now, m.receivedSeq, m.msgSeq, m.data))
  {
    hide OutboundInv, InboundInv, RecvMessage;
    KindOfGenuine(y, m);
    if !(Has(x, Listening) || Has(x, Active)) { HelloToDialer(x, y, m); }
    var s := x.session.value;
    assert Refresh(s, m) == s && (s.ctl.status == Active ==> WithStatus(s, Active) == s);
    assert IsSigned(x.session, m);
  }

  lemma AcceptHolds(i: Inbound, packets: seq<seq<byte>>, now: int, k: nat)
    requires Matches(i, packets) && i.received < |packets| && k >= 1
    ensures Holding(Accept(i, now, packets[i.received]), k) <==> Holding(i, k) || k == i.received + 1
  {
    hide Deframe, Flatten, Drain;
    AcceptAdvances(i, packets, now);
  }

  /** What a received packet adds to the packets held. */
  lemma RecvHolds(s: Stream, now: int, ack: nat, number: nat, packets: seq<seq<byte>>, k: nat)
    requires Matches(s.inb, packets) && 1 <= number <= |packets| && k >= 1 && s.ctl.status == Active
    ensures var j := RecvMessage(s, now, ack, number, packets[number - 1]).inb;
            Holding(j, k) <==>
            Holding(s.inb, k)
            || (k == number && k < s.inb.received + WINDOW && (k == s.inb.received + 1 ==> Fresh(s, now)))
  {
    hide Accept;
    if number == s.inb.received + 1 && IsActive(s, now) {
      AcceptHolds(s.inb, packets, now, k);
    }
  }

  lemma DeliveryHolds(s: System, act: Action, number: nat, k: nat)
    requires Inv(s) && IsDelivery(s, act, number) && s.b.mapped && k >= 1
    ensures HasPacket(ByB(s, act).b, k) <==> HasPacket(s.b, k) || (k == number && InTimeFor(s.b, k))
  {
    hide OutboundInv, InbInv, ControlInv, Handle, RecvMessage, Flatten;
    assert Genuine(s.a, act.m);
    DataOutcome(s.b, s.a, act.m, act.env);
    RecvHolds(WithStatus(s.b.session.value, Active), act.env.now, act.m.receivedSeq, number, Packets(s.a), k);
  }

  // ---- every step ----

  ghost predicate SameNumbers(x: Endpoint, x': Endpoint) {
    forall k | k >= 1 :: HasPacket(x', k) <==> HasPacket(x, k)
  }

  lemma OtherDelivery(x: Endpoint, y: Endpoint, m: Payload, env: Env)
    requires OwnInv(x, y) && OwnInv(y, x) && Enabled(x, y, Deliver(m, env))
    requires !(x.mapped && env.addressKnown && KindOf(m.data) == KData)
    ensures SameNumbers(x, Perform(x, y, Deliver(m, env)))
  {
    hide HandleEntry, RecvMessage, OutboundInv, InboundInv, ControlInv, KindOf;
    if x.session.Some? && x.mapped && env.addressKnown {
      var s := Refresh(x.session.value, m);
      MappedOutcome(x, y, m, env);
      EntryInbound(s, IsSigned(x.session, m), x.address, Canonical(y.address), x.key, m, env);
    }
  }

  lemma OtherStep(x: Endpoint, y: Endpoint, action: Action)
    requires Enabled(x, y, action) && !action.Deliver? && (x.session == None ==> !x.mapped)
    ensures SameNumbers(x, Perform(x, y, action))
  {
    hide Flush, FlushMessages, StatusIfStale;
    if x.session.Some? { FlushKeepsInbound(x.session.value, x.clock); }
  }

  /** b gains packet k in a step if and only if the step is a delivery of k that comes in time. */
  lemma StepHolds(s: System, t: System, k: nat)
    requires Inv(s) && Step(s, t) && k >= 1
    ensures HasPacket(t.b, k) <==> HasPacket(s.b, k) || Brings(s, t, k)
  {
    hide OwnInv, Perform, Enabled, HasPacket, InTimeFor, KindOf;
    if Brings(s, t, k) {
      var act :| IsDelivery(s, act, k) && t == ByB(s, act);
      MappedInTime(s.b, k);
      DeliveryHolds(s, act, k, k);
    } else if act :| Enabled(s.b, s.a, act) && t == s.(b := Perform(s.b, s.a, act)) {
      if act.Deliver? && s.b.mapped && act.env.addressKnown && KindOf(act.m.data) == KData {
        DeliveryHolds(s, act, act.m.msgSeq, k);
        assert t == ByB(s, act) && IsDelivery(s, act, act.m.msgSeq);
      } else if act.Deliver? {
        OtherDelivery(s.b, s.a, act.m, act.env);
      } else {
        UnmappedWithoutStream(s.b, s.a);
        OtherStep(s.b, s.a, act);
      }
    }
  }

  lemma MappedInTime(b: Endpoint, k: nat)
    requires InTimeFor(b, k)
    ensures b.mapped
  {
  }

  lemma UnmappedWithoutStream(x: Endpoint, y: Endpoint)
    requires OwnInv(x, y)
    ensures x.session == None ==> !x.mapped
  {
  }

  // ---- every run ----

  ghost predicate BringsAt(run: seq<System>, i: nat, k: nat) {
    i + 1 < |run| && Brings(run[i], run[i + 1], k)
  }

  /** Some step of the run brings b packet k. */
  ghost predicate Brought(run: seq<System>, k: nat) { exists i: nat :: BringsAt(run, i, k) }

  lemma {:induction false} RunHolds(run: seq<System>, k: nat)
    requires run != [] && IsRun(run) && Bounded(run[|run| - 1].a) && Bounded(run[|run| - 1].b) && k >= 1
    ensures HasPacket(run[|run| - 1].b, k) <==> Brought(run, k)
    decreases |run|
  {
    hide IsRun, Step, Bounded, Inv, Brings;
    var n := |run| - 1;
    if n == 0 {
      NoSession(run);
    } else {
      var before := run[..n];
      BeforeLast(run);
      StepBounds(run[n - 1], run[n]);
      RunInv(before);
      RunHolds(before, k);
      StepHolds(run[n - 1], run[n], k);
      BroughtSnoc(run, k);
    }
  }

  lemma NoSession(run: seq<System>)
    requires IsRun(run)
    ensures run[0].b.session == None
  {
    hide Step;
  }

  lemma BroughtSnoc(run: seq<System>, k: nat)
    requires |run| > 1
    ensures var n := |run| - 1;
            Brought(run, k) <==> Brought(run[..n], k) || Brings(run[n - 1], run[n], k)
  {
    hide Brings;
    var n := |run| - 1;
    var before := run[..n];
    assert BringsAt(run, n - 1, k) <==> Brings(run[n - 1], run[n], k);
    forall i: nat | i < n - 1 ensures BringsAt(before, i, k) <==> BringsAt(run, i, k) {}
    if i: nat :| BringsAt(before, i, k) {
      assert BringsAt(run, i, k);
    }
  }

  lemma HeldInOrder(y: Endpoint, x: Endpoint, n: nat)
    requires OwnInv(y, x)
    ensures Received(y) >= n <==> forall k :: 1 <= k <= n ==> HasPacket(y, k)
  {
    hide ControlInv, OutboundInv, InbInv, OnlyData, InOrder;
    if Received(y) < n {
      assert !HasPacket(y, Received(y) + 1);
    }
  }

  /** b has received packets 1 .. n if and only if each of them was brought to it at some step. */
  ghost predicate ReceivesExactly(run: seq<System>, n: nat)
    requires run != []
  {
    Received(run[|run| - 1].b) >= n <==> forall k :: 1 <= k <= n ==> Brought(run, k)
  }

  lemma ReceivesExactlyAtB(run: seq<System>, n: nat)
    requires run != [] && IsRun(run) && Bounded(run[|run| - 1].a) && Bounded(run[|run| - 1].b)
    ensures ReceivesExactly(run, n)
  {
    hide IsRun, OwnInv, Bounded, Brought, HasPacket;
    var last := run[|run| - 1];
    RunInv(run);
    HeldInOrder(last.b, last.a, n);
    forall k | 1 <= k <= n ensures HasPacket(last.b, k) <==> Brought(run, k) {
      RunHolds(run, k);
    }
  }

  /**
   * In every run, whatever else happens in it, at both ends: the receiver has accepted packets
   * 1 .. n if and only if each of them was delivered at least once in time.
   */
  lemma ReceivedExactly(run: seq<System>, n: nat)
    requires run != [] && IsRun(run) && Bounded(run[|run| - 1].a) && Bounded(run[|run| - 1].b)
    ensures ReceivesExactly(run, n) && ReceivesExactly(SwapRun(run), n)
  {
    hide IsRun, ReceivesExactly;
    SwapRunIsRun(run);
    ReceivesExactlyAtB(run, n);
    ReceivesExactlyAtB(SwapRun(run), n);
  }

  // ---- enough deliveries ----

  /** Step i of the run delivers data packet k to an active b. */
  ghost predicate DeliversAt(run: seq<System>, i: nat, k: nat) {
    && i + 1 < |run| && Alive(run[i].b)
    && exists act :: IsDelivery(run[i], act, k) && run[i + 1] == ByB(run[i], act)
  }

  lemma DeliveredIsBrought(run: seq<System>, i: nat, k: nat)
    requires DeliversAt(run, i, k) && k < Received(run[i].b) + WINDOW
    ensures Brought(run, k)
  {
    hide IsDelivery;
    assert BringsAt(run, i, k);
  }

  /** Some step delivers packet k to an active b that has already received r packets. */
  ghost predicate DeliveredAfter(run: seq<System>, r: nat, k: nat) {
    exists i :: 0 <= i < |run| && Received(run[i].b) >= r && DeliversAt(run, i, k)
  }

  /**
   * In every run: if each of the packets r+1 .. r+n of one window reaches an active b at least once
   * after b has received r, in any order and with anything in between, b has received r+n.
   */
  lemma WindowDelivered(run: seq<System>, r: nat, n: nat)
    requires run != [] && IsRun(run) && Bounded(run[|run| - 1].a) && Bounded(run[|run| - 1].b)
    requires 1 <= n < WINDOW && forall k :: r < k <= r + n ==> DeliveredAfter(run, r, k)
    ensures Received(run[|run| - 1].b) >= r + n
  {
    hide IsRun, Bounded, Inv, DeliversAt, Brought;
    assert DeliveredAfter(run, r, r + 1);
    var first :| 0 <= first < |run| && Received(run[first].b) >= r && DeliversAt(run, first, r + 1);
    CursorBelow(run, first);
    ReceivesExactlyAtB(run, r);
    forall k | 1 <= k <= r + n ensures Brought(run, k) {
      if k > r {
        assert DeliveredAfter(run, r, k);
        var i :| 0 <= i < |run| && Received(run[i].b) >= r && DeliversAt(run, i, k);
        DeliveredIsBrought(run, i, k);
      }
    }
    ReceivesExactlyAtB(run, r + n);
  }

  /** Steps at[0] < at[1] < .. deliver packets r+1, r+2, .. to an active b that has received r. */
  ghost predicate DeliveredInOrder(run: seq<System>, at: seq<nat>, r: nat) {
    && (forall j :: 0 <= j < |at| ==> DeliversAt(run, at[j], r + 1 + j))
    && (forall i, j :: 0 <= i < j < |at| ==> at[i] < at[j])
    && (at != [] ==> at[0] < |run| && Received(run[at[0]].b) >= r)
  }

  lemma NextReceived(run: seq<System>, i: nat, k: nat)
    requires run != [] && IsRun(run) && Bounded(run[|run| - 1].a) && Bounded(run[|run| - 1].b)
    requires k >= 1 && DeliversAt(run, i, k) && Received(run[i].b) + 1 >= k
    ensures Received(run[i + 1].b) >= k
  {
    hide IsRun, Bounded, Step, Enabled, Perform, KindOf, OwnInv;
    StepOfRun(run, i);
    var s, t := run[i], run[i + 1];
    var act :| IsDelivery(s, act, k) && t == ByB(s, act);
    StepCursor(s, t);
    if Received(s.b) + 1 == k {
      AliveInTime(s.b, k);
      assert Brings(s, t, k);
      StepHolds(s, t, k);
      HeldNext(t.b, t.a, k);
    }
  }

  lemma AliveInTime(b: Endpoint, k: nat)
    requires Alive(b) && k < Received(b) + WINDOW
    ensures InTimeFor(b, k)
  {
  }

  lemma HeldNext(y: Endpoint, x: Endpoint, k: nat)
    requires OwnInv(y, x) && HasPacket(y, k) && Received(y) + 1 >= k
    ensures Received(y) >= k
  {
    hide ControlInv, OutboundInv, InbInv, OnlyData, InOrder;
  }

  lemma {:induction false} CursorMonotone(run: seq<System>, i: nat, j: nat)
    requires run != [] && IsRun(run) && Bounded(run[|run| - 1].a) && Bounded(run[|run| - 1].b)
    requires i <= j < |run|
    ensures Received(run[i].b) <= Received(run[j].b)
    decreases j - i
  {
    hide IsRun, Bounded, Step, Inv;
    if i < j {
      CursorMonotone(run, i, j - 1);
      StepOfRun(run, j - 1);
      StepCursor(run[j - 1], run[j]);
    }
  }

  lemma DeliversInside(run: seq<System>, i: nat, k: nat)
    requires DeliversAt(run, i, k)
    ensures i + 1 < |run|
  {
  }

  lemma {:induction false} InOrderUpTo(run: seq<System>, at: seq<nat>, r: nat, j: nat)
    requires run != [] && IsRun(run) && Bounded(run[|run| - 1].a) && Bounded(run[|run| - 1].b)
    requires DeliveredInOrder(run, at, r) && j < |at|
    ensures at[j] + 1 < |run| && Received(run[at[j] + 1].b) >= r + 1 + j
    decreases j
  {
    hide IsRun, Bounded, DeliversAt;
    DeliversInside(run, at[j], r + 1 + j);
    if j > 0 {
      InOrderUpTo(run, at, r, j - 1);
      CursorMonotone(run, at[j - 1] + 1, at[j]);
    }
    NextReceived(run, at[j], r + 1 + j);
  }

  /**
   * In every run, whatever happens in between: packets r+1 .. r+k delivered in number order to an
   * active b that has received r bring it to r+k; with last - received of them it has everything.
   */
  lemma InOrderDelivered(run: seq<System>, at: seq<nat>, r: nat)
    requires run != [] && IsRun(run) && Bounded(run[|run| - 1].a) && Bounded(run[|run| - 1].b)
    requires DeliveredInOrder(run, at, r) && at != []
    ensures var last := run[|run| - 1];
            && Received(last.b) >= r + |at|
            && (r + |at| == |Packets(last.a)| ==> Received(last.b) == |Packets(last.a)|)
  {
    hide IsRun, Bounded, DeliveredInOrder;
    InOrderUpTo(run, at, r, |at| - 1);
    CursorMonotone(run, at[|at| - 1] + 1, |run| - 1);
    CursorBelow(run, |run| - 1);
  }
}
