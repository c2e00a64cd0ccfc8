/**
 * The handshake can be completed from every state between a first dial and two Active ends, as
 * long as no stream times out.
 */
module Handshake {
  import opened Bytes
  import opened Framing
  import opened Address
  import opened Wire
  import opened Protocol
  import opened Sender
  import opened Receiver
  import opened Orders
  import opened Network
  import opened NetworkInvariant
  import opened NetworkTheorems
  import opened Deliveries
  import opened Progress

  /** e waits in the given status, its stream in the map and not timed out. */
  predicate Waits(e: Endpoint, status: Status) {
    e.mapped && Has(e, status) && Fresh(e.session.value, e.clock)
  }

  lemma QuietWithoutActive(x: Endpoint, y: Endpoint)
    requires OwnInv(x, y) && !Has(x, Active)
    ensures Packets(x) == []
  {
  }

  // ---- DIAL ----

  lemma DialGoesOut(s: System) returns (t: System, m: Payload)
    requires Inv(s) && Waits(s.a, Dialing)
    ensures Step(s, t) && Inv(t) && t.b == s.b && t.a == s.a.(sent := t.a.sent)
    ensures m in t.a.sent && m.msgSeq == 0 && m.receivedSeq == 0 && m.data == DIAL + t.a.key && Genuine(t.a, m)
  {
    hide Step, OutboundInv, InboundInv, Grows;
    m := DialMessage(s.a.session.value);
    t := s.(a := Perform(s.a, s.b, Heartbeat));
    QuietWithoutActive(s.a, s.b);
    PerformKeeps(s.a, s.b, Heartbeat);
    GrowsAddress(s.a, t.a);
    StepOfA(s, Heartbeat);
  }

  /** The end that will listen: without a stream, or dialling from the smaller key. */
  predicate WillListen(x: Endpoint, y: Endpoint) {
    x.session == None || (x.mapped && Has(x, Dialing) && Compare(y.address, x.address) == Greater)
  }

  lemma DialAnswered(x: Endpoint, y: Endpoint, m: Payload)
    requires OwnInv(x, y) && Genuine(y, m) && m.data == DIAL + y.key && WillListen(x, y)
    ensures var h := HandleAt(x, y, m, CALM.(now := x.clock));
            && h.entry.Some? && h.entry.value.ctl.status == Listening && h.entry.value.inb.lastHeard == x.clock
            && h.sent == {ListenMessage(h.entry.value)}
            && h.entry.value.out.packets == Packets(x) && Plan(h.entry.value.out) == Planned(x)
            && (x.session == None ==> IsFresh(h.entry.value.inb))
            && (h.created ==> x.session == None)
  {
    hide OutboundInv, InboundInv;
    KindOfControl(y.key);
    CompareOpposite(y.address, x.address);
    if x.session.Some? {
      var s := Refresh(x.session.value, m);
      DialingOutcome(s, x.address, Canonical(y.address), m, CALM.(now := x.clock), y.key);
    }
  }

  lemma DialArrives(s: System, m: Payload) returns (t: System, reply: Payload)
    requires Inv(s) && Bounded(s.a) && WillListen(s.b, s.a)
    requires m in s.a.sent && Genuine(s.a, m) && m.data == DIAL + s.a.key
    ensures Step(s, t) && Inv(t) && t.a == s.a && t.b.listened && Waits(t.b, Listening) && Bounded(t.b)
    ensures t.b.session.value.inb.lastHeard == t.b.clock
    ensures s.b.session == None ==> IsFresh(t.b.session.value.inb)
    ensures reply in t.b.sent && reply.data == LISTEN + t.b.key && Genuine(t.b, reply) && Planned(t.b) == Planned(s.b)
  {
    hide Step, OwnInv, Handle, Grows, Genuine, Plan;
    var act := Deliver(m, CALM.(now := s.b.clock));
    DialAnswered(s.b, s.a, m);
    t := s.(b := Perform(s.b, s.a, act));
    reply := ListenMessage(t.b.session.value);
    NoPacketsYet(s.b, t.b, s.a, act);
    PerformKeeps(s.b, s.a, act);
    GrowsAddress(s.b, t.b);
    StepOfB(s, act);
    SentStays(t.b, t.a, reply);
    KeyStays(t.b, t.a);
  }

  lemma NoPacketsYet(x: Endpoint, x': Endpoint, y: Endpoint, act: Action)
    requires OwnInv(x, y) && WillListen(x, y) && act.Deliver? && Enabled(x, y, act) && x' == Perform(x, y, act)
    requires act.m.data == DIAL + y.key && Genuine(y, act.m) && act.env == CALM.(now := x.clock)
    ensures Bounded(x')
  {
    hide InboundInv, Handle, Plan, Genuine;
    DialAnswered(x, y, act.m);
    QuietWithoutActive(x, y);
  }

  lemma SentStays(x: Endpoint, y: Endpoint, m: Payload)
    requires OwnInv(x, y) && m in x.sent
    ensures Genuine(x, m)
  {
  }

  lemma KeyStays(x: Endpoint, y: Endpoint)
    requires OwnInv(x, y) && x.session.Some?
    ensures x.session.value.ctl.myKey == x.key
  {
  }

  // ---- LISTEN ----

  /** The heartbeat of a listening end sends LISTEN again. */
  lemma ListenGoesOut(s: System) returns (t: System, m: Payload)
    requires Inv(s) && Waits(s.b, Listening)
    ensures Step(s, t) && Inv(t) && t.a == s.a && t.b == s.b.(sent := t.b.sent) && Bounded(t.b)
    ensures m in t.b.sent && m.data == LISTEN + t.b.key && Genuine(t.b, m)
  {
    hide Step, OutboundInv, InboundInv, Grows;
    m := ListenMessage(s.b.session.value);
    t := s.(b := Perform(s.b, s.a, Heartbeat));
    QuietWithoutActive(s.b, s.a);
    PerformKeeps(s.b, s.a, Heartbeat);
    GrowsAddress(s.b, t.b);
    StepOfB(s, Heartbeat);
  }

  /** e is Active and heard from its peer just now. */
  predicate JustHeard(e: Endpoint) {
    e.mapped && Has(e, Active) && e.session.value.inb.lastHeard == e.clock
  }

  lemma ListenAnswered(x: Endpoint, y: Endpoint, m: Payload)
    requires OwnInv(x, y) && x.mapped && Has(x, Dialing) && Genuine(y, m) && m.data == LISTEN + y.key
    ensures var h := HandleAt(x, y, m, CALM.(now := x.clock));
            && !h.created && h.entry.Some? && h.entry.value.ctl.status == Active
            && h.entry.value.out.packets == Generate(x.session.value.out).packets
            && h.entry.value.inb.lastHeard == x.clock
            && (exists u: Stream ::
                  u.ctl.status == Active && u.out == x.session.value.out
                  && u.inb.received == x.session.value.inb.received
                  && h.entry == Some(Flush(u, x.clock)) && h.sent == FlushMessages(u, x.clock))
  {
    hide OutboundInv, InboundInv;
    KindOfControl(y.key);
    var s := Refresh(x.session.value, m);
    DialingOutcomeListen(s, x.address, Canonical(y.address), m, CALM.(now := x.clock), y.key);
    var u := WithStatus(WithRemoteId(HeardAt(WithRemoteKey(s, y.key), x.clock), m.streamId), Active);
    assert u.ctl.status == Active && u.out == x.session.value.out && u.inb.received == x.session.value.inb.received;
  }

  lemma ListenArrives(s: System, m: Payload) returns (t: System)
    requires Inv(s) && Bounded(s.b) && Waits(s.a, Dialing)
             && m in s.b.sent && Genuine(s.b, m) && m.data == LISTEN + s.b.key
    requires HasRoom(s.a)
    ensures Step(s, t) && Inv(t) && t.b == s.b && Bounded(t.a) && t.a.clock == s.a.clock && JustHeard(t.a)
    ensures t.a.session.value.out.stream == []
    ensures Packets(t.a) == Planned(s.a) == Planned(t.a) && Writes(t.a) == Writes(s.a) && AllInChannel(t.a, 0)
  {
    hide Step, OwnInv, Handle, Grows, Genuine, AllInChannel;
    var act := Deliver(m, CALM.(now := s.a.clock));
    ListenAnswered(s.a, s.b, m);
    QuietWithoutActive(s.a, s.b);
    GeneratePackets(s.a.session.value.out);
    t := s.(a := Perform(s.a, s.b, act));
    PerformKeeps(s.a, s.b, act);
    GrowsAddress(s.a, t.a);
    StepOfA(s, act);
    var u: Stream :| u.ctl.status == Active && u.out == s.a.session.value.out
             && u.inb.received == s.a.session.value.inb.received
             && t.a.session == Some(Flush(u, s.a.clock)) && FlushMessages(u, s.a.clock) <= t.a.sent;
    FlushKeepsRest(u, s.a.clock);
    AllCut(t.a);
    FirstSends(s.a, s.b, u, t.a);
  }

  /** A stream that turns Active has sent nothing yet, so its first flush sends every packet. */
  lemma FirstSends(x: Endpoint, y: Endpoint, u: Stream, x': Endpoint)
    requires OwnInv(x, y) && Has(x, Dialing) && OwnInv(x', y) && OwnInv(y, x) && OwnInv(y, x')
    requires u.out == x.session.value.out && x'.session == Some(Flush(u, x.clock))
             && FlushMessages(u, x.clock) <= x'.sent
    ensures AllInChannel(x', 0)
  {
    hide ControlInv, InboundInv, Conserves, WellTimed, Flush, FlushMessages, AllInChannel;
    QuietWithoutActive(x, y);
    DeliversInv(x, y);
    SentAll(u, x.clock, x', y);
  }

  // ---- the first data ----

  /** Any data packet activates the listener; the first one is accepted as well. */
  lemma DataArrives(s: System, m: Payload) returns (t: System)
    requires Inv(s) && Bounded(s.a) && Waits(s.b, Listening) && m in s.a.sent && KindOf(m.data) == KData
    ensures Step(s, t) && Inv(t) && t.a == s.a && Alive(t.b) && Bounded(t.b) && t.b.listened
    ensures Planned(t.b) == Planned(s.b) && Writes(t.b) == Writes(s.b)
    ensures m.msgSeq == 1 ==> Received(t.b) >= 1 && JustHeard(t.b)
  {
    hide Step, OwnInv, Handle, Grows, RecvMessage, Plan;
    SentStays(s.a, s.b, m);
    var act := Deliver(m, CALM.(now := s.b.clock));
    DataOutcome(s.b, s.a, m, act.env);
    t := s.(b := Perform(s.b, s.a, act));
    RecvShape(WithStatus(s.b.session.value, Active), s.b.clock, m);
    QuietWithoutActive(s.b, s.a);
    ListenerFacts(s.b, s.a);
    PerformKeeps(s.b, s.a, act);
    GrowsAddress(s.b, t.b);
    StepOfB(s, act);
    if m.msgSeq == 1 {
      FirstAccepted(s.b, s.a, m);
    }
  }

  lemma ListenerFacts(x: Endpoint, y: Endpoint)
    requires OwnInv(x, y) && Has(x, Listening)
    ensures x.listened && Received(x) == 0
  {
  }

  lemma RecvShape(s: Stream, now: int, m: Payload)
    ensures var t := RecvMessage(s, now, m.receivedSeq, m.msgSeq, m.data);
            && t.ctl == s.ctl && t.out.packets == s.out.packets && Plan(t.out) == Plan(s.out)
            && t.out.writes == s.out.writes
            && (t.inb.lastHeard == s.inb.lastHeard || t.inb.lastHeard == now)
  {
    hide Deframe, Flatten, Drain, Chunks;
  }

  lemma FirstAccepted(x: Endpoint, y: Endpoint, m: Payload)
    requires OwnInv(x, y) && Waits(x, Listening) && Genuine(y, m)
             && KindOf(m.data) == KData && m.msgSeq == Received(x) + 1
    ensures var i := RecvMessage(WithStatus(x.session.value, Active), x.clock, m.receivedSeq, m.msgSeq, m.data).inb;
            i.received > Received(x) && i.lastHeard == x.clock
  {
    hide ControlInv, OutInv, InbInv, Deframe, Flatten;
    KindOfGenuine(y, m);
    AcceptAdvances(x.session.value.inb, Packets(y), x.clock);
  }

  lemma AllCut(e: Endpoint)
    requires e.session.Some? && e.session.value.out.stream == []
    ensures Planned(e) == Packets(e)
  {
    assert Packets(e) + [] == Packets(e);
  }

  /** Some packet of e, cut or still to be cut, does not read as a control message. */
  predicate HasData(e: Endpoint) { exists k :: 0 <= k < |Planned(e)| && KindOf(Planned(e)[k]) == KData }

  predicate FirstIsData(e: Endpoint) { |Planned(e)| > 0 && KindOf(Planned(e)[0]) == KData }

  /** With everything of a dialer on the network, its listener can become Active. */
  lemma DataGetsIn(s: System) returns (t: System)
    requires Inv(s) && Bounded(s.a) && Has(s.a, Active) && Waits(s.b, Listening)
    requires AllInChannel(s.a, 0) && Planned(s.a) == Packets(s.a) && HasData(s.a)
    ensures Step(s, t) && Inv(t) && t.a == s.a && Alive(t.b) && Bounded(t.b) && t.b.listened
    ensures Planned(t.b) == Planned(s.b) && Writes(t.b) == Writes(s.b)
    ensures FirstIsData(s.a) ==> Received(t.b) >= 1 && JustHeard(t.b)
  {
    hide OwnInv, Planned, Step;
    var k :| 0 <= k < |Planned(s.a)| && KindOf(Planned(s.a)[k]) == KData;
    if FirstIsData(s.a) { k := 0; }
    assert InChannel(s.a, k + 1);
    var m :| m in s.a.sent && m.msgSeq == k + 1 && Genuine(s.a, m) && IsPacket(s.a.session.value, m);
    t := DataArrives(s, m);
  }

  // ---- the schedules ----

  /** Both ends Active and able to go on, with b as the listener. */
  predicate Connected(s: System) {
    Inv(s) && Bounded(s.a) && Bounded(s.b) && Alive(s.a) && Alive(s.b) && s.b.listened
  }

  lemma JustHeardLives(e: Endpoint)
    requires JustHeard(e)
    ensures Alive(e) && ActiveUntil(e, e.clock + MESSAGE_RETRY_TIMEOUT)
  {
  }

  /** a dials; LISTEN is under way: it arrives, and then the first data. */
  lemma FromListenSent(s: System, m: Payload) returns (t: System)
    requires Inv(s) && Bounded(s.b) && Waits(s.a, Dialing) && Waits(s.b, Listening)
    requires m in s.b.sent && Genuine(s.b, m) && m.data == LISTEN + s.b.key
    requires HasRoom(s.a) && HasData(s.a)
    ensures StepsTo(s, t, 2) && Connected(t) && JustHeard(t.a)
            && Writes(t.a) == Writes(s.a) && Planned(t.a) == Planned(s.a)
    ensures Planned(t.b) == Planned(s.b) && (FirstIsData(s.a) ==> Received(t.b) >= 1 && JustHeard(t.b))
  {
    hide OwnInv, Step, StepsTo, Genuine, AllInChannel;
    var u := ListenArrives(s, m);
    t := DataGetsIn(u);
    JustHeardLives(t.a);
    OneStep(s, u);
    OneStep(u, t);
    StepsJoin(s, u, t, 1, 1);
  }

  lemma FromDialing(s: System) returns (t: System)
    requires Inv(s) && Bounded(s.a) && Waits(s.a, Dialing) && WillListen(s.b, s.a) && HasRoom(s.a) && HasData(s.a)
    ensures StepsTo(s, t, 4) && Connected(t) && JustHeard(t.a)
            && Writes(t.a) == Writes(s.a) && Planned(t.a) == Planned(s.a)
    ensures Planned(t.b) == Planned(s.b) && (FirstIsData(s.a) ==> Received(t.b) >= 1 && JustHeard(t.b))
  {
    hide OwnInv, Step, StepsTo, Genuine, Connected, Plan;
    var u, dial := DialGoesOut(s);
    var v, listen := DialArrives(u, dial);
    t := FromListenSent(v, listen);
    OneStep(s, u);
    OneStep(u, v);
    StepsJoin(s, u, v, 1, 1);
    StepsJoin(s, v, t, 2, 2);
  }

  /** The answer to the dial was lost: the listener's heartbeat sends it again. */
  lemma FromLostListen(s: System) returns (t: System)
    requires Inv(s) && Waits(s.a, Dialing) && Waits(s.b, Listening) && HasRoom(s.a) && HasData(s.a)
    ensures StepsTo(s, t, 3) && Connected(t)
  {
    hide OwnInv, Step, StepsTo, Genuine, Connected;
    var u, listen := ListenGoesOut(s);
    t := FromListenSent(u, listen);
    OneStep(s, u);
    StepsJoin(s, u, t, 1, 2);
  }

  /** The dialer is Active but its data was lost: after a retry interval it is sent again. */
  lemma FromLostData(s: System) returns (t: System)
    requires Inv(s) && Bounded(s.b) && ActiveUntil(s.a, s.a.clock + MESSAGE_RETRY_TIMEOUT) && Waits(s.b, Listening)
    requires HasRoom(s.a) && HasData(s.a)
    ensures StepsTo(s, t, 3) && Connected(t)
  {
    hide OwnInv, Step, StepsTo, AllInChannel, Plan, CanResend, KindOf, Fresh;
    ListenerFacts(s.b, s.a);
    IntervalSuffices(s.a, s.b);
    var u := Resend(s, MESSAGE_RETRY_TIMEOUT);
    AllCut(u.a);
    t := DataGetsIn(u);
    OneStep(u, t);
    StepsJoin(s, u, t, 2, 1);
  }

  // ---- who calls ----

  /** x is the end that ends up as the dialer: the peer listens, has no stream, or has the smaller key. */
  predicate Caller(x: Endpoint, y: Endpoint) {
    x.session.Some? && !x.listened && (y.session == None || y.listened || Compare(x.address, y.address) == Greater)
  }

  lemma SomeCaller(s: System)
    requires Inv(s) && (s.a.session.Some? || s.b.session.Some?)
    ensures Caller(s.a, s.b) <==> !Caller(s.b, s.a)
  {
    hide OutboundInv, InboundInv;
    NotBothListen(s.a, s.b);
    CompareOpposite(s.a.address, s.b.address);
  }

  /** The stream of e is in the map and does not time out before it can send again. */
  predicate InTime(e: Endpoint) {
    e.session.Some? ==>
      e.mapped && Fresh(e.session.value, e.clock)
      && (Has(e, Active) ==> Fresh(e.session.value, e.clock + MESSAGE_RETRY_TIMEOUT))
  }

  lemma CallerCases(s: System)
    requires Inv(s) && Caller(s.a, s.b) && InTime(s.a) && InTime(s.b) && !(Has(s.a, Active) && Has(s.b, Active))
    ensures (Waits(s.a, Dialing) && (WillListen(s.b, s.a) || Waits(s.b, Listening)))
            || (ActiveUntil(s.a, s.a.clock + MESSAGE_RETRY_TIMEOUT) && Waits(s.b, Listening))
  {
    hide OutboundInv, InboundInv;
  }

  lemma ConnectsCaller(s: System) returns (t: System, n: nat)
    requires Inv(s) && Bounded(s.a) && Bounded(s.b) && Caller(s.a, s.b)
    requires InTime(s.a) && InTime(s.b) && !(Has(s.a, Active) && Has(s.b, Active)) && HasRoom(s.a) && HasData(s.a)
    ensures StepsTo(s, t, n) && n <= 4 && Connected(t)
  {
    hide Inv, StepsTo, Waits, WillListen, ActiveUntil, Connected, Caller, InTime, HasData;
    CallerCases(s);
    if Waits(s.a, Dialing) && WillListen(s.b, s.a) {
      t := FromDialing(s);
      n := 4;
    } else if Waits(s.a, Dialing) {
      t := FromLostListen(s);
      n := 3;
    } else {
      t := FromLostData(s);
      n := 3;
    }
  }

  lemma ConnectedRoles(s: System)
    requires Connected(s)
    ensures Has(s.a, Active) && Has(s.b, Active) && Alive(s.a) && Alive(s.b) && s.b.listened && !s.a.listened
  {
    NotBothListen(s.a, s.b);
  }

  /**
   * From every reachable state in which at least one end has a stream and not both are Active,
   * whatever has been lost so far: if the streams stay in time and the calling end has a packet
   * that does not read as a control message, at most four steps make both ends Active, the caller
   * as dialer and its peer as listener.
   */
  lemma Connects(s: System) returns (t: System, n: nat)
    requires Reachable(s) && (s.a.session.Some? || s.b.session.Some?) && !(Has(s.a, Active) && Has(s.b, Active))
    requires InTime(s.a) && InTime(s.b)
    requires Caller(s.a, s.b) ==> HasRoom(s.a) && HasData(s.a)
    requires Caller(s.b, s.a) ==> HasRoom(s.b) && HasData(s.b)
    ensures StepsTo(s, t, n) && n <= 4 && Reachable(t) && Alive(t.a) && Alive(t.b)
    ensures t.b.listened == !t.a.listened == Caller(s.a, s.b)
  {
    hide IsRun, Inv, StepsTo, Alive, Caller, InTime, HasData, Connected;
    ReachableInv(s);
    SomeCaller(s);
    if Caller(s.a, s.b) {
      t, n := ConnectsCaller(s);
      ConnectedRoles(t);
    } else {
      SwapReachable(s);
      ReachableInv(Swap(s));
      var other;
      other, n := ConnectsCaller(Swap(s));
      ConnectedRoles(other);
      SwapSteps(Swap(s), other, n);
      t := Swap(other);
    }
    ConnectedBounds(t);
    StepsReach(s, t, n);
  }

  // ---- from two idle ends ----

  lemma {:induction false} ChunksCount(s: seq<byte>)
    ensures |Chunks(s)| <= |s|
    decreases |s|
  {
    if s != [] { ChunksCount(s[|Chunk(s)|..]); }
  }

  /** The first packet of a write below 0x47000000 bytes starts at its header, so it is data. */
  lemma FirstPacketIsData(w: seq<byte>)
    requires |w| < 0x4700_0000
    ensures Chunks(Frame(w)) != [] && KindOf(Chunks(Frame(w))[0]) == KData
  {
    hide KindOf;
    FramedOne(w);
    FrameAlignedIsData([w], Chunk(Frame(w)));
  }

  /** a has dialled and written ws, and nothing has been sent to its idle peer but DIAL. */
  predicate Prepared(s: System, ws: seq<seq<byte>>) {
    && Inv(s) && Waits(s.a, Dialing) && IsIdle(s.b)
    && Packets(s.a) == [] && Writes(s.a) == ws && Planned(s.a) == Chunks(Framed(ws))
  }

  lemma DialFirst(s: System) returns (t: System)
    requires Init(s)
    ensures StepsTo(s, t, 1) && Prepared(t, [])
  {
    hide Step, OwnInv, Grows;
    InitInv(s);
    var dial := Dial(CALM.(now := s.a.clock));
    t := ByA(s, dial);
    PerformKeeps(s.a, s.b, dial);
    GrowsAddress(s.a, t.a);
    StepOfA(s, dial);
    OneStep(s, t);
  }

  lemma WriteNext(s: System, ws: seq<seq<byte>>, w: seq<byte>) returns (t: System)
    requires Prepared(s, ws)
    ensures StepsTo(s, t, 1) && Prepared(t, ws + [w])
  {
    hide Step, OwnInv, Grows, Chunks, Frame;
    t := ByA(s, AppWrite(w));
    PerformKeeps(s.a, s.b, AppWrite(w));
    GrowsAddress(s.a, t.a);
    StepOfA(s, AppWrite(w));
    OneStep(s, t);
    WaitingIsFramed(t.a, t.b);
  }

  lemma WaitingIsFramed(x: Endpoint, y: Endpoint)
    requires OwnInv(x, y) && x.session.Some? && Packets(x) == []
    ensures Planned(x) == Chunks(Framed(Writes(x)))
  {
    hide ControlInv, InboundInv, WellTimed, SentOk, Chunks, Framed;
    EmptyLists();
    var o := x.session.value.out;
    assert [] + o.stream == o.stream && [] + Chunks(o.stream) == Chunks(o.stream);
  }

  /** A dial and any writes at an idle end with an idle peer. */
  lemma {:induction false} DialAndWrite(s: System, ws: seq<seq<byte>>) returns (t: System)
    requires Init(s)
    ensures StepsTo(s, t, |ws| + 1) && Prepared(t, ws)
    decreases |ws|
  {
    hide StepsTo, Prepared, Init;
    if ws == [] {
      t := DialFirst(s);
    } else {
      var n := |ws| - 1;
      var u := DialAndWrite(s, ws[..n]);
      t := WriteNext(u, ws[..n], ws[n]);
      assert ws[..n] + [ws[n]] == ws;
      StepsJoin(s, u, t, n + 1, 1);
    }
  }

  lemma FromScratch(s: System, ws: seq<seq<byte>>) returns (t: System)
    requires Init(s) && |Chunks(Framed(ws))| < U32 - WINDOW
    requires Chunks(Framed(ws)) != [] && KindOf(Chunks(Framed(ws))[0]) == KData
    ensures StepsTo(s, t, |ws| + 5) && Connected(t) && JustHeard(t.a) && JustHeard(t.b) && Received(t.b) >= 1
    ensures Writes(t.a) == ws && Planned(t.a) == Chunks(Framed(ws)) && Planned(t.b) == []
  {
    hide StepsTo, OwnInv, Chunks, Framed, KindOf, Connected;
    var u := DialAndWrite(s, ws);
    assert FirstIsData(u.a) && HasData(u.a);
    t := FromDialing(u);
    StepsJoin(s, u, t, |ws| + 1, 4);
  }

  lemma InitReachable(s: System)
    requires Init(s)
    ensures Reachable(s)
  {
    assert IsRun([s]) && [s][|[s]| - 1] == s;
  }

  /** Two idle ends, a dial and one write below 0x47000000 bytes: six steps connect them. */
  lemma ConnectsFromScratch(s: System, w: seq<byte>) returns (t: System)
    requires Init(s) && |w| < 0x4700_0000
    ensures StepsTo(s, t, 6) && Reachable(t) && Alive(t.a) && Alive(t.b) && Received(t.b) >= 1
  {
    hide StepsTo, Reachable, Init, Chunks, Frame, Framed, KindOf, Connected, JustHeard, Alive;
    FirstPacketIsData(w);
    ChunksCount(Frame(w));
    FramedOne(w);
    t := FromScratch(s, [w]);
    ConnectedRoles(t);
    ConnectedBounds(t);
    InitReachable(s);
    StepsReach(s, t, 6);
  }

  lemma ConnectedBounds(s: System)
    requires Connected(s) || Connected(Swap(s))
    ensures Bounded(s.a) && Bounded(s.b)
  {
  }
}
