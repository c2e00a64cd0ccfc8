/** The invariant of every run of two endpoints, and its preservation by every step. */
module NetworkInvariant {
  import opened Bytes
  import opened Framing
  import opened Address
  import opened Wire
  import opened Protocol
  import opened Sender
  import opened Receiver
  import opened Network

  // ---- the parts of the invariant ----

  predicate IsHello(e: Endpoint, m: Payload) {
    && m.msgSeq == 0 && m.receivedSeq == 0
    && ((m.data == DIAL + e.key && e.dialed) || (m.data == LISTEN + e.key && e.listened))
  }

  predicate IsPacket(s: Stream, m: Payload) {
    1 <= m.msgSeq <= |s.out.packets| && m.data == s.out.packets[m.msgSeq - 1]
  }

  /** What a message ever sent by e can be. */
  predicate Genuine(e: Endpoint, m: Payload) {
    && e.session.Some?
    && var s := e.session.value;
    && m.streamId == s.ctl.myId && m.signer == e.key && m.address == ToMultiaddr(e.address)
    && m.receivedSeq <= s.inb.received
    && (IsHello(e, m) || (s.ctl.status == Active && (m.data == STATUS || IsPacket(s, m))))
  }

  predicate SentOk(e: Endpoint) { forall m :: m in e.sent ==> Genuine(e, m) }

  /** e has put signed data on the network. */
  predicate SentPacket(e: Endpoint) {
    exists m :: m in e.sent && Genuine(e, m) && e.session.value.ctl.status == Active && IsPacket(e.session.value, m)
  }

  predicate Has(e: Endpoint, status: Status) { e.session.Some? && e.session.value.ctl.status == status }

  /** The handshake state of x, which has the control part c, with respect to its peer y. */
  predicate ControlInv(c: Control, x: Endpoint, y: Endpoint) {
    && c.myId > 0 && c.localAddress == x.address && c.myKey == x.key && c.remoteAddress == Canonical(y.address)
    && c.status != Expired && (x.dialed || x.listened)
    && (c.remoteId == 0 || (y.session.Some? && c.remoteId == y.session.value.ctl.myId))
    && (c.remoteKey == None || c.remoteKey == Some(y.key))
    && (c.status == Dialing ==> !x.listened)
    && (c.status == Listening ==> x.listened)
    && (c.status != Dialing ==> c.remoteId != 0 && c.remoteKey == Some(y.key))
    && (c.status == Active && !x.listened ==> y.listened)
    && (c.status == Active && x.listened ==> Has(y, Active) && SentPacket(y))
    && (x.listened ==> y.dialed)
    && (x.listened && x.dialed ==> Compare(y.address, x.address) == Greater)
  }

  predicate OutboundInv(o: Outbound, status: Status, clock: int, arrived: nat) {
    && OutInv(o, clock) && Holds(o, arrived) && o.delivered <= arrived
    && (status != Active ==> o.packets == [])
    && o.lastSent <= clock
  }

  predicate InboundInv(i: Inbound, packets: seq<seq<byte>>) {
    InbInv(i) && Matches(i, packets) && OnlyData(i, packets)
  }

  predicate StreamInv(s: Stream, x: Endpoint, y: Endpoint) {
    && ControlInv(s.ctl, x, y)
    && OutboundInv(s.out, s.ctl.status, x.clock, Received(y))
    && InboundInv(s.inb, Packets(y))
    && (s.ctl.status != Active ==> s.inb.received == 0)
  }

  predicate OwnInv(x: Endpoint, y: Endpoint) {
    && (x.session == None ==> IsIdle(x))
    && (x.session.Some? ==>
          StreamInv(x.session.value, x, y) && SentOk(x) && (x.tasks > 0 ==> x.session.value.ctl.status == Active))
  }

  predicate Inv(s: System) {
    OwnInv(s.a, s.b) && OwnInv(s.b, s.a) && s.a.address.key != s.b.address.key
  }

  // ---- growth: what a step of one end can do to what the other end relies on ----

  predicate StreamGrows(s: Stream, t: Stream) {
    && s.ctl.myId == t.ctl.myId
    && (s.ctl.status == Active ==> t.ctl.status == Active)
    && s.out.packets <= t.out.packets
    && s.inb.received <= t.inb.received
  }

  predicate Grows(x: Endpoint, x': Endpoint) {
    && x.address == x'.address && x.key == x'.key && x.clock <= x'.clock
    && (x.dialed ==> x'.dialed) && (x.listened ==> x'.listened) && x.sent <= x'.sent
    && (x.session.Some? ==> x'.session.Some? && StreamGrows(x.session.value, x'.session.value))
  }

  lemma PeerGrows(y: Endpoint, x: Endpoint, x': Endpoint)
    requires OwnInv(y, x) && Grows(x, x')
    ensures OwnInv(y, x')
  {
    hide OutInv, InbInv, Deframe, Flatten;
    if y.session.Some? {
      var s := y.session.value;
      assert Packets(x) <= Packets(x') && Received(x) <= Received(x');
      MatchesLonger(s.inb, Packets(x), Packets(x'));
      if SentPacket(x) { SentPacketStays(x, x'); }
      assert ControlInv(s.ctl, y, x');
      assert InboundInv(s.inb, Packets(x'));
    }
  }

  lemma SentPacketStays(x: Endpoint, x': Endpoint)
    requires SentPacket(x) && Grows(x, x')
    ensures SentPacket(x')
  {
    var m :| m in x.sent && Genuine(x, m) && x.session.value.ctl.status == Active && IsPacket(x.session.value, m);
    assert m in x'.sent && Genuine(x', m) && IsPacket(x'.session.value, m);
  }

  lemma SentStaysOk(x: Endpoint, x': Endpoint)
    requires SentOk(x) && Grows(x, x')
    ensures forall m :: m in x.sent ==> Genuine(x', m)
  {
  }

  /** The step of an endpoint that already has its stream comes down to its new stream t. */
  function Advance(x: Endpoint, t: Stream, more: set<Payload>, listened: bool): Endpoint {
    x.(session := Some(t), sent := x.sent + more, listened := x.listened || listened)
  }

  lemma AdvanceKeeps(x: Endpoint, y: Endpoint, t: Stream, more: set<Payload>, listened: bool)
    requires OwnInv(x, y) && x.session.Some? && StreamGrows(x.session.value, t)
    requires var x' := Advance(x, t, more, listened);
             StreamInv(t, x', y) && forall m :: m in more ==> Genuine(x', m)
    ensures OwnInv(Advance(x, t, more, listened), y) && Grows(x, Advance(x, t, more, listened))
  {
    hide StreamInv, Genuine;
    SentStaysOk(x, Advance(x, t, more, listened));
  }

  // ---- sends ----

  lemma FlushKeeps(s: Stream, x: Endpoint, y: Endpoint)
    requires StreamInv(s, x, y) && s.ctl.status == Active
    requires |Flush(s, x.clock).out.packets| < U32
    ensures StreamInv(Flush(s, x.clock), x, y) && StreamGrows(s, Flush(s, x.clock))
  {
    hide ControlInv, InboundInv, Conserves, WellTimed, Flatten, Generate, Chunks;
    GeneratePackets(s.out);
    GenerateKeeps(s.out, x.clock);
    SentKeeps(Generate(s.out), x.clock);
    var o := Generate(s.out);
    assert Holds(o, Received(y));
    assert Sent(o, x.clock).queue.Keys == o.queue.Keys;
  }

  lemma FlushIsGenuine(s: Stream, x: Endpoint, y: Endpoint, e: Endpoint)
    requires StreamInv(s, x, y) && s.ctl.status == Active
    requires |Flush(s, x.clock).out.packets| < U32
    requires e.session == Some(Flush(s, x.clock)) && e.key == x.key && e.address == x.address
    ensures forall m :: m in FlushMessages(s, x.clock) ==> Genuine(e, m)
  {
    hide InboundInv, Conserves, WellTimed, Flatten, Generate, Chunks, Genuine;
    GeneratePackets(s.out);
    GenerateKeeps(s.out, x.clock);
    var g := Generated(s);
    forall m | m in FlushMessages(s, x.clock) ensures Genuine(e, m) {
      var k :| k in g.out.queue && IsDue(g.out.queue[k], x.clock) && m == DataMessage(g, k);
      QueuedIsGenuine(s, e, g, k, x.clock);
    }
  }

  lemma QueuedIsGenuine(s: Stream, e: Endpoint, g: Stream, k: nat, now: int)
    requires g == s.(out := g.out) && WellNumbered(g.out) && k in g.out.queue
    requires e.session == Some(AfterSend(g, now)) && s.ctl.status == Active
    requires s.ctl.myKey == e.key && s.ctl.localAddress == e.address
    ensures Genuine(e, DataMessage(g, k))
  {
  }

  // ---- what a delivered message can be ----

  /** Only an Active peer sends anything but DIAL and LISTEN, and then this end has its stream. */
  lemma ActivePeer(x: Endpoint, y: Endpoint)
    requires OwnInv(y, x) && OwnInv(x, y) && Has(y, Active)
    ensures x.listened || Has(x, Active)
  {
  }

  lemma KindOfGenuine(y: Endpoint, m: Payload)
    requires Genuine(y, m)
    ensures m.data == DIAL + y.key ==> KindOf(m.data) == KDial && KeyBytes(m.data) == y.key
    ensures m.data == LISTEN + y.key ==> KindOf(m.data) == KListen && KeyBytes(m.data) == y.key
    ensures KindOf(m.data) == KData ==> Has(y, Active) && IsPacket(y.session.value, m)
    ensures !IsHello(y, m) ==> Has(y, Active)
  {
    KindOfControl(y.key);
  }

  /** Before this end is Listen or Active, a DIAL or LISTEN is a real one and the roles are open. */
  lemma HelloToDialer(x: Endpoint, y: Endpoint, m: Payload)
    requires OwnInv(x, y) && OwnInv(y, x) && Genuine(y, m)
    requires x.session == None || x.session.value.ctl.status == Dialing
    ensures IsHello(y, m) && !Has(y, Active)
    ensures KindOf(m.data) == KDial ==> y.dialed && KeyBytes(m.data) == y.key
    ensures KindOf(m.data) == KListen ==> y.listened && KeyBytes(m.data) == y.key
    ensures KindOf(m.data) == KDial || KindOf(m.data) == KListen
  {
    KindOfGenuine(y, m);
    if Has(y, Active) { ActivePeer(x, y); }
  }

  // ---- opening a stream ----

  lemma NewStreamInv(x: Endpoint, y: Endpoint, s: Stream)
    requires ControlInv(s.ctl, x, y)
    requires s.inb == Inbound([], [], 0, map[], s.inb.lastHeard, [], [], 0)
    requires s.out == Outbound([], map[], 0, 0, s.out.lastSent, [], [], map[]) && s.out.lastSent <= x.clock
    ensures StreamInv(s, x, y)
  {
    hide ControlInv, Deframe, KindOf;
    assert Packets(y)[..0] == [];
    DeframeNone([]);
    assert Conserves(s.out) && WellNumbered(s.out) && WellTimed(s.out, x.clock);
    assert InbInv(s.inb);
  }

  lemma DialKeeps(x: Endpoint, y: Endpoint, env: Env)
    requires OwnInv(x, y) && OwnInv(y, x) && Enabled(x, y, Dial(env))
    ensures OwnInv(Perform(x, y, Dial(env)), y) && Grows(x, Perform(x, y, Dial(env)))
  {
    hide InbInv, Deframe, Flatten, OutInv;
    var x' := Perform(x, y, Dial(env));
    assert ControlInv(x'.session.value.ctl, x', y);
    NewStreamInv(x', y, x'.session.value);
  }

  lemma OpenKeeps(x: Endpoint, y: Endpoint, m: Payload, env: Env)
    requires OwnInv(x, y) && OwnInv(y, x) && Enabled(x, y, Deliver(m, env)) && x.session == None
    requires x.address.key != y.address.key
    ensures OwnInv(Perform(x, y, Deliver(m, env)), y) && Grows(x, Perform(x, y, Deliver(m, env)))
  {
    hide InbInv, Deframe, Flatten, OutInv;
    assert Genuine(y, m);
    HelloToDialer(x, y, m);
    var h := HandleAt(x, y, m, env);
    var x' := Perform(x, y, Deliver(m, env));
    if h.created {
      var t := h.entry.value;
      assert ControlInv(t.ctl, x', y);
      NewStreamInv(x', y, t);
    } else {
      assert x' == x;
    }
  }

  // ---- handling a message with the stream in place ----

  lemma RefreshKeeps(s: Stream, x: Endpoint, y: Endpoint, m: Payload)
    requires StreamInv(s, x, y) && Genuine(y, m)
    ensures StreamInv(Refresh(s, m), x, y) && Refresh(s, m).ctl.remoteId == m.streamId
    ensures StreamGrows(s, Refresh(s, m))
  {
    assert m.streamId == y.session.value.ctl.myId;
  }

  /** A change of the control part and of the inbound clock only. */
  lemma ControlStep(s: Stream, t: Stream, x: Endpoint, x': Endpoint, y: Endpoint)
    requires StreamInv(s, x, y) && ControlInv(t.ctl, x', y) && x'.clock == x.clock
    requires t.out == s.out && t.inb == s.inb.(lastHeard := t.inb.lastHeard)
    requires t.ctl.status != Active ==> s.ctl.status != Active
    ensures StreamInv(t, x', y)
  {
    hide ControlInv, OutInv, Deframe, Flatten;
  }

  /** A delivered message m met the stream, by now s, of end x; nothing has been decided yet. */
  predicate Ready(s: Stream, x: Endpoint, y: Endpoint, m: Payload) {
    && OwnInv(x, y) && OwnInv(y, x) && x.address.key != y.address.key
    && x.session.Some? && StreamInv(s, x, y) && StreamGrows(x.session.value, s)
    && s.ctl.status == x.session.value.ctl.status
    && m in y.sent && Genuine(y, m) && s.ctl.remoteId == m.streamId
  }

  /** The handler's outcome h is a step of x that keeps the invariant. */
  predicate Kept(x: Endpoint, y: Endpoint, h: Handled) {
    && !h.created && h.entry.Some?
    && var x' := Advance(x, h.entry.value, h.sent, h.entry.value.ctl.status == Listening);
    OwnInv(x', y) && Grows(x, x')
  }

  lemma ReadyAdvances(s: Stream, x: Endpoint, y: Endpoint, m: Payload, t: Stream, more: set<Payload>, listened: bool)
    requires Ready(s, x, y, m) && StreamGrows(s, t)
    requires var x' := Advance(x, t, more, listened);
             StreamInv(t, x', y) && forall m :: m in more ==> Genuine(x', m)
    ensures OwnInv(Advance(x, t, more, listened), y) && Grows(x, Advance(x, t, more, listened))
  {
    hide OwnInv, StreamInv, Genuine;
    AdvanceKeeps(x, y, t, more, listened);
  }

  /** A hello answered by a hello: only the control part and the inbound clock change. */
  lemma HelloAdvances(s: Stream, x: Endpoint, y: Endpoint, m: Payload, t: Stream, reply: Payload, listened: bool)
    requires Ready(s, x, y, m) && s.ctl.status == Dialing && t.ctl.status != Active
    requires t.ctl.myId == s.ctl.myId && t.out == s.out && t.inb == s.inb.(lastHeard := t.inb.lastHeard)
    requires var x' := Advance(x, t, {reply}, listened);
             ControlInv(t.ctl, x', y) && Genuine(x', reply)
    ensures OwnInv(Advance(x, t, {reply}, listened), y) && Grows(x, Advance(x, t, {reply}, listened))
  {
    hide ControlInv, Genuine, OutboundInv, InboundInv;
    ControlStep(s, t, x, Advance(x, t, {reply}, listened), y);
    ReadyAdvances(s, x, y, m, t, {reply}, listened);
  }

  /** Both ends dialled and this end's address is the larger: it stays the dialer. */
  lemma DialingRedials(s: Stream, x: Endpoint, y: Endpoint, m: Payload, now: int)
    requires Ready(s, x, y, m) && s.ctl.status == Dialing
    ensures var t := WithStatus(HeardAt(WithRemoteKey(s, y.key), now), Dialing);
            var x' := Advance(x, t, {DialMessage(t)}, false);
            OwnInv(x', y) && Grows(x, x')
  {
    hide OutboundInv, InboundInv;
    var t := WithStatus(HeardAt(WithRemoteKey(s, y.key), now), Dialing);
    HelloAdvances(s, x, y, m, t, DialMessage(t), false);
  }

  /** Both ends dialled and this end's address is the smaller: it becomes the listener. */
  lemma DialingYields(s: Stream, x: Endpoint, y: Endpoint, m: Payload, now: int)
    requires Ready(s, x, y, m) && s.ctl.status == Dialing && KindOf(m.data) == KDial
    requires Compare(Canonical(y.address), x.address) == Greater
    ensures var t := HeardAt(WithStatus(WithRemoteId(WithRemoteKey(s, y.key), m.streamId), Listening), now);
            var x' := Advance(x, t, {ListenMessage(t)}, true);
            OwnInv(x', y) && Grows(x, x')
  {
    hide OutboundInv, InboundInv;
    var t := HeardAt(WithStatus(WithRemoteId(WithRemoteKey(s, y.key), m.streamId), Listening), now);
    HelloToDialer(x, y, m);
    CompareOpposite(y.address, x.address);
    HelloAdvances(s, x, y, m, t, ListenMessage(t), true);
  }

  lemma DialingActivates(s: Stream, x: Endpoint, y: Endpoint, m: Payload)
    requires Ready(s, x, y, m) && s.ctl.status == Dialing && KindOf(m.data) == KListen
    requires |Generate(s.out).packets| < U32
    ensures var u := WithStatus(WithRemoteId(HeardAt(WithRemoteKey(s, y.key), x.clock), m.streamId), Active);
            var x' := Advance(x, Flush(u, x.clock), FlushMessages(u, x.clock), false);
            OwnInv(x', y) && Grows(x, x')
  {
    hide OutboundInv, InboundInv, Generate;
    var u := WithStatus(WithRemoteId(HeardAt(WithRemoteKey(s, y.key), x.clock), m.streamId), Active);
    var x' := Advance(x, Flush(u, x.clock), FlushMessages(u, x.clock), false);
    HelloToDialer(x, y, m);
    assert ControlInv(u.ctl, x, y);
    ControlStep(s, u, x, x, y);
    FlushKeeps(u, x, y);
    FlushIsGenuine(u, x, y, x');
    ReadyAdvances(s, x, y, m, Flush(u, x.clock), FlushMessages(u, x.clock), false);
  }

  /** What the Dialing row of the handler's table comes to when the peer's key decodes. */
  lemma DialingOutcome(s: Stream, local: Address, remote: Address, m: Payload, env: Env, key: PublicKey)
    requires env.keyDecodes && KeyBytes(m.data) == key && Compare(remote, local) != Equal && KindOf(m.data) == KDial
    ensures var h := HandleDialing(s, local, remote, m, env);
            if Compare(remote, local) == Less then
              var t := WithStatus(HeardAt(WithRemoteKey(s, key), env.now), Dialing);
              h == Handled(Some(t), {DialMessage(t)}, false, Pending)
            else
              var t := HeardAt(WithStatus(WithRemoteId(WithRemoteKey(s, key), m.streamId), Listening), env.now);
              h == Handled(Some(t), {ListenMessage(t)}, false, Incoming)
  {
  }

  lemma DialingOutcomeListen(s: Stream, local: Address, remote: Address, m: Payload, env: Env, key: PublicKey)
    requires env.keyDecodes && KeyBytes(m.data) == key && KindOf(m.data) == KListen
    ensures var h := HandleDialing(s, local, remote, m, env);
            var u := WithStatus(WithRemoteId(HeardAt(WithRemoteKey(s, key), env.now), m.streamId), Active);
            h == Handled(Some(Flush(u, env.now)), FlushMessages(u, env.now), false, Pending)
            && h.entry.value.ctl.status == Active && h.entry.value.out.packets == Generate(s.out).packets
  {
  }

  lemma DialingHandlesDial(s: Stream, x: Endpoint, y: Endpoint, m: Payload, env: Env)
    requires Ready(s, x, y, m) && s.ctl.status == Dialing && KindOf(m.data) == KDial
    requires KeyBytes(m.data) == y.key && env.keyDecodes
    ensures Kept(x, y, HandleDialing(s, x.address, Canonical(y.address), m, env))
  {
    var h := HandleDialing(s, x.address, Canonical(y.address), m, env);
    CompareOpposite(y.address, x.address);
    DialingOutcome(s, x.address, Canonical(y.address), m, env, y.key);
    if Compare(Canonical(y.address), x.address) == Less {
      DialingRedials(s, x, y, m, env.now);
      assert h.entry.value.ctl.status == Dialing;
    } else {
      DialingYields(s, x, y, m, env.now);
    }
  }

  lemma DialingHandlesListen(s: Stream, x: Endpoint, y: Endpoint, m: Payload, env: Env)
    requires Ready(s, x, y, m) && s.ctl.status == Dialing && KindOf(m.data) == KListen
    requires KeyBytes(m.data) == y.key && env.keyDecodes && env.now == x.clock
    requires |Generate(s.out).packets| < U32
    ensures Kept(x, y, HandleDialing(s, x.address, Canonical(y.address), m, env))
  {
    DialingOutcomeListen(s, x.address, Canonical(y.address), m, env, y.key);
    DialingActivates(s, x, y, m);
  }

  lemma DialingHandles(s: Stream, x: Endpoint, y: Endpoint, m: Payload, env: Env)
    requires Ready(s, x, y, m) && s.ctl.status == Dialing
    requires env.now == x.clock && (KeyBytes(m.data) == y.key ==> env.keyDecodes)
    requires KindOf(m.data) == KListen ==> |Generate(s.out).packets| < U32
    ensures Kept(x, y, HandleDialing(s, x.address, Canonical(y.address), m, env))
  {
    HelloToDialer(x, y, m);
    if KindOf(m.data) == KDial {
      DialingHandlesDial(s, x, y, m, env);
    } else {
      DialingHandlesListen(s, x, y, m, env);
    }
  }

  lemma ListeningDial(s: Stream, x: Endpoint, y: Endpoint, m: Payload)
    requires Ready(s, x, y, m) && s.ctl.status == Listening
    ensures var t := WithRemoteId(s, m.streamId);
            var x' := Advance(x, t, {ListenMessage(t)}, true);
            OwnInv(x', y) && Grows(x, x')
  {
    hide OutboundInv, InboundInv;
    assert WithRemoteId(s, m.streamId) == s;
    AdvanceKeeps(x, y, s, {ListenMessage(s)}, true);
  }

  lemma AcceptKeepsInbound(i: Inbound, packets: seq<seq<byte>>, now: int)
    requires InboundInv(i, packets) && i.received < |packets| && KindOf(packets[i.received]) == KData
    ensures InboundInv(Accept(i, now, packets[i.received]), packets)
    ensures Accept(i, now, packets[i.received]).received > i.received
  {
    hide Accept, InbInv, Matches, OnlyData, KindOf;
    AcceptKeeps(i, packets, now);
    AcceptKeepsData(i, packets, now);
  }

  lemma AckKeepsOutbound(o: Outbound, status: Status, clock: int, arrived: nat, ack: nat)
    requires OutboundInv(o, status, clock, arrived) && ack <= arrived
    ensures OutboundInv(Acked(o, ack), status, clock, arrived)
  {
    AckKeeps(o, ack, clock);
  }

  lemma RecvKeeps(s: Stream, x: Endpoint, y: Endpoint, m: Payload)
    requires StreamInv(s, x, y) && s.ctl.status == Active
    requires Genuine(y, m) && IsPacket(y.session.value, m) && KindOf(m.data) == KData
    ensures var t := RecvMessage(s, x.clock, m.receivedSeq, m.msgSeq, m.data);
            StreamInv(t, x, y) && StreamGrows(s, t)
  {
    hide ControlInv, OutInv, InbInv, KindOf, Accept;
    if m.msgSeq != s.inb.received + 1 {
      ParkKeeps(s.inb, Packets(y), m.msgSeq);
    } else if IsActive(s, x.clock) {
      AcceptKeepsInbound(s.inb, Packets(y), x.clock);
      AckKeepsOutbound(s.out, Active, x.clock, Received(y), m.receivedSeq);
    }
  }

  lemma DataHandled(s: Stream, x: Endpoint, y: Endpoint, m: Payload)
    requires Ready(s, x, y, m) && KindOf(m.data) == KData && s.ctl.status != Dialing
    ensures var t := RecvMessage(WithStatus(s, Active), x.clock, m.receivedSeq, m.msgSeq, m.data);
            var x' := Advance(x, t, {}, false);
            OwnInv(x', y) && Grows(x, x') && t.ctl.status == Active
  {
    hide OutboundInv, InboundInv, RecvMessage;
    KindOfGenuine(y, m);
    var u := WithStatus(s, Active);
    assert SentPacket(y);
    assert ControlInv(u.ctl, x, y);
    ControlStep(s, u, x, x, y);
    RecvKeeps(u, x, y, m);
    ReadyAdvances(s, x, y, m, RecvMessage(u, x.clock, m.receivedSeq, m.msgSeq, m.data), {}, false);
  }

  lemma StatusHandled(s: Stream, x: Endpoint, y: Endpoint, m: Payload)
    requires Ready(s, x, y, m)
    ensures var t := s.(out := Acked(s.out, m.receivedSeq));
            var x' := Advance(x, t, {}, false);
            OwnInv(x', y) && Grows(x, x')
  {
    var t := s.(out := Acked(s.out, m.receivedSeq));
    AckKeepsOutbound(s.out, s.ctl.status, x.clock, Received(y), m.receivedSeq);
    ReadyAdvances(s, x, y, m, t, {}, false);
  }

  lemma NothingHandled(s: Stream, x: Endpoint, y: Endpoint, m: Payload)
    requires Ready(s, x, y, m)
    ensures var x' := Advance(x, s, {}, s.ctl.status == Listening);
            OwnInv(x', y) && Grows(x, x')
  {
    ReadyAdvances(s, x, y, m, s, {}, s.ctl.status == Listening);
  }

  lemma ListeningHandles(s: Stream, x: Endpoint, y: Endpoint, m: Payload, env: Env, signed: bool)
    requires Ready(s, x, y, m) && s.ctl.status == Listening && env.now == x.clock
    ensures Kept(x, y, HandleListening(s, signed, m, env))
  {
    hide OwnInv, Grows, StreamInv, RecvMessage;
    if KindOf(m.data) == KDial { ListeningDial(s, x, y, m); }
    else if KindOf(m.data) == KData && signed { DataHandled(s, x, y, m); }
    else { NothingHandled(s, x, y, m); }
  }

  lemma ActiveHandles(s: Stream, x: Endpoint, y: Endpoint, m: Payload, env: Env, signed: bool)
    requires Ready(s, x, y, m) && s.ctl.status == Active && env.now == x.clock
    ensures Kept(x, y, HandleActive(s, signed, x.address, Canonical(y.address), x.key, m, env))
  {
    hide OwnInv, Grows, StreamInv, RecvMessage;
    if KindOf(m.data) == KStatus { StatusHandled(s, x, y, m); }
    else if KindOf(m.data) == KData && signed { DataHandled(s, x, y, m); }
    else { NothingHandled(s, x, y, m); }
  }

  lemma EntryHandled(s: Stream, x: Endpoint, y: Endpoint, m: Payload, env: Env, signed: bool)
    requires Ready(s, x, y, m)
    requires env.now == x.clock && (KeyBytes(m.data) == y.key ==> env.keyDecodes)
    requires var h := HandleEntry(s, signed, x.address, Canonical(y.address), x.key, m, env);
             h.entry.Some? && |h.entry.value.out.packets| < U32
    ensures Kept(x, y, HandleEntry(s, signed, x.address, Canonical(y.address), x.key, m, env))
  {
    match s.ctl.status
    case Dialing =>
      HelloToDialer(x, y, m);
      if KindOf(m.data) == KListen { DialingOutcomeListen(s, x.address, Canonical(y.address), m, env, y.key); }
      DialingHandles(s, x, y, m, env);
    case Listening => ListeningHandles(s, x, y, m, env, signed);
    case Active => ActiveHandles(s, x, y, m, env, signed);
  }

  lemma MappedOutcome(x: Endpoint, y: Endpoint, m: Payload, env: Env)
    requires x.session.Some? && x.mapped
    ensures var s := Refresh(x.session.value, m);
            HandleAt(x, y, m, env) ==
            if env.addressKnown then
              HandleEntry(s, IsSigned(x.session, m), x.address, Canonical(y.address), x.key, m, env)
            else Handled(Some(s), {}, false, Ended)
  {
  }

  lemma AfterHandleAdvances(x: Endpoint, h: Handled)
    requires h.entry.Some? && x.mapped
    ensures AfterHandle(x, h) == Advance(x, h.entry.value, h.sent, h.entry.value.ctl.status == Listening)
  {
  }

  lemma MappedDeliverKeeps(x: Endpoint, y: Endpoint, m: Payload, env: Env)
    requires OwnInv(x, y) && OwnInv(y, x) && x.session.Some? && x.mapped && m in y.sent
    requires env.now == x.clock && (KeyBytes(m.data) == y.key ==> env.keyDecodes)
    requires x.address.key != y.address.key
    requires var h := HandleAt(x, y, m, env); h.entry.Some? && |h.entry.value.out.packets| < U32
    ensures var x' := AfterHandle(x, HandleAt(x, y, m, env));
            OwnInv(x', y) && Grows(x, x')
  {
    assert Genuine(y, m);
    var s := Refresh(x.session.value, m);
    RefreshKeeps(x.session.value, x, y, m);
    var h := HandleAt(x, y, m, env);
    MappedOutcome(x, y, m, env);
    AfterHandleAdvances(x, h);
    if env.addressKnown {
      EntryHandled(s, x, y, m, env, IsSigned(x.session, m));
    } else {
      NothingHandled(s, x, y, m);
    }
  }

  lemma UnmappedOutcome(x: Endpoint, y: Endpoint, m: Payload, env: Env)
    requires x.session.Some? && !x.mapped && Enabled(x, y, Deliver(m, env))
    ensures Perform(x, y, Deliver(m, env)) == x
  {
    assert x.sent + {} == x.sent;
  }

  lemma HandleKeepsEntry(entry: Option<Stream>, local: Address, remote: Address, key: PublicKey, m: Payload, env: Env)
    requires entry.Some?
    ensures Handle(entry, local, remote, key, m, env).entry.Some?
  {
  }

  lemma DeliverKeeps(x: Endpoint, y: Endpoint, m: Payload, env: Env)
    requires OwnInv(x, y) && OwnInv(y, x) && Enabled(x, y, Deliver(m, env))
    requires x.address.key != y.address.key && |Packets(Perform(x, y, Deliver(m, env)))| < U32
    ensures OwnInv(Perform(x, y, Deliver(m, env)), y) && Grows(x, Perform(x, y, Deliver(m, env)))
  {
    if x.session == None {
      OpenKeeps(x, y, m, env);
    } else if x.mapped {
      HandleKeepsEntry(Entry(x), x.address, Canonical(y.address), x.key, m, env);
      MappedDeliverKeeps(x, y, m, env);
    } else {
      UnmappedOutcome(x, y, m, env);
    }
  }

  // ---- the other steps ----

  lemma HeartbeatOutcome(x: Endpoint, y: Endpoint)
    requires Entry(x).Some?
    ensures var beat := HeartbeatOne(x.session.value, x.clock);
            Perform(x, y, Heartbeat) == Advance(x, beat.stream, beat.sent, false).(mapped := beat.keep)
  {
  }

  lemma StatusIsGenuine(s: Stream, x: Endpoint, y: Endpoint, e: Endpoint, now: int)
    requires StreamInv(s, x, y) && e.key == x.key && e.address == x.address
    requires e.session.Some? && StreamGrows(s, e.session.value)
    ensures forall m :: m in StatusIfStale(s, now) ==> Genuine(e, m)
  {
    hide OutboundInv, InboundInv;
  }

  lemma ActiveHeartbeatKeeps(x: Endpoint, y: Endpoint)
    requires OwnInv(x, y) && x.session.Some? && IsActive(x.session.value, x.clock)
    requires |Flush(x.session.value, x.clock).out.packets| < U32
    ensures var beat := HeartbeatOne(x.session.value, x.clock);
            var x' := Advance(x, beat.stream, beat.sent, false);
            OwnInv(x', y) && Grows(x, x')
  {
    hide StreamInv, Flush, FlushMessages, StatusIfStale, Genuine;
    var s := x.session.value;
    var beat := HeartbeatOne(s, x.clock);
    var x' := Advance(x, beat.stream, beat.sent, false);
    FlushKeeps(s, x, y);
    FlushIsGenuine(s, x, y, x');
    StatusIsGenuine(s, x, y, x', x.clock);
    StreamInvAdvance(beat.stream, x, x', y);
    AdvanceKeeps(x, y, beat.stream, beat.sent, false);
  }

  /** The invariant of a stream does not look at the sent messages, the tasks or the map. */
  lemma StreamInvAdvance(t: Stream, x: Endpoint, x': Endpoint, y: Endpoint)
    requires StreamInv(t, x, y)
    requires x'.address == x.address && x'.key == x.key && x'.clock == x.clock
    requires x'.dialed == x.dialed && x'.listened == x.listened
    ensures StreamInv(t, x', y)
  {
    hide OutboundInv, InboundInv;
  }

  lemma MapKeeps(x: Endpoint, y: Endpoint, mapped: bool)
    requires OwnInv(x, y) && x.session.Some?
    ensures OwnInv(x.(mapped := mapped), y)
  {
    hide StreamInv, Genuine;
    var x' := x.(mapped := mapped);
    StreamInvAdvance(x.session.value, x, x', y);
    forall m | m in x'.sent ensures Genuine(x', m) {
      GenuineAnyMap(x, mapped, m);
    }
  }

  lemma GenuineAnyMap(x: Endpoint, mapped: bool, m: Payload)
    requires Genuine(x, m)
    ensures Genuine(x.(mapped := mapped), m)
  {
  }

  lemma PendingHeartbeatKeeps(x: Endpoint, y: Endpoint)
    requires OwnInv(x, y) && x.session.Some? && !IsActive(x.session.value, x.clock)
    ensures var beat := HeartbeatOne(x.session.value, x.clock);
            var x' := Advance(x, beat.stream, beat.sent, false);
            OwnInv(x', y) && Grows(x, x')
  {
    hide OutboundInv, InboundInv;
    var s := x.session.value;
    AdvanceKeeps(x, y, s, HeartbeatOne(s, x.clock).sent, false);
  }

  lemma HeartbeatKeeps(x: Endpoint, y: Endpoint)
    requires OwnInv(x, y) && |Packets(Perform(x, y, Heartbeat))| < U32
    ensures OwnInv(Perform(x, y, Heartbeat), y) && Grows(x, Perform(x, y, Heartbeat))
  {
    hide StreamInv, Flush, FlushMessages, SentOk;
    if Entry(x).Some? {
      HeartbeatOutcome(x, y);
      var beat := HeartbeatOne(x.session.value, x.clock);
      var x' := Advance(x, beat.stream, beat.sent, false);
      if IsActive(x.session.value, x.clock) {
        ActiveHeartbeatKeeps(x, y);
      } else {
        PendingHeartbeatKeeps(x, y);
      }
      MapKeeps(x', y, beat.keep);
    }
  }

  lemma RunTaskKeeps(x: Endpoint, y: Endpoint)
    requires OwnInv(x, y) && Enabled(x, y, RunTask) && |Packets(Perform(x, y, RunTask))| < U32
    ensures OwnInv(Perform(x, y, RunTask), y) && Grows(x, Perform(x, y, RunTask))
  {
    var s := x.session.value;
    FlushKeeps(s, x, y);
    FlushIsGenuine(s, x, y, Perform(x, y, RunTask));
    SentStaysOk(x, Perform(x, y, RunTask));
  }

  lemma AppWriteKeeps(x: Endpoint, y: Endpoint, data: seq<byte>)
    requires OwnInv(x, y) && Enabled(x, y, AppWrite(data))
    ensures OwnInv(Perform(x, y, AppWrite(data)), y) && Grows(x, Perform(x, y, AppWrite(data)))
  {
    hide OutInv, InboundInv, Frame;
    var s := x.session.value;
    var t := s.(out := Write(s.out, data));
    WriteKeeps(s.out, data, x.clock);
    AdvanceKeeps(x, y, t, {}, false);
    assert x.sent + {} == x.sent;
  }

  lemma AppReadKeeps(x: Endpoint, y: Endpoint, n: nat)
    requires OwnInv(x, y) && Enabled(x, y, AppRead(n))
    ensures OwnInv(Perform(x, y, AppRead(n)), y) && Grows(x, Perform(x, y, AppRead(n)))
  {
    hide OutboundInv, InbInv, Matches;
    var s := x.session.value;
    var t := s.(inb := Read(s.inb, n));
    ReadKeeps(s.inb, n, Packets(y));
    AdvanceKeeps(x, y, t, {}, false);
    assert x.sent + {} == x.sent;
  }

  lemma TickKeeps(x: Endpoint, y: Endpoint, d: nat)
    requires OwnInv(x, y)
    ensures OwnInv(Perform(x, y, Tick(d)), y) && Grows(x, Perform(x, y, Tick(d)))
  {
    hide InboundInv, Conserves, WellNumbered;
    SentStaysOk(x, Perform(x, y, Tick(d)));
  }

  lemma PerformKeeps(x: Endpoint, y: Endpoint, action: Action)
    requires OwnInv(x, y) && OwnInv(y, x) && x.address.key != y.address.key
    requires Enabled(x, y, action) && Bounded(Perform(x, y, action))
    ensures var x' := Perform(x, y, action); OwnInv(x', y) && OwnInv(y, x') && Grows(x, x')
  {
    hide OwnInv, Grows, Perform;
    match action {
      case Dial(env) => DialKeeps(x, y, env);
      case Deliver(m, env) => DeliverKeeps(x, y, m, env);
      case Heartbeat => HeartbeatKeeps(x, y);
      case RunTask => RunTaskKeeps(x, y);
      case AppWrite(data) => AppWriteKeeps(x, y, data);
      case AppRead(n) => AppReadKeeps(x, y, n);
      case Tick(d) => TickKeeps(x, y, d);
    }
    PeerGrows(y, x, Perform(x, y, action));
  }
}
