/**
 * What one call of the handler, of `dial` or of the heartbeat does, against any message at all:
 * when it answers, whom it believes, what it opens and what it leaves alone.
 */
module Reactions {
  import opened Bytes
  import opened Framing
  import opened Address
  import opened Wire
  import opened Protocol
  import opened Sender
  import opened Sessions

  /** The message is not from a session before the bound one, and this node knows its address. */
  predicate Heeded(s: Stream, m: Payload, env: Env) {
    env.addressKnown && (s.ctl.remoteId == 0 || s.ctl.remoteId <= m.streamId)
  }

  /** s with the id of m, if it had none. */
  function Bound(s: Stream, m: Payload): Stream {
    s.(ctl := s.ctl.(remoteId := if s.ctl.remoteId == 0 then m.streamId else s.ctl.remoteId))
  }

  /** The handler leaves s alone and says nothing. */
  predicate Ignored(s: Stream, m: Payload, h: Handled) {
    h.entry == Some(Bound(s, m)) && h.sent == {} && !h.created
  }

  // ---- data ----

  /** Data that the bound key has not signed changes nothing, whatever else it says. */
  lemma UnsignedDataIgnored(s: Stream, node: Node, m: Payload, env: Env)
    requires KindOf(m.data) == KData && s.ctl.remoteKey != Some(m.signer)
    ensures var h := Handle(Some(s), node.local, node.remote, node.key, m, env);
            Ignored(s, m, h) && (s.ctl.remoteId != 0 ==> h.entry == Some(s))
  {
    hide KindOf, RecvMessage;
  }

  /** A stream takes data in Active from its session or a later one, in Listen only from its own. */
  predicate TakesFrom(s: Stream, m: Payload) {
    match s.ctl.status
    case Active => s.ctl.remoteId == 0 || s.ctl.remoteId <= m.streamId
    case Listening => s.ctl.remoteId == 0 || s.ctl.remoteId == m.streamId
    case _ => false
  }

  /** Signed data is received, and activates a listener, exactly when the stream takes it. */
  lemma SignedDataTaken(s: Stream, node: Node, m: Payload, env: Env)
    requires KindOf(m.data) == KData && s.ctl.remoteKey == Some(m.signer) && env.addressKnown
    ensures var h := Handle(Some(s), node.local, node.remote, node.key, m, env);
            if TakesFrom(s, m) then
              var t := Bound(s, m).(ctl := Bound(s, m).ctl.(status := Active));
              h == Handled(Some(RecvMessage(t, env.now, m.receivedSeq, m.msgSeq, m.data)), {}, false, Pending)
            else Ignored(s, m, h)
  {
    hide KindOf, RecvMessage;
  }

  /** A STATUS stores its acknowledgement in an Active stream and is ignored by any other. */
  lemma StatusTaken(s: Stream, node: Node, m: Payload, env: Env)
    requires KindOf(m.data) == KStatus
    ensures var h := Handle(Some(s), node.local, node.remote, node.key, m, env);
            if s.ctl.status == Active && Heeded(s, m, env) then
              && h.entry.Some? && h.sent == {} && !h.created
              && var o, t := s.out, h.entry.value;
              && t.ctl == Bound(s, m).ctl && t.inb == s.inb && t.out.delivered == m.receivedSeq
              && (forall k :: k in t.out.queue <==> k in o.queue && k > m.receivedSeq)
              && (forall k :: k in t.out.queue ==> t.out.queue[k] == o.queue[k])
              && t.out == o.(delivered := t.out.delivered, queue := t.out.queue)
            else Ignored(s, m, h)
  {
    hide KindOf;
  }

  /** A PING is ignored in every state. */
  lemma PingIgnored(s: Stream, node: Node, m: Payload, env: Env)
    requires KindOf(m.data) == KPing
    ensures Ignored(s, m, Handle(Some(s), node.local, node.remote, node.key, m, env))
  {
    hide KindOf;
  }

  /** Without a stream everything but a DIAL is ignored. */
  lemma OnlyDialOpens(node: Node, m: Payload, env: Env)
    requires KindOf(m.data) != KDial || !env.addressKnown
    ensures var h := Handle(None, node.local, node.remote, node.key, m, env);
            h.entry == None && h.sent == {} && !h.created
  {
    hide KindOf;
  }

  // ---- opening a stream ----

  /** A stream as it is opened: nothing sent or received, named and refreshed by the clocks. */
  predicate IsNew(s: Stream, node: Node, env: Env) {
    && s.ctl.myId == env.wall && s.ctl.localAddress == node.local && s.ctl.remoteAddress == node.remote
    && s.ctl.myKey == node.key
    && s.inb == Inbound([], [], 0, map[], env.now, [], [], 0)
    && s.out == Outbound([], map[], 0, 0, env.now, [], [], map[])
  }

  /** `dial` is refused exactly while the peer's stream listens or its target is not found. */
  lemma DialOpens(h: Held, node: Node, env: Env)
    ensures var t := OnEntry(h, node, OnDial(env));
            if env.reachable && !(h.entry.Some? && h.entry.value.ctl.status == Listening) then
              && t.entry.Some? && t.generation == h.generation + 1 && IsNew(t.entry.value, node, env)
              && t.entry.value.ctl.status == Dialing
              && t.entry.value.ctl.remoteId == 0 && t.entry.value.ctl.remoteKey == None
            else t == h
  {
  }

  // ---- hearing DIAL ----

  /** A DIAL opens a new stream: there is none, or an Active one from an earlier session. */
  predicate IsOpening(entry: Option<Stream>, m: Payload, env: Env) {
    && env.addressKnown && env.reachable
    && (entry.Some? ==>
          entry.value.ctl.status == Active && 0 < entry.value.ctl.remoteId < m.streamId)
  }

  /** A DIAL makes this end listen. */
  ghost predicate Listens(entry: Option<Stream>, node: Node, m: Payload, env: Env) {
    || IsOpening(entry, m, env)
    || (entry.Some? && Heeded(entry.value, m, env)
        && (entry.value.ctl.status == Listening
            || (entry.value.ctl.status == Dialing && Before(node.local.key, node.remote.key))))
  }

  /** Both ends dialled and this one has the larger key. */
  ghost predicate DialsAgain(entry: Option<Stream>, node: Node, m: Payload, env: Env) {
    && entry.Some? && Heeded(entry.value, m, env) && entry.value.ctl.status == Dialing
    && Before(node.remote.key, node.local.key)
  }

  /**
   * A DIAL is answered with LISTEN exactly when this end listens afterwards, bound to the id of
   * the DIAL; with DIAL exactly when this end keeps the dialer's role; and otherwise not at all.
   */
  lemma HearsDial(entry: Option<Stream>, node: Node, m: Payload, env: Env)
    requires KindOf(m.data) == KDial
    ensures var h := Handle(entry, node.local, node.remote, node.key, m, env);
            && (h.created <==> IsOpening(entry, m, env))
            && (h.created ==> IsNew(h.entry.value, node, env))
            && (Listens(entry, node, m, env) ==>
                  && h.entry.Some? && h.entry.value.ctl.status == Listening
                  && h.entry.value.ctl.remoteId == m.streamId && h.sent == {ListenMessage(h.entry.value)})
            && (DialsAgain(entry, node, m, env) ==>
                  && h.entry.Some? && h.entry.value.ctl.status == Dialing && h.entry.value.inb.lastHeard == env.now
                  && h.sent == {DialMessage(h.entry.value)})
            && (!Listens(entry, node, m, env) && !DialsAgain(entry, node, m, env) ==> h.sent == {})
  {
    hide KindOf, Compare, Before, ToMultiaddr;
    CompareIsByKey(node.remote, node.local);
    CompareOpposite(node.remote, node.local);
  }

  /** What a DIAL leaves of a stream it does not replace: only the handshake's fields may move. */
  lemma DialKeepsStream(s: Stream, node: Node, m: Payload, env: Env)
    requires KindOf(m.data) == KDial && !IsOpening(Some(s), m, env)
    ensures var h := Handle(Some(s), node.local, node.remote, node.key, m, env);
            && h.entry.Some? && h.entry.value.out == s.out
            && h.entry.value.inb == s.inb.(lastHeard := h.entry.value.inb.lastHeard)
            && (s.ctl.status == Dialing && Heeded(s, m, env) && node.local.key != node.remote.key ==>
                  h.entry.value.inb.lastHeard == env.now)
            && (s.ctl.status != Dialing || !Heeded(s, m, env) ==> h.entry.value.inb.lastHeard == s.inb.lastHeard)
            && (s.ctl.status == Active || s.ctl.status == Expired || !Heeded(s, m, env) ==> Ignored(s, m, h))
  {
    hide KindOf, Compare, ToMultiaddr;
    CompareOpposite(node.remote, node.local);
  }

  // ---- hearing LISTEN ----

  /** A LISTEN activates a dialer, refreshed and bound to its id, which then sends what waits. */
  lemma HearsListen(s: Stream, node: Node, m: Payload, env: Env)
    requires KindOf(m.data) == KListen
    ensures var h := Handle(Some(s), node.local, node.remote, node.key, m, env);
            if s.ctl.status == Dialing && Heeded(s, m, env) then
              && h.entry.Some? && !h.created
              && var t := h.entry.value;
              && t.ctl.status == Active && t.ctl.remoteId == m.streamId && t.inb == s.inb.(lastHeard := env.now)
              && t.out.stream == [] && t.out.packets == s.out.packets + Chunks(s.out.stream)
              && h.sent == FlushMessages(t.(out := s.out), env.now)
            else Ignored(s, m, h)
  {
    hide KindOf, Generate, Outgoing;
    GeneratePackets(s.out);
  }

  // ---- whom a stream believes ----

  /** The handshake's greetings, which carry the sender's key. */
  predicate IsGreeting(m: Payload) { KindOf(m.data) == KDial || KindOf(m.data) == KListen }

  /**
   * Only a dialer learns a key, and only from a greeting whose key decodes; a new stream takes the
   * key of the DIAL that opened it. Once an end listens or is Active its key never changes.
   */
  lemma KeyIsLearned(s: Stream, node: Node, m: Payload, env: Env)
    ensures var h := Handle(Some(s), node.local, node.remote, node.key, m, env);
            && h.entry.Some?
            && h.entry.value.ctl.remoteKey
               == (if h.created then (if env.keyDecodes then Some(KeyBytes(m.data)) else None)
                   else if s.ctl.status == Dialing && Heeded(s, m, env) && IsGreeting(m) && env.keyDecodes then
                     Some(KeyBytes(m.data))
                   else s.ctl.remoteKey)
  {
    hide KindOf, KeyBytes, RecvMessage, Generate, Sent, Outgoing, Compare, ToMultiaddr;
    RecvControl(WithStatus(Refresh(s, m), Active), env.now, m.receivedSeq, m.msgSeq, m.data);
  }

  // ---- what the transport is told ----

  /**
   * A connection is announced exactly when a dialling or new stream starts to listen; the listener
   * ends exactly when it does not know its address or both ends have the same key.
   */
  lemma Announces(entry: Option<Stream>, node: Node, m: Payload, env: Env)
    ensures var h := Handle(entry, node.local, node.remote, node.key, m, env);
            && (h.poll == Incoming <==>
                  && h.entry.Some? && h.entry.value.ctl.status == Listening
                  && (h.created || (entry.Some? && entry.value.ctl.status == Dialing)))
            && (h.poll == Ended <==>
                  || !env.addressKnown
                  || (entry.Some? && entry.value.ctl.status == Dialing && Heeded(entry.value, m, env)
                      && KindOf(m.data) == KDial && node.local.key == node.remote.key))
  {
    hide KindOf, RecvMessage, Generate, Sent, Outgoing, Compare, ToMultiaddr;
    CompareOpposite(node.remote, node.local);
    if entry.Some? {
      RecvControl(WithStatus(Refresh(entry.value, m), Active), env.now, m.receivedSeq, m.msgSeq, m.data);
    }
  }

  // ---- acknowledgements ----

  /** A greeting carries no numbers; everything else acknowledges what its sender has received. */
  predicate Acknowledges(m: Payload, received: nat) {
    m.receivedSeq == received || (m.receivedSeq == 0 && m.msgSeq == 0 && IsGreeting(m))
  }

  lemma GreetingsCarryNoNumbers(s: Stream)
    ensures Acknowledges(DialMessage(s), s.inb.received) && Acknowledges(ListenMessage(s), s.inb.received)
  {
    KindOfControl(s.ctl.myKey);
  }

  lemma AnswersAcknowledge(entry: Option<Stream>, node: Node, m: Payload, env: Env)
    ensures var h := Handle(entry, node.local, node.remote, node.key, m, env);
            forall r :: r in h.sent ==> h.entry.Some? && Acknowledges(r, h.entry.value.inb.received)
  {
    hide KindOf, KeyBytes, RecvMessage, FlushMessages, Generate, Sent, Compare, Message, Acknowledges, ToMultiaddr;
    var h := Handle(entry, node.local, node.remote, node.key, m, env);
    if h.entry.Some? { GreetingsCarryNoNumbers(h.entry.value); }
    if entry.Some? {
      var s := Refresh(entry.value, m);
      var t := WithStatus(WithRemoteId(HeardAt(LearnKey(s, m, env), env.now), m.streamId), Active);
      FlushAcknowledgesAll(t, env.now);
    }
  }

  lemma FlushAcknowledgesAll(s: Stream, now: int)
    ensures forall m :: m in FlushMessages(s, now) ==> Acknowledges(m, s.inb.received)
  {
    FlushAcknowledges(s, now);
  }

  // ---- the heartbeat ----

  /**
   * The heartbeat removes exactly the streams not refreshed for 20 seconds, untouched and without
   * a word; greets again for those still in the handshake, changing nothing; and for an Active one
   * cuts what waits, leaves the inbound half alone and acknowledges what was received.
   */
  lemma BeatExactly(s: Stream, now: int)
    requires s.ctl.status != Expired
    ensures var beat := HeartbeatOne(s, now);
            && (beat.keep <==> now - s.inb.lastHeard < 20_000_000_000)
            && beat.stream.inb == s.inb && beat.stream.ctl == s.ctl
            && (!beat.keep ==> beat.stream == s && beat.sent == {})
            && (beat.keep && s.ctl.status == Dialing ==> beat.stream == s && beat.sent == {DialMessage(s)})
            && (beat.keep && s.ctl.status == Listening ==> beat.stream == s && beat.sent == {ListenMessage(s)})
            && (beat.keep && s.ctl.status == Active ==>
                  && beat.stream.out.stream == [] && beat.sent == StatusIfStale(s, now) + FlushMessages(s, now)
                  && beat.stream.out.packets == s.out.packets + Chunks(s.out.stream))
            && (forall m :: m in beat.sent ==> Acknowledges(m, s.inb.received))
            && (forall m :: m in StatusIfStale(s, now) ==>
                  m.data == STATUS && m.receivedSeq == s.inb.received && m.msgSeq == s.out.lastSeq)
  {
    hide Generate, FlushMessages, Chunks, Acknowledges;
    GeneratePackets(s.out);
    GreetingsCarryNoNumbers(s);
    FlushAcknowledgesAll(s, now);
    assert forall m :: m in StatusIfStale(s, now) ==> Acknowledges(m, s.inb.received) by { StatusAcknowledges(s, now); }
  }

  lemma StatusAcknowledges(s: Stream, now: int)
    ensures forall m :: m in StatusIfStale(s, now) ==> Acknowledges(m, s.inb.received)
  {
  }

  lemma BeatAcknowledges(s: Stream, now: int)
    ensures var beat := HeartbeatOne(s, now);
            beat.stream.inb.received == s.inb.received
            && forall m :: m in beat.sent ==> Acknowledges(m, s.inb.received)
  {
    hide FlushMessages, Generate, Sent, Acknowledges;
    if s.ctl.status != Expired { BeatExactly(s, now); }
  }

  /** Silence is what expires a stream, after 20 seconds, and only an Active one reads as Expired. */
  lemma SilenceExpires(s: Stream, now: int)
    ensures IsExpired(s, now) <==> s.ctl.status != Expired && now - s.inb.lastHeard >= 20_000_000_000
    ensures IsActive(s, now) <==> s.ctl.status == Active && now - s.inb.lastHeard < 20_000_000_000
    ensures GetStatus(s, now) == Expired <==> s.ctl.status == Expired || (s.ctl.status == Active && IsExpired(s, now))
    ensures GetStatus(s, now) != Expired ==> GetStatus(s, now) == s.ctl.status
  {
  }
}
