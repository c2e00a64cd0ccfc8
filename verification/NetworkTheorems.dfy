/** What holds in every reachable state of two endpoints over an unreliable network. */
module NetworkTheorems {
  import opened Bytes
  import opened Framing
  import opened Address
  import opened Wire
  import opened Protocol
  import opened Sender
  import opened Receiver
  import opened Network
  import opened NetworkInvariant
  import opened Sessions
  import opened Reactions

  ghost predicate Reachable(s: System) {
    Bounded(s.a) && Bounded(s.b) && exists run :: IsRun(run) && run != [] && run[|run| - 1] == s
  }

  // ---- histories only grow, whatever the state ----

  lemma FlushGrows(s: Stream, now: int)
    ensures HistoryGrows(s, Flush(s, now))
  {
    GeneratePackets(s.out);
    assert Chunks([]) == [];
  }

  predicate HistoryGrows(s: Stream, t: Stream) {
    s.out.packets <= t.out.packets && s.out.writes == t.out.writes && Plan(s.out) == Plan(t.out)
  }

  lemma EntryHistory(s: Stream, signed: bool, local: Address, remote: Address, key: PublicKey, m: Payload, env: Env)
    ensures var h := HandleEntry(s, signed, local, remote, key, m, env);
            h.entry.Some? && (!h.created ==> HistoryGrows(s, h.entry.value))
  {
    hide Flush, FlushMessages, Chunks, ToMultiaddr, Compare, Deframe, Flatten;
    if s.ctl.status == Dialing && KindOf(m.data) == KListen {
      FlushGrows(WithStatus(WithRemoteId(HeardAt(LearnKey(s, m, env), env.now), m.streamId), Active), env.now);
    }
  }

  /** What one step may do to the histories of the end that takes it. */
  predicate StepHistory(x: Endpoint, x': Endpoint) {
    && Packets(x) <= Packets(x') && Extends(Planned(x), Planned(x'))
    && (Writes(x') == Writes(x) || (Writes(x) < Writes(x') && |Writes(x')| == |Writes(x)| + 1))
  }

  lemma DeliverHistory(x: Endpoint, y: Endpoint, m: Payload, env: Env)
    requires Enabled(x, y, Deliver(m, env))
    ensures StepHistory(x, Perform(x, y, Deliver(m, env)))
  {
    hide HandleEntry, Flush;
    if x.session.Some? && x.mapped {
      var s := Refresh(x.session.value, m);
      MappedOutcome(x, y, m, env);
      EntryHistory(s, IsSigned(x.session, m), x.address, Canonical(y.address), x.key, m, env);
    } else if x.session.Some? {
      UnmappedOutcome(x, y, m, env);
    }
  }

  lemma WritePlans(o: Outbound, data: seq<byte>)
    ensures Extends(Plan(o), Plan(Write(o, data)))
  {
    hide Chunks, Frame;
    ChunksExtend(o.stream, Frame(data));
    JoinExtends(o.packets, Chunks(o.stream), Chunks(o.stream + Frame(data)));
  }

  lemma HeartbeatHistory(x: Endpoint, y: Endpoint)
    ensures StepHistory(x, Perform(x, y, Heartbeat))
  {
    hide Extends, Plan, Flush, FlushMessages, StatusIfStale;
    ExtendsSelf(Planned(x));
    if x.session.Some? { FlushGrows(x.session.value, x.clock); }
  }

  lemma PerformHistory(x: Endpoint, y: Endpoint, action: Action)
    requires Enabled(x, y, action)
    ensures StepHistory(x, Perform(x, y, action))
  {
    hide Extends, Plan, Flush, FlushMessages, HeartbeatOne, Handle, Frame;
    ExtendsSelf(Planned(x));
    match action
    case Deliver(m, env) => DeliverHistory(x, y, m, env);
    case Heartbeat => HeartbeatHistory(x, y);
    case AppWrite(data) => WritePlans(x.session.value.out, data);
    case RunTask => FlushGrows(x.session.value, x.clock);
    case Dial(env) => NothingPlanned(x, Perform(x, y, action));
    case _ =>
  }

  lemma NothingPlanned(x: Endpoint, x': Endpoint)
    requires x.session == None
    ensures Extends(Planned(x), Planned(x'))
  {
  }

  lemma StepKeeps(s: System, t: System)
    requires Inv(s) && Step(s, t) && Bounded(t.a) && Bounded(t.b)
    ensures Inv(t) && Bounded(s.a) && Bounded(s.b)
    ensures Grows(s.a, t.a) && Grows(s.b, t.b) && StepHistory(s.a, t.a) && StepHistory(s.b, t.b)
    ensures s.a == t.a || s.b == t.b
  {
    hide OwnInv, Perform, Enabled, Grows;
    if act :| Enabled(s.a, s.b, act) && t == s.(a := Perform(s.a, s.b, act)) {
      PerformKeeps(s.a, s.b, act);
      PerformHistory(s.a, s.b, act);
      GrowsSelf(s.b);
    } else {
      var act :| Enabled(s.b, s.a, act) && t == s.(b := Perform(s.b, s.a, act));
      PerformKeeps(s.b, s.a, act);
      PerformHistory(s.b, s.a, act);
      GrowsSelf(s.a);
    }
    GrowsAddress(s.a, t.a);
    GrowsAddress(s.b, t.b);
  }

  lemma GrowsSelf(x: Endpoint)
    ensures Grows(x, x)
  {
  }

  lemma GrowsAddress(x: Endpoint, x': Endpoint)
    requires Grows(x, x')
    ensures x.address == x'.address
  {
  }

  lemma StepBounds(s: System, t: System)
    requires Step(s, t) && Bounded(t.a) && Bounded(t.b)
    ensures Bounded(s.a) && Bounded(s.b)
  {
    hide Perform, Enabled;
    if act :| Enabled(s.a, s.b, act) && t == s.(a := Perform(s.a, s.b, act)) {
      PerformHistory(s.a, s.b, act);
    } else {
      var act :| Enabled(s.b, s.a, act) && t == s.(b := Perform(s.b, s.a, act));
      PerformHistory(s.b, s.a, act);
    }
  }

  lemma {:induction false} RunInv(run: seq<System>)
    requires IsRun(run) && Bounded(run[|run| - 1].a) && Bounded(run[|run| - 1].b)
    ensures Inv(run[|run| - 1])
    decreases |run|
  {
    hide Inv, Step, Bounded;
    var n := |run| - 1;
    if n == 0 {
      InitInv(run[0]);
    } else {
      var before := run[..n];
      assert before[|before| - 1] == run[n - 1];
      assert Step(run[n - 1], run[n - 1 + 1]);
      forall i | 0 <= i < |before| - 1 ensures Step(before[i], before[i + 1]) {
        assert Step(run[i], run[i + 1]);
      }
      StepBounds(run[n - 1], run[n]);
      RunInv(before);
      StepKeeps(run[n - 1], run[n]);
    }
  }

  lemma InitInv(s: System)
    requires Init(s)
    ensures Inv(s)
  {
  }

  lemma ReachableInv(s: System)
    requires Reachable(s)
    ensures Inv(s)
  {
    hide Inv;
    var run :| IsRun(run) && run[|run| - 1] == s;
    RunInv(run);
  }

  // ---- the stream is a FIFO byte queue ----

  /** What x has framed and y has not accepted: packets in flight, lost, parked or not yet cut. */
  function Pipe(x: Endpoint, y: Endpoint): seq<byte> {
    var all := Framed(Writes(x));
    if |Accepted(y)| <= |all| then all[|Accepted(y)|..] else []
  }

  /** y has accepted exactly the first packets of x, a prefix of what x has framed. */
  predicate Delivers(x: Endpoint, y: Endpoint) {
    && Received(y) <= |Packets(x)|
    && Accepted(y) == Flatten(Packets(x)[..Received(y)])
    && Accepted(y) <= Framed(Writes(x))
  }

  lemma TakenIsFramed(o: Outbound, n: nat)
    requires Conserves(o) && n <= |o.packets|
    ensures Flatten(o.packets[..n]) <= Framed(o.writes)
  {
    FlattenSplit(o.packets, n);
  }

  lemma DeliversInv(x: Endpoint, y: Endpoint)
    requires OwnInv(x, y) && OwnInv(y, x)
    ensures Delivers(x, y)
  {
    hide ControlInv, SentOk, InbInv, Parked, WellNumbered, WellTimed, Holds, Conserves, Framed, Flatten;
    EmptyLists();
    if y.session.Some? {
      assert InOrder(y.session.value.inb, Packets(x));
      if x.session.Some? {
        TakenIsFramed(x.session.value.out, Received(y));
      }
    }
  }

  lemma EmptyLists()
    ensures Flatten([]) == [] && Framed([]) == []
  {
  }

  /**
   * In every reachable state, in both directions at once: the bytes ever appended to the inbound
   * buffer are the peer's packets 1 .. received, in order, once each; a prefix of what it framed.
   */
  lemma FifoDelivery(s: System)
    requires Reachable(s)
    ensures Delivers(s.a, s.b) && Delivers(s.b, s.a)
  {
    ReachableInv(s);
    DeliversInv(s.a, s.b);
    DeliversInv(s.b, s.a);
  }

  /** A step pushes bytes at the back of the pipe, or takes bytes from its front, or neither. */
  ghost predicate FifoStep(x: Endpoint, y: Endpoint, x': Endpoint, y': Endpoint) {
    exists pushed: seq<byte>, popped: seq<byte> ::
      && Framed(Writes(x')) == Framed(Writes(x)) + pushed
      && Accepted(y') == Accepted(y) + popped
      && Pipe(x, y) + pushed == popped + Pipe(x', y')
      && (pushed == [] || popped == [])
  }

  lemma AcceptedGrows(x: Endpoint, y: Endpoint, x': Endpoint, y': Endpoint)
    requires Delivers(x, y) && Delivers(x', y') && Packets(x) <= Packets(x') && Received(y) <= Received(y')
    ensures Accepted(y) <= Accepted(y')
  {
    var more := Packets(x')[..Received(y')];
    assert more[..Received(y)] == Packets(x)[..Received(y)];
    FlattenSplit(more, Received(y));
  }

  lemma QueueArithmetic(all: seq<byte>, all': seq<byte>, taken: seq<byte>, taken': seq<byte>)
    requires all <= all' && taken <= taken' && taken <= all && taken' <= all'
    ensures all[|taken|..] + all'[|all|..] == taken'[|taken|..] + all'[|taken'|..]
  {
    assert all' == all + all'[|all|..] && all == taken + all[|taken|..];
    assert all' == taken' + all'[|taken'|..] && taken' == taken + taken'[|taken|..];
  }

  lemma WritesGrow(x: Endpoint, x': Endpoint)
    requires StepHistory(x, x')
    ensures Framed(Writes(x)) <= Framed(Writes(x')) && Packets(x) <= Packets(x')
  {
    hide Extends, Planned, Frame;
    FramedAppend(Writes(x), Writes(x')[|Writes(x)|..]);
    assert Writes(x) + Writes(x')[|Writes(x)|..] == Writes(x');
  }

  lemma FifoStepHolds(x: Endpoint, y: Endpoint, x': Endpoint, y': Endpoint)
    requires Delivers(x, y) && Delivers(x', y') && StepHistory(x, x') && Received(y) <= Received(y')
    requires x == x' || y == y'
    ensures FifoStep(x, y, x', y')
  {
    hide StepHistory, Framed, Flatten;
    WritesGrow(x, x');
    AcceptedGrows(x, y, x', y');
    var all, all' := Framed(Writes(x)), Framed(Writes(x'));
    var pushed, popped := all'[|all|..], Accepted(y')[|Accepted(y)|..];
    QueueArithmetic(all, all', Accepted(y), Accepted(y'));
    assert all' == all + pushed && Accepted(y') == Accepted(y) + popped;
  }

  /** Refinement: every step of the system is a step of two FIFO byte queues, one each way. */
  lemma RefinesFifo(s: System, t: System)
    requires Reachable(s) && Step(s, t) && Bounded(t.a) && Bounded(t.b)
    ensures FifoStep(s.a, s.b, t.a, t.b) && FifoStep(s.b, s.a, t.b, t.a)
  {
    hide Step, OwnInv, Delivers, FifoStep, StepHistory;
    ReachableInv(s);
    StepKeeps(s, t);
    DeliversInv(s.a, s.b);
    DeliversInv(s.b, s.a);
    DeliversInv(t.a, t.b);
    DeliversInv(t.b, t.a);
    FifoStepHolds(s.a, s.b, t.a, t.b);
    FifoStepHolds(s.b, s.a, t.b, t.a);
  }

  // ---- nothing is forgotten before it arrives ----

  /** Every packet y still lacks is queued at x unchanged; no acknowledgement runs ahead of y. */
  predicate NothingForgotten(x: Endpoint, y: Endpoint) {
    && Received(y) <= |Packets(x)|
    && (forall m :: m in y.sent ==> m.receivedSeq <= Received(y))
    && (x.session.Some? ==>
          var o := x.session.value.out;
          && o.lastSeq == |o.packets| && o.delivered <= Received(y)
          && (forall k :: Received(y) < k <= o.lastSeq ==>
                k in o.queue && o.queue[k].data == o.packets[k - 1]))
  }

  lemma NothingForgottenInv(x: Endpoint, y: Endpoint)
    requires OwnInv(x, y) && OwnInv(y, x)
    ensures NothingForgotten(x, y)
  {
    DeliversInv(x, y);
    forall m | m in y.sent ensures m.receivedSeq <= Received(y) {
      assert Genuine(y, m);
    }
  }

  /**
   * In every reachable state, although stored acknowledgements are overwritten by older ones:
   * stored and in-flight acknowledgements are at most what the peer has received, which is at
   * most what was sent, and every packet in between is still queued with its original bytes.
   */
  lemma NoPacketForgotten(s: System)
    requires Reachable(s)
    ensures NothingForgotten(s.a, s.b) && NothingForgotten(s.b, s.a)
  {
    ReachableInv(s);
    NothingForgottenInv(s.a, s.b);
    NothingForgottenInv(s.b, s.a);
  }

  /**
   * The application's calls fail exactly on a stream that has been silent for 20 seconds; a read
   * then takes from the front of what is readable, and neither call does anything else.
   */
  lemma ApplicationCalls(x: Endpoint, y: Endpoint, data: seq<byte>, n: nat)
    requires x.session.Some? && !Has(x, Expired)
    ensures var s, w, r := x.session.value, Perform(x, y, AppWrite(data)), Perform(x, y, AppRead(n));
            if x.clock - s.inb.lastHeard >= 20_000_000_000 then w == x && r == x
            else
              && Writes(w) == Writes(x) + [data] && w.session.value.out.stream == s.out.stream + Frame(data)
              && w.session.value.inb == s.inb && w.session.value.ctl == s.ctl && w.sent == x.sent
              && w.tasks == x.tasks + (if s.ctl.status == Active then 1 else 0)
              && r == x.(session := r.session) && r.session.Some?
              && r.session.value == s.(inb := r.session.value.inb)
              && var i := r.session.value.inb;
              && i == s.inb.(stream := i.stream, read := i.read)
              && i.read + i.stream == s.inb.read + s.inb.stream
              && |i.read| - |s.inb.read| == if n <= |s.inb.stream| then n else |s.inb.stream|
  {
    hide Frame;
    var i := x.session.value.inb;
    if i.stream != [] {
      var taken := ReadResult(i, n).value;
      assert taken + i.stream[|taken|..] == i.stream;
      Reassociate(i.read, taken, i.stream[|taken|..]);
    }
  }

  /** A write on an active stream starts a task that cuts all that waits and puts it on the network. */
  lemma WriteIsSent(x: Endpoint, y: Endpoint, data: seq<byte>)
    requires x.session.Some? && IsActive(x.session.value, x.clock)
    ensures var w := Perform(x, y, AppWrite(data));
            && Enabled(w, y, RunTask)
            && var t := Perform(w, y, RunTask);
            && t.tasks == x.tasks && t.session.value.out.stream == []
            && Packets(t) == Packets(x) + Chunks(x.session.value.out.stream + Frame(data))
            && FlushMessages(w.session.value, w.clock) <= t.sent
  {
    hide Frame, Chunks, FlushMessages;
    GeneratePackets(Write(x.session.value.out, data));
  }

  /** The messages a step puts on the network. */
  function News(x: Endpoint, x': Endpoint): set<Payload> { x'.sent - x.sent }

  /**
   * Every message acknowledges exactly what its sender has accepted when it is sent, except the
   * greetings, which carry no numbers.
   */
  lemma NewsAcknowledges(x: Endpoint, y: Endpoint, action: Action)
    requires Enabled(x, y, action)
    ensures var x' := Perform(x, y, action);
            forall m :: m in News(x, x') ==> Acknowledges(m, Received(x'))
  {
    hide Handle, HeartbeatOne, FlushMessages, Acknowledges, Generate, Sent;
    match action
    case Dial(env) => GreetingsCarryNoNumbers(DialEntry(x.address, Canonical(y.address), x.key, env));
    case Deliver(m, env) => AnswersAcknowledge(Entry(x), Node(x.address, Canonical(y.address), x.key), m, env);
    case Heartbeat =>
      if x.session.Some? { BeatAcknowledges(x.session.value, x.clock); }
    case RunTask => FlushAcknowledgesAll(x.session.value, x.clock);
    case _ =>
  }

  /** The receiver's reorder map and the sender's packets, queue and send times. */
  predicate StreamsKept(x: Endpoint, y: Endpoint) {
    && (y.session.Some? ==>
          Parked(y.session.value.inb, Packets(x)) && |y.session.value.inb.queue| <= 18)
    && (x.session.Some? ==>
          var o := x.session.value.out;
          && Flatten(o.packets) + o.stream == Framed(o.writes)
          && (forall i :: 0 <= i < |o.packets| ==> PacketSized(o.packets[i]))
          && (forall k :: k in o.queue ==> |o.queue[k].data| <= NETWORK_LIMIT)
          && (forall k :: k in o.sends ==> Spaced(o.sends[k])))
  }

  lemma StreamsKeptInv(x: Endpoint, y: Endpoint)
    requires OwnInv(x, y) && OwnInv(y, x)
    ensures StreamsKept(x, y)
  {
    hide ControlInv, SentOk, InbInv, Holds, Spaced, Framed, Flatten;
    if y.session.Some? {
      ParkedBound(y.session.value.inb, Packets(x));
    }
  }

  /**
   * In every reachable state, for both ends: parked packets are at most 18, inside the window
   * and genuine; framed bytes are conserved; packets have 1 to 32623 bytes, so the size panic
   * is unreachable; two sends of one packet are at least five seconds apart.
   */
  lemma ReachableStreams(s: System)
    requires Reachable(s)
    ensures StreamsKept(s.a, s.b) && StreamsKept(s.b, s.a)
  {
    hide OwnInv, StreamsKept;
    ReachableInv(s);
    StreamsKeptInv(s.a, s.b);
    StreamsKeptInv(s.b, s.a);
  }

  /**
   * What a numbered message can be: a STATUS, or the packet of its number, so that all copies of
   * a packet ever sent carry the same 1 to 32623 bytes.
   */
  predicate SameCopies(x: Endpoint) {
    forall m :: m in x.sent && m.msgSeq > 0 ==>
      m.data == STATUS || (m.msgSeq <= |Packets(x)| && m.data == Packets(x)[m.msgSeq - 1] && PacketSized(m.data))
  }

  lemma SameCopiesInv(x: Endpoint, y: Endpoint)
    requires OwnInv(x, y)
    ensures SameCopies(x)
  {
    hide Conserves, WellTimed, InboundInv, ControlInv;
    forall m | m in x.sent && m.msgSeq > 0 && m.data != STATUS
      ensures m.msgSeq <= |Packets(x)| && m.data == Packets(x)[m.msgSeq - 1] && PacketSized(m.data)
    {
      assert Genuine(x, m);
    }
  }

  /** Every copy of a packet ever sent, by either end, carries the packet's original bytes. */
  lemma CopiesAgree(s: System)
    requires Reachable(s)
    ensures SameCopies(s.a) && SameCopies(s.b)
  {
    hide OwnInv, SameCopies;
    ReachableInv(s);
    SameCopiesInv(s.a, s.b);
    SameCopiesInv(s.b, s.a);
  }

  // ---- the handshake ----

  lemma NotBothListen(x: Endpoint, y: Endpoint)
    requires OwnInv(x, y) && OwnInv(y, x)
    ensures !(x.listened && y.listened)
  {
    if x.listened && y.listened {
      assert x.dialed && y.dialed;
      CompareOpposite(x.address, y.address);
      assert false;
    }
  }

  /** A LISTEN message of e, as opposed to a data packet that happens to look like one. */
  predicate SentListen(e: Endpoint) { exists m :: m in e.sent && m.data == LISTEN + e.key && m.msgSeq == 0 }

  lemma ListenMeansListened(x: Endpoint, y: Endpoint)
    requires OwnInv(x, y) && SentListen(x)
    ensures x.listened
  {
    var m :| m in x.sent && m.data == LISTEN + x.key && m.msgSeq == 0;
    assert Genuine(x, m);
    assert m.data[0] != DIAL[0] && m.data[0] != STATUS[0];
  }

  /**
   * In every interleaving of dials, deliveries and heartbeats, at most one of the two ends ever
   * enters Listen, and at most one ever sends LISTEN; two Active ends have opposite roles.
   */
  lemma AtMostOneListener(s: System)
    requires Reachable(s)
    ensures !(s.a.listened && s.b.listened) && !(SentListen(s.a) && SentListen(s.b))
    ensures Has(s.a, Listening) ==> s.a.listened
    ensures Has(s.b, Listening) ==> s.b.listened
    ensures Has(s.a, Active) && Has(s.b, Active) ==> s.a.listened != s.b.listened
  {
    ReachableInv(s);
    NotBothListen(s.a, s.b);
    if SentListen(s.a) { ListenMeansListened(s.a, s.b); }
    if SentListen(s.b) { ListenMeansListened(s.b, s.a); }
  }

  /** Simultaneous dials: once one end listens, it is the one whose key comes first in the dictionary. */
  lemma TieBreak(s: System)
    requires Reachable(s) && s.a.dialed && s.b.dialed && (s.a.listened || s.b.listened)
    ensures s.a.listened <==> Before(s.a.address.key, s.b.address.key)
    ensures s.b.listened <==> Before(s.b.address.key, s.a.address.key)
  {
    hide Before;
    ReachableInv(s);
    NotBothListen(s.a, s.b);
    CompareOpposite(s.a.address, s.b.address);
    CompareIsByKey(s.a.address, s.b.address);
  }

  /** Everything e sends that is not DIAL or LISTEN: data packets and STATUS. */
  predicate IsData(e: Endpoint, m: Payload) {
    m.msgSeq > 0 || (m.data != DIAL + e.key && m.data != LISTEN + e.key)
  }

  /**
   * Agreement and causality, from x's side. An Active end has the peer's id and key. A dialer is
   * Active only if the peer has listened; a listener is Active, and has sent anything but DIAL
   * and LISTEN, only after the peer became Active and sent it signed data with its id.
   */
  predicate Agrees(x: Endpoint, y: Endpoint) {
    && (Has(x, Active) || Has(x, Listening) ==>
          && y.session.Some?
          && x.session.value.ctl.remoteId == y.session.value.ctl.myId
          && x.session.value.ctl.remoteKey == Some(y.key))
    && (Has(x, Active) && !x.listened ==> y.listened && (Has(y, Listening) || Has(y, Active)))
    && ((exists m :: m in x.sent && IsData(x, m)) ==> Has(x, Active))
    && (Has(x, Active) && x.listened ==> Has(y, Active) && SentPacket(y))
  }

  lemma AgreesInv(x: Endpoint, y: Endpoint)
    requires OwnInv(x, y) && OwnInv(y, x)
    ensures Agrees(x, y)
  {
    hide OutboundInv, InboundInv;
    if m :| m in x.sent && IsData(x, m) {
      assert Genuine(x, m);
    }
  }

  lemma HandshakeAgreement(s: System)
    requires Reachable(s)
    ensures Agrees(s.a, s.b) && Agrees(s.b, s.a)
    ensures !Has(s.a, Expired) && !Has(s.b, Expired)
  {
    ReachableInv(s);
    AgreesInv(s.a, s.b);
    AgreesInv(s.b, s.a);
  }

  /** The address in every message parses back to the sender's, so it reaches the sender's entry. */
  lemma SendersAreFound(s: System)
    requires Reachable(s)
    ensures forall m :: m in s.a.sent ==> Parse(m.address) == Some(Canonical(s.a.address))
    ensures forall m :: m in s.b.sent ==> Parse(m.address) == Some(Canonical(s.b.address))
  {
    ReachableInv(s);
    MultiaddrRoundTrip(s.a.address);
    MultiaddrRoundTrip(s.b.address);
    forall m | m in s.a.sent ensures m.address == ToMultiaddr(s.a.address) { assert Genuine(s.a, m); }
    forall m | m in s.b.sent ensures m.address == ToMultiaddr(s.b.address) { assert Genuine(s.b, m); }
  }

  // ---- packets that read as control messages ----

  /** If packet n + 1 of x reads as a control message, y has not got past packet n. */
  predicate BlockedAt(x: Endpoint, y: Endpoint, n: nat) {
    n < |Packets(x)| && KindOf(Packets(x)[n]) != KData ==> Received(y) <= n
  }

  lemma BlockedInv(x: Endpoint, y: Endpoint, n: nat)
    requires OwnInv(x, y) && OwnInv(y, x)
    ensures BlockedAt(x, y, n)
  {
    hide ControlInv, OutInv, InbInv, Parked, SentOk, KindOf;
    if y.session.Some? { assert OnlyData(y.session.value.inb, Packets(x)); }
  }

  /**
   * A packet whose bytes begin with a control tag is never accepted, in any run, however often it
   * is sent again: the receiver stays before it for good.
   */
  lemma ControlPacketBlocks(s: System, n: nat)
    requires Reachable(s)
    ensures BlockedAt(s.a, s.b, n) && BlockedAt(s.b, s.a, n)
  {
    hide OwnInv, BlockedAt;
    ReachableInv(s);
    BlockedInv(s.a, s.b, n);
    BlockedInv(s.b, s.a, n);
  }

  // ---- the ends are interchangeable ----

  lemma SwapStep(s: System, t: System)
    requires Step(s, t)
    ensures Step(Swap(s), Swap(t))
  {
    hide Perform, Enabled;
    var s', t' := Swap(s), Swap(t);
    if act :| Enabled(s.a, s.b, act) && t == s.(a := Perform(s.a, s.b, act)) {
      assert Enabled(s'.b, s'.a, act) && t' == s'.(b := Perform(s'.b, s'.a, act));
    } else {
      var act :| Enabled(s.b, s.a, act) && t == s.(b := Perform(s.b, s.a, act));
      assert Enabled(s'.a, s'.b, act) && t' == s'.(a := Perform(s'.a, s'.b, act));
    }
  }

  function SwapRun(run: seq<System>): seq<System> { seq(|run|, i requires 0 <= i < |run| => Swap(run[i])) }

  lemma SwapRunIsRun(run: seq<System>)
    requires IsRun(run)
    ensures IsRun(SwapRun(run))
  {
    hide Step;
    var other := SwapRun(run);
    forall i | 0 <= i < |other| - 1 ensures Step(other[i], other[i + 1]) {
      assert Step(run[i], run[i + 1]);
      SwapStep(run[i], run[i + 1]);
    }
  }

  /** Whatever holds of end a in every reachable state holds of end b. */
  lemma SwapReachable(s: System)
    requires Reachable(s)
    ensures Reachable(Swap(s)) && Swap(Swap(s)) == s
  {
    hide IsRun;
    var run :| IsRun(run) && run != [] && run[|run| - 1] == s;
    SwapRunIsRun(run);
    assert SwapRun(run)[|run| - 1] == Swap(s);
  }
}
