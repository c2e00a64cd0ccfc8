/** What the application reads in any run: all of the peer's writes, or exactly when not. */
module Reading {
  import opened Bytes
  import opened Framing
  import opened Address
  import opened Wire
  import opened Protocol
  import opened Sender
  import opened Receiver
  import opened Orders
  import opened Network
  import opened NetworkInvariant
  import opened NetworkTheorems

  /** Everything poll_read returned so far, and what it can still return. */
  function Readable(e: Endpoint): seq<byte> {
    if e.session.Some? then e.session.value.inb.read + e.session.value.inb.stream else []
  }

  function Dropped(e: Endpoint): nat { if e.session.Some? then e.session.value.inb.dropped else 0 }

  /** The payload of the complete frames among the accepted bytes. */
  function Complete(e: Endpoint): seq<byte> { Flatten(Deframe(Accepted(e)).frames) }

  // ---- what one step does to the cursor and to the books ----

  predicate SameBooks(i: Inbound, j: Inbound) {
    j.received == i.received && j.queue == i.queue && j.dropped == i.dropped
  }

  /** What a handler call may do to the inbound half of an entry it does not replace. */
  predicate InboundOutcome(s: Stream, m: Payload, env: Env, h: Handled) {
    h.created
    || (h.entry.Some?
        && (SameBooks(s.inb, h.entry.value.inb)
            || (KindOf(m.data) == KData
                && h.entry.value.inb
                   == RecvMessage(WithStatus(s, Active), env.now, m.receivedSeq, m.msgSeq, m.data).inb)))
  }

  lemma DialingInbound(s: Stream, local: Address, remote: Address, m: Payload, env: Env)
    ensures InboundOutcome(s, m, env, HandleDialing(s, local, remote, m, env))
  {
    hide KindOf, RecvMessage, Flush, FlushMessages, Compare, ToMultiaddr;
    FlushKeepsInbound(WithStatus(WithRemoteId(HeardAt(LearnKey(s, m, env), env.now), m.streamId), Active), env.now);
  }

  lemma ListeningInbound(s: Stream, signed: bool, m: Payload, env: Env)
    ensures InboundOutcome(s, m, env, HandleListening(s, signed, m, env))
  {
    hide KindOf, RecvMessage, ToMultiaddr;
  }

  lemma ActiveInbound(
    s: Stream, signed: bool, local: Address, remote: Address, key: PublicKey, m: Payload, env: Env)
    ensures InboundOutcome(s, m, env, HandleActive(s, signed, local, remote, key, m, env))
  {
    hide KindOf, RecvMessage, OpenListening, ToMultiaddr;
  }

  /** The handler touches the books of an entry only to receive a data message. */
  lemma EntryInbound(s: Stream, signed: bool, local: Address, remote: Address, key: PublicKey, m: Payload, env: Env)
    ensures InboundOutcome(s, m, env, HandleEntry(s, signed, local, remote, key, m, env))
  {
    hide KindOf, RecvMessage, HandleDialing, HandleListening, HandleActive;
    DialingInbound(s, local, remote, m, env);
    ListeningInbound(s, signed, m, env);
    ActiveInbound(s, signed, local, remote, key, m, env);
  }

  /** A step moves the cursor by less than the window, and drops bytes if and only if that loses. */
  predicate CursorStep(x: Endpoint, x': Endpoint, packets: seq<seq<byte>>) {
    && Received(x) <= Received(x') <= |packets| && Received(x') < Received(x) + WINDOW && Dropped(x) <= Dropped(x')
    && (Dropped(x') == Dropped(x) <==> !Loses(packets, Received(x), Received(x')))
  }

  lemma SameCursor(x: Endpoint, x': Endpoint, packets: seq<seq<byte>>)
    requires Received(x') == Received(x) <= |packets| && Dropped(x') == Dropped(x)
    ensures CursorStep(x, x', packets)
  {
  }

  lemma RecvCursor(s: Stream, now: int, ack: nat, number: nat, packets: seq<seq<byte>>)
    requires InbInv(s.inb) && Matches(s.inb, packets) && 1 <= number <= |packets|
    ensures var i, j := s.inb, RecvMessage(s, now, ack, number, packets[number - 1]).inb;
            && i.received <= j.received <= |packets| && j.received < i.received + WINDOW && i.dropped <= j.dropped
            && (j.dropped == i.dropped <==> !Loses(packets, i.received, j.received))
  {
    ArrivalBooks(s, packets, Arrival(now, ack, number));
  }

  lemma DataCursor(x: Endpoint, y: Endpoint, x': Endpoint, s: Stream, m: Payload, now: int)
    requires OwnInv(x, y) && OwnInv(y, x) && x.session.Some? && x'.session.Some? && s.inb == x.session.value.inb
    requires Genuine(y, m) && KindOf(m.data) == KData
    requires x'.session.value.inb == RecvMessage(WithStatus(s, Active), now, m.receivedSeq, m.msgSeq, m.data).inb
    ensures CursorStep(x, x', Packets(y))
  {
    hide RecvMessage, InbInv, Matches, Loses, OutboundInv, ControlInv, KindOf, OnlyData;
    KindOfGenuine(y, m);
    RecvCursor(WithStatus(s, Active), now, m.receivedSeq, m.msgSeq, Packets(y));
  }

  lemma DeliverCursor(x: Endpoint, y: Endpoint, m: Payload, env: Env)
    requires OwnInv(x, y) && OwnInv(y, x) && Enabled(x, y, Deliver(m, env))
    ensures CursorStep(x, Perform(x, y, Deliver(m, env)), Packets(y))
  {
    hide HandleEntry, RecvMessage, Loses, CursorStep, StreamInv, Genuine, KindOf;
    var x' := Perform(x, y, Deliver(m, env));
    DeliversInv(y, x);
    if x.session.Some? && x.mapped && env.addressKnown {
      var s := Refresh(x.session.value, m);
      MappedOutcome(x, y, m, env);
      EntryInbound(s, IsSigned(x.session, m), x.address, Canonical(y.address), x.key, m, env);
      if SameBooks(s.inb, x'.session.value.inb) {
        SameCursor(x, x', Packets(y));
      } else {
        DataCursor(x, y, x', s, m, env.now);
      }
    } else {
      SameCursor(x, x', Packets(y));
    }
  }

  lemma PerformCursor(x: Endpoint, y: Endpoint, action: Action)
    requires OwnInv(x, y) && OwnInv(y, x) && Enabled(x, y, action)
    ensures CursorStep(x, Perform(x, y, action), Packets(y))
  {
    hide OwnInv, Loses, Flush, FlushMessages;
    DeliversInv(y, x);
    match action
    case Deliver(m, env) => DeliverCursor(x, y, m, env);
    case Heartbeat =>
      if x.session.Some? { FlushKeepsInbound(x.session.value, x.clock); }
      SameCursor(x, Perform(x, y, action), Packets(y));
    case RunTask =>
      FlushKeepsInbound(x.session.value, x.clock);
      SameCursor(x, Perform(x, y, action), Packets(y));
    case Dial(env) => SameCursor(x, Perform(x, y, action), Packets(y));
    case AppWrite(data) => SameCursor(x, Perform(x, y, action), Packets(y));
    case AppRead(n) => SameCursor(x, Perform(x, y, action), Packets(y));
    case Tick(d) => SameCursor(x, Perform(x, y, action), Packets(y));
  }

  lemma FlushKeepsInbound(s: Stream, now: int)
    ensures Flush(s, now).inb == s.inb
  {
  }

  lemma StepCursor(s: System, t: System)
    requires Inv(s) && Step(s, t)
    ensures CursorStep(s.b, t.b, Packets(s.a))
  {
    hide OwnInv, Perform, Enabled, CursorStep;
    DeliversInv(s.a, s.b);
    if act :| Enabled(s.b, s.a, act) && t == s.(b := Perform(s.b, s.a, act)) {
      PerformCursor(s.b, s.a, act);
    } else {
      SameCursor(s.b, t.b, Packets(s.a));
    }
  }

  // ---- whole runs ----

  /** Step number i of the run moves the cursor of b across payload to a boundary that loses. */
  predicate LosesAtStep(run: seq<System>, packets: seq<seq<byte>>, i: nat)
    requires i + 1 < |run|
  {
    Loses(packets, Received(run[i].b), Received(run[i + 1].b))
  }

  predicate LosesNowhere(run: seq<System>, packets: seq<seq<byte>>) {
    forall i :: 0 <= i < |run| - 1 ==> !LosesAtStep(run, packets, i)
  }

  /** No step of the run does, for the packets a has cut by its end. */
  predicate LosesNever(run: seq<System>)
    requires run != []
  {
    LosesNowhere(run, Packets(run[|run| - 1].a))
  }

  lemma BeforeLast(run: seq<System>)
    requires IsRun(run) && |run| > 1
    ensures IsRun(run[..|run| - 1]) && Step(run[|run| - 2], run[|run| - 1])
  {
    hide Step;
    var n := |run| - 1;
    assert Step(run[n - 1], run[n - 1 + 1]);
    forall i | 0 <= i < n - 1 ensures Step(run[..n][i], run[..n][i + 1]) {
      assert Step(run[i], run[i + 1]);
    }
  }

  /** Every step of a run is a step from a state with the invariant. */
  lemma {:induction false} StepOfRun(run: seq<System>, i: nat)
    requires run != [] && IsRun(run) && Bounded(run[|run| - 1].a) && Bounded(run[|run| - 1].b) && i + 1 < |run|
    ensures Inv(run[i]) && Step(run[i], run[i + 1]) && Inv(run[i + 1])
    decreases |run|
  {
    hide Inv, Step, Bounded;
    BeforeLast(run);
    var n := |run| - 1;
    StepBounds(run[n - 1], run[n]);
    if i + 1 < n {
      StepOfRun(run[..n], i);
    } else {
      RunInv(run[..n]);
      RunInv(run);
    }
  }

  lemma {:induction false} RunCursor(run: seq<System>, packets: seq<seq<byte>>)
    requires run != [] && IsRun(run) && Bounded(run[|run| - 1].a) && Bounded(run[|run| - 1].b)
    requires Packets(run[|run| - 1].a) <= packets
    ensures Dropped(run[|run| - 1].b) == 0 <==> LosesNowhere(run, packets)
    decreases |run|
  {
    hide IsRun, Step, Bounded, Inv, Loses, StepHistory, Grows;
    var n := |run| - 1;
    if n == 0 {
      InitialBooks(run);
    } else {
      var before, s, t := run[..n], run[n - 1], run[n];
      BeforeLast(run);
      StepBounds(s, t);
      RunInv(before);
      StepKeeps(s, t);
      HistoryOnly(s.a, t.a);
      RunCursor(before, packets);
      StepCursor(s, t);
      LosesLonger(Packets(s.a), packets, Received(s.b), Received(t.b));
      assert LosesAtStep(run, packets, n - 1) <==> Dropped(t.b) != Dropped(s.b);
      forall i | 0 <= i < n - 1 ensures LosesAtStep(run, packets, i) <==> LosesAtStep(before, packets, i) {}
    }
  }

  lemma InitialBooks(run: seq<System>)
    requires IsRun(run)
    ensures Dropped(run[0].b) == 0
  {
    hide Step;
  }

  lemma HistoryOnly(x: Endpoint, x': Endpoint)
    requires StepHistory(x, x')
    ensures Packets(x) <= Packets(x')
  {
  }

  /** What y's books say: how far the readable bytes fall short of the complete payload. */
  lemma ReadableInv(x: Endpoint, y: Endpoint)
    requires OwnInv(x, y) && OwnInv(y, x)
    ensures Readable(y) == Complete(y) <==> Dropped(y) == 0
    ensures |Readable(y)| + Dropped(y) == |Complete(y)|
  {
    if y.session.Some? {
      assert InbInv(y.session.value.inb);
    }
  }

  /** b can read all the payload it has completed if and only if no step of the run loses. */
  ghost predicate ReadsExactly(run: seq<System>)
    requires run != []
  {
    var b := run[|run| - 1].b;
    && (Readable(b) == Complete(b) <==> LosesNever(run))
    && |Readable(b)| + Dropped(b) == |Complete(b)|
  }

  lemma ReadsExactlyAtB(run: seq<System>)
    requires run != [] && IsRun(run) && Bounded(run[|run| - 1].a) && Bounded(run[|run| - 1].b)
    ensures ReadsExactly(run)
  {
    hide IsRun, OwnInv, Bounded, Loses, LosesAtStep, Readable, Complete, Dropped;
    var last := run[|run| - 1];
    RunInv(run);
    ReadableInv(last.a, last.b);
    RunCursor(run, Packets(last.a));
  }

  /**
   * In every run, at both ends: the readable bytes are all the complete payload among the
   * accepted bytes if and only if no step moved the cursor across completed payload to a packet
   * boundary that leaves 1 to 3 bytes; otherwise they fall short by what was dropped there.
   */
  lemma AppStreamExactly(run: seq<System>)
    requires run != [] && IsRun(run) && Bounded(run[|run| - 1].a) && Bounded(run[|run| - 1].b)
    ensures ReadsExactly(run) && ReadsExactly(SwapRun(run))
  {
    hide IsRun, ReadsExactly;
    SwapRunIsRun(run);
    ReadsExactlyAtB(run);
    ReadsExactlyAtB(SwapRun(run));
  }

  // ---- against what the peer wrote ----

  /** Everything x was given to send has been cut and received. */
  predicate AllReceived(x: Endpoint, y: Endpoint) {
    x.session.Some? && x.session.value.out.stream == [] && Received(y) == |Packets(x)|
  }

  lemma FlattenPrefix(a: seq<seq<byte>>, b: seq<seq<byte>>)
    requires a <= b
    ensures Flatten(a) <= Flatten(b)
  {
    FlattenSplit(b, |a|);
    assert b[..|a|] == a;
  }

  lemma CompleteIsWritten(x: Endpoint, y: Endpoint)
    requires OwnInv(x, y) && OwnInv(y, x) && AllShort(Writes(x))
    ensures Complete(y) <= Flatten(Writes(x))
    ensures AllReceived(x, y) ==> Complete(y) == Flatten(Writes(x))
  {
    hide ControlInv, WellNumbered, WellTimed, SentOk, Deframe, Framed, Flatten;
    DeliversInv(x, y);
    PrefixDeframes(Writes(x), Accepted(y));
    FlattenPrefix(Deframe(Accepted(y)).frames, Writes(x));
    if AllReceived(x, y) {
      assert Conserves(x.session.value.out);
      assert Packets(x)[..Received(y)] == Packets(x);
      assert Flatten(Packets(x)) + [] == Flatten(Packets(x));
    }
  }

  /** The reader at b sees the writes of a. */
  ghost predicate AppDelivers(run: seq<System>)
    requires run != []
  {
    var a, b := run[|run| - 1].a, run[|run| - 1].b;
    AllShort(Writes(a)) ==>
      && (LosesNever(run) ==> Readable(b) <= Flatten(Writes(a)))
      && (AllReceived(a, b) ==> (Readable(b) == Flatten(Writes(a)) <==> LosesNever(run)))
  }

  lemma AppDeliversAtB(run: seq<System>)
    requires run != [] && IsRun(run) && Bounded(run[|run| - 1].a) && Bounded(run[|run| - 1].b)
    ensures AppDelivers(run)
  {
    hide IsRun, OwnInv, Bounded, LosesNever, Readable, Complete, Dropped, AllReceived;
    var last := run[|run| - 1];
    RunInv(run);
    ReadsExactlyAtB(run);
    if AllShort(Writes(last.a)) { CompleteIsWritten(last.a, last.b); }
  }

  /**
   * Application-level integrity, at both ends, with writes below 2^32 bytes: in a run without
   * losing steps the reader sees a prefix of the peer's writes; and once everything has been
   * received it sees all of them if and only if the run had no losing step.
   */
  lemma AppIntegrity(run: seq<System>)
    requires run != [] && IsRun(run) && Bounded(run[|run| - 1].a) && Bounded(run[|run| - 1].b)
    ensures AppDelivers(run) && AppDelivers(SwapRun(run))
  {
    hide IsRun, AppDelivers;
    SwapRunIsRun(run);
    AppDeliversAtB(run);
    AppDeliversAtB(SwapRun(run));
  }

  /** None of the first n packet boundaries leaves 1 to 3 bytes after deframing. */
  predicate CleanBoundaries(packets: seq<seq<byte>>, n: nat) {
    forall k :: 0 <= k <= n && k <= |packets| ==> !Stalls(Leftover(packets, k))
  }

  lemma {:induction false} CursorBelow(run: seq<System>, i: nat)
    requires run != [] && IsRun(run) && Bounded(run[|run| - 1].a) && Bounded(run[|run| - 1].b) && i < |run|
    ensures Received(run[i].b) <= Received(run[|run| - 1].b) <= |Packets(run[|run| - 1].a)|
    decreases |run|
  {
    hide IsRun, Step, Bounded, Inv, Loses, StepHistory, Grows;
    var n := |run| - 1;
    RunInv(run);
    DeliversAtLast(run[n]);
    if i < n {
      BeforeLast(run);
      StepBounds(run[n - 1], run[n]);
      RunInv(run[..n]);
      StepCursor(run[n - 1], run[n]);
      CursorBelow(run[..n], i);
    }
  }

  lemma DeliversAtLast(s: System)
    requires Inv(s)
    ensures Received(s.b) <= |Packets(s.a)|
  {
    DeliversInv(s.a, s.b);
  }

  /** Boundaries that leave 0 or at least 4 bytes are safe for every schedule of the network. */
  lemma CleanRunLosesNever(run: seq<System>)
    requires run != [] && IsRun(run) && Bounded(run[|run| - 1].a) && Bounded(run[|run| - 1].b)
    requires CleanBoundaries(Packets(run[|run| - 1].a), Received(run[|run| - 1].b))
    ensures LosesNever(run)
  {
    hide IsRun, Bounded, Leftover, Completed;
    var packets := Packets(run[|run| - 1].a);
    forall i | 0 <= i < |run| - 1 ensures !LosesAtStep(run, packets, i) {
      CursorBelow(run, i + 1);
    }
  }

  /** Cut so that no move within the window loses, packets are read whole under every schedule. */
  lemma SafeRunLosesNever(run: seq<System>)
    requires run != [] && IsRun(run) && Bounded(run[|run| - 1].a) && Bounded(run[|run| - 1].b)
    requires SafeBoundaries(Packets(run[|run| - 1].a))
    ensures LosesNever(run)
  {
    hide IsRun, Bounded, Inv, Step, Loses, SafeBoundaries;
    var packets := Packets(run[|run| - 1].a);
    forall i | 0 <= i < |run| - 1 ensures !LosesAtStep(run, packets, i) {
      StepOfRun(run, i);
      StepCursor(run[i], run[i + 1]);
      SafeMove(packets, Received(run[i].b), Received(run[i + 1].b));
    }
  }
}
