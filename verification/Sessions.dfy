/** What any series of handler calls, heartbeats and dials keeps of one peer's entry. */
module Sessions {
  import opened Bytes
  import opened Address
  import opened Wire
  import opened Protocol
  import opened Sender

  function Rank(status: Status): nat {
    match status
    case Dialing => 0
    case Listening => 1
    case Active => 2
    case Expired => 3
  }

  // ---- one handler call, on any entry and any message ----

  /**
   * The same stream object, later: its peer id never goes down, its status only climbs, and its
   * outbound timestamp is still the time it was opened.
   */
  predicate Advances(s: Stream, t: Stream) {
    && t.out.lastSent == s.out.lastSent
    && t.ctl.myId == s.ctl.myId
    && (s.ctl.remoteId != 0 ==> s.ctl.remoteId <= t.ctl.remoteId)
    && Rank(s.ctl.status) <= Rank(t.ctl.status)
  }

  /** What one row of the handler's table can do to the entry s that met message m. */
  predicate Outcome(s: Stream, m: Payload, now: int, h: Handled) {
    && h.entry.Some?
    && var t := h.entry.value;
    if h.created then
      s.ctl.status == Active && t.ctl.status == Listening && t.ctl.remoteId == m.streamId > s.ctl.remoteId
      && t.inb.lastHeard == now
    else Advances(s, t) && (s.ctl.status != Expired ==> t.ctl.status != Expired)
  }

  lemma RecvControl(s: Stream, now: int, ack: nat, number: nat, data: seq<byte>)
    ensures RecvMessage(s, now, ack, number, data).ctl == s.ctl
    ensures RecvMessage(s, now, ack, number, data).out.lastSent == s.out.lastSent
  {
  }

  lemma DialingAdvances(s: Stream, local: Address, remote: Address, m: Payload, env: Env)
    requires s.ctl.status == Dialing && s.ctl.remoteId <= m.streamId
    ensures Outcome(s, m, env.now, HandleDialing(s, local, remote, m, env))
  {
    hide Flush, FlushMessages, Compare, KindOf;
    FlushControl(WithStatus(WithRemoteId(HeardAt(LearnKey(s, m, env), env.now), m.streamId), Active), env.now);
  }

  lemma ListeningAdvances(s: Stream, signed: bool, m: Payload, env: Env)
    requires s.ctl.status == Listening && s.ctl.remoteId <= m.streamId
    ensures Outcome(s, m, env.now, HandleListening(s, signed, m, env))
  {
    hide RecvMessage, KindOf;
    RecvControl(WithStatus(s, Active), env.now, m.receivedSeq, m.msgSeq, m.data);
  }

  lemma ActiveAdvances(s: Stream, signed: bool, local: Address, remote: Address, key: PublicKey, m: Payload, env: Env)
    requires s.ctl.status == Active
    ensures Outcome(s, m, env.now, HandleActive(s, signed, local, remote, key, m, env))
  {
    hide RecvMessage, KindOf;
    RecvControl(WithStatus(s, Active), env.now, m.receivedSeq, m.msgSeq, m.data);
  }

  lemma EntryAdvances(s: Stream, signed: bool, local: Address, remote: Address, key: PublicKey, m: Payload, env: Env)
    requires s.ctl.remoteId != 0 || s.ctl.remoteId == m.streamId
    ensures Outcome(s, m, env.now, HandleEntry(s, signed, local, remote, key, m, env))
  {
    hide HandleDialing, HandleListening, HandleActive;
    if s.ctl.remoteId != 0 && m.streamId < s.ctl.remoteId {
    } else {
      match s.ctl.status
      case Dialing => DialingAdvances(s, local, remote, m, env);
      case Listening => ListeningAdvances(s, signed, m, env);
      case Active => ActiveAdvances(s, signed, local, remote, key, m, env);
      case Expired =>
    }
  }

  lemma FlushControl(s: Stream, now: int)
    ensures Flush(s, now).ctl == s.ctl && Flush(s, now).out.lastSent == s.out.lastSent
  {
    GeneratePackets(s.out);
  }

  /**
   * One call of the handler on an existing stream, whatever the message: the object advances,
   * or an Active one is replaced by a new listening one with a strictly larger peer id; a
   * message with a lower id than the bound one changes nothing.
   */
  lemma HandleMonotone(s: Stream, local: Address, remote: Address, key: PublicKey, m: Payload, env: Env)
    ensures Outcome(s, m, env.now, Handle(Some(s), local, remote, key, m, env))
    ensures s.ctl.remoteId != 0 && m.streamId < s.ctl.remoteId ==>
              var h := Handle(Some(s), local, remote, key, m, env);
              h.entry == Some(s) && h.sent == {} && !h.created
  {
    hide HandleEntry;
    EntryAdvances(Refresh(s, m), IsSigned(Some(s), m), local, remote, key, m, env);
    if s.ctl.remoteId != 0 && m.streamId < s.ctl.remoteId {
      LowerIdIgnored(s, IsSigned(Some(s), m), local, remote, key, m, env);
    }
  }

  lemma LowerIdIgnored(s: Stream, signed: bool, local: Address, remote: Address, key: PublicKey, m: Payload, env: Env)
    requires s.ctl.remoteId != 0 && m.streamId < s.ctl.remoteId
    ensures HandleEntry(s, signed, local, remote, key, m, env) == Quiet(s)
  {
  }

  // ---- whole runs of one entry, against any messages at all ----

  datatype EntryOp =
    | OnMessage(m: Payload, env: Env)
    | OnBeat(now: int)
    | OnDial(env: Env)
    | OnWrite(data: seq<byte>)
    | OnRead(n: nat)
    | OnTask(now: int)

  /** The entry, and how many stream objects the handler has put in it. */
  datatype Held = Held(entry: Option<Stream>, generation: nat)

  datatype Node = Node(local: Address, remote: Address, key: PublicKey)

  function OnEntry(h: Held, node: Node, op: EntryOp): Held {
    match op
    case OnMessage(m, env) =>
      var r := Handle(h.entry, node.local, node.remote, node.key, m, env);
      Held(r.entry, if r.created then h.generation + 1 else h.generation)
    case OnDial(env) =>
      if DialRefused(h.entry) || !env.reachable then h
      else Held(Some(DialEntry(node.local, node.remote, node.key, env)), h.generation + 1)
    case OnBeat(now) =>
      if h.entry == None then h
      else
        var beat := HeartbeatOne(h.entry.value, now);
        h.(entry := if beat.keep then Some(beat.stream) else None)
    case OnWrite(data) =>
      if h.entry == None then h else h.(entry := Some(h.entry.value.(out := Write(h.entry.value.out, data))))
    case OnRead(n) =>
      if h.entry == None then h else h.(entry := Some(h.entry.value.(inb := Read(h.entry.value.inb, n))))
    case OnTask(now) => if h.entry == None then h else h.(entry := Some(Flush(h.entry.value, now)))
  }

  function OnEntryAll(h: Held, node: Node, ops: seq<EntryOp>): Held
    decreases |ops|
  {
    if ops == [] then h else OnEntry(OnEntryAll(h, node, ops[..|ops| - 1]), node, ops[|ops| - 1])
  }

  lemma NewEntry(node: Node, m: Payload, env: Env)
    ensures var h := Handle(None, node.local, node.remote, node.key, m, env);
            h.entry.Some? ==>
              h.created && h.entry.value.ctl.status == Listening && h.entry.value.inb.lastHeard == env.now
  {
  }

  /** How one operation moves an entry that stays: the same object later, or a newer session. */
  predicate Newer(s: Stream, h: Held, t: Held) {
    && h.generation <= t.generation
    && (t.entry.Some? ==>
          && (t.generation == h.generation ==> Advances(s, t.entry.value))
          && (t.generation > h.generation && s.ctl.remoteId != 0 ==> t.entry.value.ctl.remoteId > s.ctl.remoteId))
  }

  lemma OnEntryNewer(h: Held, node: Node, op: EntryOp)
    requires h.entry.Some? && !op.OnDial?
    ensures Newer(h.entry.value, h, OnEntry(h, node, op))
  {
    hide Handle, Outcome, Flush;
    var s := h.entry.value;
    match op
    case OnMessage(m, env) =>
      HandleMonotone(s, node.local, node.remote, node.key, m, env);
      OutcomeNewer(s, h, m, env.now, Handle(h.entry, node.local, node.remote, node.key, m, env));
    case OnBeat(now) => FlushControl(s, now);
    case OnTask(now) => FlushControl(s, now);
    case _ =>
  }

  lemma OutcomeNewer(s: Stream, h: Held, m: Payload, now: int, r: Handled)
    requires Outcome(s, m, now, r)
    ensures Newer(s, h, Held(r.entry, if r.created then h.generation + 1 else h.generation))
  {
  }

  predicate NeverGone(h: Held, node: Node, ops: seq<EntryOp>) {
    forall i :: 0 <= i <= |ops| ==> OnEntryAll(h, node, ops[..i]).entry.Some?
  }

  /**
   * Session monotonicity over a whole run without dials in which the entry is never deleted,
   * against any messages: while the object stays the same its peer id, once nonzero, never
   * decreases and its status only climbs; a replacement always has a strictly larger peer id.
   */
  lemma {:induction false} SessionMonotone(h: Held, node: Node, ops: seq<EntryOp>)
    requires NeverGone(h, node, ops) && h.entry.Some? && h.entry.value.ctl.remoteId != 0
    requires forall i :: 0 <= i < |ops| ==> !ops[i].OnDial?
    ensures Newer(h.entry.value, h, OnEntryAll(h, node, ops)) && OnEntryAll(h, node, ops).entry.Some?
    decreases |ops|
  {
    hide OnEntry;
    if ops == [] {
      assert ops[..0] == ops;
    } else {
      var n := |ops| - 1;
      var before := ops[..n];
      assert ops[..|ops|] == ops;
      forall i | 0 <= i <= |before| ensures OnEntryAll(h, node, before[..i]).entry.Some? {
        assert before[..i] == ops[..i];
      }
      SessionMonotone(h, node, before);
      var mid := OnEntryAll(h, node, before);
      OnEntryNewer(mid, node, ops[n]);
      assert OnEntryAll(h, node, ops) == OnEntry(mid, node, ops[n]);
    }
  }

  // ---- liveness bookkeeping ----

  predicate NotExpired(h: Held) { h.entry.Some? ==> h.entry.value.ctl.status != Expired }

  lemma OnEntryNotExpired(h: Held, node: Node, op: EntryOp)
    requires NotExpired(h)
    ensures NotExpired(OnEntry(h, node, op))
  {
    hide Handle, Flush;
    match op
    case OnMessage(m, env) =>
      if h.entry == None { NewEntry(node, m, env); }
      else { HandleMonotone(h.entry.value, node.local, node.remote, node.key, m, env); }
    case OnBeat(now) => if h.entry.Some? { FlushControl(h.entry.value, now); }
    case OnTask(now) => if h.entry.Some? { FlushControl(h.entry.value, now); }
    case _ =>
  }

  /** No run, whatever it receives, ever stores the status Expired. */
  lemma {:induction false} NeverExpired(h: Held, node: Node, ops: seq<EntryOp>)
    requires NotExpired(h)
    ensures NotExpired(OnEntryAll(h, node, ops))
    decreases |ops|
  {
    hide OnEntry, NotExpired;
    if ops != [] {
      NeverExpired(h, node, ops[..|ops| - 1]);
      OnEntryNotExpired(OnEntryAll(h, node, ops[..|ops| - 1]), node, ops[|ops| - 1]);
    }
  }

  predicate IsPendingAt(s: Stream, now: int) { (s.ctl.status == Dialing || s.ctl.status == Listening) && Fresh(s, now) }

  /**
   * In every run from an empty entry, the heartbeat's three cases are exclusive and cover the
   * entry, and the heartbeat keeps the stream if and only if it was refreshed in the last 20 s.
   */
  lemma HeartbeatPartition(node: Node, ops: seq<EntryOp>, now: int)
    requires OnEntryAll(Held(None, 0), node, ops).entry.Some?
    ensures var s := OnEntryAll(Held(None, 0), node, ops).entry.value;
            && (IsActive(s, now) || IsExpired(s, now) || IsPendingAt(s, now))
            && !(IsActive(s, now) && IsExpired(s, now)) && !(IsActive(s, now) && IsPendingAt(s, now))
            && !(IsExpired(s, now) && IsPendingAt(s, now))
            && (OnEntryAll(Held(None, 0), node, ops + [OnBeat(now)]).entry.Some?
                <==> now - s.inb.lastHeard < 20 * SECOND)
  {
    hide Flush, FlushMessages;
    NeverExpired(Held(None, 0), node, ops);
    var all := ops + [OnBeat(now)];
    assert all[..|all| - 1] == ops;
  }

  // ---- where the code is stricter or more generous than its comments ----

  /** No dial, of the messages only STATUS, and no heartbeat later than `now`. */
  predicate OnlyStatusUntil(op: EntryOp, now: int) {
    match op
    case OnMessage(m, _) => KindOf(m.data) == KStatus
    case OnBeat(at) => at <= now
    case OnDial(_) => false
    case _ => true
  }

  /** The entry is still the Active stream last refreshed at `heard`, or has been removed as expired. */
  predicate HeldOrExpired(h: Held, heard: int, now: int) {
    match h.entry
    case None => now - heard >= STREAM_TIMEOUT
    case Some(s) => s.ctl.status == Active && s.inb.lastHeard == heard
  }

  lemma StatusLeavesClock(h: Held, node: Node, op: EntryOp, heard: int, now: int)
    requires HeldOrExpired(h, heard, now) && OnlyStatusUntil(op, now)
    ensures HeldOrExpired(OnEntry(h, node, op), heard, now)
  {
    hide Generate, Sent, FlushMessages, ToMultiaddr;
  }

  /**
   * "Delete the stream if no message received by timeout" is not what happens: an Active stream
   * that receives only STATUS, whatever it writes, reads, sends and beats meanwhile, is still
   * there after the heartbeat at `now` if and only if it accepted data in the last 20 seconds.
   */
  lemma {:induction false} StatusDoesNotKeepAlive(s: Stream, node: Node, ops: seq<EntryOp>, now: int)
    requires s.ctl.status == Active && forall i :: 0 <= i < |ops| ==> OnlyStatusUntil(ops[i], now)
    ensures var h := OnEntryAll(Held(Some(s), 0), node, ops);
            && HeldOrExpired(h, s.inb.lastHeard, now)
            && (OnEntry(h, node, OnBeat(now)).entry.Some? <==> now - s.inb.lastHeard < 20 * SECOND)
    decreases |ops|
  {
    hide Flush, FlushMessages, Handle;
    if ops != [] {
      StatusDoesNotKeepAlive(s, node, ops[..|ops| - 1], now);
      var before := OnEntryAll(Held(Some(s), 0), node, ops[..|ops| - 1]);
      StatusLeavesClock(before, node, ops[|ops| - 1], s.inb.lastHeard, now);
    }
  }

  // ---- the same stream object, from its opening on ----

  /** An operation that puts a new stream object into the entry. */
  predicate Opens(h: Held, node: Node, op: EntryOp) {
    (op.OnMessage? || op.OnDial?) && OnEntry(h, node, op).generation > h.generation
  }

  lemma OpenedAt(h: Held, node: Node, op: EntryOp)
    requires Opens(h, node, op)
    ensures var t := OnEntry(h, node, op);
            t.entry.Some? && t.entry.value.out.lastSent == op.env.now
  {
    hide Flush, FlushMessages, RecvMessage, KindOf, Compare;
  }

  /** No operation but an opening one touches the outbound timestamp of the entry. */
  lemma OnEntrySame(h: Held, node: Node, op: EntryOp)
    ensures var t := OnEntry(h, node, op);
            && h.generation <= t.generation
            && (t.generation == h.generation && t.entry.Some? ==>
                  h.entry.Some? && t.entry.value.out.lastSent == h.entry.value.out.lastSent)
  {
    hide Handle, Flush, FlushMessages;
    if op.OnMessage? && h.entry == None {
      NewEntry(node, op.m, op.env);
    } else if !op.OnDial? && h.entry.Some? {
      OnEntryNewer(h, node, op);
    }
  }

  lemma {:induction false} SameObject(h: Held, node: Node, ops: seq<EntryOp>)
    ensures var t := OnEntryAll(h, node, ops);
            && h.generation <= t.generation
            && (t.generation == h.generation && t.entry.Some? ==>
                  h.entry.Some? && t.entry.value.out.lastSent == h.entry.value.out.lastSent)
    decreases |ops|
  {
    hide OnEntry;
    if ops != [] {
      SameObject(h, node, ops[..|ops| - 1]);
      OnEntrySame(OnEntryAll(h, node, ops[..|ops| - 1]), node, ops[|ops| - 1]);
    }
  }

  /**
   * "Send a status message, if no other message has been sent" is not what happens either.
   * Whatever was sent, received, written or read since a stream was opened: a heartbeat sends its
   * STATUS if and only if the stream is active and at least five seconds have passed since then.
   */
  lemma StatusOnEveryBeat(before: Held, node: Node, opening: EntryOp, ops: seq<EntryOp>, now: int)
    requires Opens(before, node, opening)
    requires var h := OnEntry(before, node, opening);
             var t := OnEntryAll(h, node, ops);
             t.entry.Some? && t.generation == h.generation
    ensures var s := OnEntryAll(OnEntry(before, node, opening), node, ops).entry.value;
            && (StatusIfStale(s, now) != {} <==> IsActive(s, now) && now - opening.env.now >= 5 * SECOND)
            && StatusIfStale(s, now) <= HeartbeatOne(s, now).sent
            && (StatusIfStale(s, now) != {} ==> StatusMessage(s) in HeartbeatOne(s, now).sent)
  {
    hide OnEntry, Flush, FlushMessages;
    OpenedAt(before, node, opening);
    SameObject(OnEntry(before, node, opening), node, ops);
  }
}
