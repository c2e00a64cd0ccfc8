/**
 * Whose bytes a stream accepts: in every run, against any messages at all, only those that the
 * key learned in the handshake has signed.
 */
module Authenticity {
  import opened Bytes
  import opened Framing
  import opened Wire
  import opened Protocol
  import opened Sessions
  import opened Reactions

  /** Some message of the run is data number k with these bytes, signed by the key. */
  ghost predicate Signed(ops: seq<EntryOp>, key: Option<PublicKey>, k: nat, data: seq<byte>) {
    exists i :: 0 <= i < |ops| && IsSignedData(ops[i], key, k, data)
  }

  predicate IsSignedData(op: EntryOp, key: Option<PublicKey>, k: nat, data: seq<byte>) {
    && op.OnMessage? && KindOf(op.m.data) == KData && Some(op.m.signer) == key
    && op.m.msgSeq == k && op.m.data == data
  }

  ghost predicate AllSigned(ops: seq<EntryOp>, key: Option<PublicKey>, packets: seq<seq<byte>>) {
    forall j :: 0 <= j < |packets| ==> Signed(ops, key, j + 1, packets[j])
  }

  /** Everything accepted, in number order, and everything parked was signed by the key. */
  ghost predicate Authentic(i: Inbound, key: Option<PublicKey>, ops: seq<EntryOp>) {
    && (exists packets: seq<seq<byte>> ::
          |packets| == i.received && i.accepted == Flatten(packets) && AllSigned(ops, key, packets))
    && (forall k :: k in i.queue ==> Signed(ops, key, k, i.queue[k]))
  }

  predicate NothingIn(i: Inbound) { i.received == 0 && i.accepted == [] && i.queue == map[] }

  /** Before the handshake is over nothing has come in; afterwards only what the key has signed. */
  ghost predicate Trusts(s: Stream, ops: seq<EntryOp>) {
    && (s.ctl.status == Dialing ==> NothingIn(s.inb))
    && Authentic(s.inb, s.ctl.remoteKey, ops)
  }

  lemma NothingIsAuthentic(i: Inbound, key: Option<PublicKey>, ops: seq<EntryOp>)
    requires NothingIn(i)
    ensures Authentic(i, key, ops)
  {
    var none: seq<seq<byte>> := [];
    assert |none| == i.received && i.accepted == Flatten(none) && AllSigned(ops, key, none);
  }

  lemma SignedLater(ops: seq<EntryOp>, op: EntryOp, key: Option<PublicKey>, k: nat, data: seq<byte>)
    requires Signed(ops, key, k, data)
    ensures Signed(ops + [op], key, k, data)
  {
    hide IsSignedData;
    var i :| 0 <= i < |ops| && IsSignedData(ops[i], key, k, data);
    assert (ops + [op])[i] == ops[i];
  }

  lemma SignedNow(ops: seq<EntryOp>, op: EntryOp, key: Option<PublicKey>, k: nat, data: seq<byte>)
    requires IsSignedData(op, key, k, data)
    ensures Signed(ops + [op], key, k, data)
  {
    hide IsSignedData;
    assert (ops + [op])[|ops|] == op;
  }

  lemma AuthenticLater(i: Inbound, key: Option<PublicKey>, ops: seq<EntryOp>, op: EntryOp)
    requires Authentic(i, key, ops)
    ensures Authentic(i, key, ops + [op])
  {
    hide Signed;
    var packets: seq<seq<byte>> :|
      |packets| == i.received && i.accepted == Flatten(packets) && AllSigned(ops, key, packets);
    forall j | 0 <= j < |packets| ensures Signed(ops + [op], key, j + 1, packets[j]) {
      SignedLater(ops, op, key, j + 1, packets[j]);
    }
    assert AllSigned(ops + [op], key, packets);
    forall k | k in i.queue ensures Signed(ops + [op], key, k, i.queue[k]) {
      SignedLater(ops, op, key, k, i.queue[k]);
    }
  }

  // ---- receiving one signed message ----

  /** parts are the parked packets n+1, n+2, .. */
  predicate PartsOf(queue: map<nat, seq<byte>>, n: nat, parts: seq<seq<byte>>) {
    forall k :: n < k <= n + |parts| ==> k in queue && queue[k] == parts[k - n - 1]
  }

  lemma PartsBehind(queue: map<nat, seq<byte>>, n: nat, rest: seq<seq<byte>>)
    requires n + 1 in queue && PartsOf(queue - {n + 1}, n + 1, rest)
    ensures PartsOf(queue, n, [queue[n + 1]] + rest)
  {
    var smaller, parts := queue - {n + 1}, [queue[n + 1]] + rest;
    forall k | n < k <= n + |parts| ensures k in queue && queue[k] == parts[k - n - 1] {
      assert k == n + 1 || (k in smaller && smaller[k] == rest[k - n - 2]);
    }
  }

  /** The bytes the drain loop takes are those of the parked packets it passes. */
  lemma {:induction false} DrainParts(queue: map<nat, seq<byte>>, n: nat) returns (parts: seq<seq<byte>>)
    ensures var d := Drain(queue, n);
            && d.end == n + |parts| && d.bytes == Flatten(parts) && PartsOf(queue, n, parts)
            && (forall k :: k in d.queue ==> k in queue && d.queue[k] == queue[k])
    decreases |queue.Keys|
  {
    hide PartsOf;
    parts := [];
    if n + 1 in queue {
      var smaller := queue - {n + 1};
      assert smaller.Keys == queue.Keys - {n + 1};
      var rest := DrainParts(smaller, n + 1);
      PartsBehind(queue, n, rest);
      parts := [queue[n + 1]] + rest;
      assert parts[1..] == rest;
    } else {
      NoParts(queue, n);
    }
  }

  lemma NoParts(queue: map<nat, seq<byte>>, n: nat)
    ensures PartsOf(queue, n, [])
  {
  }

  lemma AcceptAuthentic(i: Inbound, key: Option<PublicKey>, ops: seq<EntryOp>, now: int, data: seq<byte>)
    requires Authentic(i, key, ops) && Signed(ops, key, i.received + 1, data)
    ensures Authentic(Accept(i, now, data), key, ops)
  {
    hide Signed, Drain, Update, LostBytes;
    var packets: seq<seq<byte>> :|
      |packets| == i.received && i.accepted == Flatten(packets) && AllSigned(ops, key, packets);
    var parts := DrainParts(i.queue, i.received + 1);
    var j := Accept(i, now, data);
    var more := packets + [data] + parts;
    FlattenSnoc(packets, data);
    FlattenAppend(packets + [data], parts);
    Reassociate(Flatten(packets), data, Flatten(parts));
    forall n | 0 <= n < |more| ensures Signed(ops, key, n + 1, more[n]) {
      if n > |packets| {
        assert n + 1 in i.queue && more[n] == parts[n - |packets| - 1];
      }
    }
    assert |more| == j.received && j.accepted == Flatten(more) && AllSigned(ops, key, more);
  }

  lemma RecvAuthentic(s: Stream, ops: seq<EntryOp>, m: Payload, now: int)
    requires Authentic(s.inb, s.ctl.remoteKey, ops) && Signed(ops, s.ctl.remoteKey, m.msgSeq, m.data)
    ensures Authentic(RecvMessage(s, now, m.receivedSeq, m.msgSeq, m.data).inb, s.ctl.remoteKey, ops)
  {
    hide Signed, Accept;
    if m.msgSeq == s.inb.received + 1 && IsActive(s, now) {
      AcceptAuthentic(s.inb, s.ctl.remoteKey, ops, now, m.data);
    }
  }

  // ---- every operation ----

  lemma SameInTrusts(s: Stream, t: Stream, ops: seq<EntryOp>, op: EntryOp)
    requires Trusts(s, ops) && t.inb.received == s.inb.received && t.inb.accepted == s.inb.accepted
    requires t.inb.queue == s.inb.queue && (t.ctl.status == Dialing ==> s.ctl.status == Dialing)
    requires NothingIn(s.inb) || t.ctl.remoteKey == s.ctl.remoteKey
    ensures Trusts(t, ops + [op])
  {
    if NothingIn(s.inb) { NothingIsAuthentic(t.inb, t.ctl.remoteKey, ops + [op]); }
    else {
      AuthenticLater(s.inb, s.ctl.remoteKey, ops, op);
      assert Authentic(t.inb, t.ctl.remoteKey, ops + [op]);
    }
  }

  /** Any message to a stream that trusts only its key leaves one that does. */
  lemma MessageTrusts(s: Stream, node: Node, ops: seq<EntryOp>, m: Payload, env: Env)
    requires Trusts(s, ops)
    ensures var h := Handle(Some(s), node.local, node.remote, node.key, m, env);
            h.entry.Some? && Trusts(h.entry.value, ops + [OnMessage(m, env)])
  {
    hide KindOf, KeyBytes, Handle, RecvMessage, Authentic, NothingIn, FlushMessages;
    var op, h := OnMessage(m, env), Handle(Some(s), node.local, node.remote, node.key, m, env);
    match KindOf(m.data)
    case KDial => DialTrusts(s, node, ops, m, env);
    case KListen =>
      HearsListen(s, node, m, env);
      KeyIsLearned(s, node, m, env);
      SameInTrusts(s, h.entry.value, ops, op);
    case KStatus =>
      StatusTaken(s, node, m, env);
      SameInTrusts(s, h.entry.value, ops, op);
    case KPing =>
      PingIgnored(s, node, m, env);
      SameInTrusts(s, h.entry.value, ops, op);
    case KData => DataTrusts(s, node, ops, m, env);
  }

  lemma DialTrusts(s: Stream, node: Node, ops: seq<EntryOp>, m: Payload, env: Env)
    requires Trusts(s, ops) && KindOf(m.data) == KDial
    ensures var h := Handle(Some(s), node.local, node.remote, node.key, m, env);
            h.entry.Some? && Trusts(h.entry.value, ops + [OnMessage(m, env)])
  {
    hide KindOf, KeyBytes, Handle, Authentic;
    var op, h := OnMessage(m, env), Handle(Some(s), node.local, node.remote, node.key, m, env);
    HearsDial(Some(s), node, m, env);
    if IsOpening(Some(s), m, env) {
      NothingIsAuthentic(h.entry.value.inb, h.entry.value.ctl.remoteKey, ops + [op]);
    } else {
      DialKeepsStream(s, node, m, env);
      KeyIsLearned(s, node, m, env);
      HandleMonotone(s, node.local, node.remote, node.key, m, env);
      SameInTrusts(s, h.entry.value, ops, op);
    }
  }

  lemma DataTrusts(s: Stream, node: Node, ops: seq<EntryOp>, m: Payload, env: Env)
    requires Trusts(s, ops) && KindOf(m.data) == KData
    ensures var h := Handle(Some(s), node.local, node.remote, node.key, m, env);
            h.entry.Some? && Trusts(h.entry.value, ops + [OnMessage(m, env)])
  {
    hide KindOf, Handle, RecvMessage, Authentic;
    var op, h := OnMessage(m, env), Handle(Some(s), node.local, node.remote, node.key, m, env);
    if s.ctl.remoteKey != Some(m.signer) {
      UnsignedDataIgnored(s, node, m, env);
      SameInTrusts(s, h.entry.value, ops, op);
    } else if !env.addressKnown {
      UnknownAddressIgnores(s, node, m, env);
      SameInTrusts(s, h.entry.value, ops, op);
    } else {
      SignedDataTaken(s, node, m, env);
      if TakesFrom(s, m) {
        var t := Bound(s, m).(ctl := Bound(s, m).ctl.(status := Active));
        AuthenticLater(s.inb, s.ctl.remoteKey, ops, op);
        SignedNow(ops, op, s.ctl.remoteKey, m.msgSeq, m.data);
        RecvAuthentic(t, ops + [op], m, env.now);
        RecvControl(t, env.now, m.receivedSeq, m.msgSeq, m.data);
      } else {
        SameInTrusts(s, h.entry.value, ops, op);
      }
    }
  }

  lemma UnknownAddressIgnores(s: Stream, node: Node, m: Payload, env: Env)
    requires !env.addressKnown
    ensures Ignored(s, m, Handle(Some(s), node.local, node.remote, node.key, m, env))
  {
  }

  lemma OnEntryTrusts(h: Held, node: Node, ops: seq<EntryOp>, op: EntryOp)
    requires h.entry.Some? ==> Trusts(h.entry.value, ops)
    ensures var t := OnEntry(h, node, op).entry;
            t.Some? ==> Trusts(t.value, ops + [op])
  {
    hide Handle, Trusts, Flush, FlushMessages, StatusIfStale;
    var t := OnEntry(h, node, op).entry;
    match op
    case OnMessage(m, env) =>
      if h.entry.Some? { MessageTrusts(h.entry.value, node, ops, m, env); }
      else { FirstTrusts(node, ops, m, env); }
    case OnDial(env) =>
      DialOpens(h, node, env);
      if t.Some? {
        if IsNew(t.value, node, env) && t.value.ctl.remoteKey == None { NewTrusts(t.value, node, env, ops + [op]); }
        else { SameTrusts(t.value, ops, op); }
      }
    case OnBeat(now) =>
      if t.Some? { FlushInbound(h.entry.value, now); KeptTrusts(h.entry.value, t.value, ops, op); }
    case OnTask(now) =>
      if t.Some? { FlushInbound(h.entry.value, now); KeptTrusts(h.entry.value, t.value, ops, op); }
    case OnWrite(data) => if t.Some? { KeptTrusts(h.entry.value, t.value, ops, op); }
    case OnRead(n) => if t.Some? { KeptTrusts(h.entry.value, t.value, ops, op); }
  }

  lemma FlushInbound(s: Stream, now: int)
    ensures Flush(s, now).inb == s.inb && Flush(s, now).ctl == s.ctl
  {
  }

  /** Operations of this end itself: nothing comes in and the handshake does not move. */
  lemma KeptTrusts(s: Stream, t: Stream, ops: seq<EntryOp>, op: EntryOp)
    requires Trusts(s, ops) && t.ctl == s.ctl && t.inb.received == s.inb.received
    requires t.inb.accepted == s.inb.accepted && t.inb.queue == s.inb.queue
    ensures Trusts(t, ops + [op])
  {
    hide Authentic;
    SameInTrusts(s, t, ops, op);
  }

  lemma SameTrusts(s: Stream, ops: seq<EntryOp>, op: EntryOp)
    requires Trusts(s, ops)
    ensures Trusts(s, ops + [op])
  {
    hide Trusts;
    KeptTrusts(s, s, ops, op);
  }

  lemma NewTrusts(s: Stream, node: Node, env: Env, ops: seq<EntryOp>)
    requires IsNew(s, node, env)
    ensures Trusts(s, ops)
  {
    NothingIsAuthentic(s.inb, s.ctl.remoteKey, ops);
  }

  lemma FirstTrusts(node: Node, ops: seq<EntryOp>, m: Payload, env: Env)
    ensures var h := Handle(None, node.local, node.remote, node.key, m, env);
            h.entry.Some? ==> Trusts(h.entry.value, ops + [OnMessage(m, env)])
  {
    hide KindOf, Handle, Trusts;
    if KindOf(m.data) == KDial && env.addressKnown {
      HearsDial(None, node, m, env);
      var h := Handle(None, node.local, node.remote, node.key, m, env);
      if IsOpening(None, m, env) { NewTrusts(h.entry.value, node, env, ops + [OnMessage(m, env)]); }
      else { NotOpened(node, m, env); }
    } else {
      OnlyDialOpens(node, m, env);
    }
  }

  lemma NotOpened(node: Node, m: Payload, env: Env)
    requires !env.reachable
    ensures Handle(None, node.local, node.remote, node.key, m, env).entry == None
  {
  }

  // ---- every run ----

  lemma {:induction false} RunTrusts(node: Node, ops: seq<EntryOp>)
    ensures var h := OnEntryAll(Held(None, 0), node, ops);
            h.entry.Some? ==> Trusts(h.entry.value, ops)
    decreases |ops|
  {
    hide OnEntry, Trusts;
    if ops != [] {
      var n := |ops| - 1;
      RunTrusts(node, ops[..n]);
      OnEntryTrusts(OnEntryAll(Held(None, 0), node, ops[..n]), node, ops[..n], ops[n]);
      assert ops[..n] + [ops[n]] == ops;
    }
  }

  /**
   * In every run of an entry, whatever messages anyone sends it: the accepted bytes are those of
   * data messages numbered 1 .. received, in order, each signed by the key the stream is bound to,
   * and so is every parked packet; before the handshake is over nothing is accepted at all.
   */
  lemma OnlySignedBytes(node: Node, ops: seq<EntryOp>)
    requires OnEntryAll(Held(None, 0), node, ops).entry.Some?
    ensures var s := OnEntryAll(Held(None, 0), node, ops).entry.value;
            && Authentic(s.inb, s.ctl.remoteKey, ops)
            && (s.ctl.status == Dialing ==> NothingIn(s.inb))
  {
    RunTrusts(node, ops);
  }

  /** Without data signed by the bound key, nothing is accepted and nothing is parked. */
  lemma NothingUnsigned(node: Node, ops: seq<EntryOp>)
    requires OnEntryAll(Held(None, 0), node, ops).entry.Some?
    requires var key := OnEntryAll(Held(None, 0), node, ops).entry.value.ctl.remoteKey;
             forall i :: 0 <= i < |ops| && ops[i].OnMessage? ==> Some(ops[i].m.signer) != key
    ensures NothingIn(OnEntryAll(Held(None, 0), node, ops).entry.value.inb)
  {
    hide OnEntryAll, Signed, Authentic;
    var s := OnEntryAll(Held(None, 0), node, ops).entry.value;
    forall k, data ensures !Signed(ops, s.ctl.remoteKey, k, data) {
      NoneSigned(ops, s.ctl.remoteKey, k, data);
    }
    OnlySignedBytes(node, ops);
    NothingAuthentic(s.inb, s.ctl.remoteKey, ops);
  }

  lemma NothingAuthentic(i: Inbound, key: Option<PublicKey>, ops: seq<EntryOp>)
    requires Authentic(i, key, ops) && forall k, data :: !Signed(ops, key, k, data)
    ensures NothingIn(i)
  {
    hide Signed;
    var packets: seq<seq<byte>> :|
      |packets| == i.received && i.accepted == Flatten(packets) && AllSigned(ops, key, packets);
    assert |packets| == 0;
    assert i.queue.Keys == {};
  }

  lemma NoneSigned(ops: seq<EntryOp>, key: Option<PublicKey>, k: nat, data: seq<byte>)
    requires forall i :: 0 <= i < |ops| && ops[i].OnMessage? ==> Some(ops[i].m.signer) != key
    ensures !Signed(ops, key, k, data)
  {
  }
}
