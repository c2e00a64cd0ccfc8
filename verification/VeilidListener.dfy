/**
 * The map of streams and what changes it: the `AppMessage` branch of `convert_update`, the
 * heartbeat and `dial`. Each method is proved to do to the entry of one address what module
 * Protocol says, and nothing to the others.
 */
module Listeners {
  import opened Bytes
  import opened Address
  import opened Wire
  import opened Protocol
  import opened Streams

  function Get(entries: map<Address, Stream>, a: Address): Option<Stream> {
    if a in entries then Some(entries[a]) else None
  }

  lemma UpdateTwice(entries: map<Address, Stream>, a: Address, s: Stream, t: Stream)
    ensures entries[a := s][a := t] == entries[a := t]
  {
  }

  /** What the heartbeat sends for the entries at the given addresses. */
  ghost function SentFor(entries: map<Address, Stream>, at: set<Address>, now: int): set<Payload> {
    set a, m | a in entries && a in at && m in HeartbeatOne(entries[a], now).sent :: m
  }

  lemma SentForNone(entries: map<Address, Stream>, now: int)
    ensures SentFor(entries, {}, now) == {}
  {
  }

  lemma SentForOneMore(entries: map<Address, Stream>, at: set<Address>, a: Address, now: int)
    requires a in entries
    ensures SentFor(entries, at + {a}, now) == SentFor(entries, at, now) + HeartbeatOne(entries[a], now).sent
  {
    hide HeartbeatOne;
  }

  class VeilidListener {
    const myKey: PublicKey
    var localAddress: Option<Address>
    var streams: map<Address, VeilidStream>

    constructor (key: PublicKey)
      ensures Valid() && Entries() == map[] && localAddress == None && myKey == key
    {
      myKey, localAddress, streams := key, None, map[];
    }

    /** Every stream is filed under its own remote address, so no two entries share an object. */
    ghost predicate Valid()
      reads this, streams.Values
    {
      forall a :: a in streams ==> streams[a].remoteAddress == a && streams[a].Valid()
    }

    ghost function Entries(): map<Address, Stream>
      reads this, streams.Values
    {
      map a | a in streams :: streams[a].State()
    }

    // ---- the rows of the handler's table ----

    method LearnRemoteKey(stream: VeilidStream, m: Payload, env: Env)
      modifies stream`remotePublicKey
      ensures stream.State() == LearnKey(old(stream.State()), m, env)
    {
      if env.keyDecodes {
        stream.remotePublicKey := Some(KeyBytes(m.data));
      }
    }

    /** A new stream object, already in Listen; it is not in the map yet. */
    method NewListening(local: Address, remote: Address, m: Payload, env: Env) returns (stream: VeilidStream)
      ensures fresh(stream) && stream.Valid() && stream.remoteAddress == remote
      ensures stream.State() == OpenListening(local, remote, myKey, m, env)
    {
      stream := new VeilidStream(local, remote, m.streamId, myKey, env.now, env.wall);
      LearnRemoteKey(stream, m, env);
      stream.remoteStreamId := m.streamId;
      stream.status := Listening;
      stream.inboundLastTimestamp := env.now;
    }

    /** `create_stream` and what follows it: nothing happens when the remote target is not found. */
    method OpenStream(local: Address, remote: Address, m: Payload, env: Env) returns (created: bool, sent: set<Payload>)
      requires Valid()
      modifies this`streams
      ensures Valid() && created == env.reachable
      ensures !created ==> streams == old(streams) && sent == {}
      ensures created ==>
                && remote in streams && streams == old(streams)[remote := streams[remote]] && fresh(streams[remote])
                && streams[remote].State() == OpenListening(local, remote, myKey, m, env)
                && sent == {ListenMessage(streams[remote].State())}
    {
      hide OpenListening, VeilidStream.Valid, VeilidStream.State;
      if !env.reachable {
        return false, {};
      }
      var stream := NewListening(local, remote, m, env);
      streams := streams[remote := stream];
      var reply := stream.SendListen();
      return true, {reply};
    }

    /** The dialer hears LISTEN: it becomes Active and sends what the application wrote so far. */
    method Activate(stream: VeilidStream, m: Payload, env: Env) returns (sent: set<Payload>)
      requires stream.Valid()
      modifies stream
      ensures stream.Valid()
      ensures var t :=
              WithStatus(WithRemoteId(HeardAt(LearnKey(old(stream.State()), m, env), env.now), m.streamId), Active);
              stream.State() == Flush(t, env.now) && sent == FlushMessages(t, env.now)
    {
      hide Generate, Sent, Outgoing;
      ghost var s := stream.State();
      LearnRemoteKey(stream, m, env);
      stream.inboundLastTimestamp := env.now;
      stream.remoteStreamId := m.streamId;
      stream.status := Active;
      ghost var t := WithStatus(WithRemoteId(HeardAt(LearnKey(s, m, env), env.now), m.streamId), Active);
      assert stream.State() == t;
      stream.GenerateMessages();
      assert stream.State() == Generated(t);
      sent := stream.SendMessages(env.now);
    }

    /** The end with the larger address stays the dialer, and dials again. */
    method ChooseDialer(stream: VeilidStream, env: Env) returns (sent: set<Payload>)
      modifies stream`inboundLastTimestamp, stream`status
      ensures var t := WithStatus(HeardAt(old(stream.State()), env.now), Dialing);
              stream.State() == t && sent == {DialMessage(t)}
    {
      stream.inboundLastTimestamp := env.now;
      stream.status := Dialing;
      var reply := stream.SendDial();
      sent := {reply};
    }

    /** The end with the smaller address takes the peer's id and listens. */
    method ChooseListener(stream: VeilidStream, m: Payload, env: Env) returns (sent: set<Payload>)
      modifies stream`remoteStreamId, stream`status, stream`inboundLastTimestamp
      ensures var t := HeardAt(WithStatus(WithRemoteId(old(stream.State()), m.streamId), Listening), env.now);
              stream.State() == t && sent == {ListenMessage(t)}
    {
      stream.remoteStreamId := m.streamId;
      stream.status := Listening;
      stream.inboundLastTimestamp := env.now;
      var reply := stream.SendListen();
      sent := {reply};
    }

    /** Both ends dialled: the order of their addresses chooses the roles. */
    method ChooseRole(stream: VeilidStream, local: Address, remote: Address, m: Payload, env: Env)
      returns (sent: set<Payload>, poll: Poll)
      requires stream.Valid() && stream.status == Dialing && KindOf(m.data) == KDial
      modifies stream
      ensures stream.Valid()
      ensures Handled(Some(stream.State()), sent, false, poll)
              == HandleDialing(old(stream.State()), local, remote, m, env)
    {
      hide Compare, ToMultiaddr, Flush, FlushMessages, LearnKey, VeilidStream.State;
      LearnRemoteKey(stream, m, env);
      match Compare(remote, local)
      case Less =>
        sent := ChooseDialer(stream, env);
        poll := Pending;
      case Equal =>
        sent, poll := {}, Ended;
      case Greater =>
        sent := ChooseListener(stream, m, env);
        poll := Incoming;
    }

    method OnDialing(stream: VeilidStream, local: Address, remote: Address, m: Payload, env: Env)
      returns (sent: set<Payload>, poll: Poll)
      requires stream.Valid() && stream.status == Dialing
      modifies stream
      ensures stream.Valid()
      ensures Handled(Some(stream.State()), sent, false, poll)
              == HandleDialing(old(stream.State()), local, remote, m, env)
    {
      hide Flush, FlushMessages, Compare;
      match KindOf(m.data)
      case KDial => sent, poll := ChooseRole(stream, local, remote, m, env);
      case KListen =>
        sent := Activate(stream, m, env);
        poll := Pending;
      case _ => sent, poll := {}, Pending;
    }

    method OnListening(stream: VeilidStream, signed: bool, m: Payload, env: Env) returns (sent: set<Payload>)
      requires stream.Valid() && stream.status == Listening
      modifies stream
      ensures stream.Valid()
      ensures Handled(Some(stream.State()), sent, false, Pending)
              == HandleListening(old(stream.State()), signed, m, env)
    {
      sent := {};
      match KindOf(m.data)
      case KDial =>
        stream.remoteStreamId := m.streamId;
        var reply := stream.SendListen();
        sent := {reply};
      case KData =>
        if stream.remoteStreamId == m.streamId && signed {
          stream.status := Active;
          stream.RecvMessage(env.now, m.receivedSeq, m.msgSeq, m.data);
        }
      case _ =>
    }

    /** The Active row, except for a DIAL, which may replace the stream. */
    method OnActive(stream: VeilidStream, signed: bool, m: Payload, env: Env)
      requires stream.Valid() && stream.status == Active && KindOf(m.data) != KDial
      modifies stream
      ensures stream.Valid()
      ensures forall local, remote, key ::
                Quiet(stream.State()) == HandleActive(old(stream.State()), signed, local, remote, key, m, env)
    {
      match KindOf(m.data)
      case KStatus =>
        stream.outboundDeliveredSeq := m.receivedSeq;
        stream.RemoveSentMessagesFromQueue();
      case KData =>
        if signed {
          stream.status := Active;
          stream.RecvMessage(env.now, m.receivedSeq, m.msgSeq, m.data);
        }
      case _ =>
    }

    /** When every other stream is as it was, only the entry of one address has changed. */
    twostate lemma OneEntryChanged(remote: Address)
      requires remote in streams && streams == old(streams)[remote := streams[remote]]
      requires forall a :: a in old(streams) && a != remote ==> streams[a].State() == old(streams[a].State())
      ensures Entries() == old(Entries())[remote := streams[remote].State()]
    {
      hide VeilidStream.State;
    }

    /** A stream in Active hears DIAL: a larger id opens a new stream in its place. */
    method Redialled(remote: Address, local: Address, signed: bool, m: Payload, env: Env)
      returns (sent: set<Payload>, poll: Poll)
      requires Valid() && remote in streams && streams[remote].status == Active && KindOf(m.data) == KDial
      modifies this`streams
      ensures Valid()
      ensures var h := HandleActive(old(streams[remote].State()), signed, local, remote, myKey, m, env);
              sent == h.sent && poll == h.poll && h.entry.Some? && Entries() == old(Entries())[remote := h.entry.value]
    {
      hide OpenListening, VeilidStream.Valid;
      sent, poll := {}, Pending;
      if streams[remote].remoteStreamId < m.streamId {
        var created;
        created, sent := OpenStream(local, remote, m, env);
        poll := if created then Incoming else Pending;
      }
      OneEntryChanged(remote);
    }

    /** The rows of the table that keep the stream. */
    method OnSameEntry(stream: VeilidStream, remote: Address, local: Address, signed: bool, m: Payload, env: Env)
      returns (sent: set<Payload>, poll: Poll)
      requires stream.Valid() && !(stream.status == Active && KindOf(m.data) == KDial)
      modifies stream
      ensures stream.Valid()
      ensures Handled(Some(stream.State()), sent, false, poll)
              == HandleEntry(old(stream.State()), signed, local, remote, myKey, m, env)
    {
      hide HandleDialing, HandleListening, HandleActive;
      sent, poll := {}, Pending;
      if stream.remoteStreamId != 0 && m.streamId < stream.remoteStreamId {
        return;
      }
      match stream.status
      case Dialing => sent, poll := OnDialing(stream, local, remote, m, env);
      case Listening => sent := OnListening(stream, signed, m, env);
      case Active => OnActive(stream, signed, m, env);
      case Expired =>
    }

    /** The handler's table for a stream that is in the map and has been refreshed. */
    method OnEntry(remote: Address, local: Address, signed: bool, m: Payload, env: Env)
      returns (sent: set<Payload>, poll: Poll)
      requires Valid() && remote in streams
      modifies this`streams, streams[remote]
      ensures Valid()
      ensures var h := HandleEntry(old(streams[remote].State()), signed, local, remote, myKey, m, env);
              sent == h.sent && poll == h.poll && h.entry.Some? && Entries() == old(Entries())[remote := h.entry.value]
    {
      hide HandleDialing, HandleListening, HandleActive, VeilidStream.Valid;
      var stream := streams[remote];
      var ignored := stream.remoteStreamId != 0 && m.streamId < stream.remoteStreamId;
      if stream.status == Active && KindOf(m.data) == KDial && !ignored {
        sent, poll := Redialled(remote, local, signed, m, env);
      } else if ignored {
        sent, poll := {}, Pending;
        OneEntryChanged(remote);
      } else {
        sent, poll := OnSameEntry(stream, remote, local, signed, m, env);
        OneEntryChanged(remote);
      }
    }

    function Local(fallback: Address): Address
      reads this`localAddress
    {
      if localAddress.Some? then localAddress.value else fallback
    }

    /** A message from an address without a stream: only a DIAL does anything. */
    method OnNoEntry(remote: Address, m: Payload, env: Env) returns (sent: set<Payload>, poll: Poll)
      requires Valid() && remote !in streams && (env.addressKnown <==> localAddress.Some?)
      modifies this`streams
      ensures Valid()
      ensures var h := Handle(None, Local(remote), remote, myKey, m, env);
              && sent == h.sent && poll == h.poll
              && Entries() == if h.entry.Some? then old(Entries())[remote := h.entry.value] else old(Entries())
    {
      hide OpenListening, VeilidStream.Valid;
      sent, poll := {}, Pending;
      if localAddress.None? {
        poll := Ended;
      } else if KindOf(m.data) == KDial {
        var created;
        created, sent := OpenStream(localAddress.value, remote, m, env);
        if created {
          poll := Incoming;
          OneEntryChanged(remote);
        }
      }
    }

    /** Checks the signature against the bound key, then binds the peer's id if none is bound. */
    method RefreshId(stream: VeilidStream, m: Payload) returns (signed: bool)
      requires stream.Valid()
      modifies stream`remoteStreamId
      ensures stream.Valid()
      ensures signed == IsSigned(Some(old(stream.State())), m)
      ensures stream.State() == Refresh(old(stream.State()), m)
    {
      signed := stream.remotePublicKey == Some(m.signer);
      if stream.remoteStreamId == 0 {
        stream.remoteStreamId := m.streamId;
      }
    }

    /** A message from an address with a stream. */
    method OnKnownEntry(remote: Address, m: Payload, env: Env) returns (sent: set<Payload>, poll: Poll)
      requires Valid() && remote in streams && (env.addressKnown <==> localAddress.Some?)
      modifies this`streams, streams[remote]
      ensures Valid()
      ensures var h := Handle(Some(old(streams[remote].State())), Local(remote), remote, myKey, m, env);
              sent == h.sent && poll == h.poll && h.entry.Some? && Entries() == old(Entries())[remote := h.entry.value]
    {
      hide HandleEntry, Refresh, IsSigned, VeilidStream.State, VeilidStream.Valid;
      var stream := streams[remote];
      var signed := RefreshId(stream, m);
      OneEntryChanged(remote);
      ghost var s := streams[remote].State();
      if localAddress.None? {
        sent, poll := {}, Ended;
      } else {
        sent, poll := OnEntry(remote, localAddress.value, signed, m, env);
        UpdateTwice(old(Entries()), remote, s, Entries()[remote]);
      }
    }

    /**
     * The `AppMessage` branch of `convert_update`: the entry of the sender's address becomes
     * what the handler makes of it, and every other entry stays. An address that does not
     * parse makes the handler panic before anything is touched.
     */
    method ConvertUpdate(m: Payload, env: Env) returns (sent: set<Payload>, poll: Poll)
      requires Valid() && (env.addressKnown <==> localAddress.Some?)
      modifies this`streams, streams.Values
      ensures Valid()
      ensures match Parse(m.address)
              case None => sent == {} && Entries() == old(Entries())
              case Some(remote) =>
                var h := Handle(Get(old(Entries()), remote), Local(remote), remote, myKey, m, env);
                && sent == h.sent && poll == h.poll
                && Entries() == if h.entry.Some? then old(Entries())[remote := h.entry.value] else old(Entries())
    {
      hide Handle, VeilidStream.Valid, VeilidStream.State;
      match Parse(m.address)
      case None => sent, poll := {}, Pending;
      case Some(remote) =>
        if remote in streams {
          sent, poll := OnKnownEntry(remote, m, env);
        } else {
          sent, poll := OnNoEntry(remote, m, env);
        }
    }

    /** Puts a new stream in the map, over an old one if there is one. */
    method InsertDialing(remote: Address, local: Address, env: Env) returns (sent: set<Payload>)
      requires Valid()
      modifies this`streams
      ensures Valid()
      ensures var s := DialEntry(local, remote, myKey, env);
              sent == {DialMessage(s)} && Entries() == old(Entries())[remote := s]
    {
      hide NewStream, VeilidStream.State, VeilidStream.Valid;
      var stream := new VeilidStream(local, remote, 0, myKey, env.now, env.wall);
      streams := streams[remote := stream];
      OneEntryChanged(remote);
      var hello := stream.SendDial();
      sent := {hello};
    }

    /** `dial`: refused while the peer's stream is in Listen, otherwise it opens a fresh stream. */
    method Dial(remote: Address, env: Env) returns (ok: bool, sent: set<Payload>)
      requires Valid()
      modifies this`streams
      ensures Valid()
      ensures ok == (localAddress.Some? && !DialRefused(Get(old(Entries()), remote)) && env.reachable)
      ensures !ok ==> sent == {} && Entries() == old(Entries())
      ensures ok ==>
                var s := DialEntry(localAddress.value, remote, myKey, env);
                sent == {DialMessage(s)} && Entries() == old(Entries())[remote := s]
    {
      hide NewStream, VeilidStream.Valid;
      if localAddress.None? {
        return false, {};
      }
      if remote in streams && streams[remote].status == Listening {
        return false, {};
      }
      if !env.reachable {
        return false, {};
      }
      sent := InsertDialing(remote, localAddress.value, env);
      ok := true;
    }

    // ---- the heartbeat ----

    /** The heartbeat's work on one stream; false means it has expired and is to be deleted. */
    method Beat(stream: VeilidStream, now: int) returns (keep: bool, sent: set<Payload>)
      requires stream.Valid()
      modifies stream
      ensures stream.Valid()
      ensures Protocol.Beat(keep, stream.State(), sent) == HeartbeatOne(old(stream.State()), now)
    {
      hide Generate, Sent, Outgoing;
      keep, sent := true, {};
      var active := stream.IsActive(now);
      if active {
        ghost var s := stream.State();
        var status := stream.SendStatusIfStale(now);
        stream.GenerateMessages();
        assert stream.State() == Generated(s);
        var data := stream.SendMessages(now);
        return true, status + data;
      }
      var expired := stream.IsExpired(now);
      if expired {
        return false, {};
      }
      var status := stream.GetStatus(now);
      match status
      case Dialing =>
        var hello := stream.SendDial();
        sent := {hello};
      case Listening =>
        var hello := stream.SendListen();
        sent := {hello};
      case _ =>
    }

    /** Visits every stream once and collects the expired ones. */
    method BeatAll(now: int) returns (toDelete: set<Address>, sent: set<Payload>)
      requires Valid()
      modifies streams.Values
      ensures Valid()
      ensures Entries() == map a | a in old(Entries()) :: HeartbeatOne(old(Entries())[a], now).stream
      ensures toDelete == set a | a in old(Entries()) && !HeartbeatOne(old(Entries())[a], now).keep
      ensures sent == SentFor(old(Entries()), old(Entries()).Keys, now)
    {
      hide HeartbeatOne, SentFor, VeilidStream.Valid, VeilidStream.State;
      ghost var before := Entries();
      toDelete, sent := {}, {};
      var todo := streams.Keys;
      ghost var done: set<Address> := {};
      SentForNone(before, now);
      while todo != {}
        invariant todo + done == streams.Keys == before.Keys && todo !! done && Valid()
        invariant forall a :: a in todo ==> streams[a].State() == before[a]
        invariant forall a :: a in done ==> streams[a].State() == HeartbeatOne(before[a], now).stream
        invariant toDelete == set a | a in done && !HeartbeatOne(before[a], now).keep
        invariant sent == SentFor(before, done, now)
      {
        var a :| a in todo;
        SentForOneMore(before, done, a, now);
        var keep, out := Beat(streams[a], now);
        if !keep {
          toDelete := toDelete + {a};
        }
        sent := sent + out;
        todo, done := todo - {a}, done + {a};
      }
    }

    /**
     * The stream part of the heartbeat at one sampled time: each stream sends what its state
     * calls for, and the streams not refreshed within the timeout are deleted.
     */
    method Heartbeat(now: int) returns (sent: set<Payload>)
      requires Valid()
      modifies this`streams, streams.Values
      ensures Valid()
      ensures var before := old(Entries());
              && Entries() == (map a | a in before && HeartbeatOne(before[a], now).keep ::
                               HeartbeatOne(before[a], now).stream)
              && sent == (set a, m | a in before && m in HeartbeatOne(before[a], now).sent :: m)
    {
      hide HeartbeatOne, VeilidStream.Valid, VeilidStream.State;
      var toDelete;
      toDelete, sent := BeatAll(now);
      streams := streams - toDelete;
    }
  }
}
