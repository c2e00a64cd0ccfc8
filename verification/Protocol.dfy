/**
 * One stream and one listener entry as values: what each operation of `VeilidStream`,
 * of the message handler and of the heartbeat does to them.
 * Times are nanoseconds of the monotonic clock.
 */
module Protocol {
  import opened Bytes
  import opened Framing
  import opened Address
  import opened Wire

  const SECOND: int := 1_000_000_000
  const MESSAGE_RETRY_TIMEOUT: int := 5 * SECOND
  const KEEPALIVE_TIMEOUT: int := 5 * SECOND
  const STREAM_TIMEOUT: int := 20 * SECOND
  const WINDOW: nat := 20

  datatype Status = Dialing | Listening | Active | Expired

  /** Who the stream connects and how far the handshake got. */
  datatype Control = Control(
    myId: nat, remoteId: nat, localAddress: Address, remoteAddress: Address,
    myKey: PublicKey, remoteKey: Option<PublicKey>, status: Status)

  /**
   * The inbound half. The last three are history, read by no branch: the bytes ever appended
   * to `buffer`, those ever read by the application, and how many payload bytes the early
   * return of `update_inbound_stream` has dropped.
   */
  datatype Inbound = Inbound(
    stream: seq<byte>, buffer: seq<byte>, received: nat, queue: map<nat, seq<byte>>, lastHeard: int,
    accepted: seq<byte>, read: seq<byte>, dropped: nat)

  datatype OutboundMessage = OutboundMessage(number: nat, data: seq<byte>, lastTry: Option<int>)

  /**
   * The outbound half. The last three are history: the writes, the packets in number order,
   * and the times each number was sent.
   */
  datatype Outbound = Outbound(
    stream: seq<byte>, queue: map<nat, OutboundMessage>, lastSeq: nat, delivered: nat, lastSent: int,
    writes: seq<seq<byte>>, packets: seq<seq<byte>>, sends: map<nat, seq<int>>)

  datatype Stream = Stream(ctl: Control, inb: Inbound, out: Outbound)

  function NewStream(local: Address, remote: Address, remoteId: nat, key: PublicKey, now: int, wall: nat): Stream {
    Stream(
      Control(wall, remoteId, local, remote, key, None, Dialing),
      Inbound([], [], 0, map[], now, [], [], 0),
      Outbound([], map[], 0, 0, now, [], [], map[]))
  }

  // ---- liveness ----

  predicate Fresh(s: Stream, now: int) { s.inb.lastHeard > now - STREAM_TIMEOUT }

  predicate IsActive(s: Stream, now: int) { s.ctl.status == Active && Fresh(s, now) }

  predicate IsExpired(s: Stream, now: int) { s.ctl.status != Expired && !Fresh(s, now) }

  function GetStatus(s: Stream, now: int): Status {
    if s.ctl.status == Active && !Fresh(s, now) then Expired else s.ctl.status
  }

  function WithStatus(s: Stream, status: Status): Stream { s.(ctl := s.ctl.(status := status)) }

  function WithRemoteId(s: Stream, id: nat): Stream { s.(ctl := s.ctl.(remoteId := id)) }

  function WithRemoteKey(s: Stream, key: PublicKey): Stream { s.(ctl := s.ctl.(remoteKey := Some(key))) }

  function HeardAt(s: Stream, now: int): Stream { s.(inb := s.inb.(lastHeard := now)) }

  // ---- inbound ----

  /** The contiguous run of parked packets after number n. */
  datatype Drained = Drained(end: nat, queue: map<nat, seq<byte>>, bytes: seq<byte>)

  function Drain(queue: map<nat, seq<byte>>, n: nat): Drained
    decreases |queue.Keys|
  {
    if n + 1 in queue then
      var smaller := queue - {n + 1};
      assert smaller.Keys == queue.Keys - {n + 1};
      var d := Drain(smaller, n + 1);
      Drained(d.end, d.queue, queue[n + 1] + d.bytes)
    else Drained(n, queue, [])
  }

  function UpdateInbound(i: Inbound): Inbound {
    var f := Update(Inflow(i.buffer, i.stream));
    i.(buffer := f.buffer, stream := f.stream, dropped := i.dropped + LostBytes(i.buffer))
  }

  function AppendInbound(i: Inbound, piece: seq<byte>): Inbound {
    i.(buffer := i.buffer + piece, accepted := i.accepted + piece)
  }

  /** Takes the packet that is next in order, and the parked ones that follow it. */
  function Accept(i: Inbound, now: int, data: seq<byte>): Inbound {
    var d := Drain(i.queue, i.received + 1);
    UpdateInbound(AppendInbound(i, data + d.bytes)).(received := d.end, queue := d.queue, lastHeard := now)
  }

  function Park(i: Inbound, number: nat, data: seq<byte>): Inbound {
    if i.received + 1 < number < i.received + WINDOW then i.(queue := i.queue[number := data]) else i
  }

  function RecvMessage(s: Stream, now: int, ack: nat, number: nat, data: seq<byte>): Stream {
    if number != s.inb.received + 1 then s.(inb := Park(s.inb, number, data))
    else if IsActive(s, now) then s.(inb := Accept(s.inb, now, data), out := Acked(s.out, ack))
    else s
  }

  /** What `read_inbound_stream` copies into a buffer of n bytes. */
  function ReadResult(i: Inbound, n: nat): Option<seq<byte>> {
    if i.stream == [] then None else Some(i.stream[..if n <= |i.stream| then n else |i.stream|])
  }

  function Read(i: Inbound, n: nat): Inbound {
    match ReadResult(i, n)
    case None => i
    case Some(data) => i.(stream := i.stream[|data|..], read := i.read + data)
  }

  // ---- outbound ----

  function Write(o: Outbound, data: seq<byte>): Outbound {
    o.(stream := o.stream + Frame(data), writes := o.writes + [data])
  }

  function NextSeq(n: nat): nat { (n + 1) % U32 }

  /** One round of the loop in `generate_messages`. */
  function GenerateOne(o: Outbound): Outbound
    requires o.stream != []
  {
    var data := Chunk(o.stream);
    var number := NextSeq(o.lastSeq);
    o.(stream := o.stream[|data|..], lastSeq := number,
       queue := o.queue[number := OutboundMessage(number, data, None)], packets := o.packets + [data])
  }

  function Generate(o: Outbound): Outbound
    decreases |o.stream|
  {
    if o.stream == [] then o else Generate(GenerateOne(o))
  }

  /** The packets cut so far and those the waiting bytes would be cut into now. */
  function Plan(o: Outbound): seq<seq<byte>> { o.packets + Chunks(o.stream) }

  function Acked(o: Outbound, ack: nat): Outbound {
    o.(delivered := ack, queue := map k | k in o.queue && k > ack :: o.queue[k])
  }

  predicate IsDue(m: OutboundMessage, now: int) {
    m.lastTry == None || now - m.lastTry.value >= MESSAGE_RETRY_TIMEOUT
  }

  function SendsOf(o: Outbound, k: nat): seq<int> { if k in o.sends then o.sends[k] else [] }

  function Sent(o: Outbound, now: int): Outbound {
    o.(queue := map k | k in o.queue ::
         if IsDue(o.queue[k], now) then o.queue[k].(lastTry := Some(now)) else o.queue[k],
       sends := map k | k in o.sends.Keys + o.queue.Keys ::
         if k in o.queue && IsDue(o.queue[k], now) then SendsOf(o, k) + [now] else SendsOf(o, k))
  }

  // ---- messages ----

  function Message(s: Stream, ack: nat, number: nat, data: seq<byte>): Payload {
    Payload(ack, number, s.ctl.myId, s.ctl.myKey, ToMultiaddr(s.ctl.localAddress), data)
  }

  function DialMessage(s: Stream): Payload { Message(s, 0, 0, DIAL + s.ctl.myKey) }

  function ListenMessage(s: Stream): Payload { Message(s, 0, 0, LISTEN + s.ctl.myKey) }

  function StatusMessage(s: Stream): Payload { Message(s, s.inb.received, s.out.lastSeq, STATUS) }

  function StatusIfStale(s: Stream, now: int): set<Payload> {
    if now - s.out.lastSent >= KEEPALIVE_TIMEOUT && IsActive(s, now) then {StatusMessage(s)} else {}
  }

  function DataMessage(s: Stream, k: nat): Payload
    requires k in s.out.queue
  {
    Message(s, s.inb.received, k, s.out.queue[k].data)
  }

  /** What `send_messages` hands to the network. */
  function Outgoing(s: Stream, now: int): set<Payload> {
    set k | k in s.out.queue && IsDue(s.out.queue[k], now) :: DataMessage(s, k)
  }

  function Generated(s: Stream): Stream { s.(out := Generate(s.out)) }

  function AfterSend(s: Stream, now: int): Stream { s.(out := Sent(s.out, now)) }

  /** `generate_messages().send_messages()` */
  function Flush(s: Stream, now: int): Stream { AfterSend(Generated(s), now) }

  function FlushMessages(s: Stream, now: int): set<Payload> { Outgoing(Generated(s), now) }

  // ---- the message handler, for the entry of the sender's address ----

  /**
   * What the outside world answers during one call: the clocks, whether the remote target is
   * found, whether the bytes after a DIAL or LISTEN tag decode to a key, whether this node
   * knows its own address yet.
   */
  datatype Env = Env(now: int, wall: nat, reachable: bool, keyDecodes: bool, addressKnown: bool)

  datatype Poll = Pending | Incoming | Ended

  datatype Handled = Handled(entry: Option<Stream>, sent: set<Payload>, created: bool, poll: Poll)

  function Quiet(s: Stream): Handled { Handled(Some(s), {}, false, Pending) }

  function LearnKey(s: Stream, m: Payload, env: Env): Stream {
    if env.keyDecodes then WithRemoteKey(s, KeyBytes(m.data)) else s
  }

  predicate IsSigned(entry: Option<Stream>, m: Payload) {
    entry.Some? && entry.value.ctl.remoteKey == Some(m.signer)
  }

  /** A stream whose peer id is still 0 takes the id of any message. */
  function Refresh(s: Stream, m: Payload): Stream {
    if s.ctl.remoteId == 0 then WithRemoteId(s, m.streamId) else s
  }

  /** The listener's side of `create_stream` and what follows it. */
  function OpenListening(local: Address, remote: Address, key: PublicKey, m: Payload, env: Env): Stream {
    WithStatus(LearnKey(NewStream(local, remote, m.streamId, key, env.now, env.wall), m, env), Listening)
  }

  function Create(fallback: Option<Stream>, local: Address, remote: Address,
                  key: PublicKey, m: Payload, env: Env): Handled {
    if !env.reachable then Handled(fallback, {}, false, Pending)
    else
      var s := OpenListening(local, remote, key, m, env);
      Handled(Some(s), {ListenMessage(s)}, true, Incoming)
  }

  function HandleDialing(s: Stream, local: Address, remote: Address, m: Payload, env: Env): Handled {
    match KindOf(m.data)
    case KDial =>
      var known := LearnKey(s, m, env);
      (match Compare(remote, local)
       case Less =>
         var t := WithStatus(HeardAt(known, env.now), Dialing);
         Handled(Some(t), {DialMessage(t)}, false, Pending)
       case Equal => Handled(Some(known), {}, false, Ended)
       case Greater =>
         var t := HeardAt(WithStatus(WithRemoteId(known, m.streamId), Listening), env.now);
         Handled(Some(t), {ListenMessage(t)}, false, Incoming))
    case KListen =>
      var t := WithStatus(WithRemoteId(HeardAt(LearnKey(s, m, env), env.now), m.streamId), Active);
      Handled(Some(Flush(t, env.now)), FlushMessages(t, env.now), false, Pending)
    case _ => Quiet(s)
  }

  function HandleListening(s: Stream, signed: bool, m: Payload, env: Env): Handled {
    match KindOf(m.data)
    case KDial =>
      var t := WithRemoteId(s, m.streamId);
      Handled(Some(t), {ListenMessage(t)}, false, Pending)
    case KData =>
      if s.ctl.remoteId == m.streamId && signed then
        Quiet(RecvMessage(WithStatus(s, Active), env.now, m.receivedSeq, m.msgSeq, m.data))
      else Quiet(s)
    case _ => Quiet(s)
  }

  function HandleActive(s: Stream, signed: bool, local: Address, remote: Address,
                        key: PublicKey, m: Payload, env: Env): Handled {
    match KindOf(m.data)
    case KDial =>
      if s.ctl.remoteId < m.streamId then Create(Some(s), local, remote, key, m, env) else Quiet(s)
    case KStatus => Quiet(s.(out := Acked(s.out, m.receivedSeq)))
    case KData =>
      if signed then Quiet(RecvMessage(WithStatus(s, Active), env.now, m.receivedSeq, m.msgSeq, m.data))
      else Quiet(s)
    case _ => Quiet(s)
  }

  function HandleEntry(s: Stream, signed: bool, local: Address, remote: Address,
                       key: PublicKey, m: Payload, env: Env): Handled {
    if s.ctl.remoteId != 0 && m.streamId < s.ctl.remoteId then Quiet(s)
    else
      match s.ctl.status
      case Dialing => HandleDialing(s, local, remote, m, env)
      case Listening => HandleListening(s, signed, m, env)
      case Active => HandleActive(s, signed, local, remote, key, m, env)
      case Expired => Quiet(s)
  }

  /** The `AppMessage` branch of `convert_update`. */
  function Handle(entry: Option<Stream>, local: Address, remote: Address,
                  key: PublicKey, m: Payload, env: Env): Handled {
    var signed := IsSigned(entry, m);
    match entry
    case None =>
      if !env.addressKnown then Handled(None, {}, false, Ended)
      else if KindOf(m.data) == KDial then Create(None, local, remote, key, m, env)
      else Handled(None, {}, false, Pending)
    case Some(before) =>
      var s := Refresh(before, m);
      if !env.addressKnown then Handled(Some(s), {}, false, Ended)
      else HandleEntry(s, signed, local, remote, key, m, env)
  }

  // ---- the heartbeat, for one stream ----

  datatype Beat = Beat(keep: bool, stream: Stream, sent: set<Payload>)

  function HeartbeatOne(s: Stream, now: int): Beat {
    if IsActive(s, now) then Beat(true, Flush(s, now), StatusIfStale(s, now) + FlushMessages(s, now))
    else if IsExpired(s, now) then Beat(false, s, {})
    else
      match GetStatus(s, now)
      case Dialing => Beat(true, s, {DialMessage(s)})
      case Listening => Beat(true, s, {ListenMessage(s)})
      case _ => Beat(true, s, {})
  }

  /** `dial`, once its future has found the remote target. */
  function DialEntry(local: Address, remote: Address, key: PublicKey, env: Env): Stream {
    NewStream(local, remote, 0, key, env.now, env.wall)
  }

  /** `dial` refuses a peer whose stream is waiting in Listen. */
  predicate DialRefused(entry: Option<Stream>) { entry.Some? && entry.value.ctl.status == Listening }
}
