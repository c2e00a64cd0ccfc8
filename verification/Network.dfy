/**
 * Two endpoints and the network between them, one stream object per endpoint.
 *
 * The network loses, delays, doubles and reorders: `sent` only grows, and a delivery may pick
 * any message ever sent by the peer, at any time and any number of times. Every handler call,
 * heartbeat, spawned send task and application call is one atomic step.
 */
module Network {
  import opened Bytes
  import opened Address
  import opened Wire
  import opened Protocol

  /**
   * `session` is the stream object, kept by the application and by spawned tasks even after the
   * heartbeat has taken it out of the listener's map (`mapped`). `tasks` counts the spawned send
   * tasks still to run. `dialed` and `listened` are history: the stream came from `dial`; the
   * stream has been in Listen.
   */
  datatype Endpoint = Endpoint(
    address: Address, key: PublicKey, session: Option<Stream>, mapped: bool,
    tasks: nat, clock: int, sent: set<Payload>, dialed: bool, listened: bool)

  datatype Action =
    | Dial(env: Env)
    | Deliver(m: Payload, env: Env)
    | Heartbeat
    | AppWrite(data: seq<byte>)
    | AppRead(n: nat)
    | RunTask
    | Tick(d: nat)

  function Entry(e: Endpoint): Option<Stream> { if e.mapped then e.session else None }

  function HandleAt(e: Endpoint, peer: Endpoint, m: Payload, env: Env): Handled {
    Handle(Entry(e), e.address, Canonical(peer.address), e.key, m, env)
  }

  /**
   * One session per endpoint: neither `dial` nor a DIAL may open a second stream. The peer's
   * own key decodes; other bytes after a tag may or may not.
   */
  predicate Enabled(e: Endpoint, peer: Endpoint, action: Action) {
    match action
    case Dial(env) => e.session == None && env.now == e.clock && env.wall > 0 && env.reachable && env.addressKnown
    case Deliver(m, env) =>
      && m in peer.sent && env.now == e.clock && env.wall > 0
      && (KeyBytes(m.data) == peer.key ==> env.keyDecodes)
      && (HandleAt(e, peer, m, env).created ==> e.session == None)
    case Heartbeat => true
    case AppWrite(_) => e.session.Some?
    case AppRead(_) => e.session.Some?
    case RunTask => e.session.Some? && e.tasks > 0
    case Tick(_) => true
  }

  function AfterHandle(e: Endpoint, h: Handled): Endpoint {
    e.(session := if h.entry.Some? then h.entry else e.session,
       mapped := h.entry.Some?,
       sent := e.sent + h.sent,
       listened := e.listened || (h.entry.Some? && h.entry.value.ctl.status == Listening))
  }

  function Perform(e: Endpoint, peer: Endpoint, action: Action): Endpoint
    requires Enabled(e, peer, action)
  {
    match action
    case Dial(env) =>
      var s := DialEntry(e.address, Canonical(peer.address), e.key, env);
      e.(session := Some(s), mapped := true, dialed := true, sent := e.sent + {DialMessage(s)})
    case Deliver(m, env) => AfterHandle(e, HandleAt(e, peer, m, env))
    case Heartbeat =>
      if Entry(e) == None then e
      else
        var beat := HeartbeatOne(e.session.value, e.clock);
        e.(session := Some(beat.stream), mapped := beat.keep, sent := e.sent + beat.sent)
    case AppWrite(data) =>
      var s := e.session.value;
      if IsExpired(s, e.clock) then e
      else e.(session := Some(s.(out := Write(s.out, data))),
              tasks := if IsActive(s, e.clock) then e.tasks + 1 else e.tasks)
    case AppRead(n) =>
      var s := e.session.value;
      if IsExpired(s, e.clock) then e else e.(session := Some(s.(inb := Read(s.inb, n))))
    case RunTask =>
      var s := e.session.value;
      e.(session := Some(Flush(s, e.clock)), tasks := e.tasks - 1, sent := e.sent + FlushMessages(s, e.clock))
    case Tick(d) => e.(clock := e.clock + d)
  }

  datatype System = System(a: Endpoint, b: Endpoint)

  predicate IsIdle(e: Endpoint) {
    e.session == None && !e.mapped && e.tasks == 0 && e.sent == {} && !e.dialed && !e.listened
  }

  predicate Init(s: System) { IsIdle(s.a) && IsIdle(s.b) && s.a.address.key != s.b.address.key }

  /** What a step of end a, or of end b, makes of the system. */
  function ByA(s: System, act: Action): System
    requires Enabled(s.a, s.b, act)
  {
    s.(a := Perform(s.a, s.b, act))
  }

  function ByB(s: System, act: Action): System
    requires Enabled(s.b, s.a, act)
  {
    s.(b := Perform(s.b, s.a, act))
  }

  ghost predicate Step(s: System, t: System) {
    || (exists act :: Enabled(s.a, s.b, act) && t == s.(a := Perform(s.a, s.b, act)))
    || (exists act :: Enabled(s.b, s.a, act) && t == s.(b := Perform(s.b, s.a, act)))
  }

  /** The same system seen from the other end. */
  function Swap(s: System): System { System(s.b, s.a) }

  ghost predicate IsRun(run: seq<System>) {
    && run != []
    && Init(run[0])
    && forall i :: 0 <= i < |run| - 1 ==> Step(run[i], run[i + 1])
  }

  function Packets(e: Endpoint): seq<seq<byte>> { if e.session.Some? then e.session.value.out.packets else [] }

  function Writes(e: Endpoint): seq<seq<byte>> { if e.session.Some? then e.session.value.out.writes else [] }

  function Received(e: Endpoint): nat { if e.session.Some? then e.session.value.inb.received else 0 }

  function Accepted(e: Endpoint): seq<byte> { if e.session.Some? then e.session.value.inb.accepted else [] }

  /** Every packet of e there will be if it writes no more, cut or still to be cut. */
  function Planned(e: Endpoint): seq<seq<byte>> { if e.session.Some? then Plan(e.session.value.out) else [] }

  /** Sequence numbers stay clear of the u32 wrap-around. */
  predicate Bounded(e: Endpoint) { |Packets(e)| < U32 - WINDOW }
}
