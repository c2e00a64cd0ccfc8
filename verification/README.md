# Verification of libp2p-transport-veilid

The transport turns Veilid's unreliable, unordered `app_message` into a reliable, ordered byte
stream. Writes are framed with a little-endian u32 length and cut into packets of at most 32623
bytes; packets are numbered, kept until acknowledged and sent again every five seconds. The
receiver discards duplicates, parks packets of a 20-number window, drains them in order into a
buffer and takes the frames out of it. A DIAL / LISTEN / data handshake decides who listens and
binds stream ids and keys; a heartbeat resends, acknowledges and expires streams.

This project models those three layers and proves what they are for: two endpoints over a
network that loses, delays, doubles and reorders messages behave, byte for byte, like two FIFO
queues.

## How it is organised

| file | module | content |
|---|---|---|
| Bytes.dfy, Framing.dfy | Bytes, Framing | little-endian headers, frames, packets, incremental deframing |
| Address.dfy, Wire.dfy | Address, Wire | address text and order; message kinds and encoded size |
| Protocol.dfy | Protocol | a stream and a listener entry as values; what every operation does to them |
| VeilidStream.dfy, VeilidConnection.dfy, VeilidListener.dfy | Streams, Connections, Listeners | the objects with fields updated in place, each method proved against Protocol |
| Sender.dfy, Receiver.dfy, Sessions.dfy | Sender, Receiver, Sessions | invariants and whole runs of one half of a stream, of the reorder buffer, of one listener entry |
| Reactions.dfy, Authenticity.dfy | Reactions, Authenticity | what one call does against any message, and whose bytes are accepted in any run |
| Orders.dfy | Orders | which packet boundaries are read whole in every order of arrival, and which in some |
| Network.dfy, NetworkInvariant.dfy, NetworkTheorems.dfy | same names | two endpoints and the network; the invariant of every run; the theorems |
| Reading.dfy | Reading | what the application reads in any run, and exactly when it is everything |
| Deliveries.dfy | Deliveries | which deliveries bring the receiver forward in any run |
| Progress.dfy, Handshake.dfy, Transfer.dfy | Progress, Handshake, Transfer | schedules that deliver everything, that complete the handshake, and that lead from two idle ends to the reader; what makes them impossible |

The system has one stream object per endpoint (one session), each of which lives on after the
heartbeat has removed it from the map, as it does for the connection and the spawned tasks that
hold it. `sent` is the set of everything an end ever sent; a delivery may pick any of it, any
number of times, at any time. Every handler call, heartbeat, spawned task and application call
is one atomic step that samples the clock once; clocks of the two ends are unrelated and never
go back. History fields (`accepted`, `read`, `dropped`, `writes`, `packets`, `sends`, `dialed`,
`listened`) record what happened and are read by no branch. The theorems about the system
assume fewer than 2^32 - 20 packets each way; the increment itself wraps as `fetch_add` does.

## What the code does that its comments do not say

- A call of `update_inbound_stream` that is left with 1 to 3 bytes returns early and loses the
  frames it had taken out (src/stream.rs:518-521). Delivery into the inbound buffer is
  unconditional; delivery to the application is intact exactly when the receive cursor never
  moves across completed payload to a packet boundary that leaves 1 to 3 bytes
  (`Framing.FeedExactly` for one buffer, `Reading.AppStreamExactly` for every run;
  `Orders.SafeForEveryOrder` and `Transfer.SafeForEveryRun` are the condition on the packets
  alone for every schedule, `Orders.SafeForSomeOrder` and `Transfer.EndToEndExactly` for some
  schedule). It therefore
  depends on the order of arrival: `Orders.OrderChangesTheStream` has a family of two writes of
  which arrival in order loses the first and arrival in the opposite order loses none.
  `Framing.FeedCorrectedDeliversAll` shows that `break` instead of `return` needs no condition.
- A packet whose bytes begin with DIAL, LISTEN, STATUS or PING is taken for a control message
  (src/listener.rs:807-817) and never acknowledged, so the stream stalls before it for good
  (`NetworkTheorems.ControlPacketBlocks`). `Progress.DialInsideAWrite` is a family of writes that
  do this, `Progress.RecoversExactly` the exact condition for delivery.
- STATUS does not refresh the inbound timestamp, so a stream that only hears STATUS is deleted
  after 20 seconds (`Sessions.StatusDoesNotKeepAlive`), against the comment at src/lib.rs:76.
- The outbound timestamp is never updated, so a heartbeat sends STATUS exactly when the stream is
  active and was opened at least five seconds ago, whatever else was sent
  (`Sessions.StatusOnEveryBeat`), against the comment at src/lib.rs:74.
- Stored acknowledgements are overwritten by older ones; nothing below depends on them growing.

## Model

| member | source | states |
|---|---|---|
| Bytes.LeRoundTrip | src/stream.rs:788-793 | reading back a u32 header gives the length modulo 2^32, for every length |
| Bytes.LeInverse | src/stream.rs:524-531 | every four header bytes are the header of exactly the length they read as |
| Bytes.FromLeIsLittleEndian | src/stream.rs:524-531 | a header is read as the number whose base-256 digits are its bytes, the least significant first |
| Bytes.ToLeIsLittleEndian | src/stream.rs:788-793 | a header is written with the least significant byte first |
| Framing.FrameLayout | src/stream.rs:785-794 | a frame is the length of the write in four such bytes, followed by the write |
| Framing.DeframeAppend | src/stream.rs:506-562 | deframing a buffer in two pieces gives the frames and leftover of deframing it whole, wherever it is split |
| Framing.RoundTrip | src/stream.rs:785-794 | deframing the framed writes gives back the writes and no leftover, for writes below 2^32 bytes |
| Framing.RoundTripExactly | src/stream.rs:788-794 | a single frame decodes to its write if and only if the write is below 2^32 bytes |
| Framing.PrefixDeframes | src/stream.rs:515-562 | any byte prefix of the framed writes deframes to a prefix of the writes |
| Framing.DeframedIsFramed | src/stream.rs:524-557 | framing the extracted frames again and adding the leftover gives the buffer: deframing loses no byte |
| Framing.ChunksOk | src/stream.rs:818-847 | the packets concatenate to the stream, have 1 to 32623 bytes, and only the last is short |
| Framing.PacketsDeframe | src/stream.rs:785-847 | framing, cutting, concatenating and deframing is the identity on lists of writes |
| Framing.CallExactly | src/stream.rs:516-588 | a call that brings the buffer from packet n to packet m hands over the payload completed between them iff that payload is empty or the boundary after m leaves 0 or at least 4 bytes; otherwise it hands over nothing |
| Framing.FeedAllConserves | src/stream.rs:506-593 | over any series of calls, readable bytes plus dropped bytes are the payload bytes of the whole buffer, and the leftover is that of deframing once |
| Framing.FeedExactly | src/stream.rs:506-593 | the readable stream is that of deframing all pieces at once iff no boundary leaves 1 to 3 bytes after a piece that completed payload; the leftover always is |
| Framing.EarlyReturnLosesAWrite | src/stream.rs:516-521 | for every 32617-byte write followed by another, the reader gets the second without the first |
| Framing.FeedCorrectedDeliversAll | src/stream.rs:516-588 | the corrected variant (`break` for the early return) delivers every complete frame for all boundaries |
| Address.MultiaddrRoundTrip | src/address.rs:211-230 | the text of an address parses to the address without its local extras |
| Address.ParseInverse | src/address.rs:278-301 | a text that parses is the canonical text of what it parses to, so one text names one address |
| Address.ParsesText | src/address.rs:278-301 | `/unix/s:` and `/unix/us:` before a key name the two kinds of address |
| Address.CompareIsByKey | src/address.rs:232-244 | addresses are ordered as the texts of their keys, in dictionary order: at the first difference the smaller character comes first, and a prefix before what it begins |
| Address.CompareOpposite | src/address.rs:232-244 | the order is Equal iff the keys are equal, ignores the address kind and local extras, and is opposite seen from the other end |
| Wire.KindOfControl | src/listener.rs:807-817 | DIAL, LISTEN and STATUS messages are recognised as such and their key bytes recovered, for every key |
| Wire.KindIsFirstWord | src/listener.rs:807-817 | a message is DIAL, LISTEN, STATUS or PING iff its data begins with that word, and data iff with none |
| Wire.FrameAlignedIsData | src/listener.rs:807-817 | a packet starting at the header of a write below 0x47000000 bytes is classified as data |
| Wire.ControlLooksLarge | src/listener.rs:807-817 | whatever is classified as control has, read as a header, a length of at least 0x47000000 |
| Sender.AlignedPacketIsData | src/stream.rs:818-847 | the same for the packets the sender really cuts, at any write boundary of its history |
| Wire.VarintSize | src/stream.rs:879-880 | a varint takes at most k bytes iff the number is below 128^k |
| Wire.WireBudget | src/lib.rs:67-72 | every packet the sender can cut encodes to at most 32768 bytes for a 64-byte signature, u32 numbers, stream ids below 2^56 and both address kinds |
| Wire.WireBudgetTight | src/stream.rs:849-896 | for full packets with five-byte numbers the limit holds iff the stream id is below 2^56, and is reached exactly |
| Sender.GenerateKeeps | src/stream.rs:818-847 | cutting all packets keeps conservation, gap-free numbering and timing, leaves queued packets alone and queues every new one |
| Sender.GeneratePackets | src/stream.rs:825-844 | the loop appends exactly the chunks of the waiting bytes, for any state |
| Sender.AckKeeps | src/stream.rs:624-646 | an acknowledgement of any number, even an older one, keeps the queue a set of original packets and removes none above it |
| Sender.SentKeeps | src/stream.rs:898-925 | a send at a later time keeps sends of one number five seconds apart |
| Sender.SenderRun | src/stream.rs:785-847 | after any mix of writes, cutting, acknowledgements and sends: packets 1 .. last plus the uncut bytes are the framed writes, no gaps, packets of 1 to 32623 bytes, queued copies original |
| Sender.NeverOversize | src/stream.rs:927-931 | in every such run the size panic condition is false |
| Sender.RetransmissionDiscipline | src/stream.rs:898-925 | in every such run two sends of one number are at least 5 s apart, and after a send every queued packet was tried in the last 5 s |
| Sender.SendExactly | src/stream.rs:898-962 | a send hands over exactly the queued packets not tried for five seconds, each with its bytes and the receive cursor as acknowledgement, records just those, and changes nothing else |
| Sender.NumbersWrap | src/stream_seq.rs:29-35 | packets are numbered one by one, modulo 2^32 |
| Receiver.DrainTakesRun | src/stream.rs:454-466 | the drain loop takes exactly the contiguous run and stops at the first missing number |
| Receiver.AcceptAdvances | src/stream.rs:433-477 | an in-order packet moves the cursor to the end of the run, appends exactly those packets, and leaves the rest parked |
| Receiver.AcceptKeeps | src/stream.rs:433-477 | accepting keeps the window invariant, the prefix of the peer's packets and the deframer's books |
| Receiver.ParkKeeps | src/stream.rs:412-432 | parking, discarding and ignoring keep them too |
| Receiver.ParkedBound | src/stream.rs:415-431 | at most 18 packets are parked |
| Receiver.ParksWindow | src/stream.rs:412-431 | of the numbers that are not next, exactly those 2 to 19 above the cursor are parked |
| Receiver.PacketAcknowledges | src/stream.rs:468-477 | an in-order packet in time stores its acknowledgement and leaves exactly the queued packets above it; any other packet leaves the outbound half alone |
| Receiver.ReadKeeps | src/stream.rs:595-622 | reading moves bytes from the readable stream to what was read, losing and reordering none |
| Receiver.ReadTakes | src/stream.rs:595-622 | a read returns the first min(n, available) bytes, and None iff there are none |
| Receiver.AcceptExactly | src/stream.rs:433-477 | an in-order packet adds all payload completed up to the new cursor iff that stop does not lose, on the receiver's own state |
| Receiver.AcceptKeepsData | src/listener.rs:1127-1137 | accepting a packet classified as data keeps every accepted and parked packet one that is classified as data |
| Receiver.ArrivalsSettle | src/stream.rs:410-476 | after any arrivals of the next 19 numbers, repeated and in any order, the cursor is the largest gap-free number and the map holds what lies above it |
| Receiver.ArrivalsExactly | src/stream.rs:388-482 | any arrivals, of any numbers in any order: the reader gains all payload of the newly accepted packets iff no stop of the cursor loses |
| Receiver.SameNumbersSameBytes | src/stream.rs:410-476 | two arrival series with the same numbers leave the same cursor, reorder map, accepted bytes and leftover; if one loses nothing, the readable streams agree iff the other loses nothing |
| Orders.OrderChangesTheStream | src/stream.rs:516-521 | for a 32617-byte write followed by another, the two packets in order give the reader only the second write, in the opposite order both |
| Orders.SafeForEveryOrder | src/stream.rs:410-588 | for a fresh active receiver: every series of arrivals loses nothing iff no cursor move from n to at most n + 19 crosses completed payload to a boundary leaving 1 to 3 bytes |
| Orders.SafeForSomeOrder | src/stream.rs:410-588 | for a fresh active receiver: some series of arrivals accepts all packets and loses nothing iff the cursor has a chain of stops from 0 to the last packet, each move less than 20 and none losing |
| Sessions.HandleMonotone | src/listener.rs:820-1142 | one handler call on any message: the id does not go down and the status climbs, or an Active stream is replaced by one with a larger id; a lower id changes nothing |
| Sessions.SessionMonotone | src/listener.rs:907-1142 | the same over every run without dials in which the entry is not deleted |
| Sessions.NeverExpired | src/listener.rs:876-1008 | no run of handler calls, dials, heartbeats and application calls stores Expired |
| Sessions.HeartbeatPartition | src/lib.rs:425-460 | in every run the heartbeat's three cases are exclusive and exhaustive, and it keeps a stream iff it was refreshed less than 20 s ago |
| Sessions.StatusDoesNotKeepAlive | src/listener.rs:1119-1125 | in every run in which an Active stream receives only STATUS, with any heartbeats, writes, reads and send tasks between, the heartbeat keeps it iff it accepted data less than 20 s ago |
| Sessions.StatusOnEveryBeat | src/stream.rs:699-731 | in every run from the opening of a stream, whatever was sent meanwhile: the heartbeat sends its STATUS iff the stream is active and at least 5 s have passed since it was opened |
| Reactions.UnsignedDataIgnored | src/listener.rs:1050-1056 | data not signed by the bound key changes nothing in any state, whatever its numbers and id |
| Reactions.SignedDataTaken | src/listener.rs:1043-1060 | signed data is received iff the stream is Active and the id not lower, or in Listen and the id equal; it then activates a listener |
| Reactions.StatusTaken | src/listener.rs:1119-1125 | a STATUS acts on an Active stream only: its acknowledgement is stored, exactly the queued packets above it stay, nothing else moves |
| Reactions.PingIgnored | src/listener.rs:1017-1140 | a PING leaves every stream alone |
| Reactions.OnlyDialOpens | src/listener.rs:844-905 | without a stream everything but a DIAL is ignored |
| Reactions.HearsDial | src/listener.rs:844-1113 | a DIAL is answered by LISTEN iff this end listens afterwards, bound to its id; by DIAL iff this end keeps the dialer's role; it opens a new stream iff there is none or an Active one with a lower id, and the target is found |
| Reactions.DialKeepsStream | src/listener.rs:933-1112 | a DIAL that opens none moves only the handshake's fields, and nothing of an Active stream |
| Reactions.HearsListen | src/listener.rs:986-1008 | a LISTEN activates a dialer, refreshed and bound to its id, which cuts and sends what waits; any other stream ignores it |
| Reactions.KeyIsLearned | src/listener.rs:933-1008 | only a dialer learns a key, from a greeting whose key decodes; a new stream takes its DIAL's; a listening or Active stream's key never changes |
| Reactions.Announces | src/listener.rs:876-1008 | a connection is announced iff a dialling or new stream starts to listen; the listener ends iff its address is unknown or both ends have one key |
| Reactions.DialOpens | src/lib.rs:290-351 | a dial is refused iff the stream listens or the target is not found; otherwise the entry is a fresh stream in Dial |
| Reactions.BeatExactly | src/lib.rs:425-460 | the heartbeat removes exactly the streams silent for 20 s, greets again for the others in the handshake, and cuts what an Active one has waiting; its STATUS and packets carry the receive cursor |
| Reactions.SilenceExpires | src/stream.rs:201-283 | what expires a stream is 20 s of silence, and only an Active one then reads as Expired |
| Authenticity.OnlySignedBytes | src/stream.rs:377-386 | in every run of an entry against any messages: the accepted bytes are data messages 1 .. received, in order, each signed by the bound key; so is every parked packet; before Listen or Active nothing is accepted |
| Authenticity.NothingUnsigned | src/listener.rs:766-768 | in every run without a message signed by the bound key nothing is accepted or parked |
| NetworkInvariant.PerformKeeps | src/listener.rs:734-1169 | every step of either end keeps the invariant of both ends |
| NetworkInvariant.HelloToDialer | src/listener.rs:845-1008 | an end without stream or in Dial is only ever sent real DIAL and LISTEN messages |
| NetworkInvariant.DialingHandles | src/listener.rs:933-1008 | the Dial row keeps the invariant, for all three outcomes of the tie-break |
| NetworkInvariant.RecvKeeps | src/stream.rs:388-482 | receiving any packet of the peer keeps both halves of the stream |
| NetworkInvariant.FlushKeeps | src/stream.rs:818-962 | cutting and sending keeps every unreceived packet queued |
| NetworkTheorems.RunInv | src/listener.rs:734-1169 | the invariant holds at the end of every run |
| NetworkTheorems.FifoDelivery | src/stream.rs:388-482 | in every reachable state, both ways: the accepted bytes are the peer's packets 1 .. received, a prefix of what it framed |
| NetworkTheorems.RefinesFifo | src/stream.rs:388-482 | every step of the system is a push, a pop or nothing on two FIFO byte queues |
| Reading.AppStreamExactly | src/connection.rs:46-93 | in every run, at both ends: the readable bytes are all complete writes among the accepted bytes iff no step moved the cursor across completed payload to a boundary leaving 1 to 3 bytes; otherwise they are short by what was dropped |
| Reading.StepCursor | src/stream.rs:388-593 | one step of the system drops bytes iff it moves the cursor that way |
| Reading.AppIntegrity | src/connection.rs:46-93 | in every run with writes below 2^32 bytes, at both ends: without such steps the reader sees a prefix of the peer's writes; once everything is received it sees all of them iff there was no such step |
| Reading.CleanRunLosesNever | src/stream.rs:516-521 | packet boundaries that leave 0 or at least 4 bytes are safe for every schedule |
| Reading.SafeRunLosesNever | src/stream.rs:410-588 | in every run, packets cut as in `Orders.SafeForEveryOrder` are read whole |
| Deliveries.ReceivedExactly | src/stream.rs:388-482 | in every run, at both ends: packets 1 .. n have been accepted iff each was delivered at least once in time, that is to a mapped stream, less than 20 above its cursor, and if next in order before the timeout |
| Deliveries.StepHolds | src/stream.rs:388-482 | a step makes the receiver hold packet k iff it already did or the step delivers k in time; nothing else ever removes or adds one |
| Deliveries.WindowDelivered | src/stream.rs:410-476 | in every run: packets r+1 .. r+n of one window, each delivered at least once to an active receiver that has r, in any order and with anything in between, bring it to r+n |
| Deliveries.InOrderDelivered | src/stream.rs:433-477 | in every run, whatever happens in between: packets r+1 .. r+k delivered in number order to an active receiver that has r bring it to r+k; last - received of them bring it everything |
| NetworkTheorems.NoPacketForgotten | src/stream.rs:624-646 | acknowledgements stored and in flight are at most the peer's cursor, which is at most the last number; every packet in between is queued unchanged |
| NetworkTheorems.ReachableStreams | src/stream.rs:785-962 | window, conservation, packet sizes and send spacing hold in every reachable state of both ends |
| NetworkTheorems.CopiesAgree | src/stream.rs:898-962 | every numbered message ever sent by either end is a STATUS or the packet of its number, with its original 1 to 32623 bytes |
| NetworkTheorems.ControlPacketBlocks | src/listener.rs:807-817 | in every reachable state, both ways: the receiver is never past a packet that reads as a control message |
| NetworkTheorems.SwapReachable | src/listener.rs:734-1169 | the two ends are interchangeable: what holds of one in every reachable state holds of the other |
| NetworkTheorems.AtMostOneListener | src/listener.rs:933-1033 | in every interleaving at most one end ever enters Listen or sends LISTEN; two Active ends have opposite roles |
| NetworkTheorems.TieBreak | src/address.rs:232-244 | when both dialled, the end that listens is the one whose key comes first in the dictionary |
| NetworkTheorems.NewsAcknowledges | src/stream.rs:930-941 | every message any step puts on the network, except a greeting, acknowledges exactly what its sender has accepted by then |
| NetworkTheorems.ApplicationCalls | src/connection.rs:46-93 | reads and writes fail iff the stream was silent for 20 s; a write appends one frame and starts a task iff active; a read takes from the front; neither does anything else |
| NetworkTheorems.WriteIsSent | src/stream.rs:796-815 | a write on an active stream starts a task that cuts all that waits and sends it |
| NetworkTheorems.HandshakeAgreement | src/listener.rs:986-1060 | an Active end has the peer's id and key; a dialer is Active only after the peer listened; a listener is Active and sends data only after the dialer became Active and sent signed data |
| NetworkTheorems.SendersAreFound | src/listener.rs:739-754 | the address in every message of either end parses to the entry of its sender |
| Progress.NextDelivery | src/stream.rs:433-477 | every delivery of the next packet to an active receiver, whatever the environment answers, is accepted and shrinks the distance to the sender's last packet; its acknowledgement leaves exactly the packets above it queued |
| Progress.HeartbeatResends | src/lib.rs:430-434 | every heartbeat of an active end whose queue is all due cuts what waits and puts every unreceived packet on the network |
| Progress.IntervalSuffices | src/stream.rs:898-925 | in every state one retry interval later everything queued is due |
| Progress.StatusArrives | src/listener.rs:1119-1125 | every delivery of a STATUS to an Active sender leaves exactly the queued packets above the acknowledged number, and none if that is the last |
| Progress.Recovers | src/lib.rs:425-460 | from every reachable state with tag-free packets, a sender active until its queue is due and a receiver active to report, some schedule of at most (unreceived + 5) steps delivers every byte written and empties the queue |
| Progress.ControlPacketStops | src/listener.rs:807-817 | if a packet, cut or still to be cut, reads as a control message, no schedule at all delivers everything written |
| Progress.RecoversExactly | src/lib.rs:425-460 | for two ends that stay active as above: everything written can be delivered iff no packet, cut or still to be cut, reads as a control message |
| Progress.DialInsideAWrite | src/listener.rs:807-817 | after a first write with DIAL at offset 32619 nothing is ever readable at the peer, whatever happens |
| Handshake.Connects | src/listener.rs:844-1060 | from every reachable state with a stream and not both ends Active, streams that stay in time and a caller with a data packet: at most four steps make both Active, the caller as dialer; covers lone and simultaneous dials, a lost LISTEN and lost first data, from either end |
| Handshake.SomeCaller | src/address.rs:232-244 | in every such state exactly one end is the caller |
| Handshake.ConnectsFromScratch | src/listener.rs:844-1060 | from two idle ends and any write below 0x47000000 bytes, some run of six steps makes both ends Active with the first packet accepted |
| Transfer.ArrivalsHappen | src/listener.rs:1024-1137 | every series of arrivals of tag-free packets is a schedule of the system, with the same effect on the inbound half, from a listening or active receiver |
| Transfer.EndToEnd | src/connection.rs:46-93 | from two idle ends, for any list of writes whose packets are tag-free and leave the cursor a way past their boundaries, some run lets the peer's application read exactly the writes and leaves the sender's queue empty |
| Transfer.EndToEndExactly | src/connection.rs:46-93 | writes cut at once can reach the reader whole iff their packets are tag-free and the cursor has such a way |
| Transfer.ReadMeansPassable | src/connection.rs:46-93 | the same necessity in every reachable state, however the run cut its packets |
| Transfer.SafeForEveryRun | src/stream.rs:410-588 | for tag-free packets, from two idle ends: every run that cuts them loses nothing iff they are cut as in `Orders.SafeForEveryOrder` |
| Transfer.OneWriteEndToEnd | src/connection.rs:46-93 | a single tag-free write of any length below 2^32 needs no condition on its boundaries: some run lets the peer's application read exactly it |
| Streams.VeilidStream.constructor | src/stream.rs:96-138 | a new stream is in Dial with empty buffers and zero cursors |
| Streams.VeilidStream.IsActive | src/stream.rs:201-224 | Active and refreshed less than 20 s ago |
| Streams.VeilidStream.IsExpired | src/stream.rs:226-249 | not Expired and not refreshed for 20 s |
| Streams.VeilidStream.GetStatus | src/stream.rs:251-283 | the stored status, except that a stale Active reads as Expired |
| Streams.VeilidStream.RecvMessage | src/stream.rs:388-482 | in place: duplicate, parked, ignored or accepted with the run behind it; then the cursor, the packet's own acknowledgement, the queue, the frames and the timestamp |
| Streams.VeilidStream.DrainMessageQueue | src/stream.rs:454-466 | the loop appends the contiguous run and removes it from the map |
| Streams.VeilidStream.TakeCompleteSlices | src/stream.rs:513-562 | the loop takes out every complete frame and reports the early return iff 1 to 3 bytes are left |
| Streams.VeilidStream.UpdateInboundStream | src/stream.rs:506-593 | the buffer keeps the leftover; the readable stream gains the frames unless 1 to 3 bytes are left |
| Streams.VeilidStream.ReadInboundStream | src/stream.rs:595-622 | None iff nothing is readable; otherwise the first min(n, available) bytes are taken from the front |
| Streams.VeilidStream.RemoveSentMessagesFromQueue | src/stream.rs:624-646 | exactly the numbers above the stored acknowledgement stay queued |
| Streams.VeilidStream.SendStatusIfStale | src/stream.rs:699-731 | a STATUS with the inbound cursor and the last number, iff stale and active |
| Streams.VeilidStream.InsertToOutboundStream | src/stream.rs:785-816 | appends the length in four bytes, least significant first, and the data, and asks for a send task iff active |
| Streams.VeilidStream.GenerateMessages | src/stream.rs:818-847 | the loop empties the outbound stream into numbered, queued, untried packets |
| Streams.VeilidStream.SendMessages | src/stream.rs:898-962 | sends each due packet once, acknowledging the current cursor, stamps exactly those, and never reaches the size panic |
| Connections.VeilidConnection.PollRead | src/connection.rs:47-65 | an error iff expired; otherwise bytes from the front, or Pending with the waker stored iff nothing is readable |
| Connections.VeilidConnection.PollWrite | src/connection.rs:69-93 | an error iff expired; otherwise the whole buffer is framed and its length returned |
| Listeners.VeilidListener.OpenStream | src/listener.rs:95-132 | a new stream in Listen replaces the entry iff the target is found, and answers LISTEN |
| Listeners.VeilidListener.OnDialing | src/listener.rs:933-1022 | the Dial row of the table, including the tie-break and the first flush |
| Listeners.VeilidListener.OnListening | src/listener.rs:1024-1064 | the Listen row: LISTEN again, or Active on signed data of the bound id |
| Listeners.VeilidListener.OnActive | src/listener.rs:1114-1141 | the Active row for everything but DIAL |
| Listeners.VeilidListener.Redialled | src/listener.rs:1069-1113 | an Active stream is replaced iff the DIAL has a larger id and the target is found |
| Listeners.VeilidListener.ConvertUpdate | src/listener.rs:734-1169 | the sender's entry becomes what the table says; every other entry is unchanged |
| Listeners.VeilidListener.Dial | src/lib.rs:258-351 | refused iff the address is unknown, the stream is in Listen or the target is not found; otherwise a fresh stream in Dial and one DIAL |
| Listeners.VeilidListener.Beat | src/lib.rs:429-458 | what the heartbeat does to and sends for one stream |
| Listeners.VeilidListener.Heartbeat | src/lib.rs:425-509 | every stream gets its beat, exactly the expired ones are removed, and the messages are the union |

## Left out

- Veilid calls, routes and DHT records (`Address::new_safe`, `update_safe`, `to_target`, `send_message_to_remote`): finding a target is an answer of the environment, sending adds to the set of sent messages.
- Address and target republishing, `send_ping`, PING to oneself, attachment, configuration and route updates: timers around network calls that touch no stream.
- Signatures: a message carries the key that signed it; the network holds only what the two ends sent. Decoding a public key is an answer of the environment, true for the peer's own key.
- The protobuf decoder: messages are records; only the encoder's size is modelled.
- The text checks inside `RecordKey::try_from` and `NodeId::try_from`: a key text is any 43 URL-safe base64 characters. Multiaddr parsing is the identity on these texts.
- Wakers (beyond storing one), tokio scheduling, lock poisoning, logging: every operation is one atomic step. `recv_message` does not hold one lock throughout, so interleavings inside a call are not covered.
- u32 overflow of `inbound_received_seq + 1` and of the window bound: sequence numbers are assumed below 2^32 - 20.
- Several sessions between the same two ends: a second stream object at one end is outside the two-endpoint theorems; `Sessions` covers replacement and expiry of one entry against arbitrary messages.
- The `None` row's PING, which refreshes the local target: no stream is involved.
- Progress.Recovers: says that a schedule exists, not that the scheduler of the system follows it; `Deliveries` says what every run that delivers in time achieves. Its freshness conditions stay: a sender that times out before its queue is due again, or an up-to-date receiver that times out before its STATUS is due, is removed by its heartbeat.
- Handshake.Connects: asks that the open streams do not time out before they can send again, and that the caller has written something that is cut into a data packet, because only signed data activates a listener.
- Sessions.SessionMonotone: leaves out runs in which the entry is deleted or redialled, after which the old id is forgotten.
