/** The application's side of a stream: `poll_read` and `poll_write` of `src/connection.rs`. */
module Connections {
  import opened Bytes
  import opened Protocol
  import opened Streams

  datatype ReadPoll = ReadReady(data: seq<byte>) | ReadPending | ReadInactive

  datatype WritePoll = WriteReady(count: nat) | WriteInactive

  class VeilidConnection {
    const stream: VeilidStream

    constructor (stream: VeilidStream)
      ensures this.stream == stream
    {
      this.stream := stream;
    }

    /** Takes bytes from the front of the readable stream, or leaves the reader to be woken. */
    method PollRead(reader: nat, n: nat, now: int) returns (r: ReadPoll)
      modifies stream`inboundStream, stream`read, stream`waker
      ensures r.ReadInactive? <==> Protocol.IsExpired(old(stream.State()), now)
      ensures r.ReadInactive? ==> stream.State() == old(stream.State()) && stream.waker == old(stream.waker)
      ensures !r.ReadInactive? ==> stream.Inb() == Read(old(stream.Inb()), n)
      ensures r.ReadReady? ==>
                && r.data + stream.inboundStream == old(stream.inboundStream)
                && |r.data| == (if n <= old(|stream.inboundStream|) then n else old(|stream.inboundStream|))
                && stream.read == old(stream.read) + r.data && stream.waker == old(stream.waker)
      ensures r.ReadPending? ==> old(stream.inboundStream) == [] && stream.waker == Some(reader)
    {
      var expired := stream.IsExpired(now);
      if expired {
        return ReadInactive;
      }
      var data := stream.ReadInboundStream(n);
      match data
      case Some(bytes) => r := ReadReady(bytes);
      case None =>
        stream.waker := Some(reader);
        r := ReadPending;
    }

    /** Frames the whole buffer; `spawn` says whether a send task is started. */
    method PollWrite(data: seq<byte>, now: int) returns (r: WritePoll, spawn: bool)
      modifies stream`outboundStream, stream`writes
      ensures r == if Protocol.IsExpired(old(stream.State()), now) then WriteInactive else WriteReady(|data|)
      ensures r.WriteReady? ==>
                stream.Out() == Write(old(stream.Out()), data) && spawn == Protocol.IsActive(old(stream.State()), now)
      ensures r.WriteInactive? ==> stream.Out() == old(stream.Out()) && !spawn
    {
      var expired := stream.IsExpired(now);
      if expired {
        return WriteInactive, false;
      }
      spawn := stream.InsertToOutboundStream(data, now);
      r := WriteReady(|data|);
    }
  }
}
