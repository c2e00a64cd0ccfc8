/** The protobuf payload: its size on the wire and how the receiver tells message kinds apart. */
module Wire {
  import opened Bytes
  import opened Framing
  import opened Address

  /** A public key is named by its protobuf encoding. */
  type PublicKey = seq<byte>

  /** A decoded payload. The signature is replaced by the key that made it. */
  datatype Payload = Payload(
    receivedSeq: nat, msgSeq: nat, streamId: nat, signer: PublicKey, address: string, data: seq<byte>)

  const DIAL: seq<byte> := [0x44, 0x49, 0x41, 0x4C]
  const LISTEN: seq<byte> := [0x4C, 0x49, 0x53, 0x54, 0x45, 0x4E]
  const STATUS: seq<byte> := [0x53, 0x54, 0x41, 0x54, 0x55, 0x53]
  const PING: seq<byte> := [0x50, 0x49, 0x4E, 0x47]

  datatype Kind = KDial | KListen | KStatus | KPing | KData

  /** The kind of a message is read off the first bytes of its data. */
  function KindOf(data: seq<byte>): Kind {
    if DIAL <= data then KDial
    else if LISTEN <= data then KListen
    else if STATUS <= data then KStatus
    else if PING <= data then KPing
    else KData
  }

  function Ascii(text: string): (b: seq<byte>)
    requires forall i :: 0 <= i < |text| ==> text[i] < 128 as char
    ensures |b| == |text| && forall i :: 0 <= i < |b| ==> b[i] as int == text[i] as int
  {
    seq(|text|, i requires 0 <= i < |text| => (text[i] as int) as byte)
  }

  lemma TagText()
    ensures DIAL == Ascii("DIAL") && LISTEN == Ascii("LISTEN") && STATUS == Ascii("STATUS") && PING == Ascii("PING")
  {
  }

  /** The kind of a message is the word its data begins with; with none of the four it is data. */
  lemma KindIsFirstWord(data: seq<byte>)
    ensures KindOf(data) == KDial <==> Ascii("DIAL") <= data
    ensures KindOf(data) == KListen <==> Ascii("LISTEN") <= data
    ensures KindOf(data) == KStatus <==> Ascii("STATUS") <= data
    ensures KindOf(data) == KPing <==> Ascii("PING") <= data
  {
    TagText();
    var d, l, s, p := Ascii("DIAL"), Ascii("LISTEN"), Ascii("STATUS"), Ascii("PING");
    assert d[0] != l[0] && d[0] != s[0] && d[0] != p[0] && l[0] != s[0] && l[0] != p[0] && s[0] != p[0];
  }

  /** What is left of a DIAL or LISTEN message after its tag. */
  function KeyBytes(data: seq<byte>): PublicKey {
    if DIAL <= data then data[4..] else if LISTEN <= data then data[6..] else []
  }

  lemma KindOfControl(key: PublicKey)
    ensures KindOf(DIAL + key) == KDial && KeyBytes(DIAL + key) == key
    ensures KindOf(LISTEN + key) == KListen && KeyBytes(LISTEN + key) == key
    ensures KindOf(STATUS) == KStatus
  {
    var d, l := DIAL + key, LISTEN + key;
    assert d[..4] == DIAL && d[4..] == key;
    assert l[..6] == LISTEN && l[6..] == key && l[0] != DIAL[0];
    assert STATUS[0] != DIAL[0] && STATUS[0] != LISTEN[0];
  }

  /** A packet that starts at a frame header is data when the write is below 0x47000000 bytes. */
  lemma FrameAlignedIsData(ws: seq<seq<byte>>, packet: seq<byte>)
    requires packet <= Framed(ws) && |packet| >= 4 && |ws[0]| < 0x4700_0000
    ensures KindOf(packet) == KData
  {
    assert Framed(ws)[..4] == ToLe(|ws[0]|);
    assert packet[3] == ToLe(|ws[0]|)[3];
    assert packet[3] < 0x47;
    assert DIAL[3] == 0x4C && LISTEN[3] == 0x54 && STATUS[3] == 0x54 && PING[3] == 0x47;
  }

  /** Every packet mistaken for control has, read as a header, a length of at least 0x47000000. */
  lemma ControlLooksLarge(packet: seq<byte>)
    requires KindOf(packet) != KData
    ensures |packet| >= 4 && FromLe(packet) >= 0x4700_0000
  {
    assert DIAL[3] == 0x4C && LISTEN[3] == 0x54 && STATUS[3] == 0x54 && PING[3] == 0x47;
    assert packet[3] >= 0x47;
  }

  // ---- encoded size (Base 128 Varints and Message Structure, Protocol Buffers Encoding) ----

  const NETWORK_LIMIT: nat := 32768

  function Varint(n: nat): (b: seq<byte>)
    ensures |b| >= 1
  {
    if n < 128 then [n as byte] else [(128 + n % 128) as byte] + Varint(n / 128)
  }

  function Pow128(k: nat): nat { if k == 0 then 1 else 128 * Pow128(k - 1) }

  lemma {:induction false} VarintSize(n: nat, k: nat)
    requires k >= 1
    ensures |Varint(n)| <= k <==> n < Pow128(k)
  {
    if k == 1 {
      assert Pow128(1) == 128 * Pow128(0);
    } else if n >= 128 {
      VarintSize(n / 128, k - 1);
    } else {
      Pow128Grows(k);
    }
  }

  lemma {:induction false} Pow128Grows(k: nat)
    requires k >= 1
    ensures Pow128(k) >= 128
  {
    if k == 1 {
      assert Pow128(1) == 128 * Pow128(0);
    } else {
      Pow128Grows(k - 1);
    }
  }

  function VarintField(number: nat, v: nat): seq<byte>
    requires 1 <= number <= 15
  {
    if v == 0 then [] else [(8 * number) as byte] + Varint(v)
  }

  function BytesField(number: nat, b: seq<byte>): seq<byte>
    requires 1 <= number <= 15
  {
    if b == [] then [] else [(8 * number + 2) as byte] + Varint(|b|) + b
  }

  function TextBytes(s: string): (b: seq<byte>)
    ensures |b| == |s|
  {
    seq(|s|, i requires 0 <= i < |s| => (s[i] as int % 256) as byte)
  }

  /** The six fields in tag order; default values are not written. */
  function Encode(m: Payload, signature: seq<byte>): seq<byte> {
    VarintField(1, m.receivedSeq) + VarintField(2, m.msgSeq) + VarintField(3, m.streamId)
    + BytesField(4, signature) + BytesField(5, TextBytes(m.address)) + BytesField(6, m.data)
  }

  lemma BytesFieldSize(number: nat, b: seq<byte>)
    requires 1 <= number <= 15 && 1 <= |b| < 0x20_0000
    ensures |BytesField(number, b)| == |b| + 1 + (if |b| < 128 then 1 else if |b| < 16384 then 2 else 3)
  {
    Pow128Table();
    VarintSize(|b|, 1);
    VarintSize(|b|, 2);
    VarintSize(|b|, 3);
  }

  lemma Pow128Table()
    ensures Pow128(1) == 128 && Pow128(2) == 16384 && Pow128(3) == 0x20_0000
    ensures Pow128(4) == 0x1000_0000 && Pow128(5) == 0x8_0000_0000
    ensures Pow128(7) == 0x2_0000_0000_0000 && Pow128(8) == 0x100_0000_0000_0000
  {
    assert Pow128(1) == 128 * Pow128(0);
    assert Pow128(2) == 128 * Pow128(1);
    assert Pow128(3) == 128 * Pow128(2);
    assert Pow128(4) == 128 * Pow128(3);
    assert Pow128(5) == 128 * Pow128(4);
    assert Pow128(6) == 128 * Pow128(5);
    assert Pow128(7) == 128 * Pow128(6);
    assert Pow128(8) == 128 * Pow128(7);
  }

  /** A message `send_messages` may have to encode: a 64-byte signature and u32 sequence numbers. */
  predicate Sendable(m: Payload, signature: seq<byte>, from: Address) {
    m.receivedSeq < U32 && m.msgSeq < U32 && |signature| == 64 && m.address == ToMultiaddr(from)
  }

  /** The limit on a packet's data leaves room for every header with a stream id below 2^56. */
  lemma WireBudget(m: Payload, signature: seq<byte>, from: Address)
    requires Sendable(m, signature, from) && PacketSized(m.data) && m.streamId < 0x100_0000_0000_0000
    ensures |Encode(m, signature)| <= NETWORK_LIMIT
  {
    Pow128Table();
    VarintSize(m.receivedSeq, 5);
    VarintSize(m.msgSeq, 5);
    VarintSize(m.streamId, 8);
    MultiaddrLength(from);
    BytesFieldSize(4, signature);
    BytesFieldSize(5, TextBytes(m.address));
    BytesFieldSize(6, m.data);
  }

  /**
   * The margin of 145 bytes is tight: once both sequence numbers need five bytes, a full packet
   * from an `Unsafe` address fits exactly when the stream id is below 2^56.
   */
  lemma WireBudgetTight(m: Payload, signature: seq<byte>, from: Address)
    requires Sendable(m, signature, from) && from.Unsafe? && |m.data| == PACKET_LIMIT
    requires m.receivedSeq >= 0x1000_0000 && m.msgSeq >= 0x1000_0000
    ensures |Encode(m, signature)| <= NETWORK_LIMIT <==> m.streamId < 0x100_0000_0000_0000
    ensures 0x2_0000_0000_0000 <= m.streamId < 0x100_0000_0000_0000 ==> |Encode(m, signature)| == NETWORK_LIMIT
  {
    Pow128Table();
    VarintSize(m.receivedSeq, 4);
    VarintSize(m.receivedSeq, 5);
    VarintSize(m.msgSeq, 4);
    VarintSize(m.msgSeq, 5);
    VarintSize(m.streamId, 7);
    VarintSize(m.streamId, 8);
    MultiaddrLength(from);
    BytesFieldSize(4, signature);
    BytesFieldSize(5, TextBytes(m.address));
    BytesFieldSize(6, m.data);
  }
}
