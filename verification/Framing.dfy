/**
 * Length framing of application writes, the cutting of framed bytes into packets,
 * and the incremental deframing done by `update_inbound_stream`.
 */
module Framing {
  import opened Bytes

  // transport_stream_packet_data_size_bytes
  const PACKET_LIMIT: nat := 32623

  predicate Short(w: seq<byte>) { |w| < U32 }

  predicate AllShort(ws: seq<seq<byte>>) { forall i :: 0 <= i < |ws| ==> Short(ws[i]) }

  /** What `insert_to_outbound_stream` appends for one write. */
  function Frame(w: seq<byte>): (f: seq<byte>)
    ensures |f| == |w| + 4
  {
    ToLe(|w|) + w
  }

  function Framed(ws: seq<seq<byte>>): seq<byte> {
    if ws == [] then [] else Frame(ws[0]) + Framed(ws[1..])
  }

  /** A frame is its length in four bytes, least significant first, and then the write itself. */
  lemma FrameLayout(w: seq<byte>)
    ensures LeValue(Frame(w)[..4]) == |w| % 0x1_0000_0000 && Frame(w)[4..] == w
  {
    ToLeIsLittleEndian(|w|);
    assert Frame(w)[..4] == ToLe(|w|);
  }

  /** The complete frames at the front of a buffer and the bytes left after them. */
  datatype Deframed = Deframed(frames: seq<seq<byte>>, rest: seq<byte>)

  function Deframe(buf: seq<byte>): Deframed
    decreases |buf|
  {
    if |buf| >= 4 && |buf| >= FromLe(buf) + 4 then
      var end := FromLe(buf) + 4;
      var tail := Deframe(buf[end..]);
      Deframed([buf[4..end]] + tail.frames, tail.rest)
    else
      Deframed([], buf)
  }

  /** `update_inbound_stream` returns early, dropping what it drained, on such a leftover. */
  predicate Stalls(rest: seq<byte>) { 1 <= |rest| <= 3 }

  lemma {:induction false} FramedAppend(a: seq<seq<byte>>, b: seq<seq<byte>>)
    ensures Framed(a + b) == Framed(a) + Framed(b)
  {
    if a == [] {
      assert a + b == b;
    } else {
      assert (a + b)[1..] == a[1..] + b;
      FramedAppend(a[1..], b);
    }
  }

  lemma FramedSnoc(a: seq<seq<byte>>, w: seq<byte>)
    ensures Framed(a + [w]) == Framed(a) + Frame(w)
  {
    FramedAppend(a, [w]);
    assert [w][1..] == [];
  }

  lemma HeaderOfAppend(a: seq<byte>, b: seq<byte>)
    requires |a| >= 4
    ensures FromLe(a + b) == FromLe(a)
  {
  }

  /** The unfolding of Deframe on a buffer that starts with a complete frame. */
  lemma DeframeOne(buf: seq<byte>, end: nat)
    requires 4 <= end <= |buf| && end == FromLe(buf) + 4
    ensures Deframe(buf) == Deframed([buf[4..end]] + Deframe(buf[end..]).frames, Deframe(buf[end..]).rest)
  {
  }

  predicate HasFrame(buf: seq<byte>) { |buf| >= 4 && |buf| >= FromLe(buf) + 4 }

  lemma DeframeNone(buf: seq<byte>)
    requires !HasFrame(buf)
    ensures Deframe(buf) == Deframed([], buf)
  {
  }

  /** Deframing can be done in two steps, whatever the boundary between them. */
  lemma {:induction false} DeframeAppend(a: seq<byte>, b: seq<byte>)
    ensures var d := Deframe(a);
            var e := Deframe(d.rest + b);
            Deframe(a + b) == Deframed(d.frames + e.frames, e.rest)
    decreases |a|
  {
    hide Deframe, FromLe;
    if HasFrame(a) {
      var end := FromLe(a) + 4;
      DeframeOne(a, end);
      HeaderOfAppend(a, b);
      DeframeOne(a + b, end);
      assert (a + b)[end..] == a[end..] + b;
      assert (a + b)[4..end] == a[4..end];
      DeframeAppend(a[end..], b);
      var d := Deframe(a[end..]);
      var e := Deframe(d.rest + b);
      assert [a[4..end]] + (d.frames + e.frames) == ([a[4..end]] + d.frames) + e.frames;
    } else {
      DeframeNone(a);
      assert [] + Deframe(a + b).frames == Deframe(a + b).frames;
    }
  }

  lemma {:induction false} RestIsDeframed(buf: seq<byte>)
    ensures Deframe(Deframe(buf).rest) == Deframed([], Deframe(buf).rest)
    decreases |buf|
  {
    hide Deframe, FromLe;
    if HasFrame(buf) {
      DeframeOne(buf, FromLe(buf) + 4);
      RestIsDeframed(buf[FromLe(buf) + 4..]);
    } else {
      DeframeNone(buf);
    }
  }

  lemma HeaderOfFrame(w: seq<byte>, tail: seq<byte>)
    ensures FromLe(Frame(w) + tail) == |w| % U32
  {
    LeRoundTrip(|w|);
    var buf := Frame(w) + tail;
    assert buf[..4] == ToLe(|w|);
    HeaderOfAppend(ToLe(|w|), buf[4..]);
    assert ToLe(|w|) + buf[4..] == buf;
  }

  lemma DeframeFrame(w: seq<byte>, tail: seq<byte>)
    requires Short(w)
    ensures Deframe(Frame(w) + tail) == Deframed([w] + Deframe(tail).frames, Deframe(tail).rest)
  {
    hide Deframe, FromLe;
    var buf := Frame(w) + tail;
    HeaderOfFrame(w, tail);
    DeframeOne(buf, |w| + 4);
    assert buf[4..|w| + 4] == w;
    assert buf[|w| + 4..] == tail;
  }

  /** Whole-buffer deframing gives back the writes, and nothing is left over. */
  lemma {:induction false} RoundTrip(ws: seq<seq<byte>>)
    requires AllShort(ws)
    ensures Deframe(Framed(ws)) == Deframed(ws, [])
  {
    if ws != [] {
      RoundTrip(ws[1..]);
      DeframeFrame(ws[0], Framed(ws[1..]));
      assert [ws[0]] + ws[1..] == ws;
    }
  }

  /** One frame decodes to the write it carries exactly when the u32 header does not truncate. */
  lemma RoundTripExactly(w: seq<byte>)
    ensures Deframe(Frame(w)) == Deframed([w], []) <==> Short(w)
  {
    hide Deframe, FromLe;
    assert Frame(w) + [] == Frame(w);
    if Short(w) {
      DeframeFrame(w, []);
      DeframeNone([]);
    } else {
      HeaderOfFrame(w, []);
      DeframeOne(Frame(w), |w| % U32 + 4);
      assert |Deframe(Frame(w)).frames[0]| == |w| % U32;
    }
  }

  /** Any byte prefix of the framed writes deframes to a prefix of the writes. */
  lemma PrefixDeframes(ws: seq<seq<byte>>, p: seq<byte>)
    requires AllShort(ws) && p <= Framed(ws)
    ensures Deframe(p).frames <= ws
    ensures p == Framed(ws) ==> Deframe(p) == Deframed(ws, [])
  {
    RoundTrip(ws);
    var q := Framed(ws)[|p|..];
    assert p + q == Framed(ws);
    DeframeAppend(p, q);
  }

  /** A deframed prefix is the framing of its frames, followed by the rest. */
  lemma {:induction false} DeframedIsFramed(buf: seq<byte>)
    ensures Framed(Deframe(buf).frames) + Deframe(buf).rest == buf
    decreases |buf|
  {
    hide Deframe, FromLe, ToLe;
    if HasFrame(buf) {
      var end := FromLe(buf) + 4;
      DeframeOne(buf, end);
      DeframedIsFramed(buf[end..]);
      var w, d := buf[4..end], Deframe(buf[end..]);
      LeInverse(buf[..4]);
      HeaderOfAppend(buf[..4], buf[4..]);
      assert buf[..4] + buf[4..] == buf;
      assert Frame(w) == buf[..end];
      assert ([w] + d.frames)[1..] == d.frames;
      assert Frame(w) + (Framed(d.frames) + d.rest) == buf;
    } else {
      DeframeNone(buf);
    }
  }

  lemma FramedOne(w: seq<byte>)
    ensures Framed([w]) == Frame(w)
  {
    FramedSnoc([], w);
    assert [] + [w] == [w] && [] + Frame(w) == Frame(w);
  }

  /** A frame is extracted only when its last byte is there. */
  lemma PartOfAFrame(w: seq<byte>, p: seq<byte>)
    requires Short(w) && p < Frame(w)
    ensures Deframe(p) == Deframed([], p)
  {
    hide Deframe, Framed, Frame;
    FramedOne(w);
    PrefixDeframes([w], p);
    DeframedIsFramed(p);
    var d := Deframe(p);
    assert |Framed(d.frames)| < |Framed([w])|;
    assert |d.frames| == 1 ==> d.frames == [w];
    DeframeNoFrames(p);
  }

  lemma DeframeNoFrames(p: seq<byte>)
    requires Deframe(p).frames == []
    ensures Deframe(p) == Deframed([], p)
  {
  }

  // ---- cutting into packets ----

  predicate PacketSized(p: seq<byte>) { 1 <= |p| <= PACKET_LIMIT }

  function Chunk(s: seq<byte>): (c: seq<byte>)
    requires s != []
    ensures PacketSized(c) && c <= s
  {
    if |s| <= PACKET_LIMIT then s else s[..PACKET_LIMIT]
  }

  function Chunks(s: seq<byte>): seq<seq<byte>>
    decreases |s|
  {
    if s == [] then [] else [Chunk(s)] + Chunks(s[|Chunk(s)|..])
  }

  lemma {:induction false} ChunksOk(s: seq<byte>)
    ensures Flatten(Chunks(s)) == s
    ensures forall i :: 0 <= i < |Chunks(s)| ==> PacketSized(Chunks(s)[i])
    ensures forall i :: 0 <= i < |Chunks(s)| - 1 ==> |Chunks(s)[i]| == PACKET_LIMIT
    decreases |s|
  {
    if s != [] {
      var c := Chunk(s);
      ChunksOk(s[|c|..]);
      assert Chunks(s)[1..] == Chunks(s[|c|..]);
      assert c + s[|c|..] == s;
    }
  }

  /** Writes framed, cut into packets, concatenated and deframed come back unchanged. */
  lemma PacketsDeframe(ws: seq<seq<byte>>)
    requires AllShort(ws)
    ensures Deframe(Flatten(Chunks(Framed(ws)))) == Deframed(ws, [])
  {
    ChunksOk(Framed(ws));
    RoundTrip(ws);
  }

  /** `more` continues `packets`; of the packets that were there only the last may have grown. */
  predicate Extends(packets: seq<seq<byte>>, more: seq<seq<byte>>) {
    && |packets| <= |more|
    && (forall i :: 0 <= i < |packets| - 1 ==> more[i] == packets[i])
    && (packets != [] ==> packets[|packets| - 1] <= more[|packets| - 1])
  }

  lemma ExtendsSelf(packets: seq<seq<byte>>)
    ensures Extends(packets, packets)
  {
  }

  lemma ExtendsAgain(a: seq<seq<byte>>, b: seq<seq<byte>>, c: seq<seq<byte>>)
    requires Extends(a, b) && Extends(b, c)
    ensures Extends(a, c)
  {
    if a != [] && |a| == |b| { assert a[|a| - 1] <= b[|a| - 1] <= c[|a| - 1]; }
  }

  /** Bytes written later never change where the earlier ones are cut, only how the last packet ends. */
  lemma {:induction false} ChunksExtend(s: seq<byte>, more: seq<byte>)
    ensures Extends(Chunks(s), Chunks(s + more))
    decreases |s|
  {
    var all := s + more;
    if |s| > PACKET_LIMIT {
      ChunksExtend(s[PACKET_LIMIT..], more);
      assert Chunk(all) == Chunk(s) && all[PACKET_LIMIT..] == s[PACKET_LIMIT..] + more;
    } else if s != [] {
      assert s <= Chunk(all) && Chunks(s) == [s] + Chunks(s[|s|..]);
    }
  }

  lemma JoinExtends(first: seq<seq<byte>>, a: seq<seq<byte>>, b: seq<seq<byte>>)
    requires Extends(a, b)
    ensures Extends(first + a, first + b)
  {
    if first != [] && a == [] { assert (first + b)[|first| - 1] == (first + a)[|first| - 1]; }
  }

  // ---- incremental deframing ----

  /** The state of `inbound_buffer` and `inbound_stream` as one call leaves it. */
  datatype Inflow = Inflow(buffer: seq<byte>, stream: seq<byte>)

  /** What `update_inbound_stream` makes of them, early return included. */
  function Update(s: Inflow): Inflow {
    var d := Deframe(s.buffer);
    Inflow(d.rest, if Stalls(d.rest) then s.stream else s.stream + Flatten(d.frames))
  }

  /** How many payload bytes `update_inbound_stream` completes but does not hand over. */
  function LostBytes(buffer: seq<byte>): nat {
    var d := Deframe(buffer);
    if Stalls(d.rest) then |Flatten(d.frames)| else 0
  }

  /** One append-then-`update_inbound_stream`. */
  function Feed(s: Inflow, piece: seq<byte>): Inflow { Update(Inflow(s.buffer + piece, s.stream)) }

  /** The same call with `break` in place of the early `return`. */
  function FeedCorrected(s: Inflow, piece: seq<byte>): Inflow {
    var d := Deframe(s.buffer + piece);
    Inflow(d.rest, s.stream + Flatten(d.frames))
  }

  function FeedAll(s: Inflow, pieces: seq<seq<byte>>): Inflow
    decreases |pieces|
  {
    if pieces == [] then s else FeedAll(Feed(s, pieces[0]), pieces[1..])
  }

  function FeedAllCorrected(s: Inflow, pieces: seq<seq<byte>>): Inflow
    decreases |pieces|
  {
    if pieces == [] then s else FeedAllCorrected(FeedCorrected(s, pieces[0]), pieces[1..])
  }

  function DroppedBy(s: Inflow, piece: seq<byte>): nat { LostBytes(s.buffer + piece) }

  function DroppedByAll(s: Inflow, pieces: seq<seq<byte>>): nat
    decreases |pieces|
  {
    if pieces == [] then 0 else DroppedBy(s, pieces[0]) + DroppedByAll(Feed(s, pieces[0]), pieces[1..])
  }

  // ---- packet boundaries ----

  /** The payload bytes of the complete frames in the first n packets. */
  function Completed(packets: seq<seq<byte>>, n: nat): seq<byte>
    requires n <= |packets|
  {
    Flatten(Deframe(Flatten(packets[..n])).frames)
  }

  /** The bytes of the first n packets that belong to no complete frame. */
  function Leftover(packets: seq<seq<byte>>, n: nat): seq<byte>
    requires n <= |packets|
  {
    Deframe(Flatten(packets[..n])).rest
  }

  /**
   * Packets n+1 .. end complete payload bytes, and the boundary after packet `end` leaves 1 to 3
   * bytes of the next frame.
   */
  predicate Loses(packets: seq<seq<byte>>, n: nat, end: nat) {
    && n <= end <= |packets|
    && Stalls(Leftover(packets, end))
    && Completed(packets, end) != Completed(packets, n)
  }

  /** The same for a call on packet n + 1 alone. */
  predicate LosesAfter(packets: seq<seq<byte>>, n: nat) { Loses(packets, n, n + 1) }

  lemma CompletedGrows(packets: seq<seq<byte>>, n: nat, end: nat)
    requires n <= end <= |packets|
    ensures var d := Deframe(Leftover(packets, n) + Flatten(packets[n..end]));
            && Leftover(packets, end) == d.rest
            && Completed(packets, end) == Completed(packets, n) + Flatten(d.frames)
  {
    hide Deframe, Flatten;
    var before, run := Flatten(packets[..n]), Flatten(packets[n..end]);
    assert packets[..end] == packets[..n] + packets[n..end];
    FlattenAppend(packets[..n], packets[n..end]);
    DeframeAppend(before, run);
    FlattenAppend(Deframe(before).frames, Deframe(Deframe(before).rest + run).frames);
  }

  lemma LosesLonger(packets: seq<seq<byte>>, more: seq<seq<byte>>, n: nat, end: nat)
    requires packets <= more && n <= end <= |packets|
    ensures Loses(more, n, end) <==> Loses(packets, n, end)
    ensures Completed(more, end) == Completed(packets, end)
  {
    assert packets[..n] == more[..n] && packets[..end] == more[..end];
  }

  lemma LostExactly(packets: seq<seq<byte>>, n: nat, end: nat)
    requires n <= end <= |packets|
    ensures LostBytes(Leftover(packets, n) + Flatten(packets[n..end])) == 0 <==> !Loses(packets, n, end)
  {
    hide Deframe, Flatten, Completed, Leftover;
    CompletedGrows(packets, n, end);
  }

  /**
   * A call that brings the buffer from packet n to packet `end` hands over exactly the payload
   * completed in between if and only if it does not lose, and nothing at all otherwise.
   */
  lemma CallExactly(packets: seq<seq<byte>>, n: nat, end: nat, s: Inflow)
    requires n <= end <= |packets| && s.buffer == Leftover(packets, n)
    ensures Completed(packets, n) <= Completed(packets, end)
    ensures var t := Feed(s, Flatten(packets[n..end]));
            && t.buffer == Leftover(packets, end)
            && (t.stream == s.stream + Completed(packets, end)[|Completed(packets, n)|..] <==> !Loses(packets, n, end))
            && (Loses(packets, n, end) ==> t.stream == s.stream)
  {
    hide Deframe, Flatten, Completed, Leftover;
    CompletedGrows(packets, n, end);
  }

  /** All of a buffer and the pieces to come, deframed at once. */
  function Whole(buffer: seq<byte>, pieces: seq<seq<byte>>): Deframed {
    Deframe(buffer + Flatten(pieces))
  }

  lemma WholeStep(buffer: seq<byte>, pieces: seq<seq<byte>>)
    requires pieces != []
    ensures var d := Deframe(buffer + pieces[0]);
            var e := Whole(d.rest, pieces[1..]);
            && Whole(buffer, pieces).rest == e.rest
            && Flatten(Whole(buffer, pieces).frames) == Flatten(d.frames) + Flatten(e.frames)
  {
    var d := Deframe(buffer + pieces[0]);
    var tail := Flatten(pieces[1..]);
    assert buffer + Flatten(pieces) == (buffer + pieces[0]) + tail;
    DeframeAppend(buffer + pieces[0], tail);
    FlattenAppend(d.frames, Deframe(d.rest + tail).frames);
  }

  lemma WholeNone(buffer: seq<byte>)
    requires Deframe(buffer) == Deframed([], buffer)
    ensures Whole(buffer, []) == Deframed([], buffer) && Flatten([]) == []
  {
    assert buffer + [] == buffer;
  }

  /** Each call keeps or drops what it completes; nothing else is lost. */
  lemma {:induction false} FeedAllConserves(s: Inflow, pieces: seq<seq<byte>>)
    requires Deframe(s.buffer) == Deframed([], s.buffer)
    ensures FeedAll(s, pieces).buffer == Whole(s.buffer, pieces).rest
    ensures |FeedAll(s, pieces).stream| + DroppedByAll(s, pieces)
            == |s.stream| + |Flatten(Whole(s.buffer, pieces).frames)|
    decreases |pieces|
  {
    hide Deframe, Flatten, Whole;
    if pieces == [] {
      WholeNone(s.buffer);
    } else {
      RestIsDeframed(s.buffer + pieces[0]);
      FeedAllConserves(Feed(s, pieces[0]), pieces[1..]);
      WholeStep(s.buffer, pieces);
    }
  }

  lemma FeedKeeps(s: Inflow, piece: seq<byte>)
    requires DroppedBy(s, piece) == 0
    ensures Feed(s, piece).stream == s.stream + Flatten(Deframe(s.buffer + piece).frames)
  {
  }

  lemma Reassociate(a: seq<byte>, b: seq<byte>, c: seq<byte>)
    ensures a + (b + c) == (a + b) + c
  {
  }

  lemma {:induction false} FeedAllComplete(s: Inflow, pieces: seq<seq<byte>>)
    requires Deframe(s.buffer) == Deframed([], s.buffer)
    requires DroppedByAll(s, pieces) == 0
    ensures FeedAll(s, pieces).stream == s.stream + Flatten(Whole(s.buffer, pieces).frames)
    decreases |pieces|
  {
    hide Deframe, Flatten, Whole;
    if pieces == [] {
      WholeNone(s.buffer);
    } else {
      var next := Feed(s, pieces[0]);
      var d := Deframe(s.buffer + pieces[0]);
      FeedKeeps(s, pieces[0]);
      RestIsDeframed(s.buffer + pieces[0]);
      FeedAllComplete(next, pieces[1..]);
      WholeStep(s.buffer, pieces);
      Reassociate(s.stream, Flatten(d.frames), Flatten(Whole(next.buffer, pieces[1..]).frames));
    }
  }

  lemma {:induction false} DropsNothing(s: Inflow, pieces: seq<seq<byte>>, n: nat)
    requires n <= |pieces| && s.buffer == Leftover(pieces, n)
    ensures DroppedByAll(s, pieces[n..]) == 0 <==> forall j :: n <= j < |pieces| ==> !LosesAfter(pieces, j)
    decreases |pieces| - n
  {
    hide Deframe, Flatten, Completed, Leftover, LostBytes, Loses, Update;
    if n < |pieces| {
      assert pieces[n..n + 1] == [pieces[n]] && pieces[n..][1..] == pieces[n + 1..];
      FlattenOne(pieces[n]);
      LostExactly(pieces, n, n + 1);
      CallExactly(pieces, n, n + 1, s);
      var rest := pieces[n..];
      assert LosesAfter(pieces, n) <==> DroppedBy(s, rest[0]) != 0;
      DropsNothing(Feed(s, pieces[n]), pieces, n + 1);
      assert DroppedByAll(s, rest) == DroppedBy(s, rest[0]) + DroppedByAll(Feed(s, rest[0]), rest[1..]);
    }
  }

  /**
   * Packet boundaries never change the leftover bytes; the readable stream is what deframing
   * everything at once gives if and only if no boundary leaves 1 to 3 bytes behind a packet
   * that completed payload bytes.
   */
  lemma FeedExactly(pieces: seq<seq<byte>>)
    ensures var whole := Deframe(Flatten(pieces));
            var got := FeedAll(Inflow([], []), pieces);
            && got.buffer == whole.rest
            && (got.stream == Flatten(whole.frames) <==> forall j :: 0 <= j < |pieces| ==> !LosesAfter(pieces, j))
  {
    var s := Inflow([], []);
    assert [] + Flatten(pieces) == Flatten(pieces);
    FeedAllConserves(s, pieces);
    assert pieces[0..] == pieces;
    DropsNothing(s, pieces, 0);
    if DroppedByAll(s, pieces) == 0 {
      FeedAllComplete(s, pieces);
    }
  }

  /** The corrected loop hands over every complete frame, whatever the boundaries. */
  lemma {:induction false} FeedCorrectedDeliversAll(s: Inflow, pieces: seq<seq<byte>>)
    requires Deframe(s.buffer) == Deframed([], s.buffer)
    ensures var whole := Whole(s.buffer, pieces);
            FeedAllCorrected(s, pieces) == Inflow(whole.rest, s.stream + Flatten(whole.frames))
    decreases |pieces|
  {
    hide Deframe, Flatten, Whole;
    if pieces == [] {
      WholeNone(s.buffer);
    } else {
      var next := FeedCorrected(s, pieces[0]);
      RestIsDeframed(s.buffer + pieces[0]);
      FeedCorrectedDeliversAll(next, pieces[1..]);
      WholeStep(s.buffer, pieces);
      var d := Deframe(s.buffer + pieces[0]);
      Reassociate(s.stream, Flatten(d.frames), Flatten(Whole(next.buffer, pieces[1..]).frames));
    }
  }

  /**
   * The early return loses a write: after a 32617-byte write the first packet ends two bytes
   * into the next header, and the reader is given the second write without the first.
   */
  lemma EarlyReturnLosesAWrite(w1: seq<byte>, w2: seq<byte>)
    requires |w1| == PACKET_LIMIT - 6 && 1 <= |w2| <= PACKET_LIMIT - 2
    ensures FeedAll(Inflow([], []), Chunks(Framed([w1, w2]))) == Inflow([], w2)
  {
    var all := Framed([w1, w2]);
    var head := Frame(w2)[..2];
    TwoPackets(w1, w2);
    var p1, p2 := all[..PACKET_LIMIT], all[PACKET_LIMIT..];
    assert [] + p1 == Frame(w1) + head;
    FeedFrame(w1, [], p1, head);
    assert head + p2 == Frame(w2) + [];
    FeedFrame(w2, head, p2, []);
    FeedTwo(Inflow([], []), p1, p2);
  }

  lemma FeedTwo(s: Inflow, p1: seq<byte>, p2: seq<byte>)
    ensures FeedAll(s, [p1, p2]) == Feed(Feed(s, p1), p2)
  {
    var next := Feed(s, p1);
    assert [p1, p2][1..] == [p2] && [p2][1..] == [];
    assert FeedAll(s, [p1, p2]) == FeedAll(next, [p2]);
    assert FeedAll(next, [p2]) == FeedAll(Feed(next, p2), []);
  }

  /** One frame completed by a piece that ends in the leftover `after`. */
  lemma FeedFrame(w: seq<byte>, before: seq<byte>, piece: seq<byte>, after: seq<byte>)
    requires Short(w) && |after| < 4 && before + piece == Frame(w) + after
    ensures Feed(Inflow(before, []), piece) == Inflow(after, if after == [] then w else [])
  {
    DeframeFrame(w, after);
    FlattenOne(w);
    assert [w] + [] == [w];
  }

  lemma TwoPackets(w1: seq<byte>, w2: seq<byte>)
    requires |w1| == PACKET_LIMIT - 6 && 1 <= |w2| <= PACKET_LIMIT - 2
    ensures var all := Framed([w1, w2]);
            var head := Frame(w2)[..2];
            && |all| > PACKET_LIMIT
            && Chunks(all) == [all[..PACKET_LIMIT], all[PACKET_LIMIT..]]
            && all[..PACKET_LIMIT] == Frame(w1) + head
            && head + all[PACKET_LIMIT..] == Frame(w2)
  {
    var all := Framed([w1, w2]);
    FramedSnoc([w1], w2);
    assert [w1] + [w2] == [w1, w2] && [w1][1..] == [];
    assert all == Frame(w1) + Frame(w2);
    var p2 := all[PACKET_LIMIT..];
    assert Chunks(p2) == [p2] + Chunks(p2[|p2|..]);
  }
}
