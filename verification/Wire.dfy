/**
  The PUBLISH frames of the load generator, and the reading of sections 2.2.3 and 3.3 of
  MQTT 3.1.1 they are checked against.
  */
module Wire {
  import opened Arith
  import opened Payload

  /** `bench/load` in ASCII. */
  const TOPIC: seq<byte> := [98, 101, 110, 99, 104, 47, 108, 111, 97, 100]
  const VARINT_MAX: nat := 268_435_455
  const VARINT_BYTES_MAX: nat := 4

  /** The write buffer a connection reuses. */
  class Buffer {
    var bytes: seq<byte>

    constructor ()
      ensures bytes == []
    {
      bytes := [];
    }
  }

  /** `to_be_bytes` of a `u16`. */
  function Be16(n: nat): seq<byte>
    requires n <= U16_MAX
  {
    [n / 256, n % 256]
  }

  function Varint(value: nat): (s: seq<byte>)
    ensures |s| >= 1
  {
    if value < 128 then [value] else [value % 128 + 128] + Varint(value / 128)
  }

  method WriteVarint(value: nat, out: Buffer)
    modifies out
    ensures out.bytes == old(out.bytes) + Varint(value)
  {
    var v := value;
    while true
      invariant out.bytes + Varint(v) == old(out.bytes) + Varint(value)
      decreases v
    {
      var encoded := v % 128;
      ghost var before := v;
      v := v / 128;
      if v > 0 {
        encoded := encoded + 128;
      }
      assert Varint(before) == if v == 0 then [encoded] else [encoded] + Varint(v);
      assert out.bytes + ([encoded] + Varint(v)) == out.bytes + [encoded] + Varint(v);
      out.bytes := out.bytes + [encoded];
      if v == 0 {
        return;
      }
    }
  }

  function PublishBody(qos: nat, packetId: Option<nat>, payload: seq<byte>): seq<byte>
    requires qos <= 1 && (qos > 0 ==> packetId.Some? && packetId.value <= U16_MAX)
  {
    Be16(|TOPIC|) + TOPIC + (if qos > 0 then Be16(packetId.value) else []) + payload
  }

  function PublishBytes(qos: nat, packetId: Option<nat>, payload: seq<byte>): seq<byte>
    requires qos <= 1 && (qos > 0 ==> packetId.Some? && packetId.value <= U16_MAX)
  {
    var body := PublishBody(qos, packetId, payload);
    [0x30 + 2 * qos] + Varint(|body|) + body
  }

  method EncodePublish(dst: Buffer, qos: nat, packetId: Option<nat>, payload: seq<byte>)
    requires qos <= 1 && (qos > 0 ==> packetId.Some? && packetId.value <= U16_MAX)
    modifies dst
    ensures dst.bytes == old(dst.bytes) + PublishBytes(qos, packetId, payload)
  {
    var bodyLen := 2 + |TOPIC| + |payload| + if qos > 0 then 2 else 0;
    dst.bytes := dst.bytes + [0x30 + 2 * qos];
    WriteVarint(bodyLen, dst);
    dst.bytes := dst.bytes + Be16(|TOPIC|);
    dst.bytes := dst.bytes + TOPIC;
    if qos > 0 {
      dst.bytes := dst.bytes + Be16(packetId.value);
    }
    dst.bytes := dst.bytes + payload;
    assert |PublishBody(qos, packetId, payload)| == bodyLen;
    assert dst.bytes == old(dst.bytes) + PublishBytes(qos, packetId, payload);
  }

  // ---------------------------------------------------------------- reading frames

  datatype Frame = Publish(
    dup: bool, qos: nat, retain: bool, topic: seq<byte>, packetId: Option<nat>, payload: seq<byte>)

  /** The Remaining Length of section 2.2.3 and how many bytes it takes, at most `limit`. */
  function ReadVarint(s: seq<byte>, limit: nat): (r: Option<(nat, nat)>)
    ensures r.Some? ==> r.value.1 <= |s|
  {
    if s == [] || limit == 0 then None
    else if s[0] < 128 then Some((s[0], 1))
    else
      var rest := ReadVarint(s[1..], limit - 1);
      if rest.None? then None else Some((s[0] - 128 + 128 * rest.value.0, 1 + rest.value.1))
  }

  function ReadBe16(s: seq<byte>): nat
    requires |s| >= 2
  {
    (s[0] as int) * 256 + s[1]
  }

  /** The variable header and payload of section 3.3; a QoS 1 packet id is never 0. */
  function ReadBody(flags: nat, body: seq<byte>): Option<Frame>
    requires flags < 16
  {
    var qos := flags / 2 % 4;
    if qos == 3 || |body| < 2 then None
    else
      var topicEnd := 2 + ReadBe16(body);
      var idEnd := topicEnd + if qos > 0 then 2 else 0;
      if |body| < idEnd then None
      else if qos > 0 && ReadBe16(body[topicEnd..]) == 0 then None
      else Some(Publish(flags / 8 == 1, qos, flags % 2 == 1, body[2..topicEnd],
                        if qos > 0 then Some(ReadBe16(body[topicEnd..])) else None, body[idEnd..]))
  }

  /** One PUBLISH off the front of `s`, with the bytes after it. */
  function ReadPublish(s: seq<byte>): (r: Option<(Frame, seq<byte>)>)
    ensures r.Some? ==> |r.value.1| < |s|
  {
    if s == [] || s[0] / 16 != 3 then None
    else
      var len := ReadVarint(s[1..], VARINT_BYTES_MAX);
      if len.None? || |s| < 1 + len.value.1 + len.value.0 then None
      else
        var bodyStart := 1 + len.value.1;
        var frame := ReadBody(s[0] % 16, s[bodyStart..bodyStart + len.value.0]);
        if frame.None? then None else Some((frame.value, s[bodyStart + len.value.0..]))
  }

  /** Every frame of `s`, with no byte left over. */
  function ReadAll(s: seq<byte>): Option<seq<Frame>>
    decreases |s|
  {
    if s == [] then Some([])
    else
      var first := ReadPublish(s);
      if first.None? then None
      else
        var rest := ReadAll(first.value.1);
        if rest.None? then None else Some([first.value.0] + rest.value)
  }

  function Pow128(n: nat): (p: nat)
    ensures p >= 1
  {
    if n == 0 then 1 else 128 * Pow128(n - 1)
  }

  /** A value reads back from its encoding exactly when `limit` bytes hold it. */
  lemma {:induction false} VarintRoundTrip(value: nat, limit: nat, rest: seq<byte>)
    ensures ReadVarint(Varint(value) + rest, limit)
         == if value < Pow128(limit) && limit > 0 then Some((value, |Varint(value)|)) else None
    decreases limit
  {
    var s := Varint(value) + rest;
    if limit > 0 && value >= 128 {
      VarintRoundTrip(value / 128, limit - 1, rest);
      assert s[1..] == Varint(value / 128) + rest;
      if limit == 1 {
        assert ReadVarint(s[1..], 0) == None;
      }
    }
  }

  lemma BodyRoundTrip(qos: nat, packetId: Option<nat>, payload: seq<byte>)
    requires qos <= 1 && (qos > 0 ==> packetId.Some? && 1 <= packetId.value <= U16_MAX)
    ensures ReadBody(2 * qos, PublishBody(qos, packetId, payload))
         == Some(Publish(false, qos, false, TOPIC, if qos > 0 then packetId else None, payload))
  {
    var body := PublishBody(qos, packetId, payload);
    assert body[..2] == Be16(|TOPIC|);
    assert ReadBe16(body) == |TOPIC|;
    assert body[2..12] == TOPIC;
    if qos > 0 {
      assert body[12..] == Be16(packetId.value) + payload;
      assert body[14..] == payload;
    } else {
      assert body[12..] == payload;
    }
  }

  lemma VarintRange()
    ensures Pow128(VARINT_BYTES_MAX) == VARINT_MAX + 1
  {
    assert Pow128(2) == 16384;
  }

  lemma FrameSlices(header: byte, len: seq<byte>, body: seq<byte>, rest: seq<byte>)
    ensures var s := [header] + len + body + rest;
            var bodyStart := 1 + |len|;
            && s != [] && s[0] == header && s[1..] == len + (body + rest)
            && |s| >= bodyStart + |body|
            && s[bodyStart..bodyStart + |body|] == body
            && s[bodyStart + |body|..] == rest
  {
  }

  lemma FrameReadsBack(header: byte, len: seq<byte>, body: seq<byte>, frame: Frame, rest: seq<byte>)
    requires header / 16 == 3 && ReadBody(header % 16, body) == Some(frame)
    requires ReadVarint(len + (body + rest), VARINT_BYTES_MAX) == Some((|body|, |len|))
    ensures ReadPublish([header] + len + body + rest) == Some((frame, rest))
  {
    FrameSlices(header, len, body, rest);
  }

  /** A frame reads back from its header, length and body, whatever follows it. */
  lemma FrameRoundTrip(header: byte, body: seq<byte>, frame: Frame, rest: seq<byte>)
    requires header / 16 == 3 && |body| <= VARINT_MAX && ReadBody(header % 16, body) == Some(frame)
    ensures ReadPublish([header] + Varint(|body|) + body + rest) == Some((frame, rest))
  {
    VarintRange();
    VarintRoundTrip(|body|, VARINT_BYTES_MAX, body + rest);
    FrameReadsBack(header, Varint(|body|), body, frame, rest);
  }

  // ---------------------------------------------------------------- a latency batch

  /** One due slot: its QoS 1 packet id and its due time. */
  datatype Slot = Slot(packetId: Option<nat>, dueNs: u64)

  predicate SlotFits(qos: nat, slot: Slot) {
    qos <= 1 && (qos > 0 ==> slot.packetId.Some? && 1 <= slot.packetId.value <= U16_MAX)
  }

  ghost predicate BatchFits(qos: nat, batch: seq<Slot>) {
    qos <= 1 && forall i | 0 <= i < |batch| :: SlotFits(qos, batch[i])
  }

  /** The packet id a publish of `slot` carries. */
  function WireId(qos: nat, slot: Slot): Option<nat> {
    if qos == 1 then slot.packetId else None
  }

  function SlotStamp(connId: u32, slot: Slot, seqNo: nat): Stamp {
    Stamp(connId, Sat64(seqNo), slot.dueNs)
  }

  function SlotBytes(connId: u32, qos: nat, slot: Slot, seqNo: nat): seq<byte>
    requires SlotFits(qos, slot)
  {
    PublishBytes(qos, WireId(qos, slot), StampBytes(SlotStamp(connId, slot, seqNo)))
  }

  function Flatten(pieces: seq<seq<byte>>): seq<byte> {
    if pieces == [] then [] else pieces[0] + Flatten(pieces[1..])
  }

  lemma {:induction false} FlattenAppend(pieces: seq<seq<byte>>, piece: seq<byte>)
    ensures Flatten(pieces + [piece]) == Flatten(pieces) + piece
  {
    if pieces == [] {
      assert [piece][1..] == [] && [] + [piece] == [piece];
      assert piece + [] == piece == [] + piece;
    } else {
      FlattenAppend(pieces[1..], piece);
      assert (pieces + [piece])[1..] == pieces[1..] + [piece];
      assert pieces[0] + (Flatten(pieces[1..]) + piece) == pieces[0] + Flatten(pieces[1..]) + piece;
    }
  }

  /** The publishes of a batch whose first one has sequence number `nextSeq`. */
  function BatchPieces(connId: u32, qos: nat, batch: seq<Slot>, nextSeq: nat): (pieces: seq<seq<byte>>)
    requires BatchFits(qos, batch)
    ensures |pieces| == |batch|
    decreases |batch|
  {
    if batch == [] then []
    else [SlotBytes(connId, qos, batch[0], nextSeq)] + BatchPieces(connId, qos, batch[1..], nextSeq + 1)
  }

  lemma {:induction false} BatchPiecesAt(connId: u32, qos: nat, batch: seq<Slot>, nextSeq: nat, i: nat)
    requires BatchFits(qos, batch) && i < |batch|
    ensures BatchPieces(connId, qos, batch, nextSeq)[i] == SlotBytes(connId, qos, batch[i], nextSeq + i)
    decreases i
  {
    if i > 0 {
      BatchPiecesAt(connId, qos, batch[1..], nextSeq + 1, i - 1);
    }
  }

  /** `latency_encode_batch`. */
  method EncodeBatch(connId: u32, qos: nat, batch: seq<Slot>, nextSeq: u64, writeBuf: Buffer) returns (seqAfter: u64)
    requires BatchFits(qos, batch)
    modifies writeBuf
    ensures writeBuf.bytes == old(writeBuf.bytes) + Flatten(BatchPieces(connId, qos, batch, nextSeq))
    ensures seqAfter == Sat64(nextSeq + |batch|)
  {
    seqAfter := nextSeq;
    ghost var pieces := BatchPieces(connId, qos, batch, nextSeq);
    for i := 0 to |batch|
      invariant seqAfter == Sat64(nextSeq + i)
      invariant writeBuf.bytes == old(writeBuf.bytes) + Flatten(pieces[..i])
    {
      BatchPiecesAt(connId, qos, batch, nextSeq, i);
      EncodeSlot(connId, qos, batch[i], seqAfter, nextSeq + i, pieces[i], writeBuf);
      AppendPiece(old(writeBuf.bytes), pieces, i);
      seqAfter := Sat64(seqAfter + 1);
    }
    assert pieces[..|batch|] == pieces;
  }

  lemma AppendPiece(before: seq<byte>, pieces: seq<seq<byte>>, i: nat)
    requires i < |pieces|
    ensures before + Flatten(pieces[..i]) + pieces[i] == before + Flatten(pieces[..i + 1])
  {
    FlattenAppend(pieces[..i], pieces[i]);
    assert pieces[..i + 1] == pieces[..i] + [pieces[i]];
  }

  method EncodeSlot(connId: u32, qos: nat, slot: Slot, nextSeq: u64, ghost seqNo: nat, ghost piece: seq<byte>,
                    writeBuf: Buffer)
    requires SlotFits(qos, slot) && nextSeq == Sat64(seqNo) && piece == SlotBytes(connId, qos, slot, seqNo)
    modifies writeBuf
    ensures writeBuf.bytes == old(writeBuf.bytes) + piece
  {
    var payload := EncodeStamp(Stamp(connId, nextSeq, slot.dueNs));
    EncodePublish(writeBuf, qos, WireId(qos, slot), payload[..]);
  }

  /** The frame a slot must read back as: no DUP, no RETAIN, its own id, and its own stamp. */
  ghost predicate FrameOf(frame: Frame, connId: u32, qos: nat, slot: Slot, seqNo: nat) {
    && frame == Publish(false, qos, false, TOPIC, WireId(qos, slot), frame.payload)
    && DecodeStamp(frame.payload) == Some(SlotStamp(connId, slot, seqNo))
  }

  ghost predicate FramesOf(frames: seq<Frame>, connId: u32, qos: nat, batch: seq<Slot>, nextSeq: nat) {
    && |frames| == |batch|
    && forall i | 0 <= i < |frames| :: FrameOf(frames[i], connId, qos, batch[i], nextSeq + i)
  }

  /** `piece` reads back as `frame` whatever follows it. */
  ghost predicate ReadsAs(piece: seq<byte>, frame: Frame) {
    forall rest: seq<byte> :: ReadPublish(piece + rest) == Some((frame, rest))
  }

  lemma FrameReadsAs(header: byte, body: seq<byte>, frame: Frame)
    requires header / 16 == 3 && |body| <= VARINT_MAX && ReadBody(header % 16, body) == Some(frame)
    ensures ReadsAs([header] + Varint(|body|) + body, frame)
  {
    forall rest: seq<byte> ensures ReadPublish([header] + Varint(|body|) + body + rest) == Some((frame, rest)) {
      FrameRoundTrip(header, body, frame, rest);
    }
  }

  lemma HeaderBits(qos: nat)
    requires qos <= 1
    ensures (0x30 + 2 * qos) / 16 == 3 && (0x30 + 2 * qos) % 16 == 2 * qos
  {
  }

  lemma BodyFits(qos: nat, packetId: Option<nat>, payload: seq<byte>)
    requires qos <= 1 && (qos > 0 ==> packetId.Some? && packetId.value <= U16_MAX) && |payload| == PAYLOAD_BYTES
    ensures |PublishBody(qos, packetId, payload)| <= VARINT_MAX
  {
    VarintRange();
  }

  lemma PayloadRoundTrip(qos: nat, packetId: Option<nat>, payload: seq<byte>)
    requires qos <= 1 && (qos > 0 ==> packetId.Some? && 1 <= packetId.value <= U16_MAX) && (qos == 0 ==> packetId.None?)
    requires |payload| == PAYLOAD_BYTES
    ensures ReadsAs(PublishBytes(qos, packetId, payload), Publish(false, qos, false, TOPIC, packetId, payload))
  {
    var body := PublishBody(qos, packetId, payload);
    BodyRoundTrip(qos, packetId, payload);
    BodyFits(qos, packetId, payload);
    HeaderBits(qos);
    FrameReadsAs(0x30 + 2 * qos, body, Publish(false, qos, false, TOPIC, packetId, payload));
  }

  lemma SlotRoundTrip(connId: u32, qos: nat, slot: Slot, seqNo: nat) returns (frame: Frame)
    requires SlotFits(qos, slot)
    ensures FrameOf(frame, connId, qos, slot, seqNo) && ReadsAs(SlotBytes(connId, qos, slot, seqNo), frame)
  {
    var stamp := SlotStamp(connId, slot, seqNo);
    PayloadRoundTrip(qos, WireId(qos, slot), StampBytes(stamp));
    DecodeEncoded(stamp);
    frame := Publish(false, qos, false, TOPIC, WireId(qos, slot), StampBytes(stamp));
  }

  lemma PieceThenRest(piece: seq<byte>, pieces: seq<seq<byte>>, frame: Frame, rest: seq<Frame>)
    requires ReadsAs(piece, frame) && ReadAll(Flatten(pieces)) == Some(rest)
    ensures ReadAll(Flatten([piece] + pieces)) == Some([frame] + rest)
  {
    assert ([piece] + pieces)[1..] == pieces;
    assert ReadPublish(piece + Flatten(pieces)) == Some((frame, Flatten(pieces)));
  }

  lemma FramesOfStep(frame: Frame, rest: seq<Frame>, connId: u32, qos: nat, batch: seq<Slot>, nextSeq: nat)
    requires batch != [] && FrameOf(frame, connId, qos, batch[0], nextSeq)
    requires FramesOf(rest, connId, qos, batch[1..], nextSeq + 1)
    ensures FramesOf([frame] + rest, connId, qos, batch, nextSeq)
  {
    var frames := [frame] + rest;
    forall i | 0 <= i < |frames| ensures FrameOf(frames[i], connId, qos, batch[i], nextSeq + i) {
      if i > 0 { assert FrameOf(rest[i - 1], connId, qos, batch[1..][i - 1], nextSeq + 1 + (i - 1)); }
    }
  }

  lemma {:induction false} BatchReadsBack(connId: u32, qos: nat, batch: seq<Slot>, nextSeq: nat)
    returns (frames: seq<Frame>)
    requires BatchFits(qos, batch)
    ensures FramesOf(frames, connId, qos, batch, nextSeq)
    ensures ReadAll(Flatten(BatchPieces(connId, qos, batch, nextSeq))) == Some(frames)
    decreases |batch|
  {
    if batch == [] {
      frames := [];
    } else {
      var frame := SlotRoundTrip(connId, qos, batch[0], nextSeq);
      var rest := BatchReadsBack(connId, qos, batch[1..], nextSeq + 1);
      PieceThenRest(SlotBytes(connId, qos, batch[0], nextSeq), BatchPieces(connId, qos, batch[1..], nextSeq + 1), frame,
                    rest);
      FramesOfStep(frame, rest, connId, qos, batch, nextSeq);
      frames := [frame] + rest;
    }
  }

  /** A write buffer reads back as exactly the batch's ids, sequence numbers and due times. */
  lemma BatchRoundTrip(connId: u32, qos: nat, batch: seq<Slot>, nextSeq: nat)
    requires BatchFits(qos, batch)
    ensures var frames := ReadAll(Flatten(BatchPieces(connId, qos, batch, nextSeq)));
            frames.Some? && FramesOf(frames.value, connId, qos, batch, nextSeq)
  {
    var _ := BatchReadsBack(connId, qos, batch, nextSeq);
  }

  // ---------------------------------------------------------------- the stamps of a write buffer

  /** The stamps the frames carry, in order; a payload that is no stamp carries none. */
  function FrameStamps(frames: seq<Frame>): seq<Stamp> {
    if frames == [] then []
    else
      var stamp := DecodeStamp(frames[|frames| - 1].payload);
      FrameStamps(frames[..|frames| - 1]) + (if stamp.Some? then [stamp.value] else [])
  }

  /** What a reader of the bytes takes from them. */
  function StampsRead(bytes: seq<byte>): seq<Stamp> {
    var frames := ReadAll(bytes);
    if frames.None? then [] else FrameStamps(frames.value)
  }

  /** The stamps of a batch whose first publish has sequence number `nextSeq`. */
  function BatchStamps(connId: u32, batch: seq<Slot>, nextSeq: nat): (stamps: seq<Stamp>)
    ensures |stamps| == |batch|
    ensures forall i | 0 <= i < |batch| :: stamps[i] == SlotStamp(connId, batch[i], nextSeq + i)
  {
    if batch == [] then []
    else
      var last := |batch| - 1;
      BatchStamps(connId, batch[..last], nextSeq) + [SlotStamp(connId, batch[last], nextSeq + last)]
  }

  lemma {:induction false} FramesCarryStamps(frames: seq<Frame>, connId: u32, qos: nat, batch: seq<Slot>, nextSeq: nat)
    requires FramesOf(frames, connId, qos, batch, nextSeq)
    ensures FrameStamps(frames) == BatchStamps(connId, batch, nextSeq)
  {
    if frames != [] {
      var last := |frames| - 1;
      FramesCarryStamps(frames[..last], connId, qos, batch[..last], nextSeq);
      assert FrameOf(frames[last], connId, qos, batch[last], nextSeq + last);
    }
  }

  /** A batch encoded into an empty buffer reads back as the batch, and the sequence number moves past it. */
  method EncodeFresh(connId: u32, qos: nat, batch: seq<Slot>, nextSeq: u64) returns (bytes: seq<byte>, seqAfter: u64)
    requires BatchFits(qos, batch)
    ensures ReadAll(bytes).Some? && FramesOf(ReadAll(bytes).value, connId, qos, batch, nextSeq)
    ensures StampsRead(bytes) == BatchStamps(connId, batch, nextSeq)
    ensures seqAfter == Sat64(nextSeq + |batch|)
  {
    var writeBuf := new Buffer();
    ghost var pieces := Flatten(BatchPieces(connId, qos, batch, nextSeq));
    seqAfter := EncodeBatch(connId, qos, batch, nextSeq, writeBuf);
    bytes := writeBuf.bytes;
    assert [] + pieces == pieces;
    BatchRoundTrip(connId, qos, batch, nextSeq);
    FramesCarryStamps(ReadAll(bytes).value, connId, qos, batch, nextSeq);
  }
}
