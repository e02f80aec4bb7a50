/** The stamp a benchmark publish carries: connection, sequence number and scheduled time. */
module Payload {
  import opened Arith

  type byte = n: nat | n < 256

  const PAYLOAD_BYTES: nat := 64

  datatype Stamp = Stamp(connId: u32, seqNo: u64, scheduledNs: u64)

  function Pow256(n: nat): (p: nat)
    ensures p >= 1
  {
    if n == 0 then 1 else 256 * Pow256(n - 1)
  }

  /** `to_le_bytes` of a `len`-byte integer. */
  function LeBytes(n: nat, len: nat): (s: seq<byte>)
    ensures |s| == len
  {
    if len == 0 then [] else [n % 256] + LeBytes(n / 256, len - 1)
  }

  /** `from_le_bytes`. */
  function FromLe(s: seq<byte>): (n: nat)
    ensures n < Pow256(|s|)
  {
    if s == [] then 0 else s[0] + 256 * FromLe(s[1..])
  }

  lemma {:induction false} LeRoundTrip(n: nat, len: nat)
    requires n < Pow256(len)
    ensures FromLe(LeBytes(n, len)) == n
  {
    if len > 0 {
      LeRoundTrip(n / 256, len - 1);
      assert LeBytes(n, len)[1..] == LeBytes(n / 256, len - 1);
    }
  }

  /** The low byte of a number is its first byte, and the rest is the number of the others. */
  lemma LowByte(first: byte, rest: nat)
    ensures (first + 256 * rest) % 256 == first && (first + 256 * rest) / 256 == rest
  {
  }

  lemma {:induction false} LeInverse(s: seq<byte>)
    ensures LeBytes(FromLe(s), |s|) == s
  {
    if s != [] {
      var rest := FromLe(s[1..]);
      LeInverse(s[1..]);
      LeStep(s[0], rest, |s|);
    }
  }

  lemma LeStep(first: byte, rest: nat, len: nat)
    requires len > 0
    ensures LeBytes(first + 256 * rest, len) == [first] + LeBytes(rest, len - 1)
  {
    LowByte(first, rest);
  }

  predicate AllZero(s: seq<byte>) {
    forall i | 0 <= i < |s| :: s[i] == 0
  }

  function ZeroBytes(len: nat): (s: seq<byte>)
    ensures |s| == len && AllZero(s)
  {
    seq(len, _ => 0)
  }

  function StampBytes(s: Stamp): (b: seq<byte>)
    ensures |b| == PAYLOAD_BYTES
  {
    LeBytes(s.connId, 4) + LeBytes(s.seqNo, 8) + LeBytes(s.scheduledNs, 8) + ZeroBytes(44)
  }

  lemma Widths()
    ensures Pow256(4) == U32_MAX + 1 && Pow256(8) == U64_MAX + 1
  {
    assert Pow256(2) == 65536;
    assert Pow256(4) == 65536 * Pow256(2);
    assert Pow256(6) == 65536 * Pow256(4);
    assert Pow256(8) == 65536 * Pow256(6);
  }

  /** `Stamp::encode`: the buffer starts zeroed and its three fields are copied in. */
  method EncodeStamp(s: Stamp) returns (buf: array<byte>)
    ensures fresh(buf) && buf[..] == StampBytes(s)
  {
    buf := new byte[PAYLOAD_BYTES](_ => 0);
    ghost var zeroed := buf[..];
    CopyAt(buf, 0, LeBytes(s.connId, 4));
    assert buf[4..] == zeroed[4..];
    CopyAt(buf, 4, LeBytes(s.seqNo, 8));
    assert buf[..4] == LeBytes(s.connId, 4) && buf[12..] == zeroed[12..];
    CopyAt(buf, 12, LeBytes(s.scheduledNs, 8));
    assert buf[20..] == zeroed[20..] == ZeroBytes(44);
    assert buf[..12] == LeBytes(s.connId, 4) + LeBytes(s.seqNo, 8);
  }

  /** `copy_from_slice` into `buf[at..at + |src|]`. */
  method CopyAt(buf: array<byte>, at: nat, src: seq<byte>)
    requires at + |src| <= buf.Length
    modifies buf
    ensures buf[..] == old(buf[..at]) + src + old(buf[at + |src|..])
  {
    for i := 0 to |src|
      invariant forall j | 0 <= j < buf.Length ::
                  buf[j] == if at <= j < at + i then src[j - at] else old(buf[j])
    {
      buf[at + i] := src[i];
    }
  }

  /** `Stamp::decode`: a payload of another length, or with a non-zero tail, is foreign. */
  function DecodeStamp(payload: seq<byte>): Option<Stamp> {
    if |payload| != PAYLOAD_BYTES then None
    else if !AllZero(payload[20..]) then None
    else
      Widths();
      Some(Stamp(FromLe(payload[..4]), FromLe(payload[4..12]), FromLe(payload[12..20])))
  }

  lemma DecodeEncoded(s: Stamp)
    ensures DecodeStamp(StampBytes(s)) == Some(s)
  {
    var b := StampBytes(s);
    Widths();
    LeRoundTrip(s.connId, 4);
    LeRoundTrip(s.seqNo, 8);
    LeRoundTrip(s.scheduledNs, 8);
    assert b[..4] == LeBytes(s.connId, 4);
    assert b[4..12] == LeBytes(s.seqNo, 8);
    assert b[12..20] == LeBytes(s.scheduledNs, 8);
    assert b[20..] == ZeroBytes(44);
  }

  lemma EncodeDecoded(payload: seq<byte>)
    requires DecodeStamp(payload).Some?
    ensures payload == StampBytes(DecodeStamp(payload).value)
  {
    LeInverse(payload[..4]);
    LeInverse(payload[4..12]);
    LeInverse(payload[12..20]);
    ZeroTail(payload[20..]);
    FourParts(payload);
  }

  lemma ZeroTail(s: seq<byte>)
    requires |s| == 44 && AllZero(s)
    ensures s == ZeroBytes(44)
  {
  }

  lemma FourParts(payload: seq<byte>)
    requires |payload| == PAYLOAD_BYTES
    ensures payload == payload[..4] + payload[4..12] + payload[12..20] + payload[20..]
  {
  }

  /** Decoding inverts encoding, and accepts nothing that encoding does not produce. */
  lemma StampRoundTrip(payload: seq<byte>, s: Stamp)
    ensures DecodeStamp(payload) == Some(s) <==> payload == StampBytes(s)
  {
    DecodeEncoded(s);
    if DecodeStamp(payload) == Some(s) { EncodeDecoded(payload); }
  }
}
