/** Wire frames: the 16-byte little-endian header followed by the payload, as the C
    library and the Node binding write and check it. */
module Frames {
  import opened Bits
  import opened Bytes
  import opened Checksum

  const VERSION: Byte := 1
  const HEADER_SIZE := 16
  const BUFFER_SIZE := 4096
  const MAX_PAYLOAD_SIZE := 0x10_0000

  const HANDSHAKE: Byte := 1
  const AUTH: Byte := 2
  const COMMAND: Byte := 3
  const RESPONSE: Byte := 4
  const ERROR: Byte := 5
  const HEARTBEAT: Byte := 6

  datatype Header = Header(
    version: Byte, kind: Byte, flags: Half, sequence: Word, payloadLength: Word, checksum: Word)

  // ----- Layout

  function Encode(h: Header): (bs: seq<Byte>)
    ensures |bs| == HEADER_SIZE
  {
    [h.version, h.kind] + Le16(h.flags) + Le32(h.sequence) + Le32(h.payloadLength) + Le32(h.checksum)
  }

  function Decode(bs: seq<Byte>): (h: Header)
    requires |bs| >= HEADER_SIZE
  {
    Header(bs[0], bs[1], FromLe16(bs[2], bs[3]),
           FromLe32(bs[4], bs[5], bs[6], bs[7]),
           FromLe32(bs[8], bs[9], bs[10], bs[11]),
           FromLe32(bs[12], bs[13], bs[14], bs[15]))
  }

  /** A header followed by any payload reads back as the same header. */
  lemma HeaderRoundTrip(h: Header, payload: seq<Byte>)
    ensures Decode(Encode(h) + payload) == h
  {
    var bs := Encode(h) + payload;
    var f, q, n, c := Le16(h.flags), Le32(h.sequence), Le32(h.payloadLength), Le32(h.checksum);
    assert bs[2] == f[0] && bs[3] == f[1];
    assert bs[4] == q[0] && bs[5] == q[1] && bs[6] == q[2] && bs[7] == q[3];
    assert bs[8] == n[0] && bs[9] == n[1] && bs[10] == n[2] && bs[11] == n[3];
    assert bs[12] == c[0] && bs[13] == c[1] && bs[14] == c[2] && bs[15] == c[3];
    Le16RoundTrip(h.flags);
    Le32RoundTrip(h.sequence);
    Le32RoundTrip(h.payloadLength);
    Le32RoundTrip(h.checksum);
  }

  /** Where each field is, byte by byte, the lowest first. */
  lemma FrameLayout(h: Header, payload: seq<Byte>)
    ensures var bs := Encode(h) + payload;
            && |bs| == 16 + |payload| && bs[16..] == payload
            && bs[0] == h.version && bs[1] == h.kind
            && 0x100 * (bs[3] as int) + bs[2] == h.flags
            && 0x100_0000 * (bs[7] as int) + 0x1_0000 * (bs[6] as int) + 0x100 * (bs[5] as int) + bs[4] == h.sequence
            && 0x100_0000 * (bs[11] as int) + 0x1_0000 * (bs[10] as int) + 0x100 * (bs[9] as int) + bs[8]
               == h.payloadLength
            && 0x100_0000 * (bs[15] as int) + 0x1_0000 * (bs[14] as int) + 0x100 * (bs[13] as int) + bs[12]
               == h.checksum
  {
    HeaderRoundTrip(h, payload);
  }

  /** Conversely every 16 bytes are the encoding of what they decode to, so the header
      format has no unused or ambiguous encodings. */
  lemma EncodingRoundTrip(bs: seq<Byte>)
    requires |bs| == HEADER_SIZE
    ensures Encode(Decode(bs)) == bs
  {
    hide FromLe16, FromLe32, Le16, Le32;
    FromLe16RoundTrip(bs[2], bs[3]);
    FromLe32RoundTrip(bs[4], bs[5], bs[6], bs[7]);
    FromLe32RoundTrip(bs[8], bs[9], bs[10], bs[11]);
    FromLe32RoundTrip(bs[12], bs[13], bs[14], bs[15]);
  }

  // ----- C: what polycall_protocol_send puts on the wire, what ..._process accepts

  /** The frame `send` builds; it refuses payloads that are empty or overflow its buffer. */
  function CFrame(kind: Byte, payload: seq<Byte>, flags: Half, sequence: Word): (frame: seq<Byte>)
    requires CanSend(payload)
  {
    Encode(Header(VERSION, kind, flags, sequence, |payload|, FrameChecksum(payload))) + payload
  }

  predicate CanSend(payload: seq<Byte>) {
    0 < |payload| && HEADER_SIZE + |payload| <= BUFFER_SIZE
  }

  /** The message types `process` has a case for. */
  predicate Deliverable(kind: Byte) {
    kind in {HANDSHAKE, AUTH, COMMAND, ERROR, HEARTBEAT}
  }

  predicate ValidMessageHeader(h: Header) {
    h.version == VERSION && HANDSHAKE <= h.kind <= HEARTBEAT
  }

  predicate VerifyChecksum(h: Header, payload: seq<Byte>) {
    |payload| > 0 && FrameChecksum(payload) == h.checksum
  }

  /** The return value of polycall_protocol_process. */
  predicate CAccepts(data: seq<Byte>) {
    && |data| >= HEADER_SIZE
    && ValidMessageHeader(Decode(data))
    && VerifyChecksum(Decode(data), data[HEADER_SIZE..])
    && Deliverable(data[1])
  }

  // ----- Node: createMessage and the checks of processMessage

  datatype NodeError =
    TooShort | VersionMismatch | PayloadTooLarge | LengthMismatch | ChecksumFailed

  datatype Checked = Passed(header: Header, payload: seq<Byte>) | Refused(error: NodeError)

  /** The bytes createMessage returns; the `writeUInt*` calls throw on a value out of range. */
  predicate NodeCanCreate(version: int, kind: int, payload: seq<Byte>, flags: int, sequence: int) {
    && 0 <= version < 0x100 && 0 <= kind < 0x100 && 0 <= flags < 0x1_0000
    && 0 <= sequence < WORD && |payload| < WORD
  }

  function NodeFrame(version: int, kind: int, payload: seq<Byte>, flags: int, sequence: int): (frame: seq<Byte>)
    requires NodeCanCreate(version, kind, payload, flags, sequence)
  {
    Encode(Header(version, kind, flags, sequence, |payload|, FrameChecksum(payload))) + payload
  }

  /** validateHeader and the length and checksum tests of processMessage. */
  function NodeCheck(version: int, data: seq<Byte>): (r: Checked)
  {
    if |data| < HEADER_SIZE then Refused(TooShort)
    else
      var header := Decode(data);
      var payload := data[HEADER_SIZE..];
      if header.version != version then Refused(VersionMismatch)
      else if header.payloadLength > MAX_PAYLOAD_SIZE then Refused(PayloadTooLarge)
      else if |payload| != header.payloadLength then Refused(LengthMismatch)
      else if FrameChecksum(payload) != header.checksum then Refused(ChecksumFailed)
      else Passed(header, payload)
  }

  // ----- Interoperability

  /** Everything the C side can send passes every Node check and decodes to what was sent. */
  lemma CFrameReachesNode(kind: Byte, payload: seq<Byte>, flags: Half, sequence: Word)
    requires CanSend(payload)
    ensures NodeCheck(VERSION, CFrame(kind, payload, flags, sequence))
         == Passed(Header(VERSION, kind, flags, sequence, |payload|, FrameChecksum(payload)), payload)
  {
    var h := Header(VERSION, kind, flags, sequence, |payload|, FrameChecksum(payload));
    HeaderRoundTrip(h, payload);
    assert (Encode(h) + payload)[HEADER_SIZE..] == payload;
  }

  /** Exactly which Node frames the C side accepts. */
  lemma NodeFrameReachesC(version: int, kind: int, payload: seq<Byte>, flags: int, sequence: int)
    requires NodeCanCreate(version, kind, payload, flags, sequence)
    ensures CAccepts(NodeFrame(version, kind, payload, flags, sequence))
       <==> version == VERSION && payload != [] && Deliverable(kind)
    ensures var frame := NodeFrame(version, kind, payload, flags, sequence);
            |frame| == HEADER_SIZE + |payload| && frame[1] == kind && frame[HEADER_SIZE..] == payload
  {
    var h := Header(version, kind, flags, sequence, |payload|, FrameChecksum(payload));
    HeaderRoundTrip(h, payload);
    assert (Encode(h) + payload)[HEADER_SIZE..] == payload;
  }

  /** The frames of `send` are accepted by `process` on the other end exactly when their
      type is deliverable. */
  lemma CFrameReachesC(kind: Byte, payload: seq<Byte>, flags: Half, sequence: Word)
    requires CanSend(payload)
    ensures CAccepts(CFrame(kind, payload, flags, sequence)) <==> Deliverable(kind)
    ensures CFrame(kind, payload, flags, sequence)[HEADER_SIZE..] == payload
  {
    NodeFrameReachesC(VERSION, kind, payload, flags, sequence);
  }

  /** Node accepts what another Node creates exactly up to a payload of 2^20 bytes; creating
      knows no such bound. */
  lemma NodeFrameReachesNode(version: int, kind: int, payload: seq<Byte>, flags: int, sequence: int)
    requires NodeCanCreate(version, kind, payload, flags, sequence)
    ensures NodeCheck(version, NodeFrame(version, kind, payload, flags, sequence))
         == if |payload| <= 1048576
            then Passed(Header(version, kind, flags, sequence, |payload|, FrameChecksum(payload)), payload)
            else Refused(PayloadTooLarge)
  {
    var h := Header(version, kind, flags, sequence, |payload|, FrameChecksum(payload));
    HeaderRoundTrip(h, payload);
    assert (Encode(h) + payload)[HEADER_SIZE..] == payload;
  }

  /** Acceptance read off the bytes, on either side: C looks at version, type and checksum;
      Node at version, length and checksum, whatever the type. */
  lemma AcceptedExactly(data: seq<Byte>, version: Byte)
    ensures CAccepts(data) <==>
              && |data| > 16 && data[0] == 1
              && (data[1] == 1 || data[1] == 2 || data[1] == 3 || data[1] == 5 || data[1] == 6)
              && WordAt(data, 12) == FrameChecksum(data[16..])
    ensures NodeCheck(version, data).Passed? <==>
              && 16 <= |data| <= 16 + 1048576 && data[0] == version
              && WordAt(data, 8) == |data| - 16 && WordAt(data, 12) == FrameChecksum(data[16..])
  {
  }

  /** The Node handshake reply has an empty payload, so the C side never accepts it. */
  lemma HandshakeReplyIsRefused(version: int, sequence: int)
    requires NodeCanCreate(version, HANDSHAKE, [], 8, sequence)
    ensures !CAccepts(NodeFrame(version, HANDSHAKE, [], 8, sequence))
    ensures version == VERSION ==>
              NodeCheck(VERSION, NodeFrame(version, HANDSHAKE, [], 8, sequence)).Passed?
  {
    NodeFrameReachesC(version, HANDSHAKE, [], 8, sequence);
    if version == VERSION {
      var h := Header(version, HANDSHAKE, 8, sequence, 0, FrameChecksum([]));
      HeaderRoundTrip(h, []);
      assert (Encode(h) + [])[HEADER_SIZE..] == [];
    }
  }

  // ----- Corruption in transit

  lemma PayloadChanges(data: seq<Byte>, p: nat, b: Byte)
    requires HEADER_SIZE <= p < |data| && data[p] != b
    ensures Decode(data[p := b]) == Decode(data)
    ensures FrameChecksum(data[p := b][HEADER_SIZE..]) != FrameChecksum(data[HEADER_SIZE..])
  {
    var payload := data[HEADER_SIZE..];
    assert data[p := b][HEADER_SIZE..] == payload[p - HEADER_SIZE := b];
    OneByteChangesSum(5, 0, payload, p - HEADER_SIZE, b);
  }

  /** One corrupted byte anywhere in an accepted frame: `process` still accepts the frame
      exactly when the byte belongs to flags, sequence or length, which it never reads, or
      turns the type into another deliverable one. */
  lemma COneByteCorruption(frame: seq<Byte>, p: nat, b: Byte)
    requires CAccepts(frame) && p < |frame| && b != frame[p]
    ensures CAccepts(frame[p := b]) <==> 2 <= p <= 11 || (p == 1 && Deliverable(b))
  {
    if p < HEADER_SIZE {
      assert frame[p := b][HEADER_SIZE..] == frame[HEADER_SIZE..];
      if p >= 12 { WordChanges(frame, 12, p, b); }
    } else {
      PayloadChanges(frame, p, b);
    }
  }

  /** The same for Node, which also compares the length field: only type, flags and
      sequence can be corrupted unnoticed by its checks. */
  lemma NodeOneByteCorruption(version: int, frame: seq<Byte>, p: nat, b: Byte)
    requires NodeCheck(version, frame).Passed? && p < |frame| && b != frame[p]
    ensures NodeCheck(version, frame[p := b]).Passed? <==> 1 <= p <= 7
  {
    if p < HEADER_SIZE {
      assert frame[p := b][HEADER_SIZE..] == frame[HEADER_SIZE..];
      if 8 <= p < 12 { WordChanges(frame, 8, p, b); }
      if p >= 12 { WordChanges(frame, 12, p, b); }
    } else {
      PayloadChanges(frame, p, b);
    }
  }
}
