/** The wire codec of the relay (src/shared.rs): the 8-byte packet header, the
    message-type tags and the 512-byte packet buffer with its read cursor. */
module Wire {
  import opened Results

  /** `u8` and `u16` of the source, as bit-vectors so that shifts and masks mean what they mean there. */
  type Byte = bv8
  type Word = bv16

  /** Seconds a connection lives after its creation or last refresh. */
  const CONN_LIFETIME: Byte := 65

  const BUFFER_SIZE: nat := 512
  const HEADER_SIZE: nat := 8

  /** The failures of the buffer's read operations. */
  datatype WireError =
    | EndOfBuffer        // a byte was asked for at or past the end of the buffer
    | HeaderAlreadyRead  // `read_header` with the cursor past 0
    | DataAlreadyRead    // `read_data` with the cursor past 7
    | HeaderNotFinished  // `read_data` with the cursor before 7

  // ---------------------------------------------------------------------------
  // Message types

  datatype Message = ServerHello | ClientHello | Data | ErrCode | Heartbeat

  /** The numeric tag each message type is declared with. */
  function MessageTag(m: Message): (n: Byte)
    ensures 1 <= n <= 5
  {
    match m
    case ServerHello => 1
    case ClientHello => 2
    case Data => 3
    case ErrCode => 4
    case Heartbeat => 5
  }

  /** Decodes a message tag; every value that is not a known tag, 4 included, decodes to `ErrCode`. */
  function MessageFromNum(num: Byte): (m: Message)
    ensures m == ErrCode <==> num !in {1, 2, 3, 5}
    ensures m != ErrCode ==> MessageTag(m) == num
  {
    match num
    case 1 => ServerHello
    case 2 => ClientHello
    case 3 => Data
    case 5 => Heartbeat
    case _ => ErrCode
  }

  /** Every message type survives being written as its tag and read back. */
  lemma MessageTagRoundTrip(m: Message)
    ensures MessageFromNum(MessageTag(m)) == m
  {
  }

  // ---------------------------------------------------------------------------
  // Big-endian 16-bit fields

  /** The two bytes of a word, taken apart with shifts and masks, weigh back to the word. */
  lemma BytesOfWord(w: Word)
    ensures 256 * ((w >> 8) as Byte) as int + ((w & 0xFF) as Byte) as int == w as int
  {
  }

  /** `(w >> 8) as u8` */
  function HighByte(w: Word): (b: Byte)
    ensures b as int == w as int / 256
  {
    (w >> 8) as Byte
  }

  /** `(w & 0xFF) as u8` */
  function LowByte(w: Word): (b: Byte)
    ensures 256 * HighByte(w) as int + b as int == w as int
  {
    BytesOfWord(w);
    (w & 0xFF) as Byte
  }

  /** The low byte is the word's remainder modulo 256. */
  lemma LowByteIsRemainder(w: Word)
    ensures LowByte(w) as int == w as int % 256
  {
  }

  /** `((hi as u16) << 8) | (lo as u16)`: the inverse of splitting a word into its two bytes. */
  function Join(hi: Byte, lo: Byte): (w: Word)
    ensures HighByte(w) == hi && LowByte(w) == lo
    ensures w as int == 256 * hi as int + lo as int
  {
    var w := ((hi as Word) << 8) | (lo as Word);
    BytesOfWord(w);
    w
  }

  lemma SplitJoin(w: Word)
    ensures Join(HighByte(w), LowByte(w)) == w
  {
  }

  // ---------------------------------------------------------------------------
  // Header

  /** The fixed packet header; the constructor is `Header::new`. */
  datatype Header = Header(packetNum: Byte, msgType: Byte, authType: Byte, fragment: Byte,
                           connId: Word, dataLen: Word)

  /** The 8 bytes a header is written as on the wire. */
  function HeaderBytes(h: Header): (b: seq<Byte>)
    ensures |b| == HEADER_SIZE
    ensures b[0] == h.packetNum && b[1] == h.msgType && b[2] == h.authType && b[3] == h.fragment
    ensures 256 * b[4] as int + b[5] as int == h.connId as int
    ensures 256 * b[6] as int + b[7] as int == h.dataLen as int
  {
    [h.packetNum, h.msgType, h.authType, h.fragment,
     HighByte(h.connId), LowByte(h.connId), HighByte(h.dataLen), LowByte(h.dataLen)]
  }

  /** The header that 8 bytes on the wire stand for. Every 8 bytes are some header's encoding. */
  function DecodeHeader(b: seq<Byte>): (h: Header)
    requires |b| == HEADER_SIZE
    ensures HeaderBytes(h) == b
  {
    Header(b[0], b[1], b[2], b[3], Join(b[4], b[5]), Join(b[6], b[7]))
  }

  /** Encoding then decoding gives the header back: no two headers share an encoding. */
  lemma HeaderRoundTrip(h: Header)
    ensures DecodeHeader(HeaderBytes(h)) == h
  {
  }

  /** `Header::to_bytes`: fills an 8-byte array field by field through a stepping index; never fails. */
  method ToBytes(h: Header) returns (r: Result<seq<Byte>, WireError>)
    ensures r.Ok? && r.value == HeaderBytes(h)
  {
    var res := new Byte[HEADER_SIZE](_ => 0);
    var pos := 0;
    res[pos] := h.packetNum;
    pos := pos + 1;
    res[pos] := h.msgType;
    pos := pos + 1;
    res[pos] := h.authType;
    pos := pos + 1;
    res[pos] := h.fragment;
    pos := pos + 1;
    res[pos] := (h.connId >> 8) as Byte;
    pos := pos + 1;
    res[pos] := (h.connId & 0xFF) as Byte;
    pos := pos + 1;
    res[pos] := (h.dataLen >> 8) as Byte;
    pos := pos + 1;
    res[pos] := (h.dataLen & 0xFF) as Byte;
    return Ok(res[..]);
  }

  // ---------------------------------------------------------------------------
  // The read cursor as a state machine

  /** The kinds of reading operation the buffer offers. */
  datatype ReadKind = ByteRead | WordRead | HeaderRead | DataRead | PayloadRead

  /** The buffer's reading operations, by their effect on the cursor. `ReadPayloadOp` is the
      corrected payload read of `PacketBuffer.ReadPayload`, which moves the cursor past the
      `length` bytes it returns. */
  datatype ReadOp = ReadByteOp | ReadWordOp | ReadHeaderOp | ReadDataOp | ReadPayloadOp(length: Word)
  {
    function Kind(): ReadKind {
      match this
      case ReadByteOp => ByteRead
      case ReadWordOp => WordRead
      case ReadHeaderOp => HeaderRead
      case ReadDataOp => DataRead
      case ReadPayloadOp(_) => PayloadRead
    }
  }

  /** Whether `op` succeeds when run at `pos` (for the data reads: does not return an error). */
  predicate Succeeds(pos: nat, op: ReadOp) {
    match op
    case ReadByteOp => pos < BUFFER_SIZE
    case ReadWordOp => pos + 2 <= BUFFER_SIZE
    case ReadHeaderOp => pos == 0
    case ReadDataOp => pos == HEADER_SIZE - 1
    case ReadPayloadOp(_) => pos == HEADER_SIZE
  }

  /** Where the cursor is after `op` ran at `pos`, whether `op` succeeded or not. */
  function NextPos(pos: nat, op: ReadOp): (p: nat)
    ensures pos <= p
    ensures op == ReadDataOp ==> p == pos
    ensures op == ReadHeaderOp ==> p == if pos == 0 then HEADER_SIZE else pos
    ensures op.ReadPayloadOp? ==> p == if Succeeds(pos, op) then HEADER_SIZE + op.length as nat else pos
  {
    match op
    case ReadByteOp => if pos < BUFFER_SIZE then pos + 1 else pos
    // the second byte is read only when the first one was (the `?` of `read_u16`)
    case ReadWordOp => if pos + 1 < BUFFER_SIZE then pos + 2 else if pos < BUFFER_SIZE then pos + 1 else pos
    // eight reads from offset 0 always stay inside the buffer
    case ReadHeaderOp => if pos > 0 then pos else HEADER_SIZE
    case ReadDataOp => pos
    case ReadPayloadOp(length) => if pos == HEADER_SIZE then HEADER_SIZE + length as nat else pos
  }

  /** How many times an operation of kind `kind` succeeds when `ops` run in order from `pos`. */
  function Successes(pos: nat, ops: seq<ReadOp>, kind: ReadKind): nat
    decreases |ops|
  {
    if ops == [] then 0
    else (if ops[0].Kind() == kind && Succeeds(pos, ops[0]) then 1 else 0)
         + Successes(NextPos(pos, ops[0]), ops[1..], kind)
  }

  /** Once the cursor has left 0, no header read succeeds any more. */
  lemma {:induction false} NoHeaderAfterStart(pos: nat, ops: seq<ReadOp>)
    requires pos > 0
    ensures Successes(pos, ops, HeaderRead) == 0
    decreases |ops|
  {
    if ops != [] {
      NoHeaderAfterStart(NextPos(pos, ops[0]), ops[1..]);
    }
  }

  /** The header of a buffer is read at most once, whatever reads are made on it. */
  lemma {:induction false} HeaderReadAtMostOnce(ops: seq<ReadOp>)
    ensures Successes(0, ops, HeaderRead) <= 1
  {
    if ops != [] {
      var p := NextPos(0, ops[0]);
      if p == 0 {
        assert ops[0] != ReadHeaderOp;
        HeaderReadAtMostOnce(ops[1..]);
      } else {
        NoHeaderAfterStart(p, ops[1..]);
      }
    }
  }

  /** Once the cursor is past 7, `read_data` never succeeds any more. */
  lemma {:induction false} NoDataPastSeven(pos: nat, ops: seq<ReadOp>)
    requires pos > HEADER_SIZE - 1
    ensures Successes(pos, ops, DataRead) == 0
    decreases |ops|
  {
    if ops != [] {
      NoDataPastSeven(NextPos(pos, ops[0]), ops[1..]);
    }
  }

  /** After a successful `read_header` no later `read_data` succeeds: the payload of a packet
      cannot be read through `read_data` once its header was. */
  lemma {:induction false} DataNeverFollowsHeader(pos: nat, ops: seq<ReadOp>)
    requires Succeeds(pos, ReadHeaderOp)
    ensures Successes(NextPos(pos, ReadHeaderOp), ops, DataRead) == 0
  {
    NoDataPastSeven(NextPos(pos, ReadHeaderOp), ops);
  }

  /** With the corrected guard, the payload read right after a successful header read succeeds,
      whatever its length. */
  lemma PayloadFollowsHeaderRead(pos: nat, length: Word)
    requires Succeeds(pos, ReadHeaderOp)
    ensures Succeeds(NextPos(pos, ReadHeaderOp), ReadPayloadOp(length))
  {
  }

  /** Once the cursor is past the header, the corrected payload read never succeeds any more. */
  lemma {:induction false} NoPayloadPastHeader(pos: nat, ops: seq<ReadOp>)
    requires pos > HEADER_SIZE
    ensures Successes(pos, ops, PayloadRead) == 0
    decreases |ops|
  {
    if ops != [] {
      NoPayloadPastHeader(NextPos(pos, ops[0]), ops[1..]);
    }
  }

  /** A payload is read at most once: after a successful payload read of at least one byte, no
      later payload read succeeds, whatever reads follow. */
  lemma {:induction false} PayloadReadAtMostOnce(pos: nat, length: Word, ops: seq<ReadOp>)
    requires Succeeds(pos, ReadPayloadOp(length)) && length > 0
    ensures Successes(NextPos(pos, ReadPayloadOp(length)), ops, PayloadRead) == 0
  {
    NoPayloadPastHeader(NextPos(pos, ReadPayloadOp(length)), ops);
  }

  // ---------------------------------------------------------------------------
  // The packet buffer

  /** `BytePacketBuffer`: 512 bytes and a read cursor. */
  class PacketBuffer {
    const buf: array<Byte>
    var pos: nat

    predicate Valid() {
      buf.Length == BUFFER_SIZE
    }

    /** `BytePacketBuffer::new`: all zero, cursor at the start. */
    constructor ()
      ensures Valid() && fresh(buf) && pos == 0
      ensures forall i :: 0 <= i < BUFFER_SIZE ==> buf[i] == 0
    {
      buf := new Byte[BUFFER_SIZE](_ => 0);
      pos := 0;
    }

    /** `read`: the byte under the cursor, moving the cursor one on; fails at the end of the buffer. */
    method Read() returns (r: Result<Byte, WireError>)
      requires Valid()
      modifies this`pos
      ensures r.Ok? <==> Succeeds(old(pos), ReadByteOp)
      ensures r.Ok? ==> r.value == buf[old(pos)]
      ensures r.Err? ==> r.error == EndOfBuffer
      ensures pos == NextPos(old(pos), ReadByteOp)
      ensures r.Ok? ==> pos == old(pos) + 1
    {
      if pos >= BUFFER_SIZE {
        return Err(EndOfBuffer);
      }
      r := Ok(buf[pos]);
      pos := pos + 1;
    }

    /** `read_u16`: two bytes, most significant first. When only the first byte can be read,
        the cursor has moved past it and the call fails. */
    method ReadU16() returns (r: Result<Word, WireError>)
      requires Valid()
      modifies this`pos
      ensures r.Ok? <==> Succeeds(old(pos), ReadWordOp)
      ensures r.Ok? ==> r.value == Join(buf[old(pos)], buf[old(pos) + 1])
      ensures r.Err? ==> r.error == EndOfBuffer
      ensures pos == NextPos(old(pos), ReadWordOp)
      ensures r.Ok? ==> pos == old(pos) + 2
    {
      var hi :- Read();
      var lo :- Read();
      return Ok(((hi as Word) << 8) | (lo as Word));
    }

    /** `read_header`: decodes the first 8 bytes when the cursor is at 0, leaving it at 8;
        fails, changing nothing, anywhere else. The `?` after each read of the source never
        fires: eight bytes always fit in the buffer. */
    method ReadHeader() returns (r: Result<Header, WireError>)
      requires Valid()
      modifies this`pos
      ensures r.Ok? <==> Succeeds(old(pos), ReadHeaderOp)
      ensures r.Ok? ==> r.value == DecodeHeader(buf[..HEADER_SIZE]) && pos == HEADER_SIZE
      ensures r.Err? ==> r.error == HeaderAlreadyRead && pos == old(pos)
      ensures pos == NextPos(old(pos), ReadHeaderOp)
    {
      if pos > 0 {
        return Err(HeaderAlreadyRead);
      }
      var packNum := Read();
      var msgType := Read();
      var authType := Read();
      var fragment := Read();
      var connId := ReadU16();
      var dataLen := ReadU16();
      r := Ok(Header(packNum.value, msgType.value, authType.value, fragment.value,
                     connId.value, dataLen.value));
    }

    /** `read_data`, as written: succeeds only with the cursor at 7, where it returns the
        `length + 1` bytes from offset 8 on, and never moves the cursor. The slice would run past
        the buffer when `length + 9 > 512`, where the source panics. */
    function ReadData(length: Word): (r: Result<seq<Byte>, WireError>)
      requires Valid()
      requires pos == HEADER_SIZE - 1 ==> length as int + HEADER_SIZE + 1 <= BUFFER_SIZE
      reads this, buf
      ensures r.Ok? <==> Succeeds(pos, ReadDataOp)
      ensures pos > HEADER_SIZE - 1 ==> r == Err(DataAlreadyRead)
      ensures pos < HEADER_SIZE - 1 ==> r == Err(HeaderNotFinished)
      ensures r.Ok? ==> |r.value| == length as int + 1
      ensures r.Ok? ==> forall i :: 0 <= i < |r.value| ==> r.value[i] == buf[HEADER_SIZE + i]
    {
      if pos > 7 then
        Err(DataAlreadyRead)
      else if pos == 7 then
        var end := pos + length as nat;
        Ok(buf[pos + 1..end + 2])
      else
        Err(HeaderNotFinished)
    }

    /** The payload read `read_data` evidently stands for: with the cursor right after the
        header, the `length` bytes that follow it, moving the cursor past them so that the
        payload is read once only. Like `read_data`, it panics when the payload would run past
        the buffer. */
    method ReadPayload(length: Word) returns (r: Result<seq<Byte>, WireError>)
      requires Valid()
      requires pos == HEADER_SIZE ==> HEADER_SIZE + length as int <= BUFFER_SIZE
      modifies this`pos
      ensures r.Ok? <==> Succeeds(old(pos), ReadPayloadOp(length))
      ensures old(pos) > HEADER_SIZE ==> r == Err(DataAlreadyRead)
      ensures old(pos) < HEADER_SIZE ==> r == Err(HeaderNotFinished)
      ensures r.Ok? ==> |r.value| == length as int && r.value == buf[HEADER_SIZE..HEADER_SIZE + length as int]
      ensures pos == NextPos(old(pos), ReadPayloadOp(length))
      ensures r.Ok? ==> pos == HEADER_SIZE + length as int
      ensures r.Err? ==> pos == old(pos)
    {
      if pos > HEADER_SIZE {
        return Err(DataAlreadyRead);
      } else if pos < HEADER_SIZE {
        return Err(HeaderNotFinished);
      }
      r := Ok(buf[pos..pos + length as nat]);
      pos := pos + length as nat;
    }
  }

  /** A packet laid out as header, payload and padding, with the header read: the header decodes
      back, the corrected payload read succeeds, and the bytes it returns are the payload. */
  lemma PayloadFollowsHeader(b: PacketBuffer, h: Header, payload: seq<Byte>)
    requires b.Valid() && b.pos == HEADER_SIZE
    requires |payload| == h.dataLen as int && HEADER_SIZE + |payload| <= BUFFER_SIZE
    requires b.buf[..HEADER_SIZE + |payload|] == HeaderBytes(h) + payload
    ensures DecodeHeader(b.buf[..HEADER_SIZE]) == h
    ensures Succeeds(b.pos, ReadPayloadOp(h.dataLen))
    ensures b.buf[HEADER_SIZE..HEADER_SIZE + h.dataLen as int] == payload
  {
    var packet := b.buf[..HEADER_SIZE + |payload|];
    assert packet[..HEADER_SIZE] == HeaderBytes(h);
    assert b.buf[..HEADER_SIZE] == packet[..HEADER_SIZE];
    HeaderRoundTrip(h);
    assert packet[HEADER_SIZE..] == payload;
    assert b.buf[HEADER_SIZE..HEADER_SIZE + |payload|] == packet[HEADER_SIZE..];
  }

  /** The same layout read through `read_data` as written: it fails right after the header. */
  lemma ReadDataFailsAfterHeader(b: PacketBuffer, length: Word)
    requires b.Valid() && b.pos == HEADER_SIZE
    ensures b.ReadData(length) == Err(DataAlreadyRead)
  {
  }
}
