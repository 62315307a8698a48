/** FilePacket values and their 11-byte big-endian header framing. */
module FilePackets {
  import opened Bytes

  const MAX_FILE_DATA_PER_FRAME: nat := 990
  const HEADER_SIZE: nat := 11
  const DESCRIPTOR_SIZE: nat := 2
  const FILE_DESCRIPTOR: nat := 3

  datatype PacketType = START | DATA | END | CANCEL

  datatype FilePacket = FilePacket(kind: PacketType, sequenceIndex: nat, offset: nat, payload: seq<byte>) {
    /** The checks the packet constructor makes. */
    predicate Valid() {
      && sequenceIndex <= U32_MAX
      && offset <= U32_MAX
      && (if kind == DATA then |payload| <= MAX_FILE_DATA_PER_FRAME else |payload| <= 0xFFFF)
    }
  }

  datatype DecodeError = TooShort | UnknownType | LengthMismatch | FieldOutOfRange | WrongDescriptor

  function TypeCode(kind: PacketType): byte {
    match kind
    case START => 1
    case DATA => 2
    case END => 3
    case CANCEL => 4
  }

  function TypeOf(code: byte): Option<PacketType> {
    match code
    case 1 => Some(START)
    case 2 => Some(DATA)
    case 3 => Some(END)
    case 4 => Some(CANCEL)
    case _ => None
  }

  function U16Bytes(v: nat): seq<byte>
    requires v <= 0xFFFF
  {
    [v / 0x100, v % 0x100]
  }

  function U32Bytes(v: nat): seq<byte>
    requires v <= U32_MAX
  {
    U16Bytes(v / 0x1_0000) + U16Bytes(v % 0x1_0000)
  }

  function U16Value(b: seq<byte>): (v: nat)
    requires |b| == 2
    ensures v <= 0xFFFF
  {
    b[0] as nat * 0x100 + b[1]
  }

  function U32Value(b: seq<byte>): (v: nat)
    requires |b| == 4
    ensures v <= U32_MAX
  {
    U16Value(b[..2]) * 0x1_0000 + U16Value(b[2..])
  }

  lemma U16RoundTrip(v: nat, b: seq<byte>)
    requires v <= 0xFFFF && |b| == 2
    ensures U16Value(U16Bytes(v)) == v && U16Bytes(U16Value(b)) == b
  {
  }

  lemma U32RoundTrip(v: nat, b: seq<byte>)
    requires v <= U32_MAX && |b| == 4
    ensures U32Value(U32Bytes(v)) == v && U32Bytes(U32Value(b)) == b
  {
    U16RoundTrip(v / 0x1_0000, b[..2]);
    U16RoundTrip(v % 0x1_0000, b[2..]);
    assert U32Bytes(v)[..2] == U16Bytes(v / 0x1_0000) && U32Bytes(v)[2..] == U16Bytes(v % 0x1_0000);
    assert U32Value(b) / 0x1_0000 == U16Value(b[..2]) && U32Value(b) % 0x1_0000 == U16Value(b[2..]);
    assert b == b[..2] + b[2..];
  }

  function Encode(p: FilePacket): seq<byte>
    requires p.Valid()
  {
    [TypeCode(p.kind)] + U32Bytes(p.sequenceIndex) + U32Bytes(p.offset) + U16Bytes(|p.payload|) + p.payload
  }

  function Decode(data: seq<byte>): Result<FilePacket, DecodeError> {
    if |data| < HEADER_SIZE then Err(TooShort)
    else if TypeOf(data[0]).None? then Err(UnknownType)
    else if |data| != HEADER_SIZE + U16Value(data[9..11]) then Err(LengthMismatch)
    else
      var p := FilePacket(TypeOf(data[0]).value, U32Value(data[1..5]), U32Value(data[5..9]), data[11..]);
      if p.Valid() then Ok(p) else Err(FieldOutOfRange)
  }

  function EncodeFramed(p: FilePacket): seq<byte>
    requires p.Valid()
  {
    U16Bytes(FILE_DESCRIPTOR) + Encode(p)
  }

  function DecodeFramed(data: seq<byte>): Result<FilePacket, DecodeError> {
    if |data| < DESCRIPTOR_SIZE + HEADER_SIZE then Err(TooShort)
    else if U16Value(data[..2]) != FILE_DESCRIPTOR then Err(WrongDescriptor)
    else Decode(data[2..])
  }

  lemma DecodeEncode(p: FilePacket)
    requires p.Valid()
    ensures Decode(Encode(p)) == Ok(p)
  {
    var e := Encode(p);
    assert e[1..5] == U32Bytes(p.sequenceIndex) && e[5..9] == U32Bytes(p.offset);
    assert e[9..11] == U16Bytes(|p.payload|) && e[11..] == p.payload;
    U32RoundTrip(p.sequenceIndex, e[1..5]);
    U32RoundTrip(p.offset, e[5..9]);
    U16RoundTrip(|p.payload|, e[9..11]);
  }

  lemma EncodeDecode(data: seq<byte>, p: FilePacket)
    requires Decode(data) == Ok(p)
    ensures p.Valid() && Encode(p) == data
  {
    U32RoundTrip(0, data[1..5]);
    U32RoundTrip(0, data[5..9]);
    U16RoundTrip(0, data[9..11]);
    assert data == [data[0]] + data[1..5] + data[5..9] + data[9..11] + data[11..];
  }

  /**
   Framing is a bijection between valid packets and the byte strings the decoder accepts:
   what is decoded is what was framed, and nothing else decodes.
   */
  lemma FramingIsBijective(data: seq<byte>, p: FilePacket)
    ensures DecodeFramed(data) == Ok(p) <==> p.Valid() && data == EncodeFramed(p)
  {
    if DecodeFramed(data) == Ok(p) {
      EncodeDecode(data[2..], p);
      U16RoundTrip(FILE_DESCRIPTOR, data[..2]);
      assert data == data[..2] + data[2..];
    }
    if p.Valid() && data == EncodeFramed(p) {
      assert data[..2] == U16Bytes(FILE_DESCRIPTOR) && data[2..] == Encode(p);
      U16RoundTrip(FILE_DESCRIPTOR, data[..2]);
      DecodeEncode(p);
    }
  }
}
