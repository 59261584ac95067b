/** The three GPSR headers: what their bytes are, the buffer-iterator code that writes and reads them,
    and the frame of a data packet, a type byte and a position header in front of the payload. */
module Packets {
  import opened Types
  import opened Geometry

  datatype MessageType = Hello | Pos

  datatype TypeHeader = TypeHeader(kind: MessageType, valid: bool)

  datatype HelloHeader = HelloHeader(origin: Point)

  /** The mode state that a data packet carries. */
  datatype PositionHeader = PositionHeader(dst: Point, updated: U32, rec: Point, inRec: U8, last: Point)

  const TYPE_HELLO: U8 := 1
  const TYPE_POS: U8 := 2
  const TYPE_SIZE := 1
  const HELLO_SIZE := 16
  const POSITION_SIZE := 53

  // ---------- network byte order ----------

  function Power256(width: nat): nat {
    if width == 0 then 1 else 256 * Power256(width - 1)
  }

  function BigEndian(value: nat, width: nat): (bytes: seq<U8>)
    ensures |bytes| == width
  {
    if width == 0 then [] else BigEndian(value / 256, width - 1) + [value % 256]
  }

  function Value(bytes: seq<U8>): nat {
    if bytes == [] then 0 else Value(bytes[..|bytes| - 1]) * 256 + bytes[|bytes| - 1]
  }

  lemma {:induction false} ValueOfBigEndian(value: nat, width: nat)
    requires value < Power256(width)
    ensures Value(BigEndian(value, width)) == value
  {
    if width > 0 {
      ValueOfBigEndian(value / 256, width - 1);
      assert BigEndian(value, width)[..width - 1] == BigEndian(value / 256, width - 1);
    }
  }

  lemma {:induction false} BigEndianOfValue(bytes: seq<U8>)
    ensures BigEndian(Value(bytes), |bytes|) == bytes
    ensures Value(bytes) < Power256(|bytes|)
  {
    if bytes != [] {
      var n := |bytes| - 1;
      BigEndianOfValue(bytes[..n]);
      assert Value(bytes) / 256 == Value(bytes[..n]) && Value(bytes) % 256 == bytes[n];
    }
  }

  lemma Power256Values()
    ensures Power256(4) == 0x1_0000_0000 && Power256(8) == TWO_TO_THE_64
  {
    assert Power256(1) == 256;
    assert Power256(2) == 65536;
    assert Power256(3) == 16777216;
    assert Power256(4) == 0x1_0000_0000;
    assert Power256(5) == 0x100_0000_0000;
    assert Power256(6) == 0x1_0000_0000_0000;
    assert Power256(7) == 0x100_0000_0000_0000;
  }

  // ---------- bytes of the headers ----------

  function TypeCode(kind: MessageType): U8 {
    match kind
    case Hello => TYPE_HELLO
    case Pos => TYPE_POS
  }

  /** An unknown code leaves the receiver's message type as it was and marks the header invalid. */
  function DecodeType(before: TypeHeader, code: U8): TypeHeader {
    if code == TYPE_HELLO then TypeHeader(Hello, true)
    else if code == TYPE_POS then TypeHeader(Pos, true)
    else TypeHeader(before.kind, false)
  }

  function PointBytes(p: Point): (bytes: seq<U8>)
    ensures |bytes| == 16
  {
    BigEndian(p.x, 8) + BigEndian(p.y, 8)
  }

  function DecodePoint(bytes: seq<U8>): Point
    requires |bytes| == 16
  {
    ReadableAsWord(bytes[..8]);
    ReadableAsWord(bytes[8..]);
    Point(Value(bytes[..8]), Value(bytes[8..]))
  }

  lemma ReadableAsWord(bytes: seq<U8>)
    ensures |bytes| == 8 ==> Value(bytes) < TWO_TO_THE_64
    ensures |bytes| == 4 ==> Value(bytes) < 0x1_0000_0000
  {
    BigEndianOfValue(bytes);
    Power256Values();
  }

  function HelloBytes(h: HelloHeader): (bytes: seq<U8>)
    ensures |bytes| == HELLO_SIZE
  {
    PointBytes(h.origin)
  }

  function PositionBytes(h: PositionHeader): (bytes: seq<U8>)
    ensures |bytes| == POSITION_SIZE
  {
    PointBytes(h.dst) + BigEndian(h.updated, 4) + PointBytes(h.rec) + [h.inRec] + PointBytes(h.last)
  }

  function DecodePosition(bytes: seq<U8>): PositionHeader
    requires |bytes| == POSITION_SIZE
  {
    ReadableAsWord(bytes[16..20]);
    PositionHeader(DecodePoint(bytes[..16]), Value(bytes[16..20]), DecodePoint(bytes[20..36]),
                   bytes[36], DecodePoint(bytes[37..53]))
  }

  /** Network byte order: the first byte counts most. With ValueOfBigEndian this fixes every byte. */
  lemma {:induction false} FirstCountsMost(b: U8, rest: seq<U8>)
    ensures Value([b] + rest) == b * Power256(|rest|) + Value(rest)
    ensures Power256(0) == 1 && Power256(|rest| + 1) == 256 * Power256(|rest|)
  {
    if rest == [] {
      assert ([b] + rest)[..0] == [] && [b] + rest == [b];
    } else {
      var n := |rest| - 1;
      FirstCountsMost(b, rest[..n]);
      assert ([b] + rest)[..|rest|] == [b] + rest[..n];
      ScaleUp(b, Power256(n), Value(rest[..n]));
    }
  }

  lemma ScaleUp(b: nat, p: nat, v: nat)
    ensures (b * p + v) * 256 == b * (256 * p) + v * 256
  {
  }

  /** The layout of the headers, field by field. */
  lemma PositionLayout(h: PositionHeader)
    ensures var bytes := PositionBytes(h);
            && bytes[0..8] == BigEndian(h.dst.x, 8) && bytes[8..16] == BigEndian(h.dst.y, 8)
            && bytes[16..20] == BigEndian(h.updated, 4)
            && bytes[20..28] == BigEndian(h.rec.x, 8) && bytes[28..36] == BigEndian(h.rec.y, 8)
            && bytes[36] == h.inRec
            && bytes[37..45] == BigEndian(h.last.x, 8) && bytes[45..53] == BigEndian(h.last.y, 8)
  {
  }

  lemma FrameLayout(hdr: PositionHeader, payload: seq<U8>, hello: HelloHeader)
    ensures Frame(hdr, payload)[0] == 2 && Frame(hdr, payload)[1..54] == PositionBytes(hdr)
    ensures Frame(hdr, payload)[54..] == payload
    ensures TypeCode(Hello) == 1 && TypeCode(Pos) == 2
    ensures HelloBytes(hello)[..8] == BigEndian(hello.origin.x, 8)
    ensures HelloBytes(hello)[8..] == BigEndian(hello.origin.y, 8)
  {
  }

  lemma TypeRoundTrip(before: TypeHeader, kind: MessageType, code: U8)
    ensures DecodeType(before, TypeCode(kind)) == TypeHeader(kind, true)
    ensures DecodeType(before, code).valid ==> TypeCode(DecodeType(before, code).kind) == code
    ensures !DecodeType(before, code).valid <==> code != 1 && code != 2
    ensures !DecodeType(before, code).valid ==> DecodeType(before, code).kind == before.kind
  {
  }

  lemma PointRoundTrip(p: Point)
    ensures DecodePoint(PointBytes(p)) == p
  {
    Power256Values();
    ValueOfBigEndian(p.x, 8);
    ValueOfBigEndian(p.y, 8);
    var bytes := PointBytes(p);
    assert bytes[..8] == BigEndian(p.x, 8) && bytes[8..] == BigEndian(p.y, 8);
  }

  lemma PointBytesRoundTrip(bytes: seq<U8>)
    requires |bytes| == 16
    ensures PointBytes(DecodePoint(bytes)) == bytes
  {
    BigEndianOfValue(bytes[..8]);
    BigEndianOfValue(bytes[8..]);
    assert bytes == bytes[..8] + bytes[8..];
  }

  /** Decoding undoes encoding, for every header ... */
  lemma PositionRoundTrip(h: PositionHeader)
    ensures DecodePosition(PositionBytes(h)) == h
  {
    var bytes := PositionBytes(h);
    assert bytes[..16] == PointBytes(h.dst);
    assert bytes[16..20] == BigEndian(h.updated, 4);
    assert bytes[20..36] == PointBytes(h.rec);
    assert bytes[36] == h.inRec;
    assert bytes[37..53] == PointBytes(h.last);
    PointRoundTrip(h.dst);
    PointRoundTrip(h.rec);
    PointRoundTrip(h.last);
    Power256Values();
    ValueOfBigEndian(h.updated, 4);
  }

  /** ... and encoding undoes decoding, for every 53 bytes. */
  lemma PositionBytesRoundTrip(bytes: seq<U8>)
    requires |bytes| == POSITION_SIZE
    ensures PositionBytes(DecodePosition(bytes)) == bytes
  {
    PointBytesRoundTrip(bytes[..16]);
    BigEndianOfValue(bytes[16..20]);
    PointBytesRoundTrip(bytes[20..36]);
    PointBytesRoundTrip(bytes[37..53]);
    assert bytes == bytes[..16] + bytes[16..20] + bytes[20..36] + [bytes[36]] + bytes[37..53];
  }

  lemma HelloRoundTrip(h: HelloHeader, bytes: seq<U8>)
    requires |bytes| == HELLO_SIZE
    ensures HelloHeader(DecodePoint(HelloBytes(h))) == h
    ensures HelloBytes(HelloHeader(DecodePoint(bytes))) == bytes
  {
    PointRoundTrip(h.origin);
    PointBytesRoundTrip(bytes);
  }

  // ---------- the frame of a data packet ----------

  datatype Parsed = Data(hdr: PositionHeader, payload: seq<U8>) | UnknownType

  /** The frame of a data packet on the wire. */
  function Frame(hdr: PositionHeader, payload: seq<U8>): seq<U8> {
    [TYPE_POS] + PositionBytes(hdr) + payload
  }

  /** Packets whose headers the original can take off: there is a type byte, a position type announces
      a whole position header, and no data packet carries the HELLO type. */
  predicate Readable(bytes: seq<U8>) {
    && |bytes| >= TYPE_SIZE
    && bytes[0] != TYPE_HELLO
    && (bytes[0] == TYPE_POS ==> |bytes| >= TYPE_SIZE + POSITION_SIZE)
  }

  /** Of the readable packets, those whose type is known. */
  predicate IsData(bytes: seq<U8>) {
    |bytes| >= TYPE_SIZE + POSITION_SIZE && bytes[0] == TYPE_POS
  }

  function Parse(bytes: seq<U8>): (parsed: Parsed)
    ensures parsed.Data? <==> IsData(bytes)
  {
    if IsData(bytes) then Data(DecodePosition(bytes[1..54]), bytes[54..]) else UnknownType
  }

  lemma FrameRoundTrip(hdr: PositionHeader, payload: seq<U8>)
    ensures Readable(Frame(hdr, payload)) && Parse(Frame(hdr, payload)) == Data(hdr, payload)
  {
    var bytes := Frame(hdr, payload);
    assert bytes[1..54] == PositionBytes(hdr);
    assert bytes[54..] == payload;
    PositionRoundTrip(hdr);
  }

  lemma ParseRoundTrip(bytes: seq<U8>)
    requires Parse(bytes).Data?
    ensures Frame(Parse(bytes).hdr, Parse(bytes).payload) == bytes
  {
    PositionBytesRoundTrip(bytes[1..54]);
    assert bytes == [bytes[0]] + bytes[1..54] + bytes[54..];
  }

  // ---------- the buffer iterator ----------

  /** The buffer with bytes written at a position. */
  function Overwrite(buffer: seq<U8>, at: nat, bytes: seq<U8>): (r: seq<U8>)
    requires at + |bytes| <= |buffer|
    ensures |r| == |buffer|
  {
    buffer[..at] + bytes + buffer[at + |bytes|..]
  }

  lemma OverwriteTwice(buffer: seq<U8>, at: nat, p: seq<U8>, q: seq<U8>)
    requires at + |p| + |q| <= |buffer|
    ensures Overwrite(Overwrite(buffer, at, p), at + |p|, q) == Overwrite(buffer, at, p + q)
  {
  }

  /** A position in a packet's buffer; every access moves it on. */
  class BufferIterator {
    const buffer: array<U8>
    var current: nat

    constructor (data: array<U8>, start: nat)
      ensures buffer == data && current == start
    {
      buffer, current := data, start;
    }

    /** Room for n more bytes. */
    predicate Room(n: nat)
      reads this
    {
      current + n <= buffer.Length
    }

    method WriteU8(b: U8)
      requires Room(1)
      modifies this`current, buffer
      ensures current == old(current) + 1
      ensures buffer[..] == Overwrite(old(buffer[..]), old(current), [b])
    {
      buffer[current] := b;
      current := current + 1;
    }

    /** Most significant byte first, as WriteHtonU32 and WriteHtonU64 do. */
    method WriteHton(value: nat, width: nat)
      requires Room(width)
      modifies this`current, buffer
      ensures current == old(current) + width
      ensures buffer[..] == Overwrite(old(buffer[..]), old(current), BigEndian(value, width))
    {
      ghost var before, at := buffer[..], current;
      var bytes := BigEndian(value, width);
      for i := 0 to width
        invariant current == at + i
        invariant buffer[..] == Overwrite(before, at, bytes[..i])
      {
        OverwriteTwice(before, at, bytes[..i], [bytes[i]]);
        assert bytes[..i + 1] == bytes[..i] + [bytes[i]];
        WriteU8(bytes[i]);
      }
      assert bytes[..width] == bytes;
    }

    method ReadU8() returns (b: U8)
      requires Room(1)
      modifies this`current
      ensures current == old(current) + 1 && b == buffer[old(current)]
    {
      b := buffer[current];
      current := current + 1;
    }

    method ReadNtoh(width: nat) returns (value: nat)
      requires Room(width)
      modifies this`current
      ensures current == old(current) + width && value == Value(buffer[old(current)..current])
    {
      value := 0;
      ghost var start := current;
      var i := 0;
      while i < width
        invariant 0 <= i <= width
        invariant current == start + i
        invariant value == Value(buffer[start..current])
      {
        assert buffer[start..current + 1][..i] == buffer[start..current];
        value := value * 256 + buffer[current];
        current := current + 1;
        i := i + 1;
      }
    }

    method WritePoint(p: Point)
      requires Room(16)
      modifies this`current, buffer
      ensures current == old(current) + 16
      ensures buffer[..] == Overwrite(old(buffer[..]), old(current), PointBytes(p))
    {
      WriteHton(p.x, 8);
      WriteHton(p.y, 8);
      OverwriteTwice(old(buffer[..]), old(current), BigEndian(p.x, 8), BigEndian(p.y, 8));
    }

    method ReadPoint() returns (p: Point)
      requires Room(16)
      modifies this`current
      ensures current == old(current) + 16 && p == DecodePoint(buffer[old(current)..current])
    {
      ghost var start := current;
      var x := ReadNtoh(8);
      ReadableAsWord(buffer[start..current]);
      var y := ReadNtoh(8);
      ReadableAsWord(buffer[start + 8..current]);
      ghost var bytes := buffer[start..current];
      assert bytes[..8] == buffer[start..start + 8] && bytes[8..] == buffer[start + 8..current];
      p := Point(x, y);
    }
  }

  // ---------- serialising and deserialising ----------

  method SerializeType(kind: MessageType, i: BufferIterator)
    requires i.Room(TYPE_SIZE)
    modifies i`current, i.buffer
    ensures i.current == old(i.current) + TYPE_SIZE
    ensures i.buffer[..] == Overwrite(old(i.buffer[..]), old(i.current), [TypeCode(kind)])
  {
    i.WriteU8(TypeCode(kind));
  }

  method DeserializeType(before: TypeHeader, i: BufferIterator) returns (h: TypeHeader, size: nat)
    requires i.Room(TYPE_SIZE)
    modifies i`current
    ensures size == TYPE_SIZE && i.current == old(i.current) + size
    ensures h == DecodeType(before, i.buffer[old(i.current)])
  {
    var start := i.current;
    var code := i.ReadU8();
    h := before.(valid := true);
    match code {
      case 1 => h := h.(kind := Hello);
      case 2 => h := h.(kind := Pos);
      case _ => h := h.(valid := false);
    }
    size := i.current - start;
  }

  method SerializeHello(h: HelloHeader, i: BufferIterator)
    requires i.Room(HELLO_SIZE)
    modifies i`current, i.buffer
    ensures i.current == old(i.current) + HELLO_SIZE
    ensures i.buffer[..] == Overwrite(old(i.buffer[..]), old(i.current), HelloBytes(h))
  {
    i.WritePoint(h.origin);
  }

  method DeserializeHello(i: BufferIterator) returns (h: HelloHeader, size: nat)
    requires i.Room(HELLO_SIZE)
    modifies i`current
    ensures size == HELLO_SIZE && i.current == old(i.current) + size
    ensures h == HelloHeader(DecodePoint(i.buffer[old(i.current)..i.current]))
  {
    var start := i.current;
    var p := i.ReadPoint();
    h := HelloHeader(p);
    size := i.current - start;
  }

  method SerializePosition(h: PositionHeader, i: BufferIterator)
    requires i.Room(POSITION_SIZE)
    modifies i`current, i.buffer
    ensures i.current == old(i.current) + POSITION_SIZE
    ensures i.buffer[..] == Overwrite(old(i.buffer[..]), old(i.current), PositionBytes(h))
  {
    ghost var before, at, bytes := i.buffer[..], i.current, PointBytes(h.dst);
    i.WritePoint(h.dst);
    i.WriteHton(h.updated, 4);
    OverwriteTwice(before, at, bytes, BigEndian(h.updated, 4));
    bytes := bytes + BigEndian(h.updated, 4);
    i.WritePoint(h.rec);
    OverwriteTwice(before, at, bytes, PointBytes(h.rec));
    bytes := bytes + PointBytes(h.rec);
    i.WriteU8(h.inRec);
    OverwriteTwice(before, at, bytes, [h.inRec]);
    bytes := bytes + [h.inRec];
    i.WritePoint(h.last);
    OverwriteTwice(before, at, bytes, PointBytes(h.last));
  }

  method DeserializePosition(i: BufferIterator) returns (h: PositionHeader, size: nat)
    requires i.Room(POSITION_SIZE)
    modifies i`current
    ensures size == POSITION_SIZE && i.current == old(i.current) + size
    ensures h == DecodePosition(i.buffer[old(i.current)..i.current])
  {
    var start := i.current;
    var dst := i.ReadPoint();
    var updated := i.ReadNtoh(4);
    ReadableAsWord(i.buffer[start + 16..i.current]);
    var rec := i.ReadPoint();
    var inRec := i.ReadU8();
    var last := i.ReadPoint();
    h := PositionHeader(dst, updated, rec, inRec, last);
    size := i.current - start;
    ghost var bytes := i.buffer[start..i.current];
    assert bytes[..16] == i.buffer[start..start + 16];
    assert bytes[16..20] == i.buffer[start + 16..start + 20];
    assert bytes[20..36] == i.buffer[start + 20..start + 36];
    assert bytes[37..53] == i.buffer[start + 37..start + 53];
  }
}
