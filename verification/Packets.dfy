// The packet layout: two little-endian shorts, size and type, and the body behind them.
module Packets {
  import opened Memory

  type Short = x: int | -0x8000 <= x < 0x8000

  const MAX_PACKET_SIZE := 65000
  const HEADER := 4
  const SOCKET_BUF_SIZE := 512

  // (unsigned short)x
  function Unsigned(x: Short): nat
  {
    if x < 0 then x + 0x1_0000 else x
  }

  function ShortBytes(x: Short): (b: seq<byte>)
    ensures |b| == 2
  {
    [Digit(x, 0), Digit(x, 1)]
  }

  function ToShort(low: byte, high: byte): Short
  {
    var u := low + 256 * high;
    if u < 0x8000 then u else u - 0x1_0000
  }

  lemma ShortRoundTrip(x: Short)
    ensures var b := ShortBytes(x); ToShort(b[0], b[1]) == x
  {
    assert Digit(x, 1) == x / 256 % 256;
    assert x == 256 * (x / 256) + x % 256;
  }

  // Size, type and body as they lie in memory.
  function Image(size: Short, packetType: Short, body: seq<byte>): seq<byte>
  {
    ShortBytes(size) + ShortBytes(packetType) + body
  }

  function SizeField(data: seq<byte>): Short
    requires |data| >= HEADER
  {
    ToShort(data[0], data[1])
  }

  function TypeField(data: seq<byte>): Short
    requires |data| >= HEADER
  {
    ToShort(data[2], data[3])
  }

  // The bytes the buffer claims to hold are readable.
  predicate Parseable(buffer: seq<byte>)
  {
    |buffer| >= HEADER && 0 <= SizeField(buffer) && HEADER + SizeField(buffer) <= |buffer|
  }

  // Constructors of Packet, over the bytes of its data block.
  class Packet {
    const data: array<byte>

    ghost predicate Valid()
    {
      data.Length == HEADER + MAX_PACKET_SIZE
    }

    // From fields; a size beyond the maximum leaves the block as the pool gave it.
    constructor FromFields(size: Short, packetType: Short, source: seq<byte>)
      requires Unsigned(size) <= MAX_PACKET_SIZE ==> Unsigned(size) <= |source|
      ensures Valid() && fresh(data)
      ensures Unsigned(size) <= MAX_PACKET_SIZE ==>
                data[..HEADER + Unsigned(size)] == Image(size, packetType, source[..Unsigned(size)])
    {
      data := new byte[HEADER + MAX_PACKET_SIZE];
      new;
      if Unsigned(size) > MAX_PACKET_SIZE {
        return;
      }
      PutShort(0, size);
      PutShort(2, packetType);
      Copy(source, Unsigned(size));
      assert data[..HEADER + Unsigned(size)]
          == data[..2] + data[2..4] + data[4..HEADER + Unsigned(size)];
    }

    // From received bytes; the body length is the size they name.
    constructor Parse(buffer: seq<byte>)
      requires Parseable(buffer)
      ensures Valid() && fresh(data)
      ensures SizeField(data[..]) == SizeField(buffer) && TypeField(data[..]) == TypeField(buffer)
      ensures data[HEADER..HEADER + SizeField(buffer)] == buffer[HEADER..HEADER + SizeField(buffer)]
    {
      data := new byte[HEADER + MAX_PACKET_SIZE];
      new;
      PutShort(0, SizeField(buffer));
      PutShort(2, TypeField(buffer));
      ShortRoundTrip(SizeField(buffer));
      ShortRoundTrip(TypeField(buffer));
      Copy(buffer[HEADER..], SizeField(buffer));
      assert data[..2] == ShortBytes(SizeField(buffer));
      assert data[2..4] == ShortBytes(TypeField(buffer));
    }

    method PutShort(at: nat, x: Short)
      requires Valid() && at + 2 <= HEADER
      modifies data
      ensures data[at..at + 2] == ShortBytes(x)
      ensures data[..at] == old(data[..at]) && data[at + 2..] == old(data[at + 2..])
    {
      data[at], data[at + 1] := Digit(x, 0), Digit(x, 1);
    }

    // memcpy into the body.
    method Copy(source: seq<byte>, n: nat)
      requires Valid() && n <= |source| && n <= MAX_PACKET_SIZE
      modifies data
      ensures data[..HEADER] == old(data[..HEADER])
      ensures data[HEADER..HEADER + n] == source[..n]
    {
      for i := 0 to n
        invariant data[..HEADER] == old(data[..HEADER])
        invariant data[HEADER..HEADER + i] == source[..i]
      {
        data[HEADER + i] := source[i];
        assert data[HEADER..HEADER + i + 1] == data[HEADER..HEADER + i] + [source[i]];
      }
    }

    // What write_io_data hands to the socket: as many bytes as the size field says.
    method Wire() returns (wire: seq<byte>)
      requires Valid() && Unsigned(SizeField(data[..])) <= MAX_PACKET_SIZE
      ensures wire == data[..Unsigned(SizeField(data[..])) + HEADER]
    {
      var size := ToShort(data[0], data[1]);
      wire := data[..Unsigned(size) + HEADER];
    }
  }

  // ---------- dispatch of a received datagram ----------

  datatype Kind = TooShort | Syn | Ack | Heartbeat | Data | Other

  // The branches of the receive loop, in order. `size + 4 == bytes` compares as 32-bit
  // unsigned numbers.
  function Classify(bytes: nat, buffer: seq<byte>): Kind
    requires |buffer| >= HEADER
  {
    var (size, kind) := (SizeField(buffer), TypeField(buffer));
    if bytes < HEADER then TooShort
    else if bytes == 6 && size == 2 && kind == -1 then Syn
    else if bytes == 6 && size == 2 && kind == -3 then Ack
    else if bytes == 4 && size == 0 && kind == -1 then Heartbeat
    else if (size + HEADER) % 0x1_0000_0000 == bytes then Data
    else Other
  }

  // Control packets are told from data by size and type alone.
  predicate IsControl(size: Short, packetType: Short)
  {
    (size == 2 && (packetType == -1 || packetType == -3)) || (size == 0 && packetType == -1)
  }

  // What each kind is, for a datagram that fits the receive buffer.
  lemma ClassifyIff(bytes: nat, buffer: seq<byte>)
    requires bytes <= |buffer| == SOCKET_BUF_SIZE
    ensures var (size, packetType) := (SizeField(buffer), TypeField(buffer));
            var kind := Classify(bytes, buffer);
            && (kind == TooShort <==> bytes < 4)
            && (kind == Syn <==> bytes == 6 && size == 2 && packetType == -1)
            && (kind == Ack <==> bytes == 6 && size == 2 && packetType == -3)
            && (kind == Heartbeat <==> bytes == 4 && size == 0 && packetType == -1)
            && (kind == Data <==> bytes >= 4 && size + HEADER == bytes && !IsControl(size, packetType))
            && (kind == Other <==> bytes >= 4 && size + HEADER != bytes)
  {
    hide ToShort;
    WrappedLength(SizeField(buffer) + HEADER);
  }

  // The low byte comes first; the high byte carries the sign.
  lemma ShortLayout(x: Short)
    ensures ShortBytes(x)[0] == x % 256 && ShortBytes(x)[1] == (x - x % 256) / 256 % 256
  {
    assert Digit(x, 1) == x / 256 % 256;
    assert x == 256 * (x / 256) + x % 256;
  }

  lemma ImageFields(size: Short, packetType: Short, body: seq<byte>, rest: seq<byte>)
    ensures var b := Image(size, packetType, body) + rest;
            && |b| >= HEADER && SizeField(b) == size && TypeField(b) == packetType
            && b[HEADER..HEADER + |body|] == body
  {
    ShortRoundTrip(size);
    ShortRoundTrip(packetType);
  }

  // Every packet of at most 508 body bytes arrives whole: its image fits the receiver's
  // buffer, names its own length, parses back to the same fields and body, and reaches
  // the data branch unless it is one of the three control packets.
  lemma PacketRoundTrip(size: Short, packetType: Short, body: seq<byte>, rest: seq<byte>)
    requires 0 <= size <= 508 && |body| == size
    requires |Image(size, packetType, body) + rest| == SOCKET_BUF_SIZE
    ensures var wire := Image(size, packetType, body);
            var buffer := wire + rest;
            && SizeField(buffer) + HEADER == |wire|
            && SizeField(buffer) == size && TypeField(buffer) == packetType
            && buffer[HEADER..HEADER + SizeField(buffer)] == body
            && (Classify(|wire|, buffer) == Data <==> !IsControl(size, packetType))
            && (Classify(|wire|, buffer) == Syn <==> size == 2 && packetType == -1)
            && (Classify(|wire|, buffer) == Ack <==> size == 2 && packetType == -3)
            && (Classify(|wire|, buffer) == Heartbeat <==> size == 0 && packetType == -1)
  {
    ImageFields(size, packetType, body, rest);
  }

  // Build a packet, send it, and let the receiver handle what arrives in its buffer, of
  // which the datagram overwrites only the front.
  method SendAndReceive(size: Short, packetType: Short, source: seq<byte>, buffered: seq<byte>)
    returns (kind: Kind, received: Packet?)
    requires 0 <= size <= 508 && size <= |source| && |buffered| == SOCKET_BUF_SIZE
    ensures kind == Data <==> !IsControl(size, packetType)
    ensures received != null <==> kind == Data
    ensures received != null ==>
              && received.Valid()
              && SizeField(received.data[..]) == size && TypeField(received.data[..]) == packetType
              && received.data[HEADER..HEADER + size] == source[..size]
  {
    var sent := new Packet.FromFields(size, packetType, source);
    var body, rest := source[..size], buffered[HEADER + size..];
    PacketRoundTrip(size, packetType, body, rest);
    ImageFields(size, packetType, body, sent.data[HEADER + size..]);
    assert sent.data[..] == Image(size, packetType, body) + sent.data[HEADER + size..];
    var wire := sent.Wire();
    var buffer := wire + rest;
    kind := Classify(|wire|, buffer);
    received := null;
    if kind == Data {
      received := new Packet.Parse(buffer);
    }
  }

  // A packet that can be built fits the receiver's buffer exactly if its size is in 0..508.
  lemma FitsIff(size: Short, packetType: Short, body: seq<byte>)
    requires Unsigned(size) <= MAX_PACKET_SIZE && |body| == Unsigned(size)
    ensures |Image(size, packetType, body)| <= SOCKET_BUF_SIZE <==> 0 <= size <= 508
  {
  }

  // Whatever arrives, a datagram in the data branch names exactly the bytes received, so
  // parsing it stays inside them.
  lemma DataIsWhole(bytes: nat, buffer: seq<byte>)
    requires bytes <= |buffer| == SOCKET_BUF_SIZE && Classify(bytes, buffer) == Data
    ensures 0 <= SizeField(buffer) <= 508 && HEADER + SizeField(buffer) == bytes
    ensures Parseable(buffer) && !IsControl(SizeField(buffer), TypeField(buffer))
  {
    hide ToShort;
    WrappedLength(SizeField(buffer) + HEADER);
  }

  // A negative length becomes a huge unsigned one.
  lemma WrappedLength(x: int)
    requires -0x8000_0000 <= x < 0x8000_0000
    ensures x % 0x1_0000_0000 == if x < 0 then x + 0x1_0000_0000 else x
  {
  }
}
