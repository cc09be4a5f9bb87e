/**
 The PCM packet on the wire: a 24-byte little-endian header and either a full
 payload or none. What the firmware prints is exactly what the bridge accepts.
 */
module Wire {
  import opened Wrappers
  import opened Octets

  const MAGIC: Bytes := [69, 76, 73, 49]   // "ELI1"
  const VERSION: byte := 2
  const HEADER_LEN: nat := 24
  const SAMPLE_RATE_HZ: nat := 48000
  const CHANNELS: byte := 2
  const BITS_PER_SAMPLE: byte := 16
  const FRAMES_PER_PACKET: nat := 256
  const PAYLOAD_BYTES: nat := 1024
  const MAX_PACKET_BYTES: nat := HEADER_LEN + PAYLOAD_BYTES

  type Word = n: int | 0 <= n < 0x1_0000_0000

  function Le32(n: Word): (r: Bytes)
    ensures |r| == 4
  {
    [n % 256, n / 256 % 256, n / 65536 % 256, n / 16777216]
  }

  function FromLe32(b: Bytes): Word
    requires |b| == 4
  {
    (b[0] as int) + 256 * (b[1] as int) + 65536 * (b[2] as int) + 16777216 * (b[3] as int)
  }

  lemma WordRoundTrip(n: Word)
    ensures FromLe32(Le32(n)) == n
  {}

  lemma BytesRoundTrip(b: Bytes)
    requires |b| == 4
    ensures Le32(FromLe32(b)) == b
  {
    var n := FromLe32(b);
    assert n % 256 == b[0];
    assert n / 256 == (b[1] as int) + 256 * (b[2] as int) + 65536 * (b[3] as int);
    assert n / 65536 == (b[2] as int) + 256 * (b[3] as int);
    assert n / 16777216 == b[3];
  }

  // ----- printing -------------------------------------------------------------------

  datatype Packet = Packet(number: Word, payload: Bytes)

  predicate Valid(p: Packet) { p.payload == [] || |p.payload| == PAYLOAD_BYTES }

  function HeaderBytes(number: Word, silence: bool): (r: Bytes)
    ensures |r| == HEADER_LEN
  {
    MAGIC + [VERSION, 24, CHANNELS, BITS_PER_SAMPLE]
    + Le32(number) + Le32(SAMPLE_RATE_HZ) + Le32(FRAMES_PER_PACKET)
    + Le32(if silence then 0 else PAYLOAD_BYTES)
  }

  function PacketBytes(p: Packet): Bytes { HeaderBytes(p.number, p.payload == []) + p.payload }

  // ----- parsing ----------------------------------------------------------------------

  datatype PcmFormat = PcmFormat(rate: nat, channels: nat, bits: nat, frames: nat) {
    function PayloadBytes(): nat { frames * channels * (bits / 8) }
  }

  const DEFAULT_FORMAT := PcmFormat(48000, 2, 16, 256)

  datatype Rejection = BadLength | BadMagic | BadVersion | BadHeaderSize | BadFormat | BadPayloadSize | PayloadMismatch

  datatype Header = Header(number: Word, rate: nat, frames: nat, payloadBytes: nat)

  function ParseHeader(header: Bytes, expected: PcmFormat): Result<Header, Rejection> {
    if |header| != HEADER_LEN then Err(BadLength)
    else if header[..4] != MAGIC then Err(BadMagic)
    else if header[4] != VERSION then Err(BadVersion)
    else if header[5] != 24 then Err(BadHeaderSize)
    else
      var rate, frames := FromLe32(header[12..16]), FromLe32(header[16..20]);
      var payload := FromLe32(header[20..24]);
      if rate != expected.rate || header[6] != expected.channels || header[7] != expected.bits
         || frames != expected.frames
        then Err(BadFormat)
      else if payload != 0 && payload != expected.PayloadBytes() then Err(BadPayloadSize)
      else Ok(Header(FromLe32(header[8..12]), rate, frames, payload))
  }

  function ParsePacket(data: Bytes, expected: PcmFormat): Result<Packet, Rejection> {
    if |data| < HEADER_LEN then Err(BadLength)
    else
      var h := ParseHeader(data[..HEADER_LEN], expected);
      if h.Err? then Err(h.error)
      else if |data| - HEADER_LEN != h.value.payloadBytes then Err(PayloadMismatch)
      else Ok(Packet(h.value.number, data[HEADER_LEN..]))
  }

  lemma HeaderFields(number: Word, silence: bool)
    ensures var h := HeaderBytes(number, silence);
      && h[..4] == MAGIC && h[4] == VERSION && h[5] == 24 && h[6] == CHANNELS && h[7] == BITS_PER_SAMPLE
      && h[8..12] == Le32(number) && h[12..16] == Le32(SAMPLE_RATE_HZ)
      && h[16..20] == Le32(FRAMES_PER_PACKET) && h[20..24] == Le32(if silence then 0 else PAYLOAD_BYTES)
  {
    hide Le32;
    var h := HeaderBytes(number, silence);
    var a := MAGIC + [VERSION, 24, CHANNELS, BITS_PER_SAMPLE];
    assert h[..8] == a && a[..4] == MAGIC;
  }

  /** The header byte by byte: ELI1, version 2, its size, stereo, 16 bits, number, 48 kHz, 256 frames, payload size. */
  lemma HeaderOnTheWire(number: Word, silence: bool)
    ensures var h := HeaderBytes(number, silence);
      && |h| == 24 && h[..8] == [69, 76, 73, 49, 2, 24, 2, 16]
      && number == h[8] as int + 0x100 * (h[9] as int) + 0x1_0000 * (h[10] as int) + 0x100_0000 * (h[11] as int)
      && h[12..] == [128, 187, 0, 0, 0, 1, 0, 0, 0, if silence then 0 else 4, 0, 0]
  {
    HeaderFields(number, silence);
    var h := HeaderBytes(number, silence);
    WordRoundTrip(number);
    assert FromLe32(h[8..12]) == number;
    assert h[..8] == h[..4] + h[4..8] && h[12..] == h[12..16] + h[16..20] + h[20..24];
    assert Le32(SAMPLE_RATE_HZ) == [128, 187, 0, 0] && Le32(FRAMES_PER_PACKET) == [0, 1, 0, 0];
    assert Le32(if silence then 0 else PAYLOAD_BYTES) == [0, if silence then 0 else 4, 0, 0];
    hide HeaderBytes, Le32, FromLe32;
  }

  lemma HeaderParses(number: Word, silence: bool)
    ensures ParseHeader(HeaderBytes(number, silence), DEFAULT_FORMAT)
         == Ok(Header(number, SAMPLE_RATE_HZ, FRAMES_PER_PACKET, if silence then 0 else PAYLOAD_BYTES))
  {
    HeaderFields(number, silence);
    WordRoundTrip(number);
    WordRoundTrip(SAMPLE_RATE_HZ);
    WordRoundTrip(FRAMES_PER_PACKET);
    WordRoundTrip(if silence then 0 else PAYLOAD_BYTES);
    hide Le32, FromLe32, HeaderBytes;
  }

  lemma HeaderIsPrinted(header: Bytes)
    requires ParseHeader(header, DEFAULT_FORMAT).Ok?
    ensures var h := ParseHeader(header, DEFAULT_FORMAT).value;
      && (h.payloadBytes == 0 || h.payloadBytes == PAYLOAD_BYTES)
      && header == HeaderBytes(h.number, h.payloadBytes == 0)
  {
    BytesRoundTrip(header[8..12]);
    BytesRoundTrip(header[12..16]);
    BytesRoundTrip(header[16..20]);
    BytesRoundTrip(header[20..24]);
    hide Le32, FromLe32;
    var fixed := MAGIC + [VERSION, 24, CHANNELS, BITS_PER_SAMPLE];
    assert header[..8] == fixed;
    assert header == header[..8] + header[8..12] + header[12..16] + header[16..20] + header[20..24];
  }

  /** Every packet the firmware prints is parsed back. */
  lemma PrintedParses(p: Packet)
    requires Valid(p)
    ensures ParsePacket(PacketBytes(p), DEFAULT_FORMAT) == Ok(p)
  {
    HeaderParses(p.number, p.payload == []);
    var data, h := PacketBytes(p), HeaderBytes(p.number, p.payload == []);
    assert data[..HEADER_LEN] == h && data[HEADER_LEN..] == p.payload;
  }

  /** Nothing else is accepted: an accepted packet is, byte for byte, what the firmware prints for it. */
  lemma ParsedWasPrinted(data: Bytes)
    requires ParsePacket(data, DEFAULT_FORMAT).Ok?
    ensures var p := ParsePacket(data, DEFAULT_FORMAT).value; Valid(p) && data == PacketBytes(p)
  {
    HeaderIsPrinted(data[..HEADER_LEN]);
    assert data == data[..HEADER_LEN] + data[HEADER_LEN..];
  }

  // ----- the firmware's fixed buffers --------------------------------------------------

  // Copy bytes into a buffer at a position.
  method CopyIn(buffer: array<byte>, at: nat, bytes: Bytes)
    requires at + |bytes| <= buffer.Length
    modifies buffer
    ensures buffer[..] == old(buffer[..at]) + bytes + old(buffer[at + |bytes|..])
  {
    forall i | 0 <= i < |bytes| {
      buffer[at + i] := bytes[i];
    }
  }

  method EncodeHeader(number: Word, silence: bool) returns (bytes: array<byte>)
    ensures fresh(bytes) && bytes.Length == HEADER_LEN && bytes[..] == HeaderBytes(number, silence)
  {
    hide Le32;
    bytes := new byte[HEADER_LEN];
    CopyIn(bytes, 0, MAGIC);
    bytes[4] := VERSION;
    bytes[5] := HEADER_LEN;
    bytes[6] := CHANNELS;
    bytes[7] := BITS_PER_SAMPLE;
    assert bytes[..8] == MAGIC + [VERSION, 24, CHANNELS, BITS_PER_SAMPLE];
    CopyIn(bytes, 8, Le32(number));
    CopyIn(bytes, 12, Le32(SAMPLE_RATE_HZ));
    CopyIn(bytes, 16, Le32(FRAMES_PER_PACKET));
    CopyIn(bytes, 20, Le32(if silence then 0 else PAYLOAD_BYTES));
  }

  class AudioPacket {
    const bytes: array<byte>

    ghost predicate Holds(p: Packet)
      reads this, bytes
    {
      bytes.Length == MAX_PACKET_BYTES && Valid(p) && PacketBytes(p) <= bytes[..]
    }

    constructor FromPcm(number: Word, pcm: Bytes)
      requires |pcm| == PAYLOAD_BYTES
      ensures Holds(Packet(number, pcm))
    {
      bytes := new byte[MAX_PACKET_BYTES];
      new;
      var header := EncodeHeader(number, false);
      CopyIn(bytes, 0, header[..]);
      CopyIn(bytes, HEADER_LEN, pcm);
    }

    constructor Silence(number: Word)
      ensures Holds(Packet(number, []))
    {
      bytes := new byte[MAX_PACKET_BYTES];
      new;
      var header := EncodeHeader(number, true);
      CopyIn(bytes, 0, header[..]);
    }

    lemma LengthField(p: Packet)
      requires Holds(p)
      ensures FromLe32(bytes[20..24]) == |p.payload|
    {
      HeaderFields(p.number, p.payload == []);
      WordRoundTrip(|p.payload|);
      hide Le32, FromLe32;
      assert bytes[20..24] == PacketBytes(p)[20..24] == HeaderBytes(p.number, p.payload == [])[20..24];
    }

    method PayloadBytes(ghost p: Packet) returns (n: nat)
      requires Holds(p)
      ensures n == |p.payload|
    {
      LengthField(p);
      n := FromLe32(bytes[20..24]);
    }

    method AsBytes(ghost p: Packet) returns (sent: Bytes)
      requires Holds(p)
      ensures sent == PacketBytes(p)
    {
      var n := PayloadBytes(p);
      sent := bytes[..HEADER_LEN + n];
    }
  }
}
