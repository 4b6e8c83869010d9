/**
 * The InvalidRequest packet: the reply a peer sends when it rejects a
 * request. Four fields in declaration order: packetType (8-bit, defaults
 * to RequestFailed), packetLength (signed 32-bit), errorCode (8-bit) and
 * the raw errorMessage bytes. The bodies of the stream operators are not
 * part of this model; the wire format below is an assumption: the fields in
 * the same order, multi-byte integers big-endian, and the message unprefixed
 * up to the end of the packet, so packetLength is what tells a reader where
 * the message stops.
 */
module InvalidRequests {
  import opened Wire
  import opened Wrappers

  /** The only value of the PacketType enumeration. */
  const RequestFailed: Byte := 0x00

  /** packetType:1 + packetLength:4 + errorCode:1. */
  const HeaderSize: nat := 6

  /** The value of an InvalidRequest, as copied into operator<<. */
  datatype InvalidRequestPacket = InvalidRequestPacket(
    packetType: Byte,
    packetLength: Int32,
    errorCode: Byte,
    errorMessage: seq<Byte>)
  {
    /** The packet's byte size: the fixed header plus the message. */
    function Size(): nat
    {
      HeaderSize + |errorMessage|
    }
  }

  /** Why a byte string is not an InvalidRequest packet. */
  datatype MalformedPacket =
    | TruncatedHeader(available: nat)
    | UnknownPacketType(packetType: Byte)
    | LengthMismatch(declared: Int32, actual: nat)

  /** A packet whose type is known and whose length field is its own size. */
  predicate WellFormed(p: InvalidRequestPacket)
  {
    p.packetType == RequestFailed && p.packetLength == p.Size()
  }

  /** operator<< on the assumed layout: the bytes written for a packet, exactly size() of them. */
  function Encode(p: InvalidRequestPacket): (r: seq<Byte>)
    ensures |r| == p.Size()
    ensures r[0] == p.packetType && r[5] == p.errorCode && r[HeaderSize..] == p.errorMessage
  {
    [p.packetType] + EncodeInt32(p.packetLength) + [p.errorCode] + p.errorMessage
  }

  /**
   * operator>> on a buffer holding one whole packet, with the assumed
   * checks: the header must be complete, the type known, and the length
   * field equal to the buffer size.
   */
  function Decode(b: seq<Byte>): (r: Result<InvalidRequestPacket, MalformedPacket>)
    ensures r.Ok? ==> WellFormed(r.value) && r.value.packetLength == |b|
    ensures |b| < HeaderSize <==> r == Err(TruncatedHeader(|b|))
  {
    if |b| < HeaderSize then Err(TruncatedHeader(|b|))
    else if b[0] != RequestFailed then Err(UnknownPacketType(b[0]))
    else
      var declared := DecodeInt32(b[1..5]);
      if declared != |b| then Err(LengthMismatch(declared, |b|))
      else Ok(InvalidRequestPacket(b[0], declared, b[5], b[HeaderSize..]))
  }

  /**
   * Writing a packet and reading it back reproduces all four fields exactly
   * when the packet is well formed; otherwise the reader rejects the bytes.
   */
  lemma RoundTrip(p: InvalidRequestPacket)
    ensures Decode(Encode(p)) == Ok(p) <==> WellFormed(p)
    ensures !WellFormed(p) ==> Decode(Encode(p)).Err?
  {
    var b := Encode(p);
    assert b[1..5] == EncodeInt32(p.packetLength);
    Int32RoundTrip(p.packetLength);
  }

  /** A buffer the reader accepts is exactly the encoding of what it read. */
  lemma DecodeThenEncode(b: seq<Byte>)
    requires Decode(b).Ok?
    ensures Encode(Decode(b).value) == b
  {
    Int32BytesRoundTrip(b[1..5]);
    assert b == [b[0]] + b[1..5] + [b[5]] + b[HeaderSize..];
  }

  /** The InvalidRequest object: private fields, setters, const getters. */
  class InvalidRequest {
    var packetType: Byte
    var packetLength: Int32
    var errorCode: Byte
    var errorMessage: seq<Byte>

    /** packetLength and errorCode have no initialiser: they are readable once set. */
    ghost var lengthSet: bool
    ghost var codeSet: bool

    constructor ()
      ensures packetType == RequestFailed && errorMessage == []
      ensures !lengthSet && !codeSet
    {
      packetType := RequestFailed;
      errorMessage := [];
      lengthSet, codeSet := false, false;
    }

    function GetPacketType(): Byte
      reads this
    {
      packetType
    }

    function GetPacketLength(): Int32
      reads this
      requires lengthSet
    {
      packetLength
    }

    function GetErrorCode(): Byte
      reads this
      requires codeSet
    {
      errorCode
    }

    function GetErrorMessage(): seq<Byte>
      reads this
    {
      errorMessage
    }

    /** The packet as a value, as it is copied when passed to operator<<. */
    function Value(): InvalidRequestPacket
      reads this
      requires lengthSet && codeSet
    {
      InvalidRequestPacket(packetType, packetLength, errorCode, errorMessage)
    }

    /** size(): fixed header plus message, whatever packetLength and errorCode hold. */
    function Size(): (n: nat)
      reads this
      ensures n == HeaderSize + |GetErrorMessage()|
    {
      InvalidRequestPacket(packetType, packetLength, errorCode, errorMessage).Size()
    }

    method SetPacketType(t: Byte)
      modifies this
      ensures GetPacketType() == t
      ensures packetLength == old(packetLength) && errorCode == old(errorCode)
      ensures errorMessage == old(errorMessage)
      ensures lengthSet == old(lengthSet) && codeSet == old(codeSet)
    {
      packetType := t;
    }

    method SetPacketLength(length: Int32)
      modifies this
      ensures lengthSet && GetPacketLength() == length
      ensures packetType == old(packetType) && errorCode == old(errorCode)
      ensures errorMessage == old(errorMessage) && codeSet == old(codeSet)
    {
      packetLength := length;
      lengthSet := true;
    }

    method SetErrorCode(code: Byte)
      modifies this
      ensures codeSet && GetErrorCode() == code
      ensures packetType == old(packetType) && packetLength == old(packetLength)
      ensures errorMessage == old(errorMessage) && lengthSet == old(lengthSet)
    {
      errorCode := code;
      codeSet := true;
    }

    method SetErrorMessage(message: seq<Byte>)
      modifies this
      ensures GetErrorMessage() == message
      ensures packetType == old(packetType) && packetLength == old(packetLength)
      ensures errorCode == old(errorCode)
      ensures lengthSet == old(lengthSet) && codeSet == old(codeSet)
    {
      errorMessage := message;
    }

    /** operator<<: appends the packet's bytes to a stream, size() of them. */
    method WriteTo(stream: seq<Byte>) returns (out: seq<Byte>)
      requires lengthSet && codeSet
      ensures out == stream + Encode(Value())
      ensures |out| == |stream| + Size()
    {
      out := stream + [packetType] + EncodeInt32(packetLength) + [errorCode] + errorMessage;
    }

    /**
     * operator>>: reads one whole packet into this object; a malformed
     * buffer is reported and leaves the fields unspecified.
     */
    method ReadFrom(stream: seq<Byte>) returns (r: Outcome<MalformedPacket>)
      modifies this
      ensures r.Pass? <==> Decode(stream).Ok?
      ensures r.Pass? ==> lengthSet && codeSet && Value() == Decode(stream).value
      ensures r.Fail? ==> r.error == Decode(stream).error
    {
      var decoded := Decode(stream);
      match decoded
      case Ok(p) =>
        packetType := p.packetType;
        packetLength := p.packetLength;
        errorCode := p.errorCode;
        errorMessage := p.errorMessage;
        lengthSet, codeSet := true, true;
        r := Pass;
      case Err(e) =>
        r := Fail(e);
    }
  }
}
