/**
 * The createPacket overloads: each builds a packet from plain parameters by
 * setting its fields one after another and then sets packetLength to the
 * packet's size(). Each builder is a method whose result is tied to a pure
 * function of its parameters (the ...Of functions below).
 */
module PacketFunctions {
  import opened Wire
  import opened Text
  import opened Net
  import opened Packets
  import opened InvalidRequests
  import opened Wrappers

  datatype DiscoveryPacketParams = DiscoveryPacketParams(
    packetType: Byte, ipType: IpType, ipaddr: HostAddress, port: UInt16)

  datatype InvalidPacketParams = InvalidPacketParams(
    packetType: Byte, errorCode: Byte, errorMessage: string)

  datatype SyncingItemParams = SyncingItemParams(mimeType: string, payload: seq<Byte>)

  datatype SyncingPacketParams = SyncingPacketParams(
    packetType: Byte, items: seq<(string, seq<Byte>)>)

  // ---------------------------------------------------------------------
  // The packets the builders produce, as functions of their parameters.
  // ---------------------------------------------------------------------

  /** The host address bytes for the packet's address family. */
  function HostIpFor(ipType: IpType, ipaddr: HostAddress): seq<Byte>
  {
    if ipType == IPv4 then ToIPv4Bytes(ipaddr) else ToIPv6Bytes(ipaddr)
  }

  function DiscoveryPacketOf(params: DiscoveryPacketParams): DiscoveryPacket
  {
    var p := DiscoveryPacket(params.packetType, params.ipType,
                             HostIpFor(params.ipType, params.ipaddr), params.port, 0);
    p.(packetLength := Narrow32(p.Size()))
  }

  function InvalidRequestOf(params: InvalidPacketParams): InvalidRequestPacket
  {
    var p := InvalidRequestPacket(params.packetType, 0, params.errorCode, Utf8Encode(params.errorMessage));
    p.(packetLength := Narrow32(p.Size()))
  }

  function SyncingItemOf(mimeType: string, payload: seq<Byte>): SyncingItem
  {
    SyncingItem(Narrow32(Utf16Length(mimeType)), Utf8Encode(mimeType), Narrow32(|payload|), payload)
  }

  /** The items of a SyncingPacket: pair i becomes item i. */
  function SyncingItemsOf(items: seq<(string, seq<Byte>)>): seq<SyncingItem>
  {
    seq(|items|, i requires 0 <= i < |items| => SyncingItemOf(items[i].0, items[i].1))
  }

  function SyncingPacketOf(packetType: Byte, items: seq<(string, seq<Byte>)>): SyncingPacket
  {
    var p := SyncingPacket(packetType, Narrow32(|items|), SyncingItemsOf(items), 0);
    p.(packetLength := Narrow32(p.Size()))
  }

  // ---------------------------------------------------------------------
  // The builders.
  // ---------------------------------------------------------------------

  /** createPacket(DiscoveryPacketParams). */
  method CreateDiscoveryPacket(params: DiscoveryPacketParams) returns (packet: DiscoveryPacket)
    ensures packet.packetType == params.packetType
    ensures packet.ipType == params.ipType
    ensures packet.hostPort == params.port
    ensures params.ipType == IPv4 ==> packet.hostIp == ToIPv4Bytes(params.ipaddr) && |packet.hostIp| == 4
    ensures params.ipType == IPv6 ==> packet.hostIp == ToIPv6Bytes(params.ipaddr) && |packet.hostIp| == 16
    ensures packet.packetLength == packet.Size()
    ensures packet == DiscoveryPacketOf(params)
  {
    // the default-constructed packet; every field is overwritten below
    packet := DiscoveryPacket(0, IPv4, [], 0, 0);
    packet := packet.(packetType := params.packetType);
    packet := packet.(ipType := params.ipType);
    if params.ipType == IPv4 {
      packet := packet.(hostIp := ToIPv4Bytes(params.ipaddr));
    } else {
      packet := packet.(hostIp := ToIPv6Bytes(params.ipaddr));
    }
    packet := packet.(hostPort := params.port);
    packet := packet.(packetLength := Narrow32(packet.Size()));
  }

  /** createPacket(InvalidPacketParams): the message is stored as its UTF-8 bytes. */
  method CreateInvalidRequest(params: InvalidPacketParams) returns (packet: InvalidRequestPacket)
    ensures packet.packetType == params.packetType
    ensures packet.errorCode == params.errorCode
    ensures packet.errorMessage == Utf8Encode(params.errorMessage)
    ensures packet.Size() < TwoTo31 ==> packet.packetLength == packet.Size()
    ensures packet.Size() < TwoTo31 && params.packetType == RequestFailed ==>
              Decode(Encode(packet)) == Ok(packet)
    ensures packet == InvalidRequestOf(params)
  {
    var request := new InvalidRequest();
    request.SetPacketType(params.packetType);
    request.SetErrorCode(params.errorCode);
    request.SetErrorMessage(Utf8Encode(params.errorMessage));
    request.SetPacketLength(Narrow32(request.Size()));
    packet := request.Value();
    RoundTrip(packet);
  }

  /**
   * createPacket(SyncingItemParams). mimeLength counts UTF-16 units while
   * the stored mime type is UTF-8, so the two agree only for ASCII types.
   */
  method CreateSyncingItem(params: SyncingItemParams) returns (item: SyncingItem)
    ensures item.mimeLength == Narrow32(Utf16Length(params.mimeType))
    ensures item.mimeType == Utf8Encode(params.mimeType)
    ensures item.payload == params.payload
    ensures |params.payload| < TwoTo31 ==> item.payloadLength == |item.payload|
    ensures |item.mimeType| < TwoTo31 ==>
              (item.mimeLength == |item.mimeType| <==> IsAscii(params.mimeType))
    ensures item == SyncingItemOf(params.mimeType, params.payload)
  {
    item := SyncingItem(0, [], 0, []);
    item := item.(mimeLength := Narrow32(Utf16Length(params.mimeType)));
    item := item.(mimeType := Utf8Encode(params.mimeType));
    item := item.(payloadLength := Narrow32(|params.payload|));
    item := item.(payload := params.payload);
    Utf8NotShorterThanUtf16(params.mimeType);
    LengthsAgreeIffAscii(params.mimeType);
  }

  /** createPacket(SyncingPacketParams). */
  method CreateSyncingPacketFromParams(params: SyncingPacketParams) returns (packet: SyncingPacket)
    ensures packet.packetType == params.packetType
    ensures |params.items| < TwoTo31 ==> packet.itemCount == |packet.items|
    ensures |packet.items| == |params.items|
    ensures forall i :: 0 <= i < |params.items| ==>
              packet.items[i] == SyncingItemOf(params.items[i].0, params.items[i].1)
    ensures packet.Size() < TwoTo31 ==> packet.packetLength == packet.Size()
    ensures packet == SyncingPacketOf(params.packetType, params.items)
  {
    packet := SyncingPacket(0, 0, [], 0);
    packet := packet.(packetType := params.packetType);
    packet := packet.(itemCount := Narrow32(|params.items|));
    var items: seq<SyncingItem> := [];
    for i := 0 to |params.items|
      invariant |items| == i
      invariant forall k :: 0 <= k < i ==> items[k] == SyncingItemOf(params.items[k].0, params.items[k].1)
    {
      var item := CreateSyncingItem(SyncingItemParams(params.items[i].0, params.items[i].1));
      items := items + [item];
    }
    assert items == SyncingItemsOf(params.items);
    packet := packet.(items := items);
    packet := packet.(packetLength := Narrow32(packet.Size()));
  }

  /** createPacket(packetType, items): the same construction from its two arguments. */
  method CreateSyncingPacket(packetType: Byte, items: seq<(string, seq<Byte>)>)
    returns (packet: SyncingPacket)
    ensures packet.packetType == packetType
    ensures |items| < TwoTo31 ==> packet.itemCount == |packet.items|
    ensures |packet.items| == |items|
    ensures forall i :: 0 <= i < |items| ==> packet.items[i] == SyncingItemOf(items[i].0, items[i].1)
    ensures packet.Size() < TwoTo31 ==> packet.packetLength == packet.Size()
    ensures packet == SyncingPacketOf(packetType, items)
  {
    packet := SyncingPacket(0, 0, [], 0);
    packet := packet.(packetType := packetType);
    packet := packet.(itemCount := Narrow32(|items|));
    var syncItems: seq<SyncingItem> := [];
    for i := 0 to |items|
      invariant |syncItems| == i
      invariant forall k :: 0 <= k < i ==> syncItems[k] == SyncingItemOf(items[k].0, items[k].1)
    {
      var item := CreateSyncingItem(SyncingItemParams(items[i].0, items[i].1));
      syncItems := syncItems + [item];
    }
    assert syncItems == SyncingItemsOf(items);
    packet := packet.(items := syncItems);
    packet := packet.(packetLength := Narrow32(packet.Size()));
  }

  // ---------------------------------------------------------------------
  // Properties of the built packets.
  // ---------------------------------------------------------------------

  /** A Discovery packet is 12 bytes for IPv4 and 24 for IPv6, and says so. */
  lemma DiscoveryLength(params: DiscoveryPacketParams)
    ensures DiscoveryPacketOf(params).packetLength == (if params.ipType == IPv4 then 12 else 24)
  {
  }

  /** The sum, over items, of the size their own length fields declare. */
  function DeclaredItemsSize(items: seq<SyncingItem>): int
  {
    if items == [] then 0
    else 8 + items[0].mimeLength + items[0].payloadLength + DeclaredItemsSize(items[1..])
  }

  /** Every pair's MIME type is ASCII and each field fits its 32-bit length. */
  predicate AsciiAndSmall(items: seq<(string, seq<Byte>)>)
  {
    forall i :: 0 <= i < |items| ==>
      IsAscii(items[i].0) && |items[i].0| < TwoTo31 && |items[i].1| < TwoTo31
  }

  /**
   * When every MIME type is ASCII, the items' length fields describe their
   * size: each item takes 8 + mimeLength + payloadLength bytes.
   */
  lemma {:induction false} DeclaredSizeMatches(items: seq<(string, seq<Byte>)>)
    requires AsciiAndSmall(items)
    ensures DeclaredItemsSize(SyncingItemsOf(items)) == ItemsSize(SyncingItemsOf(items))
  {
    if items != [] {
      var built := SyncingItemsOf(items);
      assert built[1..] == SyncingItemsOf(items[1..]);
      assert AsciiAndSmall(items[1..]) by {
        forall i | 0 <= i < |items[1..]|
          ensures IsAscii(items[1..][i].0) && |items[1..][i].0| < TwoTo31 && |items[1..][i].1| < TwoTo31
        {
          assert items[1..][i] == items[i + 1];
        }
      }
      DeclaredSizeMatches(items[1..]);
      AsciiEncodesAsCodes(items[0].0);
      LengthsAgreeIffAscii(items[0].0);
    }
  }

  /**
   * The packet's length field is the 9 header bytes plus, per item, 8 bytes
   * and the lengths its fields declare, when every MIME type is ASCII.
   */
  lemma SyncingLengthFromFields(packetType: Byte, items: seq<(string, seq<Byte>)>)
    requires AsciiAndSmall(items)
    requires SyncingPacketOf(packetType, items).Size() < TwoTo31
    ensures SyncingPacketOf(packetType, items).packetLength
            == 9 + DeclaredItemsSize(SyncingPacketOf(packetType, items).items)
  {
    DeclaredSizeMatches(items);
  }

  /**
   * For an ASCII MIME type the item's own length fields delimit its bytes:
   * a reader that takes mimeLength bytes of MIME type after the first field
   * finds the payloadLength field and then exactly the payload.
   */
  lemma AsciiItemDelimited(mimeType: string, payload: seq<Byte>)
    requires IsAscii(mimeType) && |mimeType| < TwoTo31 && |payload| < TwoTo31
    ensures var item := SyncingItemOf(mimeType, payload);
      var bytes := EncodeItem(item);
      var m := item.mimeLength;
      0 <= m && 8 + m <= |bytes| &&
      bytes[..4] == EncodeInt32(m) &&
      bytes[4..4 + m] == item.mimeType &&
      bytes[4 + m..8 + m] == EncodeInt32(item.payloadLength) &&
      bytes[8 + m..] == payload
  {
    AsciiEncodesAsCodes(mimeType);
    LengthsAgreeIffAscii(mimeType);
    var item := SyncingItemOf(mimeType, payload);
    var m := item.mimeLength;
    assert m == |item.mimeType|;
    var a, b, c := EncodeInt32(m), item.mimeType, EncodeInt32(item.payloadLength);
    assert EncodeItem(item) == a + b + c + payload;
  }

  /**
   * For a non-ASCII MIME type they do not: "é" is declared as one unit but
   * stored as two bytes, so the four bytes after the declared MIME type are
   * not the payloadLength field.
   */
  lemma NonAsciiItemMisdelimited()
    ensures var item := SyncingItemOf("é", [7]);
      var bytes := EncodeItem(item);
      item.mimeLength == 1 && |item.mimeType| == 2 && |bytes| == 11 &&
      bytes[5..9] != EncodeInt32(item.payloadLength)
  {
    NonAsciiMismatch();
    var item := SyncingItemOf("é", [7]);
    assert "é"[1..] == "";
    assert item.mimeType == Utf8Char('é');
    assert item.mimeType[1] == 0xA9;
    var bytes := EncodeItem(item);
    assert bytes[5] == item.mimeType[1];
    assert EncodeInt32(1)[0] == 0;
  }
}
