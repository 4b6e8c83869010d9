/**
 * The Discovery, SyncingItem and SyncingPacket wire records, holding the
 * fields the packet builders set. Each size() counts the bytes of every
 * field at its wire width and never looks at the value of packetLength,
 * because the builders call size() before packetLength is set.
 */
module Packets {
  import opened Wire

  /** The address family carried in a Discovery packet. */
  datatype IpType = IPv4 | IPv6

  datatype DiscoveryPacket = DiscoveryPacket(
    packetType: Byte,
    ipType: IpType,
    hostIp: seq<Byte>,
    hostPort: UInt16,
    packetLength: Int32)
  {
    /** packetType:1 + ipType:1 + hostIp + hostPort:2 + packetLength:4. */
    function Size(): nat
    {
      1 + 1 + |hostIp| + 2 + 4
    }
  }

  /** One clipboard representation: a MIME type and its payload. */
  datatype SyncingItem = SyncingItem(
    mimeLength: Int32,
    mimeType: seq<Byte>,
    payloadLength: Int32,
    payload: seq<Byte>)
  {
    /** mimeLength:4 + mimeType + payloadLength:4 + payload. */
    function Size(): nat
    {
      4 + |mimeType| + 4 + |payload|
    }
  }

  /** The sum of the sizes of a run of items. */
  function ItemsSize(items: seq<SyncingItem>): nat
  {
    if items == [] then 0 else items[0].Size() + ItemsSize(items[1..])
  }

  datatype SyncingPacket = SyncingPacket(
    packetType: Byte,
    itemCount: Int32,
    items: seq<SyncingItem>,
    packetLength: Int32)
  {
    /** packetType:1 + itemCount:4 + the items + packetLength:4. */
    function Size(): nat
    {
      1 + 4 + ItemsSize(items) + 4
    }
  }

  /** mimeLength, mimeType bytes, payloadLength, payload bytes. */
  function EncodeItem(item: SyncingItem): seq<Byte>
  {
    EncodeInt32(item.mimeLength) + item.mimeType + EncodeInt32(item.payloadLength) + item.payload
  }

  function EncodeItems(items: seq<SyncingItem>): seq<Byte>
  {
    if items == [] then [] else EncodeItem(items[0]) + EncodeItems(items[1..])
  }

  /** The bytes written for a SyncingPacket, on the assumed layout: type, item count, items, length. */
  function EncodeSyncingPacket(p: SyncingPacket): seq<Byte>
  {
    [p.packetType] + EncodeInt32(p.itemCount) + EncodeItems(p.items) + EncodeInt32(p.packetLength)
  }

  /** size() of a SyncingPacket is the number of bytes its encoding has. */
  lemma SyncingSizeIsEncodedLength(p: SyncingPacket)
    ensures |EncodeSyncingPacket(p)| == p.Size()
  {
    ItemsSizeIsEncodedLength(p.items);
  }

  lemma {:induction false} ItemsSizeIsEncodedLength(items: seq<SyncingItem>)
    ensures |EncodeItems(items)| == ItemsSize(items)
  {
    if items != [] {
      ItemsSizeIsEncodedLength(items[1..]);
    }
  }

  /** size() does not depend on the packetLength field, of either packet kind. */
  lemma SizeIgnoresPacketLength(d: DiscoveryPacket, s: SyncingPacket, len: Int32)
    ensures d.(packetLength := len).Size() == d.Size()
    ensures s.(packetLength := len).Size() == s.Size()
  {
  }
}
