/**
 * The syncing client's side of discovery and synchronisation: the list of
 * discovered servers, each with the time it was last seen, pruned by age;
 * the bytes written to the TLS socket; and the signals it emits.
 * The clock is a parameter (`now`, in milliseconds since the epoch).
 */
module SyncingClient {
  import opened Wire
  import opened Text
  import opened Net
  import opened Packets
  import opened InvalidRequests
  import opened PacketFunctions

  /** m_threshold: the age in milliseconds past which a server is dropped. */
  const Threshold: int := 10000

  /** One element of m_servers: address, port, last-seen timestamp. */
  datatype ServerEntry = ServerEntry(address: HostAddress, port: UInt16, timestamp: int)

  function PeerOf(e: ServerEntry): PeerAddress
  {
    PeerAddress(e.address, e.port)
  }

  /** An entry whose age exceeds the threshold. */
  predicate Expired(e: ServerEntry, now: int)
  {
    now - e.timestamp > Threshold
  }

  /** The entries that are not expired, in their stored order. */
  function Unexpired(entries: seq<ServerEntry>, now: int): seq<ServerEntry>
  {
    if entries == [] then []
    else
      var last := entries[|entries| - 1];
      Unexpired(entries[..|entries| - 1], now) + (if Expired(last, now) then [] else [last])
  }

  /** Pruning one more stored entry extends the kept prefix by that entry or by nothing. */
  lemma PruneStep(entries: seq<ServerEntry>, k: nat, now: int)
    requires k < |entries|
    ensures Unexpired(entries[..k + 1], now)
            == Unexpired(entries[..k], now) + (if Expired(entries[k], now) then [] else [entries[k]])
  {
    assert entries[..k + 1][..k] == entries[..k];
  }

  /** getServerList: the (address, port) part of each entry, in stored order. */
  function ServerList(entries: seq<ServerEntry>): (r: seq<PeerAddress>)
    ensures |r| == |entries|
    ensures forall i :: 0 <= i < |entries| ==> r[i] == PeerAddress(entries[i].address, entries[i].port)
  {
    if entries == [] then [] else [PeerOf(entries[0])] + ServerList(entries[1..])
  }

  /** No two entries are for the same server. */
  predicate DistinctPeers(entries: seq<ServerEntry>)
  {
    forall i, j :: 0 <= i < j < |entries| ==> PeerOf(entries[i]) != PeerOf(entries[j])
  }

  /** An entry survives pruning exactly when it was stored and is not expired. */
  lemma {:induction false} UnexpiredMembers(entries: seq<ServerEntry>, now: int, e: ServerEntry)
    ensures e in Unexpired(entries, now) <==> e in entries && !Expired(e, now)
  {
    if entries != [] {
      var prefix := entries[..|entries| - 1];
      UnexpiredMembers(prefix, now, e);
      assert entries == prefix + [entries[|entries| - 1]];
    }
  }

  /** Pruning commutes with concatenation, so the kept entries stay in stored order. */
  lemma {:induction false} UnexpiredAppend(a: seq<ServerEntry>, b: seq<ServerEntry>, now: int)
    ensures Unexpired(a + b, now) == Unexpired(a, now) + Unexpired(b, now)
  {
    if b == [] {
      assert a + b == a;
    } else {
      var n := |b|;
      assert (a + b)[..|a + b| - 1] == a + b[..n - 1];
      UnexpiredAppend(a, b[..n - 1], now);
    }
  }

  /** Pruning keeps the entries pairwise distinct. */
  lemma {:induction false} UnexpiredKeepsDistinct(entries: seq<ServerEntry>, now: int)
    requires DistinctPeers(entries)
    ensures DistinctPeers(Unexpired(entries, now))
  {
    if entries != [] {
      var n := |entries|;
      var prefix, last := entries[..n - 1], entries[n - 1];
      assert DistinctPeers(prefix) by {
        forall i, j | 0 <= i < j < |prefix| ensures PeerOf(prefix[i]) != PeerOf(prefix[j]) {
          assert prefix[i] == entries[i] && prefix[j] == entries[j];
        }
      }
      UnexpiredKeepsDistinct(prefix, now);
      var kept := Unexpired(prefix, now);
      if !Expired(last, now) {
        forall i | 0 <= i < |kept| ensures PeerOf(kept[i]) != PeerOf(last) {
          UnexpiredMembers(prefix, now, kept[i]);
          var k :| 0 <= k < |prefix| && prefix[k] == kept[i];
          assert entries[k] == kept[i];
        }
      }
    }
  }

  /**
   * One step of the erase loop, at stored entry k and list position i: an
   * expired entry is erased where it stands, any other one is stepped over.
   */
  lemma EraseStep(entries: seq<ServerEntry>, k: nat, list: seq<ServerEntry>, i: nat, now: int)
    requires k < |entries|
    requires list == Unexpired(entries[..k], now) + entries[k..]
    requires i == |Unexpired(entries[..k], now)|
    ensures i < |list| && list[i] == entries[k]
    ensures Expired(entries[k], now) ==>
              list[..i] + list[i + 1..] == Unexpired(entries[..k + 1], now) + entries[k + 1..] &&
              i == |Unexpired(entries[..k + 1], now)|
    ensures !Expired(entries[k], now) ==>
              list == Unexpired(entries[..k + 1], now) + entries[k + 1..] &&
              i + 1 == |Unexpired(entries[..k + 1], now)|
  {
    PruneStep(entries, k, now);
    var kept := Unexpired(entries[..k], now);
    assert list[i + 1..] == entries[k + 1..];
    if Expired(entries[k], now) {
      assert list[..i] == kept;
    } else {
      assert entries[k..] == [entries[k]] + entries[k + 1..];
      assert list == (kept + [entries[k]]) + entries[k + 1..];
    }
  }

  /** What pruning guarantees: distinctness is kept, and exactly the unexpired entries remain. */
  lemma PruneFacts(entries: seq<ServerEntry>, now: int)
    requires DistinctPeers(entries)
    ensures DistinctPeers(Unexpired(entries, now))
    ensures forall e :: e in Unexpired(entries, now) <==> e in entries && !Expired(e, now)
  {
    UnexpiredKeepsDistinct(entries, now);
    forall e ensures e in Unexpired(entries, now) <==> e in entries && !Expired(e, now) {
      UnexpiredMembers(entries, now, e);
    }
  }

  /** A server last seen at t is kept through t + 10000 and dropped from t + 10001 on. */
  lemma ExpiryBoundary(e: ServerEntry, now: int)
    ensures Unexpired([e], now) == (if now <= e.timestamp + Threshold then [e] else [])
  {
    assert [e][..0] == [];
  }

  /**
   * The erase loop of updateServerList: walks the list once, erasing each
   * expired entry where it stands and stepping over the others.
   */
  method EraseExpired(entries: seq<ServerEntry>, now: int) returns (list: seq<ServerEntry>)
    ensures list == Unexpired(entries, now)
  {
    ghost var k := 0;
    var i := 0;
    list := entries;
    while i < |list|
      invariant 0 <= k <= |entries|
      invariant list == Unexpired(entries[..k], now) + entries[k..]
      invariant i == |Unexpired(entries[..k], now)|
      decreases |list| - i
    {
      assert list[i] == entries[k];
      if now - list[i].timestamp > Threshold {
        EraseStep(entries, k, list, i, now);
        list := list[..i] + list[i + 1..];
      } else {
        EraseStep(entries, k, list, i, now);
        i := i + 1;
      }
      k := k + 1;
    }
    assert entries[..k] == entries;
  }

  /** A packet the client writes to its socket. */
  datatype OutgoingPacket = Syncing(syncing: SyncingPacket) | Invalid(invalid: InvalidRequestPacket)

  /** toQByteArray: the bytes of a packet, as its operator<< writes them. */
  function Serialize(packet: OutgoingPacket): (r: seq<Byte>)
    ensures packet.Syncing? ==> |r| == packet.syncing.Size()
    ensures packet.Invalid? ==> |r| == packet.invalid.Size()
  {
    match packet
    case Syncing(p) => SyncingSizeIsEncodedLength(p); EncodeSyncingPacket(p)
    case Invalid(p) => Encode(p)
  }

  /** A (MIME type bytes, payload) pair handed to the clipboard by a sync request. */
  type ReceivedItem = (seq<Byte>, seq<Byte>)

  /** The signals the client emits. */
  datatype Event =
    | ServerListChanged(servers: seq<PeerAddress>)
    | ServerFound(server: PeerAddress)
    | SyncRequest(items: seq<ReceivedItem>)

  /** The items of a received packet, as (MIME type, payload) pairs in packet order. */
  function ReceivedItems(items: seq<SyncingItem>): seq<ReceivedItem>
  {
    seq(|items|, i requires 0 <= i < |items| => (items[i].mimeType, items[i].payload))
  }

  /**
   * processSyncingPacket, given the packet value the builder returns for a
   * list of (MIME type, payload) pairs, signals every pair in order, with
   * the MIME type as UTF-8. No bytes are written or parsed on the way.
   */
  lemma BuiltPacketDeliversItems(packetType: Byte, items: seq<(string, seq<Byte>)>)
    ensures var received := ReceivedItems(SyncingPacketOf(packetType, items).items);
      |received| == |items| &&
      forall i :: 0 <= i < |items| ==> received[i] == (Utf8Encode(items[i].0), items[i].1)
  {
  }

  class Client {
    /** m_servers. */
    var servers: seq<ServerEntry>
    /** Everything written to m_ssl_socket so far. */
    var written: seq<Byte>
    /** The signals emitted so far, oldest first. */
    var events: seq<Event>

    ghost predicate Valid()
      reads this
    {
      DistinctPeers(servers)
    }

    constructor ()
      ensures Valid()
      ensures servers == [] && written == [] && events == []
    {
      servers, written, events := [], [], [];
    }

    /** getServerList (const). */
    function GetServerList(): seq<PeerAddress>
      reads this
    {
      ServerList(servers)
    }

    /**
     * updateServerList: erases, in place, every entry whose age exceeds the
     * threshold, then signals the new list.
     */
    method UpdateServerList(now: int)
      requires Valid()
      modifies this
      ensures Valid()
      ensures servers == Unexpired(old(servers), now)
      ensures forall e :: e in servers <==> e in old(servers) && !Expired(e, now)
      ensures written == old(written)
      ensures events == old(events) + [ServerListChanged(GetServerList())]
    {
      PruneFacts(servers, now);
      servers := EraseExpired(servers, now);
      events := events + [ServerListChanged(ServerList(servers))];
    }

    /**
     * onServerFound: a server seen again has its timestamp refreshed in
     * place; a new one is appended and announced once. Either way the new
     * list is signalled.
     */
    method OnServerFound(server: PeerAddress, now: int)
      requires Valid()
      modifies this
      ensures Valid()
      ensures written == old(written)
      ensures server in old(GetServerList()) ==>
                |servers| == |old(servers)| &&
                (forall i :: 0 <= i < |servers| ==>
                   servers[i] == if PeerOf(old(servers)[i]) == server
                                 then old(servers)[i].(timestamp := now) else old(servers)[i]) &&
                events == old(events) + [ServerListChanged(GetServerList())]
      ensures server !in old(GetServerList()) ==>
                servers == old(servers) + [ServerEntry(server.address, server.port, now)] &&
                events == old(events) + [ServerFound(server), ServerListChanged(GetServerList())]
    {
      var index := 0;
      while index < |servers| && PeerOf(servers[index]) != server
        invariant 0 <= index <= |servers|
        invariant forall j :: 0 <= j < index ==> PeerOf(servers[j]) != server
      {
        index := index + 1;
      }
      if index < |servers| {
        assert ServerList(servers)[index] == server;
        servers := servers[index := servers[index].(timestamp := now)];
      } else {
        assert server !in ServerList(servers);
        servers := servers + [ServerEntry(server.address, server.port, now)];
        events := events + [ServerFound(server)];
      }
      events := events + [ServerListChanged(ServerList(servers))];
    }

    /** sendPacket: writes exactly the packet's bytes to the socket. */
    method SendPacket(packet: OutgoingPacket)
      modifies this
      ensures written == old(written) + Serialize(packet)
      ensures servers == old(servers) && events == old(events)
    {
      written := written + Serialize(packet);
    }

    /** processSyncingPacket: hands the packet's items, in order, to a sync request. */
    method ProcessSyncingPacket(packet: SyncingPacket)
      modifies this
      ensures events == old(events) + [SyncRequest(ReceivedItems(packet.items))]
      ensures servers == old(servers) && written == old(written)
    {
      var items: seq<ReceivedItem> := [];
      for i := 0 to |packet.items|
        invariant |items| == i
        invariant forall k :: 0 <= k < i ==> items[k] == (packet.items[k].mimeType, packet.items[k].payload)
      {
        items := items + [(packet.items[i].mimeType, packet.items[i].payload)];
      }
      assert items == ReceivedItems(packet.items);
      events := events + [SyncRequest(items)];
    }
  }
}
