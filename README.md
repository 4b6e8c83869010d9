# Clipboard-sharing networking core, modelled in Dafny

This project models three pieces of a desktop clipboard-sharing application
in which one process is either a hub (the syncing server) or a participant
(the syncing client) on a local network:

- **Packet construction.** The `createPacket` overloads build the Discovery,
  InvalidRequest, SyncingItem and SyncingPacket wire packets from plain
  parameters. Each one sets the fields one after another and ends by setting
  `packetLength` to the packet's `size()`. The InvalidRequest packet class is
  modelled whole: its four fields, setters and const getters, `size()`, and
  its stream writer and reader. The writer/reader pair is proved to
  round-trip.
- **The syncing client's list of discovered servers.** Each entry is
  (address, port, last-seen timestamp). Entries are refreshed when a server
  answers discovery and erased in place once older than the threshold of
  10000 ms. The client also writes packets to its TLS socket and hands
  received items to the clipboard.
- **The role controller.** It holds exactly one role, Server or Client, in
  a two-way variant. Switching role replaces the held alternative and hands
  the stored configuration to the new role. Each role-specific operation
  fails with a runtime error when the other role is held.

Files and modules:

| file | module | models |
|---|---|---|
| wrappers.dfy | `Wrappers` | `Option`, `Result`, `Outcome` |
| wire.dfy | `Wire` | 8/16/32-bit fields; big-endian (QDataStream) integers; the size_t → qint32 narrowing |
| text.dfy | `Text` | `QString::size()` (UTF-16 units) and `QString::toUtf8()` |
| net.dfy | `Net` | `QHostAddress`, the (address, port) pair; the IPv4/IPv6 byte helpers |
| packets.dfy | `Packets` | Discovery, SyncingItem and SyncingPacket records, their `size()`, the syncing encoder |
| invalid_request.dfy | `InvalidRequests` | the InvalidRequest value, its codec, and the `InvalidRequest` class |
| packet_functions.dfy | `PacketFunctions` | the five `createPacket` overloads |
| syncing_client.dfy | `SyncingClient` | the syncing client class `Client` |
| controller.dfy | `Control` | the role controller class `Controller` |

Modelling choices:

- **Field widths.** Integers are unbounded in Dafny, so each field width is
  a subset type: `Byte`, `UInt16` and `Int32`. Setting a qint32 field from a
  `size()` keeps the low 32 bits and reads them as two's complement
  (`Narrow32`). So "length field = size" is stated, and holds, only for
  packets smaller than 2^31 bytes.
- **Assumed packet layouts.** The stream operators of the packet classes
  are declared in invalidrequest.hpp:111 and :120, but their bodies are
  not part of this model, so every byte layout here is an assumption.
  - InvalidRequest: the fields are assumed to go on the wire in the order
    the class declares them (invalidrequest.hpp:29-32). That is packetType
    (1 byte), packetLength (4 bytes, big-endian), errorCode (1 byte), then
    the raw message, unprefixed, to the end of the packet.
  - The assumed InvalidRequest reader rejects a buffer when any of these
    holds: it is shorter than the 6-byte header; its packet type is not
    `RequestFailed`; its length field differs from the buffer size.
  - SyncingPacket: its class is not part of this model, so there is no
    declaration order to follow. Its layout is assumed to be type, item
    count, items, length. Each item is assumed to be mimeLength, MIME
    bytes, payloadLength, payload. The two conventions differ because only
    the InvalidRequest class shows its field order.
- **MIME lengths.** A SyncingItem's `mimeLength` counts UTF-16 units, but
  the stored MIME type is UTF-8. The model keeps this as written.
  `Text.LengthsAgreeIffAscii` proves the two agree exactly for ASCII MIME
  types. `Text.NonAsciiMismatch` gives a concrete string where they differ.
  On the assumed item layout, `PacketFunctions.AsciiItemDelimited` shows the
  declared lengths locate every field for ASCII MIME types.
  `PacketFunctions.NonAsciiItemMisdelimited` shows that for "é" they do not.
- **Unseen sizes.** The `size()` of the Discovery and Syncing packets counts
  each field at its wire width. It never reads `packetLength`, which the
  builders set only after calling `size()`.
- **Inputs from the environment.** The clock (`now`) and the address the
  server listens on (`listenAt`) are parameters.
- **Emitted signals.** A signal the client emits is appended to an `events`
  log. The bytes written to its socket are appended to `written`.
- **Role instances.** Inside the controller, each role is a value (`Server`
  or `Client`). Replacing that value is the variant's `emplace`. A freshly
  constructed role is a constant (`NewServer`, `NewClient`).

Further modelling decisions:

- The controller has no idle state. A default-constructed variant
  (clipbird.hpp:72) already holds an unstarted Server.
- The InvalidRequest error code is 8 bits wide, as declared at
  invalidrequest.hpp:31. The class declares no message-length field. Whether
  its stream writer prefixes the message with a length is not visible, and
  the model assumes it does not.
- The implementation file names its class `Controller` and its server
  accessor `getServer`. The header declares `ClipBird` and `getServerInfo`.
  The model uses the implementation's names.
- The server-list update signals the new list on every call, as its doc
  comment says (client.hpp:108-113), whether or not an entry was removed.

## Model

| member | source | states |
|---|---|---|
| `Wire.Narrow32` | utility/functions/packet/packet.cpp:40 | a size stored in a qint32 field keeps its low 32 bits as two's complement, and is the size itself below 2^31 |
| `Wire.Int32RoundTrip` | network/packets/invalidrequest/invalidrequest.hpp:111-120 | a qint32 written big-endian reads back as itself |
| `Wire.Int32BytesRoundTrip` | network/packets/invalidrequest/invalidrequest.hpp:111-120 | any four bytes read as a qint32 and written again give the same four bytes |
| `Text.Utf8NotShorterThanUtf16` | utility/functions/packet/packet.cpp:88-91 | a string's UTF-8 byte count is never below its UTF-16 length |
| `Text.LengthsAgreeIffAscii` | utility/functions/packet/packet.cpp:88-91 | `QString::size()` equals the byte length of `toUtf8()` if and only if every character is ASCII |
| `Text.AsciiEncodesAsCodes` | utility/functions/packet/packet.cpp:91 | an ASCII string's UTF-8 bytes are its character codes, one per character |
| `Text.NonAsciiMismatch` | utility/functions/packet/packet.cpp:88-91 | "é" has UTF-16 length 1 but 2 UTF-8 bytes, so its mimeLength would not match its stored bytes |
| `Net.ToIPv4Bytes` | utility/functions/packet/packet.cpp:31 | the IPv4 encoding of a host address is 4 bytes, the address itself for an IPv4 address |
| `Net.ToIPv6Bytes` | utility/functions/packet/packet.cpp:33 | the IPv6 encoding of a host address is 16 bytes, the address itself for an IPv6 address |
| `Packets.ItemsSizeIsEncodedLength` | utility/functions/packet/packet.cpp:169-177 | the sizes of a run of syncing items add up to the length of their encodings |
| `Packets.SyncingSizeIsEncodedLength` | utility/functions/packet/packet.cpp:177 | a SyncingPacket's `size()` is the number of bytes its encoding has |
| `Packets.SizeIgnoresPacketLength` | utility/functions/packet/packet.cpp:40 | the Discovery and Syncing `size()` do not depend on the value of `packetLength` |
| `InvalidRequests.Encode` | network/packets/invalidrequest/invalidrequest.hpp:97-111 | the writer emits exactly `size()` bytes, with type, code and message at their places |
| `InvalidRequests.Decode` | network/packets/invalidrequest/invalidrequest.hpp:113-120 | the reader accepts only packets of known type whose length field equals the buffer size, and rejects exactly the buffers shorter than the header as truncated |
| `InvalidRequests.RoundTrip` | network/packets/invalidrequest/invalidrequest.hpp:104-120 | writing then reading reproduces all four fields if and only if the packet is well formed (known type, length = size); otherwise reading fails |
| `InvalidRequests.DecodeThenEncode` | network/packets/invalidrequest/invalidrequest.hpp:104-120 | any buffer the reader accepts is exactly the writer's output for what was read |
| `InvalidRequests.InvalidRequest.constructor` | network/packets/invalidrequest/invalidrequest.hpp:29-32 | a new packet has type RequestFailed and an empty message; length and code are not yet readable |
| `InvalidRequests.InvalidRequest.Size` | network/packets/invalidrequest/invalidrequest.hpp:97-102 | the byte size is the 6-byte header plus the message, whatever the other fields hold |
| `InvalidRequests.InvalidRequest.SetPacketType` | network/packets/invalidrequest/invalidrequest.hpp:41-53 | the getter returns the type just set; the other three fields are unchanged |
| `InvalidRequests.InvalidRequest.SetPacketLength` | network/packets/invalidrequest/invalidrequest.hpp:55-67 | the getter returns the length just set; the other three fields are unchanged |
| `InvalidRequests.InvalidRequest.SetErrorCode` | network/packets/invalidrequest/invalidrequest.hpp:69-81 | the getter returns the code just set; the other three fields are unchanged |
| `InvalidRequests.InvalidRequest.SetErrorMessage` | network/packets/invalidrequest/invalidrequest.hpp:83-95 | the getter returns the message just set; the other three fields are unchanged |
| `InvalidRequests.InvalidRequest.WriteTo` | network/packets/invalidrequest/invalidrequest.hpp:104-111 | the writer appends the packet's encoding, `size()` bytes, to the stream and changes nothing |
| `InvalidRequests.InvalidRequest.ReadFrom` | network/packets/invalidrequest/invalidrequest.hpp:113-120 | the reader succeeds exactly on a well-formed buffer and then holds the decoded fields; otherwise it reports why |
| `PacketFunctions.CreateDiscoveryPacket` | utility/functions/packet/packet.cpp:19-44 | type, IP type and port are copied; hostIp is the IPv4 bytes for IPv4 and the IPv6 bytes otherwise; packetLength equals `size()` |
| `PacketFunctions.DiscoveryLength` | utility/functions/packet/packet.cpp:30-40 | a Discovery packet's length field is 12 for IPv4 and 24 for IPv6 |
| `PacketFunctions.CreateInvalidRequest` | utility/functions/packet/packet.cpp:55-73 | type and code are stored as given, the message as its UTF-8 bytes, packetLength = `size()`; a RequestFailed packet survives the writer/reader round trip |
| `PacketFunctions.CreateSyncingItem` | utility/functions/packet/packet.cpp:83-101 | the payload is stored verbatim with payloadLength = its size; the MIME type is stored as UTF-8 and mimeLength equals its byte length if and only if the MIME type is ASCII |
| `PacketFunctions.CreateSyncingPacketFromParams` | utility/functions/packet/packet.cpp:111-140 | itemCount = number of pairs, item i is built from pair i in input order, packetLength = `size()`; the result equals the `(packetType, items)` overload's for the same arguments |
| `PacketFunctions.CreateSyncingPacket` | utility/functions/packet/packet.cpp:150-181 | the same guarantees for the `(packetType, items)` overload, and the same packet |
| `PacketFunctions.DeclaredSizeMatches` | utility/functions/packet/packet.cpp:88-97 | with ASCII MIME types, each item's own length fields add up to its real size (8 + mimeLength + payloadLength) |
| `PacketFunctions.AsciiItemDelimited` | utility/functions/packet/packet.cpp:88-97 | for an ASCII MIME type, the declared mimeLength and payloadLength locate the MIME bytes, the payload-length field and the payload in the item's bytes |
| `PacketFunctions.NonAsciiItemMisdelimited` | utility/functions/packet/packet.cpp:88-97 | for the MIME type "é", mimeLength is 1 but 2 bytes are stored, so the four bytes after the declared MIME type are not the payload-length field |
| `PacketFunctions.SyncingLengthFromFields` | utility/functions/packet/packet.cpp:150-181 | with ASCII MIME types, packetLength is 9 header bytes plus 8 + mimeLength + payloadLength per item |
| `SyncingClient.ServerList` | network/syncing/client/client.hpp:146-151 | the server list is the (address, port) part of each stored entry, one per entry, in stored order |
| `SyncingClient.UnexpiredMembers` | network/syncing/client/client.hpp:108-113 | an entry survives pruning if and only if it was stored and its age does not exceed the threshold |
| `SyncingClient.UnexpiredAppend` | network/syncing/client/client.hpp:108-113 | pruning commutes with concatenation, so kept entries stay in stored order |
| `SyncingClient.UnexpiredKeepsDistinct` | network/syncing/client/client.hpp:68-69 | pruning never makes two entries name the same server |
| `SyncingClient.ExpiryBoundary` | network/syncing/client/client.hpp:77-78 | a server last seen at t is kept up to t + 10000 and dropped afterwards |
| `SyncingClient.EraseExpired` | network/syncing/client/client.hpp:108-113 | the erase loop leaves exactly the unexpired entries, in order |
| `SyncingClient.Serialize` | network/syncing/client/client.hpp:87-90 | the bytes sent for a packet number exactly its `size()` |
| `SyncingClient.BuiltPacketDeliversItems` | network/syncing/client/client.hpp:92-98 | processSyncingPacket, given the packet value the builder returns, signals every (MIME type, payload) pair in order, with the MIME type as UTF-8 |
| `SyncingClient.Client.constructor` | network/syncing/client/client.hpp:123-131 | a new client has no servers, has written nothing and has emitted nothing |
| `SyncingClient.Client.UpdateServerList` | network/syncing/client/client.hpp:108-113 | removes exactly the entries older than the threshold, keeps the rest in order and distinct, and signals the new list |
| `SyncingClient.Client.OnServerFound` | network/syncing/client/client.hpp:189-196 | a known server gets its timestamp refreshed in place and nothing else changes; a new one is appended with the current time and announced once; the new list is signalled |
| `SyncingClient.Client.SendPacket` | network/syncing/client/client.hpp:82-90 | the socket receives exactly the packet's serialisation and nothing else changes |
| `SyncingClient.Client.ProcessSyncingPacket` | network/syncing/client/client.hpp:92-98 | a sync request carrying the packet's items, in order, is signalled and nothing else changes |
| `Control.MessagesDistinct` | controller/controller.cpp:163-287 | the four runtime_error texts ("Host is not server", "Host is not client", "Client not found", "Server not found") are pairwise different, so the text identifies the error |
| `Control.FindPeer` | controller/controller.cpp:179-188 | the search finds a peer if and only if some listed pair matches both its address and its port |
| `Control.Without` | controller/controller.cpp:192 | disconnecting a client removes exactly that peer from the client list |
| `Control.Controller.constructor` | controller/clipbird/clipbird.hpp:72-75 | a new controller holds an unstarted Server, no authenticator and the default TLS configuration |
| `Control.Controller.SetCurrentHostAsServer` | controller/controller.cpp:13-57 | a fresh, started server replaces the held role; it has the stored authenticator when one is set, and the stored TLS configuration |
| `Control.Controller.SetCurrentHostAsClient` | controller/controller.cpp:62-101 | a fresh client replaces the held role, gets the stored TLS configuration and starts discovery |
| `Control.Controller.SetAuthenticator` | controller/controller.cpp:118-129 | the getter returns what was stored; the held role is untouched |
| `Control.Controller.SetSSLConfiguration` | controller/controller.cpp:136-147 | the getter returns what was stored; the held role is untouched |
| `Control.Controller.GetConnectedClientsList` | controller/controller.cpp:158-165 | the server's client list when a server is held, otherwise "Host is not server" |
| `Control.Controller.DisconnectClient` | controller/controller.cpp:173-196 | "Host is not server" in the client role; "Client not found" unless a client matches address and port; otherwise only that client is removed |
| `Control.Controller.DisconnectAllClients` | controller/controller.cpp:201-207 | empties the server's client list, or fails with "Host is not server" and changes nothing |
| `Control.Controller.GetServer` | controller/controller.cpp:212-218 | the server's listening address and port, or "Host is not server" |
| `Control.Controller.GetServerList` | controller/controller.cpp:229-235 | the client's discovered (address, port) pairs, or "Host is not client" |
| `Control.Controller.ConnectToServer` | controller/controller.cpp:244-250 | the client's connection target becomes the given server, or "Host is not client" and nothing changes |
| `Control.Controller.GetConnectedServer` | controller/controller.cpp:257-263 | the client's connected peer, or "Host is not client" |
| `Control.Controller.DisconnectFromServer` | controller/controller.cpp:268-292 | "Host is not client" in the server role; "Server not found" unless the pair was discovered; otherwise the current connection is dropped, whichever server it is to |
| `Control.ExactlyOneRole` | controller/clipbird/clipbird.hpp:72 | in every state, exactly one of the server accessors and the client accessors succeeds |
| `Control.RoleSwitchScenario` | controller/controller.cpp:13-101 | a new controller fails client calls; after becoming a client, server calls fail; after becoming a server again, client calls fail and the fresh server has no clients |

## Left out

- Signal/slot wiring between the roles, the controller and the clipboard (controller/controller.cpp:25-53, :69-97) is not modelled. The model only records that the new role was configured and started.
- TLS sockets, handshakes and certificate checks are not modelled. `Control.Controller.ConnectToServer` records the target as connected at once; the asynchronous handshake is not modelled.
- The `QTimer` that schedules `updateServerList` is not modelled. The clock is a parameter.
- The authenticator's accept/reject decision is not modelled. An authenticator is an opaque handle, and the model only tracks who holds it.
- The TLS configuration is opaque certificate and key bytes.
- The syncing server and the discovery announcer are not part of this model. The controller sees the server as a value: its client list, listening address, authenticator, TLS configuration and started flag. Removing a client removes every entry equal to it.
- The syncing client's `syncItems`, `processInvalidPacket`, `processReadyRead`, `connectToServer`, `getConnectedServer`, `disconnectFromServer` and SSL-configuration accessors are not part of the `SyncingClient.Client` class. The controller's client value stands in for the connection-related ones.
- The implementations of the IPv4/IPv6 byte helpers are not part of this model. `Net.ToIPv4Bytes` and `Net.ToIPv6Bytes` give them QHostAddress conversion semantics. The proofs rely only on their lengths and on the identity for an address of the matching family.
- The wire layout of the Discovery packet is not modelled, only its `size()`. Readers for Discovery and Syncing packets are not modelled.
- `SyncingClient.Client.ProcessSyncingPacket`: signals the MIME type as its UTF-8 bytes. Decoding them back into a QString is not modelled.
- `Text.Utf16Length`: Dafny characters are Unicode scalar values, so a QString holding an unpaired surrogate cannot be expressed.
- `InvalidRequests.InvalidRequest.ReadFrom`: on a malformed buffer it promises nothing about the fields. The stream reader may have overwritten some of them before it failed.
- `InvalidRequests.Decode`: reads from a buffer holding exactly one packet, not from an open stream. Stream positioning and partial reads are not modelled.
- `SyncingClient.Client.OnServerFound`: the implementation file is not part of this model. Its behaviour is assumed: a known entry gets its timestamp refreshed in place, and a new one is appended and announced once.
- `SyncingClient.BuiltPacketDeliversItems`: applies processSyncingPacket to the in-memory packet value. Writing the packet to bytes and reading it back are not modelled. For a non-ASCII MIME type, the declared mimeLength does not delimit the stored UTF-8 bytes (`PacketFunctions.NonAsciiItemMisdelimited`), so a reader that trusts it would misparse the item.
- `InvalidRequests.Encode`, `InvalidRequests.Decode`: the bodies of the stream operators are not available. The field order, the unprefixed raw message, the 6-byte header and the three rejection checks are assumptions, and so is the layout that `RoundTrip`, `DecodeThenEncode` and `Packets.EncodeSyncingPacket` rest on.
- No modelled operation adds to a server's client list or to the controller's client-role list of discovered servers. Those come from the network layer, which is not modelled. Starting from a new controller, the success branches of `Control.Controller.DisconnectClient` and `Control.Controller.DisconnectFromServer` are therefore reachable only from a state the network layer produced.
- `Control.Client` and `SyncingClient.Client` are two separate models of the same syncing client. The controller's value shares the entry type and the `ServerList` projection, but the controller's operations do not run `UpdateServerList` or `OnServerFound` on it.
- Packet tests, the GUI, the OS clipboard and certificate generation are outside the modelled core.
