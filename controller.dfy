/**
 * The role controller: a process is exactly one of a syncing server or a
 * syncing client at a time. Switching role replaces the held role by a
 * freshly constructed one, hands it the stored TLS configuration (and, for
 * a server, the stored authenticator when one is set) and starts it.
 * Role-specific operations fail with an error when the other role is held.
 */
module Control {
  import opened Wire
  import opened Wrappers
  import opened Net
  import SyncingClient

  /** The host application's authentication callback, identified by a handle. */
  datatype Authenticator = Authenticator(handle: nat)

  /** Opaque TLS material; a default-constructed configuration holds none. */
  datatype SslConfiguration = SslConfiguration(certificate: seq<Byte>, privateKey: seq<Byte>)

  const DefaultSslConfiguration: SslConfiguration := SslConfiguration([], [])

  /** A syncing server as the controller sees it: its admitted clients and configuration. */
  datatype Server = Server(
    clients: seq<PeerAddress>,
    info: PeerAddress,
    authenticator: Option<Authenticator>,
    sslConfig: SslConfiguration,
    started: bool)

  /** A syncing client as the controller sees it: its discovered servers and connection. */
  datatype Client = Client(
    servers: seq<SyncingClient.ServerEntry>,
    connection: PeerAddress,
    sslConfig: SslConfiguration,
    discovering: bool)

  /** A newly constructed server: no clients, not listening, no authenticator. */
  const NewServer: Server := Server([], NullPeer, None, DefaultSslConfiguration, false)

  /** A newly constructed client: nothing discovered, not connected. */
  const NewClient: Client := Client([], NullPeer, DefaultSslConfiguration, false)

  /** The held role: one alternative of a two-way variant, a Server or a Client. */
  datatype Host = AsServer(server: Server) | AsClient(client: Client)

  /** The runtime errors the controller throws. */
  datatype ControllerError = HostIsNotServer | HostIsNotClient | ClientNotFound | ServerNotFound

  function Message(e: ControllerError): string
  {
    match e
    case HostIsNotServer => "Host is not server"
    case HostIsNotClient => "Host is not client"
    case ClientNotFound => "Client not found"
    case ServerNotFound => "Server not found"
  }

  /** Each error has its own message, so the thrown text tells the cases apart. */
  lemma MessagesDistinct(a: ControllerError, b: ControllerError)
    ensures Message(a) == Message(b) <==> a == b
  {
    if a != b {
      // "Host is not server" and "Host is not client" differ at index 12,
      // "Client not found" and "Server not found" at index 0, and the two
      // families differ in length.
      assert Message(a)[12] != Message(b)[12] || Message(a)[0] != Message(b)[0]
             || |Message(a)| != |Message(b)|;
    }
  }

  /** find_if over a peer list, matching both address and port. */
  method FindPeer(peers: seq<PeerAddress>, peer: PeerAddress) returns (found: bool)
    ensures found <==> peer in peers
  {
    var i := 0;
    while i < |peers| && !(peers[i].address == peer.address && peers[i].port == peer.port)
      invariant 0 <= i <= |peers|
      invariant forall j :: 0 <= j < i ==> peers[j] != peer
    {
      i := i + 1;
    }
    found := i < |peers|;
  }

  /** The peer list once a peer's session is closed and removed. */
  function Without(peers: seq<PeerAddress>, peer: PeerAddress): (r: seq<PeerAddress>)
    ensures forall p :: p in r <==> p in peers && p != peer
    ensures |r| <= |peers|
  {
    if peers == [] then []
    else (if peers[0] == peer then [] else [peers[0]]) + Without(peers[1..], peer)
  }

  class Controller {
    /** m_host. */
    var host: Host
    /** m_sslConfig. */
    var sslConfig: SslConfiguration
    /** m_authenticator; None is the null callback. */
    var authenticator: Option<Authenticator>

    /** The variant default-constructs its first alternative: a server, not started. */
    constructor ()
      ensures host == AsServer(NewServer)
      ensures sslConfig == DefaultSslConfiguration && authenticator == None
    {
      host := AsServer(NewServer);
      sslConfig := DefaultSslConfiguration;
      authenticator := None;
    }

    /**
     * setCurrentHostAsServer: a fresh server replaces the held role, gets the
     * authenticator if one is set and the TLS configuration, and starts
     * listening; the network layer decides the address it listens on.
     */
    method SetCurrentHostAsServer(listenAt: PeerAddress)
      modifies this
      ensures host.AsServer?
      ensures host.server.clients == [] && host.server.started && host.server.info == listenAt
      ensures host.server.authenticator
              == if authenticator.Some? then authenticator else NewServer.authenticator
      ensures host.server.sslConfig == sslConfig
      ensures sslConfig == old(sslConfig) && authenticator == old(authenticator)
    {
      var server := NewServer;
      if authenticator.Some? {
        server := server.(authenticator := authenticator);
      }
      server := server.(sslConfig := sslConfig);
      // startServer
      server := server.(started := true, info := listenAt);
      host := AsServer(server);
    }

    /**
     * setCurrentHostAsClient: a fresh client replaces the held role, gets
     * the TLS configuration and starts discovery.
     */
    method SetCurrentHostAsClient()
      modifies this
      ensures host.AsClient?
      ensures host.client.servers == [] && host.client.connection == NullPeer
      ensures host.client.sslConfig == sslConfig && host.client.discovering
      ensures sslConfig == old(sslConfig) && authenticator == old(authenticator)
    {
      var client := NewClient;
      client := client.(sslConfig := sslConfig);
      // startDiscovery
      client := client.(discovering := true);
      host := AsClient(client);
    }

    function GetAuthenticator(): Option<Authenticator>
      reads this
    {
      authenticator
    }

    /** setAuthenticator: stored only; a role already held keeps what it had. */
    method SetAuthenticator(a: Option<Authenticator>)
      modifies this
      ensures GetAuthenticator() == a
      ensures host == old(host) && sslConfig == old(sslConfig)
    {
      authenticator := a;
    }

    function GetSSLConfiguration(): SslConfiguration
      reads this
    {
      sslConfig
    }

    /** setSSLConfiguration: stored only; a role already held keeps what it had. */
    method SetSSLConfiguration(config: SslConfiguration)
      modifies this
      ensures GetSSLConfiguration() == config
      ensures host == old(host) && authenticator == old(authenticator)
    {
      sslConfig := config;
    }

    // ---------------------------- server functions ----------------------------

    /** getConnectedClientsList (const). */
    function GetConnectedClientsList(): (r: Result<seq<PeerAddress>, ControllerError>)
      reads this
      ensures r.Ok? <==> host.AsServer?
      ensures r.Ok? ==> r.value == host.server.clients
      ensures r.Err? ==> r.error == HostIsNotServer
    {
      if host.AsServer? then Ok(host.server.clients) else Err(HostIsNotServer)
    }

    /**
     * disconnectClient: the client must be held as a server and the peer
     * must be among its connected clients; only then is it disconnected.
     */
    method DisconnectClient(client: PeerAddress) returns (r: Outcome<ControllerError>)
      modifies this
      ensures old(host).AsClient? ==> r == Fail(HostIsNotServer) && host == old(host)
      ensures old(host).AsServer? && client !in old(host).server.clients ==>
                r == Fail(ClientNotFound) && host == old(host)
      ensures old(host).AsServer? && client in old(host).server.clients ==>
                r == Pass &&
                host == AsServer(old(host).server.(clients := Without(old(host).server.clients, client)))
      ensures sslConfig == old(sslConfig) && authenticator == old(authenticator)
    {
      if !host.AsServer? {
        return Fail(HostIsNotServer);
      }
      var clients := GetConnectedClientsList().value;
      var found := FindPeer(clients, client);
      if found {
        // the server closes that client's session
        host := AsServer(host.server.(clients := Without(host.server.clients, client)));
        r := Pass;
      } else {
        r := Fail(ClientNotFound);
      }
    }

    /** disconnectAllClients. */
    method DisconnectAllClients() returns (r: Outcome<ControllerError>)
      modifies this
      ensures old(host).AsClient? ==> r == Fail(HostIsNotServer) && host == old(host)
      ensures old(host).AsServer? ==> r == Pass && host == AsServer(old(host).server.(clients := []))
      ensures sslConfig == old(sslConfig) && authenticator == old(authenticator)
    {
      if host.AsServer? {
        host := AsServer(host.server.(clients := []));
        r := Pass;
      } else {
        r := Fail(HostIsNotServer);
      }
    }

    /** getServer: the address and port the server listens on. */
    function GetServer(): (r: Result<PeerAddress, ControllerError>)
      reads this
      ensures r.Ok? <==> host.AsServer?
      ensures r.Ok? ==> r.value == host.server.info
      ensures r.Err? ==> r.error == HostIsNotServer
    {
      if host.AsServer? then Ok(host.server.info) else Err(HostIsNotServer)
    }

    // ---------------------------- client functions ----------------------------

    /** getServerList: the discovered servers' (address, port) pairs. */
    function GetServerList(): (r: Result<seq<PeerAddress>, ControllerError>)
      reads this
      ensures r.Ok? <==> host.AsClient?
      ensures r.Ok? ==> r.value == SyncingClient.ServerList(host.client.servers)
      ensures r.Err? ==> r.error == HostIsNotClient
    {
      if host.AsClient? then Ok(SyncingClient.ServerList(host.client.servers)) else Err(HostIsNotClient)
    }

    /** connectToServer: the client connects to the given server. */
    method ConnectToServer(server: PeerAddress) returns (r: Outcome<ControllerError>)
      modifies this
      ensures old(host).AsServer? ==> r == Fail(HostIsNotClient) && host == old(host)
      ensures old(host).AsClient? ==> r == Pass && host == AsClient(old(host).client.(connection := server))
      ensures sslConfig == old(sslConfig) && authenticator == old(authenticator)
    {
      if host.AsClient? {
        host := AsClient(host.client.(connection := server));
        r := Pass;
      } else {
        r := Fail(HostIsNotClient);
      }
    }

    /** getConnectedServer: the peer of the client's socket (null when unconnected). */
    function GetConnectedServer(): (r: Result<PeerAddress, ControllerError>)
      reads this
      ensures r.Ok? <==> host.AsClient?
      ensures r.Ok? ==> r.value == host.client.connection
      ensures r.Err? ==> r.error == HostIsNotClient
    {
      if host.AsClient? then Ok(host.client.connection) else Err(HostIsNotClient)
    }

    /**
     * disconnectFromServer: the named server must be among the discovered
     * ones; the client then drops its current connection, whichever server
     * that is.
     */
    method DisconnectFromServer(server: PeerAddress) returns (r: Outcome<ControllerError>)
      modifies this
      ensures old(host).AsServer? ==> r == Fail(HostIsNotClient) && host == old(host)
      ensures old(host).AsClient? && server !in SyncingClient.ServerList(old(host).client.servers) ==>
                r == Fail(ServerNotFound) && host == old(host)
      ensures old(host).AsClient? && server in SyncingClient.ServerList(old(host).client.servers) ==>
                r == Pass && host == AsClient(old(host).client.(connection := NullPeer))
      ensures sslConfig == old(sslConfig) && authenticator == old(authenticator)
    {
      if !host.AsClient? {
        return Fail(HostIsNotClient);
      }
      var servers := GetServerList().value;
      var found := FindPeer(servers, server);
      if !found {
        return Fail(ServerNotFound);
      }
      host := AsClient(host.client.(connection := NullPeer));
      r := Pass;
    }
  }

  /** Exactly one family of role accessors succeeds, whatever role is held. */
  lemma ExactlyOneRole(c: Controller)
    ensures c.GetConnectedClientsList().Ok? != c.GetServerList().Ok?
    ensures c.GetServer().Ok? != c.GetConnectedServer().Ok?
  {
  }

  /**
   * Role exclusivity across switches: a new controller is a server that is
   * not started; after becoming a client the server accessors fail; after
   * becoming a server again the fresh server has no clients and the client
   * accessors fail.
   */
  method RoleSwitchScenario(listenAt: PeerAddress, peer: PeerAddress)
    returns (initial: Result<seq<PeerAddress>, ControllerError>,
             asClient: Outcome<ControllerError>,
             asServer: Outcome<ControllerError>,
             clients: Result<seq<PeerAddress>, ControllerError>)
    ensures initial == Err(HostIsNotClient)
    ensures asClient == Fail(HostIsNotServer)
    ensures asServer == Fail(HostIsNotClient)
    ensures clients == Ok([])
  {
    var controller := new Controller();
    initial := controller.GetServerList();
    controller.SetCurrentHostAsClient();
    asClient := controller.DisconnectClient(peer);
    controller.SetCurrentHostAsServer(listenAt);
    asServer := controller.DisconnectFromServer(peer);
    clients := controller.GetConnectedClientsList();
  }
}
