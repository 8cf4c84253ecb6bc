/** `GenFiles._create_client` (genwg/genfiles.py:68-136): the config of one
    client of one server, whose lines depend on the server's transport and
    the client's flags. */
module ClientFiles {
  import opened Wrappers
  import opened IPv4
  import opened Records
  import opened Artifacts

  /** The udp2raw hooks are written only for a tcp client of a tcp server that is not an Android device. */
  predicate UsesTunnel(s: ServerConfig, c: ClientConfig)
  {
    s.proto == Tcp && c.tcp && !c.android
  }

  function ClientHead(s: ServerConfig, c: ClientConfig, addr: Addr): seq<ConfLine>
  {
    [ Note("server", s.name), Note("client", c.name), Note("private", c.priv), Note("public", c.pub),
      Section("Interface"),
      Set("Address", Cidr(addr, 32)),
      Set("PrivateKey", Text(c.priv)),
      Set("MTU", Number(s.mtu)) ]
  }

  /** A `bind` client points its local resolver at the server's first address while up, and back at the root hints when going down. */
  function BindHooks(dns: Addr, rootZoneFile: string): seq<ConfLine>
  {
    [ Blank,
      Set("PostUp", Run(MakeBindDir)),
      Set("PostUp", Run(ForwardRootZone(dns))),
      Set("PostUp", Run(ReloadBind)),
      Set("PreDown", Run(MakeBindDir)),
      Set("PreDown", Run(HintRootZone(rootZoneFile))),
      Set("PreDown", Run(ReloadBind)) ]
  }

  function TunnelHooks(host: Addr, port: int, secret: string): seq<ConfLine>
  {
    [ Set("PreUp", Run(AddHostRoute(host))),
      Set("PreUp", Run(Udp2rawClient(host, port, secret))),
      Set("PostDown", Run(DeleteHostRoute(host))),
      Set("PostDown", Run(StopUdp2raw)) ]
  }

  function ServerEndpoint(s: ServerConfig): ConfValue
  {
    if s.proto == Tcp then Endpoint(Loopback, TunnelPort) else Endpoint(s.ip, s.port)
  }

  function Keepalive(s: ServerConfig): int
  {
    if s.proto == Tcp then 120 else 25
  }

  function ClientPeer(s: ServerConfig): seq<ConfLine>
  {
    [ Blank,
      Section("Peer"),
      Set("PublicKey", Text(s.pub)),
      Set("Endpoint", ServerEndpoint(s)),
      Set("AllowedIPs", Cidr(0, 0)),
      Set("PersistentKeepalive", Number(Keepalive(s))) ]
  }

  lemma HeadValues(s: ServerConfig, c: ClientConfig, addr: Addr)
    ensures forall key :: Values(ClientHead(s, c, addr), key) ==
              if key == "Address" then {Cidr(addr, 32)}
              else if key == "PrivateKey" then {Text(c.priv)}
              else if key == "MTU" then {Number(s.mtu)}
              else {}
  {
  }

  lemma BindHooksValues(dns: Addr, rootZoneFile: string)
    ensures forall key :: Values(BindHooks(dns, rootZoneFile), key) ==
              if key == "PostUp" then {Run(MakeBindDir), Run(ForwardRootZone(dns)), Run(ReloadBind)}
              else if key == "PreDown" then {Run(MakeBindDir), Run(HintRootZone(rootZoneFile)), Run(ReloadBind)}
              else {}
  {
  }

  lemma DnsLineValues(dns: Addr)
    ensures forall key :: Values([Set("DNS", Ip(dns))], key) == if key == "DNS" then {Ip(dns)} else {}
  {
  }

  lemma TunnelHooksValues(host: Addr, port: int, secret: string)
    ensures forall key :: Values(TunnelHooks(host, port, secret), key) ==
              if key == "PreUp" then {Run(AddHostRoute(host)), Run(Udp2rawClient(host, port, secret))}
              else if key == "PostDown" then {Run(DeleteHostRoute(host)), Run(StopUdp2raw)}
              else {}
  {
  }

  lemma ClientPeerValues(s: ServerConfig)
    ensures forall key :: Values(ClientPeer(s), key) ==
              if key == "PublicKey" then {Text(s.pub)}
              else if key == "Endpoint" then {ServerEndpoint(s)}
              else if key == "AllowedIPs" then {Cidr(0, 0)}
              else if key == "PersistentKeepalive" then {Number(Keepalive(s))}
              else {}
  {
  }

  /** The config of client `c` of server `s` at address `addr`. It fails when
      the server's first address (`net + 1`, the DNS server) does not exist,
      when a bind client needs `bind.root_zone_file` and it is not set, or
      when the udp2raw hooks need a port and secret that are not set. */
  function ClientConf(s: ServerConfig, c: ClientConfig, addr: Addr, env: Env): (r: Result<seq<ConfLine>, GenError>)
    ensures r.Failure? <==>
              || s.net.base + 1 >= AddrLimit
              || (c.bind && env.bind.rootZoneFile.None?)
              || (UsesTunnel(s, c) && (env.udp2raw.None? || env.udp2raw.value.secret.None?))
  {
    var dns :- Add(s.net.base, 1).ToResult(AddressOverflow);
    var resolver :-
      if c.bind then
        var root :- env.bind.rootZoneFile.ToResult(MissingAttribute("bind.root_zone_file"));
        Success(BindHooks(dns, root))
      else Success([Set("DNS", Ip(dns))]);
    var tunnel :-
      if UsesTunnel(s, c) then
        var settings :- TunnelSettings(env.udp2raw);
        Success(TunnelHooks(s.ip, settings.0, settings.1))
      else Success([]);
    Success(ClientHead(s, c, addr) + resolver + tunnel + ClientPeer(s))
  }

  /** The values every key takes in a generated client config, block by
      block: the head, then the bind hooks or the DNS line, then the udp2raw
      hooks of a tunnelled client, then the peer. */
  lemma ClientConfSettings(s: ServerConfig, c: ClientConfig, addr: Addr, env: Env, key: string)
    requires ClientConf(s, c, addr, env).Success?
    ensures var dns := s.net.base + 1;
      Values(ClientConf(s, c, addr, env).value, key) ==
        (if key == "Address" then {Cidr(addr, 32)}
         else if key == "PrivateKey" then {Text(c.priv)}
         else if key == "MTU" then {Number(s.mtu)}
         else {})
        + (if c.bind then
             (if key == "PostUp" then {Run(MakeBindDir), Run(ForwardRootZone(dns)), Run(ReloadBind)}
              else if key == "PreDown" then {Run(MakeBindDir), Run(HintRootZone(env.bind.rootZoneFile.value)), Run(ReloadBind)}
              else {})
           else if key == "DNS" then {Ip(dns)}
           else {})
        + (if UsesTunnel(s, c) then
             (if key == "PreUp"
              then {Run(AddHostRoute(s.ip)), Run(Udp2rawClient(s.ip, env.udp2raw.value.port, env.udp2raw.value.secret.value))}
              else if key == "PostDown" then {Run(DeleteHostRoute(s.ip)), Run(StopUdp2raw)}
              else {})
           else {})
        + (if key == "PublicKey" then {Text(s.pub)}
           else if key == "Endpoint" then {ServerEndpoint(s)}
           else if key == "AllowedIPs" then {Cidr(0, 0)}
           else if key == "PersistentKeepalive" then {Number(Keepalive(s))}
           else {})
  {
    ClientConfParts(s, c, addr, env);
    HeadValues(s, c, addr);
    if c.bind {
      BindHooksValues(s.net.base + 1, env.bind.rootZoneFile.value);
    } else {
      DnsLineValues(s.net.base + 1);
    }
    if UsesTunnel(s, c) {
      TunnelHooksValues(s.ip, env.udp2raw.value.port, env.udp2raw.value.secret.value);
    }
    ClientPeerValues(s);
  }

  /** A generated client config sets its own address as a /32, the
      client's private key and the server's MTU. */
  lemma ClientConfInterface(s: ServerConfig, c: ClientConfig, addr: Addr, env: Env)
    requires ClientConf(s, c, addr, env).Success?
    ensures var conf := ClientConf(s, c, addr, env).value;
      && Values(conf, "Address") == {Cidr(addr, 32)}
      && Values(conf, "PrivateKey") == {Text(c.priv)}
      && Values(conf, "MTU") == {Number(s.mtu)}
  {
    ClientConfSettings(s, c, addr, env, "Address");
    ClientConfSettings(s, c, addr, env, "PrivateKey");
    ClientConfSettings(s, c, addr, env, "MTU");
  }

  /** The peer of a generated client config is the server, by its public
      key; a tcp server is reached through the local udp2raw end
      127.0.0.1:50001 with keepalive 120, a udp server directly at ip:port
      with keepalive 25; all traffic is routed into the tunnel. */
  lemma ClientConfPeer(s: ServerConfig, c: ClientConfig, addr: Addr, env: Env)
    requires ClientConf(s, c, addr, env).Success?
    ensures var conf := ClientConf(s, c, addr, env).value;
      && Values(conf, "PublicKey") == {Text(s.pub)}
      && Values(conf, "Endpoint") ==
           (if s.proto == Tcp then {Endpoint(Loopback, TunnelPort)} else {Endpoint(s.ip, s.port)})
      && Values(conf, "PersistentKeepalive") == (if s.proto == Tcp then {Number(120)} else {Number(25)})
      && Values(conf, "AllowedIPs") == {Cidr(0, 0)}
  {
    ClientConfSettings(s, c, addr, env, "PublicKey");
    ClientConfSettings(s, c, addr, env, "Endpoint");
    ClientConfSettings(s, c, addr, env, "PersistentKeepalive");
    ClientConfSettings(s, c, addr, env, "AllowedIPs");
  }

  /** A bind client gets the forwarder hooks pointing at the server's first
      address instead of a DNS line; any other client gets `DNS = net + 1`. */
  lemma ClientConfResolver(s: ServerConfig, c: ClientConfig, addr: Addr, env: Env)
    requires ClientConf(s, c, addr, env).Success?
    ensures var conf := ClientConf(s, c, addr, env).value;
      var dns := s.net.base + 1;
      && Values(conf, "DNS") == (if c.bind then {} else {Ip(dns)})
      && Values(conf, "PostUp") ==
           (if c.bind then {Run(MakeBindDir), Run(ForwardRootZone(dns)), Run(ReloadBind)} else {})
      && Values(conf, "PreDown") ==
           (if c.bind then {Run(MakeBindDir), Run(HintRootZone(env.bind.rootZoneFile.value)), Run(ReloadBind)} else {})
  {
    ClientConfSettings(s, c, addr, env, "DNS");
    ClientConfSettings(s, c, addr, env, "PostUp");
    ClientConfSettings(s, c, addr, env, "PreDown");
  }

  /** Only a tunnelled client (tcp server, tcp client, not Android) gets the
      udp2raw hooks: a host route to the server and the udp2raw client while
      coming up, and their removal while going down. */
  lemma ClientConfTunnel(s: ServerConfig, c: ClientConfig, addr: Addr, env: Env)
    requires ClientConf(s, c, addr, env).Success?
    ensures var conf := ClientConf(s, c, addr, env).value;
      && Values(conf, "PreUp") ==
           (if UsesTunnel(s, c)
            then {Run(AddHostRoute(s.ip)), Run(Udp2rawClient(s.ip, env.udp2raw.value.port, env.udp2raw.value.secret.value))}
            else {})
      && Values(conf, "PostDown") ==
           (if UsesTunnel(s, c) then {Run(DeleteHostRoute(s.ip)), Run(StopUdp2raw)} else {})
  {
    ClientConfSettings(s, c, addr, env, "PreUp");
    ClientConfSettings(s, c, addr, env, "PostDown");
  }

  /** The config is the head, the resolver lines, the tunnel hooks and the peer, in that order. */
  lemma ClientConfParts(s: ServerConfig, c: ClientConfig, addr: Addr, env: Env)
    requires ClientConf(s, c, addr, env).Success?
    ensures var dns := s.net.base + 1;
      var resolver := if c.bind then BindHooks(dns, env.bind.rootZoneFile.value) else [Set("DNS", Ip(dns))];
      var tunnel := if UsesTunnel(s, c)
                    then TunnelHooks(s.ip, env.udp2raw.value.port, env.udp2raw.value.secret.value)
                    else [];
      && ClientConf(s, c, addr, env).value == ClientHead(s, c, addr) + resolver + tunnel + ClientPeer(s)
      && forall key :: Values(ClientConf(s, c, addr, env).value, key) ==
           Values(ClientHead(s, c, addr), key) + Values(resolver, key) + Values(tunnel, key) + Values(ClientPeer(s), key)
  {
    var dns := s.net.base + 1;
    var resolver := if c.bind then BindHooks(dns, env.bind.rootZoneFile.value) else [Set("DNS", Ip(dns))];
    var tunnel := if UsesTunnel(s, c)
                  then TunnelHooks(s.ip, env.udp2raw.value.port, env.udp2raw.value.secret.value)
                  else [];
    ValuesAppend(ClientHead(s, c, addr), resolver);
    ValuesAppend(ClientHead(s, c, addr) + resolver, tunnel);
    ValuesAppend(ClientHead(s, c, addr) + resolver + tunnel, ClientPeer(s));
  }
}
