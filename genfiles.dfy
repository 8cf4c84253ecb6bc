/** The `GenFiles` object (genwg/genfiles.py:11-317): the settings the
    command line fills in, and the steps that turn them into WireGuard
    configs, BIND zones and a dump of the state. Each method is proved equal
    to the function that specifies it in ClientFiles, ServerFiles or
    StateDump, where the properties of the output are proved. */
module Generator {
  import opened Wrappers
  import opened IPv4
  import opened Records
  import opened Artifacts
  import opened ClientFiles
  import opened ServerFiles
  import opened Yaml
  import opened StateDump

  class GenFiles {
    var wantBind: bool
    var servers: seq<GenServer>
    var clients: seq<ClientConfig>
    var udp2raw: Option<Udp2rawConfig>
    var bind: BindConfig

    /** `__init__` leaves every attribute `None` for the command line to
        fill in; here they are given at construction. */
    constructor(wantBind: bool, servers: seq<GenServer>, clients: seq<ClientConfig>,
                udp2raw: Option<Udp2rawConfig>, bind: BindConfig)
      ensures this.wantBind == wantBind && this.servers == servers && this.clients == clients
      ensures this.udp2raw == udp2raw && this.bind == bind
    {
      this.wantBind := wantBind;
      this.servers := servers;
      this.clients := clients;
      this.udp2raw := udp2raw;
      this.bind := bind;
    }

    /** The settings every server and client shares. */
    function Settings(): Env
      reads this
    {
      Env(wantBind, udp2raw, bind)
    }

    /** `_create_client`: the config of `client` at the server's current
        `last_ip`, built line group by line group. */
    method CreateClient(server: GenServer, client: ClientConfig) returns (r: Result<seq<ConfLine>, GenError>)
      ensures r == ClientConf(server.config, client, server.lastIp, Settings())
    {
      var cfg := server.config;
      var conf := [Note("server", cfg.name), Note("client", client.name), Note("private", client.priv), Note("public", client.pub)];
      conf := conf + [Section("Interface"), Set("Address", Cidr(server.lastIp, 32)),
                      Set("PrivateKey", Text(client.priv)), Set("MTU", Number(cfg.mtu))];
      if cfg.net.base + 1 >= AddrLimit {
        return Failure(AddressOverflow);
      }
      var dns: Addr := cfg.net.base + 1;
      assert conf == ClientHead(cfg, client, server.lastIp);
      ghost var head := conf;
      if client.bind {
        if bind.rootZoneFile.None? {
          return Failure(MissingAttribute("bind.root_zone_file"));
        }
        conf := conf + BindHooks(dns, bind.rootZoneFile.value);
      } else {
        conf := conf + [Set("DNS", Ip(dns))];
      }
      ghost var resolver := conf[|head|..];
      assert conf == head + resolver;
      if cfg.proto == Tcp && client.tcp && !client.android {
        if udp2raw.None? {
          return Failure(MissingAttribute("udp2raw.port"));
        }
        if udp2raw.value.secret.None? {
          return Failure(MissingAttribute("udp2raw.secret"));
        }
        conf := conf + TunnelHooks(cfg.ip, udp2raw.value.port, udp2raw.value.secret.value);
      }
      ghost var tunnel := conf[|head + resolver|..];
      assert conf == head + resolver + tunnel;
      conf := conf + ClientPeer(cfg);
      return Success(conf);
    }

    /** One pass of the server loop of `_create_servers`: the zones and
        the server's interface, then the client loop moving `last_ip` on,
        then the files of that server. */
    method CreateServer(server: GenServer, named: seq<NamedZone>) returns (r: Result<Emitted, GenError>)
      ensures r == ServerRun(server, clients, Settings(), named)
    {
      var start := BeginServer(server);
      if start.Failure? {
        return Failure(start.error);
      }
      var w := AddClientConfigs(server, start.value.walk);
      if w.Failure? {
        return Failure(w.error);
      }
      var cfg := server.config;
      var written := w.value.files + [ServerFile(cfg.name, w.value.svconf)];
      var named' := named + start.value.stanzas;
      if wantBind {
        written := written + [NamedConfFile(named'), ZoneFile(cfg.name, w.value.aZone), ZoneFile(PtrFileName(server), w.value.ptrZone)];
      }
      assert written == w.value.files + [ServerFile(cfg.name, w.value.svconf)] + ZoneFiles(server, w.value, Settings(), named');
      return Success(Emitted(server.(lastIp := w.value.lastIp), written, named'));
    }

    /** What one pass sets up before its client loop: with bind, both zones
        and genwg.conf's two stanzas; the server's interface, and for a tcp
        server the udp2raw hooks. */
    method BeginServer(server: GenServer) returns (r: Result<Start, GenError>)
      ensures r == ServerStart(server, Settings())
    {
      var cfg := server.config;
      var aZone: seq<ZoneLine> := [];
      var ptrZone: seq<ZoneLine> := [];
      var stanzas: seq<NamedZone> := [];
      if wantBind {
        if bind.hostname.None? {
          return Failure(MissingAttribute("bind.hostname"));
        }
        var hostname := bind.hostname.value;
        var begin := ZoneBegin(cfg.name, hostname);
        aZone := begin + [A(hostname, server.lastIp)];
        ptrZone := begin + [Ptr("1", Qualified(hostname, cfg.name))];
        if bind.namedConfPath.None? {
          return Failure(MissingAttribute("bind.named_conf_path"));
        }
        var path := bind.namedConfPath.value;
        stanzas := [NamedZone(cfg.name, path + "/zone/genwg/" + cfg.name),
                    NamedZone(server.arpaPtr, path + "/zone/genwg/" + PtrFileName(server))];
      }
      var svconf := ServerHead(server);
      if cfg.proto == Tcp {
        if udp2raw.None? {
          return Failure(MissingAttribute("udp2raw.port"));
        }
        if udp2raw.value.secret.None? {
          return Failure(MissingAttribute("udp2raw.secret"));
        }
        svconf := svconf + ServerTunnel(cfg, udp2raw.value.port, udp2raw.value.secret.value);
      }
      if wantBind {
        assert BindStart(server, bind) == Success(BindZones(aZone, ptrZone, stanzas));
      }
      if cfg.proto == Tcp {
        assert TunnelSettings(udp2raw) == Success((udp2raw.value.port, udp2raw.value.secret.value));
      } else {
        assert svconf == ServerHead(server) + [];
      }
      return Success(Start(Walk(server.lastIp, [], svconf, aZone, ptrZone), stanzas));
    }

    /** The client loop of one pass, over every client in order. */
    method AddClientConfigs(server: GenServer, start: Walk) returns (r: Result<Walk, GenError>)
      ensures r == WalkClients(start, server, clients, Settings())
    {
      var w := start;
      var i := 0;
      while i < |clients|
        invariant 0 <= i <= |clients|
        invariant WalkClients(start, server, clients[..i], Settings()) == Success(w)
      {
        var next := AddClientConfig(server, clients[i], w);
        WalkExtend(start, server, clients, Settings(), i, w);
        if next.Failure? {
          return Failure(next.error);
        }
        w := next.value;
        i := i + 1;
      }
      assert clients[..i] == clients;
      return Success(w);
    }

    /** One client of the loop: a tcp server skips a client that does not
        use tcp; otherwise the client gets the next address, an A and a PTR
        record with bind, its own config file and a `[Peer]` block in the
        server's config. */
    method AddClientConfig(server: GenServer, client: ClientConfig, w: Walk) returns (r: Result<Walk, GenError>)
      ensures r == ClientStep(w, server, client, Settings())
    {
      var cfg := server.config;
      if cfg.proto == Tcp && !client.tcp {
        return Success(w);
      }
      if w.lastIp + 1 >= AddrLimit {
        return Failure(AddressOverflow);
      }
      var lastIp: Addr := w.lastIp + 1;
      var aZone := w.aZone;
      var ptrZone := w.ptrZone;
      if wantBind {
        aZone := aZone + [ClientA(client, lastIp)];
        ptrZone := ptrZone + [ClientPtr(server, client, lastIp)];
      }
      var conf := CreateClient(server.(lastIp := lastIp), client);
      if conf.Failure? {
        return Failure(conf.error);
      }
      var files := w.files + [ClientFile(client.name, cfg.name, conf.value)];
      var svconf := w.svconf + PeerBlock(client, lastIp);
      return Success(Walk(lastIp, files, svconf, aZone, ptrZone));
    }

    /** `_create_servers`: every server in turn, each one's `last_ip` left
        where its client loop ended; the files come back in writing order.
        The servers are stored back once all of them have run. */
    method CreateServers() returns (r: Result<seq<Artifact>, GenError>)
      modifies this
      ensures wantBind == old(wantBind) && clients == old(clients) && udp2raw == old(udp2raw) && bind == old(bind)
      ensures |servers| == |old(servers)|
      ensures var g := RunServers(old(servers), clients, Settings());
        && (r.Success? <==> g.Success?)
        && (g.Success? ==> r.value == g.value.files && servers == g.value.servers)
        && (g.Failure? ==> r.error == g.error)
    {
      var updated: seq<GenServer> := [];
      var named: seq<NamedZone> := [];
      var files: seq<Artifact> := [];
      var i := 0;
      while i < |servers|
        invariant unchanged(this)
        invariant 0 <= i <= |servers| && |updated| == i
        invariant RunServers(servers[..i], clients, Settings()) == Success(Generated(updated, files, named))
      {
        var e := CreateServer(servers[i], named);
        RunServersStep(servers, clients, Settings(), i);
        if e.Failure? {
          RunServersStopsAtFailure(servers, clients, Settings(), i + 1);
          return Failure(e.error);
        }
        updated := updated + [e.value.server];
        files := files + e.value.files;
        named := e.value.named;
        i := i + 1;
      }
      assert servers[..i] == servers;
      servers := updated;
      return Success(files);
    }

    /** The `servers` list of the dump, one mapping per server in order. */
    method ServerList() returns (list: seq<Value>)
      ensures list == ServerEntries(servers)
    {
      list := [];
      for i := 0 to |servers|
        invariant list == ServerEntries(servers[..i])
      {
        assert servers[..i + 1][..i] == servers[..i];
        list := list + [Dict(ServerEntry(servers[i].config))];
      }
      assert servers[..|servers|] == servers;
    }

    /** The `clients` list of the dump: a flag is written only when it is set. */
    method ClientList() returns (list: seq<Value>)
      ensures list == ClientEntries(clients)
    {
      list := [];
      for i := 0 to |clients|
        invariant list == ClientEntries(clients[..i])
      {
        assert clients[..i + 1][..i] == clients[..i];
        var c := clients[i];
        var entry := [("name", Str(c.name)), ("priv", Str(c.priv))];
        if c.tcp {
          entry := entry + [("tcp", Bool(c.tcp))];
        }
        if c.bind {
          entry := entry + [("bind", Bool(c.bind))];
        }
        assert entry == ClientEntry(c);
        list := list + [Dict(entry)];
      }
      assert clients[..|clients|] == clients;
    }

    /** The `bind` attributes the dump finds set; a missing one is skipped. */
    method BindEntries() returns (svBind: seq<(string, Value)>)
      ensures svBind == BindSettings(bind)
    {
      svBind := [];
      if bind.hostname.Some? {
        svBind := svBind + [("hostname", Str(bind.hostname.value))];
      }
      ghost var withHostname := svBind;
      if bind.namedConfPath.Some? {
        svBind := svBind + [("named_conf_path", Str(bind.namedConfPath.value))];
      }
      ghost var withPath := svBind;
      if bind.rootZoneFile.Some? {
        svBind := svBind + [("root_zone_file", Str(bind.rootZoneFile.value))];
      }
      assert withHostname == (if bind.hostname.Some? then [("hostname", Str(bind.hostname.value))] else []);
      assert withPath == withHostname
        + (if bind.namedConfPath.Some? then [("named_conf_path", Str(bind.namedConfPath.value))] else []);
      assert svBind == withPath
        + (if bind.rootZoneFile.Some? then [("root_zone_file", Str(bind.rootZoneFile.value))] else []);
    }

    /** `_save_yaml`: the document handed to `yaml.dump`. A section the
        source first creates and then deletes is here never added; the
        remaining sections keep the same order. */
    method SaveYaml() returns (doc: Value)
      ensures doc == Dump(servers, clients, udp2raw, bind)
    {
      var serverList := ServerList();
      var clientList := ClientList();
      var sections := [("servers", List(serverList)), ("clients", List(clientList))];
      ghost var front := sections;
      if udp2raw.Some? && udp2raw.value.secret.Some? {
        sections := sections + [("udp2raw", List([Dict([("secret", Str(udp2raw.value.secret.value)), ("port", Int(udp2raw.value.port))])]))];
      }
      assert sections == front + Udp2rawSection(udp2raw);

      var svBind := BindEntries();
      ghost var withUdp2raw := sections;
      if |svBind| != 0 {
        sections := sections + [("bind", List([Dict(svBind)]))];
      }
      assert sections == withUdp2raw + BindSection(bind);
      return Dict(sections);
    }
  }
}
