/** `GenFiles._create_servers` (genwg/genfiles.py:139-246): for each server,
    its interface, the optional udp2raw hooks and zones, then one address,
    client config, `[Peer]` block and pair of zone records per included
    client, all from the same `last_ip`. */
module ServerFiles {
  import opened Wrappers
  import opened IPv4
  import opened Records
  import opened Artifacts
  import opened HostBits
  import opened ClientFiles

  /** A tcp server serves only the clients that asked for tcp; a udp server serves every client. */
  predicate Included(s: ServerConfig, c: ClientConfig)
  {
    !(s.proto == Tcp && !c.tcp)
  }

  /** The clients a server serves, in client-list order. */
  function IncludedClients(s: ServerConfig, cs: seq<ClientConfig>): (inc: seq<ClientConfig>)
    ensures |inc| <= |cs|
    ensures forall c :: c in inc ==> c in cs && Included(s, c)
    ensures forall c :: c in cs && Included(s, c) ==> c in inc
  {
    if cs == [] then []
    else
      var last := cs[|cs| - 1];
      IncludedClients(s, cs[..|cs| - 1]) + (if Included(s, last) then [last] else [])
  }

  /** Filtering keeps the client-list order: the clients served from a
      list made of two parts are those of the first part, then those of the
      second. */
  lemma {:induction false} IncludedClientsAppend(s: ServerConfig, a: seq<ClientConfig>, b: seq<ClientConfig>)
    ensures IncludedClients(s, a + b) == IncludedClients(s, a) + IncludedClients(s, b)
    decreases |b|
  {
    if b == [] {
      assert a + b == a;
    } else {
      var b', last := b[..|b| - 1], b[|b| - 1];
      var tail := if Included(s, last) then [last] else [];
      assert (a + b)[..|a + b| - 1] == a + b' && (a + b)[|a + b| - 1] == last;
      assert IncludedClients(s, a + b) == IncludedClients(s, a + b') + tail;
      assert IncludedClients(s, b) == IncludedClients(s, b') + tail;
      IncludedClientsAppend(s, a, b');
    }
  }

  /** A single client is served exactly when it is included. */
  lemma IncludedClientsSingle(s: ServerConfig, c: ClientConfig)
    ensures IncludedClients(s, [c]) == if Included(s, c) then [c] else []
  {
    assert [c][..0] == [];
  }

  function ServerHead(s: GenServer): seq<ConfLine>
  {
    var cfg := s.config;
    [ Note("server", cfg.name), Note("private", cfg.priv), Note("public", cfg.pub), Blank,
      Section("Interface"),
      Set("PrivateKey", Text(cfg.priv)),
      Set("Address", Cidr(s.lastIp, cfg.net.prefix)),
      Set("ListenPort", Number(cfg.port)),
      Set("MTU", Number(cfg.mtu)),
      Blank ]
  }

  /** A tcp server runs the udp2raw server end in front of its WireGuard port. */
  function ServerTunnel(cfg: ServerConfig, port: int, secret: string): seq<ConfLine>
  {
    [ Set("PreUp", Run(Udp2rawServer(cfg.ip, port, cfg.port, secret))),
      Set("PostDown", Run(StopUdp2raw)),
      Blank ]
  }

  /** The `[Peer]` block of one client in the server config: the client's
      public key, and the client's address as the only address routed to it. */
  function PeerBlock(c: ClientConfig, addr: Addr): seq<ConfLine>
  {
    [Comment(c.name), Section("Peer"), Set("PublicKey", Text(c.pub)), Set("AllowedIPs", Cidr(addr, 32)), Blank]
  }

  lemma PeerBlockValues(c: ClientConfig, addr: Addr)
    ensures Values(PeerBlock(c, addr), "AllowedIPs") == {Cidr(addr, 32)}
    ensures Values(PeerBlock(c, addr), "PublicKey") == {Text(c.pub)}
    ensures Section("Peer") in PeerBlock(c, addr)
  {
  }

  /** The addresses handed out after `start`: start + 1, start + 2, ... */
  function Allocated(start: Addr, n: nat): (addrs: seq<Addr>)
    requires start + n < AddrLimit
    ensures |addrs| == n
    ensures forall k :: 0 <= k < n ==> addrs[k] == start + 1 + k
  {
    if n == 0 then [] else Allocated(start, n - 1) + [start + n]
  }

  function PeerBlocks(inc: seq<ClientConfig>, addrs: seq<Addr>): seq<ConfLine>
    requires |inc| == |addrs|
  {
    if inc == [] then []
    else PeerBlocks(inc[..|inc| - 1], addrs[..|inc| - 1]) + PeerBlock(inc[|inc| - 1], addrs[|inc| - 1])
  }

  /** `<host>.<zone>.`, a fully qualified name in a server's zone. */
  function Qualified(host: string, zone: string): string
  {
    host + "." + zone + "."
  }

  function ZoneBegin(zone: string, hostname: string): seq<ZoneLine>
  {
    [Ttl, Soa(zone), Ns(Qualified(hostname, zone))]
  }

  function ClientA(c: ClientConfig, addr: Addr): ZoneLine
  {
    A(c.name, addr)
  }

  /** The PTR record of a client: its host bits point back at its qualified name. */
  function ClientPtr(s: GenServer, c: ClientConfig, addr: Addr): ZoneLine
  {
    HostPtr(addr, s.config.net.prefix, Qualified(c.name, s.config.name))
  }

  function ARecords(inc: seq<ClientConfig>, addrs: seq<Addr>): (records: seq<ZoneLine>)
    requires |inc| == |addrs|
    ensures |records| == |inc|
  {
    if inc == [] then []
    else ARecords(inc[..|inc| - 1], addrs[..|inc| - 1]) + [ClientA(inc[|inc| - 1], addrs[|inc| - 1])]
  }

  function PtrRecords(s: GenServer, inc: seq<ClientConfig>, addrs: seq<Addr>): (records: seq<ZoneLine>)
    requires |inc| == |addrs|
    ensures |records| == |inc|
  {
    if inc == [] then []
    else PtrRecords(s, inc[..|inc| - 1], addrs[..|inc| - 1]) + [ClientPtr(s, inc[|inc| - 1], addrs[|inc| - 1])]
  }

  /** The name of the reverse zone file: `arpa_ptr` without its `.in-addr.arpa`. */
  function PtrFileName(s: GenServer): string
  {
    StripArpa(s.arpaPtr)
  }

  /** The state `_create_servers` carries through the client loop of one
      server: `last_ip`, the files written so far, and the server config and
      zones being accumulated. */
  datatype Walk = Walk(
    lastIp: Addr,
    files: seq<Artifact>,
    svconf: seq<ConfLine>,
    aZone: seq<ZoneLine>,
    ptrZone: seq<ZoneLine>)

  /** One client of the loop: skipped on a tcp server when it does not use
      tcp; otherwise `last_ip` moves on by one and that address goes into the
      zones, the client's config and its `[Peer]` block. */
  function ClientStep(w: Walk, s: GenServer, c: ClientConfig, env: Env): (r: Result<Walk, GenError>)
    ensures !Included(s.config, c) ==> r == Success(w)
    ensures Included(s.config, c) && r.Success? ==>
              r.value.lastIp == w.lastIp + 1 && |r.value.files| == |w.files| + 1
  {
    if !Included(s.config, c) then Success(w)
    else
      var addr :- Add(w.lastIp, 1).ToResult(AddressOverflow);
      var conf :- ClientConf(s.config, c, addr, env);
      Success(Walk(
        addr,
        w.files + [ClientFile(c.name, s.config.name, conf)],
        w.svconf + PeerBlock(c, addr),
        if env.wantBind then w.aZone + [ClientA(c, addr)] else w.aZone,
        if env.wantBind then w.ptrZone + [ClientPtr(s, c, addr)] else w.ptrZone))
  }

  /** The client loop of one server: every client in list order, stopping at the first that fails. */
  function WalkClients(w0: Walk, s: GenServer, cs: seq<ClientConfig>, env: Env): Result<Walk, GenError>
  {
    if cs == [] then Success(w0)
    else
      var w :- WalkClients(w0, s, cs[..|cs| - 1], env);
      ClientStep(w, s, cs[|cs| - 1], env)
  }

  datatype BindZones = BindZones(aZone: seq<ZoneLine>, ptrZone: seq<ZoneLine>, stanzas: seq<NamedZone>)

  /** The zones of one server when bind is wanted: both start with the
      TTL, SOA and NS lines, the A zone with the bind host at the server's
      address and the reverse zone with PTR `1`; genwg.conf gets one stanza
      for each. */
  function BindStart(s: GenServer, bind: BindConfig): Result<BindZones, GenError>
  {
    var name := s.config.name;
    var hostname :- bind.hostname.ToResult(MissingAttribute("bind.hostname"));
    var begin := ZoneBegin(name, hostname);
    var path :- bind.namedConfPath.ToResult(MissingAttribute("bind.named_conf_path"));
    Success(BindZones(
      begin + [A(hostname, s.lastIp)],
      begin + [Ptr("1", Qualified(hostname, name))],
      [NamedZone(name, path + "/zone/genwg/" + name), NamedZone(s.arpaPtr, path + "/zone/genwg/" + PtrFileName(s))]))
  }

  datatype Start = Start(walk: Walk, stanzas: seq<NamedZone>)

  function ServerStart(s: GenServer, env: Env): (r: Result<Start, GenError>)
    ensures r.Failure? <==>
              || (env.wantBind && (env.bind.hostname.None? || env.bind.namedConfPath.None?))
              || (s.config.proto == Tcp && TunnelSettings(env.udp2raw).Failure?)
    ensures r.Success? ==> r.value.walk.lastIp == s.lastIp && r.value.walk.files == []
    ensures r.Success? ==> |r.value.stanzas| == if env.wantBind then 2 else 0
  {
    var zones :- if env.wantBind then BindStart(s, env.bind) else Success(BindZones([], [], []));
    var tunnel :-
      if s.config.proto == Tcp then
        var settings :- TunnelSettings(env.udp2raw);
        Success(ServerTunnel(s.config, settings.0, settings.1))
      else Success([]);
    Success(Start(Walk(s.lastIp, [], ServerHead(s) + tunnel, zones.aZone, zones.ptrZone), zones.stanzas))
  }

  /** What one server leaves behind: itself with its final `last_ip`, the
      files written for it, and genwg.conf's stanzas so far. */
  datatype Emitted = Emitted(server: GenServer, files: seq<Artifact>, named: seq<NamedZone>)

  function ServerRun(s: GenServer, clients: seq<ClientConfig>, env: Env, named: seq<NamedZone>): (r: Result<Emitted, GenError>)
    ensures r.Success? ==> ServerStart(s, env).Success?
    ensures r.Success? ==> r.value.server == s.(lastIp := r.value.server.lastIp)
  {
    var start :- ServerStart(s, env);
    var w :- WalkClients(start.walk, s, clients, env);
    var named' := named + start.stanzas;
    Success(Emitted(s.(lastIp := w.lastIp), w.files + [ServerFile(s.config.name, w.svconf)] + ZoneFiles(s, w, env, named'), named'))
  }

  /** With bind wanted, genwg.conf and the two zones are rewritten after each server. */
  function ZoneFiles(s: GenServer, w: Walk, env: Env, named: seq<NamedZone>): seq<Artifact>
  {
    if env.wantBind
    then [NamedConfFile(named), ZoneFile(s.config.name, w.aZone), ZoneFile(PtrFileName(s), w.ptrZone)]
    else []
  }

  datatype Generated = Generated(servers: seq<GenServer>, files: seq<Artifact>, named: seq<NamedZone>)

  /** The whole of `_create_servers`: the servers in order, genwg.conf's stanzas accumulating across them. */
  function RunServers(servers: seq<GenServer>, clients: seq<ClientConfig>, env: Env): (r: Result<Generated, GenError>)
    ensures r.Success? ==> |r.value.servers| == |servers|
  {
    if servers == [] then Success(Generated([], [], []))
    else
      var r :- RunServers(servers[..|servers| - 1], clients, env);
      var e :- ServerRun(servers[|servers| - 1], clients, env, r.named);
      Success(Generated(r.servers + [e.server], r.files + e.files, e.named))
  }

  /** Once a prefix of the clients fails, the whole walk fails with the same error. */
  lemma {:induction false} WalkStopsAtFailure(w0: Walk, s: GenServer, cs: seq<ClientConfig>, env: Env, i: nat)
    requires i <= |cs| && WalkClients(w0, s, cs[..i], env).Failure?
    ensures WalkClients(w0, s, cs, env) == WalkClients(w0, s, cs[..i], env)
    decreases |cs|
  {
    if i < |cs| {
      var front := cs[..|cs| - 1];
      assert front[..i] == cs[..i];
      WalkStopsAtFailure(w0, s, front, env, i);
    } else {
      assert cs[..i] == cs;
    }
  }

  /** One more client after a prefix of the walk: the longer prefix is one
      step further, and a step that fails ends the whole walk with its error. */
  lemma WalkExtend(w0: Walk, s: GenServer, cs: seq<ClientConfig>, env: Env, i: nat, w: Walk)
    requires i < |cs| && WalkClients(w0, s, cs[..i], env) == Success(w)
    ensures WalkClients(w0, s, cs[..i + 1], env) == ClientStep(w, s, cs[i], env)
    ensures ClientStep(w, s, cs[i], env).Failure? ==> WalkClients(w0, s, cs, env) == ClientStep(w, s, cs[i], env)
  {
    assert cs[..i + 1][..i] == cs[..i];
    if ClientStep(w, s, cs[i], env).Failure? {
      WalkStopsAtFailure(w0, s, cs, env, i + 1);
    }
  }

  /** Once a prefix of the servers fails, the whole run fails with the same error. */
  lemma {:induction false} RunServersStopsAtFailure(servers: seq<GenServer>, clients: seq<ClientConfig>, env: Env, i: nat)
    requires i <= |servers| && RunServers(servers[..i], clients, env).Failure?
    ensures RunServers(servers, clients, env) == RunServers(servers[..i], clients, env)
    decreases |servers|
  {
    if i < |servers| {
      var front := servers[..|servers| - 1];
      assert front[..i] == servers[..i];
      RunServersStopsAtFailure(front, clients, env, i);
    } else {
      assert servers[..i] == servers;
    }
  }

  /** One more server extends the run by what that server emits. */
  lemma RunServersStep(servers: seq<GenServer>, clients: seq<ClientConfig>, env: Env, i: nat)
    requires i < |servers| && RunServers(servers[..i], clients, env).Success?
    ensures var r := RunServers(servers[..i], clients, env).value;
      RunServers(servers[..i + 1], clients, env) ==
        match ServerRun(servers[i], clients, env, r.named)
        case Failure(err) => Failure(err)
        case Success(e) => Success(Generated(r.servers + [e.server], r.files + e.files, e.named))
  {
    assert servers[..i + 1][..i] == servers[..i];
  }

  /** A client the server skips has no effect at all: walking the whole
      client list is walking just the included clients. */
  lemma {:induction false} WalkSkipsExcluded(w0: Walk, s: GenServer, cs: seq<ClientConfig>, env: Env)
    ensures WalkClients(w0, s, cs, env) == WalkClients(w0, s, IncludedClients(s.config, cs), env)
  {
    if cs != [] {
      var init, last := cs[..|cs| - 1], cs[|cs| - 1];
      WalkSkipsExcluded(w0, s, init, env);
      var inc := IncludedClients(s.config, init);
      if Included(s.config, last) {
        var inc' := inc + [last];
        assert IncludedClients(s.config, cs) == inc';
        assert inc'[..|inc'| - 1] == inc && inc'[|inc'| - 1] == last;
      } else {
        assert IncludedClients(s.config, cs) == inc + [] == inc;
        if WalkClients(w0, s, init, env).Success? {
          var w := WalkClients(w0, s, init, env).value;
          assert ClientStep(w, s, last, env) == Success(w);
        }
      }
    }
  }

  /** One included client: the next address, its config, its `[Peer]` block and its zone records. */
  lemma ClientStepIncluded(w: Walk, s: GenServer, c: ClientConfig, env: Env)
    requires Included(s.config, c) && ClientStep(w, s, c, env).Success?
    ensures var w' := ClientStep(w, s, c, env).value;
      var addr := w'.lastIp;
      && addr == w.lastIp + 1
      && ClientConf(s.config, c, addr, env).Success?
      && w'.files == w.files + [ClientFile(c.name, s.config.name, ClientConf(s.config, c, addr, env).value)]
      && w'.svconf == w.svconf + PeerBlock(c, addr)
      && w'.aZone == (if env.wantBind then w.aZone + [ClientA(c, addr)] else w.aZone)
      && w'.ptrZone == (if env.wantBind then w.ptrZone + [ClientPtr(s, c, addr)] else w.ptrZone)
  {
  }

  /** Walking included clients hands out consecutive addresses after
      `last_ip`, one per client and in order: the k-th client gets
      `last_ip + 1 + k` and its config is the next file written. */
  lemma {:induction false} WalkAllocates(w0: Walk, s: GenServer, inc: seq<ClientConfig>, env: Env)
    requires forall k :: 0 <= k < |inc| ==> Included(s.config, inc[k])
    requires WalkClients(w0, s, inc, env).Success?
    ensures var w := WalkClients(w0, s, inc, env).value;
      && w.lastIp == w0.lastIp + |inc|
      && |w.files| == |w0.files| + |inc|
      && w.files[..|w0.files|] == w0.files
      && var addrs := Allocated(w0.lastIp, |inc|);
      forall k :: 0 <= k < |inc| ==>
        && ClientConf(s.config, inc[k], addrs[k], env).Success?
        && w.files[|w0.files| + k] == ClientFile(inc[k].name, s.config.name, ClientConf(s.config, inc[k], addrs[k], env).value)
  {
    if inc != [] {
      var n := |inc|;
      var init, last := inc[..n - 1], inc[n - 1];
      WalkAllocates(w0, s, init, env);
      var w' := WalkClients(w0, s, init, env).value;
      ClientStepIncluded(w', s, last, env);
      var w := WalkClients(w0, s, inc, env).value;
      assert w == ClientStep(w', s, last, env).value;
      var addrs := Allocated(w0.lastIp, n);
      var addrs' := Allocated(w0.lastIp, n - 1);
      assert addrs[..n - 1] == addrs';
      assert addrs[n - 1] == w.lastIp;
      forall k | 0 <= k < n
        ensures ClientConf(s.config, inc[k], addrs[k], env).Success?
        ensures w.files[|w0.files| + k] == ClientFile(inc[k].name, s.config.name, ClientConf(s.config, inc[k], addrs[k], env).value)
      {
        if k < n - 1 {
          assert init[k] == inc[k];
          assert addrs'[k] == addrs[k];
          assert w.files[|w0.files| + k] == w'.files[|w0.files| + k];
        }
      }
      assert w.files[..|w0.files|] == w'.files[..|w0.files|];
    }
  }

  /** The server config grows by exactly one `[Peer]` block per included
      client, in order, each at the address that client was given. */
  lemma {:induction false} WalkPeers(w0: Walk, s: GenServer, inc: seq<ClientConfig>, env: Env)
    requires forall k :: 0 <= k < |inc| ==> Included(s.config, inc[k])
    requires WalkClients(w0, s, inc, env).Success?
    ensures var w := WalkClients(w0, s, inc, env).value;
      && w.lastIp == w0.lastIp + |inc|
      && w.svconf == w0.svconf + PeerBlocks(inc, Allocated(w0.lastIp, |inc|))
  {
    if inc != [] {
      var n := |inc|;
      var init, last := inc[..n - 1], inc[n - 1];
      WalkLast(w0, s, inc, env);
      WalkPeers(w0, s, init, env);
      assert inc == init + [last];
      AllocatedSnoc(w0.lastIp, n - 1);
      WalkPeersStep(w0, WalkClients(w0, s, init, env).value, WalkClients(w0, s, inc, env).value, init, last,
                    Allocated(w0.lastIp, n - 1), Allocated(w0.lastIp, n));
    }
  }

  /** The inductive step of `WalkPeers`, on the walk states alone. */
  lemma WalkPeersStep(w0: Walk, w': Walk, w: Walk, init: seq<ClientConfig>, last: ClientConfig,
                      before: seq<Addr>, addrs: seq<Addr>)
    requires |before| == |init| && addrs == before + [w.lastIp]
    requires w'.svconf == w0.svconf + PeerBlocks(init, before)
    requires w.svconf == w'.svconf + PeerBlock(last, w.lastIp)
    ensures w.svconf == w0.svconf + PeerBlocks(init + [last], addrs)
  {
    PeerBlocksSnoc(init, last, before, w.lastIp);
  }

  lemma AllocatedSnoc(start: Addr, n: nat)
    requires start + n + 1 < AddrLimit
    ensures Allocated(start, n + 1) == Allocated(start, n) + [start + n + 1]
  {
  }

  lemma PeerBlocksSnoc(init: seq<ClientConfig>, last: ClientConfig, addrs: seq<Addr>, addr: Addr)
    requires |init| == |addrs|
    ensures PeerBlocks(init + [last], addrs + [addr]) == PeerBlocks(init, addrs) + PeerBlock(last, addr)
  {
    assert (init + [last])[..|init|] == init;
    assert (addrs + [addr])[..|init|] == addrs;
  }

  /** The walk over included clients is the walk over all but the last, then one step. */
  lemma WalkLast(w0: Walk, s: GenServer, inc: seq<ClientConfig>, env: Env)
    requires inc != [] && Included(s.config, inc[|inc| - 1])
    requires WalkClients(w0, s, inc, env).Success?
    ensures WalkClients(w0, s, inc[..|inc| - 1], env).Success?
    ensures var w' := WalkClients(w0, s, inc[..|inc| - 1], env).value;
      var w := WalkClients(w0, s, inc, env).value;
      && w.lastIp == w'.lastIp + 1
      && w.svconf == w'.svconf + PeerBlock(inc[|inc| - 1], w.lastIp)
  {
    var w' := WalkClients(w0, s, inc[..|inc| - 1], env).value;
    ClientStepIncluded(w', s, inc[|inc| - 1], env);
  }

  /** With bind wanted, the k-th included client adds the A record of its
      address, in client order; without bind the zone is left alone. */
  lemma {:induction false} WalkAZone(w0: Walk, s: GenServer, inc: seq<ClientConfig>, env: Env)
    requires forall k :: 0 <= k < |inc| ==> Included(s.config, inc[k])
    requires WalkClients(w0, s, inc, env).Success?
    ensures var w := WalkClients(w0, s, inc, env).value;
      && w.lastIp == w0.lastIp + |inc|
      && w.aZone == w0.aZone + (if env.wantBind then ARecords(inc, Allocated(w0.lastIp, |inc|)) else [])
  {
    if inc != [] {
      var n := |inc|;
      var init, last := inc[..n - 1], inc[n - 1];
      WalkAZone(w0, s, init, env);
      var w' := WalkClients(w0, s, init, env).value;
      ClientStepIncluded(w', s, last, env);
      assert WalkClients(w0, s, inc, env) == ClientStep(w', s, last, env);
      var addrs := Allocated(w0.lastIp, n);
      assert addrs[..n - 1] == Allocated(w0.lastIp, n - 1);
      var w := WalkClients(w0, s, inc, env).value;
      if env.wantBind {
        var front := ARecords(init, addrs[..n - 1]);
        assert ARecords(inc, addrs) == front + [ClientA(last, addrs[n - 1])];
        assert front == ARecords(init, Allocated(w0.lastIp, n - 1));
        assert w'.aZone == w0.aZone + front;
        assert addrs[n - 1] == w.lastIp;
      } else {
        assert w.aZone == w'.aZone;
      }
    }
  }

  /** With bind wanted, the k-th included client adds the PTR record of its
      host bits, in client order; without bind the zone is left alone. */
  lemma {:induction false} WalkPtrZone(w0: Walk, s: GenServer, inc: seq<ClientConfig>, env: Env)
    requires forall k :: 0 <= k < |inc| ==> Included(s.config, inc[k])
    requires WalkClients(w0, s, inc, env).Success?
    ensures var w := WalkClients(w0, s, inc, env).value;
      && w.lastIp == w0.lastIp + |inc|
      && w.ptrZone == w0.ptrZone + (if env.wantBind then PtrRecords(s, inc, Allocated(w0.lastIp, |inc|)) else [])
  {
    if inc != [] {
      var n := |inc|;
      var init, last := inc[..n - 1], inc[n - 1];
      WalkPtrZone(w0, s, init, env);
      var w' := WalkClients(w0, s, init, env).value;
      ClientStepIncluded(w', s, last, env);
      assert WalkClients(w0, s, inc, env) == ClientStep(w', s, last, env);
      var addrs := Allocated(w0.lastIp, n);
      assert addrs[..n - 1] == Allocated(w0.lastIp, n - 1);
      var w := WalkClients(w0, s, inc, env).value;
      if env.wantBind {
        var front := PtrRecords(s, init, addrs[..n - 1]);
        assert PtrRecords(s, inc, addrs) == front + [ClientPtr(s, last, addrs[n - 1])];
        assert front == PtrRecords(s, init, Allocated(w0.lastIp, n - 1));
        assert w'.ptrZone == w0.ptrZone + front;
        assert addrs[n - 1] == w.lastIp;
      } else {
        assert w.ptrZone == w'.ptrZone;
      }
    }
  }

  lemma SliceOfFront<T>(a: seq<T>, b: seq<T>, i: nat, j: nat)
    requires i <= j <= |a|
    ensures (a + b)[i..j] == a[i..j]
  {
  }

  /** The server config holds one five-line `[Peer]` block per included
      client, in client order. */
  lemma {:induction false} PeerBlocksLayout(inc: seq<ClientConfig>, addrs: seq<Addr>)
    requires |inc| == |addrs|
    ensures |PeerBlocks(inc, addrs)| == 5 * |inc|
    ensures forall k :: 0 <= k < |inc| ==> PeerBlocks(inc, addrs)[5 * k..5 * k + 5] == PeerBlock(inc[k], addrs[k])
  {
    if inc != [] {
      var n := |inc|;
      PeerBlocksLayout(inc[..n - 1], addrs[..n - 1]);
      var front := PeerBlocks(inc[..n - 1], addrs[..n - 1]);
      var all := PeerBlocks(inc, addrs);
      assert all == front + PeerBlock(inc[n - 1], addrs[n - 1]);
      forall k | 0 <= k < n
        ensures all[5 * k..5 * k + 5] == PeerBlock(inc[k], addrs[k])
      {
        var i := 5 * k;
        if k < n - 1 {
          assert i + 5 <= |front|;
          SliceOfFront(front, PeerBlock(inc[n - 1], addrs[n - 1]), i, i + 5);
          assert inc[..n - 1][k] == inc[k] && addrs[..n - 1][k] == addrs[k];
        } else {
          assert i == |front|;
          assert all[i..i + 5] == all[|front|..];
        }
      }
    }
  }

  /** Before any client, the server config is its interface followed by
      the udp2raw hooks of a tcp server, and the walk starts at `last_ip`
      with no file written. */
  lemma ServerStartShape(s: GenServer, env: Env)
    requires ServerStart(s, env).Success?
    ensures var start := ServerStart(s, env).value;
      && start.walk.lastIp == s.lastIp
      && start.walk.files == []
      && (s.config.proto == Tcp ==> TunnelSettings(env.udp2raw).Success?)
      && start.walk.svconf == ServerHead(s) + ServerTunnelOf(s.config, env)
  {
  }

  /** The udp2raw hooks a server gets: none on udp. */
  function ServerTunnelOf(cfg: ServerConfig, env: Env): seq<ConfLine>
    requires cfg.proto == Tcp ==> TunnelSettings(env.udp2raw).Success?
  {
    if cfg.proto == Tcp
    then ServerTunnel(cfg, TunnelSettings(env.udp2raw).value.0, TunnelSettings(env.udp2raw).value.1)
    else []
  }

  /** The server's own address is `last_ip` with the network's prefix
      length, and before any client the config routes no address to a peer
      and holds no `[Peer]` section. */
  lemma ServerStartValues(s: GenServer, env: Env)
    requires s.config.proto == Tcp ==> TunnelSettings(env.udp2raw).Success?
    ensures var conf := ServerHead(s) + ServerTunnelOf(s.config, env);
      && Values(conf, "Address") == {Cidr(s.lastIp, s.config.net.prefix)}
      && Values(conf, "AllowedIPs") == {}
      && Section("Peer") !in conf
  {
    var head := ServerHead(s);
    var tunnel := ServerTunnelOf(s.config, env);
    ValuesAppend(head, tunnel);
    ServerHeadValues(s);
    if s.config.proto == Tcp {
      ServerTunnelValues(s.config, TunnelSettings(env.udp2raw).value.0, TunnelSettings(env.udp2raw).value.1);
    }
  }

  lemma ServerHeadValues(s: GenServer)
    ensures Values(ServerHead(s), "Address") == {Cidr(s.lastIp, s.config.net.prefix)}
    ensures Values(ServerHead(s), "AllowedIPs") == {}
    ensures Section("Peer") !in ServerHead(s)
  {
  }

  lemma ServerTunnelValues(cfg: ServerConfig, port: int, secret: string)
    ensures Values(ServerTunnel(cfg, port, secret), "Address") == {}
    ensures Values(ServerTunnel(cfg, port, secret), "AllowedIPs") == {}
    ensures Section("Peer") !in ServerTunnel(cfg, port, secret)
  {
  }

  /** One server, end to end: it advances `last_ip` by exactly the number of
      clients it serves; it writes first one config per served client, the
      k-th at address `last_ip + 1 + k`, then its own config, which is the
      start of the walk followed by one `[Peer]` block per served client in
      the same order and at the same addresses. */
  lemma ServerRunFiles(s: GenServer, clients: seq<ClientConfig>, env: Env, named: seq<NamedZone>, e: Emitted)
    requires ServerRun(s, clients, env, named) == Success(e)
    ensures ServerStart(s, env).Success?
    ensures s.lastIp + |IncludedClients(s.config, clients)| < AddrLimit
    ensures var inc := IncludedClients(s.config, clients);
      var n := |inc|;
      var addrs := Allocated(s.lastIp, n);
      && e.server == s.(lastIp := s.lastIp + n)
      && |e.files| == n + 1 + (if env.wantBind then 3 else 0)
      && (forall k :: 0 <= k < n ==>
            && ClientConf(s.config, inc[k], addrs[k], env).Success?
            && e.files[k] == ClientFile(inc[k].name, s.config.name, ClientConf(s.config, inc[k], addrs[k], env).value))
      && e.files[n] == ServerFile(s.config.name, ServerStart(s, env).value.walk.svconf + PeerBlocks(inc, addrs))
  {
    var start := ServerStart(s, env).value;
    var inc := IncludedClients(s.config, clients);
    ServerRunParts(s, clients, env, named);
    IncludedAll(s.config, clients);
    var w := WalkClients(start.walk, s, inc, env).value;
    var n := |inc|;
    assert |w.files| == n && w.lastIp == s.lastIp + n by {
      WalkAllocates(start.walk, s, inc, env);
    }
    var addrs := Allocated(s.lastIp, n);
    assert w.svconf == start.walk.svconf + PeerBlocks(inc, addrs) by {
      WalkPeers(start.walk, s, inc, env);
    }
    assert e.files[n] == ServerFile(s.config.name, w.svconf);
    forall k | 0 <= k < n
      ensures ClientConf(s.config, inc[k], addrs[k], env).Success?
      ensures e.files[k] == ClientFile(inc[k].name, s.config.name, ClientConf(s.config, inc[k], addrs[k], env).value)
    {
      ServerRunClientFile(s, clients, env, named, e, k);
    }
  }

  lemma ServerRunClientFile(s: GenServer, clients: seq<ClientConfig>, env: Env, named: seq<NamedZone>, e: Emitted, k: nat)
    requires ServerRun(s, clients, env, named) == Success(e)
    requires k < |IncludedClients(s.config, clients)|
    ensures s.lastIp + |IncludedClients(s.config, clients)| < AddrLimit
    ensures var inc := IncludedClients(s.config, clients);
      var addr := Allocated(s.lastIp, |inc|)[k];
      && ClientConf(s.config, inc[k], addr, env).Success?
      && k < |e.files|
      && e.files[k] == ClientFile(inc[k].name, s.config.name, ClientConf(s.config, inc[k], addr, env).value)
  {
    var start := ServerStart(s, env).value;
    var inc := IncludedClients(s.config, clients);
    ServerRunClientPrefix(s, clients, env, named, e);
    IncludedAll(s.config, clients);
    WalkFileIn(start.walk, s, inc, env, e.files, k);
  }

  lemma WalkFileIn(w0: Walk, s: GenServer, inc: seq<ClientConfig>, env: Env, files: seq<Artifact>, k: nat)
    requires forall k :: 0 <= k < |inc| ==> Included(s.config, inc[k])
    requires WalkClients(w0, s, inc, env).Success? && w0.files == [] && k < |inc|
    requires var w := WalkClients(w0, s, inc, env).value; |w.files| < |files| && files[..|w.files|] == w.files
    ensures w0.lastIp + |inc| < AddrLimit && k < |files|
    ensures ClientConf(s.config, inc[k], Allocated(w0.lastIp, |inc|)[k], env).Success?
    ensures files[k] == ClientFile(inc[k].name, s.config.name, ClientConf(s.config, inc[k], Allocated(w0.lastIp, |inc|)[k], env).value)
  {
    WalkFileAt(w0, s, inc, env, k);
    var w := WalkClients(w0, s, inc, env).value;
    assert files[k] == files[..|w.files|][k];
  }

  lemma ServerRunClientPrefix(s: GenServer, clients: seq<ClientConfig>, env: Env, named: seq<NamedZone>, e: Emitted)
    requires ServerRun(s, clients, env, named) == Success(e)
    ensures ServerStart(s, env).Success?
    ensures var start := ServerStart(s, env).value;
      var inc := IncludedClients(s.config, clients);
      && start.walk.lastIp == s.lastIp
      && start.walk.files == []
      && WalkClients(start.walk, s, inc, env).Success?
      && var w := WalkClients(start.walk, s, inc, env).value;
      |w.files| < |e.files| && e.files[..|w.files|] == w.files
  {
    ServerRunParts(s, clients, env, named);
  }

  lemma WalkFileAt(w0: Walk, s: GenServer, inc: seq<ClientConfig>, env: Env, k: nat)
    requires forall k :: 0 <= k < |inc| ==> Included(s.config, inc[k])
    requires WalkClients(w0, s, inc, env).Success? && w0.files == [] && k < |inc|
    ensures WalkClients(w0, s, inc, env).value.lastIp == w0.lastIp + |inc|
    ensures |WalkClients(w0, s, inc, env).value.files| == |inc|
    ensures ClientConf(s.config, inc[k], Allocated(w0.lastIp, |inc|)[k], env).Success?
    ensures WalkClients(w0, s, inc, env).value.files[k] ==
              ClientFile(inc[k].name, s.config.name, ClientConf(s.config, inc[k], Allocated(w0.lastIp, |inc|)[k], env).value)
  {
    WalkAllocates(w0, s, inc, env);
    assert |w0.files| + k == k;
  }

  /** `ServerRun` on the whole client list is the walk of the included clients from the start. */
  lemma ServerRunParts(s: GenServer, clients: seq<ClientConfig>, env: Env, named: seq<NamedZone>)
    requires ServerRun(s, clients, env, named).Success?
    ensures ServerStart(s, env).Success?
    ensures var start := ServerStart(s, env).value;
      var inc := IncludedClients(s.config, clients);
      && start.walk.lastIp == s.lastIp
      && start.walk.files == []
      && WalkClients(start.walk, s, inc, env).Success?
      && var w := WalkClients(start.walk, s, inc, env).value;
      ServerRun(s, clients, env, named).value ==
        Emitted(s.(lastIp := w.lastIp),
                w.files + [ServerFile(s.config.name, w.svconf)] + ZoneFiles(s, w, env, named + start.stanzas),
                named + start.stanzas)
  {
    var start := ServerStart(s, env).value;
    WalkSkipsExcluded(start.walk, s, clients, env);
  }

  lemma IncludedAll(s: ServerConfig, cs: seq<ClientConfig>)
    ensures forall k :: 0 <= k < |IncludedClients(s, cs)| ==> Included(s, IncludedClients(s, cs)[k])
  {
    var inc := IncludedClients(s, cs);
    forall k | 0 <= k < |inc|
      ensures Included(s, inc[k])
    {
      assert inc[k] in inc;
    }
  }

  /** With bind wanted, a server also rewrites genwg.conf with the stanzas of
      every server so far plus its own two, and writes its A zone (the bind
      host at `last_ip`, then one A record per served client at its address)
      and its reverse zone, named after `arpa_ptr` without `.in-addr.arpa`
      (PTR `1` for the bind host, then one PTR per served client owned by
      the host bits of its address). Without bind it writes no zone at all. */
  lemma ServerRunZones(s: GenServer, clients: seq<ClientConfig>, env: Env, named: seq<NamedZone>)
    requires ServerRun(s, clients, env, named).Success?
    ensures var e := ServerRun(s, clients, env, named).value;
      var inc := IncludedClients(s.config, clients);
      var n := |inc|;
      var name := s.config.name;
      && s.lastIp + n < AddrLimit
      && |e.files| == n + 1 + (if env.wantBind then 3 else 0)
      && (!env.wantBind ==> e.named == named)
      && (env.wantBind ==>
            && env.bind.hostname.Some? && env.bind.namedConfPath.Some?
            && var host := env.bind.hostname.value;
            var path := env.bind.namedConfPath.value;
            var addrs := Allocated(s.lastIp, n);
            && e.named == named + [NamedZone(name, path + "/zone/genwg/" + name),
                                   NamedZone(s.arpaPtr, path + "/zone/genwg/" + StripArpa(s.arpaPtr))]
            && e.files[n + 1..] ==
                 [ NamedConfFile(e.named),
                   ZoneFile(name, ZoneBegin(name, host) + [A(host, s.lastIp)] + ARecords(inc, addrs)),
                   ZoneFile(StripArpa(s.arpaPtr), ZoneBegin(name, host) + [Ptr("1", Qualified(host, name))] + PtrRecords(s, inc, addrs)) ])
  {
    var start := ServerStart(s, env).value;
    var inc := IncludedClients(s.config, clients);
    WalkSkipsExcluded(start.walk, s, clients, env);
    IncludedAll(s.config, clients);
    WalkAllocates(start.walk, s, inc, env);
    WalkAZone(start.walk, s, inc, env);
    WalkPtrZone(start.walk, s, inc, env);
  }

  /** The k-th served client and the server agree on its address: the
      client's `Address` is the k-th address after `last_ip`, as a /32, and
      the k-th `[Peer]` block of the server config routes exactly that /32
      to that client's public key. */
  lemma ServerRunAgreement(s: GenServer, clients: seq<ClientConfig>, env: Env, named: seq<NamedZone>, e: Emitted, k: nat)
    requires ServerRun(s, clients, env, named) == Success(e)
    requires k < |IncludedClients(s.config, clients)|
    ensures ServerStart(s, env).Success?
    ensures s.lastIp + |IncludedClients(s.config, clients)| < AddrLimit
    ensures var inc := IncludedClients(s.config, clients);
      var addr := Allocated(s.lastIp, |inc|)[k];
      && s.lastIp < addr == s.lastIp + 1 + k
      && FilesAgree(inc, e.files, |ServerStart(s, env).value.walk.svconf|, k, addr)
  {
    var inc := IncludedClients(s.config, clients);
    ServerRunFiles(s, clients, env, named, e);
    var addrs := Allocated(s.lastIp, |inc|);
    ConfigsAgree(s.config, inc, env, ServerStart(s, env).value.walk.svconf, addrs, e.files, k);
  }

  /** What the k-th client's config and the server config say about the
      address `addr` given to the k-th client. */
  predicate FilesAgree(inc: seq<ClientConfig>, files: seq<Artifact>, at: nat, k: nat, addr: Addr)
  {
    && k < |inc| < |files|
    && files[k].ClientFile? && files[k].client == inc[k].name
    && Values(files[k].conf, "Address") == {Cidr(addr, 32)}
    && files[|inc|].ServerFile?
    && at + 5 * k + 5 <= |files[|inc|].conf|
    && files[|inc|].conf[at + 5 * k..at + 5 * k + 5] == PeerBlock(inc[k], addr)
    && Values(PeerBlock(inc[k], addr), "AllowedIPs") == {Cidr(addr, 32)}
    && Values(PeerBlock(inc[k], addr), "PublicKey") == {Text(inc[k].pub)}
  }

  lemma ConfigsAgree(cfg: ServerConfig, inc: seq<ClientConfig>, env: Env, front: seq<ConfLine>, addrs: seq<Addr>,
                     files: seq<Artifact>, k: nat)
    requires k < |inc| == |addrs| < |files|
    requires ClientConf(cfg, inc[k], addrs[k], env).Success?
    requires files[k] == ClientFile(inc[k].name, cfg.name, ClientConf(cfg, inc[k], addrs[k], env).value)
    requires files[|inc|] == ServerFile(cfg.name, front + PeerBlocks(inc, addrs))
    ensures FilesAgree(inc, files, |front|, k, addrs[k])
  {
    ClientConfInterface(cfg, inc[k], addrs[k], env);
    PeerBlockAt(front, inc, addrs, k);
    PeerBlockValues(inc[k], addrs[k]);
  }

  lemma PeerBlockAt(front: seq<ConfLine>, inc: seq<ClientConfig>, addrs: seq<Addr>, k: nat)
    requires |inc| == |addrs| && k < |inc|
    ensures var conf := front + PeerBlocks(inc, addrs);
      var at := |front| + 5 * k;
      && at + 5 <= |conf|
      && conf[at..at + 5] == PeerBlock(inc[k], addrs[k])
  {
    PeerBlocksLayout(inc, addrs);
    var blocks := PeerBlocks(inc, addrs);
    assert (front + blocks)[|front| + 5 * k..|front| + 5 * k + 5] == blocks[5 * k..5 * k + 5];
  }

  /** No two clients of one server are given the same address. */
  lemma ServerRunDistinctAddresses(s: GenServer, clients: seq<ClientConfig>, env: Env, named: seq<NamedZone>, e: Emitted, j: nat, k: nat)
    requires ServerRun(s, clients, env, named) == Success(e)
    requires j < k < |IncludedClients(s.config, clients)|
    ensures k < |e.files|
    ensures e.files[j].ClientFile? && e.files[k].ClientFile?
    ensures Values(e.files[j].conf, "Address") != Values(e.files[k].conf, "Address")
  {
    var inc := IncludedClients(s.config, clients);
    ServerRunAgreement(s, clients, env, named, e, j);
    ServerRunAgreement(s, clients, env, named, e, k);
    var addrs := Allocated(s.lastIp, |inc|);
    assert Cidr(addrs[j], 32) !in {Cidr(addrs[k], 32)};
  }

  lemma ServerRunAdvances(s: GenServer, clients: seq<ClientConfig>, env: Env, named: seq<NamedZone>, e: Emitted)
    requires ServerRun(s, clients, env, named) == Success(e)
    ensures s.lastIp + |IncludedClients(s.config, clients)| < AddrLimit
    ensures e.server == s.(lastIp := s.lastIp + |IncludedClients(s.config, clients)|)
  {
    ServerRunFiles(s, clients, env, named, e);
  }

  /** Across all servers: each server comes back with `last_ip` advanced by
      exactly the number of clients it serves, in the original order, and
      the files are those of the servers one after the other. */
  lemma {:induction false} RunServersAdvance(servers: seq<GenServer>, clients: seq<ClientConfig>, env: Env)
    requires RunServers(servers, clients, env).Success?
    ensures var r := RunServers(servers, clients, env).value;
      && |r.servers| == |servers|
      && forall i :: 0 <= i < |servers| ==>
           && servers[i].lastIp + |IncludedClients(servers[i].config, clients)| < AddrLimit
           && r.servers[i] == servers[i].(lastIp := servers[i].lastIp + |IncludedClients(servers[i].config, clients)|)
  {
    if servers != [] {
      var n := |servers|;
      var init, last := servers[..n - 1], servers[n - 1];
      RunServersAdvance(init, clients, env);
      var r' := RunServers(init, clients, env).value;
      var e := ServerRun(last, clients, env, r'.named).value;
      ServerRunAdvances(last, clients, env, r'.named, e);
      var r := RunServers(servers, clients, env).value;
      assert r.servers == r'.servers + [e.server];
      forall i | 0 <= i < n
        ensures servers[i].lastIp + |IncludedClients(servers[i].config, clients)| < AddrLimit
        ensures r.servers[i] == servers[i].(lastIp := servers[i].lastIp + |IncludedClients(servers[i].config, clients)|)
      {
        if i < n - 1 {
          assert servers[i] == init[i];
        }
      }
    }
  }

  /** With bind wanted, genwg.conf ends up with two stanzas per server, the
      forward zone then the reverse zone, in server order; without bind it
      stays empty. */
  lemma {:induction false} RunServersNamed(servers: seq<GenServer>, clients: seq<ClientConfig>, env: Env)
    requires RunServers(servers, clients, env).Success?
    ensures var r := RunServers(servers, clients, env).value;
      && |r.named| == (if env.wantBind then 2 * |servers| else 0)
      && forall i :: 0 <= i < |servers| && env.wantBind ==>
           && r.named[2 * i].name == servers[i].config.name
           && r.named[2 * i + 1].name == servers[i].arpaPtr
  {
    if servers != [] {
      var n := |servers|;
      var init, last := servers[..n - 1], servers[n - 1];
      RunServersLast(servers, clients, env);
      RunServersNamed(init, clients, env);
      var r' := RunServers(init, clients, env).value;
      ServerRunNamed(last, clients, env, r'.named);
      assert servers == init + [last];
      NamedStep(init, last, r'.named, ServerRun(last, clients, env, r'.named).value.named, env.wantBind);
    }
  }

  /** The stanzas one server's run adds, on their own. */
  lemma ServerRunNamed(s: GenServer, clients: seq<ClientConfig>, env: Env, named: seq<NamedZone>)
    requires ServerRun(s, clients, env, named).Success?
    ensures var next := ServerRun(s, clients, env, named).value.named;
      && (!env.wantBind ==> next == named)
      && (env.wantBind ==> |next| == |named| + 2 && next[..|named|] == named
                           && next[|named|].name == s.config.name && next[|named| + 1].name == s.arpaPtr)
  {
    ServerRunZones(s, clients, env, named);
  }

  /** `RunServers` on a non-empty list is the run of all but the last server
      followed by the last server's run. */
  lemma RunServersLast(servers: seq<GenServer>, clients: seq<ClientConfig>, env: Env)
    requires servers != [] && RunServers(servers, clients, env).Success?
    ensures var init := servers[..|servers| - 1];
      && RunServers(init, clients, env).Success?
      && var r' := RunServers(init, clients, env).value;
      && ServerRun(servers[|servers| - 1], clients, env, r'.named).Success?
      && var e := ServerRun(servers[|servers| - 1], clients, env, r'.named).value;
      RunServers(servers, clients, env).value == Generated(r'.servers + [e.server], r'.files + e.files, e.named)
  {
  }

  /** The stanza list after one more server: two more stanzas, that server's
      zones, when bind is wanted; the list unchanged otherwise. */
  lemma NamedStep(init: seq<GenServer>, last: GenServer, prev: seq<NamedZone>, next: seq<NamedZone>, wantBind: bool)
    requires |prev| == (if wantBind then 2 * |init| else 0)
    requires forall i :: 0 <= i < |init| && wantBind ==>
               prev[2 * i].name == init[i].config.name && prev[2 * i + 1].name == init[i].arpaPtr
    requires !wantBind ==> next == prev
    requires wantBind ==> |next| == |prev| + 2 && next[..|prev|] == prev
    requires wantBind ==> next[|prev|].name == last.config.name && next[|prev| + 1].name == last.arpaPtr
    ensures |next| == (if wantBind then 2 * |init + [last]| else 0)
    ensures forall i :: 0 <= i < |init + [last]| && wantBind ==>
              next[2 * i].name == (init + [last])[i].config.name && next[2 * i + 1].name == (init + [last])[i].arpaPtr
  {
    if wantBind {
      forall i | 0 <= i < |init + [last]|
        ensures next[2 * i].name == (init + [last])[i].config.name && next[2 * i + 1].name == (init + [last])[i].arpaPtr
      {
        if i < |init| {
          assert next[2 * i] == next[..|prev|][2 * i] && next[2 * i + 1] == next[..|prev|][2 * i + 1];
        }
      }
    }
  }
}
