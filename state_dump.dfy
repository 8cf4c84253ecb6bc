/** The state `GenFiles._save_yaml` dumps (genwg/genfiles.py:248-317), as the
    document value handed to `yaml.dump`, and what reading that document
    back with `parse_yaml` gives. */
module StateDump {
  import opened Wrappers
  import opened Text
  import opened IPv4
  import opened Yaml
  import opened Records
  import opened ConfigRules
  import opened Artifacts

  /** One server's mapping, in the input's key order; the network is written
      as `<net>/<pfx>`. The public key, `arpa_ptr` and `last_ip` are not
      written. */
  function ServerEntry(s: ServerConfig): seq<(string, Value)>
  {
    [ ("name", Str(s.name)), ("proto", Str(ProtoName(s.proto))), ("priv", Str(s.priv)),
      ("ip", Str(AddrText(s.ip))), ("port", Int(s.port)), ("net", Str(NetworkText(s.net))),
      ("mtu", Int(s.mtu)) ]
  }

  /** One client's mapping: `tcp` and `bind` are written only when true. */
  function ClientEntry(c: ClientConfig): seq<(string, Value)>
  {
    [("name", Str(c.name)), ("priv", Str(c.priv))]
      + (if c.tcp then [("tcp", Bool(true))] else [])
      + (if c.bind then [("bind", Bool(true))] else [])
  }

  function ServerEntries(servers: seq<GenServer>): (r: seq<Value>)
    ensures |r| == |servers|
    ensures forall i :: 0 <= i < |servers| ==> r[i] == Dict(ServerEntry(servers[i].config))
  {
    if servers == [] then []
    else ServerEntries(servers[..|servers| - 1]) + [Dict(ServerEntry(servers[|servers| - 1].config))]
  }

  function ClientEntries(clients: seq<ClientConfig>): (r: seq<Value>)
    ensures |r| == |clients|
    ensures forall i :: 0 <= i < |clients| ==> r[i] == Dict(ClientEntry(clients[i]))
  {
    if clients == [] then []
    else ClientEntries(clients[..|clients| - 1]) + [Dict(ClientEntry(clients[|clients| - 1]))]
  }

  /** The udp2raw section: a one-element list holding `secret` and `port`,
      dropped when either attribute is not set (the AttributeError branch). */
  function Udp2rawSection(u: Option<Udp2rawConfig>): seq<(string, Value)>
  {
    if u.Some? && u.value.secret.Some?
    then [("udp2raw", List([Dict([("secret", Str(u.value.secret.value)), ("port", Int(u.value.port))])]))]
    else []
  }

  /** The bind attributes that are set, in the order the dump tries them. */
  function BindSettings(b: BindConfig): seq<(string, Value)>
  {
    (if b.hostname.Some? then [("hostname", Str(b.hostname.value))] else [])
      + (if b.namedConfPath.Some? then [("named_conf_path", Str(b.namedConfPath.value))] else [])
      + (if b.rootZoneFile.Some? then [("root_zone_file", Str(b.rootZoneFile.value))] else [])
  }

  /** The bind section: a one-element list, dropped when no attribute is set. */
  function BindSection(b: BindConfig): seq<(string, Value)>
  {
    if BindSettings(b) == [] then [] else [("bind", List([Dict(BindSettings(b))]))]
  }

  /** The whole dumped document. */
  function Dump(servers: seq<GenServer>, clients: seq<ClientConfig>, u: Option<Udp2rawConfig>, b: BindConfig): Value
  {
    Dict([("servers", List(ServerEntries(servers))), ("clients", List(ClientEntries(clients)))]
         + Udp2rawSection(u) + BindSection(b))
  }

  /** The sections of the dump: servers and clients always, udp2raw exactly
      when its secret and port are both set, bind exactly when one of its
      attributes is set; the optional sections are lists, not mappings. */
  lemma DumpSections(servers: seq<GenServer>, clients: seq<ClientConfig>, u: Option<Udp2rawConfig>, b: BindConfig)
    ensures var d := Dump(servers, clients, u, b).entries;
      && Get(d, "servers") == Some(List(ServerEntries(servers)))
      && Get(d, "clients") == Some(List(ClientEntries(clients)))
      && (HasKey(d, "udp2raw") <==> u.Some? && u.value.secret.Some?)
      && (HasKey(d, "bind") <==> b.hostname.Some? || b.namedConfPath.Some? || b.rootZoneFile.Some?)
      && (HasKey(d, "udp2raw") ==> Get(d, "udp2raw").value.List?)
      && (HasKey(d, "bind") ==> Get(d, "bind").value.List?)
  {
    Udp2rawSectionShape(u);
    BindSectionShape(b);
    FrameSections(List(ServerEntries(servers)), List(ClientEntries(clients)), Udp2rawSection(u), BindSection(b));
  }

  lemma Udp2rawSectionShape(u: Option<Udp2rawConfig>)
    ensures var sec := Udp2rawSection(u);
      && |sec| <= 1 && (forall i :: 0 <= i < |sec| ==> sec[i].0 == "udp2raw")
      && (sec != [] <==> u.Some? && u.value.secret.Some?)
      && (sec != [] ==> sec[0].1.List?)
  {
  }

  lemma BindSectionShape(b: BindConfig)
    ensures var sec := BindSection(b);
      && |sec| <= 1 && (forall i :: 0 <= i < |sec| ==> sec[i].0 == "bind")
      && (sec != [] <==> b.hostname.Some? || b.namedConfPath.Some? || b.rootZoneFile.Some?)
      && (sec != [] ==> sec[0].1.List?)
  {
    if BindSection(b) == [] {
      assert BindSettings(b) == [];
    }
  }

  /** The four sections of a dump, whichever of the last two are present. */
  lemma FrameSections(sv: Value, cl: Value, u2: seq<(string, Value)>, bs: seq<(string, Value)>)
    requires |u2| <= 1 && forall i :: 0 <= i < |u2| ==> u2[i].0 == "udp2raw"
    requires |bs| <= 1 && forall i :: 0 <= i < |bs| ==> bs[i].0 == "bind"
    ensures var d := [("servers", sv), ("clients", cl)] + u2 + bs;
      && Get(d, "servers") == Some(sv) && Get(d, "clients") == Some(cl)
      && (HasKey(d, "udp2raw") <==> u2 != []) && (u2 != [] ==> Get(d, "udp2raw") == Some(u2[0].1))
      && (HasKey(d, "bind") <==> bs != []) && (bs != [] ==> Get(d, "bind") == Some(bs[0].1))
  {
    var front: seq<(string, Value)> := [("servers", sv), ("clients", cl)];
    assert front + u2 + bs == front + (u2 + bs);
    FixedSections(front, u2 + bs);
    OptionalSections(front, u2, bs);
  }

  /** The servers and clients sections are found whatever optional sections follow. */
  lemma FixedSections(front: seq<(string, Value)>, rest: seq<(string, Value)>)
    requires |front| == 2 && front[0].0 == "servers" && front[1].0 == "clients"
    requires forall i :: 0 <= i < |rest| ==> rest[i].0 == "udp2raw" || rest[i].0 == "bind"
    ensures Get(front + rest, "servers") == Some(front[0].1) && Get(front + rest, "clients") == Some(front[1].1)
  {
    GetSkips(front, rest, "servers");
    GetSkips(front, rest, "clients");
  }

  /** The udp2raw and bind sections are found exactly when they are there. */
  lemma OptionalSections(front: seq<(string, Value)>, u2: seq<(string, Value)>, bs: seq<(string, Value)>)
    requires !HasKey(front, "udp2raw") && !HasKey(front, "bind")
    requires |u2| <= 1 && forall i :: 0 <= i < |u2| ==> u2[i].0 == "udp2raw"
    requires |bs| <= 1 && forall i :: 0 <= i < |bs| ==> bs[i].0 == "bind"
    ensures var d := front + u2 + bs;
      && (HasKey(d, "udp2raw") <==> u2 != []) && (u2 != [] ==> Get(d, "udp2raw") == Some(u2[0].1))
      && (HasKey(d, "bind") <==> bs != []) && (bs != [] ==> Get(d, "bind") == Some(bs[0].1))
  {
    SectionAt(front, u2, bs, "udp2raw");
    var none: seq<(string, Value)> := [];
    assert front + u2 + bs == (front + u2) + bs + none;
    KeysOf(front, u2, "bind");
    SectionAt(front + u2, bs, none, "bind");
  }

  /** An optional section between other sections is found exactly when it is there. */
  lemma SectionAt(front: seq<(string, Value)>, sec: seq<(string, Value)>, back: seq<(string, Value)>, key: string)
    requires |sec| <= 1 && forall i :: 0 <= i < |sec| ==> sec[i].0 == key
    requires !HasKey(front, key) && !HasKey(back, key)
    ensures HasKey(front + sec + back, key) <==> sec != []
    ensures sec != [] ==> Get(front + sec + back, key) == Some(sec[0].1)
  {
    KeysOf(front + sec, back, key);
    KeysOf(front, sec, key);
    if sec != [] {
      var d := front + sec + back;
      assert d[|front|] == sec[0];
      forall j | |front| < j < |d| ensures d[j].0 != key {
        assert d[j] == back[j - |front| - 1];
      }
      GetAt(d, |front|, key);
    }
  }

  /** A key none of `rest` carries is looked up in `front`. */
  lemma GetSkips(front: seq<(string, Value)>, rest: seq<(string, Value)>, key: string)
    requires forall i :: 0 <= i < |rest| ==> rest[i].0 != key
    ensures Get(front + rest, key) == Get(front, key)
    decreases |rest|
  {
    if rest != [] {
      var r' := rest[..|rest| - 1];
      assert (front + rest)[..|front + rest| - 1] == front + r';
      GetSkips(front, r', key);
    } else {
      assert front + rest == front;
    }
  }

  /** `d[key]` is the value of the last entry carrying the key. */
  lemma GetAt(entries: seq<(string, Value)>, i: nat, key: string)
    requires i < |entries| && entries[i].0 == key
    requires forall j :: i < j < |entries| ==> entries[j].0 != key
    ensures Get(entries, key) == Some(entries[i].1)
  {
    var front := entries[..i];
    var rest := entries[i + 1..];
    assert entries == (front + [entries[i]]) + rest;
    GetSkips(front + [entries[i]], rest, key);
    GetAfterAppend(front, key, entries[i].1, key);
  }

  /** The keys of a concatenation are the keys of its parts. */
  lemma KeysOf(a: seq<(string, Value)>, b: seq<(string, Value)>, key: string)
    ensures HasKey(a + b, key) <==> HasKey(a, key) || HasKey(b, key)
  {
    if HasKey(a + b, key) {
      var i :| 0 <= i < |a + b| && (a + b)[i].0 == key;
      if i >= |a| { assert b[i - |a|].0 == key; }
    }
    if HasKey(a, key) {
      var i :| 0 <= i < |a| && a[i].0 == key;
      assert (a + b)[i].0 == key;
    }
    if HasKey(b, key) {
      var i :| 0 <= i < |b| && b[i].0 == key;
      assert (a + b)[|a| + i].0 == key;
    }
  }

  /** A client's flags read back as they were: `tcp`/`bind` are present
      exactly when set, and an absent flag reads as false. */
  lemma ClientEntryFlags(c: ClientConfig)
    ensures HasKey(ClientEntry(c), "tcp") <==> c.tcp
    ensures HasKey(ClientEntry(c), "bind") <==> c.bind
    ensures Flag(ClientEntry(c), "tcp") == Success(c.tcp)
    ensures Flag(ClientEntry(c), "bind") == Success(c.bind)
  {
    var d := ClientEntry(c);
    var head := [("name", Str(c.name)), ("priv", Str(c.priv))];
    var t := if c.tcp then [("tcp", Bool(true))] else [];
    var bd := if c.bind then [("bind", Bool(true))] else [];
    assert d == head + t + bd;
    KeysOf(head + t, bd, "tcp");
    KeysOf(head, t, "tcp");
    KeysOf(head + t, bd, "bind");
    KeysOf(head, t, "bind");
    if c.tcp {
      assert (head + t)[2].0 == "tcp";
      if c.bind {
        GetSkips(head + t, bd, "tcp");
        assert head + t == head + [("tcp", Bool(true))];
        GetAfterAppend(head, "tcp", Bool(true), "tcp");
      } else {
        assert d == head + [("tcp", Bool(true))];
        GetAfterAppend(head, "tcp", Bool(true), "tcp");
      }
    }
    if c.bind {
      assert d == (head + t) + [("bind", Bool(true))];
      GetAfterAppend(head + t, "bind", Bool(true), "bind");
    }
  }

  /** What reading a dumped server back gives: the same settings, with the
      public key derived again from the private one. */
  function Reloaded(s: ServerConfig, keys: KeyProvider): ServerConfig
  {
    s.(pub := keys.pubkey(s.priv))
  }

  /** The servers `parse_yaml` accepts: a network that is not a /32, with
      its base aligned, and an MTU within the transport's ceiling. */
  predicate Reloadable(s: ServerConfig)
  {
    s.net.prefix < 32 && Base(s.net.base, s.net.prefix) == s.net.base && s.mtu <= MtuCeiling(s.proto)
  }

  /** A dumped server reads back as itself, drawing no generated key. */
  lemma ServerEntryReloads(s: ServerConfig, keys: KeyProvider, gen: nat)
    requires Reloadable(s)
    ensures ParseServer(Dict(ServerEntry(s)), keys, gen) == Success((Reloaded(s, keys), gen))
  {
    var d := ServerEntry(s);
    GetAt(d, 0, "name");
    GetAt(d, 1, "proto");
    GetAt(d, 2, "priv");
    GetAt(d, 3, "ip");
    GetAt(d, 4, "port");
    GetAt(d, 5, "net");
    GetAt(d, 6, "mtu");
    ProtoNameParses(s.proto);
    AddrTextRoundTrip(s.ip);
    NetworkTextRoundTrip(s.net);
    FieldsReadAs(d, s, keys, gen, ProtoName(s.proto), AddrText(s.ip), NetworkText(s.net));
    ServerAccepted(d, keys, gen, Reloaded(s, keys), gen);
  }

  /** A server mapping whose fields hold the settings of `s` as text reads as `s`. */
  lemma FieldsReadAs(d: seq<(string, Value)>, s: ServerConfig, keys: KeyProvider, gen: nat,
                     protoText: string, ipText: string, netText: string)
    requires ParseProto(protoText) == Success(s.proto)
    requires ParseAddr(ipText) == Some(s.ip) && ParseNetwork(netText) == Some(s.net)
    requires Get(d, "name") == Some(Str(s.name)) && Get(d, "proto") == Some(Str(protoText))
    requires Get(d, "priv") == Some(Str(s.priv)) && Get(d, "ip") == Some(Str(ipText))
    requires Get(d, "port") == Some(Int(s.port)) && Get(d, "net") == Some(Str(netText))
    requires Get(d, "mtu") == Some(Int(s.mtu))
    ensures ReadsAs(d, keys, gen, Reloaded(s, keys), gen)
  {
  }

  /** A transport's dumped name reads back as that transport. */
  lemma ProtoNameParses(p: Proto)
    ensures ParseProto(ProtoName(p)) == Success(p)
  {
    var t := ProtoName(p);
    assert forall i :: 0 <= i < |t| ==> LowerChar(t[i]) == t[i];
    assert Lower(t) == t;
  }

  /** Every server the parser produces is reloadable, and its public key is the derived one. */
  lemma ParsedServerReloadable(v: Value, keys: KeyProvider, gen: nat)
    requires ParseServer(v, keys, gen).Success?
    ensures var s := ParseServer(v, keys, gen).value.0;
      Reloadable(s) && Reloaded(s, keys) == s
  {
  }

  /** A dumped client reads back as itself, with the public key derived again
      and `android` false, drawing no generated key. */
  lemma ClientEntryReloads(c: ClientConfig, keys: KeyProvider, gen: nat)
    ensures ParseClient(Dict(ClientEntry(c)), keys, gen)
            == Success((c.(pub := keys.pubkey(c.priv), android := false), gen))
  {
    var d := ClientEntry(c);
    assert d[0].0 == "name" && d[1].0 == "priv";
    ClientEntryFlags(c);
    var head := [("name", Str(c.name)), ("priv", Str(c.priv))];
    var rest := (if c.tcp then [("tcp", Bool(true))] else []) + (if c.bind then [("bind", Bool(true))] else []);
    assert d == head + rest;
    GetSkips(head, rest, "name");
    GetSkips(head, rest, "priv");
    ClientAccepted(d, keys, gen, c.(pub := keys.pubkey(c.priv), android := false), gen);
  }

  function ReloadedServers(servers: seq<GenServer>, keys: KeyProvider): (r: seq<ServerConfig>)
    ensures |r| == |servers|
    ensures forall i :: 0 <= i < |servers| ==> r[i] == Reloaded(servers[i].config, keys)
  {
    if servers == [] then []
    else ReloadedServers(servers[..|servers| - 1], keys) + [Reloaded(servers[|servers| - 1].config, keys)]
  }

  function ReloadedClients(clients: seq<ClientConfig>, keys: KeyProvider): (r: seq<ClientConfig>)
    ensures |r| == |clients|
    ensures forall i :: 0 <= i < |clients| ==>
              r[i] == clients[i].(pub := keys.pubkey(clients[i].priv), android := false)
  {
    if clients == [] then []
    else
      var c := clients[|clients| - 1];
      ReloadedClients(clients[..|clients| - 1], keys) + [c.(pub := keys.pubkey(c.priv), android := false)]
  }

  lemma {:induction false} ServersReload(servers: seq<GenServer>, keys: KeyProvider, gen: nat)
    requires forall i :: 0 <= i < |servers| ==> Reloadable(servers[i].config)
    ensures ParseEach(ServerEntries(servers), keys, gen, ParseServer) == Success((ReloadedServers(servers, keys), gen))
    decreases |servers|
  {
    if servers != [] {
      var n := |servers|;
      var front := servers[..n - 1];
      var entries := ServerEntries(servers);
      assert entries[..n - 1] == ServerEntries(front);
      ServersReload(front, keys, gen);
      ServerEntryReloads(servers[n - 1].config, keys, gen);
      ParseEachSnoc(entries, keys, gen, ParseServer, ReloadedServers(front, keys), gen,
                    Reloaded(servers[n - 1].config, keys), gen);
    }
  }

  lemma {:induction false} ClientsReload(clients: seq<ClientConfig>, keys: KeyProvider, gen: nat)
    ensures ParseEach(ClientEntries(clients), keys, gen, ParseClient) == Success((ReloadedClients(clients, keys), gen))
    decreases |clients|
  {
    if clients != [] {
      var n := |clients|;
      var front := clients[..n - 1];
      var entries := ClientEntries(clients);
      var c := clients[n - 1];
      assert entries[..n - 1] == ClientEntries(front);
      ClientsReload(front, keys, gen);
      ClientEntryReloads(c, keys, gen);
      ParseEachSnoc(entries, keys, gen, ParseClient, ReloadedClients(front, keys), gen,
                    c.(pub := keys.pubkey(c.priv), android := false), gen);
    }
  }

  /** Without a tcp server the dump reads back as the same servers and
      clients, generating no key and needing no udp2raw section. */
  lemma DumpReloads(servers: seq<GenServer>, clients: seq<ClientConfig>, u: Option<Udp2rawConfig>, b: BindConfig,
                    keys: KeyProvider, gen: nat)
    requires forall i :: 0 <= i < |servers| ==> Reloadable(servers[i].config) && servers[i].config.proto == Udp
    ensures ParseDocument(Dump(servers, clients, u, b), keys, gen, [])
            == Success(Loaded(ReloadedServers(servers, keys), ReloadedClients(clients, keys), None, gen))
  {
    DumpSections(servers, clients, u, b);
    ServersReload(servers, keys, gen);
    ClientsReload(clients, keys, gen);
    DocumentParses(Dump(servers, clients, u, b).entries, ServerEntries(servers), ClientEntries(clients), keys, gen,
                   ReloadedServers(servers, keys), ReloadedClients(clients, keys));
  }

  /** With a tcp server the dump never reads back: the udp2raw section is
      missing when the secret was never set, and is a list rather than a
      mapping when it was. */
  lemma DumpWithTcpServerDoesNotReload(servers: seq<GenServer>, clients: seq<ClientConfig>, u: Option<Udp2rawConfig>,
                                       b: BindConfig, keys: KeyProvider, gen: nat, t: nat)
    requires forall i :: 0 <= i < |servers| ==> Reloadable(servers[i].config)
    requires t < |servers| && servers[t].config.proto == Tcp
    ensures ParseDocument(Dump(servers, clients, u, b), keys, gen, [])
            == Failure(if u.Some? && u.value.secret.Some? then NotAMapping("udp2raw") else MissingSection("udp2raw"))
  {
    var d := Dump(servers, clients, u, b).entries;
    DumpSections(servers, clients, u, b);
    ServersReload(servers, keys, gen);
    ClientsReload(clients, keys, gen);
    var parsed := ReloadedServers(servers, keys);
    assert parsed[t].proto == Tcp;
    DumpUdp2rawUnreadable(servers, clients, u, b);
    DocumentParses(d, ServerEntries(servers), ClientEntries(clients), keys, gen, parsed, ReloadedClients(clients, keys));
  }

  /** The udp2raw section of a dump is never one `parse_yaml` accepts. */
  lemma DumpUdp2rawUnreadable(servers: seq<GenServer>, clients: seq<ClientConfig>, u: Option<Udp2rawConfig>, b: BindConfig)
    ensures ParseUdp2raw(Dump(servers, clients, u, b).entries)
            == Failure(if u.Some? && u.value.secret.Some? then NotAMapping("udp2raw") else MissingSection("udp2raw"))
  {
    DumpSections(servers, clients, u, b);
  }

  /** A document whose two lists parse without generating a key: without a
      tcp server it loads as they are; with one it fails as its udp2raw
      section does. */
  lemma DocumentParses(d: seq<(string, Value)>, serverRecords: seq<Value>, clientRecords: seq<Value>,
                       keys: KeyProvider, gen: nat, servers: seq<ServerConfig>, clients: seq<ClientConfig>)
    requires Get(d, "servers") == Some(List(serverRecords)) && Get(d, "clients") == Some(List(clientRecords))
    requires ParseEach(serverRecords, keys, gen, ParseServer) == Success((servers, gen))
    requires ParseEach(clientRecords, keys, gen, ParseClient) == Success((clients, gen))
    ensures !NeedUdp2raw(servers) ==> ParseDocument(Dict(d), keys, gen, []) == Success(Loaded(servers, clients, None, gen))
    ensures NeedUdp2raw(servers) && ParseUdp2raw(d).Failure? ==>
              ParseDocument(Dict(d), keys, gen, []) == Failure(ParseUdp2raw(d).error)
  {
    var none: seq<ServerConfig> := [];
    assert none + servers == servers;
  }
}
