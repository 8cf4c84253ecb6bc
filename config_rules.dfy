/** The validation and derivation rules `ConfigYAML.parse_yaml` applies to
    the parsed document (genwg/config.py), as functions. The first rule that
    fails ends the run: in the source an ERROR record or an uncaught
    exception exits the process; here it is the `Failure` of the result. */
module ConfigRules {
  import opened Wrappers
  import opened Text
  import opened IPv4
  import opened Yaml
  import opened Records

  datatype ConfigError =
    | NotAMapping(what: string)      // `.keys()` or `[...]` on something that is not a mapping
    | MissingSection(section: string)
    | NotIterable(section: string)
    | MissingKey(key: string)        // "%s is missing from the YAML."
    | ContainerAsText(key: string)   // `str()` of a list or mapping, not part of the model
    | BadProto                       // "proto must be either tcp or udp"
    | InvalidIp
    | InvalidPort
    | InvalidNetwork
    | HostNetwork                    // "network cannot be a /32"
    | InvalidMtu
    | MtuTooLarge(ceiling: int)
    | NotBool(key: string)           // "tcp must be a bool", "bind must be a bool"
    | InvalidUdp2rawPort
    | UnboundName(name: string)      // UnboundLocalError: a local read before any assignment

  const ServerMustHave: seq<string> := ["name", "proto", "ip", "port", "net", "mtu"]
  const ClientMustHave: seq<string> := ["name"]
  const Udp2rawMustHave: seq<string> := ["port"]

  /** The `for item in *_must_have` loop: the first key missing is reported. */
  function CheckKeys(entries: seq<(string, Value)>, must: seq<string>): (r: Outcome<ConfigError>)
    ensures r.Pass? <==> forall k :: k in must ==> HasKey(entries, k)
    ensures r.Fail? ==> r.error.MissingKey? && r.error.key in must && !HasKey(entries, r.error.key)
  {
    if must == [] then Pass
    else if !HasKey(entries, must[0]) then Fail(MissingKey(must[0]))
    else CheckKeys(entries, must[1..])
  }

  /** A server mapping holding every required key passes the key check. */
  lemma ServerKeysPresent(d: seq<(string, Value)>)
    requires HasKey(d, "name") && HasKey(d, "proto") && HasKey(d, "ip")
    requires HasKey(d, "port") && HasKey(d, "net") && HasKey(d, "mtu")
    ensures CheckKeys(d, ServerMustHave) == Pass
  {
  }

  /** `str(record[key])`. */
  function TextField(entries: seq<(string, Value)>, key: string): Result<string, ConfigError>
    requires HasKey(entries, key)
  {
    PyStr(Field(entries, key)).ToResult(ContainerAsText(key))
  }

  /** `str(proto).lower()` must be "tcp" or "udp". */
  function ParseProto(text: string): (r: Result<Proto, ConfigError>)
    ensures r.Success? <==> Lower(text) == "tcp" || Lower(text) == "udp"
    ensures r == Success(Tcp) <==> Lower(text) == "tcp"
    ensures r.Failure? ==> r.error == BadProto
  {
    var lowered := Lower(text);
    if lowered == "tcp" then Success(Tcp)
    else if lowered == "udp" then Success(Udp)
    else Failure(BadProto)
  }

  /** The largest MTU a server accepts: udp2raw's framing costs 120 bytes. */
  function MtuCeiling(p: Proto): int
  {
    match p
    case Udp => 1460
    case Tcp => 1340
  }

  /** The private key of a server or client and the count of generated keys
      after it: a supplied key is kept as written, a missing or null one is
      replaced by the next generated key. */
  function ResolvePriv(entries: seq<(string, Value)>, keys: KeyProvider, gen: nat): (r: Result<(string, nat), ConfigError>)
    ensures !HasKey(entries, "priv") || Field(entries, "priv") == Null ==> r == Success((keys.genkey(gen), gen + 1))
    ensures HasKey(entries, "priv") && Field(entries, "priv") != Null ==>
              && (r.Success? <==> PyStr(Field(entries, "priv")).Some?)
              && (r.Success? ==> r.value == (PyStr(Field(entries, "priv")).value, gen))
  {
    if HasKey(entries, "priv") && Field(entries, "priv") != Null then
      var t :- TextField(entries, "priv");
      Success((t, gen))
    else
      Success((keys.genkey(gen), gen + 1))
  }

  /** The private key as genwg/config.py:80-86 computes it: `str()` of a
      present value, so a null key becomes the text "None"; only a missing key
      is generated (the `is None` test after it never holds). */
  function ResolvePrivAsWritten(entries: seq<(string, Value)>, keys: KeyProvider, gen: nat): (r: Result<(string, nat), ConfigError>)
    ensures !HasKey(entries, "priv") ==> r == Success((keys.genkey(gen), gen + 1))
    ensures HasKey(entries, "priv") ==>
              && (r.Success? <==> PyStr(Field(entries, "priv")).Some?)
              && (r.Success? ==> r.value == (PyStr(Field(entries, "priv")).value, gen))
  {
    if HasKey(entries, "priv") then
      var t :- TextField(entries, "priv");
      Success((t, gen))
    else
      Success((keys.genkey(gen), gen + 1))
  }

  /** `ipaddress.ip_address(v)`: a dotted-decimal str, or an int (a bool is an int) in range. */
  function IpValue(v: Value): Option<Addr>
  {
    match v
    case Str(s) => ParseAddr(s)
    case Int(i) => if 0 <= i < AddrLimit then Some(i) else None
    case Bool(b) => Some(if b then 1 else 0)
    case _ => None
  }

  /** `ipaddress.ip_network(v, strict=False)`: a str literal, or an int taken as a /32. */
  function NetworkValue(v: Value): Option<Network>
  {
    match v
    case Str(s) => ParseNetwork(s)
    case Int(i) => if 0 <= i < AddrLimit then Some(Network(i, 32)) else None
    case Bool(b) => Some(Network(if b then 1 else 0, 32))
    case _ => None
  }

  /** One element of the `servers` list (genwg/config.py:68-119): the
      required keys, then the server's identity, then its addressing. */
  function ParseServer(v: Value, keys: KeyProvider, gen: nat): (r: Result<(ServerConfig, nat), ConfigError>)
    ensures r.Success? ==> v.Dict? && ReadsAs(v.entries, keys, gen, r.value.0, r.value.1)
    ensures r.Success? ==> r.value.0.net.prefix != 32 && r.value.0.mtu <= MtuCeiling(r.value.0.proto)
  {
    if !v.Dict? then Failure(NotAMapping("server"))
    else
      var d := v.entries;
      :- CheckKeys(d, ServerMustHave);
      assert forall k :: k in ServerMustHave ==> HasKey(d, k);
      var id :- ServerIdentity(d, keys, gen);
      var at :- ServerAddressing(d, id.proto);
      PartsReadAs(d, keys, gen, id, at);
      Success((ServerConfig(id.name, id.proto, id.priv, keys.pubkey(id.priv), at.ip, at.port, at.net, at.mtu), id.generated))
  }

  /** A server's name, transport and private key, with the count of generated keys after it. */
  datatype Identity = Identity(name: string, proto: Proto, priv: string, generated: nat)

  /** genwg/config.py:73-86: `str(name)`, the lowercased transport, the private key. */
  function ServerIdentity(d: seq<(string, Value)>, keys: KeyProvider, gen: nat): Result<Identity, ConfigError>
    requires HasKey(d, "name") && HasKey(d, "proto")
  {
    var name :- TextField(d, "name");
    var protoText :- TextField(d, "proto");
    var proto :- ParseProto(protoText);
    var key :- ResolvePriv(d, keys, gen);
    Success(Identity(name, proto, key.0, key.1))
  }

  /** A server's address, port, network and MTU. */
  datatype Addressing = Addressing(ip: Addr, port: int, net: Network, mtu: int)

  /** genwg/config.py:90-117: each value converted in turn, a /32 network
      refused, the MTU held to the transport's ceiling. */
  function ServerAddressing(d: seq<(string, Value)>, proto: Proto): Result<Addressing, ConfigError>
    requires HasKey(d, "ip") && HasKey(d, "port") && HasKey(d, "net") && HasKey(d, "mtu")
  {
    var ip :- IpValue(Field(d, "ip")).ToResult(InvalidIp);
    var port :- PyInt(Field(d, "port")).ToResult(InvalidPort);
    var net :- NetworkValue(Field(d, "net")).ToResult(InvalidNetwork);
    :- Need(net.prefix != 32, HostNetwork);
    var mtu :- PyInt(Field(d, "mtu")).ToResult(InvalidMtu);
    :- Need(mtu <= MtuCeiling(proto), MtuTooLarge(MtuCeiling(proto)));
    Success(Addressing(ip, port, net, mtu))
  }

  /** A `tcp`/`bind` flag: absent means false, present must be a bool and is kept. */
  function Flag(entries: seq<(string, Value)>, key: string): (r: Result<bool, ConfigError>)
    ensures r.Success? <==> !HasKey(entries, key) || Field(entries, key).Bool?
    ensures r.Failure? ==> r.error == NotBool(key)
    ensures r.Success? ==> (r.value <==> HasKey(entries, key) && Field(entries, key) == Bool(true))
  {
    if !HasKey(entries, key) then Success(false)
    else match Field(entries, key)
      case Bool(b) => Success(b)
      case _ => Failure(NotBool(key))
  }

  /** A flag as genwg/config.py:148-158 treats it: absent sets false, a
      non-bool is an error, but a bool is checked and never stored, so the
      attribute stays unassigned (`None` here). */
  function FlagAsWritten(entries: seq<(string, Value)>, key: string): (r: Result<Option<bool>, ConfigError>)
    ensures r.Success? <==> !HasKey(entries, key) || Field(entries, key).Bool?
    ensures r.Success? ==> r.value != Some(true)
    ensures r == Success(None) <==> HasKey(entries, key) && Field(entries, key).Bool?
  {
    if !HasKey(entries, key) then Success(Some(false))
    else match Field(entries, key)
      case Bool(_) => Success(None)
      case _ => Failure(NotBool(key))
  }

  /** One element of the `clients` list (genwg/config.py:130-160). */
  function ParseClient(v: Value, keys: KeyProvider, gen: nat): (r: Result<(ClientConfig, nat), ConfigError>)
    ensures r.Success? ==> v.Dict? && ClientReadsAs(v.entries, keys, gen, r.value.0, r.value.1)
  {
    if !v.Dict? then Failure(NotAMapping("client"))
    else
      var d := v.entries;
      :- CheckKeys(d, ClientMustHave);
      assert HasKey(d, "name");
      var name :- TextField(d, "name");
      var key :- ResolvePriv(d, keys, gen);
      var tcp :- Flag(d, "tcp");
      var bind :- Flag(d, "bind");
      Success((ClientConfig(name, key.0, keys.pubkey(key.0), tcp, bind, false), key.1))
  }

  /** The private key of an accepted record: a supplied non-null key is kept
      as its text and draws nothing from the generator; a missing or null key
      is the next generated one. */
  predicate KeyResolved(d: seq<(string, Value)>, keys: KeyProvider, gen: nat, priv: string, generated: nat)
  {
    if HasKey(d, "priv") && Field(d, "priv") != Null
    then PyStr(Field(d, "priv")) == Some(priv) && generated == gen
    else priv == keys.genkey(gen) && generated == gen + 1
  }

  /** Record `d` reads as server `s`: it holds every required key, and its
      values convert to those of `s` (`str` of the name, the transport
      matched in lower case, the address, the integer port, the network with
      host bits cleared, the integer MTU); the private key is resolved as
      `KeyResolved` says and the public key is derived from it. */
  predicate ReadsAs(d: seq<(string, Value)>, keys: KeyProvider, gen: nat, s: ServerConfig, generated: nat)
  {
    && HasKey(d, "name") && HasKey(d, "proto") && HasKey(d, "ip")
    && HasKey(d, "port") && HasKey(d, "net") && HasKey(d, "mtu")
    && PyStr(Field(d, "name")) == Some(s.name)
    && PyStr(Field(d, "proto")).Some? && ParseProto(PyStr(Field(d, "proto")).value) == Success(s.proto)
    && KeyResolved(d, keys, gen, s.priv, generated)
    && s.pub == keys.pubkey(s.priv)
    && IpValue(Field(d, "ip")) == Some(s.ip)
    && PyInt(Field(d, "port")) == Some(s.port)
    && NetworkValue(Field(d, "net")) == Some(s.net)
    && PyInt(Field(d, "mtu")) == Some(s.mtu)
  }

  /** A record whose identity and addressing both resolve reads as the server built from them. */
  lemma PartsReadAs(d: seq<(string, Value)>, keys: KeyProvider, gen: nat, id: Identity, a: Addressing)
    requires HasKey(d, "name") && HasKey(d, "proto") && HasKey(d, "ip")
    requires HasKey(d, "port") && HasKey(d, "net") && HasKey(d, "mtu")
    requires ServerIdentity(d, keys, gen) == Success(id)
    requires ServerAddressing(d, id.proto) == Success(a)
    ensures ReadsAs(d, keys, gen, ServerConfig(id.name, id.proto, id.priv, keys.pubkey(id.priv), a.ip, a.port, a.net, a.mtu),
                    id.generated)
    ensures a.net.prefix != 32 && a.mtu <= MtuCeiling(id.proto)
  {
    IdentityFields(d, keys, gen, id);
    AddressingFields(d, id.proto, a);
  }

  lemma IdentityFields(d: seq<(string, Value)>, keys: KeyProvider, gen: nat, id: Identity)
    requires HasKey(d, "name") && HasKey(d, "proto")
    requires ServerIdentity(d, keys, gen) == Success(id)
    ensures PyStr(Field(d, "name")) == Some(id.name)
    ensures PyStr(Field(d, "proto")).Some? && ParseProto(PyStr(Field(d, "proto")).value) == Success(id.proto)
    ensures KeyResolved(d, keys, gen, id.priv, id.generated)
  {
  }

  lemma AddressingFields(d: seq<(string, Value)>, proto: Proto, a: Addressing)
    requires HasKey(d, "ip") && HasKey(d, "port") && HasKey(d, "net") && HasKey(d, "mtu")
    requires ServerAddressing(d, proto) == Success(a)
    ensures IpValue(Field(d, "ip")) == Some(a.ip) && PyInt(Field(d, "port")) == Some(a.port)
    ensures NetworkValue(Field(d, "net")) == Some(a.net) && PyInt(Field(d, "mtu")) == Some(a.mtu)
    ensures a.net.prefix != 32 && a.mtu <= MtuCeiling(proto)
  {
  }

  /** The converse of the contract of `ParseServer`: a record that reads as `s` is
      accepted as `s` unless its network is a /32 or its MTU is above the
      ceiling of its transport, which are refused in that order. */
  lemma ServerAccepted(e: seq<(string, Value)>, keys: KeyProvider, gen: nat, s: ServerConfig, generated: nat)
    requires ReadsAs(e, keys, gen, s, generated)
    ensures ParseServer(Dict(e), keys, gen)
            == if s.net.prefix == 32 then Failure(HostNetwork)
               else if s.mtu > MtuCeiling(s.proto) then Failure(MtuTooLarge(MtuCeiling(s.proto)))
               else Success((s, generated))
  {
    ServerKeysPresent(e);
    assert ServerIdentity(e, keys, gen) == Success(Identity(s.name, s.proto, s.priv, generated));
    AddressingOf(e, s.proto, Addressing(s.ip, s.port, s.net, s.mtu));
  }

  /** A `tcp`/`bind` flag of a record reads as `b`: if present it is a
      bool, and `b` holds exactly when it is present and true. */
  predicate FlagReads(d: seq<(string, Value)>, key: string, b: bool)
  {
    && (HasKey(d, key) ==> Field(d, key).Bool?)
    && (b <==> HasKey(d, key) && Field(d, key) == Bool(true))
  }

  /** Record `d` reads as client `c`: it has a name converting to `c`'s,
      its private key is resolved as `KeyResolved` says, the public key is
      derived from it, the flags read as `c`'s, and `android` is false. */
  predicate ClientReadsAs(d: seq<(string, Value)>, keys: KeyProvider, gen: nat, c: ClientConfig, generated: nat)
  {
    && HasKey(d, "name") && PyStr(Field(d, "name")) == Some(c.name)
    && KeyResolved(d, keys, gen, c.priv, generated)
    && c.pub == keys.pubkey(c.priv)
    && FlagReads(d, "tcp", c.tcp)
    && FlagReads(d, "bind", c.bind)
    && !c.android
  }

  /** The converse of the contract of `ParseClient`: a record that reads as `c` is accepted as `c`. */
  lemma ClientAccepted(d: seq<(string, Value)>, keys: KeyProvider, gen: nat, c: ClientConfig, generated: nat)
    requires ClientReadsAs(d, keys, gen, c, generated)
    ensures ParseClient(Dict(d), keys, gen) == Success((c, generated))
  {
    assert Flag(d, "tcp") == Success(c.tcp);
    assert Flag(d, "bind") == Success(c.bind);
  }

  /** Addressing settings whose fields convert to the given values. */
  lemma AddressingOf(e: seq<(string, Value)>, proto: Proto, a: Addressing)
    requires HasKey(e, "ip") && HasKey(e, "port") && HasKey(e, "net") && HasKey(e, "mtu")
    requires IpValue(Field(e, "ip")) == Some(a.ip) && PyInt(Field(e, "port")) == Some(a.port)
    requires NetworkValue(Field(e, "net")) == Some(a.net) && PyInt(Field(e, "mtu")) == Some(a.mtu)
    ensures ServerAddressing(e, proto)
            == if a.net.prefix == 32 then Failure(HostNetwork)
               else if a.mtu > MtuCeiling(proto) then Failure(MtuTooLarge(MtuCeiling(proto)))
               else Success(a)
  {
  }

  /** The records of a list parsed in order, threading the count of generated
      keys; the first record that fails stops the run. */
  function ParseEach<T>(records: seq<Value>, keys: KeyProvider, gen: nat,
                        parse: (Value, KeyProvider, nat) -> Result<(T, nat), ConfigError>)
    : (r: Result<(seq<T>, nat), ConfigError>)
    ensures r.Success? ==> |r.value.0| == |records|
    decreases |records|
  {
    if records == [] then Success(([], gen))
    else
      var before :- ParseEach(records[..|records| - 1], keys, gen, parse);
      var last :- parse(records[|records| - 1], keys, before.1);
      Success((before.0 + [last.0], last.1))
  }

  /** A list whose front parses, followed by a record that parses after it. */
  lemma ParseEachSnoc<T>(records: seq<Value>, keys: KeyProvider, gen: nat,
                         parse: (Value, KeyProvider, nat) -> Result<(T, nat), ConfigError>,
                         front: seq<T>, mid: nat, last: T, after: nat)
    requires records != []
    requires ParseEach(records[..|records| - 1], keys, gen, parse) == Success((front, mid))
    requires parse(records[|records| - 1], keys, mid) == Success((last, after))
    ensures ParseEach(records, keys, gen, parse) == Success((front + [last], after))
  {
  }

  /** One more record after a prefix that parses: either the whole list
      fails with that record's error, or the longer prefix parses. */
  lemma ParseEachExtend<T>(records: seq<Value>, i: nat, keys: KeyProvider, gen: nat,
                           parse: (Value, KeyProvider, nat) -> Result<(T, nat), ConfigError>,
                           done: seq<T>, mid: nat)
    requires i < |records|
    requires ParseEach(records[..i], keys, gen, parse) == Success((done, mid))
    ensures var next := parse(records[i], keys, mid);
      && (next.Failure? ==> ParseEach(records, keys, gen, parse) == Failure(next.error))
      && (next.Success? ==> ParseEach(records[..i + 1], keys, gen, parse) == Success((done + [next.value.0], next.value.1)))
  {
    assert records[..i + 1][..i] == records[..i];
    if parse(records[i], keys, mid).Failure? {
      ParseEachStopsAtFailure(records, i + 1, keys, gen, parse);
    }
  }

  /** Once a prefix of the records fails, the whole list fails with the same error. */
  lemma {:induction false} ParseEachStopsAtFailure<T>(records: seq<Value>, i: nat, keys: KeyProvider, gen: nat,
                                                      parse: (Value, KeyProvider, nat) -> Result<(T, nat), ConfigError>)
    requires i <= |records|
    requires ParseEach(records[..i], keys, gen, parse).Failure?
    ensures ParseEach(records, keys, gen, parse) == ParseEach(records[..i], keys, gen, parse)
    decreases |records|
  {
    if i < |records| {
      var front := records[..|records| - 1];
      assert front[..i] == records[..i];
      ParseEachStopsAtFailure(front, i, keys, gen, parse);
    } else {
      assert records[..i] == records;
    }
  }

  /** `yaml_parsed[name]`. */
  function Section(entries: seq<(string, Value)>, name: string): Result<Value, ConfigError>
  {
    Get(entries, name).ToResult(MissingSection(name))
  }

  /** The elements a `for` loop over a section visits. */
  function Elements(v: Value, name: string): Result<seq<Value>, ConfigError>
  {
    Iterate(v).ToResult(NotIterable(name))
  }

  /** Some server uses the tcp transport, so udp2raw settings are needed. */
  predicate NeedUdp2raw(servers: seq<ServerConfig>)
  {
    exists i :: 0 <= i < |servers| && servers[i].proto == Tcp
  }

  /** The test of genwg/config.py:162-168 as written: `need_udp2raw` is
      assigned only inside the loop, on finding a tcp server, so without one
      the `if need_udp2raw:` that follows reads an unbound local. */
  function Udp2rawNeededAsWritten(servers: seq<ServerConfig>): (r: Result<bool, ConfigError>)
    ensures r.Success? <==> NeedUdp2raw(servers)
    ensures r.Success? ==> r.value
    ensures r.Failure? ==> r.error == UnboundName("need_udp2raw")
  {
    if NeedUdp2raw(servers) then Success(true) else Failure(UnboundName("need_udp2raw"))
  }

  /** The `udp2raw` section (genwg/config.py:171-189): a mapping with an integer `port`. */
  function ParseUdp2raw(entries: seq<(string, Value)>): (r: Result<Udp2rawConfig, ConfigError>)
    ensures !HasKey(entries, "udp2raw") ==> r == Failure(MissingSection("udp2raw"))
    ensures HasKey(entries, "udp2raw") && !Field(entries, "udp2raw").Dict? ==> r == Failure(NotAMapping("udp2raw"))
    ensures HasKey(entries, "udp2raw") && Field(entries, "udp2raw").Dict? ==>
              var u := Field(entries, "udp2raw").entries;
              && (!HasKey(u, "port") ==> r == Failure(MissingKey("port")))
              && (HasKey(u, "port") && PyInt(Field(u, "port")).None? ==> r == Failure(InvalidUdp2rawPort))
              && (HasKey(u, "port") && PyInt(Field(u, "port")).Some? ==>
                    r == Success(Udp2rawConfig(PyInt(Field(u, "port")).value, None)))
    ensures r.Success? ==> HasKey(entries, "udp2raw") && r.value.secret.None?
  {
    var u :- Section(entries, "udp2raw");
    if !u.Dict? then Failure(NotAMapping("udp2raw"))
    else
      :- CheckKeys(u.entries, Udp2rawMustHave);
      assert HasKey(u.entries, "port");
      var port :- PyInt(Field(u.entries, "port")).ToResult(InvalidUdp2rawPort);
      Success(Udp2rawConfig(port, None))
  }

  /** What one successful `parse_yaml` adds: the servers and clients in input
      order, the udp2raw settings when they were needed, and the count of
      generated keys afterwards. */
  datatype Loaded = Loaded(
    servers: seq<ServerConfig>,
    clients: seq<ClientConfig>,
    udp2raw: Option<Udp2rawConfig>,
    generated: nat)

  /** The whole of `parse_yaml` over a parsed document. `prior` are servers
      already held from an earlier call: the udp2raw test walks all of them. */
  function ParseDocument(doc: Value, keys: KeyProvider, gen: nat, prior: seq<ServerConfig>)
    : (r: Result<Loaded, ConfigError>)
    ensures r.Success? ==> (r.value.udp2raw.Some? <==> NeedUdp2raw(prior + r.value.servers))
    ensures r.Success? && r.value.udp2raw.Some? ==>
              doc.Dict? && HasKey(doc.entries, "udp2raw") && r.value.udp2raw.value.secret.None?
  {
    if !doc.Dict? then Failure(NotAMapping("document"))
    else
      var serverSection :- Section(doc.entries, "servers");
      var serverRecords :- Elements(serverSection, "servers");
      var servers :- ParseEach(serverRecords, keys, gen, ParseServer);
      var clientSection :- Section(doc.entries, "clients");
      var clientRecords :- Elements(clientSection, "clients");
      var clients :- ParseEach(clientRecords, keys, servers.1, ParseClient);
      var udp2raw :- if NeedUdp2raw(prior + servers.0)
                     then var u :- ParseUdp2raw(doc.entries); Success(Some(u))
                     else Success(None);
      Success(Loaded(servers.0, clients.0, udp2raw, clients.1))
  }
}
