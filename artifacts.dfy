/** What the file generator of genwg/genfiles.py emits, as values: the lines
    of a WireGuard config, the records of a BIND zone, the zone stanzas of
    `genwg.conf`, and the files they are written to. Rendering to text and
    writing the files are not part of this model. */
module Artifacts {
  import opened Wrappers
  import opened IPv4
  import opened Text
  import opened Records
  import opened HostBits

  /** The shell commands the hooks of a config run. */
  datatype Command =
    | MakeBindDir                                           // mkdir -p "/tmp/bind"
    | ForwardRootZone(forwarder: Addr)                      // zone "." forwarded to the server's first address
    | HintRootZone(rootZoneFile: string)                    // zone "." back to the root hints file
    | ReloadBind                                            // rndc reload
    | AddHostRoute(host: Addr)                              // ip route add <host> via the default gateway
    | DeleteHostRoute(host: Addr)                           // ip route del <host> via the default gateway
    | Udp2rawClient(server: Addr, port: int, secret: string)
    | Udp2rawServer(listen: Addr, port: int, wgPort: int, secret: string)
    | StopUdp2raw                                           // pkill -15 udp2raw || true

  datatype ConfValue =
    | Text(text: string)
    | Number(n: int)
    | Cidr(addr: Addr, length: nat)                         // <addr>/<length>
    | Ip(addr: Addr)
    | Endpoint(host: Addr, port: int)                       // <host>:<port>
    | Run(command: Command)

  /** One line of a WireGuard config file. */
  datatype ConfLine =
    | Note(topic: string, text: string)                     // "# - <topic>: <text>"
    | Comment(text: string)                                 // "# <text>"
    | Section(name: string)                                 // "[<name>]"
    | Blank
    | Set(key: string, value: ConfValue)                    // "<key> = <value>"

  /** One line of a BIND zone file. */
  datatype ZoneLine =
    | Ttl                                                   // $TTL 5M
    | Soa(origin: string)                                   // @ IN SOA <origin>. root.<origin>. ( 1 1W 1D 4W 1W )
    | Ns(target: string)                                    // @ IN NS <target>
    | A(owner: string, addr: Addr)                          // <owner> IN A <addr>
    | Ptr(owner: string, target: string)                    // <owner> IN PTR <target>
    | HostPtr(host: Addr, prefix: PrefixLength, target: string)  // <host bits of host> IN PTR <target>

  /** The owner name a PTR line is written with: a client's record is owned
      by the host bits of its address, rendered by `HostLabel` (the corrected
      form of `_get_host_bits`, which keeps interior zero octets). */
  function PtrOwner(line: ZoneLine): string
    requires line.Ptr? || line.HostPtr?
  {
    if line.Ptr? then line.owner else HostLabel(line.host, line.prefix)
  }

  /** A `zone "<name>" { type master; file "<file>"; };` stanza of genwg.conf. */
  datatype NamedZone = NamedZone(name: string, file: string)

  datatype Artifact =
    | ClientFile(client: string, server: string, conf: seq<ConfLine>)   // client/<client>-<server>.conf
    | ServerFile(server: string, conf: seq<ConfLine>)                   // server/<server>.conf
    | NamedConfFile(zones: seq<NamedZone>)                              // bind/genwg.conf
    | ZoneFile(fileName: string, lines: seq<ZoneLine>)                  // bind/zone/genwg/<fileName>

  /** Why generation stops: an attribute the source reads is not set (an
      AttributeError), or an address would pass 255.255.255.255. */
  datatype GenError = MissingAttribute(attribute: string) | AddressOverflow

  /** A server as the generator sees it: its resolved settings (the network
      address and `pfx` are `config.net`), the reverse zone name `arpa_ptr`,
      and `last_ip`, the last address handed out on it. */
  datatype GenServer = GenServer(config: ServerConfig, arpaPtr: string, lastIp: Addr)

  /** The generator's settings shared by all servers. */
  datatype Env = Env(wantBind: bool, udp2raw: Option<Udp2rawConfig>, bind: BindConfig)

  /** The loopback end of the udp2raw tunnel, 127.0.0.1:50001. */
  const Loopback: Addr := 0x7F00_0001
  const TunnelPort := 50001

  /** Every value set for `key` in a config. */
  function Values(conf: seq<ConfLine>, key: string): set<ConfValue>
  {
    set l | l in conf && l.Set? && l.key == key :: l.value
  }

  lemma ValuesAppend(a: seq<ConfLine>, b: seq<ConfLine>)
    ensures forall key :: Values(a + b, key) == Values(a, key) + Values(b, key)
  {
  }

  const ArpaSuffix := ".in-addr.arpa"

  /** `re.sub(r"\.in-addr\.arpa$", "", name)`: one `.in-addr.arpa` is removed
      at the end of the name, or just before a final newline, where `$` also
      matches. */
  function StripArpa(name: string): (r: string)
    ensures EndsWith(name, ArpaSuffix) ==> name == r + ArpaSuffix
    ensures !EndsWith(name, ArpaSuffix) && EndsWith(name, ArpaSuffix + "\n") ==>
              |r| >= 1 && r[|r| - 1] == '\n' && name == r[..|r| - 1] + ArpaSuffix + "\n"
    ensures !EndsWith(name, ArpaSuffix) && !EndsWith(name, ArpaSuffix + "\n") ==> r == name
  {
    if EndsWith(name, ArpaSuffix) then name[..|name| - |ArpaSuffix|]
    else if EndsWith(name, ArpaSuffix + "\n") then name[..|name| - |ArpaSuffix| - 1] + "\n"
    else name
  }

  /** The udp2raw `port` and `secret` a tcp hook reads, in that order; either
      is an AttributeError when it was never set. */
  function TunnelSettings(u: Option<Udp2rawConfig>): (r: Result<(int, string), GenError>)
    ensures r.Success? <==> u.Some? && u.value.secret.Some?
    ensures r.Success? ==> r.value == (u.value.port, u.value.secret.value)
    ensures u.None? ==> r == Failure(MissingAttribute("udp2raw.port"))
    ensures u.Some? && u.value.secret.None? ==> r == Failure(MissingAttribute("udp2raw.secret"))
  {
    match u
    case None => Failure(MissingAttribute("udp2raw.port"))
    case Some(c) =>
      match c.secret
      case None => Failure(MissingAttribute("udp2raw.secret"))
      case Some(secret) => Success((c.port, secret))
  }
}
