/** The resolved entities: what `parse_yaml` builds and what the file
    generator reads. Each record holds the attributes the source reads off
    `ServerConfig`, `ClientConfig` and `UDP2RAWConfig` objects. */
module Records {
  import opened Wrappers
  import opened IPv4

  /** The transport of a server: plain WireGuard over udp, or tunnelled through udp2raw. */
  datatype Proto = Tcp | Udp

  function ProtoName(p: Proto): string
  {
    match p
    case Tcp => "tcp"
    case Udp => "udp"
  }

  datatype ServerConfig = ServerConfig(
    name: string,
    proto: Proto,
    priv: string,
    pub: string,
    ip: Addr,
    port: int,
    net: Network,
    mtu: int)

  /** `android` is read by the file generator but set by nothing in the
      configuration reader; parsing leaves it false. */
  datatype ClientConfig = ClientConfig(
    name: string,
    priv: string,
    pub: string,
    tcp: bool,
    bind: bool,
    android: bool)

  /** `secret` is read by the file generator but never assigned by the
      configuration reader; it is absent after parsing. */
  datatype Udp2rawConfig = Udp2rawConfig(port: int, secret: Option<string>)

  /** The `wg genkey` / `wg pubkey` capability: the n-th freshly generated
      private key, and the public key of a private key. */
  datatype KeyProvider = KeyProvider(genkey: nat -> string, pubkey: string -> string)

  /** The `bind` settings the file generator reads; each attribute may be
      missing, which the state dump tolerates and the generator does not. */
  datatype BindConfig = BindConfig(
    hostname: Option<string>,
    namedConfPath: Option<string>,
    rootZoneFile: Option<string>)
}
