/** What the rules of `parse_yaml` (genwg/config.py:46-189) guarantee about
    the records they accept and the records they refuse. */
module ConfigProps {
  import opened Wrappers
  import opened Text
  import opened IPv4
  import opened Yaml
  import opened Records
  import opened ConfigRules

  /** The key check reports the first required key, in list order, that is missing. */
  lemma {:induction false} CheckKeysFirstMissing(entries: seq<(string, Value)>, must: seq<string>, j: nat)
    requires j < |must| && !HasKey(entries, must[j])
    requires forall i :: 0 <= i < j ==> HasKey(entries, must[i])
    ensures CheckKeys(entries, must) == Fail(MissingKey(must[j]))
    decreases j
  {
    if j > 0 {
      assert HasKey(entries, must[0]);
      forall i | 0 <= i < j - 1
        ensures HasKey(entries, must[1..][i])
      {
        assert must[1..][i] == must[i + 1];
      }
      CheckKeysFirstMissing(entries, must[1..], j - 1);
    }
  }

  /** A server record missing one of `name, proto, ip, port, net, mtu` is
      refused naming the first one missing, before any other rule runs. */
  lemma ServerFirstMissingKey(d: seq<(string, Value)>, keys: KeyProvider, gen: nat, j: nat)
    requires j < |ServerMustHave| && !HasKey(d, ServerMustHave[j])
    requires forall i :: 0 <= i < j ==> HasKey(d, ServerMustHave[i])
    ensures ParseServer(Dict(d), keys, gen) == Failure(MissingKey(ServerMustHave[j]))
  {
    CheckKeysFirstMissing(d, ServerMustHave, j);
  }

  /** A client record without `name` is refused. */
  lemma ClientNameRequired(d: seq<(string, Value)>, keys: KeyProvider, gen: nat)
    requires !HasKey(d, "name")
    ensures ParseClient(Dict(d), keys, gen) == Failure(MissingKey("name"))
  {
    CheckKeysFirstMissing(d, ClientMustHave, 0);
  }

  /** The transport is matched without regard to case. */
  lemma ProtoCaseInsensitive(text: string)
    ensures ParseProto(Lower(text)) == ParseProto(text)
  {
    LowerIdempotent(text);
  }

  /** The same record with its MTU replaced by another integer. */
  lemma ReadsAsWithMtu(d: seq<(string, Value)>, keys: KeyProvider, gen: nat, s: ServerConfig, generated: nat, m: int)
    requires ReadsAs(d, keys, gen, s, generated)
    ensures ReadsAs(d + [("mtu", Int(m))], keys, gen, s.(mtu := m), generated)
  {
    AppendKeepsOthers(d, "mtu", Int(m));
  }

  /** The same record with its network replaced by one that converts to `n`. */
  lemma ReadsAsWithNet(d: seq<(string, Value)>, keys: KeyProvider, gen: nat, s: ServerConfig, generated: nat,
                       v: Value, n: Network)
    requires ReadsAs(d, keys, gen, s, generated)
    requires NetworkValue(v) == Some(n)
    ensures ReadsAs(d + [("net", v)], keys, gen, s.(net := n), generated)
  {
    AppendKeepsOthers(d, "net", v);
  }

  /** Writing `key: v` after a server record holding every required key:
      the six keys stay present and the three identity keys read as before. */
  lemma AppendKeepsOthers(d: seq<(string, Value)>, key: string, v: Value)
    requires key == "mtu" || key == "net"
    requires HasKey(d, "name") && HasKey(d, "proto") && HasKey(d, "ip")
    requires HasKey(d, "port") && HasKey(d, "net") && HasKey(d, "mtu")
    ensures var e := d + [(key, v)];
      && Get(e, "name") == Get(d, "name") && Get(e, "proto") == Get(d, "proto") && Get(e, "priv") == Get(d, "priv")
      && Get(e, "ip") == Get(d, "ip") && Get(e, "port") == Get(d, "port")
      && Get(e, key) == Some(v)
      && (key == "mtu" ==> Get(e, "net") == Get(d, "net"))
      && (key == "net" ==> Get(e, "mtu") == Get(d, "mtu"))
  {
    GetAfterAppend(d, key, v, "name");
    GetAfterAppend(d, key, v, "proto");
    GetAfterAppend(d, key, v, "priv");
    GetAfterAppend(d, key, v, "ip");
    GetAfterAppend(d, key, v, "port");
    GetAfterAppend(d, key, v, if key == "mtu" then "net" else "mtu");
  }

  /** An accepted server given another integer MTU is accepted exactly when
      that MTU is within its transport's ceiling, and then differs only in
      its MTU. */
  lemma MtuOverride(d: seq<(string, Value)>, keys: KeyProvider, gen: nat, m: int)
    requires ParseServer(Dict(d), keys, gen).Success?
    ensures var (s, generated) := ParseServer(Dict(d), keys, gen).value;
      ParseServer(Dict(d + [("mtu", Int(m))]), keys, gen)
        == if m <= MtuCeiling(s.proto) then Success((s.(mtu := m), generated))
           else Failure(MtuTooLarge(MtuCeiling(s.proto)))
  {
    var (s, generated) := ParseServer(Dict(d), keys, gen).value;
    ReadsAsWithMtu(d, keys, gen, s, generated, m);
    ServerAccepted(d + [("mtu", Int(m))], keys, gen, s.(mtu := m), generated);
  }

  /** The MTU ceilings are inclusive: 1460 for udp and 1340 for tcp is
      accepted, one byte more is refused. */
  lemma MtuCeilingInclusive(d: seq<(string, Value)>, keys: KeyProvider, gen: nat)
    requires ParseServer(Dict(d), keys, gen).Success?
    ensures var (s, generated) := ParseServer(Dict(d), keys, gen).value;
      var c := if s.proto == Udp then 1460 else 1340;
      && ParseServer(Dict(d + [("mtu", Int(c))]), keys, gen) == Success((s.(mtu := c), generated))
      && ParseServer(Dict(d + [("mtu", Int(c + 1))]), keys, gen) == Failure(MtuTooLarge(c))
  {
    var s := ParseServer(Dict(d), keys, gen).value.0;
    var c := if s.proto == Udp then 1460 else 1340;
    MtuOverride(d, keys, gen, c);
    MtuOverride(d, keys, gen, c + 1);
  }

  /** An accepted server given another network is accepted exactly when that
      network is not a /32, and then differs only in its network. */
  lemma NetOverride(d: seq<(string, Value)>, keys: KeyProvider, gen: nat, v: Value, n: Network)
    requires ParseServer(Dict(d), keys, gen).Success?
    requires NetworkValue(v) == Some(n)
    ensures var (s, generated) := ParseServer(Dict(d), keys, gen).value;
      ParseServer(Dict(d + [("net", v)]), keys, gen)
        == if n.prefix == 32 then Failure(HostNetwork) else Success((s.(net := n), generated))
  {
    var (s, generated) := ParseServer(Dict(d), keys, gen).value;
    ReadsAsWithNet(d, keys, gen, s, generated, v, n);
    ServerAccepted(d + [("net", v)], keys, gen, s.(net := n), generated);
  }

  /** A single-host network is refused, whether written `<address>/32` or
      given as a bare integer address. */
  lemma HostNetworkRejected(d: seq<(string, Value)>, keys: KeyProvider, gen: nat, a: Addr)
    requires ParseServer(Dict(d), keys, gen).Success?
    ensures ParseServer(Dict(d + [("net", Str(NetworkText(Network(a, 32))))]), keys, gen) == Failure(HostNetwork)
    ensures ParseServer(Dict(d + [("net", Int(a))]), keys, gen) == Failure(HostNetwork)
  {
    HostNetworkText(a);
    NetOverride(d, keys, gen, Str(NetworkText(Network(a, 32))), Network(a, 32));
    NetOverride(d, keys, gen, Int(a), Network(a, 32));
  }

  /** `<address>/32` reads back as the single-host network of that address. */
  lemma HostNetworkText(a: Addr)
    ensures NetworkValue(Str(NetworkText(Network(a, 32)))) == Some(Network(a, 32))
  {
    assert BlockSize(32) == 1;
    NetworkTextRoundTrip(Network(a, 32));
  }

  /** Records are resolved in order: every accepted list has one result per
      record, and the i-th result is the i-th record resolved after those
      before it. */
  lemma {:induction false} ParseEachInOrder<T>(records: seq<Value>, keys: KeyProvider, gen: nat,
                                               parse: (Value, KeyProvider, nat) -> Result<(T, nat), ConfigError>, i: nat)
    requires ParseEach(records, keys, gen, parse).Success?
    requires i < |records|
    ensures var all := ParseEach(records, keys, gen, parse).value.0;
      && |all| == |records|
      && ParseEach(records[..i], keys, gen, parse).Success?
      && ParseEach(records[..i], keys, gen, parse).value.0 == all[..i]
      && ParseEach(records[..i + 1], keys, gen, parse).Success?
      && parse(records[i], keys, ParseEach(records[..i], keys, gen, parse).value.1) == Success((all[i], ParseEach(records[..i + 1], keys, gen, parse).value.1))
    decreases |records|
  {
    var n := |records|;
    var front := records[..n - 1];
    var all := ParseEach(records, keys, gen, parse).value.0;
    var before := ParseEach(front, keys, gen, parse).value;
    if i < n - 1 {
      ParseEachInOrder(front, keys, gen, parse, i);
      assert front[..i] == records[..i];
      assert front[..i + 1] == records[..i + 1];
    } else {
      assert records[..i] == front;
      assert records[..i + 1] == records;
      if n - 1 > 0 {
        ParseEachInOrder(front, keys, gen, parse, n - 2);
      }
    }
  }

  /** A null `priv` is read as the text "None" by the code as written, where
      a fresh key is evidently meant. */
  lemma NullKeyAsWritten(d: seq<(string, Value)>, keys: KeyProvider, gen: nat)
    requires Get(d, "priv") == Some(Null)
    ensures ResolvePrivAsWritten(d, keys, gen) == Success(("None", gen))
    ensures ResolvePriv(d, keys, gen) == Success((keys.genkey(gen), gen + 1))
  {
  }

  /** A bool `tcp` or `bind` flag passes the check as written but its value
      is never stored. */
  lemma BoolFlagAsWritten(d: seq<(string, Value)>, key: string, b: bool)
    requires Get(d, key) == Some(Bool(b))
    ensures FlagAsWritten(d, key) == Success(None)
    ensures Flag(d, key) == Success(b)
  {
  }

  /** A configuration whose servers all use udp (none at all included) stops
      at the unbound `need_udp2raw` as written; the corrected test reads
      "no udp2raw needed", so `ParseDocument` loads it without a udp2raw section. */
  lemma UdpOnlyConfigAsWritten(servers: seq<ServerConfig>)
    requires forall i :: 0 <= i < |servers| ==> servers[i].proto == Udp
    ensures Udp2rawNeededAsWritten(servers) == Failure(UnboundName("need_udp2raw"))
    ensures !NeedUdp2raw(servers)
  {
  }
}
