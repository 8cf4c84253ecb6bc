# genwg, modelled in Dafny

genwg reads a YAML file that describes WireGuard servers and their clients.
It checks and completes the file (`ConfigYAML.parse_yaml`). Missing private
keys are generated, the transport is normalised, networks and MTUs are
checked, and a udp2raw section is required when a server runs over tcp.
From that configuration `GenFiles` writes:

- one WireGuard config per client of each server;
- one server config holding one `[Peer]` block per client it serves;
- optionally BIND forward and reverse zones and a `genwg.conf` of zone stanzas;
- a YAML dump of the state it ran with (`_save_yaml`), meant to be read back.

The model keeps the shape of the Python code:

- `Config.ConfigYaml` is a class whose methods append to its `servers` and
  `clients` lists, as `parse_yaml` does. Its loops are proved against the
  specification functions of `ConfigRules` (`ParseServer`, `ParseClient`,
  `ParseEach`, `ParseDocument`).
- `Generator.GenFiles` is a class over the same state as `GenFiles`. Its
  methods `CreateClient`, `CreateServer`, `CreateServers` and `SaveYaml` are
  proved against the functions of `ClientFiles`, `ServerFiles` and
  `StateDump`: `ClientConf`, `ServerRun`, `RunServers` and `Dump`.
- `HostBits` models `_get_host_bits` as written (`HostBitsAsWritten`) and a
  corrected form (`HostLabel`); the generator's PTR owners use the corrected form.
- `IPv4`, `Text` and `Yaml` model the pieces of Python and its libraries the
  core relies on: `ipaddress` for IPv4, `int`/`str`/`split`/`lower`, and a
  parsed YAML document as a tree of values.

Where the code as written loses information (a null private key, a bool
flag, an interior zero host octet, a udp2raw flag that is never bound), the
parser and generator of the model follow the corrected rule, and a
separate as-written member exhibits the difference (see "## Findings").

Generated files are modelled as lists of lines: a config is a sequence of
`key = value` settings and section headers, and a zone is a sequence of
records. Errors the program logs, and after which it exits, are `Failure`
values naming the broken rule.

## Model

| member | source | states |
|---|---|---|
| Config.ConfigYaml.constructor | genwg/config.py:37-44 | A new configuration holds no servers, no clients and no udp2raw section. |
| Config.ConfigYaml.ParseYaml | genwg/config.py:46-189 | On a document that breaks a rule, the result is the first rule broken. Otherwise the servers and clients read are appended, in order, to those already held, and udp2raw is replaced when the document needs it. |
| Config.ConfigYaml.AddServers | genwg/config.py:68-119 | Each server record is resolved in order and appended. The first record that fails stops the loop with its error, and nothing else changes. |
| Config.ConfigYaml.AddClients | genwg/config.py:128-160 | The same for client records. |
| Config.ResolveAll | genwg/config.py:68-160 | The record loop computes exactly the ordered list `ParseEach` defines, including where it stops. |
| Config.AnyTcp | genwg/config.py:162-166 | The early-exit search finds a server exactly when some server uses tcp. |
| ConfigRules.CheckKeys | genwg/config.py:66-71 | The key check passes iff every required key is present. On failure it names a required key that is missing. |
| ConfigProps.CheckKeysFirstMissing | genwg/config.py:66-71 | The key reported is the first missing one in list order. |
| ConfigProps.ServerFirstMissingKey | genwg/config.py:66-71 | A server record missing a required key is refused with the first missing one, before any other rule runs. |
| ConfigProps.ClientNameRequired | genwg/config.py:128-133 | A client record without `name` is refused. |
| ConfigRules.ParseServer | genwg/config.py:68-119 | An accepted server reads field by field from its record. Its network is not a /32 and its MTU is within the ceiling of its transport. Its private key comes from the corrected `ResolvePriv`, so a null key is generated. |
| ConfigRules.ServerAccepted | genwg/config.py:105-119 | Conversely, a record that reads as `s` is refused for a /32 network, then for an MTU over the ceiling, and is otherwise accepted as `s`. |
| ConfigRules.PartsReadAs | genwg/config.py:74-117 | A record whose identity part and addressing part both resolve reads as the server built from them, and passes the /32 and MTU rules. |
| ConfigRules.IdentityFields | genwg/config.py:74-88 | The resolved name and proto are the record's fields, and the private key is the one resolved for it. |
| ConfigRules.AddressingFields | genwg/config.py:90-117 | The resolved ip, port, net and mtu are conversions of the record's fields, and pass the /32 and MTU rules. |
| ConfigRules.AddressingOf | genwg/config.py:90-117 | Fields that convert to given values are refused for a /32 network, then for an MTU over the ceiling, and otherwise accepted unchanged. |
| ConfigProps.ProtoCaseInsensitive | genwg/config.py:76-78 | The transport is matched without regard to case. |
| ConfigProps.MtuOverride | genwg/config.py:108-117 | Giving an accepted server another integer MTU accepts it with only the MTU changed, iff the MTU is at most the ceiling. |
| ConfigProps.MtuCeilingInclusive | genwg/config.py:113-117 | The ceilings are inclusive: 1460 for udp and 1340 for tcp are accepted, and one more is refused. |
| ConfigProps.NetOverride | genwg/config.py:100-106 | Giving an accepted server another network accepts it with only the network changed, iff that network is not a /32. |
| ConfigProps.HostNetworkRejected | genwg/config.py:100-106 | A single-host network is refused, whether written `<address>/32` or as a bare integer. |
| ConfigProps.HostNetworkText | genwg/config.py:100-103 | `<address>/32` reads as the single-host network of that address. |
| ConfigProps.ReadsAsWithMtu | genwg/config.py:108-111 | A record that reads as `s`, with an integer `mtu` written after it, reads as `s` with that MTU. |
| ConfigProps.ReadsAsWithNet | genwg/config.py:100-103 | The same for a network. |
| ConfigProps.AppendKeepsOthers | genwg/config.py:66-111 | Writing `mtu` or `net` again leaves the other required keys present and the identity keys reading as before. |
| ConfigRules.ParseClient | genwg/config.py:128-160 | An accepted client reads from its record: a name, a kept or generated key (the corrected `ResolvePriv`), and flags that default to false and keep a bool's value (the corrected `Flag`). |
| ConfigRules.ClientAccepted | genwg/config.py:128-160 | Conversely, a record that reads as `c` is accepted as `c`. |
| ConfigRules.ParseEachStopsAtFailure | genwg/config.py:68-160 | Once a prefix of the records fails, the whole list fails with the same error. |
| ConfigRules.ParseEachExtend | genwg/config.py:68-160 | One more record either fails the whole list with its own error, or extends the parsed prefix by its result. |
| ConfigRules.ParseEachSnoc | genwg/config.py:68-160 | A parsed prefix followed by a record that parses gives the prefix's results plus that record's. |
| ConfigProps.ParseEachInOrder | genwg/config.py:119 | Order is kept: the i-th result is the i-th record resolved after the records before it, and there is one result per record. |
| ConfigRules.ParseUdp2raw | genwg/config.py:168-189 | A missing section, a section that is not a mapping, and a mapping without `port` are each refused with their own error. A port that `int()` refuses is the port error. Otherwise the result is `int(udp2raw["port"])` with no secret. |
| ConfigRules.ParseDocument | genwg/config.py:46-189 | A udp2raw section is read iff some server, earlier or new, uses tcp. What is read comes from the document's `udp2raw` mapping. |
| ConfigProps.NullKeyAsWritten | genwg/config.py:80-86 | A null `priv` is kept as the text "None" by the code as written. The corrected rule generates a fresh key for it. |
| ConfigProps.BoolFlagAsWritten | genwg/config.py:148-158 | A bool `tcp`/`bind` flag is checked but never stored by the code as written. The corrected rule keeps its value. |
| HostBits.HostOctetsBelow | genwg/genfiles.py:24-33 | Each host octet is `ip & (255 - mask)`: the address octet less its network part. |
| HostBits.OctetSplit | genwg/genfiles.py:30-33 | An octet is its network part plus its host part. |
| HostBits.HostOctetsOf16 | genwg/genfiles.py:24-33 | Under a /16 the host octets are `0, 0` and the last two octets of the address. |
| HostBits.NonZeroDropsEveryZero | genwg/genfiles.py:35 | The join drops every zero octet, wherever it stands, and keeps every other one. |
| HostBits.HostBitsCollide | genwg/genfiles.py:24-35 | As written, 10.0.0.1 and 10.0.1.0 in 10.0.0.0/16 get the same label, "1". |
| HostBits.DropLeadingZeros | genwg/genfiles.py:35 | The corrected rendering drops only the zero octets in front of the first non-zero one. |
| HostBits.HostLabelInjective | genwg/genfiles.py:24-35 | Under the corrected rendering, two addresses of one network with the same label are the same address. |
| IPv4.AddrTextRoundTrip | genwg/genfiles.py:27 | `ip_address(str(a)) == a`. |
| IPv4.ParseDottedDecimal | genwg/config.py:90-93 | Four octets written in decimal and joined by dots read back as the address of those octets. |
| IPv4.ParseNetwork | genwg/config.py:100-103 | `ip_network(s, strict=False)` yields a prefix of at most 32 and a base with its host bits cleared. |
| IPv4.HostBitsAccepted | genwg/config.py:100-103 | With `strict=False`, `<address>/<prefix>` with host bits set is accepted, as the network of that address with its host bits cleared. |
| IPv4.NetworkTextRoundTrip | genwg/genfiles.py:254-265 | A dumped network reads back as the same network. |
| IPv4.Add | genwg/genfiles.py:203 | `address + n` is defined iff the result stays below 2^32, and is then the sum. |
| Text.IntTextRoundTrip | genwg/config.py:95-98 | `int(str(i)) == i`. |
| Text.DecimalRoundTrip | genwg/genfiles.py:35 | Reading back the decimal text of a number gives the number. |
| Text.SplitJoin | genwg/genfiles.py:27-28 | Splitting undoes joining when no part holds the separator. |
| Text.Lower | genwg/config.py:76 | `lower()` on ASCII: each of A-Z becomes its lower-case letter, every other character is kept, and the length is kept. |
| Yaml.Get | genwg/config.py:66-160 | A lookup succeeds iff the key is present. |
| Yaml.GetLastOccurrence | genwg/config.py:66-160 | A present key gives the value of an entry with that key after which no entry has it: the last entry wins, as when PyYAML builds the dict. |
| Yaml.GetAfterAppend | genwg/config.py:66-160 | A value written at the end of a mapping is what a lookup of its key gives, and other keys are unaffected. |
| Yaml.Iterate | genwg/config.py:61-64 | `for x in v` fails exactly on null, bool and int. It visits the items of a list, each key of a mapping in order (a duplicate key once per entry), or each character of a string as a one-character string. |
| Artifacts.StripArpa | genwg/genfiles.py:163 | One `.in-addr.arpa` is removed at the end of the name, or before a final newline, and nothing else changes. |
| Artifacts.TunnelSettings | genwg/genfiles.py:107-113 | The udp2raw port and secret are available iff the section exists and has a secret. Without a section the attribute error names `udp2raw.port`; with a section but no secret it names `udp2raw.secret`. |
| ClientFiles.ClientConf | genwg/genfiles.py:68-136 | Making a client config fails iff the DNS address overflows, a bind client has no root zone file, or a tunnelled client has no udp2raw port and secret. |
| ClientFiles.ClientConfSettings | genwg/genfiles.py:77-129 | Every key of a client config carries exactly the values of its head, its resolver lines, its tunnel hooks and its peer. |
| ClientFiles.ClientConfInterface | genwg/genfiles.py:77-85 | A client config sets its address as a /32, its own private key and the server's MTU. |
| ClientFiles.ClientConfResolver | genwg/genfiles.py:87-100 | A bind client gets forwarder hooks pointing at the network's first address and no DNS line. Any other client gets `DNS = net + 1`. |
| ClientFiles.ClientConfTunnel | genwg/genfiles.py:102-115 | A client tunnelled over tcp gets the route and udp2raw hooks. No other client does. |
| ClientFiles.ClientConfPeer | genwg/genfiles.py:117-129 | The peer is the server's public key with all traffic allowed. Over tcp it uses endpoint 127.0.0.1:50001 and keepalive 120; over udp it uses the server's ip:port and keepalive 25. |
| ServerFiles.IncludedClients | genwg/genfiles.py:199-201 | The clients a server serves are exactly those of the client list it does not skip, and no more of them than the list holds. |
| ServerFiles.IncludedClientsAppend | genwg/genfiles.py:199-201 | Client-list order is kept: the clients served from two lists joined are those of the first, then those of the second. |
| ServerFiles.IncludedClientsSingle | genwg/genfiles.py:199-201 | A single client is served iff it is not skipped. |
| ServerFiles.WalkSkipsExcluded | genwg/genfiles.py:199-201 | A tcp server skips clients without tcp: walking all clients is walking only the included ones. |
| ServerFiles.Allocated | genwg/genfiles.py:203 | The addresses handed out after `start` are start + 1, start + 2, and so on. |
| ServerFiles.WalkAllocates | genwg/genfiles.py:199-219 | The k-th included client gets address `last_ip + 1 + k`, and its config is the k-th file written. |
| ServerFiles.WalkPeers | genwg/genfiles.py:199-219 | The server config grows by exactly one `[Peer]` block per included client, in order, at that client's address. |
| ServerFiles.PeerBlocksLayout | genwg/genfiles.py:216-219 | The `[Peer]` blocks are five lines each, the k-th one for the k-th client. |
| ServerFiles.PeerBlockValues | genwg/genfiles.py:216-219 | A `[Peer]` block allows exactly the client's /32 and carries its public key. |
| ServerFiles.WalkAZone | genwg/genfiles.py:205-207 | With bind, the forward zone gains one A record per included client, in order. Without bind it is untouched. |
| ServerFiles.WalkPtrZone | genwg/genfiles.py:208-210 | With bind, the reverse zone gains one PTR record per included client, in order, owned by its host label (the corrected `HostLabel`). Without bind it is untouched. |
| ServerFiles.WalkStopsAtFailure | genwg/genfiles.py:199-219 | Once a client fails, the whole walk fails with the same error. |
| ServerFiles.WalkExtend | genwg/genfiles.py:199-219 | One more client extends the walk by one step, and a failing step ends it. |
| ServerFiles.ServerStartValues | genwg/genfiles.py:181-196 | That head sets the server's address with its network prefix, and allows no peer. |
| ServerFiles.ServerRunFiles | genwg/genfiles.py:139-246 | A server's run writes the included clients' configs in order, then its own config with their `[Peer]` blocks, then, with bind, three zone files. |
| ServerFiles.ServerRunClientFile | genwg/genfiles.py:199-221 | The k-th file of a server's run is the config of its k-th included client at its allocated address. |
| ServerFiles.ServerRunZones | genwg/genfiles.py:147-178 | With bind, a run adds two zone stanzas, writes genwg.conf, and writes forward and reverse zones holding one record per client. Without bind it writes no zone. |
| ServerFiles.ServerRunAgreement | genwg/genfiles.py:199-219 | A client's `Address` equals the `AllowedIPs` of its `[Peer]` block on the server, and that address is above the server's. |
| ServerFiles.ServerRunDistinctAddresses | genwg/genfiles.py:203 | No two clients of one server get the same address. |
| ServerFiles.ServerRunAdvances | genwg/genfiles.py:203 | After a run, the server's `last_ip` has moved on by the number of clients it served. |
| ServerFiles.RunServersAdvance | genwg/genfiles.py:139-246 | Running every server advances each one's `last_ip` by its own client count. |
| ServerFiles.RunServersNamed | genwg/genfiles.py:165-178 | With bind, genwg.conf ends up with two stanzas per server, its forward and reverse zone, in server order. Without bind it stays empty. |
| ServerFiles.RunServersStopsAtFailure | genwg/genfiles.py:139-246 | Once a server fails, the whole run fails with its error. |
| ServerFiles.RunServersStep | genwg/genfiles.py:139-246 | One more server extends the run by what that server emits. |
| StateDump.ServerEntries | genwg/genfiles.py:254-265 | The `servers` list has one mapping per server, in order. |
| StateDump.ClientEntries | genwg/genfiles.py:268-277 | The `clients` list has one mapping per client, in order. |
| StateDump.DumpSections | genwg/genfiles.py:251-308 | The dump holds the servers and clients. It holds `udp2raw` iff a secret is set and `bind` iff any bind attribute is set, and both of those are lists. |
| StateDump.ClientEntryFlags | genwg/genfiles.py:268-277 | A flag is written iff it is set, and reads back as it was. |
| StateDump.ServerEntryReloads | genwg/genfiles.py:254-265 | A dumped server reads back as itself, drawing no generated key. |
| StateDump.ParsedServerReloadable | genwg/config.py:68-119 | Every server the parser accepts can be dumped and read back unchanged. |
| StateDump.ClientEntryReloads | genwg/genfiles.py:268-277 | A dumped client reads back as itself, with the public key derived again. |
| StateDump.ServersReload | genwg/genfiles.py:254-265 | The whole `servers` list reads back in order. |
| StateDump.ClientsReload | genwg/genfiles.py:268-277 | The whole `clients` list reads back in order. |
| StateDump.DocumentParses | genwg/config.py:46-189 | A document whose servers and clients parse loads as them when no server uses tcp, and fails with the udp2raw error otherwise. |
| StateDump.DumpReloads | genwg/genfiles.py:248-317 | Without a tcp server, the dump reads back as the same servers and clients. |
| StateDump.DumpUdp2rawUnreadable | genwg/genfiles.py:280-285 | The udp2raw section of a dump is a list, which `parse_yaml` never accepts. |
| StateDump.DumpWithTcpServerDoesNotReload | genwg/genfiles.py:280-285 | So a dump with a tcp server does not read back. |
| HostBits.HostBitsAsWritten | genwg/genfiles.py:24-35 | The label as written is empty iff every host octet is zero, and no dot-separated part of it is "0". |
| HostBits.HostLabel | genwg/genfiles.py:24-35 | The corrected label is empty iff every host octet is zero, and otherwise does not start with a "0" part. |
| ConfigRules.ResolvePriv | genwg/config.py:80-86 | A missing or null `priv` draws the next generated key. Any other value is kept as its text, and a value with no text is refused. |
| ConfigRules.ResolvePrivAsWritten | genwg/config.py:80-86 | As written, only a missing `priv` draws a generated key; a null one is kept as text. |
| ConfigRules.Flag | genwg/config.py:148-158 | A flag is accepted iff it is absent or a bool, and is then true iff it is written `true`. Anything else is refused naming the flag. |
| ConfigRules.FlagAsWritten | genwg/config.py:148-158 | As written, a flag is accepted iff absent or a bool, and is never stored as true; a bool yields nothing. |
| ConfigRules.ParseProto | genwg/config.py:76-78 | The transport is accepted iff its lower-cased text is `tcp` or `udp`, and is tcp exactly for `tcp`. Otherwise it is the transport error. |
| ConfigRules.ParseEach | genwg/config.py:68-160 | A list of records that parses yields one result per record. |
| ConfigRules.Udp2rawNeededAsWritten | genwg/config.py:162-168 | As written, `need_udp2raw` is bound, and then true, iff some server uses tcp. Otherwise reading it is an unbound-name error. |
| ConfigProps.UdpOnlyConfigAsWritten | genwg/config.py:162-168 | With every server on udp (or none), the code as written reads an unbound `need_udp2raw`. |
| ServerFiles.ServerStart | genwg/genfiles.py:147-196 | Setting a server up fails iff bind is wanted without a hostname or `named_conf_path`, or the server is tcp and the tunnel settings are missing. On success no file is written yet, `last_ip` is the server's, and there are two stanzas with bind and none without. |
| ServerFiles.ClientStep | genwg/genfiles.py:199-219 | A skipped client changes nothing. An included client that succeeds moves `last_ip` on by one and writes one more file. |
| ServerFiles.WalkClients | genwg/genfiles.py:199-219 | The client loop of one server as a definition: each client in list order, stopping at the first failure. Its properties are the Walk lemmas. |
| ServerFiles.ServerRun | genwg/genfiles.py:139-246 | A server's run succeeds only after its setup does, and changes nothing of the server but its `last_ip`. |
| ServerFiles.RunServers | genwg/genfiles.py:139-246 | A successful pass returns one advanced server per server given. |
| StateDump.Dump | genwg/genfiles.py:248-317 | The dumped document as a definition. Its sections are stated by `DumpSections`, and its reading back by `DumpReloads`. |
| StateDump.ServerEntry | genwg/genfiles.py:254-265 | One server's mapping as a definition. Its reading back is `ServerEntryReloads`. |
| StateDump.ClientEntry | genwg/genfiles.py:268-277 | One client's mapping as a definition. Its flags are `ClientEntryFlags`, its reading back `ClientEntryReloads`. |
| StateDump.GetAt | genwg/config.py:66-160 | An entry with no later entry of the same key is what a lookup of that key gives. |
| Generator.GenFiles.constructor | genwg/genfiles.py:12-20 | The generator holds the settings it is given. |
| Generator.GenFiles.CreateClient | genwg/genfiles.py:68-136 | The client config built step by step is `ClientConf` at the server's current `last_ip`. |
| Generator.GenFiles.BeginServer | genwg/genfiles.py:147-196 | The zones, stanzas and server head built before the client loop are `ServerStart`. |
| Generator.GenFiles.AddClientConfig | genwg/genfiles.py:199-219 | One iteration of the client loop is `ClientStep`. |
| Generator.GenFiles.AddClientConfigs | genwg/genfiles.py:199-219 | The client loop is the walk `WalkClients` over every client in order. |
| Generator.GenFiles.CreateServer | genwg/genfiles.py:139-246 | One server's pass is `ServerRun`. |
| Generator.GenFiles.CreateServers | genwg/genfiles.py:139-246 | The pass over all servers succeeds iff `RunServers` does. It returns the same files and stores the advanced servers, and leaves every other attribute unchanged. |
| Generator.GenFiles.ServerList | genwg/genfiles.py:254-265 | The `servers` list built by the loop is `ServerEntries`. |
| Generator.GenFiles.ClientList | genwg/genfiles.py:268-277 | The `clients` list built by the loop is `ClientEntries`. |
| Generator.GenFiles.BindEntries | genwg/genfiles.py:288-308 | The bind attributes found set are `BindSettings`. |
| Generator.GenFiles.SaveYaml | genwg/genfiles.py:248-317 | The document dumped is `Dump` of the generator's state. |

## Left out

- File writes, directory creation (`_create_dirs`), `run`, the command line and `dnsops` are not part of this model. Generated files are returned as values: a config is a list of settings, not rendered text.
- Loading and dumping YAML text is left out. A document is a tree of values, and the dump's timestamped file name is not modelled.
- Key generation (`gen_wg_priv`, `gen_wg_pub` in util.py) is a parameter: a `KeyProvider` of two functions. The n-th generated key is `genkey(n)`.
- The logger is left out. Every `logger.error` ends the program, so it is a `Failure` naming the rule.
- IPv6 networks and addresses are not modelled.
- `android`: nothing in `parse_yaml` sets it, yet `_create_client` reads `client.android` (genwg/genfiles.py:74, 102), which as given raises AttributeError for every client. The model takes it to be set to false by glue outside the model.
- The udp2raw `secret`: nothing in `parse_yaml` sets it, so the model leaves it unset. The tunnel hooks then fail with the attribute error.
- Config.ConfigYaml.AddServers: appends the records once the whole loop has succeeded rather than one by one. The two differ only on failure, where the program exits.
- Generator.GenFiles.CreateServers: stores the advanced servers back only when every server succeeded. On failure the program exits.
- The PTR owner is modelled as a host-bits label. The textual layout of zone records, the SOA timers and the octet order inside a label are not rendered.
- `ConfigYAML` and `GenFiles` are modelled as two classes. The command line that copies one's state into the other is left out.
- The parser and generator follow the corrected rules: a null `priv` is generated, a bool `tcp`/`bind` flag is stored, a PTR owner keeps interior zero host octets, and `need_udp2raw` is false when no server uses tcp. The as-written behaviour is stated only by the as-written members under "## Findings".
- `KeyProvider.pubkey` stands for the intended key derivation, the WireGuard public key of a private key. As given, `gen_wg_pub` (genwg/util.py) cannot run: util.py does not import `subprocess`, and it passes a str as `input` without `text=True`. It would also receive the text `b'<priv>'` plus a newline (genwg/config.py:88, 146). None of this is modelled.
- `last_ip`, `pfx` and `arpa_ptr` are never set by `parse_yaml` (genwg/genfiles.py:83, 163, 186 read them). `GenServer.lastIp` and `GenServer.arpaPtr` are inputs of the generator, and nothing ties `lastIp` to the network's first address.
- `net` and `pfx`: `parse_yaml` stores `net` as a network (genwg/config.py:101), while the generator uses `server.net + 1` as an address (genwg/genfiles.py:90, 100) and dumps `f"{str(server.net)}/{server.pfx}"` (genwg/genfiles.py:261), which on a network object would raise TypeError or write the prefix twice. The model takes `server.net` to be the network's address and `server.pfx` its prefix length, both set by glue outside the model; `ClientConf` reads `net.base + 1`, `StateDump.ServerEntry` writes `NetworkText(net)`, and `DumpReloads` rests on that reading.
- Text.Lower: lowers only A-Z. Python's `lower()` also lowers every other cased character and can lengthen a string ("İ" becomes two characters). Only the Kelvin sign and "İ" lower to ASCII letters in Python ("k" and "i" plus a combining dot), and neither letter occurs in `tcp` or `udp`, so the transport decision is the same.
- Yaml.Value has no float or date values, so a document such as `mtu: 1420.0` or a date-like name is not modelled.
- Yaml.PyStr: `str()` of a list or mapping gives no text, so a record holding one there is refused, where Python renders it as text.
- Text.ParseInt: covers only the ASCII subset of `int()`. Underscores (`1_000`), non-ASCII digits and Unicode white space are refused, where Python accepts them.
- ServerFiles.WalkClients and StateDump.Dump, ServerEntry and ClientEntry carry no contract of their own; what they compute is stated by the lemmas about them.
- StateDump.Dump: the udp2raw section is kept as a list, as written. No corrected dump is modelled, so `DumpWithTcpServerDoesNotReload` states the program's behaviour.

## Findings

| source | as written | input that shows it | evidently intended | confidence | as-written member | corrected member |
|---|---|---|---|---|---|---|
| genwg/config.py:80-86 | `str(server["priv"])` turns a null key into the text "None", and the `is None` test after it never holds | a server record with `priv:` left empty | a null key is generated like a missing one | not executed | ConfigProps.NullKeyAsWritten | ConfigRules.ResolvePriv |
| genwg/config.py:148-158 | a bool `tcp`/`bind` is checked but never assigned to the client | a client record with `tcp: true` | the flag's value is stored | not executed | ConfigProps.BoolFlagAsWritten | ConfigRules.Flag |
| genwg/config.py:162-168 | `need_udp2raw` is assigned only inside the loop, when a tcp server is found | a configuration whose servers all use udp, or that has no servers | no udp2raw section is needed and parsing goes on | not executed | ConfigProps.UdpOnlyConfigAsWritten | ConfigRules.ParseDocument |
| genwg/genfiles.py:24-35 | every zero octet of the host bits is dropped, wherever it stands | 10.0.0.1 and 10.0.1.0 in 10.0.0.0/16 both become "1" | only leading zero octets are dropped, so the PTR owner names one address | not executed | HostBits.HostBitsCollide | HostBits.HostLabel |
