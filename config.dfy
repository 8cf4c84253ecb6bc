/** `ConfigYAML` (genwg/config.py:36-189): the object that walks the parsed
    document and appends what it resolves to its own lists. */
module Config {
  import opened Wrappers
  import opened Yaml
  import opened Records
  import opened ConfigRules

  class ConfigYaml {
    var servers: seq<ServerConfig>
    var clients: seq<ClientConfig>
    var udp2raw: Option<Udp2rawConfig>
    /** How many keys have been drawn from the key generator so far. */
    var generated: nat

    constructor ()
      ensures servers == [] && clients == [] && udp2raw == None && generated == 0
    {
      servers := [];
      clients := [];
      udp2raw := None;
      generated := 0;
    }

    /** `parse_yaml` over an already loaded document. On success the servers
        and clients of the document are appended in order and the udp2raw
        settings are set exactly when some server uses tcp; on failure the
        first broken rule is reported (the source exits there). */
    method ParseYaml(doc: Value, keys: KeyProvider) returns (outcome: Outcome<ConfigError>)
      modifies this
      ensures ParseDocument(doc, keys, old(generated), old(servers)).Failure? ==>
                outcome == Fail(ParseDocument(doc, keys, old(generated), old(servers)).error)
      ensures ParseDocument(doc, keys, old(generated), old(servers)).Success? ==>
                var loaded := ParseDocument(doc, keys, old(generated), old(servers)).value;
                && outcome == Pass
                && servers == old(servers) + loaded.servers
                && clients == old(clients) + loaded.clients
                && udp2raw == (if loaded.udp2raw.Some? then loaded.udp2raw else old(udp2raw))
                && generated == loaded.generated
    {
      if !doc.Dict? {
        return Fail(NotAMapping("document"));
      }
      var serverSection := Section(doc.entries, "servers");
      if serverSection.Failure? {
        return Fail(serverSection.error);
      }
      var serverElements := Elements(serverSection.value, "servers");
      if serverElements.Failure? {
        return Fail(serverElements.error);
      }
      var added := AddServers(serverElements.value, keys);
      if added.Fail? {
        return added;
      }

      var clientSection := Section(doc.entries, "clients");
      if clientSection.Failure? {
        return Fail(clientSection.error);
      }
      var clientElements := Elements(clientSection.value, "clients");
      if clientElements.Failure? {
        return Fail(clientElements.error);
      }
      added := AddClients(clientElements.value, keys);
      if added.Fail? {
        return added;
      }

      var needUdp2raw := AnyTcp(servers);
      if needUdp2raw {
        var parsed := ParseUdp2raw(doc.entries);
        if parsed.Failure? {
          return Fail(parsed.error);
        }
        udp2raw := Some(parsed.value);
      }
      return Pass;
    }

    /** The server loop of genwg/config.py:68-119: the records are resolved
        in order and appended; the first record that fails stops the loop. */
    method AddServers(records: seq<Value>, keys: KeyProvider) returns (outcome: Outcome<ConfigError>)
      modifies this
      ensures ParseEach(records, keys, old(generated), ParseServer).Failure? ==>
                outcome == Fail(ParseEach(records, keys, old(generated), ParseServer).error)
      ensures ParseEach(records, keys, old(generated), ParseServer).Success? ==>
                && outcome == Pass
                && servers == old(servers) + ParseEach(records, keys, old(generated), ParseServer).value.0
                && generated == ParseEach(records, keys, old(generated), ParseServer).value.1
      ensures clients == old(clients) && udp2raw == old(udp2raw)
    {
      var parsed := ResolveAll(records, keys, generated, ParseServer);
      if parsed.Failure? {
        return Fail(parsed.error);
      }
      servers := servers + parsed.value.0;
      generated := parsed.value.1;
      return Pass;
    }

    /** The client loop of genwg/config.py:130-160, like `AddServers`. */
    method AddClients(records: seq<Value>, keys: KeyProvider) returns (outcome: Outcome<ConfigError>)
      modifies this
      ensures ParseEach(records, keys, old(generated), ParseClient).Failure? ==>
                outcome == Fail(ParseEach(records, keys, old(generated), ParseClient).error)
      ensures ParseEach(records, keys, old(generated), ParseClient).Success? ==>
                && outcome == Pass
                && clients == old(clients) + ParseEach(records, keys, old(generated), ParseClient).value.0
                && generated == ParseEach(records, keys, old(generated), ParseClient).value.1
      ensures servers == old(servers) && udp2raw == old(udp2raw)
    {
      var parsed := ResolveAll(records, keys, generated, ParseClient);
      if parsed.Failure? {
        return Fail(parsed.error);
      }
      clients := clients + parsed.value.0;
      generated := parsed.value.1;
      return Pass;
    }
  }

  /** The loop shared by the server and the client sections: each record is
      resolved in turn, the key count threaded through, and the first record
      that fails stops the loop with its error. */
  method ResolveAll<T>(records: seq<Value>, keys: KeyProvider, gen: nat,
                       parse: (Value, KeyProvider, nat) -> Result<(T, nat), ConfigError>)
    returns (r: Result<(seq<T>, nat), ConfigError>)
    ensures r == ParseEach(records, keys, gen, parse)
  {
    var added: seq<T> := [];
    var generated := gen;
    var i := 0;
    while i < |records|
      invariant 0 <= i <= |records|
      invariant ParseEach(records[..i], keys, gen, parse) == Success((added, generated))
    {
      var parsed := parse(records[i], keys, generated);
      ParseEachExtend(records, i, keys, gen, parse, added, generated);
      if parsed.Failure? {
        return Failure(parsed.error);
      }
      added := added + [parsed.value.0];
      generated := parsed.value.1;
      i := i + 1;
    }
    assert records[..i] == records;
    return Success((added, generated));
  }

  /** The early-exit search of genwg/config.py:162-166 for a tcp server;
      false when there is none. */
  method AnyTcp(servers: seq<ServerConfig>) returns (found: bool)
    ensures found <==> NeedUdp2raw(servers)
  {
    found := false;
    var k := 0;
    while k < |servers|
      invariant 0 <= k <= |servers|
      invariant forall m :: 0 <= m < k ==> servers[m].proto != Tcp
    {
      if servers[k].proto == Tcp {
        found := true;
        break;
      }
      k := k + 1;
    }
  }
}
