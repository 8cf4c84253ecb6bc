/** IPv4 addresses and networks as the `ipaddress` module of Python treats
    them: parsing of dotted-decimal text, the `strict=False` network
    constructor, `str()` of an address, and `address + n`. IPv6 is not part
    of this model. */
module IPv4 {
  import opened Wrappers
  import opened Text

  const AddrLimit: nat := 0x1_0000_0000

  /** An IPv4 address is its 32-bit integer value. */
  type Addr = n: nat | n < 0x1_0000_0000

  type Octet = n: nat | n < 256

  /** The four octets, most significant first. */
  function Octets(a: Addr): (o: seq<Octet>)
    ensures |o| == 4
  {
    [a / 0x100_0000, (a / 0x1_0000) % 256, (a / 256) % 256, a % 256]
  }

  function FromOctets(o: seq<Octet>): Addr
    requires |o| == 4
  {
    (o[0] as nat) * 0x100_0000 + (o[1] as nat) * 0x1_0000 + (o[2] as nat) * 256 + o[3] as nat
  }

  lemma OctetsRoundTrip(a: Addr)
    ensures FromOctets(Octets(a)) == a
  {
    var q1 := a / 256;
    var q2 := q1 / 256;
    assert a == q1 * 256 + a % 256;
    assert q1 == q2 * 256 + q1 % 256;
    assert q2 == (q2 / 256) * 256 + q2 % 256;
    assert q2 == a / 0x1_0000;
    assert q2 / 256 == a / 0x100_0000;
  }

  /** `str(IPv4Address)`: the four octets in decimal, joined by dots. */
  function AddrText(a: Addr): string
  {
    var o := Octets(a);
    Join([Decimal(o[0]), Decimal(o[1]), Decimal(o[2]), Decimal(o[3])], '.')
  }

  /** One dotted-decimal component: 1 to 3 ASCII digits, no leading zero, at most 255. */
  function ParseOctet(s: string): (r: Option<Octet>)
    ensures r.Some? ==> 1 <= |s| <= 3 && AllDigits(s) && DigitsValue(s) == r.value
  {
    if s == [] || !AllDigits(s) || |s| > 3 then None
    else if s != "0" && s[0] == '0' then None
    else
      var v := DigitsValue(s);
      if v > 255 then None else Some(v)
  }

  /** `IPv4Address(s)` for a str: no '/', exactly four dot-separated octets. */
  function ParseAddr(s: string): Option<Addr>
  {
    if s == [] || '/' in s then None
    else
      var parts := Split(s, '.');
      if |parts| != 4 then None else ParseOctets(parts)
  }

  function ParseOctets(parts: seq<string>): Option<Addr>
    requires |parts| == 4
  {
    var o0 :- ParseOctet(parts[0]);
    var o1 :- ParseOctet(parts[1]);
    var o2 :- ParseOctet(parts[2]);
    var o3 :- ParseOctet(parts[3]);
    Some(FromOctets([o0, o1, o2, o3]))
  }

  lemma ParseOctetOfDecimal(o: Octet)
    ensures ParseOctet(Decimal(o)) == Some(o)
  {
    DecimalShort(o);
    DecimalRoundTrip(o);
  }

  /** Four decimals joined by dots split back into themselves and hold no '/'. */
  lemma JoinedDecimals(o: seq<Octet>)
    requires |o| == 4
    ensures var parts := [Decimal(o[0]), Decimal(o[1]), Decimal(o[2]), Decimal(o[3])];
            var s := Join(parts, '.');
            s != [] && '/' !in s && Split(s, '.') == parts
  {
    var parts := [Decimal(o[0]), Decimal(o[1]), Decimal(o[2]), Decimal(o[3])];
    forall p | p in parts ensures '.' !in p && '/' !in p {
      assert AllDigits(p);
    }
    SplitJoin(parts, '.');
    JoinWithout(parts, '.', '/');
  }

  /** Four octets written in decimal and joined by dots read back as those octets. */
  lemma ParseDottedDecimal(o: seq<Octet>)
    requires |o| == 4
    ensures ParseAddr(Join([Decimal(o[0]), Decimal(o[1]), Decimal(o[2]), Decimal(o[3])], '.'))
            == Some(FromOctets(o))
  {
    var parts := [Decimal(o[0]), Decimal(o[1]), Decimal(o[2]), Decimal(o[3])];
    JoinedDecimals(o);
    ParseOctetOfDecimal(o[0]);
    ParseOctetOfDecimal(o[1]);
    ParseOctetOfDecimal(o[2]);
    ParseOctetOfDecimal(o[3]);
    ParseAddrOfParts(Join(parts, '.'), parts, o);
  }

  /** Text splitting into four components that read as `o` reads as the address of `o`. */
  lemma ParseAddrOfParts(s: string, parts: seq<string>, o: seq<Octet>)
    requires |parts| == 4 && |o| == 4
    requires s != [] && '/' !in s && Split(s, '.') == parts
    requires ParseOctet(parts[0]) == Some(o[0]) && ParseOctet(parts[1]) == Some(o[1])
    requires ParseOctet(parts[2]) == Some(o[2]) && ParseOctet(parts[3]) == Some(o[3])
    ensures ParseAddr(s) == Some(FromOctets(o))
  {
    assert ParseOctets(parts) == Some(FromOctets([o[0], o[1], o[2], o[3]]));
    assert [o[0], o[1], o[2], o[3]] == o;
  }

  /** `IPv4Address(str(a)) == a`. */
  lemma AddrTextRoundTrip(a: Addr)
    ensures ParseAddr(AddrText(a)) == Some(a)
  {
    ParseDottedDecimal(Octets(a));
    OctetsRoundTrip(a);
  }

  /** Text of an address never holds a '/'. */
  lemma AddrTextNoSlash(a: Addr)
    ensures '/' !in AddrText(a)
  {
    AddrTextRoundTrip(a);
  }

  function Pow2(n: nat): (r: nat)
    ensures r >= 1
  {
    if n == 0 then 1 else 2 * Pow2(n - 1)
  }

  /** The number of addresses a network with this prefix length spans. */
  function BlockSize(prefix: nat): nat
    requires prefix <= 32
  {
    Pow2(32 - prefix)
  }

  /** The netmask of a prefix length: `prefix` one bits followed by zero bits. */
  function Mask(prefix: nat): Addr
    requires prefix <= 32
  {
    MaskBelow(prefix);
    AddrLimit - BlockSize(prefix)
  }

  lemma MaskBelow(prefix: nat)
    requires prefix <= 32
    ensures 1 <= BlockSize(prefix) <= AddrLimit
  {
    Pow2Monotone(32 - prefix, 32);
    assert Pow2(32) == AddrLimit by {
      assert Pow2(8) == 256;
      assert Pow2(16) == 256 * 256 by { Pow2Add(8, 8); }
      assert Pow2(32) == 65536 * 65536 by { Pow2Add(16, 16); }
    }
  }

  lemma {:induction false} Pow2Add(m: nat, n: nat)
    ensures Pow2(m + n) == Pow2(m) * Pow2(n)
  {
    if m > 0 { Pow2Add(m - 1, n); }
  }

  lemma {:induction false} Pow2Monotone(m: nat, n: nat)
    requires m <= n
    ensures Pow2(m) <= Pow2(n)
  {
    if m < n { Pow2Monotone(m, n - 1); }
  }

  /** `int(address) & int(netmask)`: the address with its host bits cleared. */
  function Base(a: Addr, prefix: nat): (b: Addr)
    requires prefix <= 32
    ensures b <= a && a - b < BlockSize(prefix)
  {
    ModBelow(a, BlockSize(prefix));
    a - a % BlockSize(prefix)
  }

  lemma ModBelow(a: nat, m: nat)
    requires m >= 1
    ensures a % m <= a && a % m < m
  {
    if a >= m {
      assert a == (a / m) * m + a % m;
      MulAtLeast(a / m, m);
    }
  }

  lemma MulAtLeast(a: int, b: int)
    requires a >= 1 && b > 0
    ensures a * b >= b
  {
  }

  lemma ModOfMultiple(k: int, m: int)
    requires m > 0
    ensures (k * m) % m == 0
  {
    var x := k * m;
    var q := x / m;
    assert (k - q) * m == x % m;
    if k - q >= 1 {
      MulAtLeast(k - q, m);
    } else if q - k >= 1 {
      MulAtLeast(q - k, m);
    }
  }

  /** Clearing the host bits twice changes nothing. */
  lemma BaseIdempotent(a: Addr, prefix: nat)
    requires prefix <= 32
    ensures Base(Base(a, prefix), prefix) == Base(a, prefix)
  {
    var m := BlockSize(prefix);
    assert a - a % m == (a / m) * m;
    ModOfMultiple(a / m, m);
  }

  /** A network as `ip_network(..., strict=False)` leaves it: the masked base and the prefix length. */
  datatype Network = Network(base: Addr, prefix: PrefixLength)

  type PrefixLength = n: nat | n <= 32

  /** The prefix length whose netmask is `m`, if `m` is a netmask. */
  function MaskPrefix(m: Addr, p: nat): (r: Option<nat>)
    requires p <= 33
    ensures r.Some? ==> r.value <= 32 && Mask(r.value) == m
    ensures r.None? ==> forall q :: p <= q <= 32 ==> Mask(q) != m
    decreases 33 - p
  {
    if p == 33 then None
    else if Mask(p) == m then Some(p)
    else MaskPrefix(m, p + 1)
  }

  /** The part after '/' of a network literal: a prefix length in ASCII digits
      (0 to 32), or else a netmask, or else a hostmask, in dotted-decimal form. */
  function ParsePrefix(s: string): (r: Option<nat>)
    ensures r.Some? ==> r.value <= 32
  {
    if s != [] && AllDigits(s) then
      var p := DigitsValue(s);
      if p <= 32 then Some(p) else None
    else
      var m :- if s == [] then None else ParseMaskAddr(s);
      match MaskPrefix(m, 0)
      case Some(p) => Some(p)
      case None => MaskPrefix(AddrLimit - 1 - m, 0)
  }

  /** A netmask or hostmask is read like an address, without the '/' check. */
  function ParseMaskAddr(s: string): Option<Addr>
  {
    if '/' in s then None else ParseAddr(s)
  }

  /** `ip_network(s, strict=False)` for a str: at most one '/', an address,
      a prefix (32 when absent); host bits are cleared, not rejected. */
  function ParseNetwork(s: string): (r: Option<Network>)
    ensures r.Some? ==> r.value.prefix <= 32
    ensures r.Some? ==> Base(r.value.base, r.value.prefix) == r.value.base
  {
    var parts := Split(s, '/');
    if |parts| > 2 then None
    else
      var a :- ParseAddr(parts[0]);
      var p :- if |parts| == 2 then ParsePrefix(parts[1]) else Some(32);
      BaseIdempotent(a, p);
      Some(Network(Base(a, p), p))
  }

  /** How the state dump writes a network: `"<base>/<prefix>"`. */
  function NetworkText(n: Network): string
  {
    AddrText(n.base) + "/" + Decimal(n.prefix)
  }

  /** Reading back a dumped network gives the same network, when its base is aligned. */
  lemma NetworkTextRoundTrip(n: Network)
    requires n.prefix <= 32 && Base(n.base, n.prefix) == n.base
    ensures ParseNetwork(NetworkText(n)) == Some(n)
  {
    var a := AddrText(n.base);
    var d := Decimal(n.prefix);
    AddrTextNoSlash(n.base);
    assert '/' !in d by { assert AllDigits(d); }
    assert NetworkText(n) == Join([a, d], '/');
    SplitJoin([a, d], '/');
    AddrTextRoundTrip(n.base);
    DecimalRoundTrip(n.prefix);
  }

  /** `ip_network(f"{ip}/{prefix}", strict=False)` accepts an address with
      host bits set and clears them: the network is the address's base. */
  lemma HostBitsAccepted(a: Addr, p: nat)
    requires p <= 32
    ensures ParseNetwork(AddrText(a) + "/" + Decimal(p)) == Some(Network(Base(a, p), p))
  {
    var t := AddrText(a);
    var d := Decimal(p);
    AddrTextNoSlash(a);
    assert '/' !in d by { assert AllDigits(d); }
    assert t + "/" + d == Join([t, d], '/');
    SplitJoin([t, d], '/');
    AddrTextRoundTrip(a);
    PrefixOfDecimal(p);
    BaseIdempotent(a, p);
  }

  /** A prefix length written in decimal reads back as itself. */
  lemma PrefixOfDecimal(p: nat)
    requires p <= 32
    ensures ParsePrefix(Decimal(p)) == Some(p)
  {
    DecimalRoundTrip(p);
  }

  /** `address + n`, which raises once the result leaves the 32-bit range. */
  function Add(a: Addr, n: nat): (r: Option<Addr>)
    ensures r.Some? <==> a + n < AddrLimit
    ensures r.Some? ==> r.value == a + n
  {
    if a + n < AddrLimit then Some(a + n) else None
  }
}
