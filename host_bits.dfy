/** `GenFiles._get_host_bits` (genwg/genfiles.py:24-35): the part of an
    address outside its network, used as the owner name of a PTR record. */
module HostBits {
  import opened Text
  import opened IPv4

  /** Python's `x & y` on the low `width` bits of two numbers, bit by bit. */
  function AndBits(x: nat, y: nat, width: nat): nat
  {
    if width == 0 then 0 else (x % 2) * (y % 2) + 2 * AndBits(x / 2, y / 2, width - 1)
  }

  /** Python's `x & y` on two octets. */
  function And(x: Octet, y: Octet): (r: Octet)
    ensures r <= x
  {
    AndBitsBelow(x, y, 8);
    AndBits(x, y, 8)
  }

  function NetmaskOctets(prefix: nat): (m: seq<Octet>)
    requires prefix <= 32
    ensures |m| == 4
  {
    Octets(Mask(prefix))
  }

  /** Octet by octet, `ip & (255 - netmask)`. */
  function HostOctets(ip: Addr, prefix: nat): (h: seq<Octet>)
    requires prefix <= 32
    ensures |h| == 4
  {
    var a := Octets(ip);
    var m := NetmaskOctets(prefix);
    seq(4, i requires 0 <= i < 4 => And(a[i], 255 - m[i]))
  }

  /** Octet by octet, `ip & netmask`: the network part. */
  function NetOctets(ip: Addr, prefix: nat): (n: seq<Octet>)
    requires prefix <= 32
    ensures |n| == 4
  {
    var a := Octets(ip);
    var m := NetmaskOctets(prefix);
    seq(4, i requires 0 <= i < 4 => And(a[i], m[i]))
  }

  /** The octets that are not zero, in order. */
  function NonZero(s: seq<Octet>): seq<Octet>
  {
    if s == [] then []
    else (if s[0] == 0 then [] else [s[0]]) + NonZero(s[1..])
  }

  /** The octets from the first one that is not zero on. */
  function DropLeadingZeros(s: seq<Octet>): (r: seq<Octet>)
    ensures |r| <= |s| && r == s[|s| - |r|..]
    ensures r != [] ==> r[0] != 0
    ensures forall i :: 0 <= i < |s| - |r| ==> s[i] == 0
  {
    if s != [] && s[0] == 0 then
      var r := DropLeadingZeros(s[1..]);
      assert forall i :: 1 <= i < |s| ==> s[1..][i - 1] == s[i];
      assert r == s[1..][|s| - 1 - |r|..] == s[|s| - |r|..];
      r
    else s
  }

  function DecimalParts(s: seq<Octet>): (parts: seq<string>)
    ensures |parts| == |s|
    ensures forall i :: 0 <= i < |s| ==> parts[i] == Decimal(s[i])
  {
    seq(|s|, i requires 0 <= i < |s| => Decimal(s[i]))
  }

  /** The source's `".".join(str(bit) for bit in host_bits if bit != 0)`:
      every zero octet is dropped, wherever it stands. */
  function HostBitsAsWritten(ip: Addr, prefix: nat): (r: string)
    requires prefix <= 32
    ensures r == "" <==> forall i :: 0 <= i < 4 ==> HostOctets(ip, prefix)[i] == 0
    ensures r != "" ==> forall k :: 0 <= k < |Split(r, '.')| ==> Split(r, '.')[k] != "0"
  {
    var kept := NonZero(HostOctets(ip, prefix));
    LabelSplits(kept);
    NonZeroEmpty(HostOctets(ip, prefix));
    NonZeroDropsEveryZero(HostOctets(ip, prefix));
    assert forall k :: 0 <= k < |kept| ==> Decimal(kept[k]) != "0" by {
      forall k | 0 <= k < |kept| ensures Decimal(kept[k]) != "0" {
        assert kept[k] in kept;
      }
    }
    Join(DecimalParts(kept), '.')
  }

  /** The host part with only its leading zero octets dropped: the rendering
      that gives each address of a network its own label (`HostLabelInjective`);
      the PTR records of the model use this one. */
  function HostLabel(ip: Addr, prefix: nat): (r: string)
    requires prefix <= 32
    ensures r == "" <==> forall i :: 0 <= i < 4 ==> HostOctets(ip, prefix)[i] == 0
    ensures r != "" ==> Split(r, '.')[0] != "0"
  {
    var h := HostOctets(ip, prefix);
    var kept := DropLeadingZeros(h);
    LabelSplits(kept);
    assert kept != [] ==> Decimal(kept[0]) != "0";
    assert kept == [] <==> forall i :: 0 <= i < 4 ==> h[i] == 0 by {
      if kept != [] { assert h[4 - |kept|] == kept[0]; }
    }
    Join(DecimalParts(kept), '.')
  }

  lemma {:induction false} AndBitsBelow(x: nat, y: nat, width: nat)
    ensures AndBits(x, y, width) <= x
  {
    if width > 0 {
      AndBitsBelow(x / 2, y / 2, width - 1);
    }
  }

  /** Masking with `m` and with its complement splits `x` into two parts that add back up to `x`. */
  lemma {:induction false} AndBitsSplit(x: nat, m: nat, width: nat)
    requires x < Pow2(width) && m < Pow2(width)
    ensures AndBits(x, m, width) + AndBits(x, Pow2(width) - 1 - m, width) == x
  {
    if width > 0 {
      var half := Pow2(width - 1);
      var c := Pow2(width) - 1 - m;
      assert c == 2 * (half - 1 - m / 2) + (1 - m % 2);
      assert c % 2 == 1 - m % 2 && c / 2 == half - 1 - m / 2;
      AndBitsSplit(x / 2, m / 2, width - 1);
      assert (x % 2) * (m % 2) + (x % 2) * (c % 2) == x % 2 by {
        if x % 2 == 0 {
        } else if m % 2 == 0 {
        } else {
        }
      }
    }
  }

  /** An address octet is its network part plus its host part. */
  lemma OctetSplit(x: Octet, m: Octet)
    ensures And(x, m) + And(x, 255 - m) == x
  {
    assert Pow2(8) == 256;
    AndBitsSplit(x, m, 8);
  }

  /** Only host bits survive: each host octet is the address octet less its
      network part, so it never exceeds the address octet it comes from. */
  lemma HostOctetsBelow(ip: Addr, prefix: nat)
    requires prefix <= 32
    ensures forall i :: 0 <= i < 4 ==>
              HostOctets(ip, prefix)[i] == Octets(ip)[i] - NetOctets(ip, prefix)[i]
    ensures forall i :: 0 <= i < 4 ==> HostOctets(ip, prefix)[i] <= Octets(ip)[i]
  {
    forall i | 0 <= i < 4
      ensures HostOctets(ip, prefix)[i] == Octets(ip)[i] - NetOctets(ip, prefix)[i]
    {
      OctetSplit(Octets(ip)[i], NetmaskOctets(prefix)[i]);
    }
  }

  /** No zero octet survives in the as-written rendering, and every non-zero one does, in order. */
  lemma {:induction false} NonZeroDropsEveryZero(s: seq<Octet>)
    ensures 0 !in NonZero(s)
    ensures multiset(NonZero(s)) == multiset(s)[0 := 0]
  {
    if s != [] {
      NonZeroDropsEveryZero(s[1..]);
      assert s == [s[0]] + s[1..];
      assert multiset(s) == multiset{s[0]} + multiset(s[1..]);
    }
  }

  /** Nothing is kept exactly when every octet is zero. */
  lemma {:induction false} NonZeroEmpty(s: seq<Octet>)
    ensures NonZero(s) == [] <==> forall i :: 0 <= i < |s| ==> s[i] == 0
  {
    if s != [] {
      NonZeroEmpty(s[1..]);
      assert forall i :: 1 <= i < |s| ==> s[i] == s[1..][i - 1];
    }
  }

  lemma {:induction false} NonZeroAppend(a: seq<Octet>, b: seq<Octet>)
    ensures NonZero(a + b) == NonZero(a) + NonZero(b)
  {
    if a != [] {
      assert (a + b)[0] == a[0] && (a + b)[1..] == a[1..] + b;
      NonZeroAppend(a[1..], b);
    } else {
      assert a + b == b;
    }
  }

  lemma {:induction false} AndBitsZero(x: nat, width: nat)
    ensures AndBits(x, 0, width) == 0
  {
    if width > 0 {
      AndBitsZero(x / 2, width - 1);
    }
  }

  lemma {:induction false} AndBitsOnes(x: nat, width: nat)
    requires x < Pow2(width)
    ensures AndBits(x, Pow2(width) - 1, width) == x
  {
    if width > 0 {
      assert (Pow2(width) - 1) / 2 == Pow2(width - 1) - 1;
      AndBitsOnes(x / 2, width - 1);
    }
  }

  /** Host octets under a /16 netmask: the last two octets of the address. */
  lemma HostOctetsOf16(ip: Addr)
    ensures HostOctets(ip, 16) == [0, 0, Octets(ip)[2], Octets(ip)[3]]
  {
    assert Mask(16) == 0xFFFF_0000 by {
      Pow2Add(8, 8);
      assert Pow2(8) == 256;
    }
    assert NetmaskOctets(16) == [255, 255, 0, 0];
    var a := Octets(ip);
    assert Pow2(8) == 256;
    AndBitsZero(a[0], 8);
    AndBitsZero(a[1], 8);
    AndBitsOnes(a[2], 8);
    AndBitsOnes(a[3], 8);
  }

  /** The as-written rendering gives the same label to two different
      addresses of 10.0.0.0/16: 10.0.0.1 and 10.0.1.0 are both "1". */
  lemma HostBitsCollide()
    ensures Base(0x0A00_0001, 16) == Base(0x0A00_0100, 16) == 0x0A00_0000
    ensures HostBitsAsWritten(0x0A00_0001, 16) == HostBitsAsWritten(0x0A00_0100, 16) == "1"
  {
    assert BlockSize(16) == 0x1_0000 by {
      Pow2Add(8, 8);
      assert Pow2(8) == 256;
    }
    assert Octets(0x0A00_0001) == [10, 0, 0, 1];
    assert Octets(0x0A00_0100) == [10, 0, 1, 0];
    HostOctetsOf16(0x0A00_0001);
    HostOctetsOf16(0x0A00_0100);
    assert NonZero([0, 0, 0, 1]) == [1];
    assert NonZero([0, 0, 1, 0]) == [1];
    assert DecimalParts([1]) == ["1"];
  }

  lemma DecimalPartsInjective(a: seq<Octet>, b: seq<Octet>)
    requires DecimalParts(a) == DecimalParts(b)
    ensures a == b
  {
    forall i | 0 <= i < |a|
      ensures a[i] == b[i]
    {
      assert Decimal(a[i]) == Decimal(b[i]);
      DecimalRoundTrip(a[i]);
      DecimalRoundTrip(b[i]);
    }
  }

  lemma DropLeadingZerosInjective(a: seq<Octet>, b: seq<Octet>)
    requires |a| == |b| && DropLeadingZeros(a) == DropLeadingZeros(b)
    ensures a == b
  {
    var r := DropLeadingZeros(a);
    forall i | 0 <= i < |a|
      ensures a[i] == b[i]
    {
      if i >= |a| - |r| {
        assert a[i] == r[i - (|a| - |r|)] == b[i];
      }
    }
  }

  /** The rendered label of some octets is empty exactly when there are none, and splits back into their decimals. */
  lemma LabelSplits(s: seq<Octet>)
    ensures Join(DecimalParts(s), '.') == "" <==> s == []
    ensures s != [] ==> Split(Join(DecimalParts(s), '.'), '.') == DecimalParts(s)
  {
    var parts := DecimalParts(s);
    if s != [] {
      forall p | p in parts
        ensures '.' !in p
      {
        var i :| 0 <= i < |parts| && parts[i] == p;
        assert AllDigits(Decimal(s[i]));
      }
      SplitJoin(parts, '.');
      assert Join(parts, '.') != "" by {
        if |parts| > 1 {
          assert Join(parts, '.')[0] == parts[0][0];
        }
      }
    }
  }

  /** Two octet sequences of one length with the same label are equal. */
  lemma LabelInjective(h1: seq<Octet>, h2: seq<Octet>)
    requires |h1| == |h2|
    requires Join(DecimalParts(DropLeadingZeros(h1)), '.') == Join(DecimalParts(DropLeadingZeros(h2)), '.')
    ensures h1 == h2
  {
    var d1 := DropLeadingZeros(h1);
    var d2 := DropLeadingZeros(h2);
    LabelSplits(d1);
    LabelSplits(d2);
    if d1 != [] {
      DecimalPartsInjective(d1, d2);
    }
    DropLeadingZerosInjective(h1, h2);
  }

  /** With its leading zero octets dropped, the host part identifies the
      address: two addresses with the same network part and the same label
      are the same address. */
  lemma HostLabelInjective(ip1: Addr, ip2: Addr, prefix: nat)
    requires prefix <= 32
    requires NetOctets(ip1, prefix) == NetOctets(ip2, prefix)
    requires HostLabel(ip1, prefix) == HostLabel(ip2, prefix)
    ensures ip1 == ip2
  {
    LabelInjective(HostOctets(ip1, prefix), HostOctets(ip2, prefix));
    HostOctetsBelow(ip1, prefix);
    HostOctetsBelow(ip2, prefix);
    assert Octets(ip1) == Octets(ip2) by {
      forall i | 0 <= i < 4
        ensures Octets(ip1)[i] == Octets(ip2)[i]
      {
        assert HostOctets(ip1, prefix)[i] == HostOctets(ip2, prefix)[i];
      }
    }
    OctetsRoundTrip(ip1);
    OctetsRoundTrip(ip2);
  }
}
