/** IPv4 addresses and prefix blocks (section 3.1 of RFC 4632), as 32-bit numbers. */
module Ipv4 {
  import opened Common
  import opened Text

  const SPACE: nat := 0x1_0000_0000

  /** One decimal part of an address: digits only, at most three, no leading zero, at most 255. */
  function Octet(s: string): (r: Option<nat>)
    ensures r.Some? ==> r.value < 256 && s == NatText(r.value)
  {
    if s != "" && |s| <= 3 && (forall c | c in s :: IsDigit(c)) && (|s| > 1 ==> s[0] != '0') && ParseNat(s) < 256
    then NatTextParse(s); Some(ParseNat(s))
    else None
  }

  /** `IPv4Address(s)`: the number, or None where it raises. */
  function ParseAddress(s: string): (r: Option<nat>)
    ensures r.Some? ==> r.value < SPACE
  {
    FromOctets(Split(s, '.'))
  }

  function FromOctets(parts: seq<string>): (r: Option<nat>)
    ensures r.Some? ==> r.value < SPACE
  {
    if |parts| != 4 then None
    else
      match (Octet(parts[0]), Octet(parts[1]), Octet(parts[2]), Octet(parts[3]))
      case (Some(a), Some(b), Some(c), Some(d)) => Some(((a * 256 + b) * 256 + c) * 256 + d)
      case _ => None
  }

  predicate ValidIp(s: string)
  {
    ParseAddress(s).Some?
  }

  /** `str(IPv4Address(n))` */
  function AddressText(n: nat): string
    requires n < SPACE
  {
    NatText(n / 256 / 256 / 256) + "." + NatText(n / 256 / 256 % 256) + "." + NatText(n / 256 % 256) + "." + NatText(n % 256)
  }

  lemma OctetText(n: nat)
    requires n < 256
    ensures Octet(NatText(n)) == Some(n)
  {
    ParseNatText(n);
    if n < 10 {
    } else if n < 100 {
      assert NatText(n / 10) == [Digit(n / 10)];
    } else {
      assert n / 10 / 10 < 10;
    }
  }

  lemma SplitDots(a: string, b: string, c: string, d: string)
    requires '.' !in a && '.' !in b && '.' !in c && '.' !in d
    ensures Split(a + "." + b + "." + c + "." + d, '.') == [a, b, c, d]
  {
    assert a + "." + b + "." + c + "." + d == a + ['.'] + (b + ['.'] + (c + ['.'] + d));
    SplitFirst(a, '.', b + ['.'] + (c + ['.'] + d));
    SplitFirst(b, '.', c + ['.'] + d);
    SplitFirst(c, '.', d);
    SplitWhole(d, '.');
  }

  lemma ParseQuad(a: nat, b: nat, c: nat, d: nat)
    requires a < 256 && b < 256 && c < 256 && d < 256
    ensures ParseAddress(NatText(a) + "." + NatText(b) + "." + NatText(c) + "." + NatText(d))
         == Some(((a * 256 + b) * 256 + c) * 256 + d)
  {
    OctetText(a);
    OctetText(b);
    OctetText(c);
    OctetText(d);
    SplitDots(NatText(a), NatText(b), NatText(c), NatText(d));
    OctetsOf(NatText(a), NatText(b), NatText(c), NatText(d), a, b, c, d);
  }

  lemma OctetsOf(p: string, q: string, r: string, s: string, a: nat, b: nat, c: nat, d: nat)
    requires Octet(p) == Some(a) && Octet(q) == Some(b) && Octet(r) == Some(c) && Octet(s) == Some(d)
    ensures FromOctets([p, q, r, s]) == Some(((a * 256 + b) * 256 + c) * 256 + d)
  {
  }

  lemma ParseAddressText(n: nat)
    requires n < SPACE
    ensures ParseAddress(AddressText(n)) == Some(n)
  {
    var a, b, c, d := n / 256 / 256 / 256, n / 256 / 256 % 256, n / 256 % 256, n % 256;
    ParseQuad(a, b, c, d);
    QuadSum(n);
  }

  lemma QuadSum(n: nat)
    ensures ((n / 256 / 256 / 256 * 256 + n / 256 / 256 % 256) * 256 + n / 256 % 256) * 256 + n % 256 == n
  {
  }

  lemma JoinDots(s: string)
    ensures
      var p := Split(s, '.');
      |p| == 4 ==> s == p[0] + "." + p[1] + "." + p[2] + "." + p[3]
  {
    SplitRejoins(s, '.');
    var p := Split(s, '.');
    if |p| == 4 {
      assert p[1..][1..] == p[2..] && p[2..][1..] == [p[3]];
      assert Rejoin(p[2..], '.') == p[2] + ['.'] + p[3];
      assert Rejoin(p[1..], '.') == p[1] + ['.'] + (p[2] + ['.'] + p[3]);
    }
  }

  /** A valid address text is the canonical one, so equal addresses are equal strings. */
  lemma AddressTextParse(s: string)
    requires ValidIp(s)
    ensures AddressText(ParseAddress(s).value) == s
  {
    JoinDots(s);
    var p := Split(s, '.');
    var a, b, c, d := Octet(p[0]).value, Octet(p[1]).value, Octet(p[2]).value, Octet(p[3]).value;
    Quads(a, b, c, d);
  }

  lemma Quads(a: nat, b: nat, c: nat, d: nat)
    requires a < 256 && b < 256 && c < 256 && d < 256
    ensures
      var n := ((a * 256 + b) * 256 + c) * 256 + d;
      n < SPACE && n / 256 / 256 / 256 == a && n / 256 / 256 % 256 == b && n / 256 % 256 == c && n % 256 == d
  {
  }

  /** Digits and dots only, at least one character: safe as a field of any line. */
  lemma AddressChars(s: string)
    requires ValidIp(s)
    ensures s != "" && forall c :: c in s ==> IsDigit(c) || c == '.'
  {
    JoinDots(s);
  }

  // --- Prefix blocks ---

  /** `a >> k`: all but the last k bits. */
  function High(a: nat, k: nat): nat
    decreases k
  {
    if k == 0 then a else High(a / 2, k - 1)
  }

  /** `a << k`, filled with zeros or with ones. */
  function Fill(a: nat, bit: nat, k: nat): nat
  {
    if k == 0 then a else 2 * Fill(a, bit, k - 1) + bit
  }

  /** The block of the addresses whose first `prefix` bits are those of `index`. */
  datatype Net = Net(index: nat, prefix: nat) {
    ghost predicate Valid()
    {
      prefix <= 32 && index < Fill(1, 0, prefix)
    }

    /** The network address: all host bits zero. */
    function Base(): nat
      requires prefix <= 32
    {
      Fill(index, 0, 32 - prefix)
    }

    /** The broadcast address: all host bits one. */
    function Last(): nat
      requires prefix <= 32
    {
      Fill(index, 1, 32 - prefix)
    }

    /** `a in net`: the masked address is the network address. */
    predicate Has(a: nat)
      requires prefix <= 32
    {
      High(a, 32 - prefix) == index
    }

    /** `self.overlaps(o)`: an end of one lies in the other. */
    predicate Overlaps(o: Net)
      requires prefix <= 32 && o.prefix <= 32
    {
      o.Has(Base()) || o.Has(Last()) || Has(o.Base()) || Has(o.Last())
    }

    function Netmask(): (m: nat)
      requires prefix <= 32
      ensures m < SPACE
    {
      FillsFit(Fill(0, 1, prefix), prefix, 32 - prefix);
      Fill(Fill(0, 1, prefix), 0, 32 - prefix)
    }
  }

  lemma {:induction false} FillSum(a: nat, bit: nat, j: nat, k: nat)
    ensures Fill(Fill(a, bit, j), bit, k) == Fill(a, bit, j + k)
  {
    if k != 0 {
      FillSum(a, bit, j, k - 1);
    }
  }

  lemma {:induction false} FillGrows(a: nat, b: nat, k: nat)
    requires a < b
    ensures Fill(a, 0, k) <= Fill(a, 1, k) < Fill(b, 0, k)
  {
    if k != 0 {
      FillGrows(a, b, k - 1);
    }
  }

  /** A number of at most j bits, moved up by k, stays below 2^(j + k). */
  lemma FillsFit(a: nat, j: nat, k: nat)
    requires j + k == 32
    ensures a < Fill(1, 0, j) ==> Fill(a, 0, k) <= Fill(a, 1, k) < SPACE
    ensures Fill(0, 1, j) < Fill(1, 0, j)
  {
    FillGrows(0, 1, j);
    if a < Fill(1, 0, j) {
      FillGrows(a, Fill(1, 0, j), k);
      FillSum(1, 0, j, k);
      Space();
    }
  }

  lemma Space()
    ensures Fill(1, 0, 32) == SPACE
  {
    FillSum(1, 0, 16, 16);
    assert Fill(1, 0, 16) == 0x1_0000 by { FillSum(1, 0, 8, 8); }
    FillSum(0x1_0000, 0, 8, 8);
  }

  /** A block is the interval from its network address to its broadcast address. */
  lemma {:induction false} HasIff(i: nat, a: nat, k: nat)
    ensures High(a, k) == i <==> Fill(i, 0, k) <= a <= Fill(i, 1, k)
  {
    if k != 0 {
      HasIff(i, a / 2, k - 1);
    }
  }

  lemma {:induction false} HighFits(a: nat, k: nat, j: nat)
    requires a < Fill(1, 0, j + k)
    ensures High(a, k) < Fill(1, 0, j)
  {
    if k != 0 {
      HighFits(a / 2, k - 1, j);
    }
  }

  lemma {:induction false} HighSum(a: nat, j: nat, k: nat)
    ensures High(High(a, j), k) == High(a, j + k)
    decreases j
  {
    if j != 0 {
      HighSum(a / 2, j - 1, k);
    }
  }

  /** The addresses of a block are 32-bit numbers. */
  lemma BlockFits(n: Net)
    requires n.Valid()
    ensures n.Base() <= n.Last() < SPACE
  {
    FillsFit(n.index, n.prefix, 32 - n.prefix);
  }

  /** `ip_network(f"{subnet}/{prefix}", strict=False)`: host bits are cleared; None where it raises. */
  function ParseNet(subnet: string, prefix: int): (r: Option<Net>)
    ensures r.Some? <==> ValidIp(subnet) && 0 <= prefix <= 32
    ensures r.Some? ==> r.value.Valid() && r.value.prefix == prefix && r.value.Has(ParseAddress(subnet).value)
  {
    match ParseAddress(subnet)
    case None => None
    case Some(a) =>
      if !(0 <= prefix <= 32) then None
      else
        Space();
        HighFits(a, 32 - prefix, prefix);
        Some(Net(High(a, 32 - prefix), prefix))
  }

  /** A block is the block of its own first address. */
  lemma NetOfBase(n: Net)
    requires n.Valid()
    ensures n.Base() < SPACE && ParseNet(AddressText(n.Base()), n.prefix) == Some(n)
  {
    BlockFits(n);
    InBlock(n, n.Base());
    ParseAddressText(n.Base());
    hide ParseAddress, AddressText, Fill, High;
  }

  /** Two blocks are nested or share no address, and the one with the longer prefix is the inner. */
  lemma NestedOrDisjoint(x: Net, y: Net)
    requires x.prefix <= y.prefix <= 32
    ensures
      || (forall a: nat :: y.Has(a) ==> x.Has(a))
      || (forall a: nat :: !(x.Has(a) && y.Has(a)))
  {
    forall a: nat ensures x.Has(a) <==> High(High(a, 32 - y.prefix), y.prefix - x.prefix) == x.index {
      HighSum(a, 32 - y.prefix, y.prefix - x.prefix);
    }
  }

  /** The four-ends test is the real question: do the two blocks share an address? */
  lemma OverlapsIff(x: Net, y: Net)
    requires x.prefix <= 32 && y.prefix <= 32
    ensures x.Overlaps(y) <==> exists a: nat :: x.Has(a) && y.Has(a)
  {
    FillsGrow(x.index, 32 - x.prefix);
    FillsGrow(y.index, 32 - y.prefix);
    if a: nat :| x.Has(a) && y.Has(a) {
      InBlock(x, a);
      InBlock(y, a);
      var b := if x.Base() >= y.Base() then x.Base() else y.Base();
      InBlock(x, b);
      InBlock(y, b);
    }
    if x.Overlaps(y) {
      InBlock(x, x.Base());
      InBlock(x, x.Last());
      InBlock(y, y.Base());
      InBlock(y, y.Last());
    }
  }

  lemma InBlock(n: Net, a: nat)
    requires n.prefix <= 32
    ensures n.Has(a) <==> n.Base() <= a <= n.Last()
  {
    HasIff(n.index, a, 32 - n.prefix);
  }

  lemma FillsGrow(a: nat, k: nat)
    ensures Fill(a, 0, k) <= Fill(a, 1, k)
  {
    FillGrows(a, a + 1, k);
  }

  // --- Sizes and masks ---

  /** What k bits filled with ones add. */
  lemma {:induction false} FillGap(a: nat, k: nat)
    ensures Fill(a, 1, k) == Fill(a, 0, k) + Fill(0, 1, k)
  {
    if k != 0 {
      FillGap(a, k - 1);
      FillZero(k - 1);
    }
  }

  lemma {:induction false} FillZero(k: nat)
    ensures Fill(0, 0, k) == 0
  {
    if k != 0 {
      FillZero(k - 1);
    }
  }

  lemma {:induction false} FillNext(a: nat, k: nat)
    ensures Fill(a + 1, 0, k) == Fill(a, 1, k) + 1
  {
    if k != 0 {
      FillNext(a, k - 1);
    }
  }

  /** A block has 2^(32 - prefix) addresses and starts at a multiple of that; its netmask is what is left of
      the 32-bit numbers when the host part is taken away. */
  lemma BlockSize(n: Net)
    requires n.Valid()
    ensures n.Last() - n.Base() + 1 == Power(32 - n.prefix) && n.Base() == n.index * Power(32 - n.prefix)
    ensures n.Netmask() == SPACE - 1 - (n.Last() - n.Base())
  {
    var k := 32 - n.prefix;
    FillGap(n.index, k);
    FillNext(0, k);
    FillPower(1, k);
    FillPower(n.index, k);
    var ones := Fill(0, 1, n.prefix);
    FillGap(ones, k);
    FillNext(0, n.prefix);
    FillNext(ones, k);
    FillSum(1, 0, n.prefix, k);
    Space();
  }

  function Power(k: nat): nat
  {
    if k == 0 then 1 else 2 * Power(k - 1)
  }

  lemma {:induction false} FillPower(a: nat, k: nat)
    ensures Fill(a, 0, k) == a * Power(k)
  {
    if k != 0 {
      FillPower(a, k - 1);
    }
  }

  /** A subnet's block is found by cutting the host part off. */
  lemma ParsedBlock(subnet: string, prefix: int)
    requires ParseNet(subnet, prefix).Some?
    ensures
      var n, a, size := ParseNet(subnet, prefix).value, ParseAddress(subnet).value, Power(32 - prefix);
      n.Base() <= a < n.Base() + size && n.Last() == n.Base() + size - 1
  {
    var n := ParseNet(subnet, prefix).value;
    InBlock(n, ParseAddress(subnet).value);
    BlockSize(n);
  }
}
