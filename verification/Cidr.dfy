/** Scan ranges and their probe targets (internal/config/cidr.go). An IPv4
    address is a number below 2^32. */
module Cidr {
  import opened Text

  const MIN_SCAN_PREFIX := 16

  const SPACE := 0x1_0000_0000

  function Pow2(k: nat): (r: nat)
    ensures r > 0
  {
    if k == 0 then 1 else 2 * Pow2(k - 1)
  }

  datatype Prefix = Prefix(addr: nat, bits: nat) {
    predicate Valid() { addr < SPACE && bits <= 32 }

    function Size(): (r: nat)
      requires Valid()
      ensures r > 0
    {
      Pow2(32 - bits)
    }

    /** The first address: the host bits are zero. */
    function Base(): (r: nat)
      requires Valid()
      ensures r <= addr < r + Size()
    {
      DivBounds(addr, Size());
      addr / Size() * Size()
    }

    /** The address agrees with the prefix on its leading bits. */
    predicate Contains(a: nat)
      requires Valid()
    {
      a / Size() == addr / Size()
    }

    function Masked(): Prefix
      requires Valid()
    {
      Prefix(Base(), bits)
    }
  }

  // ----- Powers of two and prefixes -----

  lemma {:induction false} Pow2Adds(j: nat, k: nat)
    ensures Pow2(j + k) == Pow2(j) * Pow2(k)
  {
    if j > 0 {
      Pow2Adds(j - 1, k);
      assert Pow2(j + k) == 2 * (Pow2(j - 1) * Pow2(k));
    }
  }

  lemma Pow2Monotone(j: nat, k: nat)
    requires j < k
    ensures 2 * Pow2(j) <= Pow2(k)
  {
    if j < k - 1 {
      Pow2Monotone(j, k - 1);
    }
  }

  lemma SpaceIsPow2()
    ensures Pow2(32) == SPACE
  {
    assert Pow2(8) == 256;
    Pow2Adds(8, 8);
    Pow2Adds(16, 16);
  }

  lemma DivBounds(a: nat, s: nat)
    requires s > 0
    ensures 0 <= a / s * s <= a < a / s * s + s
  {
    assert a == a / s * s + a % s;
  }

  lemma {:induction false} TimesMonotone(a: int, b: int, s: nat)
    ensures a < b ==> a * s + s <= b * s
    decreases b - a
  {
    if a + 1 < b {
      TimesMonotone(a + 1, b, s);
    }
  }

  lemma DivUnique(a: nat, s: nat, q: int)
    requires s > 0 && q * s <= a < q * s + s
    ensures a / s == q
  {
    DivBounds(a, s);
    TimesMonotone(a / s, q, s);
    TimesMonotone(q, a / s, s);
  }

  lemma DivTwice(a: nat, s: nat, k: nat)
    requires s > 0 && k > 0
    ensures s * k > 0 && a / (s * k) == a / s / k
  {
    var d := a / s;
    var q := d / k;
    DivBounds(a, s);
    DivBounds(d, k);
    TimesMonotone(q * k - 1, d, s);
    TimesMonotone(d, q * k + k, s);
    Regroup(q, k, s);
    DivUnique(a, s * k, q);
  }

  lemma Regroup(q: int, k: nat, s: nat)
    ensures (q * k) * s == q * (s * k) && (q * k + k) * s == q * (s * k) + s * k && (q * k - 1) * s == q * (s * k) - s
  {
  }

  lemma BlockEnds(q: nat, s: nat, k: nat, a: nat)
    requires s > 0 && q * s <= a < s * k
    ensures q * s + s <= s * k
  {
    TimesMonotone(q, k, s);
    TimesMonotone(k - 1, q, s);
  }

  lemma LastBlockEnds(a: nat, s: nat, k: nat)
    requires s > 0 && s * k == SPACE && a < SPACE
    ensures a / s * s + s <= SPACE
  {
    DivBounds(a, s);
    BlockEnds(a / s, s, k, a);
  }

  lemma SizeDividesSpace(bits: nat)
    requires bits <= 32
    ensures Pow2(32 - bits) * Pow2(bits) == SPACE
  {
    SpaceIsPow2();
    Pow2Adds(32 - bits, bits);
  }

  /** A prefix ends within the address space. */
  lemma RangeEnds(p: Prefix)
    requires p.Valid()
    ensures p.Base() + p.Size() <= SPACE
  {
    SizeDividesSpace(p.bits);
    LastBlockEnds(p.addr, p.Size(), Pow2(p.bits));
  }

  /** A prefix holds exactly the Size addresses from Base on. */
  lemma RangeOf(p: Prefix, a: nat)
    requires p.Valid()
    ensures p.Contains(a) <==> p.Base() <= a < p.Base() + p.Size()
    ensures p.Base() / p.Size() == p.addr / p.Size()
  {
    var s, q := p.Size(), p.addr / p.Size();
    DivUnique(p.Base(), s, q);
    DivBounds(a, s);
    if p.Base() <= a < p.Base() + s {
      DivUnique(a, s, q);
    }
  }

  lemma MaskedSame(p: Prefix)
    requires p.Valid()
    ensures p.Masked().Valid() && p.Masked().Masked() == p.Masked()
    ensures forall a: nat :: p.Masked().Contains(a) <==> p.Contains(a)
  {
    RangeOf(p, p.addr);
    RangeEnds(p);
  }

  // ----- Accepting a range -----

  const PRIVATE_BLOCKS: seq<Prefix> := [
    Prefix(10 * 0x100_0000, 8),
    Prefix(172 * 0x100_0000 + 16 * 0x1_0000, 12),
    Prefix(192 * 0x100_0000 + 168 * 0x1_0000, 16)]

  /** Every address of p is in block. */
  ghost predicate Inside(p: Prefix, block: Prefix)
    requires p.Valid() && block.Valid()
  {
    forall a: nat :: p.Contains(a) ==> block.Contains(a)
  }

  /** The whole range is inside one private block. */
  ghost predicate Private(p: Prefix)
    requires p.Valid()
  {
    exists b | b in PRIVATE_BLOCKS :: b.Valid() && Inside(p, b)
  }

  lemma LongerIsInside(p: Prefix, block: Prefix, a: nat)
    requires p.Valid() && block.Valid() && block.bits <= p.bits && p.Contains(a)
    ensures block.Contains(a) <==> block.Contains(p.addr)
  {
    var s, k := p.Size(), Pow2(p.bits - block.bits);
    Pow2Adds(32 - p.bits, p.bits - block.bits);
    DivTwice(a, s, k);
    DivTwice(p.addr, s, k);
  }

  lemma ShorterIsNotInside(p: Prefix, block: Prefix)
    requires p.Valid() && block.Valid() && block.bits > p.bits
    ensures p.Contains(p.Base()) && p.Contains(p.Base() + block.Size())
    ensures !block.Contains(p.Base()) || !block.Contains(p.Base() + block.Size())
  {
    var x, t := p.Base(), block.Size();
    Pow2Monotone(32 - block.bits, 32 - p.bits);
    RangeOf(p, x);
    RangeOf(p, x + t);
    RangeOf(block, x);
    RangeOf(block, x + t);
  }

  /** The test on prefix lengths and one address decides containment of the
      whole range. */
  lemma InsideIff(p: Prefix, block: Prefix)
    requires p.Valid() && block.Valid()
    ensures Inside(p, block) <==> block.bits <= p.bits && block.Contains(p.addr)
  {
    if block.bits <= p.bits {
      forall a: nat | p.Contains(a) ensures block.Contains(a) <==> block.Contains(p.addr) {
        LongerIsInside(p, block, a);
      }
      assert p.Contains(p.addr);
    } else {
      ShorterIsNotInside(p, block);
    }
  }

  /** isPrivate, as its loop over the blocks. */
  method IsPrivate(p: Prefix) returns (private: bool)
    requires p.Valid()
    ensures private <==> Private(p)
  {
    private := false;
    for i := 0 to |PRIVATE_BLOCKS|
      invariant !private
      invariant forall j | 0 <= j < i :: !Inside(p, PRIVATE_BLOCKS[j])
    {
      var block := PRIVATE_BLOCKS[i];
      assert block.Valid();
      InsideIff(p, block);
      if block.bits <= p.bits && block.Contains(p.addr) {
        private := true;
        return;
      }
    }
  }

  /** What netip.ParsePrefix makes of the text. */
  datatype Parsed = Malformed | IPv6 | IPv4(prefix: Prefix)

  datatype ScanRange = NotIPv4 | TooLarge | NotPrivate | Accepted(prefix: Prefix)

  /** Accepted exactly when the text is an IPv4 prefix of 16 bits or more that
      lies wholly inside one private block; the result covers the same
      addresses and starts at its first. */
  method ParseScanRange(parsed: Parsed) returns (r: ScanRange)
    requires parsed.IPv4? ==> parsed.prefix.Valid()
    ensures r.NotIPv4? <==> !parsed.IPv4?
    ensures r.TooLarge? <==> parsed.IPv4? && parsed.prefix.bits < 16
    ensures r.Accepted? <==> parsed.IPv4? && parsed.prefix.bits >= 16 && Private(parsed.prefix)
    ensures r.Accepted? ==> r.prefix.Valid() && r.prefix.bits == parsed.prefix.bits && r.prefix.Base() == r.prefix.addr
    ensures r.Accepted? ==> forall a: nat :: r.prefix.Contains(a) <==> parsed.prefix.Contains(a)
    ensures r.Accepted? ==> |HostAddrs(r.prefix)| <= 65534
  {
    if !parsed.IPv4? {
      return NotIPv4;
    }
    var prefix := parsed.prefix.Masked();
    MaskedSame(parsed.prefix);
    if prefix.bits < MIN_SCAN_PREFIX {
      return TooLarge;
    }
    var private := IsPrivate(prefix);
    assert forall b | b in PRIVATE_BLOCKS && b.Valid() :: Inside(prefix, b) <==> Inside(parsed.prefix, b);
    if !private {
      return NotPrivate;
    }
    AcceptedCap(prefix);
    r := Accepted(prefix);
  }

  // ----- Hosts -----

  /** The first offset probed and the one after the last. */
  function Bounds(p: Prefix): (r: (nat, nat))
    requires p.Valid()
    ensures r.0 <= r.1 <= p.Size()
  {
    if p.bits < 31 then Pow2Monotone(1, 32 - p.bits); (1, p.Size() - 1) else (0, p.Size())
  }

  function HostAddrs(p: Prefix): (r: seq<nat>)
    requires p.Valid()
  {
    var (first, last) := Bounds(p);
    var base := p.Base() + first;
    seq(last - first, i requires 0 <= i => base + i)
  }

  /** A host: an address of the range with a neighbour on each side in it, or
      any address of a /31 or /32. */
  predicate IsHost(p: Prefix, a: nat)
    requires p.Valid()
  {
    p.Contains(a) && (p.bits < 31 ==> a > 0 && p.Contains(a - 1) && p.Contains(a + 1))
  }

  lemma HostRange(p: Prefix, a: nat)
    requires p.Valid()
    ensures IsHost(p, a) <==> p.Base() + Bounds(p).0 <= a < p.Base() + Bounds(p).1
  {
    RangeOf(p, a);
    RangeOf(p, a + 1);
    if a > 0 {
      RangeOf(p, a - 1);
    }
  }

  /** The probed addresses are the hosts of the range, each once, increasing. */
  lemma HostsExact(p: Prefix)
    requires p.Valid()
    ensures |HostAddrs(p)| == if p.bits < 31 then Pow2(32 - p.bits) - 2 else Pow2(32 - p.bits)
    ensures forall i, j | 0 <= i < j < |HostAddrs(p)| :: HostAddrs(p)[i] < HostAddrs(p)[j]
    ensures forall a: nat :: a in HostAddrs(p) <==> IsHost(p, a)
    ensures forall a | a in HostAddrs(p) :: a < SPACE
  {
    RangeEnds(p);
    forall a: nat ensures a in HostAddrs(p) <==> IsHost(p, a) {
      HostRange(p, a);
      var i := a - p.Base() - Bounds(p).0;
      if 0 <= i < |HostAddrs(p)| {
        assert HostAddrs(p)[i] == a;
      }
    }
  }

  lemma AcceptedCap(p: Prefix)
    requires p.Valid() && p.bits >= 16
    ensures |HostAddrs(p)| <= 65534
  {
    HostsExact(p);
    SpaceIsPow2();
    Pow2Adds(16, 16);
    assert Pow2(8) == 256;
    Pow2Adds(8, 8);
    if p.bits > 16 {
      Pow2Monotone(32 - p.bits, 16);
    }
  }

  // ----- The text of an address -----

  /** The address without its last k octets. */
  function Shift(a: nat, k: nat): nat {
    if k == 0 then a else Shift(a, k - 1) / 256
  }

  function Octet(a: nat, k: nat): nat {
    Shift(a, k) % 256
  }

  /** netip.Addr.String for IPv4. */
  function Dotted(a: nat): string {
    Decimal(Shift(a, 3)) + ['.'] + (Decimal(Octet(a, 2)) + ['.'] +
        (Decimal(Octet(a, 1)) + ['.'] + Decimal(Octet(a, 0))))
  }

  lemma DecimalInjective(m: nat, n: nat)
    requires Decimal(m) == Decimal(n)
    ensures m == n
  {
    DecimalRoundTrip(m);
    DecimalRoundTrip(n);
  }

  lemma DottedPart(m: nat, n: nat, x: string, y: string)
    requires Decimal(m) + ['.'] + x == Decimal(n) + ['.'] + y
    ensures m == n && x == y
  {
    SplitUnique('.', Decimal(m), Decimal(n), x, y);
    DecimalInjective(m, n);
  }

  lemma SameShift(a: nat, b: nat, k: nat)
    requires Shift(a, k + 1) == Shift(b, k + 1) && Octet(a, k) == Octet(b, k)
    ensures Shift(a, k) == Shift(b, k)
  {
  }

  /** Distinct addresses have distinct texts. */
  lemma DottedInjective(a: nat, b: nat)
    requires Dotted(a) == Dotted(b)
    ensures a == b
  {
    var a1, b1 := Decimal(Octet(a, 1)) + ['.'] + Decimal(Octet(a, 0)),
        Decimal(Octet(b, 1)) + ['.'] + Decimal(Octet(b, 0));
    var a2, b2 := Decimal(Octet(a, 2)) + ['.'] + a1, Decimal(Octet(b, 2)) + ['.'] + b1;
    DottedPart(Shift(a, 3), Shift(b, 3), a2, b2);
    DottedPart(Octet(a, 2), Octet(b, 2), a1, b1);
    DottedPart(Octet(a, 1), Octet(b, 1), Decimal(Octet(a, 0)), Decimal(Octet(b, 0)));
    DecimalInjective(Octet(a, 0), Octet(b, 0));
    SameShift(a, b, 2);
    SameShift(a, b, 1);
    SameShift(a, b, 0);
  }

  // ----- Reading a dotted quad -----

  /** The parts of a text between its dots. */
  function Split(s: string): (parts: seq<string>)
    ensures parts != []
  {
    if s == "" then [""]
    else if s[0] == '.' then [""] + Split(s[1..])
    else var rest := Split(s[1..]); [[s[0]] + rest[0]] + rest[1..]
  }

  lemma {:induction false} SplitPlain(s: string)
    requires '.' !in s
    ensures Split(s) == [s]
  {
    if s != "" {
      SplitPlain(s[1..]);
      assert s == [s[0]] + s[1..];
    }
  }

  lemma {:induction false} SplitDot(a: string, x: string)
    requires '.' !in a
    ensures Split(a + ['.'] + x) == [a] + Split(x)
  {
    var s := a + ['.'] + x;
    if a == "" {
      assert s[0] == '.' && s[1..] == x;
    } else {
      SplitDot(a[1..], x);
      assert s[0] == a[0] && s[1..] == a[1..] + ['.'] + x;
      assert a == [a[0]] + a[1..];
    }
  }

  /** A decimal number below 256. */
  predicate IsOctet(s: string) {
    s != "" && (forall i | 0 <= i < |s| :: IsDigit(s[i])) && DecimalValue(s) < 256
  }

  /** Four decimal octets between dots, the most significant first. */
  function ParseDotted(s: string): Option<int> {
    var p := Split(s);
    if |p| == 4 && IsOctet(p[0]) && IsOctet(p[1]) && IsOctet(p[2]) && IsOctet(p[3]) then
      Some(((DecimalValue(p[0]) * 256 + DecimalValue(p[1])) * 256 + DecimalValue(p[2])) * 256 + DecimalValue(p[3]))
    else None
  }

  lemma DecimalOctet(n: nat)
    requires n < 256
    ensures IsOctet(Decimal(n)) && '.' !in Decimal(n) && DecimalValue(Decimal(n)) == n
  {
    DecimalRoundTrip(n);
    NoDots(Decimal(n));
  }

  lemma NoDots(s: string)
    requires forall i | 0 <= i < |s| :: IsDigit(s[i])
    ensures '.' !in s
  {
  }

  lemma SplitsInFour(a: string, b: string, c: string, d: string)
    requires '.' !in a && '.' !in b && '.' !in c && '.' !in d
    ensures Split(a + ['.'] + (b + ['.'] + (c + ['.'] + d))) == [a, b, c, d]
  {
    var cd := c + ['.'] + d;
    var bcd := b + ['.'] + cd;
    SplitPlain(d);
    SplitDot(c, d);
    SplitDot(b, cd);
    SplitDot(a, bcd);
    assert [c] + [d] == [c, d] && [b] + [c, d] == [b, c, d] && [a] + [b, c, d] == [a, b, c, d];
  }

  lemma OctetsMakeAddress(a: nat)
    requires a < SPACE
    ensures Shift(a, 3) < 256
    ensures ((Shift(a, 3) * 256 + Octet(a, 2)) * 256 + Octet(a, 1)) * 256 + Octet(a, 0) == a
  {
    assert Shift(a, 2) == Shift(a, 3) * 256 + Octet(a, 2);
    assert Shift(a, 1) == Shift(a, 2) * 256 + Octet(a, 1);
  }

  /** The text of an address reads back as that address. */
  lemma DottedRoundTrip(a: nat)
    requires a < SPACE
    ensures ParseDotted(Dotted(a)) == Some(a)
  {
    OctetsMakeAddress(a);
    DecimalOctet(Shift(a, 3));
    DecimalOctet(Octet(a, 2));
    DecimalOctet(Octet(a, 1));
    DecimalOctet(Octet(a, 0));
    SplitsInFour(Decimal(Shift(a, 3)), Decimal(Octet(a, 2)), Decimal(Octet(a, 1)), Decimal(Octet(a, 0)));
  }

  // ----- What is probed is private -----

  /** An address of 10/8, 172.16/12 or 192.168/16, by its octets. */
  predicate PrivateAddress(a: nat) {
    || Shift(a, 3) == 10
    || (Shift(a, 3) == 172 && 16 <= Octet(a, 2) <= 31)
    || (Shift(a, 3) == 192 && Octet(a, 2) == 168)
  }

  lemma BlockSizes()
    ensures Pow2(16) == 0x1_0000 && Pow2(20) == 0x10_0000 && Pow2(24) == 0x100_0000
  {
    assert Pow2(4) == 16 && Pow2(8) == 256;
    Pow2Adds(8, 8);
    Pow2Adds(4, 16);
    Pow2Adds(8, 16);
  }

  lemma ShiftsAreQuotients(a: nat)
    ensures Shift(a, 2) == a / 0x1_0000 && Shift(a, 3) == a / 0x100_0000
  {
    assert Shift(a, 1) == a / 256;
    assert Shift(a, 2) == a / 256 / 256;
    assert Shift(a, 3) == a / 256 / 256 / 256;
  }

  /** The private blocks are those of section 3 of RFC 1918, address by address. */
  lemma PrivateBlocksAre(a: nat)
    ensures (exists b | b in PRIVATE_BLOCKS :: b.Valid() && b.Contains(a)) <==> PrivateAddress(a)
  {
    BlocksContain(a);
    QuotientsArePrivate(a);
    var b1, b2, b3 := PRIVATE_BLOCKS[0], PRIVATE_BLOCKS[1], PRIVATE_BLOCKS[2];
    assert b1 in PRIVATE_BLOCKS && b2 in PRIVATE_BLOCKS && b3 in PRIVATE_BLOCKS;
  }

  lemma BlocksContain(a: nat)
    ensures PRIVATE_BLOCKS[0].Valid() && (PRIVATE_BLOCKS[0].Contains(a) <==> a / 0x100_0000 == 10)
    ensures PRIVATE_BLOCKS[1].Valid() && (PRIVATE_BLOCKS[1].Contains(a) <==> a / 0x10_0000 == 172 * 16 + 1)
    ensures PRIVATE_BLOCKS[2].Valid() && (PRIVATE_BLOCKS[2].Contains(a) <==> a / 0x1_0000 == 192 * 256 + 168)
  {
    BlockSizes();
  }

  lemma QuotientsArePrivate(a: nat)
    ensures PrivateAddress(a) <==>
            a / 0x100_0000 == 10 || a / 0x10_0000 == 172 * 16 + 1 || a / 0x1_0000 == 192 * 256 + 168
  {
    ShiftsAreQuotients(a);
  }

  lemma SmallDecimals()
    ensures Decimal(10) == "10" && Decimal(172) == "172" && Decimal(192) == "192" && Decimal(168) == "168"
  {
    assert Decimal(1) == "1";
    assert Decimal(17) == Decimal(1) + "7" && Decimal(19) == Decimal(1) + "9" && Decimal(16) == Decimal(1) + "6";
  }

  /** Every text listed for an accepted range reads back as a host of it and is a
      private address, also to the eye. */
  lemma HostTextsArePrivate(p: Prefix, x: string)
    requires p.Valid() && Private(p) && x in HostTexts(p)
    ensures var a := ParseDotted(x);
            a.Some? && 0 <= a.value < SPACE && IsHost(p, a.value) && PrivateAddress(a.value)
    ensures "10." <= x || "172." <= x || "192.168." <= x
  {
    var k :| 0 <= k < |HostTexts(p)| && HostTexts(p)[k] == x;
    var a := HostAddrs(p)[k];
    HostsExact(p);
    assert a in HostAddrs(p);
    DottedRoundTrip(a);
    var b :| b in PRIVATE_BLOCKS && b.Valid() && Inside(p, b);
    assert b.Contains(a);
    PrivateBlocksAre(a);
    PrivateLooks(a);
  }

  lemma PrivateLooks(a: nat)
    requires PrivateAddress(a)
    ensures "10." <= Dotted(a) || "172." <= Dotted(a) || "192.168." <= Dotted(a)
  {
    SmallDecimals();
    var x := Dotted(a);
    var rest := Decimal(Octet(a, 2)) + ['.'] + (Decimal(Octet(a, 1)) + ['.'] + Decimal(Octet(a, 0)));
    assert x == Decimal(Shift(a, 3)) + ['.'] + rest;
    if Shift(a, 3) == 10 {
      assert x[..3] == "10.";
    } else if Shift(a, 3) == 172 {
      assert x[..4] == "172.";
    } else {
      assert rest[..4] == "168.";
      assert x[..8] == "192.168.";
    }
  }

  function Texts(addrs: seq<nat>): (r: seq<string>)
    ensures |r| == |addrs| && forall i | 0 <= i < |r| :: r[i] == Dotted(addrs[i])
  {
    seq(|addrs|, i requires 0 <= i < |addrs| => Dotted(addrs[i]))
  }

  /** Hosts, as its loop. */
  method Hosts(p: Prefix) returns (hosts: seq<string>)
    requires p.Valid()
    ensures hosts == HostTexts(p)
  {
    var prefix := p.Masked();
    var size := Pow2(32 - prefix.bits);
    var first, last := 0, size;
    if prefix.bits < 31 {
      first, last := 1, size - 1;
    }
    assert (first, last) == Bounds(p);
    hosts := [];
    var addr := prefix.addr;
    ghost var base := addr;
    for i := 0 to last
      invariant addr == base + i
      invariant |hosts| == if i < first then 0 else i - first
      invariant forall k | 0 <= k < |hosts| :: hosts[k] == Dotted(base + first + k)
    {
      if i >= first {
        hosts := hosts + [Dotted(addr)];
      }
      addr := addr + 1;
    }
    HostTextsAre(p, hosts);
  }

  lemma HostTextsAre(p: Prefix, hosts: seq<string>)
    requires p.Valid() && |hosts| == Bounds(p).1 - Bounds(p).0
    requires forall k | 0 <= k < |hosts| :: hosts[k] == Dotted(p.Base() + Bounds(p).0 + k)
    ensures hosts == HostTexts(p)
  {
  }

  // ----- All targets -----

  function HostTexts(p: Prefix): seq<string>
    requires p.Valid()
  {
    Texts(HostAddrs(p))
  }

  /** The hosts of each range. */
  ghost function HostLists(ranges: seq<Prefix>): (r: seq<seq<string>>)
    requires forall i | 0 <= i < |ranges| :: ranges[i].Valid()
    ensures |r| == |ranges| && forall i | 0 <= i < |r| :: r[i] == HostTexts(ranges[i])
  {
    seq(|ranges|, i requires 0 <= i < |ranges| => HostTexts(ranges[i]))
  }

  /** The lists one after the other. */
  ghost function Flat(lists: seq<seq<string>>): seq<string>
    decreases |lists|
  {
    if lists == [] then [] else Flat(lists[..|lists| - 1]) + lists[|lists| - 1]
  }

  /** The hosts of every range, range by range. */
  ghost function AllHosts(ranges: seq<Prefix>): seq<string>
    requires forall i | 0 <= i < |ranges| :: ranges[i].Valid()
  {
    Flat(HostLists(ranges))
  }

  /** The first occurrence of each element, in order. */
  ghost function Firsts(all: seq<string>): seq<string>
    decreases |all|
  {
    if all == [] then [] else
      var front, last := all[..|all| - 1], all[|all| - 1];
      if last in front then Firsts(front) else Firsts(front) + [last]
  }

  lemma FirstsNext(all: seq<string>, x: string)
    ensures Firsts(all + [x]) == if x in all then Firsts(all) else Firsts(all) + [x]
  {
    assert (all + [x])[..|all|] == all;
  }

  /** Where an element first occurs. */
  ghost function FirstAt(all: seq<string>, x: string): (k: nat)
    requires x in all
    ensures k < |all| && all[k] == x && x !in all[..k]
    decreases |all|
  {
    var front := all[..|all| - 1];
    if x in front then
      var k := FirstAt(front, x);
      assert all[..k] == front[..k];
      k
    else |all| - 1
  }

  /** Firsts keeps the elements, drops the repetitions and orders what is left
      by first occurrence. */
  lemma {:induction false} FirstsMeaning(all: seq<string>)
    ensures forall x :: x in Firsts(all) <==> x in all
    ensures forall i, j | 0 <= i < j < |Firsts(all)| ::
              Firsts(all)[i] in all && Firsts(all)[j] in all &&
                  FirstAt(all, Firsts(all)[i]) < FirstAt(all, Firsts(all)[j])
    decreases |all|
  {
    if all != [] {
      var front, last := all[..|all| - 1], all[|all| - 1];
      FirstsMeaning(front);
      assert all == front + [last];
      var f := Firsts(all);
      forall i, j | 0 <= i < j < |f|
        ensures f[i] in all && f[j] in all && FirstAt(all, f[i]) < FirstAt(all, f[j])
      {
        assert f[i] in Firsts(front);
      }
    }
  }

  lemma {:induction false} FlatHas(lists: seq<seq<string>>, x: string)
    ensures x in Flat(lists) <==> exists i | 0 <= i < |lists| :: x in lists[i]
    decreases |lists|
  {
    if lists != [] {
      var n := |lists| - 1;
      FlatHas(lists[..n], x);
      assert forall i | 0 <= i < n :: lists[..n][i] == lists[i];
    }
  }

  lemma AllHostsAre(ranges: seq<Prefix>, x: string)
    requires forall i | 0 <= i < |ranges| :: ranges[i].Valid()
    ensures x in AllHosts(ranges) <==> exists i | 0 <= i < |ranges| :: x in HostTexts(ranges[i])
  {
    FlatHas(HostLists(ranges), x);
  }

  ghost predicate SeenRight(seen: set<string>, out: seq<string>, all: seq<string>) {
    out == Firsts(all) && forall x :: x in seen <==> x in all
  }

  lemma SeeOne(seen: set<string>, out: seq<string>, all: seq<string>, host: string)
    requires SeenRight(seen, out, all)
    ensures if host in seen then SeenRight(seen, out, all + [host])
            else SeenRight(seen + {host}, out + [host], all + [host])
  {
    FirstsNext(all, host);
  }

  /** The inner loop of ScanHosts: the hosts of one range. */
  method AppendNew(seen0: set<string>, out0: seq<string>, hosts: seq<string>, ghost all: seq<string>)
    returns (seen: set<string>, out: seq<string>)
    requires SeenRight(seen0, out0, all)
    ensures SeenRight(seen, out, all + hosts)
  {
    seen, out := seen0, out0;
    assert all + hosts[..0] == all;
    for k := 0 to |hosts|
      invariant SeenRight(seen, out, all + hosts[..k])
    {
      var host := hosts[k];
      SeeOne(seen, out, all + hosts[..k], host);
      assert all + hosts[..k] + [host] == all + hosts[..k + 1];
      if host in seen {
        continue;
      }
      seen := seen + {host};
      out := out + [host];
    }
    assert hosts[..|hosts|] == hosts;
  }

  /** ScanHosts, as its loop over the ranges. */
  method ScanHosts(ranges: seq<Prefix>) returns (out: seq<string>)
    requires forall i | 0 <= i < |ranges| :: ranges[i].Valid()
    ensures out == Firsts(AllHosts(ranges))
  {
    var seen: set<string> := {};
    out := [];
    ghost var lists := HostLists(ranges);
    for i := 0 to |ranges|
      invariant SeenRight(seen, out, Flat(lists[..i]))
    {
      var hosts := Hosts(ranges[i]);
      seen, out := AppendNew(seen, out, hosts, Flat(lists[..i]));
      assert lists[..i + 1][..i] == lists[..i] && lists[i] == hosts;
    }
    assert lists[..|ranges|] == lists;
  }

  /** The scan targets are exactly the hosts of the ranges, each address once. */
  lemma ScanTargets(ranges: seq<Prefix>, targets: seq<string>)
    requires forall i | 0 <= i < |ranges| :: ranges[i].Valid()
    requires targets == Firsts(AllHosts(ranges))
    ensures forall i, j | 0 <= i < j < |targets| :: targets[i] != targets[j]
    ensures forall a: nat :: Dotted(a) in targets <==> exists i | 0 <= i < |ranges| :: a in HostAddrs(ranges[i])
    ensures forall x | x in targets :: exists i, a | 0 <= i < |ranges| && a in HostAddrs(ranges[i]) :: x == Dotted(a)
  {
    var all := AllHosts(ranges);
    FirstsMeaning(all);
    forall a: nat ensures Dotted(a) in targets <==> exists i | 0 <= i < |ranges| :: a in HostAddrs(ranges[i]) {
      AllHostsAre(ranges, Dotted(a));
      forall i | 0 <= i < |ranges| ensures Dotted(a) in HostTexts(ranges[i]) <==> a in HostAddrs(ranges[i]) {
        TextsOf(HostAddrs(ranges[i]), a);
      }
    }
    forall x | x in targets ensures exists i, a | 0 <= i < |ranges| && a in HostAddrs(ranges[i]) :: x == Dotted(a) {
      AllHostsAre(ranges, x);
      var i :| 0 <= i < |ranges| && x in HostTexts(ranges[i]);
      var k :| 0 <= k < |HostAddrs(ranges[i])| && HostTexts(ranges[i])[k] == x;
      assert HostAddrs(ranges[i])[k] in HostAddrs(ranges[i]);
    }
  }

  lemma TextsOf(addrs: seq<nat>, a: nat)
    ensures Dotted(a) in Texts(addrs) <==> a in addrs
  {
    if Dotted(a) in Texts(addrs) {
      var k :| 0 <= k < |addrs| && Texts(addrs)[k] == Dotted(a);
      DottedInjective(addrs[k], a);
    }
    if a in addrs {
      var k :| 0 <= k < |addrs| && addrs[k] == a;
      assert Texts(addrs)[k] == Dotted(a);
    }
  }
}
