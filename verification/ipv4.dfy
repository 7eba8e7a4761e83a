/** IPv4 addresses as 32-bit numbers and CIDR networks as (base, prefix length),
    the two shapes `net.ParseIP` and `net.ParseCIDR` produce for IPv4 text. */
module IPv4 {

  const AddrLimit: nat := 0x1_0000_0000

  type Addr = n: nat | n < AddrLimit

  type PrefixLen = n: nat | n <= 32

  datatype Network = Network(base: Addr, prefixLen: PrefixLen)

  function Pow2(k: nat): (r: nat)
    ensures r >= 1
  {
    if k == 0 then 1 else 2 * Pow2(k - 1)
  }

  /** The address a.b.c.d. */
  function Quad(a: nat, b: nat, c: nat, d: nat): Addr
    requires a < 256 && b < 256 && c < 256 && d < 256
  {
    a * 0x100_0000 + b * 0x1_0000 + c * 0x100 + d
  }

  /** `net.IPNet.Contains`: the leading `prefixLen` bits of `ip` are those of the network base. */
  predicate Contains(n: Network, ip: Addr) {
    var block := Pow2(32 - n.prefixLen);
    ip / block == n.base / block
  }

  lemma {:induction false} Pow2Add(a: nat, b: nat)
    ensures Pow2(a + b) == Pow2(a) * Pow2(b)
    decreases a
  {
    if a > 0 {
      Pow2Add(a - 1, b);
    }
  }

  /** The block sizes the examples and the /0 case need. */
  lemma Pow2Values()
    ensures Pow2(2) == 4 && Pow2(13) == 0x2000 && Pow2(15) == 0x8000 && Pow2(32) == AddrLimit
  {
    assert Pow2(1) == 2;
    Pow2Add(1, 1);
    Pow2Add(2, 2);
    Pow2Add(4, 4);
    Pow2Add(8, 4);
    Pow2Add(12, 1);
    Pow2Add(13, 2);
    Pow2Add(8, 8);
    Pow2Add(16, 16);
  }

  /** A /0 network (such as 0.0.0.0/0) contains every address. */
  lemma ZeroPrefixContainsAll(n: Network, ip: Addr)
    requires n.prefixLen == 0
    ensures Contains(n, ip)
  {
    Pow2Values();
  }

  /** A /32 network contains exactly its base address. */
  lemma FullPrefixContainsOnlyBase(n: Network, ip: Addr)
    requires n.prefixLen == 32
    ensures Contains(n, ip) <==> ip == n.base
  {
    assert Pow2(0) == 1;
  }
}
