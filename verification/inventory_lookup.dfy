/** The newer inventory of collector/task/inventory: `parseInventory`, which splits hosts into an
    exact-address map and an ordered list of CIDR networks, and `Inventory.GetHost`, which resolves
    an address by exact match first and longest network prefix second. The implementation file is
    not part of this model; the behaviour is the one inventory_test.go pins down. `net.ParseCIDR` and
    `net.ParseIP` are parameters. */
module InventoryLookup {
  import opened Wrappers
  import opened IPv4
  import Collections
  import opened InventoryHosts

  datatype NetworkHost = NetworkHost(network: Network, host: Host)

  datatype Inventory = Inventory(ipAddresses: map<string, Host>, networkCIDRAddresses: seq<NetworkHost>)

  /** A host with neither domain nor hostgroup carries no identity. */
  predicate IsUnknown(h: Host) {
    h.domain == "" && h.hostgroup == ""
  }

  /** The exact-map entry a host contributes, if any. */
  function ExactEntry(h: Host): Option<Host> {
    if !IsUnknown(h) && '/' !in h.ipAddress then Some(h) else None
  }

  /** The network entry a host contributes, if any: CIDR notation that parses. */
  function NetworkEntry(h: Host, parseCIDR: string -> Option<Network>): Option<NetworkHost> {
    if !IsUnknown(h) && '/' in h.ipAddress && parseCIDR(h.ipAddress).Some? then
      Some(NetworkHost(parseCIDR(h.ipAddress).value, h))
    else None
  }

  /** `NetworkEntry` with the CIDR parser fixed, as a function value. */
  function NetworkEntries(parseCIDR: string -> Option<Network>): Host -> Option<NetworkHost> {
    (h: Host) => NetworkEntry(h, parseCIDR)
  }

  const EmptyInventory := Inventory(map[], [])

  /** One iteration of the build loop. */
  function AddHost(inv: Inventory, h: Host, parseCIDR: string -> Option<Network>): Inventory {
    if IsUnknown(h) then inv
    else if '/' in h.ipAddress then
      match parseCIDR(h.ipAddress)
      case None => inv
      case Some(n) => inv.(networkCIDRAddresses := inv.networkCIDRAddresses + [NetworkHost(n, h)])
    else inv.(ipAddresses := inv.ipAddresses[h.ipAddress := h])
  }

  /** The declarative description of the build: the networks are the parsable CIDR hosts in input
      order, and the exact map indexes the known plain-address hosts by address, a later duplicate
      replacing an earlier one. */
  function Reference(hosts: seq<Host>, parseCIDR: string -> Option<Network>): Inventory {
    Inventory(
      Collections.IndexLast(Collections.FilterMap(hosts, ExactEntry), AddressOf),
      Collections.FilterMap(hosts, NetworkEntries(parseCIDR)))
  }

  /** One loop iteration extends the reference inventory of the prefix to that of the longer input. */
  lemma AddHostExtendsReference(hosts: seq<Host>, h: Host, parseCIDR: string -> Option<Network>)
    ensures AddHost(Reference(hosts, parseCIDR), h, parseCIDR) == Reference(hosts + [h], parseCIDR)
  {
    var exact := Collections.FilterMap(hosts, ExactEntry);
    var nets := Collections.FilterMap(hosts, NetworkEntries(parseCIDR));
    var inv := Reference(hosts, parseCIDR);
    var inv' := Reference(hosts + [h], parseCIDR);
    Collections.FilterMapAppend(hosts, [h], NetworkEntries(parseCIDR));
    Collections.FilterMapAppend(hosts, [h], ExactEntry);
    Collections.FilterMapSingleton(h, NetworkEntries(parseCIDR));
    Collections.FilterMapSingleton(h, ExactEntry);
    if IsUnknown(h) {
      assert inv'.networkCIDRAddresses == nets;
      assert Collections.FilterMap(hosts + [h], ExactEntry) == exact;
    } else if '/' in h.ipAddress {
      assert Collections.FilterMap(hosts + [h], ExactEntry) == exact;
      if parseCIDR(h.ipAddress).Some? {
        assert inv'.networkCIDRAddresses == nets + [NetworkHost(parseCIDR(h.ipAddress).value, h)];
      } else {
        assert inv'.networkCIDRAddresses == nets;
      }
    } else {
      assert inv'.networkCIDRAddresses == nets;
      assert Collections.FilterMap(hosts + [h], ExactEntry) == exact + [h];
      Collections.IndexLastSnoc(exact, h, AddressOf);
    }
  }

  /** `parseInventory(hosts)`: a loop over the hosts that skips unknown hosts and unparsable CIDR
      notation, appends parsed networks and writes plain addresses into the exact map. It builds
      exactly the reference inventory. */
  function ParseInventory(hosts: seq<Host>, parseCIDR: string -> Option<Network>): (inv: Inventory)
    ensures inv == Reference(hosts, parseCIDR)
    decreases |hosts|
  {
    if |hosts| == 0 then EmptyInventory
    else
      var n := |hosts| - 1;
      assert hosts == hosts[..n] + [hosts[n]];
      AddHostExtendsReference(hosts[..n], hosts[n], parseCIDR);
      AddHost(ParseInventory(hosts[..n], parseCIDR), hosts[n], parseCIDR)
  }

  /** Every stored host has a domain or a hostgroup. */
  lemma ParseInventoryDropsUnknown(hosts: seq<Host>, parseCIDR: string -> Option<Network>)
    ensures forall k :: k in ParseInventory(hosts, parseCIDR).ipAddresses ==>
      !IsUnknown(ParseInventory(hosts, parseCIDR).ipAddresses[k])
    ensures forall nh :: nh in ParseInventory(hosts, parseCIDR).networkCIDRAddresses ==> !IsUnknown(nh.host)
  {
  }

  /** The exact map's keys are exactly the addresses of the known plain-address hosts, and each
      key maps to a host with that address. */
  lemma ParseInventoryExactKeys(hosts: seq<Host>, parseCIDR: string -> Option<Network>, a: string)
    ensures a in ParseInventory(hosts, parseCIDR).ipAddresses <==>
      exists i :: 0 <= i < |hosts| && ExactEntry(hosts[i]).Some? && hosts[i].ipAddress == a
    ensures a in ParseInventory(hosts, parseCIDR).ipAddresses ==>
      ParseInventory(hosts, parseCIDR).ipAddresses[a].ipAddress == a
  {
    var exact := Collections.FilterMap(hosts, ExactEntry);
    var m := Collections.IndexLast(exact, AddressOf);
    assert ParseInventory(hosts, parseCIDR).ipAddresses == m;
    if a in m {
      ExactKeyHasHost(hosts, a);
    }
    if exists i :: 0 <= i < |hosts| && ExactEntry(hosts[i]).Some? && hosts[i].ipAddress == a {
      var i :| 0 <= i < |hosts| && ExactEntry(hosts[i]).Some? && hosts[i].ipAddress == a;
      ExactHostHasKey(hosts, i);
    }
  }

  lemma {:induction false} ExactKeyHasHost(hosts: seq<Host>, a: string)
    requires a in Collections.IndexLast(Collections.FilterMap(hosts, ExactEntry), AddressOf)
    ensures exists i :: 0 <= i < |hosts| && ExactEntry(hosts[i]).Some? && hosts[i].ipAddress == a
  {
    var exact := Collections.FilterMap(hosts, ExactEntry);
    var m := Collections.IndexLast(exact, AddressOf);
    var h := m[a];
    assert h in exact && h.ipAddress == a;
    var i :| 0 <= i < |hosts| && ExactEntry(hosts[i]) == Some(h);
    assert hosts[i] == h;
  }

  lemma {:induction false} ExactHostHasKey(hosts: seq<Host>, i: nat)
    requires i < |hosts| && ExactEntry(hosts[i]).Some?
    ensures hosts[i].ipAddress in Collections.IndexLast(Collections.FilterMap(hosts, ExactEntry), AddressOf)
  {
    var exact := Collections.FilterMap(hosts, ExactEntry);
    assert ExactEntry(hosts[i]).value in exact;
    var j :| 0 <= j < |exact| && exact[j] == hosts[i];
    assert AddressOf(exact[j]) in Collections.IndexLast(exact, AddressOf).Keys;
  }

  /** A host that contributes nothing (unknown, or CIDR notation that does not parse, such as
      "100.100.100.100/100") can be removed without changing the built inventory. */
  lemma SkippedHostIrrelevant(before: seq<Host>, h: Host, after: seq<Host>, parseCIDR: string -> Option<Network>)
    requires IsUnknown(h) || ('/' in h.ipAddress && parseCIDR(h.ipAddress).None?)
    ensures ParseInventory(before + [h] + after, parseCIDR) == ParseInventory(before + after, parseCIDR)
  {
    Collections.FilterMapSkipsRejected(before, h, after, NetworkEntries(parseCIDR));
    Collections.FilterMapSkipsRejected(before, h, after, ExactEntry);
  }

  /** Index of the first network with the longest prefix that contains `ip`: the loop over the
      networks replaces its best match only on a strictly longer prefix. */
  function LongestMatch(nets: seq<NetworkHost>, ip: Addr): (r: Option<nat>)
    ensures r.None? <==> forall j :: 0 <= j < |nets| ==> !Contains(nets[j].network, ip)
    ensures r.Some? ==> r.value < |nets| && Contains(nets[r.value].network, ip)
    ensures r.Some? ==> forall j :: 0 <= j < |nets| && Contains(nets[j].network, ip) ==>
      nets[j].network.prefixLen <= nets[r.value].network.prefixLen
    ensures r.Some? ==> forall j :: 0 <= j < r.value && Contains(nets[j].network, ip) ==>
      nets[j].network.prefixLen < nets[r.value].network.prefixLen
    decreases |nets|
  {
    if |nets| == 0 then None
    else
      var n := |nets| - 1;
      var best := LongestMatch(nets[..n], ip);
      assert forall j :: 0 <= j < n ==> nets[..n][j] == nets[j];
      if Contains(nets[n].network, ip) && (best.None? || nets[n].network.prefixLen > nets[best.value].network.prefixLen) then
        Some(n)
      else
        best
  }

  datatype HostMatch = HostMatch(host: Host, found: bool)

  /** `Inventory.GetHost(address)`: an exact entry wins outright; otherwise the longest-prefix
      network containing the address; otherwise the zero Host and false. An address that does
      not parse as an IP is contained in no network. */
  function GetHost(inv: Inventory, address: string, parseIP: string -> Option<Addr>): (r: HostMatch)
    ensures address in inv.ipAddresses ==> r == HostMatch(inv.ipAddresses[address], true)
    ensures !r.found ==> r.host == ZeroHost
    ensures address !in inv.ipAddresses ==>
      (r.found <==> (parseIP(address).Some? &&
        exists j :: 0 <= j < |inv.networkCIDRAddresses| && Contains(inv.networkCIDRAddresses[j].network, parseIP(address).value)))
    ensures address !in inv.ipAddresses && r.found ==>
      exists j :: 0 <= j < |inv.networkCIDRAddresses| && r.host == inv.networkCIDRAddresses[j].host &&
        IsLongestMatch(inv.networkCIDRAddresses, parseIP(address).value, j)
  {
    if address in inv.ipAddresses then HostMatch(inv.ipAddresses[address], true)
    else
      match parseIP(address)
      case None => HostMatch(ZeroHost, false)
      case Some(ip) =>
        match LongestMatch(inv.networkCIDRAddresses, ip)
        case None => HostMatch(ZeroHost, false)
        case Some(j) => HostMatch(inv.networkCIDRAddresses[j].host, true)
  }

  /** Network `j` contains `ip` and no containing network has a longer prefix. */
  ghost predicate IsLongestMatch(nets: seq<NetworkHost>, ip: Addr, j: nat) {
    && j < |nets|
    && Contains(nets[j].network, ip)
    && forall k :: 0 <= k < |nets| && Contains(nets[k].network, ip) ==> nets[k].network.prefixLen <= nets[j].network.prefixLen
  }

  /** With a /0 network present, every parsable address is found. */
  lemma ZeroNetworkAlwaysMatches(inv: Inventory, address: string, parseIP: string -> Option<Addr>, j: nat)
    requires j < |inv.networkCIDRAddresses| && inv.networkCIDRAddresses[j].network.prefixLen == 0
    requires parseIP(address).Some?
    ensures GetHost(inv, address, parseIP).found
  {
    ZeroPrefixContainsAll(inv.networkCIDRAddresses[j].network, parseIP(address).value);
  }

  // The fixture of the GetHost tests: two exact hosts, 10.0.0.0/17, 10.0.32.0/19 and 0.0.0.0/0.

  const Cidr1 := Host("unit-test-cidr-1.local", "unit-test-cidr-1", "10.0.0.0/17")
  const Cidr2 := Host("unit-test-cidr-2.local", "unit-test-cidr-2", "10.0.32.0/19")
  const QuadZero := Host("unit-test-cidr-quad-zero.local", "unit-test-cidr-quad-zero", "0.0.0.0/0")

  function Fixture(): Inventory {
    Inventory(
      map["1.2.3.4" := Host("unit-test.local", "unit-test", "1.2.3.4"),
          "1.2.3.5" := Host("unit-test.local", "unit-test", "1.2.3.5")],
      [NetworkHost(Network(Quad(10, 0, 0, 0), 17), Cidr1),
       NetworkHost(Network(Quad(10, 0, 32, 0), 19), Cidr2),
       NetworkHost(Network(0, 0), QuadZero)])
  }

  function FixtureParseIP(s: string): Option<Addr> {
    if s == "10.0.31.1" then Some(Quad(10, 0, 31, 1))
    else if s == "10.0.32.1" then Some(Quad(10, 0, 32, 1))
    else if s == "123.123.123.123" then Some(Quad(123, 123, 123, 123))
    else None
  }

  /** 10.0.31.1 lies in the /17 and the /0 only; the /17 wins. */
  lemma GetHostFixtureSeventeen()
    ensures GetHost(Fixture(), "10.0.31.1", FixtureParseIP) == HostMatch(Cidr1, true)
  {
    Pow2Values();
    var nets := Fixture().networkCIDRAddresses;
    var ip := Quad(10, 0, 31, 1);
    assert ip == 167780097;
    assert Contains(nets[0].network, ip);
    assert !Contains(nets[1].network, ip);
    assert nets[..1][..0] == [] && nets[..2][..1] == nets[..1] && nets[..3] == nets;
    assert LongestMatch(nets[..1], ip) == Some(0);
    assert LongestMatch(nets[..2], ip) == Some(0);
    assert LongestMatch(nets, ip) == Some(0);
  }

  /** 10.0.32.1 lies in the /17, the /19 and the /0; the /19 wins. */
  lemma GetHostFixtureLongestPrefix()
    ensures GetHost(Fixture(), "10.0.32.1", FixtureParseIP) == HostMatch(Cidr2, true)
  {
    Pow2Values();
    var nets := Fixture().networkCIDRAddresses;
    var ip := Quad(10, 0, 32, 1);
    assert ip == 167780353;
    assert Contains(nets[0].network, ip);
    assert Contains(nets[1].network, ip);
    assert nets[..1][..0] == [] && nets[..2][..1] == nets[..1] && nets[..3] == nets;
    assert LongestMatch(nets[..1], ip) == Some(0);
    assert LongestMatch(nets[..2], ip) == Some(1);
    assert LongestMatch(nets, ip) == Some(1);
  }

  /** 123.123.123.123 is covered only by 0.0.0.0/0, which still counts as found; the exact
      entry 1.2.3.4 is returned directly; an empty inventory finds nothing. */
  lemma GetHostFixtureFallbacks()
    ensures GetHost(Fixture(), "1.2.3.4", FixtureParseIP) == HostMatch(Host("unit-test.local", "unit-test", "1.2.3.4"), true)
    ensures GetHost(Fixture(), "123.123.123.123", FixtureParseIP) == HostMatch(QuadZero, true)
    ensures GetHost(EmptyInventory, "123.123.123.123", FixtureParseIP) == HostMatch(ZeroHost, false)
  {
    Pow2Values();
    var nets := Fixture().networkCIDRAddresses;
    var ip := Quad(123, 123, 123, 123);
    assert ip == 2071690107;
    assert !Contains(nets[0].network, ip);
    assert !Contains(nets[1].network, ip);
    ZeroPrefixContainsAll(nets[2].network, ip);
    assert nets[..1][..0] == [] && nets[..2][..1] == nets[..1] && nets[..3] == nets;
    assert LongestMatch(nets[..1], ip) == None;
    assert LongestMatch(nets[..2], ip) == None;
    assert LongestMatch(nets, ip) == Some(2);
  }

  /** A host in CIDR notation /0 is accepted by the build. */
  lemma ParseInventoryKeepsZeroNetwork()
    ensures ParseInventory([Host("unit-test.local", "unit-test", "1.2.3.4"), QuadZero], ZeroNetworkParser)
      == Inventory(map["1.2.3.4" := Host("unit-test.local", "unit-test", "1.2.3.4")], [NetworkHost(Network(0, 0), QuadZero)])
  {
    var a := Host("unit-test.local", "unit-test", "1.2.3.4");
    assert '/' in QuadZero.ipAddress && '/' !in a.ipAddress;
    assert [a, QuadZero][..1] == [a] && [a][..0] == [];
    assert ParseInventory([a], ZeroNetworkParser) == AddHost(EmptyInventory, a, ZeroNetworkParser);
  }

  function ZeroNetworkParser(s: string): Option<Network> {
    if s == "0.0.0.0/0" then Some(Network(0, 0)) else None
  }
}
