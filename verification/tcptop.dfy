/** collector/task/ebpf/tcptop.go: per-address send and receive byte counters scraped from
    ebpf_exporter, turned into egress and ingress host metrics labelled through the inventory's
    `GetHost`. The scrape, `net.ParseIP` and `strconv.ParseFloat` are parameters; the bandwidth
    type `B` is opaque. */
module Tcptop {
  import opened Wrappers
  import opened IPv4
  import Collections
  import opened InventoryHosts
  import InventoryLookup
  import opened Scrape

  const SendBytes := "ebpf_exporter_ipv4_send_bytes"
  const RecvBytes := "ebpf_exporter_ipv4_recv_bytes"
  const Ingress := "ingress"
  const Egress := "egress"
  const ErrEmptyAddress := "eBPF address is empty"
  const ErrMissingSend := "Metric ebpf_exporter_ipv4_send_bytes doesn't exist"
  const ErrMissingRecv := "Metric ebpf_exporter_ipv4_recv_bytes doesn't exist"

  datatype Task<B> = Task(enabled: bool, ebpfAddr: string, hosts: seq<HostMetric<B>>)

  datatype Found = Found(send: Option<Family>, recv: Option<Family>)

  /** The search loop: each family with a wanted name replaces the one held so far, and the loop
      stops as soon as both are held. */
  function Search(families: seq<Family>, held: Found): (r: Found)
    ensures r.send.Some? <==> held.send.Some? || exists i :: 0 <= i < |families| && families[i].name == SendBytes
    ensures r.recv.Some? <==> held.recv.Some? || exists i :: 0 <= i < |families| && families[i].name == RecvBytes
    ensures r.send.Some? ==> r.send == held.send || (r.send.value in families && r.send.value.name == SendBytes)
    ensures r.recv.Some? ==> r.recv == held.recv || (r.recv.value in families && r.recv.value.name == RecvBytes)
    decreases |families|
  {
    if |families| == 0 || (held.send.Some? && held.recv.Some?) then held
    else
      var v := families[0];
      var send := if v.name == SendBytes then Some(v) else held.send;
      var recv := if v.name == RecvBytes then Some(v) else held.recv;
      assert forall i :: 1 <= i < |families| ==> families[i] == families[1..][i - 1];
      Search(families[1..], Found(send, recv))
  }

  /** A name that occurs once is found as that family. */
  lemma {:induction false} SearchFindsUnique(families: seq<Family>, held: Found, i: nat)
    requires held == Found(None, None) || (held.send.None? && held.recv.Some? && held.recv.value.name == RecvBytes)
    requires i < |families| && families[i].name == SendBytes
    requires forall j :: 0 <= j < |families| && j != i ==> families[j].name != SendBytes
    ensures Search(families, held).send == Some(families[i])
    decreases |families|
  {
    var v := families[0];
    var recv := if v.name == RecvBytes then Some(v) else held.recv;
    if i > 0 {
      assert v.name != SendBytes;
      assert forall j :: 1 <= j < |families| ==> families[j] == families[1..][j - 1];
      SearchFindsUnique(families[1..], Found(None, recv), i - 1);
    } else {
      SearchKeeps(families[1..], Found(Some(v), recv));
    }
  }

  /** Once the send family is held and no later family has its name, it stays. */
  lemma {:induction false} SearchKeeps(families: seq<Family>, held: Found)
    requires held.send.Some?
    requires forall j :: 0 <= j < |families| ==> families[j].name != SendBytes
    ensures Search(families, held).send == held.send
    decreases |families|
  {
    if |families| > 0 && !(held.send.Some? && held.recv.Some?) {
      var v := families[0];
      var recv := if v.name == RecvBytes then Some(v) else held.recv;
      assert forall j :: 1 <= j < |families| ==> families[j] == families[1..][j - 1];
      SearchKeeps(families[1..], Found(held.send, recv));
    }
  }

  /** The loop stops at the first point where both are held: a later same-named family is not
      looked at, an earlier one is replaced. */
  lemma SearchStopsWhenBothHeld()
    ensures var s1 := Family(SendBytes, []);
            var s2 := Family(SendBytes, [Sample(map[], "1")]);
            var r := Family(RecvBytes, []);
            Search([s1, r, s2], Found(None, None)).send == Some(s1)
            && Search([s1, s2, r], Found(None, None)).send == Some(s2)
  {
    var s1 := Family(SendBytes, []);
    var s2 := Family(SendBytes, [Sample(map[], "1")]);
    var r := Family(RecvBytes, []);
    assert [s1, r, s2][1..] == [r, s2] && [r, s2][1..] == [s2];
    assert Search([s2], Found(Some(s1), Some(r))) == Found(Some(s1), Some(r));
    assert [s1, s2, r][1..] == [s2, r] && [s2, r][1..] == [r] && [r][1..] == [];
    assert Search([], Found(Some(s2), Some(r))) == Found(Some(s2), Some(r));
  }

  /** The local hostgroup and domain: from `GetHost` of the local address when found, the
      address text otherwise. */
  datatype Identity = Identity(hostgroup: string, domain: string)

  function LocalIdentity(inventory: InventoryLookup.Inventory, local: LocalAddr, parseIP: string -> Option<Addr>): (id: Identity)
    ensures var m := InventoryLookup.GetHost(inventory, local.text, parseIP);
      id == if m.found then Identity(m.host.hostgroup, m.host.domain) else Identity(local.text, local.text)
  {
    var m := InventoryLookup.GetHost(inventory, local.text, parseIP);
    if m.found then Identity(m.host.hostgroup, m.host.domain) else Identity(local.text, local.text)
  }

  /** What one sample contributes: nothing for an unparseable `daddr`, the local address itself, or
      an unparseable value; otherwise a metric with the given direction. */
  function MetricOf<B>(inventory: InventoryLookup.Inventory, local: LocalAddr, parseIP: string -> Option<Addr>,
                       parseFloat: string -> Option<B>, direction: string, s: Sample): (r: Option<HostMetric<B>>)
    ensures var daddr := Collections.GetOrEmpty(s.labels, "daddr");
      r.None? <==> parseIP(daddr).None? || parseIP(daddr) == Some(local.ip) || parseFloat(s.value).None?
    ensures r.Some? ==>
      var daddr := Collections.GetOrEmpty(s.labels, "daddr");
      var remote := InventoryLookup.GetHost(inventory, daddr, parseIP).host;
      && r.value.direction == direction
      && r.value.remoteIPAddr == daddr
      && r.value.remoteHostgroup == remote.hostgroup && r.value.remoteDomain == remote.domain
      && r.value.bandwidth == parseFloat(s.value).value
      && Identity(r.value.localHostgroup, r.value.localDomain) == LocalIdentity(inventory, local, parseIP)
  {
    var daddr := Collections.GetOrEmpty(s.labels, "daddr");
    var ip := parseIP(daddr);
    if ip.None? || ip.value == local.ip then None
    else
      var remote := InventoryLookup.GetHost(inventory, daddr, parseIP).host;
      match parseFloat(s.value)
      case None => None
      case Some(bandwidth) =>
        var id := LocalIdentity(inventory, local, parseIP);
        Some(HostMetric(direction, id.hostgroup, remote.hostgroup, daddr, id.domain, remote.domain, bandwidth))
  }

  /** `toHostMetrics`: without a local address the direction yields nothing and an error. */
  function ToHostMetrics<B>(family: Family, direction: string, inventory: InventoryLookup.Inventory,
                            local: Result<LocalAddr, string>, parseIP: string -> Option<Addr>,
                            parseFloat: string -> Option<B>): (r: WithError<seq<HostMetric<B>>>)
    ensures local.Failure? ==> r == WithError([], Some(local.error))
    ensures local.Success? ==>
      && r.err.None?
      && r.value == Collections.FilterMap(family.metrics, (s: Sample) => MetricOf(inventory, local.value, parseIP, parseFloat, direction, s))
    ensures forall m :: m in r.value ==> m.direction == direction
  {
    match local
    case Failure(e) => WithError([], Some(e))
    case Success(addr) =>
      var f := (s: Sample) => MetricOf(inventory, addr, parseIP, parseFloat, direction, s);
      var hosts := Collections.FilterMap(family.metrics, f);
      assert forall m :: m in hosts ==> m.direction == direction by {
        forall m | m in hosts
          ensures m.direction == direction
        {
          var i :| 0 <= i < |family.metrics| && f(family.metrics[i]) == Some(m);
        }
      }
      WithError(hosts, None)
  }

  /** `Collect`. The two conversions ask for the local address separately; a failed conversion is
      only logged. */
  function Collect<B>(t: Task<B>, scrape: Result<seq<Family>, string>, inventory: InventoryLookup.Inventory,
                      localForSend: Result<LocalAddr, string>, localForRecv: Result<LocalAddr, string>,
                      parseIP: string -> Option<Addr>, parseFloat: string -> Option<B>): (r: Collected<Task<B>>)
    ensures !t.enabled ==> r == Collected(t, None)
    ensures t.enabled && t.ebpfAddr == "" ==> r == Collected(t, Some(ErrEmptyAddress))
    ensures r.err.Some? ==> r.state == t
    ensures t.enabled && t.ebpfAddr != "" && scrape.Success? ==>
      (r.err.None? <==> (exists i :: 0 <= i < |scrape.value| && scrape.value[i].name == SendBytes) &&
                        (exists i :: 0 <= i < |scrape.value| && scrape.value[i].name == RecvBytes))
    ensures t.enabled && r.err.None? ==> t.ebpfAddr != "" && scrape.Success?
    ensures t.enabled && r.err.None? && scrape.Success? ==>
      var found := Search(scrape.value, Found(None, None));
      var egress := ToHostMetrics(found.send.value, Egress, inventory, localForSend, parseIP, parseFloat).value;
      var ingress := ToHostMetrics(found.recv.value, Ingress, inventory, localForRecv, parseIP, parseFloat).value;
      && r.state == t.(hosts := egress + ingress)
      && (forall k :: 0 <= k < |egress| ==> r.state.hosts[k].direction == Egress)
      && (forall k :: |egress| <= k < |r.state.hosts| ==> r.state.hosts[k].direction == Ingress)
  {
    if !t.enabled then Collected(t, None)
    else if t.ebpfAddr == "" then Collected(t, Some(ErrEmptyAddress))
    else
      match scrape
      case Failure(e) => Collected(t, Some(e))
      case Success(families) =>
        var found := Search(families, Found(None, None));
        if found.send.None? then Collected(t, Some(ErrMissingSend))
        else if found.recv.None? then Collected(t, Some(ErrMissingRecv))
        else
          var egress := ToHostMetrics(found.send.value, Egress, inventory, localForSend, parseIP, parseFloat).value;
          var ingress := ToHostMetrics(found.recv.value, Ingress, inventory, localForRecv, parseIP, parseFloat).value;
          assert forall k :: |egress| <= k < |egress + ingress| ==> (egress + ingress)[k] in ingress;
          Collected(t.(hosts := egress + ingress), None)
  }

  /** A direction whose local address is unavailable contributes nothing; the other is still
      published. */
  lemma FailedDirectionContributesNothing<B>(t: Task<B>, scrape: Result<seq<Family>, string>,
                                             inventory: InventoryLookup.Inventory, err: string,
                                             localForRecv: Result<LocalAddr, string>,
                                             parseIP: string -> Option<Addr>, parseFloat: string -> Option<B>)
    requires Collect(t, scrape, inventory, Failure(err), localForRecv, parseIP, parseFloat).err.None?
    requires t.enabled
    ensures var found := Search(scrape.value, Found(None, None));
      Collect(t, scrape, inventory, Failure(err), localForRecv, parseIP, parseFloat).state.hosts
        == ToHostMetrics(found.recv.value, Ingress, inventory, localForRecv, parseIP, parseFloat).value
  {
  }
}
