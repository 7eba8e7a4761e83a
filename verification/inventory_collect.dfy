/** collector/task/inventory/inventory.go: the older inventory task. `Collect` fetches a JSON
    array of hosts and publishes an exact-address map of them; `Get` hands out the last published
    map. The HTTP fetch and the JSON decoder are not modelled: one collection round receives their
    combined outcome. The mutex around the published map is left out. */
module InventoryCollect {
  import opened Wrappers
  import Collections
  import opened InventoryHosts

  /** The task singleton: configuration plus the published map. */
  datatype Task = Task(enabled: bool, inventoryAddr: string, values: map<string, Host>)

  /** What the HTTP request and `decoder.Decode(&metrics)` delivered. */
  datatype Fetch = RequestFailed(reason: string) | Response(body: ArrayDecode)

  const ErrEmptyAddress := "Inventory address is empty"

  /** The hosts of a decoded array, each element decoded onto a fresh zero `Host`. */
  function Elements(elements: seq<Fields>): (hosts: seq<Host>)
    ensures |hosts| == |elements|
    ensures forall i :: 0 <= i < |hosts| ==> Agrees(hosts[i], elements[i])
    ensures forall i :: 0 <= i < |hosts| && Complete(elements[i]) ==> hosts[i] == FromComplete(elements[i])
  {
    seq(|elements|, i requires 0 <= i < |elements| => Assign(ZeroHost, elements[i]))
  }

  /** The map built from the decoded hosts: every host is indexed by its address and, for a
      repeated address, the last host wins. Nothing is filtered. */
  function BuildExactMap(hosts: seq<Host>): (m: map<string, Host>)
    ensures m.Keys == set i | 0 <= i < |hosts| :: hosts[i].ipAddress
    ensures forall a :: a in m ==> m[a].ipAddress == a && m[a] in hosts
    ensures forall i :: 0 <= i < |hosts| && Collections.IsLastWithKey(hosts, AddressOf, i) ==>
      m[hosts[i].ipAddress] == hosts[i]
  {
    Collections.IndexLast(hosts, AddressOf)
  }

  /** `Collect`: the returned error and the task state afterwards. */
  function Collect(t: Task, fetch: Fetch): (r: Collected<Task>)
    ensures !t.enabled ==> r == Collected(t, None)
    ensures t.enabled && t.inventoryAddr == "" ==> r == Collected(t, Some(ErrEmptyAddress))
    ensures r.err.Some? ==> r.state == t
    ensures r.err.None? && t.enabled ==>
      fetch.Response? && fetch.body.ArrayDecoded? &&
      r.state == t.(values := BuildExactMap(Elements(fetch.body.elements)))
    ensures t.enabled && t.inventoryAddr != "" ==> (r.err.None? <==> (fetch.Response? && fetch.body.ArrayDecoded?))
  {
    if !t.enabled then Collected(t, None)
    else if t.inventoryAddr == "" then Collected(t, Some(ErrEmptyAddress))
    else
      match fetch
      case RequestFailed(reason) => Collected(t, Some(reason))
      case Response(ArrayFailed(reason)) => Collected(t, Some(reason))
      case Response(ArrayDecoded(elements, _)) =>
        Collected(t.(values := BuildExactMap(Elements(elements))), None)
  }

  /** `Get`. */
  function Get(t: Task): map<string, Host> {
    t.values
  }

  /** A fetch that `Collect` publishes. */
  predicate Publishes(fetch: Fetch) {
    fetch.Response? && fetch.body.ArrayDecoded?
  }

  /** Round `i` publishes and no later round does. */
  predicate IsLastPublisher(t: Task, fetches: seq<Fetch>, i: nat)
    requires i < |fetches|
  {
    && t.enabled && t.inventoryAddr != "" && Publishes(fetches[i])
    && forall j :: i < j < |fetches| ==> !Publishes(fetches[j])
  }

  /** Successive collection rounds, the errors dropped as the scheduler logs them. */
  function Run(t: Task, fetches: seq<Fetch>): (t': Task)
    ensures t'.enabled == t.enabled && t'.inventoryAddr == t.inventoryAddr
    decreases |fetches|
  {
    if |fetches| == 0 then t
    else Run(Collect(t, fetches[0]).state, fetches[1..])
  }

  /** After any number of rounds, `Get` returns the map of the last round that published, or the
      initial map when no round published (or the task is switched off or has no address). */
  lemma {:induction false} GetReturnsLastPublished(t: Task, fetches: seq<Fetch>)
    ensures (!t.enabled || t.inventoryAddr == "" || forall i :: 0 <= i < |fetches| ==> !Publishes(fetches[i]))
      ==> Get(Run(t, fetches)) == t.values
    ensures forall i :: 0 <= i < |fetches| && IsLastPublisher(t, fetches, i) ==>
      Get(Run(t, fetches)) == BuildExactMap(Elements(fetches[i].body.elements))
    decreases |fetches|
  {
    if |fetches| > 0 {
      var t1 := Collect(t, fetches[0]).state;
      GetReturnsLastPublished(t1, fetches[1..]);
      assert forall j :: 1 <= j < |fetches| ==> fetches[1..][j - 1] == fetches[j];
    }
  }

  /** Two hosts with the same address: the later one is the one kept. */
  lemma DuplicateAddressLastWins(a: Host, b: Host)
    requires a.ipAddress == b.ipAddress
    ensures BuildExactMap([a, b]) == map[b.ipAddress := b]
  {
    assert Collections.IsLastWithKey([a, b], AddressOf, 1);
  }
}
