/** collector/task/socketstat/socketstat.go: dependency correlation. One collection round takes the
    listening servers, the peer sockets, the inventory map and the host's default local address,
    and produces one server process per listener plus de-duplicated downstream and upstream
    records. The socket enumeration, the inventory read and the local-address lookup are
    parameters; the mutex around the published snapshot is left out. */
module SocketStat {
  import opened Wrappers
  import opened Ints
  import Text
  import Collections
  import opened InventoryHosts

  /** A listening socket, as `network.ServerConnections` reports it. */
  datatype Server = Server(address: string, port: Uint32, processName: string)

  /** A peer socket, as `network.ServerConnections` reports it. */
  datatype Peer = Peer(
    localIP: string, localPort: Uint32, remoteIP: string, remotePort: Uint32,
    protocol: string, processName: string)

  datatype Process = Process(name: string, bind: string, port: string)

  datatype Connections = Connections(
    localHostgroup: string, localAddress: string, remoteHostgroup: string, remoteAddress: string,
    port: string, protocol: string, processName: string)

  const LoopbackIP := "127.0.0.1"
  const Localhost := "localhost"
  const LoopbackHost := Host(Localhost, Localhost, LoopbackIP)

  const DownPrefix := "down_"
  const UpPrefix := "up_"

  function PortOf(s: Server): Uint32 {
    s.port
  }

  /** The listener index: servers keyed by port alone; a later server on the same port replaces
      an earlier one. */
  function ListenerIndex(servers: seq<Server>): (idx: map<Uint32, Server>)
    ensures idx.Keys == set i | 0 <= i < |servers| :: servers[i].port
    ensures forall port :: port in idx ==> idx[port].port == port && idx[port] in servers
    ensures forall i :: 0 <= i < |servers| && Collections.IsLastWithKey(servers, PortOf, i) ==>
      idx[servers[i].port] == servers[i]
  {
    Collections.IndexLast(servers, PortOf)
  }

  /** The inventory as the loop reads it: 127.0.0.1 always names the local host. */
  function WithLoopback(hosts: map<string, Host>): (h: map<string, Host>)
    ensures LoopbackIP in h && h[LoopbackIP] == LoopbackHost
    ensures forall ip :: ip != LoopbackIP ==> (ip in h <==> ip in hosts)
    ensures forall ip :: ip != LoopbackIP && ip in hosts ==> h[ip] == hosts[ip]
  {
    hosts[LoopbackIP := LoopbackHost]
  }

  /** The local IP used for the lookup: loopback is replaced by the default local address. */
  function EffectiveLocalIP(p: Peer, localAddr: string): string {
    if p.localIP == LoopbackIP then localAddr else p.localIP
  }

  datatype Resolved = Resolved(address: string, hostgroup: string)

  /** Inventory resolution of one IP: the inventory domain when it is known and non-empty, the IP
      itself otherwise; the inventory hostgroup, or empty when the IP is unknown. */
  function Resolve(hosts: map<string, Host>, ip: string): (r: Resolved)
    ensures ip in hosts && hosts[ip].domain != "" ==> r.address == hosts[ip].domain
    ensures ip !in hosts || hosts[ip].domain == "" ==> r.address == ip
    ensures r.hostgroup == if ip in hosts then hosts[ip].hostgroup else ""
  {
    var domain := if ip in hosts then hosts[ip].domain else "";
    Resolved(if domain == "" then ip else domain, if ip in hosts then hosts[ip].hostgroup else "")
  }

  /** What a round works with: the listener index, the inventory with loopback, the local address. */
  datatype Env = Env(listeners: map<Uint32, Server>, hosts: map<string, Host>, localAddr: string)

  function MakeEnv(servers: seq<Server>, inventory: map<string, Host>, localAddr: string): Env {
    Env(ListenerIndex(servers), WithLoopback(inventory), localAddr)
  }

  /** The existence key of a record. The key's port and protocol are the record's own `Port` and
      `Protocol`, so the key is a function of the record. */
  function KeyOf(down: bool, r: Connections): string {
    (if down then DownPrefix else UpPrefix) + r.remoteHostgroup + "_" + r.remoteAddress + "_" + r.port + "_" + r.protocol
  }

  /** A record a peer proposes, for the downstream list or the upstream list. */
  datatype Candidate = Candidate(down: bool, record: Connections)

  function CandidateKey(c: Candidate): string {
    KeyOf(c.down, c.record)
  }

  /** Classification of one peer: downstream when its local port is listening (the port is the
      local port and a missing process name is taken from the listener), otherwise upstream when
      its remote side is not `localhost` (the port is the remote port), otherwise nothing. */
  function CandidateOf(env: Env, p: Peer): (c: Option<Candidate>)
    ensures p.localPort in env.listeners <==> c.Some? && c.value.down
    ensures c.None? <==> p.localPort !in env.listeners && Resolve(env.hosts, p.remoteIP).address == Localhost
    ensures c.Some? ==> c.value.record.protocol == p.protocol
    ensures c.Some? ==>
      var local := Resolve(env.hosts, EffectiveLocalIP(p, env.localAddr));
      var remote := Resolve(env.hosts, p.remoteIP);
      && c.value.record.localHostgroup == local.hostgroup && c.value.record.localAddress == local.address
      && c.value.record.remoteHostgroup == remote.hostgroup && c.value.record.remoteAddress == remote.address
    ensures c.Some? && c.value.down ==>
      && c.value.record.port == Text.NatToString(p.localPort)
      && c.value.record.processName == (if p.processName == "" then env.listeners[p.localPort].processName else p.processName)
    ensures c.Some? && !c.value.down ==>
      && c.value.record.remoteAddress != Localhost
      && c.value.record.port == Text.NatToString(p.remotePort)
      && c.value.record.processName == p.processName
  {
    var local := Resolve(env.hosts, EffectiveLocalIP(p, env.localAddr));
    var remote := Resolve(env.hosts, p.remoteIP);
    if p.localPort in env.listeners then
      var name := if p.processName == "" then env.listeners[p.localPort].processName else p.processName;
      Some(Candidate(true, Connections(local.hostgroup, local.address, remote.hostgroup, remote.address,
                                       Text.NatToString(p.localPort), p.protocol, name)))
    else if remote.address != Localhost then
      Some(Candidate(false, Connections(local.hostgroup, local.address, remote.hostgroup, remote.address,
                                        Text.NatToString(p.remotePort), p.protocol, p.processName)))
    else
      None
  }

  /** `CandidateOf` with the environment fixed, as a function value. */
  function Classifier(env: Env): Peer -> Option<Candidate> {
    (p: Peer) => CandidateOf(env, p)
  }

  /** The loop state: the existence keys seen so far and the two record lists. */
  datatype Acc = Acc(seen: set<string>, upstreams: seq<Connections>, downstreams: seq<Connections>)

  /** A candidate whose key was seen is dropped; otherwise its record is appended to its list. */
  function Admit(acc: Acc, c: Candidate): Acc {
    var key := CandidateKey(c);
    if key in acc.seen then acc
    else if c.down then Acc(acc.seen + {key}, acc.upstreams, acc.downstreams + [c.record])
    else Acc(acc.seen + {key}, acc.upstreams + [c.record], acc.downstreams)
  }

  function KeysOf(down: bool, rs: seq<Connections>): set<string> {
    set r | r in rs :: KeyOf(down, r)
  }

  predicate DistinctKeys(down: bool, rs: seq<Connections>) {
    forall a, b :: 0 <= a < b < |rs| ==> KeyOf(down, rs[a]) != KeyOf(down, rs[b])
  }

  /** The loop state invariant: the seen keys are exactly the keys of the recorded entries, and
      no two entries of a list share a key. */
  predicate Consistent(acc: Acc) {
    && acc.seen == KeysOf(true, acc.downstreams) + KeysOf(false, acc.upstreams)
    && DistinctKeys(true, acc.downstreams)
    && DistinctKeys(false, acc.upstreams)
  }

  lemma AdmitKeepsConsistent(acc: Acc, c: Candidate)
    requires Consistent(acc)
    ensures Consistent(Admit(acc, c))
  {
    var key := CandidateKey(c);
    if key !in acc.seen {
      if c.down {
        var ds := acc.downstreams + [c.record];
        assert KeysOf(true, ds) == KeysOf(true, acc.downstreams) + {key} by {
          assert forall r :: r in ds <==> r in acc.downstreams || r == c.record;
        }
        forall a, b | 0 <= a < b < |ds|
          ensures KeyOf(true, ds[a]) != KeyOf(true, ds[b])
        {
          if b == |ds| - 1 {
            assert ds[a] in acc.downstreams;
          }
        }
      } else {
        var us := acc.upstreams + [c.record];
        assert KeysOf(false, us) == KeysOf(false, acc.upstreams) + {key} by {
          assert forall r :: r in us <==> r in acc.upstreams || r == c.record;
        }
        forall a, b | 0 <= a < b < |us|
          ensures KeyOf(false, us[a]) != KeyOf(false, us[b])
        {
          if b == |us| - 1 {
            assert us[a] in acc.upstreams;
          }
        }
      }
    }
  }

  /** The keys of all candidates so far are the seen keys, and every record comes from a candidate. */
  predicate Tracks(acc: Acc, cs: seq<Candidate>) {
    && acc.seen == (set i | 0 <= i < |cs| :: CandidateKey(cs[i]))
    && (forall r :: r in acc.downstreams ==> Candidate(true, r) in cs)
    && (forall r :: r in acc.upstreams ==> Candidate(false, r) in cs)
  }

  lemma {:induction false} AdmitTracks(acc: Acc, cs: seq<Candidate>, c: Candidate)
    requires Tracks(acc, cs)
    ensures Tracks(Admit(acc, c), cs + [c])
  {
    var cs' := cs + [c];
    assert forall i :: 0 <= i < |cs| ==> cs'[i] == cs[i];
    var before := set i | 0 <= i < |cs| :: CandidateKey(cs[i]);
    var after := set i | 0 <= i < |cs'| :: CandidateKey(cs'[i]);
    assert after == before + {CandidateKey(c)} by {
      forall k | k in after
        ensures k in before + {CandidateKey(c)}
      {
        var i :| 0 <= i < |cs'| && CandidateKey(cs'[i]) == k;
        if i < |cs| {
          assert CandidateKey(cs[i]) == k;
        }
      }
      assert CandidateKey(cs'[|cs|]) == CandidateKey(c);
    }
    assert forall x :: x in cs ==> x in cs';
  }

  /** The de-duplicating fold over the candidates, in input order. */
  function Dedup(cs: seq<Candidate>): (acc: Acc)
    ensures Consistent(acc)
    ensures Tracks(acc, cs)
    decreases |cs|
  {
    if |cs| == 0 then Acc({}, [], [])
    else
      var n := |cs| - 1;
      var prev := Dedup(cs[..n]);
      assert cs[..n] + [cs[n]] == cs;
      AdmitKeepsConsistent(prev, cs[n]);
      AdmitTracks(prev, cs[..n], cs[n]);
      Admit(prev, cs[n])
  }

  /** One collection round's correlation. */
  function Correlate(env: Env, peers: seq<Peer>): Acc {
    Dedup(Collections.FilterMap(peers, Classifier(env)))
  }

  /** One loop iteration on the state: a candidate goes through `Admit`, no candidate changes nothing. */
  function Step(acc: Acc, c: Option<Candidate>): Acc {
    if c.Some? then Admit(acc, c.value) else acc
  }

  /** One more peer: its candidate, if any, goes through `Admit`. */
  lemma {:induction false} CorrelateSnoc(env: Env, peers: seq<Peer>, p: Peer)
    ensures Correlate(env, peers + [p]) == Step(Correlate(env, peers), CandidateOf(env, p))
  {
    var f := Classifier(env);
    var cs := Collections.FilterMap(peers, f);
    var c := CandidateOf(env, p);
    assert f(p) == c;
    Collections.FilterMapSnoc(peers, p, f);
    if c.Some? {
      assert Collections.FilterMap(peers + [p], f) == cs + [c.value];
      DedupSnoc(cs, c.value);
    } else {
      assert Collections.FilterMap(peers + [p], f) == cs;
    }
  }

  lemma DedupSnoc(cs: seq<Candidate>, c: Candidate)
    ensures Dedup(cs + [c]) == Admit(Dedup(cs), c)
  {
    assert (cs + [c])[..|cs|] == cs;
  }

  /** The correlation loop as written: resolve both ends, then either a downstream entry, an
      upstream entry, or nothing, guarded by the existence key. */
  method CorrelatePeers(env: Env, peers: seq<Peer>)
    returns (upstreams: seq<Connections>, downstreams: seq<Connections>)
    ensures upstreams == Correlate(env, peers).upstreams
    ensures downstreams == Correlate(env, peers).downstreams
  {
    var seen: set<string> := {};
    upstreams, downstreams := [], [];
    for i := 0 to |peers|
      invariant Acc(seen, upstreams, downstreams) == Correlate(env, peers[..i])
    {
      ghost var before := Acc(seen, upstreams, downstreams);
      seen, upstreams, downstreams := CorrelatePeer(env, seen, upstreams, downstreams, peers[i]);
      CorrelatePrefixStep(env, peers, i, before, Acc(seen, upstreams, downstreams));
    }
    assert peers[..|peers|] == peers;
  }

  /** The loop invariant carried over one iteration. */
  lemma CorrelatePrefixStep(env: Env, peers: seq<Peer>, i: nat, before: Acc, after: Acc)
    requires i < |peers|
    requires before == Correlate(env, peers[..i])
    requires after == Step(before, CandidateOf(env, peers[i]))
    ensures after == Correlate(env, peers[..i + 1])
  {
    CorrelateSnoc(env, peers[..i], peers[i]);
    assert peers[..i + 1] == peers[..i] + [peers[i]];
  }

  /** The body of the correlation loop for one peer: its candidate, if any, is admitted. */
  method CorrelatePeer(env: Env, seen: set<string>, upstreams: seq<Connections>, downstreams: seq<Connections>, peer: Peer)
    returns (seen': set<string>, upstreams': seq<Connections>, downstreams': seq<Connections>)
    ensures Acc(seen', upstreams', downstreams') == Step(Acc(seen, upstreams, downstreams), CandidateOf(env, peer))
  {
    seen', upstreams', downstreams' := seen, upstreams, downstreams;
    ghost var c := CandidateOf(env, peer);
    var local := Resolve(env.hosts, if peer.localIP == LoopbackIP then env.localAddr else peer.localIP);
    var remote := Resolve(env.hosts, peer.remoteIP);
    if peer.localPort in env.listeners {
      var port := Text.NatToString(peer.localPort);
      var key := DownPrefix + remote.hostgroup + "_" + remote.address + "_" + port + "_" + peer.protocol;
      var name := peer.processName;
      if name == "" {
        name := env.listeners[peer.localPort].processName;
      }
      var record := Connections(local.hostgroup, local.address, remote.hostgroup, remote.address, port, peer.protocol, name);
      assert c == Some(Candidate(true, record)) && key == CandidateKey(c.value);
      if key !in seen {
        downstreams' := downstreams + [record];
        seen' := seen + {key};
      }
    } else if remote.address != Localhost {
      var port := Text.NatToString(peer.remotePort);
      var key := UpPrefix + remote.hostgroup + "_" + remote.address + "_" + port + "_" + peer.protocol;
      var record := Connections(local.hostgroup, local.address, remote.hostgroup, remote.address, port, peer.protocol, peer.processName);
      assert c == Some(Candidate(false, record)) && key == CandidateKey(c.value);
      if key !in seen {
        upstreams' := upstreams + [record];
        seen' := seen + {key};
      }
    }
  }

  /** The server process entry of one listener. */
  function ProcessOf(s: Server): (p: Process)
    ensures p.name == s.processName
    ensures Text.ParseUnsigned(p.port) == Some(s.port)
    ensures p.bind == s.address + ":" + p.port
  {
    Text.NatToStringRoundTrip(s.port);
    Process(s.processName, s.address + ":" + Text.NatToString(s.port), Text.NatToString(s.port))
  }

  /** One server process per listener, in input order. */
  function ServerProcesses(servers: seq<Server>): (procs: seq<Process>)
    ensures |procs| == |servers|
    ensures forall i :: 0 <= i < |servers| ==>
      && procs[i].name == servers[i].processName
      && Text.ParseUnsigned(procs[i].port) == Some(servers[i].port)
      && procs[i].bind == servers[i].address + ":" + procs[i].port
  {
    seq(|servers|, i requires 0 <= i < |servers| => ProcessOf(servers[i]))
  }

  /** The published snapshot, as `Get` returns it. */
  datatype Snapshot = Snapshot(serverProcesses: seq<Process>, upstreams: seq<Connections>, downstreams: seq<Connections>)

  datatype Task = Task(enabled: bool, published: Snapshot)

  const InitialTask := Task(false, Snapshot([], [], []))

  datatype Sockets = Sockets(servers: seq<Server>, peers: seq<Peer>)

  /** `Collect`, given the enumeration outcome, the inventory map and the local-address outcome. */
  function Collect(t: Task, sockets: Result<Sockets, string>, inventory: map<string, Host>,
                   localAddr: Result<string, string>): (r: Collected<Task>)
    ensures !t.enabled ==> r == Collected(t, None)
    ensures r.err.Some? ==> r.state == t
    ensures t.enabled && sockets.Failure? ==> r.err == Some(sockets.error)
    ensures t.enabled && sockets.Success? && localAddr.Failure? ==> r.err == Some(localAddr.error)
    ensures t.enabled ==> (r.err.None? <==> sockets.Success? && localAddr.Success?)
    ensures r.state.enabled == t.enabled
    ensures t.enabled && r.err.None? ==>
      && r.state.published.serverProcesses == ServerProcesses(sockets.value.servers)
      && |r.state.published.serverProcesses| == |sockets.value.servers|
    ensures t.enabled && r.err.None? ==>
      var acc := Correlate(MakeEnv(sockets.value.servers, inventory, localAddr.value), sockets.value.peers);
      r.state.published.upstreams == acc.upstreams && r.state.published.downstreams == acc.downstreams
  {
    if !t.enabled then Collected(t, None)
    else
      match sockets
      case Failure(e) => Collected(t, Some(e))
      case Success(Sockets(servers, peers)) =>
        match localAddr
        case Failure(e) => Collected(t, Some(e))
        case Success(addr) =>
          var acc := Correlate(MakeEnv(servers, inventory, addr), peers);
          Collected(Task(true, Snapshot(ServerProcesses(servers), acc.upstreams, acc.downstreams)), None)
  }

  /** A successful round publishes, per direction, the first record of every existence key among
      the classified peers, in peer order. */
  lemma CollectPublishesFirstOccurrences(t: Task, sockets: Result<Sockets, string>, inventory: map<string, Host>,
                                         localAddr: Result<string, string>)
    requires t.enabled && sockets.Success? && localAddr.Success?
    ensures var env := MakeEnv(sockets.value.servers, inventory, localAddr.value);
      var cs := Collections.FilterMap(sockets.value.peers, Classifier(env));
      var snap := Get(Collect(t, sockets, inventory, localAddr).state);
      snap.downstreams == FirstRecords(cs, true) && snap.upstreams == FirstRecords(cs, false)
  {
    var env := MakeEnv(sockets.value.servers, inventory, localAddr.value);
    DedupKeepsFirstOccurrences(Collections.FilterMap(sockets.value.peers, Classifier(env)));
  }

  /** `Get`. */
  function Get(t: Task): Snapshot {
    t.published
  }

  // ---- Properties of the correlation ----

  /** No earlier candidate has the key of candidate `i`. */
  predicate IsFirstKey(cs: seq<Candidate>, i: nat)
    requires i < |cs|
  {
    forall j :: 0 <= j < i ==> CandidateKey(cs[j]) != CandidateKey(cs[i])
  }

  /** Reference definition of first-wins de-duplication: the records of the candidates of one
      direction whose key occurs at no earlier position, in input order. */
  function FirstRecords(cs: seq<Candidate>, down: bool): seq<Connections>
    decreases |cs|
  {
    if |cs| == 0 then []
    else
      var n := |cs| - 1;
      FirstRecords(cs[..n], down) + (if cs[n].down == down && IsFirstKey(cs, n) then [cs[n].record] else [])
  }

  /** The fold with a seen-key set computes exactly the first-occurrence records. */
  lemma {:induction false} DedupKeepsFirstOccurrences(cs: seq<Candidate>)
    ensures Dedup(cs).downstreams == FirstRecords(cs, true)
    ensures Dedup(cs).upstreams == FirstRecords(cs, false)
    decreases |cs|
  {
    if |cs| > 0 {
      var n := |cs| - 1;
      var prev := Dedup(cs[..n]);
      assert Dedup(cs) == Admit(prev, cs[n]);
      assert Admit(prev, cs[n]).downstreams == FirstRecords(cs, true)
          && Admit(prev, cs[n]).upstreams == FirstRecords(cs, false) by {
        DedupKeepsFirstOccurrences(cs[..n]);
        SeenMeansNotFirst(cs);
        AdmitKeepsFirstOccurrences(prev, cs);
      }
    }
  }

  /** One step of the fold: admitting the last candidate extends the first-occurrence records
      of the prefix exactly as the reference does. */
  lemma AdmitKeepsFirstOccurrences(acc: Acc, cs: seq<Candidate>)
    requires |cs| > 0
    requires acc.downstreams == FirstRecords(cs[..|cs| - 1], true)
    requires acc.upstreams == FirstRecords(cs[..|cs| - 1], false)
    requires CandidateKey(cs[|cs| - 1]) in acc.seen <==> !IsFirstKey(cs, |cs| - 1)
    ensures Admit(acc, cs[|cs| - 1]).downstreams == FirstRecords(cs, true)
    ensures Admit(acc, cs[|cs| - 1]).upstreams == FirstRecords(cs, false)
  {
  }

  /** The last candidate's key was seen before exactly when it is not a first occurrence. */
  lemma {:induction false} SeenMeansNotFirst(cs: seq<Candidate>)
    requires |cs| > 0
    ensures CandidateKey(cs[|cs| - 1]) in Dedup(cs[..|cs| - 1]).seen <==> !IsFirstKey(cs, |cs| - 1)
  {
    var n := |cs| - 1;
    var prev := cs[..n];
    var key := CandidateKey(cs[n]);
    assert Dedup(prev).seen == set i | 0 <= i < n :: CandidateKey(prev[i]);
    if key in Dedup(prev).seen {
      var j :| 0 <= j < n && CandidateKey(prev[j]) == key;
      assert cs[j] == prev[j];
    } else {
      forall j | 0 <= j < n
        ensures CandidateKey(cs[j]) != key
      {
        assert cs[j] == prev[j];
        assert CandidateKey(prev[j]) in Dedup(prev).seen;
      }
    }
  }

  /** The two prefixes keep downstream and upstream keys apart. */
  lemma DirectionsNeverCollide(r: Connections, r': Connections)
    ensures KeyOf(true, r) != KeyOf(false, r')
  {
    assert KeyOf(true, r)[0] == 'd' && KeyOf(false, r')[0] == 'u';
  }

  /** Every downstream record comes from a peer whose local port is listening, classified as such. */
  lemma {:induction false} DownstreamsComeFromListeners(env: Env, peers: seq<Peer>, r: Connections)
    requires r in Correlate(env, peers).downstreams
    ensures exists i :: 0 <= i < |peers| && peers[i].localPort in env.listeners &&
                        CandidateOf(env, peers[i]) == Some(Candidate(true, r))
  {
    var cs := Collections.FilterMap(peers, Classifier(env));
    assert Candidate(true, r) in cs;
    var i :| 0 <= i < |peers| && Classifier(env)(peers[i]) == Some(Candidate(true, r));
    assert CandidateOf(env, peers[i]) == Some(Candidate(true, r));
  }

  /** Every upstream record comes from a peer whose local port is not listening, and no upstream
      record has `localhost` as its remote address. */
  lemma {:induction false} UpstreamsComeFromNonListeners(env: Env, peers: seq<Peer>, r: Connections)
    requires r in Correlate(env, peers).upstreams
    ensures r.remoteAddress != Localhost
    ensures exists i :: 0 <= i < |peers| && peers[i].localPort !in env.listeners &&
                        CandidateOf(env, peers[i]) == Some(Candidate(false, r))
  {
    var cs := Collections.FilterMap(peers, Classifier(env));
    assert Candidate(false, r) in cs;
    var i :| 0 <= i < |peers| && Classifier(env)(peers[i]) == Some(Candidate(false, r));
    assert CandidateOf(env, peers[i]) == Some(Candidate(false, r));
  }

  /** No peer goes unrepresented: every classified peer has a record with its key in the list of
      its direction. */
  lemma {:induction false} ClassifiedPeerIsRecorded(env: Env, peers: seq<Peer>, i: nat)
    requires i < |peers| && CandidateOf(env, peers[i]).Some?
    ensures var c := CandidateOf(env, peers[i]).value;
      exists r :: r in (if c.down then Correlate(env, peers).downstreams else Correlate(env, peers).upstreams) &&
                  KeyOf(c.down, r) == CandidateKey(c)
  {
    var c := CandidateOf(env, peers[i]).value;
    var cs := Collections.FilterMap(peers, Classifier(env));
    var acc := Correlate(env, peers);
    assert Classifier(env)(peers[i]) == Some(c);
    assert c in cs;
    var j :| 0 <= j < |cs| && cs[j] == c;
    assert CandidateKey(c) in acc.seen;
    if c.down {
      if CandidateKey(c) !in KeysOf(true, acc.downstreams) {
        var r' :| r' in acc.upstreams && KeyOf(false, r') == CandidateKey(c);
        DirectionsNeverCollide(c.record, r');
      }
    } else {
      if CandidateKey(c) !in KeysOf(false, acc.upstreams) {
        var r' :| r' in acc.downstreams && KeyOf(true, r') == CandidateKey(c);
        DirectionsNeverCollide(r', c.record);
      }
    }
  }

  /** A peer that already occurred changes nothing: repeated sockets collapse into one record. */
  lemma {:induction false} RepeatedPeerAddsNothing(env: Env, peers: seq<Peer>, p: Peer)
    requires p in peers
    ensures Correlate(env, peers + [p]) == Correlate(env, peers)
  {
    CorrelateSnoc(env, peers, p);
    if CandidateOf(env, p).Some? {
      PeerKeyIsSeen(env, peers, p);
    }
  }

  /** The set of existence keys depends only on which peers occur, not on their order or
      repetition. */
  lemma {:induction false} SeenKeysIgnoreOrder(env: Env, peers: seq<Peer>, peers': seq<Peer>)
    requires forall p :: p in peers <==> p in peers'
    ensures Correlate(env, peers).seen == Correlate(env, peers').seen
  {
    forall k | k in Correlate(env, peers).seen
      ensures k in Correlate(env, peers').seen
    {
      SeenKeyIsOfAPeer(env, peers, k);
      var p :| p in peers && CandidateOf(env, p).Some? && CandidateKey(CandidateOf(env, p).value) == k;
      PeerKeyIsSeen(env, peers', p);
    }
    forall k | k in Correlate(env, peers').seen
      ensures k in Correlate(env, peers).seen
    {
      SeenKeyIsOfAPeer(env, peers', k);
      var p :| p in peers' && CandidateOf(env, p).Some? && CandidateKey(CandidateOf(env, p).value) == k;
      PeerKeyIsSeen(env, peers, p);
    }
  }

  lemma {:induction false} SeenKeyIsOfAPeer(env: Env, peers: seq<Peer>, k: string)
    requires k in Correlate(env, peers).seen
    ensures exists p :: p in peers && CandidateOf(env, p).Some? && CandidateKey(CandidateOf(env, p).value) == k
  {
    var cs := Collections.FilterMap(peers, Classifier(env));
    var j :| 0 <= j < |cs| && CandidateKey(cs[j]) == k;
    assert cs[j] in cs;
    var i :| 0 <= i < |peers| && Classifier(env)(peers[i]) == Some(cs[j]);
    assert peers[i] in peers && CandidateOf(env, peers[i]) == Some(cs[j]);
  }

  lemma {:induction false} PeerKeyIsSeen(env: Env, peers: seq<Peer>, p: Peer)
    requires p in peers && CandidateOf(env, p).Some?
    ensures CandidateKey(CandidateOf(env, p).value) in Correlate(env, peers).seen
  {
    var cs := Collections.FilterMap(peers, Classifier(env));
    var i :| 0 <= i < |peers| && peers[i] == p;
    assert Classifier(env)(peers[i]) == CandidateOf(env, p);
    assert CandidateOf(env, p).value in cs;
    var j :| 0 <= j < |cs| && cs[j] == CandidateOf(env, p).value;
  }

  /** 127.0.0.1 resolves to `localhost`, whatever the inventory says about it. */
  lemma LoopbackResolvesToLocalhost(inventory: map<string, Host>)
    ensures Resolve(WithLoopback(inventory), LoopbackIP) == Resolved(Localhost, Localhost)
  {
  }

  /** A peer on the loopback local address is classified as if it were on the default local
      address. */
  lemma LoopbackLocalIsRewritten(env: Env, p: Peer)
    requires p.localIP == LoopbackIP
    ensures CandidateOf(env, p) == CandidateOf(env, p.(localIP := env.localAddr))
  {
  }

  /** A peer whose remote side is 127.0.0.1 is never an upstream: it is a downstream when its local
      port is listening and is dropped otherwise. */
  lemma RemoteLoopbackNeverUpstream(servers: seq<Server>, inventory: map<string, Host>, localAddr: string, p: Peer)
    requires p.remoteIP == LoopbackIP
    ensures var c := CandidateOf(MakeEnv(servers, inventory, localAddr), p);
      c.None? || c.value.down
  {
    LoopbackResolvesToLocalhost(inventory);
  }

  /** Two listeners on one port: a peer on that port is attributed to the later one. */
  lemma SharedPortLaterListenerWins(a: Server, b: Server)
    requires a.port == b.port
    ensures ListenerIndex([a, b]) == map[b.port := b]
  {
    assert Collections.IsLastWithKey([a, b], PortOf, 1);
  }

  /** The `_`-joined key is not injective: hostgroup "a_b" with address "c" and hostgroup "a" with
      address "b_c" share a key, so the second record is dropped. */
  lemma KeysAreNotInjective()
    ensures var r1 := Connections("", "", "a_b", "c", "80", "tcp", "");
            var r2 := Connections("", "", "a", "b_c", "80", "tcp", "");
            r1 != r2 && KeyOf(false, r1) == KeyOf(false, r2)
            && Dedup([Candidate(false, r1), Candidate(false, r2)]).upstreams == [r1]
  {
    var r1 := Connections("", "", "a_b", "c", "80", "tcp", "");
    var r2 := Connections("", "", "a", "b_c", "80", "tcp", "");
    assert KeyOf(false, r1) == "up_a_b_c_80_tcp";
    assert KeyOf(false, r2) == "up_a_b_c_80_tcp";
    DedupSnoc([Candidate(false, r1)], Candidate(false, r2));
    DedupSnoc([], Candidate(false, r1));
  }
}
