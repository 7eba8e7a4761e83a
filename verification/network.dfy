/** pkg/network/network.go: classification of the enumerated sockets into listening ports and
    peer tuples. The enumeration itself (gopsutil, limited to 4096 connections) is a parameter;
    `DefaultLocalAddr`, a UDP dial, is not modelled. */
module Network {
  import opened Wrappers
  import opened Ints
  import Collections

  /** `syscall.SOCK_STREAM` and `syscall.SOCK_DGRAM` on Linux. */
  const SockStream: int := 1
  const SockDgram: int := 2

  const StatusListen := "LISTEN"
  const StatusEstablished := "ESTABLISHED"
  const StatusTimeWait := "TIME_WAIT"

  datatype Endpoint = Endpoint(ip: string, port: Uint32)

  /** The fields of one enumerated connection that the classification reads. */
  datatype ConnectionStat = ConnectionStat(sockType: int, status: string, laddr: Endpoint, raddr: Endpoint)

  datatype ConnectionTuple = ConnectionTuple(
    localIP: string, localPort: Uint32, remoteIP: string, remotePort: Uint32, protocol: string)

  /** The protocol name of a socket type. */
  function ProtocolOf(sockType: int): (p: string)
    ensures p == "tcp" <==> sockType == SockStream
    ensures p == "udp" <==> sockType == SockDgram
    ensures p == "" <==> sockType != SockStream && sockType != SockDgram
  {
    if sockType == SockStream then "tcp"
    else if sockType == SockDgram then "udp"
    else ""
  }

  predicate IsPeerStatus(status: string) {
    status == StatusTimeWait || status == StatusEstablished
  }

  /** What one connection contributes to the listening ports. */
  function ListenEntry(c: ConnectionStat): Option<Uint32> {
    if c.status == StatusListen then Some(c.laddr.port) else None
  }

  /** What one connection contributes to the peer tuples. */
  function PeerEntry(c: ConnectionStat): Option<ConnectionTuple> {
    if IsPeerStatus(c.status) then
      Some(ConnectionTuple(c.laddr.ip, c.laddr.port, c.raddr.ip, c.raddr.port, ProtocolOf(c.sockType)))
    else None
  }

  /** `filterListeningPorts`. */
  method FilterListeningPorts(conns: seq<ConnectionStat>) returns (ports: seq<Uint32>)
    ensures ports == Collections.FilterMap(conns, ListenEntry)
  {
    ports := [];
    for i := 0 to |conns|
      invariant ports == Collections.FilterMap(conns[..i], ListenEntry)
    {
      Collections.FilterMapSnoc(conns[..i], conns[i], ListenEntry);
      assert conns[..i + 1] == conns[..i] + [conns[i]];
      if conns[i].status == StatusListen {
        ports := ports + [conns[i].laddr.port];
      }
    }
    assert conns[..|conns|] == conns;
  }

  /** `PeerConnections`, given the outcome of the enumeration. */
  method PeerConnections(enumerated: Result<seq<ConnectionStat>, string>)
    returns (listens: seq<Uint32>, peers: seq<ConnectionTuple>, err: Option<string>)
    ensures enumerated.Failure? ==> listens == [] && peers == [] && err == Some(enumerated.error)
    ensures enumerated.Success? ==>
      && err == None
      && listens == Collections.FilterMap(enumerated.value, ListenEntry)
      && peers == Collections.FilterMap(enumerated.value, PeerEntry)
  {
    if enumerated.Failure? {
      return [], [], Some(enumerated.error);
    }
    var conns := enumerated.value;
    listens := FilterListeningPorts(conns);
    peers := [];
    for i := 0 to |conns|
      invariant peers == Collections.FilterMap(conns[..i], PeerEntry)
    {
      Collections.FilterMapSnoc(conns[..i], conns[i], PeerEntry);
      assert conns[..i + 1] == conns[..i] + [conns[i]];
      var proto := ProtocolOf(conns[i].sockType);
      if conns[i].status == StatusTimeWait || conns[i].status == StatusEstablished {
        peers := peers + [ConnectionTuple(conns[i].laddr.ip, conns[i].laddr.port, conns[i].raddr.ip, conns[i].raddr.port, proto)];
      }
    }
    assert conns[..|conns|] == conns;
    err := None;
  }

  /** A connection lands in at most one of the two lists; any state other than LISTEN,
      ESTABLISHED and TIME_WAIT lands in neither. */
  lemma AtMostOneList(c: ConnectionStat)
    ensures !(ListenEntry(c).Some? && PeerEntry(c).Some?)
    ensures ListenEntry(c).None? && PeerEntry(c).None? <==>
      c.status != StatusListen && c.status != StatusEstablished && c.status != StatusTimeWait
  {
  }

  predicate CopiesEndpoints(t: ConnectionTuple, c: ConnectionStat) {
    && t.localIP == c.laddr.ip && t.localPort == c.laddr.port
    && t.remoteIP == c.raddr.ip && t.remotePort == c.raddr.port
    && t.protocol == ProtocolOf(c.sockType)
  }

  /** A peer tuple copies the local and remote endpoints unchanged. */
  lemma {:induction false} PeerTupleCopiesEndpoints(conns: seq<ConnectionStat>, t: ConnectionTuple)
    requires t in Collections.FilterMap(conns, PeerEntry)
    ensures exists i :: 0 <= i < |conns| && IsPeerStatus(conns[i].status) && CopiesEndpoints(t, conns[i])
  {
    var i :| 0 <= i < |conns| && PeerEntry(conns[i]) == Some(t);
    assert IsPeerStatus(conns[i].status) && CopiesEndpoints(t, conns[i]);
  }

  /** When every connection is listening, the ports are all of theirs, in order, duplicates kept. */
  lemma AllListeningKeepsEveryPort(conns: seq<ConnectionStat>)
    requires forall i :: 0 <= i < |conns| ==> conns[i].status == StatusListen
    ensures Collections.FilterMap(conns, ListenEntry) == seq(|conns|, i requires 0 <= i < |conns| => conns[i].laddr.port)
  {
    Collections.FilterMapKeepsAll(conns, ListenEntry);
  }
}
