/** federator/federator.go: the records the planet-federator hands to a storage backend, and the
    traffic-direction normalisation both backends share. Bandwidth is a float64 in the source and
    a carried value of type `B` here. */
module Federator {
  datatype TrafficBandwidth<B> = TrafficBandwidth(
    localHostgroup: string, localAddress: string, remoteHostgroup: string, remoteDomain: string,
    bitsPerSecond: B, direction: string)

  datatype UpstreamService = UpstreamService(
    localHostgroup: string, localAddress: string, localProcessName: string, upstreamPort: string,
    upstreamHostgroup: string, upstreamAddress: string, protocol: string)

  datatype DownstreamService = DownstreamService(
    localHostgroup: string, localAddress: string, localProcessName: string, localPort: string,
    downstreamHostgroup: string, downstreamAddress: string, protocol: string)

  const Ingress := "ingress"
  const Egress := "egress"
  const Unknown := "unknown"

  /** A traffic direction as a backend stores it: "ingress" and "egress" are kept, anything else
      becomes "unknown". */
  function NormalizeDirection(direction: string): (r: string)
    ensures r == Ingress || r == Egress || r == Unknown
    ensures direction == Ingress || direction == Egress ==> r == direction
    ensures direction != Ingress && direction != Egress ==> r == Unknown
  {
    if direction == Ingress then Ingress
    else if direction == Egress then Egress
    else Unknown
  }
}
