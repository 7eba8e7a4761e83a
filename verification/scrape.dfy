/** The shapes the bandwidth scrapers of collector/task/darkstat and collector/task/ebpf work on:
    a scraped Prometheus metric family as prom2json delivers it, and the host metric both scrapers
    publish. Scraping itself (HTTP, text exposition parsing) is not modelled. */
module Scrape {
  import opened IPv4

  /** One sample of a family: its labels and its value text. */
  datatype Sample = Sample(labels: map<string, string>, value: string)

  datatype Family = Family(name: string, metrics: seq<Sample>)

  /** The default local address: the parsed address and its `String()` rendering. */
  datatype LocalAddr = LocalAddr(ip: Addr, text: string)

  /** The published host metric of both scrapers; the bandwidth type is left open. */
  datatype HostMetric<B> = HostMetric(
    direction: string, localHostgroup: string, remoteHostgroup: string, remoteIPAddr: string,
    localDomain: string, remoteDomain: string, bandwidth: B)
}
