/** The NAT event that travels from the netlink parser to the exporter. */
module Event {
  import opened Bytes

  type Ipv4 = s: seq<byte> | |s| == 4 witness [0, 0, 0, 0]

  const UNSPECIFIED: Ipv4 := [0, 0, 0, 0]

  const NAT44_SESSION_CREATE: u8 := 4
  const NAT44_SESSION_DELETE: u8 := 5

  datatype NatEventType = Create | Delete {
    function Code(): u8 {
      match this
      case Create => NAT44_SESSION_CREATE
      case Delete => NAT44_SESSION_DELETE
    }
  }

  datatype ConntrackEvent = ConntrackEvent(
    natEvent: NatEventType,
    protocol: u8,
    srcIp: Ipv4,
    dstIp: Ipv4,
    srcPort: u16,
    dstPort: u16,
    postNatSrcIp: Ipv4,
    postNatSrcPort: u16,
    postNatDstIp: Ipv4,
    postNatDstPort: u16,
    origBytes: u64,
    origPackets: u64,
    replyBytes: u64,
    replyPackets: u64)
}
