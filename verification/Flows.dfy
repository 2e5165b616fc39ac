/** The data the agent moves around: flow identifiers, packets and flow metrics (bpf/types.h). */
module Flows {
  import opened Words

  const INGRESS: u8 := 0
  const EGRESS: u8 := 1
  const OBSERVED_DIRECTION_BOTH: u8 := 3
  const MAX_OBSERVED_INTERFACES: nat := 6
  const MISC_FLAGS_SSL_MISMATCH: Bits := {0}

  // The bit of each kind of TLS message in the TLSTRACKER_BF_ masks.
  const CLIENT_HELLO: Bits := {0}
  const SERVER_HELLO: Bits := {1}
  const OTHER_HANDSHAKE: Bits := {2}
  const CHANGE_CIPHER: Bits := {3}
  const ALERT: Bits := {4}
  const APP_DATA: Bits := {5}

  type Cpu = nat

  type Direction = d: u8 | d == 0 || d == 1

  datatype FlowId = FlowId(
    srcIp: Bytes, dstIp: Bytes, srcPort: u16, dstPort: u16,
    transportProtocol: u8, icmpType: u8, icmpCode: u8)

  datatype TlsInfo = TlsInfo(helloVersion: u16, cipherSuite: u16, keyShare: u16, kind: Bits)

  /** What the parsing part of the classifier hands to the aggregation part for one packet. */
  datatype Packet = Packet(
    id: FlowId, ifIndex: u32, direction: Direction, len: u64, ts: u64, flags: Bits,
    dscp: u8, sampling: u32, ethProtocol: u16, srcMac: Bytes, dstMac: Bytes, tls: TlsInfo)

  datatype Observed = Observed(intf: u32, direction: u8)

  /** The last five fields of `flow_metrics`: what its packets said about TLS. */
  datatype TlsSummary = TlsSummary(
    sslVersion: u16, cipherSuite: u16, keyShare: u16, types: Bits, miscFlags: Bits)

  /** `flow_metrics`; the two observed-interface arrays are one table of length nb_observed_intf. */
  datatype FlowMetrics = FlowMetrics(
    startTs: u64, endTs: u64, bytes: u64, packets: u32, ethProtocol: u16, flags: Bits,
    srcMac: Bytes, dstMac: Bytes, ifIndexFirstSeen: u32, sampling: u32, directionFirstSeen: u8,
    errno: u8, dscp: u8, observed: seq<Observed>, tls: TlsSummary)
}
