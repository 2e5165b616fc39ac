/** One entry of the kernel flow map: how a packet changes it, and what it says about its packets. */
module FlowEntry {
  import opened Words
  import opened Flows

  // ----- The entry after one packet, as a value -----

  function Find(t: seq<Observed>, intf: u32): (i: nat)
    ensures i <= |t|
    ensures forall j :: 0 <= j < i ==> t[j].intf != intf
    ensures i < |t| ==> t[i].intf == intf
  {
    if t == [] || t[0].intf == intf then 0
    else
      var k := Find(t[1..], intf);
      assert forall j :: 1 <= j < k + 1 ==> t[j] == t[1..][j - 1];
      k + 1
  }

  function Observe(t: seq<Observed>, intf: u32, direction: u8): (t': seq<Observed>)
    ensures |t| <= MAX_OBSERVED_INTERFACES ==> |t'| <= MAX_OBSERVED_INTERFACES
  {
    var i := Find(t, intf);
    if |t| >= MAX_OBSERVED_INTERFACES then t
    else if i == |t| then t + [Observed(intf, direction)]
    else if t[i].direction == direction then t
    else t[i := Observed(intf, OBSERVED_DIRECTION_BOTH)]
  }

  function Fresh(p: Packet): FlowMetrics {
    FlowMetrics(p.ts, p.ts, p.len, 1, p.ethProtocol, p.flags, p.srcMac, p.dstMac, p.ifIndex,
                p.sampling, p.direction, 0, p.dscp, [], FreshTls(p.tls))
  }

  function FreshTls(tls: TlsInfo): TlsSummary {
    TlsSummary(tls.helloVersion, tls.cipherSuite, tls.keyShare, tls.kind, {})
  }

  function NotedTls(t: TlsSummary, tls: TlsInfo): TlsSummary {
    var hello := tls.kind == SERVER_HELLO;
    var mismatch := tls.helloVersion > 0 && t.sslVersion != 0 && t.sslVersion != tls.helloVersion;
    TlsSummary(if t.sslVersion == 0 then tls.helloVersion else t.sslVersion,
               if tls.cipherSuite > 0 && hello then tls.cipherSuite else t.cipherSuite,
               if tls.keyShare > 0 && hello then tls.keyShare else t.keyShare,
               t.types + tls.kind,
               if mismatch then t.miscFlags + MISC_FLAGS_SSL_MISMATCH else t.miscFlags)
  }

  function Updated(m: FlowMetrics, p: Packet): FlowMetrics {
    if m.ifIndexFirstSeen == p.ifIndex then
      FlowMetrics(m.startTs, p.ts, Wrap64(m.bytes + p.len), Wrap32(m.packets + 1), m.ethProtocol,
                  m.flags + p.flags, m.srcMac, m.dstMac, m.ifIndexFirstSeen, p.sampling,
                  m.directionFirstSeen, m.errno, p.dscp, m.observed, NotedTls(m.tls, p.tls))
    else if p.ifIndex != 0 then
      m.(endTs := p.ts, flags := m.flags + p.flags, observed := Observe(m.observed, p.ifIndex, p.direction))
    else m
  }

  // ----- The entry in memory, updated field by field -----

  function Zip(intfs: seq<u32>, directions: seq<u8>): (t: seq<Observed>)
    requires |intfs| == |directions|
    ensures |t| == |intfs|
    ensures forall i :: 0 <= i < |t| ==> t[i] == Observed(intfs[i], directions[i])
  {
    seq(|intfs|, i requires 0 <= i < |intfs| => Observed(intfs[i], directions[i]))
  }

  class Entry {
    var startTs: u64
    var endTs: u64
    var bytes: u64
    var packets: u32
    var ethProtocol: u16
    var flags: Bits
    var srcMac: Bytes
    var dstMac: Bytes
    var ifIndexFirstSeen: u32
    var sampling: u32
    var directionFirstSeen: u8
    var errno: u8
    var dscp: u8
    var nbObserved: nat
    const observedDirection: array<u8>
    const observedIntf: array<u32>
    var tls: TlsSummary

    ghost predicate Valid()
      reads this
    {
      && observedDirection.Length == MAX_OBSERVED_INTERFACES == observedIntf.Length
      && observedDirection as object != observedIntf as object
      && nbObserved <= MAX_OBSERVED_INTERFACES
    }

    ghost function Table(): seq<Observed>
      requires Valid()
      reads this, observedIntf, observedDirection
    {
      Zip(observedIntf[..nbObserved], observedDirection[..nbObserved])
    }

    ghost function Value(): FlowMetrics
      requires Valid()
      reads this, observedIntf, observedDirection
    {
      FlowMetrics(startTs, endTs, bytes, packets, ethProtocol, flags, srcMac, dstMac, ifIndexFirstSeen,
                  sampling, directionFirstSeen, errno, dscp, Table(), tls)
    }

    constructor (p: Packet)
      ensures Valid() && fresh(observedDirection) && fresh(observedIntf)
      ensures Value() == Fresh(p)
    {
      startTs, endTs, bytes, packets, ethProtocol := p.ts, p.ts, p.len, 1, p.ethProtocol;
      flags, srcMac, dstMac, ifIndexFirstSeen := p.flags, p.srcMac, p.dstMac, p.ifIndex;
      sampling, directionFirstSeen, errno, dscp := p.sampling, p.direction, 0, p.dscp;
      nbObserved := 0;
      observedDirection := new u8[MAX_OBSERVED_INTERFACES](_ => 0);
      observedIntf := new u32[MAX_OBSERVED_INTERFACES](_ => 0);
      tls := FreshTls(p.tls);
    }

    /** add_observed_intf: `full` is its return value 1. */
    method AddObservedIntf(ifIndex: u32, direction: u8) returns (full: bool)
      requires Valid()
      modifies this`nbObserved, observedIntf, observedDirection
      ensures Valid()
      ensures full == (old(nbObserved) == MAX_OBSERVED_INTERFACES)
      ensures Table() == Observe(old(Table()), ifIndex, direction)
    {
      ghost var t := Table();
      if nbObserved >= MAX_OBSERVED_INTERFACES {
        return true;
      }
      var i := 0;
      while i < nbObserved
        invariant 0 <= i <= nbObserved
        invariant Table() == t && nbObserved == |t|
        invariant forall j :: 0 <= j < i ==> t[j].intf != ifIndex
      {
        if observedIntf[i] == ifIndex {
          assert t[i] == Observed(observedIntf[i], observedDirection[i]);
          assert Find(t, ifIndex) == i;
          if observedDirection[i] != direction && observedDirection[i] != OBSERVED_DIRECTION_BOTH {
            observedDirection[i] := OBSERVED_DIRECTION_BOTH;
          }
          assert Table() == Observe(t, ifIndex, direction);
          return false;
        }
        i := i + 1;
      }
      assert Find(t, ifIndex) == |t|;
      observedIntf[nbObserved] := ifIndex;
      observedDirection[nbObserved] := direction;
      nbObserved := nbObserved + 1;
      assert Table() == t + [Observed(ifIndex, direction)];
      return false;
    }

    /** The TLS part of the locked section. */
    method NoteTls(info: TlsInfo)
      modifies this`tls
      ensures tls == NotedTls(old(tls), info)
    {
      if info.helloVersion > 0 && tls.sslVersion != info.helloVersion {
        if tls.sslVersion == 0 {
          tls := tls.(sslVersion := info.helloVersion);
        } else {
          tls := tls.(miscFlags := tls.miscFlags + MISC_FLAGS_SSL_MISMATCH);
        }
      }
      if info.cipherSuite > 0 && info.kind == SERVER_HELLO {
        tls := tls.(cipherSuite := info.cipherSuite);
      }
      if info.keyShare > 0 && info.kind == SERVER_HELLO {
        tls := tls.(keyShare := info.keyShare);
      }
      tls := tls.(types := tls.types + info.kind);
    }

    /** The counters of the branch for a packet of the first-seen interface. */
    method Tally(p: Packet)
      modifies this`packets, this`bytes, this`endTs, this`flags, this`dscp, this`sampling
      ensures packets == Wrap32(old(packets) + 1) && bytes == Wrap64(old(bytes) + p.len)
      ensures endTs == p.ts && flags == old(flags) + p.flags && dscp == p.dscp && sampling == p.sampling
    {
      packets := Wrap32(packets + 1);
      bytes := Wrap64(bytes + p.len);
      endTs := p.ts;
      flags := flags + p.flags;
      dscp := p.dscp;
      sampling := p.sampling;
    }

    /** The whole branch for a packet of the first-seen interface. */
    method Count(p: Packet)
      requires Valid() && ifIndexFirstSeen == p.ifIndex
      modifies this`packets, this`bytes, this`endTs, this`flags, this`dscp, this`sampling, this`tls
      ensures Valid()
      ensures Value() == Updated(old(Value()), p)
    {
      Tally(p);
      NoteTls(p.tls);
      assert observedIntf[..nbObserved] == old(observedIntf[..nbObserved]);
      assert observedDirection[..nbObserved] == old(observedDirection[..nbObserved]);
    }

    /** The branch for a packet of another, real interface. */
    method Watch(p: Packet) returns (full: bool)
      requires Valid() && ifIndexFirstSeen != p.ifIndex && p.ifIndex != 0
      modifies this`endTs, this`flags, this`nbObserved, observedIntf, observedDirection
      ensures Valid()
      ensures Value() == Updated(old(Value()), p)
      ensures full == (old(nbObserved) == MAX_OBSERVED_INTERFACES)
    {
      endTs := p.ts;
      flags := flags + p.flags;
      assert observedIntf[..nbObserved] == old(observedIntf[..nbObserved]);
      assert observedDirection[..nbObserved] == old(observedDirection[..nbObserved]);
      full := AddObservedIntf(p.ifIndex, p.direction);
    }

    /** update_existing_flow; `missed` says that OBSERVED_INTF_MISSED is raised. */
    method Update(p: Packet) returns (missed: bool)
      requires Valid()
      modifies this, observedIntf, observedDirection
      ensures Valid()
      ensures Value() == Updated(old(Value()), p)
      ensures missed <==> p.ifIndex != old(ifIndexFirstSeen) && p.ifIndex != 0
                          && old(nbObserved) == MAX_OBSERVED_INTERFACES && p.id.transportProtocol != 0
    {
      var maxReached := false;
      if ifIndexFirstSeen == p.ifIndex {
        Count(p);
      } else if p.ifIndex != 0 {
        maxReached := Watch(p);
      }
      missed := maxReached && p.id.transportProtocol != 0;
    }
  }
}
