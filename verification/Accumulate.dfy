/** Merging flow metrics in user space (pkg/model/flow_content.go). */
module Accumulate {
  import opened Words
  import opened Flows
  import opened Folds

  // ----- One flow's base metrics -----

  /** Zero means that the time has not been set. */
  function EarlierStart(a: u64, b: u64): u64 {
    if a == 0 || (a > b && b != 0) then b else a
  }

  function LaterEnd(a: u64, b: u64): u64 {
    if a == 0 || a < b then b else a
  }

  predicate AllZerosMac(mac: Bytes) {
    forall i :: 0 <= i < |mac| ==> mac[i] == 0
  }

  function Merged(p: FlowMetrics, o: FlowMetrics): FlowMetrics {
    FlowMetrics(EarlierStart(p.startTs, o.startTs), LaterEnd(p.endTs, o.endTs),
                Wrap64(p.bytes + o.bytes), Wrap32(p.packets + o.packets),
                if o.ethProtocol != 0 then o.ethProtocol else p.ethProtocol,
                p.flags + o.flags,
                if AllZerosMac(p.srcMac) then o.srcMac else p.srcMac,
                if AllZerosMac(p.dstMac) then o.dstMac else p.dstMac,
                p.ifIndexFirstSeen,
                if o.sampling != 0 then o.sampling else p.sampling,
                p.directionFirstSeen, p.errno,
                if o.dscp != 0 then o.dscp else p.dscp,
                p.observed, p.tls)
  }

  /** AccumulateBase; nil is None. */
  function MergedBase(p: Option<FlowMetrics>, o: Option<FlowMetrics>): Option<FlowMetrics> {
    if o.None? then p else if p.None? then o else Some(Merged(p.value, o.value))
  }

  lemma WrapAssoc(a: nat, b: nat, c: nat, limit: nat)
    requires limit > 0
    ensures Wrap(Wrap(a + b, limit) + c, limit) == Wrap(a + Wrap(b + c, limit), limit)
  {
    WrapAdd(a + b, c, limit);
    WrapAdd(b + c, a, limit);
  }

  lemma MergedAssoc(a: FlowMetrics, b: FlowMetrics, c: FlowMetrics)
    ensures Merged(Merged(a, b), c) == Merged(a, Merged(b, c))
  {
    WrapAssoc(a.bytes, b.bytes, c.bytes, U64_LIMIT);
    WrapAssoc(a.packets, b.packets, c.packets, U32_LIMIT);
  }

  /** Merging is associative with nil as identity, so ordered contributions can be regrouped freely. */
  lemma MergedBaseMonoid(a: Option<FlowMetrics>, b: Option<FlowMetrics>, c: Option<FlowMetrics>)
    ensures MergedBase(MergedBase(a, b), c) == MergedBase(a, MergedBase(b, c))
    ensures MergedBase(None, a) == a == MergedBase(a, None)
  {
    if a.Some? && b.Some? && c.Some? {
      MergedAssoc(a.value, b.value, c.value);
    }
  }

  /** All the contributions merged in order. */
  function MergeAll(ms: seq<FlowMetrics>): Option<FlowMetrics> {
    if ms == [] then None else MergedBase(MergeAll(ms[..|ms| - 1]), Some(ms[|ms| - 1]))
  }

  lemma {:induction false} MergeAllConcat(a: seq<FlowMetrics>, b: seq<FlowMetrics>)
    ensures MergeAll(a + b) == MergedBase(MergeAll(a), MergeAll(b))
  {
    if b == [] {
      assert a + b == a;
    } else {
      var n := |b| - 1;
      assert (a + b)[..|a + b| - 1] == a + b[..n];
      MergeAllConcat(a, b[..n]);
      MergedBaseMonoid(MergeAll(a), MergeAll(b[..n]), Some(b[n]));
    }
  }

  function SumBytes(ms: seq<FlowMetrics>): nat {
    if ms == [] then 0 else SumBytes(ms[..|ms| - 1]) + ms[|ms| - 1].bytes
  }

  function SumPackets(ms: seq<FlowMetrics>): nat {
    if ms == [] then 0 else SumPackets(ms[..|ms| - 1]) + ms[|ms| - 1].packets
  }

  function AllFlags(ms: seq<FlowMetrics>): Bits {
    if ms == [] then {} else AllFlags(ms[..|ms| - 1]) + ms[|ms| - 1].flags
  }

  /** The merged flow has the sum of the bytes and packets, and the union of the flags. */
  lemma {:induction false} MergeAllBytes(ms: seq<FlowMetrics>)
    requires ms != []
    ensures MergeAll(ms).Some? && MergeAll(ms).value.bytes == Wrap64(SumBytes(ms))
  {
    var n := |ms| - 1;
    if n == 0 {
      assert ms[..0] == [];
    } else {
      MergeAllBytes(ms[..n]);
      WrapAdd(SumBytes(ms[..n]), ms[n].bytes, U64_LIMIT);
    }
  }

  lemma {:induction false} MergeAllPackets(ms: seq<FlowMetrics>)
    requires ms != []
    ensures MergeAll(ms).Some? && MergeAll(ms).value.packets == Wrap32(SumPackets(ms))
  {
    var n := |ms| - 1;
    if n == 0 {
      assert ms[..0] == [];
    } else {
      MergeAllPackets(ms[..n]);
      WrapAdd(SumPackets(ms[..n]), ms[n].packets, U32_LIMIT);
    }
  }

  lemma {:induction false} MergeAllFlags(ms: seq<FlowMetrics>)
    requires ms != []
    ensures MergeAll(ms).Some? && MergeAll(ms).value.flags == AllFlags(ms)
  {
    var n := |ms| - 1;
    if n == 0 {
      assert ms[..0] == [];
    } else {
      MergeAllFlags(ms[..n]);
    }
  }

  // ----- The other fields of a merged flow -----

  /** The first MAC with a byte other than zero, or the last one when all are zero. */
  ghost predicate FirstSetMac(macs: seq<Bytes>, mac: Bytes) {
    exists k ::
      && 0 <= k < |macs| && mac == macs[k]
      && (forall j, i :: 0 <= j < k && 0 <= i < |macs[j]| ==> macs[j][i] == 0)
      && (k == |macs| - 1 || exists i :: 0 <= i < |mac| && mac[i] != 0)
  }

  /** The last value other than zero, or zero when there is none. */
  ghost predicate LastSet(vs: seq<nat>, v: nat) {
    if forall j :: 0 <= j < |vs| ==> vs[j] == 0 then v == 0
    else exists k :: 0 <= k < |vs| && v == vs[k] != 0 && forall j :: k < j < |vs| ==> vs[j] == 0
  }

  /** v is the smallest of the set times, or zero when none is set. */
  ghost predicate Earliest(ts: seq<u64>, v: u64) {
    && (forall i :: 0 <= i < |ts| && ts[i] != 0 ==> v != 0 && v <= ts[i])
    && (v != 0 ==> v in ts)
  }

  ghost predicate Latest(ts: seq<u64>, v: u64) {
    && (forall i :: 0 <= i < |ts| ==> ts[i] <= v)
    && (v != 0 ==> v in ts)
  }

  lemma EarliestAppend(ts: seq<u64>, v: u64, t: u64)
    requires Earliest(ts, v)
    ensures Earliest(ts + [t], EarlierStart(v, t))
  {
    assert forall i :: 0 <= i < |ts| ==> (ts + [t])[i] == ts[i];
    assert t in ts + [t];
  }

  lemma LatestAppend(ts: seq<u64>, v: u64, t: u64)
    requires Latest(ts, v)
    ensures Latest(ts + [t], LaterEnd(v, t))
  {
    assert forall i :: 0 <= i < |ts| ==> (ts + [t])[i] == ts[i];
    assert t in ts + [t];
  }

  lemma FirstSetMacAppend(macs: seq<Bytes>, mac: Bytes, x: Bytes)
    requires FirstSetMac(macs, mac)
    ensures FirstSetMac(macs + [x], if AllZerosMac(mac) then x else mac)
  {
    var all := macs + [x];
    var k :| && 0 <= k < |macs| && mac == macs[k]
             && (forall j, i :: 0 <= j < k && 0 <= i < |macs[j]| ==> macs[j][i] == 0)
             && (k == |macs| - 1 || exists i :: 0 <= i < |mac| && mac[i] != 0);
    assert forall j :: 0 <= j < |macs| ==> all[j] == macs[j];
    if AllZerosMac(mac) {
      assert all[|macs|] == x;
    } else {
      assert all[k] == mac;
    }
  }

  lemma LastSetAppend(vs: seq<nat>, v: nat, x: nat)
    requires LastSet(vs, v)
    ensures LastSet(vs + [x], if x != 0 then x else v)
  {
    var all := vs + [x];
    assert forall j :: 0 <= j < |vs| ==> all[j] == vs[j];
    assert all[|vs|] == x;
    if x == 0 && !(forall j :: 0 <= j < |vs| ==> vs[j] == 0) {
      var k :| 0 <= k < |vs| && v == vs[k] != 0 && forall j :: k < j < |vs| ==> vs[j] == 0;
      assert all[k] == v;
    }
  }

  /** Each MAC of the merged flow is the first one that is set. */
  lemma {:induction false} MergeAllMacs(ms: seq<FlowMetrics>)
    requires ms != []
    ensures MergeAll(ms).Some?
    ensures FirstSetMac(Column(ms, (m: FlowMetrics) => m.srcMac), MergeAll(ms).value.srcMac)
    ensures FirstSetMac(Column(ms, (m: FlowMetrics) => m.dstMac), MergeAll(ms).value.dstMac)
  {
    var src, dst := (m: FlowMetrics) => m.srcMac, (m: FlowMetrics) => m.dstMac;
    var n := |ms| - 1;
    if n == 0 {
      assert ms[..0] == [];
    } else {
      MergeAllMacs(ms[..n]);
      ColumnLast(ms, src);
      ColumnLast(ms, dst);
      FirstSetMacAppend(Column(ms[..n], src), MergeAll(ms[..n]).value.srcMac, ms[n].srcMac);
      FirstSetMacAppend(Column(ms[..n], dst), MergeAll(ms[..n]).value.dstMac, ms[n].dstMac);
    }
  }

  /** A field that a set value overwrites ends as the last one that is set. */
  lemma {:induction false} OverwrittenIsLast(ms: seq<FlowMetrics>, f: FlowMetrics -> nat)
    requires ms != [] && forall p, o :: f(Merged(p, o)) == if f(o) != 0 then f(o) else f(p)
    ensures MergeAll(ms).Some? && LastSet(Column(ms, f), f(MergeAll(ms).value))
  {
    var n := |ms| - 1;
    if n == 0 {
      assert ms[..0] == [];
      assert Column(ms, f)[0] == f(ms[0]);
    } else {
      OverwrittenIsLast(ms[..n], f);
      ColumnLast(ms, f);
      LastSetAppend(Column(ms[..n], f), f(MergeAll(ms[..n]).value), f(ms[n]));
    }
  }

  /** DSCP, sampling and protocol are the last ones that are set. */
  lemma MergeAllLast(ms: seq<FlowMetrics>)
    requires ms != []
    ensures MergeAll(ms).Some?
    ensures LastSet(Column(ms, (m: FlowMetrics) => m.dscp as nat), MergeAll(ms).value.dscp)
    ensures LastSet(Column(ms, (m: FlowMetrics) => m.sampling as nat), MergeAll(ms).value.sampling)
    ensures LastSet(Column(ms, (m: FlowMetrics) => m.ethProtocol as nat), MergeAll(ms).value.ethProtocol)
  {
    OverwrittenIsLast(ms, (m: FlowMetrics) => m.dscp as nat);
    OverwrittenIsLast(ms, (m: FlowMetrics) => m.sampling as nat);
    OverwrittenIsLast(ms, (m: FlowMetrics) => m.ethProtocol as nat);
  }

  /** Interface, direction, errno, observed table and TLS stay those of the first contribution. */
  lemma {:induction false} MergeAllFirst(ms: seq<FlowMetrics>)
    requires ms != []
    ensures MergeAll(ms).Some?
    ensures var m := MergeAll(ms).value;
            && m.ifIndexFirstSeen == ms[0].ifIndexFirstSeen && m.directionFirstSeen == ms[0].directionFirstSeen
            && m.errno == ms[0].errno && m.observed == ms[0].observed && m.tls == ms[0].tls
  {
    var n := |ms| - 1;
    if n == 0 {
      assert ms[..0] == [];
    } else {
      MergeAllFirst(ms[..n]);
    }
  }

  /** The merged flow starts with the earliest contribution that has a start, and ends with the latest. */
  lemma {:induction false} MergeAllTimes(ms: seq<FlowMetrics>)
    requires ms != []
    ensures MergeAll(ms).Some?
    ensures Earliest(Column(ms, (m: FlowMetrics) => m.startTs), MergeAll(ms).value.startTs)
    ensures Latest(Column(ms, (m: FlowMetrics) => m.endTs), MergeAll(ms).value.endTs)
  {
    var start, end := (m: FlowMetrics) => m.startTs, (m: FlowMetrics) => m.endTs;
    var n := |ms| - 1;
    if n == 0 {
      assert ms[..0] == [];
      assert Column(ms, start)[0] == ms[0].startTs && Column(ms, end)[0] == ms[0].endTs;
    } else {
      MergeAllTimes(ms[..n]);
      ColumnLast(ms, start);
      ColumnLast(ms, end);
      EarliestAppend(Column(ms[..n], start), MergeAll(ms[..n]).value.startTs, ms[n].startTs);
      LatestAppend(Column(ms[..n], end), MergeAll(ms[..n]).value.endTs, ms[n].endTs);
    }
  }
}
