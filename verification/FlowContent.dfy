/** A flow and its per-feature metrics, merged from the records of every CPU and every feature map. */
module FlowContent {
  import opened Words
  import opened Flows
  import opened Saturating
  import opened Accumulate
  import opened Folds

  datatype DropMetrics = DropMetrics(
    startTs: u64, endTs: u64, bytes: u16, packets: u16, latestDropCause: u32, latestFlags: Bits,
    ethProtocol: u16, latestState: u8)

  datatype AdditionalMetrics = AdditionalMetrics(
    startTs: u64, endTs: u64, flowRtt: u64, ipsecRet: int, ethProtocol: u16, ipsecEncrypted: bool)

  datatype QuicMetrics = QuicMetrics(
    startTs: u64, endTs: u64, version: u32, ethProtocol: u16, seenLongHdr: u8, seenShortHdr: u8)

  datatype Content = Content(
    base: FlowMetrics, drops: Option<DropMetrics>, additional: Option<AdditionalMetrics>, quic: Option<QuicMetrics>)

  // ----- The merges, as values -----

  function BuiltBase(m: FlowMetrics, start: u64, end: u64, ethProto: u16): FlowMetrics {
    m.(startTs := EarlierStart(m.startTs, start), endTs := LaterEnd(m.endTs, end),
       ethProtocol := if m.ethProtocol == 0 then ethProto else m.ethProtocol)
  }

  function MergedDrops(p: Option<DropMetrics>, o: DropMetrics): DropMetrics {
    if p.None? then o
    else
      var d := p.value;
      d.(bytes := AddUint16(d.bytes, o.bytes), packets := AddUint16(d.packets, o.packets),
         latestFlags := d.latestFlags + o.latestFlags,
         latestDropCause := if o.latestDropCause != 0 then o.latestDropCause else d.latestDropCause,
         latestState := if o.latestState != 0 then o.latestState else d.latestState)
  }

  function MergedAdditional(p: Option<AdditionalMetrics>, o: AdditionalMetrics): AdditionalMetrics {
    if p.None? then o
    else
      var a := p.value;
      a.(flowRtt := Max(a.flowRtt, o.flowRtt), ipsecRet := Max(a.ipsecRet, o.ipsecRet),
         ipsecEncrypted := if a.ipsecRet < o.ipsecRet then o.ipsecEncrypted
                           else if a.ipsecRet > o.ipsecRet then a.ipsecEncrypted
                           else a.ipsecEncrypted || o.ipsecEncrypted)
  }

  function MergedQuic(p: Option<QuicMetrics>, o: QuicMetrics): QuicMetrics {
    if p.None? then o
    else
      var q := p.value;
      q.(version := Max(q.version, o.version), seenLongHdr := Max(q.seenLongHdr, o.seenLongHdr),
         seenShortHdr := Max(q.seenShortHdr, o.seenShortHdr))
  }

  /** One record to merge in. `OfOther` is what DNS, network-event and translation records do to the base. */
  datatype Contribution =
    | OfBase(m: FlowMetrics)
    | OfDrops(d: DropMetrics)
    | OfAdditional(a: AdditionalMetrics)
    | OfQuic(q: QuicMetrics)
    | OfOther(startTs: u64, endTs: u64, ethProtocol: u16)

  function With(c: Content, x: Contribution): Content {
    match x
    case OfBase(m) => c.(base := Merged(c.base, m))
    case OfDrops(d) =>
      c.(base := BuiltBase(c.base, d.startTs, d.endTs, d.ethProtocol), drops := Some(MergedDrops(c.drops, d)))
    case OfAdditional(a) =>
      c.(base := BuiltBase(c.base, a.startTs, a.endTs, a.ethProtocol),
         additional := Some(MergedAdditional(c.additional, a)))
    case OfQuic(q) =>
      c.(base := BuiltBase(c.base, q.startTs, q.endTs, q.ethProtocol), quic := Some(MergedQuic(c.quic, q)))
    case OfOther(s, e, eth) => c.(base := BuiltBase(c.base, s, e, eth))
  }

  function WithAll(c: Content, xs: seq<Contribution>): Content {
    if xs == [] then c else With(WithAll(c, xs[..|xs| - 1]), xs[|xs| - 1])
  }

  // ----- The merges, in place -----

  class Flow {
    var base: FlowMetrics
    var drops: Option<DropMetrics>
    var additional: Option<AdditionalMetrics>
    var quic: Option<QuicMetrics>

    /** NewBpfFlowContent. */
    constructor (m: FlowMetrics)
      ensures Value() == Content(m, None, None, None)
    {
      base, drops, additional, quic := m, None, None, None;
    }

    ghost function Value(): Content
      reads this
    {
      Content(base, drops, additional, quic)
    }

    method BuildBaseFromAdditional(start: u64, end: u64, ethProto: u16)
      modifies this`base
      ensures base == BuiltBase(old(base), start, end, ethProto)
    {
      if base.startTs == 0 || (base.startTs > start && start != 0) {
        base := base.(startTs := start);
      }
      if base.endTs == 0 || base.endTs < end {
        base := base.(endTs := end);
      }
      if base.ethProtocol == 0 {
        base := base.(ethProtocol := ethProto);
      }
    }

    method AccumulateDrops(other: Option<DropMetrics>)
      modifies this
      ensures Value() == if other.None? then old(Value()) else With(old(Value()), OfDrops(other.value))
    {
      if other.None? {
        return;
      }
      var o := other.value;
      BuildBaseFromAdditional(o.startTs, o.endTs, o.ethProtocol);
      if drops.None? {
        drops := other;
        return;
      }
      var d := drops.value;
      d := d.(bytes := AddUint16(d.bytes, o.bytes));
      d := d.(packets := AddUint16(d.packets, o.packets));
      d := d.(latestFlags := d.latestFlags + o.latestFlags);
      if o.latestDropCause != 0 {
        d := d.(latestDropCause := o.latestDropCause);
      }
      if o.latestState != 0 {
        d := d.(latestState := o.latestState);
      }
      drops := Some(d);
    }

    method AccumulateAdditional(other: Option<AdditionalMetrics>)
      modifies this
      ensures Value() == if other.None? then old(Value()) else With(old(Value()), OfAdditional(other.value))
    {
      if other.None? {
        return;
      }
      var o := other.value;
      BuildBaseFromAdditional(o.startTs, o.endTs, o.ethProtocol);
      if additional.None? {
        additional := other;
        return;
      }
      var a := additional.value;
      if a.flowRtt < o.flowRtt {
        a := a.(flowRtt := o.flowRtt);
      }
      if a.ipsecRet < o.ipsecRet {
        a := a.(ipsecEncrypted := o.ipsecEncrypted);
        a := a.(ipsecRet := o.ipsecRet);
      }
      if a.ipsecRet == o.ipsecRet {
        if o.ipsecEncrypted {
          a := a.(ipsecEncrypted := o.ipsecEncrypted);
        }
      }
      additional := Some(a);
    }

    method AccumulateQuic(other: Option<QuicMetrics>)
      modifies this
      ensures Value() == if other.None? then old(Value()) else With(old(Value()), OfQuic(other.value))
    {
      if other.None? {
        return;
      }
      var o := other.value;
      BuildBaseFromAdditional(o.startTs, o.endTs, o.ethProtocol);
      if quic.None? {
        quic := other;
        return;
      }
      var q := quic.value;
      if q.version < o.version {
        q := q.(version := o.version);
      }
      if q.seenLongHdr < o.seenLongHdr {
        q := q.(seenLongHdr := o.seenLongHdr);
      }
      if q.seenShortHdr < o.seenShortHdr {
        q := q.(seenShortHdr := o.seenShortHdr);
      }
      quic := Some(q);
    }

    /** AccumulateBase on the flow's own metrics. */
    method AccumulateBase(other: Option<FlowMetrics>)
      modifies this`base
      ensures base == if other.None? then old(base) else Merged(old(base), other.value)
      ensures Some(base) == MergedBase(Some(old(base)), other)
    {
      if other.None? {
        return;
      }
      var o := other.value;
      var p := base;
      if p.startTs == 0 || (p.startTs > o.startTs && o.startTs != 0) {
        p := p.(startTs := o.startTs);
      }
      if p.endTs == 0 || p.endTs < o.endTs {
        p := p.(endTs := o.endTs);
      }
      p := p.(bytes := Wrap64(p.bytes + o.bytes));
      p := p.(packets := Wrap32(p.packets + o.packets));
      p := p.(flags := p.flags + o.flags);
      if o.ethProtocol != 0 {
        p := p.(ethProtocol := o.ethProtocol);
      }
      if AllZerosMac(p.srcMac) {
        p := p.(srcMac := o.srcMac);
      }
      if AllZerosMac(p.dstMac) {
        p := p.(dstMac := o.dstMac);
      }
      if o.dscp != 0 {
        p := p.(dscp := o.dscp);
      }
      if o.sampling != 0 {
        p := p.(sampling := o.sampling);
      }
      base := p;
    }
  }

  // ----- Order does not matter -----

  /** The fields that come out the same for every order. */
  datatype Summary = Summary(
    startTs: u64, endTs: u64, bytes: u64, packets: u32, flags: Bits,
    drops: Option<(u16, u16)>, additional: Option<(u64, int, bool)>, quic: Option<(u32, u8, u8)>)

  function DropsOf(d: Option<DropMetrics>): Option<(u16, u16)> {
    if d.None? then None else Some((d.value.packets, d.value.bytes))
  }

  function AdditionalOf(a: Option<AdditionalMetrics>): Option<(u64, int, bool)> {
    if a.None? then None else Some((a.value.flowRtt, a.value.ipsecRet, a.value.ipsecEncrypted))
  }

  function QuicOf(q: Option<QuicMetrics>): Option<(u32, u8, u8)> {
    if q.None? then None else Some((q.value.version, q.value.seenLongHdr, q.value.seenShortHdr))
  }

  function SummaryOf(c: Content): Summary {
    Summary(c.base.startTs, c.base.endTs, c.base.bytes, c.base.packets, c.base.flags,
            DropsOf(c.drops), AdditionalOf(c.additional), QuicOf(c.quic))
  }

  /** What one record brings. */
  function Brings(x: Contribution): Summary {
    match x
    case OfBase(m) => Summary(m.startTs, m.endTs, m.bytes, m.packets, m.flags, None, None, None)
    case OfDrops(d) => Summary(d.startTs, d.endTs, 0, 0, {}, DropsOf(Some(d)), None, None)
    case OfAdditional(a) => Summary(a.startTs, a.endTs, 0, 0, {}, None, AdditionalOf(Some(a)), None)
    case OfQuic(q) => Summary(q.startTs, q.endTs, 0, 0, {}, None, None, QuicOf(Some(q)))
    case OfOther(s, e, _) => Summary(s, e, 0, 0, {}, None, None, None)
  }

  function JoinDrops(p: Option<(u16, u16)>, o: Option<(u16, u16)>): Option<(u16, u16)> {
    if o.None? then p else if p.None? then o
    else Some((AddUint16(p.value.0, o.value.0), AddUint16(p.value.1, o.value.1)))
  }

  /** The larger RTT, and the larger IPsec (return code, encrypted) pair. */
  function JoinAdditional(p: Option<(u64, int, bool)>, o: Option<(u64, int, bool)>): Option<(u64, int, bool)> {
    if o.None? then p else if p.None? then o
    else
      var larger := p.value.1 < o.value.1 || (p.value.1 == o.value.1 && !p.value.2);
      var ipsec := if larger then (o.value.1, o.value.2) else (p.value.1, p.value.2);
      Some((Max(p.value.0, o.value.0), ipsec.0, ipsec.1))
  }

  function JoinQuic(p: Option<(u32, u8, u8)>, o: Option<(u32, u8, u8)>): Option<(u32, u8, u8)> {
    if o.None? then p else if p.None? then o
    else Some((Max(p.value.0, o.value.0), Max(p.value.1, o.value.1), Max(p.value.2, o.value.2)))
  }

  function Join(s: Summary, t: Summary): Summary {
    Summary(EarlierStart(s.startTs, t.startTs), LaterEnd(s.endTs, t.endTs),
            Wrap64(s.bytes + t.bytes), Wrap32(s.packets + t.packets), s.flags + t.flags,
            JoinDrops(s.drops, t.drops), JoinAdditional(s.additional, t.additional), JoinQuic(s.quic, t.quic))
  }

  lemma WithJoins(c: Content, x: Contribution)
    ensures SummaryOf(With(c, x)) == Join(SummaryOf(c), Brings(x))
  {
  }

  lemma TimesCommute(t: u64, a: u64, b: u64)
    ensures EarlierStart(EarlierStart(t, a), b) == EarlierStart(EarlierStart(t, b), a)
    ensures LaterEnd(LaterEnd(t, a), b) == LaterEnd(LaterEnd(t, b), a)
  {
  }

  lemma WrapCommute(t: nat, a: nat, b: nat, limit: nat)
    requires limit > 0
    ensures Wrap(Wrap(t + a, limit) + b, limit) == Wrap(Wrap(t + b, limit) + a, limit)
  {
    WrapAdd(t + a, b, limit);
    WrapAdd(t + b, a, limit);
  }

  lemma DropsCommute(p: Option<(u16, u16)>, a: Option<(u16, u16)>, b: Option<(u16, u16)>)
    ensures JoinDrops(JoinDrops(p, a), b) == JoinDrops(JoinDrops(p, b), a)
  {
    if a.Some? && b.Some? {
      var (x, y) := if p.Some? then p.value else (0, 0);
      AddsCommute(x, a.value.0, b.value.0);
      AddsCommute(y, a.value.1, b.value.1);
    }
  }

  lemma AdditionalCommute(p: Option<(u64, int, bool)>, a: Option<(u64, int, bool)>, b: Option<(u64, int, bool)>)
    ensures JoinAdditional(JoinAdditional(p, a), b) == JoinAdditional(JoinAdditional(p, b), a)
  {
  }

  lemma QuicCommute(p: Option<(u32, u8, u8)>, a: Option<(u32, u8, u8)>, b: Option<(u32, u8, u8)>)
    ensures JoinQuic(JoinQuic(p, a), b) == JoinQuic(JoinQuic(p, b), a)
  {
  }

  lemma JoinCommute(s: Summary, a: Summary, b: Summary)
    ensures Join(Join(s, a), b) == Join(Join(s, b), a)
  {
    TimesCommute(s.startTs, a.startTs, b.startTs);
    TimesCommute(s.endTs, a.endTs, b.endTs);
    WrapCommute(s.bytes, a.bytes, b.bytes, U64_LIMIT);
    WrapCommute(s.packets, a.packets, b.packets, U32_LIMIT);
    DropsCommute(s.drops, a.drops, b.drops);
    AdditionalCommute(s.additional, a.additional, b.additional);
    QuicCommute(s.quic, a.quic, b.quic);
  }

  function JoinOne(s: Summary, x: Contribution): Summary {
    Join(s, Brings(x))
  }

  lemma {:induction false} WithAllJoins(c: Content, xs: seq<Contribution>)
    ensures SummaryOf(WithAll(c, xs)) == Fold(JoinOne, SummaryOf(c), xs)
  {
    if xs != [] {
      var n := |xs| - 1;
      WithAllJoins(c, xs[..n]);
      WithJoins(WithAll(c, xs[..n]), xs[n]);
    }
  }

  /**
   * Start, end, bytes, packets, flags, drop counts, RTT, IPsec status and QUIC fields come out the same
   * for every order in which the records of the CPUs and of the feature maps are merged.
   */
  lemma AnyOrder(c: Content, xs: seq<Contribution>, ys: seq<Contribution>)
    requires multiset(xs) == multiset(ys)
    ensures SummaryOf(WithAll(c, xs)) == SummaryOf(WithAll(c, ys))
  {
    WithAllJoins(c, xs);
    WithAllJoins(c, ys);
    forall s, a, b ensures JoinOne(JoinOne(s, a), b) == JoinOne(JoinOne(s, b), a) {
      JoinCommute(s, Brings(a), Brings(b));
    }
    FoldAnyOrder(JoinOne, SummaryOf(c), xs, ys);
  }

  // ----- Times -----

  function Starts(xs: seq<Contribution>): seq<u64> {
    seq(|xs|, i requires 0 <= i < |xs| => Brings(xs[i]).startTs)
  }

  function Ends(xs: seq<Contribution>): seq<u64> {
    seq(|xs|, i requires 0 <= i < |xs| => Brings(xs[i]).endTs)
  }

  lemma WithTimes(c: Content, x: Contribution)
    ensures With(c, x).base.startTs == EarlierStart(c.base.startTs, Brings(x).startTs)
    ensures With(c, x).base.endTs == LaterEnd(c.base.endTs, Brings(x).endTs)
  {
  }

  lemma TimesLast(t: u64, xs: seq<Contribution>)
    requires xs != []
    ensures [t] + Starts(xs) == ([t] + Starts(xs[..|xs| - 1])) + [Brings(xs[|xs| - 1]).startTs]
    ensures [t] + Ends(xs) == ([t] + Ends(xs[..|xs| - 1])) + [Brings(xs[|xs| - 1]).endTs]
  {
  }

  /** The merged flow starts with the earliest record that has a start, and ends with the latest. */
  lemma {:induction false} MergedTimes(c: Content, xs: seq<Contribution>)
    ensures Earliest([c.base.startTs] + Starts(xs), WithAll(c, xs).base.startTs)
    ensures Latest([c.base.endTs] + Ends(xs), WithAll(c, xs).base.endTs)
  {
    if xs != [] {
      var n := |xs| - 1;
      var d, x := WithAll(c, xs[..n]), xs[n];
      MergedTimes(c, xs[..n]);
      WithTimes(d, x);
      TimesLast(c.base.startTs, xs);
      TimesLast(c.base.endTs, xs);
      EarliestAppend([c.base.startTs] + Starts(xs[..n]), d.base.startTs, Brings(x).startTs);
      LatestAppend([c.base.endTs] + Ends(xs[..n]), d.base.endTs, Brings(x).endTs);
    }
  }

  // ----- What the merged features say -----

  function Sum(ns: seq<nat>): nat {
    if ns == [] then 0 else Sum(ns[..|ns| - 1]) + ns[|ns| - 1]
  }

  lemma SumLast(ns: seq<nat>, n: nat)
    ensures Sum(ns + [n]) == Sum(ns) + n
  {
    assert (ns + [n])[..|ns|] == ns;
  }

  /** Merged drops: capped totals, all flags, the last cause and state that are set, the times of the first record. */
  ghost predicate DropsSay(ds: seq<DropMetrics>, d: DropMetrics)
    requires ds != []
  {
    && d.packets == Cap(Sum(Column(ds, (x: DropMetrics) => x.packets as nat)))
    && d.bytes == Cap(Sum(Column(ds, (x: DropMetrics) => x.bytes as nat)))
    && (forall b :: b in d.latestFlags <==> exists i :: 0 <= i < |ds| && b in ds[i].latestFlags)
    && LastSet(Column(ds, (x: DropMetrics) => x.latestDropCause as nat), d.latestDropCause)
    && LastSet(Column(ds, (x: DropMetrics) => x.latestState as nat), d.latestState)
    && d.startTs == ds[0].startTs && d.endTs == ds[0].endTs && d.ethProtocol == ds[0].ethProtocol
  }

  lemma DropsSayOne(d: DropMetrics)
    ensures DropsSay([d], d)
  {
    var packets, bytes := (x: DropMetrics) => x.packets as nat, (x: DropMetrics) => x.bytes as nat;
    SumLast([], d.packets);
    SumLast([], d.bytes);
    assert Column([d], packets) == [] + [d.packets as nat] && Column([d], bytes) == [] + [d.bytes as nat];
    assert [d][0] == d;
  }

  lemma DropTotalsAppend(ds: seq<DropMetrics>, d: DropMetrics, o: DropMetrics)
    requires ds != [] && DropsSay(ds, d)
    ensures MergedDrops(Some(d), o).packets == Cap(Sum(Column(ds + [o], (x: DropMetrics) => x.packets as nat)))
    ensures MergedDrops(Some(d), o).bytes == Cap(Sum(Column(ds + [o], (x: DropMetrics) => x.bytes as nat)))
  {
    var packets, bytes := (x: DropMetrics) => x.packets as nat, (x: DropMetrics) => x.bytes as nat;
    assert Column(ds + [o], packets) == Column(ds, packets) + [o.packets as nat];
    assert Column(ds + [o], bytes) == Column(ds, bytes) + [o.bytes as nat];
    SumLast(Column(ds, packets), o.packets);
    SumLast(Column(ds, bytes), o.bytes);
    AddsSaturate(d.packets, o.packets);
    AddsSaturate(d.bytes, o.bytes);
    CapAdd(Sum(Column(ds, packets)), o.packets);
    CapAdd(Sum(Column(ds, bytes)), o.bytes);
  }

  lemma DropLatestAppend(ds: seq<DropMetrics>, d: DropMetrics, o: DropMetrics)
    requires ds != [] && DropsSay(ds, d)
    ensures LastSet(Column(ds + [o], (x: DropMetrics) => x.latestDropCause as nat),
                    MergedDrops(Some(d), o).latestDropCause)
    ensures LastSet(Column(ds + [o], (x: DropMetrics) => x.latestState as nat), MergedDrops(Some(d), o).latestState)
  {
    var cause := (x: DropMetrics) => x.latestDropCause as nat;
    var state := (x: DropMetrics) => x.latestState as nat;
    assert Column(ds + [o], cause) == Column(ds, cause) + [o.latestDropCause as nat];
    assert Column(ds + [o], state) == Column(ds, state) + [o.latestState as nat];
    LastSetAppend(Column(ds, cause), d.latestDropCause, o.latestDropCause);
    LastSetAppend(Column(ds, state), d.latestState, o.latestState);
  }

  lemma DropsSayAppend(ds: seq<DropMetrics>, d: DropMetrics, o: DropMetrics)
    requires ds != [] && DropsSay(ds, d)
    ensures DropsSay(ds + [o], MergedDrops(Some(d), o))
  {
    DropTotalsAppend(ds, d, o);
    DropLatestAppend(ds, d, o);
    assert forall i :: 0 <= i < |ds| ==> (ds + [o])[i] == ds[i];
    assert (ds + [o])[|ds|] == o;
  }

  lemma {:induction false} DropsMerged(ds: seq<DropMetrics>)
    requires ds != []
    ensures MergeEach(MergedDrops, ds).Some? && DropsSay(ds, MergeEach(MergedDrops, ds).value)
  {
    var n := |ds| - 1;
    assert ds == ds[..n] + [ds[n]];
    if n == 0 {
      assert ds[..0] == [] && ds == [ds[0]];
      DropsSayOne(ds[0]);
    } else {
      DropsMerged(ds[..n]);
      DropsSayAppend(ds[..n], MergeEach(MergedDrops, ds[..n]).value, ds[n]);
    }
  }

  /** The largest RTT; the largest IPsec return code, encrypted iff some record with that code is. */
  ghost predicate AdditionalSays(xs: seq<AdditionalMetrics>, a: AdditionalMetrics)
    requires xs != []
  {
    && Latest(Column(xs, (x: AdditionalMetrics) => x.flowRtt), a.flowRtt)
    && (forall i :: 0 <= i < |xs| ==> xs[i].ipsecRet <= a.ipsecRet)
    && (exists i :: 0 <= i < |xs| && xs[i].ipsecRet == a.ipsecRet)
    && (a.ipsecEncrypted <==> exists i :: 0 <= i < |xs| && xs[i].ipsecRet == a.ipsecRet && xs[i].ipsecEncrypted)
    && a.startTs == xs[0].startTs && a.endTs == xs[0].endTs && a.ethProtocol == xs[0].ethProtocol
  }

  lemma AdditionalSaysOne(a: AdditionalMetrics)
    ensures AdditionalSays([a], a)
  {
    assert Column([a], (x: AdditionalMetrics) => x.flowRtt)[0] == a.flowRtt;
    assert [a][0] == a;
  }

  lemma AdditionalSaysAppend(xs: seq<AdditionalMetrics>, a: AdditionalMetrics, o: AdditionalMetrics)
    requires xs != [] && AdditionalSays(xs, a)
    ensures AdditionalSays(xs + [o], MergedAdditional(Some(a), o))
  {
    var rtt, all := (x: AdditionalMetrics) => x.flowRtt, xs + [o];
    assert Column(all, rtt) == Column(xs, rtt) + [o.flowRtt];
    LatestAppend(Column(xs, rtt), a.flowRtt, o.flowRtt);
    assert forall i :: 0 <= i < |xs| ==> all[i] == xs[i];
    assert all[|xs|] == o;
    if a.ipsecRet >= o.ipsecRet {
      var i :| 0 <= i < |xs| && xs[i].ipsecRet == a.ipsecRet;
      assert all[i].ipsecRet == a.ipsecRet;
      if a.ipsecEncrypted {
        var j :| 0 <= j < |xs| && xs[j].ipsecRet == a.ipsecRet && xs[j].ipsecEncrypted;
        assert all[j] == xs[j];
      }
    }
  }

  lemma {:induction false} AdditionalMerged(xs: seq<AdditionalMetrics>)
    requires xs != []
    ensures MergeEach(MergedAdditional, xs).Some? && AdditionalSays(xs, MergeEach(MergedAdditional, xs).value)
  {
    var n := |xs| - 1;
    assert xs == xs[..n] + [xs[n]];
    if n == 0 {
      assert xs[..0] == [] && xs == [xs[0]];
      AdditionalSaysOne(xs[0]);
    } else {
      AdditionalMerged(xs[..n]);
      AdditionalSaysAppend(xs[..n], MergeEach(MergedAdditional, xs[..n]).value, xs[n]);
    }
  }

  /** The largest version, and each form flag iff some record has it; the times of the first record. */
  ghost predicate QuicSays(qs: seq<QuicMetrics>, q: QuicMetrics)
    requires qs != []
  {
    && Latest(Column(qs, (x: QuicMetrics) => x.version), q.version)
    && Latest(Column(qs, (x: QuicMetrics) => x.seenLongHdr), q.seenLongHdr)
    && Latest(Column(qs, (x: QuicMetrics) => x.seenShortHdr), q.seenShortHdr)
    && q.startTs == qs[0].startTs && q.endTs == qs[0].endTs && q.ethProtocol == qs[0].ethProtocol
  }

  lemma {:induction false} QuicMerged(qs: seq<QuicMetrics>)
    requires qs != []
    ensures MergeEach(MergedQuic, qs).Some? && QuicSays(qs, MergeEach(MergedQuic, qs).value)
  {
    var version, long := (x: QuicMetrics) => x.version, (x: QuicMetrics) => x.seenLongHdr;
    var short := (x: QuicMetrics) => x.seenShortHdr;
    var n := |qs| - 1;
    if n == 0 {
      assert qs[..0] == [];
      assert Column(qs, version)[0] == qs[0].version && Column(qs, long)[0] == qs[0].seenLongHdr;
      assert Column(qs, short)[0] == qs[0].seenShortHdr;
    } else {
      QuicMerged(qs[..n]);
      var q := MergeEach(MergedQuic, qs[..n]).value;
      ColumnLast(qs, version);
      ColumnLast(qs, long);
      ColumnLast(qs, short);
      LatestAppend(Column(qs[..n], version), q.version, qs[n].version);
      LatestAppend(Column(qs[..n], long), q.seenLongHdr, qs[n].seenLongHdr);
      LatestAppend(Column(qs[..n], short), q.seenShortHdr, qs[n].seenShortHdr);
    }
  }

  // ----- Which records reach which part of the flow -----

  function Opt<T>(x: Option<T>): seq<T> {
    if x.None? then [] else [x.value]
  }

  function Each<T>(xs: seq<Contribution>, part: Contribution -> seq<T>): seq<T> {
    if xs == [] then [] else Each(xs[..|xs| - 1], part) + part(xs[|xs| - 1])
  }

  function BaseIn(x: Contribution): seq<FlowMetrics> {
    if x.OfBase? then [x.m] else []
  }

  function DropsIn(x: Contribution): seq<DropMetrics> {
    if x.OfDrops? then [x.d] else []
  }

  function AdditionalIn(x: Contribution): seq<AdditionalMetrics> {
    if x.OfAdditional? then [x.a] else []
  }

  function QuicIn(x: Contribution): seq<QuicMetrics> {
    if x.OfQuic? then [x.q] else []
  }

  lemma EachLast<T>(pre: seq<T>, xs: seq<Contribution>, part: Contribution -> seq<T>)
    requires xs != []
    ensures pre + Each(xs, part) == (pre + Each(xs[..|xs| - 1], part)) + part(xs[|xs| - 1])
  {
    Regroup(pre, Each(xs[..|xs| - 1], part), part(xs[|xs| - 1]));
  }

  lemma Regroup<T>(a: seq<T>, b: seq<T>, c: seq<T>)
    ensures a + (b + c) == (a + b) + c
  {
  }

  lemma OneMore<M>(merge: (Option<M>, M) -> M, front: seq<M>, more: seq<M>)
    requires |more| <= 1
    ensures MergeEach(merge, front + more) ==
            if more == [] then MergeEach(merge, front) else Some(merge(MergeEach(merge, front), more[0]))
  {
    if more == [] {
      assert front + more == front;
    } else {
      assert more == [more[0]];
      MergeOneMore(merge, front, more[0]);
    }
  }

  lemma OptMerges<M>(merge: (Option<M>, M) -> M, v: Option<M>)
    requires v.Some? ==> merge(None, v.value) == v.value
    ensures MergeEach(merge, Opt(v) + []) == v
  {
    assert Opt(v) + [] == Opt(v);
    if v.Some? {
      assert [v.value][..0] == [];
    }
  }

  /** Each feature of a flow is the merge of that feature's records, and of no other, in order. */
  lemma {:induction false} FeaturesMerged(c: Content, xs: seq<Contribution>)
    ensures WithAll(c, xs).drops == MergeEach(MergedDrops, Opt(c.drops) + Each(xs, DropsIn))
    ensures WithAll(c, xs).additional == MergeEach(MergedAdditional, Opt(c.additional) + Each(xs, AdditionalIn))
    ensures WithAll(c, xs).quic == MergeEach(MergedQuic, Opt(c.quic) + Each(xs, QuicIn))
  {
    if xs == [] {
      OptMerges(MergedDrops, c.drops);
      OptMerges(MergedAdditional, c.additional);
      OptMerges(MergedQuic, c.quic);
    } else {
      var front, x := xs[..|xs| - 1], xs[|xs| - 1];
      FeaturesMerged(c, front);
      EachLast(Opt(c.drops), xs, DropsIn);
      EachLast(Opt(c.additional), xs, AdditionalIn);
      EachLast(Opt(c.quic), xs, QuicIn);
      OneMore(MergedDrops, Opt(c.drops) + Each(front, DropsIn), DropsIn(x));
      OneMore(MergedAdditional, Opt(c.additional) + Each(front, AdditionalIn), AdditionalIn(x));
      OneMore(MergedQuic, Opt(c.quic) + Each(front, QuicIn), QuicIn(x));
    }
  }

  /** Two flows that differ in their times and protocol at most. */
  predicate SameButTimes(m: FlowMetrics, n: FlowMetrics) {
    m == n.(startTs := m.startTs, endTs := m.endTs, ethProtocol := m.ethProtocol)
  }

  /** All else of the base is the merge of the base records, whatever features come in between. */
  lemma {:induction false} BaseMerged(c: Content, xs: seq<Contribution>)
    ensures var all := MergeAll([c.base] + Each(xs, BaseIn));
            all.Some? && SameButTimes(WithAll(c, xs).base, all.value)
  {
    if xs == [] {
      assert [c.base] + Each(xs, BaseIn) == [c.base];
      assert [c.base][..0] == [];
    } else {
      var front, x := xs[..|xs| - 1], xs[|xs| - 1];
      BaseMerged(c, front);
      EachLast([c.base], xs, BaseIn);
      var bases := [c.base] + Each(front, BaseIn);
      if x.OfBase? {
        assert (bases + [x.m])[..|bases|] == bases;
      } else {
        assert bases + [] == bases;
      }
    }
  }

  /** Whether a record is a base record, and its protocol. */
  function Mark(x: Contribution): (bool, u16) {
    match x
    case OfBase(m) => (true, m.ethProtocol)
    case OfDrops(d) => (false, d.ethProtocol)
    case OfAdditional(a) => (false, a.ethProtocol)
    case OfQuic(q) => (false, q.ethProtocol)
    case OfOther(_, _, eth) => (false, eth)
  }

  function Marks(xs: seq<Contribution>): (r: seq<(bool, u16)>)
    ensures |r| == |xs| && forall i :: 0 <= i < |xs| ==> r[i] == Mark(xs[i])
  {
    seq(|xs|, i requires 0 <= i < |xs| => Mark(xs[i]))
  }

  ghost predicate NoBaseAfter(ms: seq<(bool, u16)>, i: int) {
    forall j :: 0 <= j < |ms| && i < j ==> !(ms[j].0 && ms[j].1 != 0)
  }

  ghost predicate NoneBefore(ms: seq<(bool, u16)>, i: int) {
    forall j :: 0 <= j < |ms| && j < i ==> ms[j].1 == 0
  }

  /**
   * The protocol is that of the last base record that has one; without such a record, that of the flow so far;
   * if that has none, that of the first record that has one.
   */
  ghost predicate ProtocolIs(before: u16, ms: seq<(bool, u16)>, eth: u16) {
    || (exists i :: 0 <= i < |ms| && ms[i] == (true, eth) && eth != 0 && NoBaseAfter(ms, i))
    || (NoBaseAfter(ms, -1) && before != 0 && eth == before)
    || (NoBaseAfter(ms, -1) && before == 0 && eth != 0
        && exists i :: 0 <= i < |ms| && ms[i] == (false, eth) && NoneBefore(ms, i))
    || (before == 0 == eth && NoneBefore(ms, |ms|))
  }

  lemma ProtocolStep(before: u16, ms: seq<(bool, u16)>, m: (bool, u16), eth: u16)
    requires ProtocolIs(before, ms, eth)
    ensures ProtocolIs(before, ms + [m], if m.0 then (if m.1 != 0 then m.1 else eth) else if eth == 0 then m.1 else eth)
  {
    var all := ms + [m];
    assert all[|ms|] == m && forall j :: 0 <= j < |ms| ==> all[j] == ms[j];
    if m.1 != 0 && (m.0 || eth == 0) {
      assert all[|ms|] == (m.0, m.1) && NoBaseAfter(all, |ms|);
      assert !m.0 ==> NoneBefore(ms, |ms|) && NoneBefore(all, |ms|);
    } else if i :| 0 <= i < |ms| && ms[i] == (true, eth) && eth != 0 && NoBaseAfter(ms, i) {
      assert all[i] == (true, eth);
    } else if i :| 0 <= i < |ms| && ms[i] == (false, eth) && NoneBefore(ms, i) && eth != 0 {
      assert all[i] == (false, eth);
    }
  }

  lemma WithProtocol(c: Content, x: Contribution)
    ensures var eth, m := c.base.ethProtocol, Mark(x);
            With(c, x).base.ethProtocol ==
            if m.0 then (if m.1 != 0 then m.1 else eth) else if eth == 0 then m.1 else eth
  {
  }

  lemma {:induction false} ProtocolMerged(c: Content, xs: seq<Contribution>)
    ensures ProtocolIs(c.base.ethProtocol, Marks(xs), WithAll(c, xs).base.ethProtocol)
  {
    if xs != [] {
      var n := |xs| - 1;
      ProtocolMerged(c, xs[..n]);
      assert Marks(xs) == Marks(xs[..n]) + [Mark(xs[n])];
      WithProtocol(WithAll(c, xs[..n]), xs[n]);
      ProtocolStep(c.base.ethProtocol, Marks(xs[..n]), Mark(xs[n]), WithAll(c, xs[..n]).base.ethProtocol);
    }
  }
}
