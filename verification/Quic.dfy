/** QUIC headers and the per-CPU QUIC metrics of a flow (bpf/quic_tracker.h). */
module Quic {
  import opened Words
  import opened Flows
  import opened Folds
  import opened PerCpu
  import opened Wire
  import opened FlowContent

  const FIXED_BIT: nat := 0x40
  const LONG_HEADER: nat := 0x80
  const MAX_CID_LEN: nat := 20
  const LH_MIN_LEN: nat := 7
  const UDP_HEADER_LEN: nat := 8
  const MIN_PACKET_SIZE: nat := 21

  datatype Kind = NotQuic | Short | Long

  predicate HasBit(b: u8, bit: nat)
    requires bit > 0
  {
    b / bit % 2 == 1
  }

  function Be32At(skb: Segment, offset: nat): u32
    requires Loads(skb, offset, 4)
  {
    Be16At(skb, offset) * 0x1_0000 + Be16At(skb, offset + 2)
  }

  function Be32(v: u32): (b: Bytes)
    ensures |b| == 4
  {
    Be16(v / 0x1_0000) + Be16(v % 0x1_0000)
  }

  lemma AtBe32(skb: Segment, offset: nat, v: u32)
    requires At(skb, offset, Be32(v))
    ensures Be32At(skb, offset) == v
  {
    AtSplit(skb, offset, Be16(v / 0x1_0000), Be16(v % 0x1_0000));
    AtBe16(skb, offset, v / 0x1_0000);
    AtBe16(skb, offset + 2, v % 0x1_0000);
  }

  // ----- The header, by section 5.1 of RFC 8999 -----

  datatype LongHeader = LongHeader(first: u8, version: u32, dcid: Bytes, scid: Bytes, rest: Bytes)

  predicate WellFormed(h: LongHeader) {
    h.first >= 0xC0 && |h.dcid| <= 20 && |h.scid| <= 20
  }

  function Print(h: LongHeader): Bytes
    requires WellFormed(h)
  {
    [h.first] + (Be32(h.version) + ([|h.dcid|] + (h.dcid + ([|h.scid|] + (h.scid + h.rest)))))
  }

  ghost predicate LongForm(payload: Bytes, version: u32) {
    exists h :: WellFormed(h) && payload == Print(h) && version == h.version
  }

  predicate ShortForm(payload: Bytes) {
    payload != [] && 0x40 <= payload[0] < 0x80
  }

  // ----- What the parser finds -----

  /** What a long header shows, when its length fields are acceptable. */
  function LongAt(skb: Segment, offset: nat, payloadLen: nat): Option<u32> {
    if payloadLen < LH_MIN_LEN || !Loads(skb, offset + 1, 4) || !Loads(skb, offset + 5, 1) then None
    else
      var dcidLen := skb[offset + 5];
      if dcidLen > MAX_CID_LEN || payloadLen < 7 + dcidLen || !Loads(skb, offset + 6 + dcidLen, 1) then None
      else
        var scidLen := skb[offset + 6 + dcidLen];
        if scidLen > MAX_CID_LEN || payloadLen < LH_MIN_LEN + dcidLen + scidLen then None
        else Some(Be32At(skb, offset + 1))
  }

  function HeaderAt(skb: Segment, offset: nat, payloadLen: nat): (Kind, u32) {
    if !Loads(skb, offset, 1) || !HasBit(skb[offset], FIXED_BIT) then (NotQuic, 0)
    else if !HasBit(skb[offset], LONG_HEADER) then (Short, 0)
    else
      var v := LongAt(skb, offset, payloadLen);
      if v.None? then (NotQuic, 0) else (Long, v.value)
  }

  /** parse_quic_header; the version counts only with a header that is one. */
  method ParseHeader(skb: Segment, offset: u32, payloadLen: u32) returns (kind: Kind, version: u32)
    ensures kind == HeaderAt(skb, offset, payloadLen).0
    ensures kind != NotQuic ==> version == HeaderAt(skb, offset, payloadLen).1
  {
    version := 0;
    if !Loads(skb, offset, 1) {
      return NotQuic, version;
    }
    var first := skb[offset];
    if !HasBit(first, FIXED_BIT) {
      return NotQuic, version;
    }
    if HasBit(first, LONG_HEADER) {
      if payloadLen < LH_MIN_LEN || !Loads(skb, offset + 1, 4) {
        return NotQuic, version;
      }
      version := Be32At(skb, offset + 1);
      if !Loads(skb, offset + 5, 1) {
        return NotQuic, version;
      }
      var dcidLen := skb[offset + 5];
      if dcidLen > MAX_CID_LEN || payloadLen < 6 + dcidLen + 1 {
        return NotQuic, version;
      }
      if !Loads(skb, offset + 6 + dcidLen, 1) {
        return NotQuic, version;
      }
      var scidLen := skb[offset + 6 + dcidLen];
      if scidLen > MAX_CID_LEN || payloadLen < LH_MIN_LEN + dcidLen + scidLen {
        return NotQuic, version;
      }
      return Long, version;
    }
    return Short, version;
  }

  /** Where the fields of a printed header stand. */
  lemma PrintedFields(skb: Segment, offset: nat, h: LongHeader)
    requires WellFormed(h) && At(skb, offset, Print(h))
    ensures skb[offset] == h.first && At(skb, offset + 1, Be32(h.version)) && skb[offset + 5] == |h.dcid|
    ensures At(skb, offset + 6 + |h.dcid|, [|h.scid|] + (h.scid + h.rest))
  {
    var t3 := [|h.scid|] + (h.scid + h.rest);
    var t1 := [|h.dcid|] + (h.dcid + t3);
    AtSplit(skb, offset, [h.first], Be32(h.version) + t1);
    AtSplit(skb, offset + 1, Be32(h.version), t1);
    AtByte(skb, offset, [h.first], 0);
    AtVector8(skb, offset + 5, h.dcid, t3);
  }

  /** A well-formed long header is found, with its version. */
  lemma PrintedIsLong(skb: Segment, offset: nat, h: LongHeader)
    requires WellFormed(h) && At(skb, offset, Print(h))
    ensures HeaderAt(skb, offset, |Print(h)|) == (Long, h.version)
  {
    PrintedFields(skb, offset, h);
    AtBe32(skb, offset + 1, h.version);
    AtByte(skb, offset + 6 + |h.dcid|, [|h.scid|] + (h.scid + h.rest), 0);
    assert |Print(h)| == 7 + |h.dcid| + |h.scid| + |h.rest|;
  }

  /** The long header that the parser found. */
  function Found(p: Bytes, version: u32): LongHeader
    requires |p| >= LH_MIN_LEN && |p| >= 7 + (p[5] as int) && |p| >= LH_MIN_LEN + (p[5] as int) + p[6 + (p[5] as int)]
  {
    var d := p[5] as int;
    var s := p[6 + d] as int;
    LongHeader(p[0], version, p[6..6 + d], p[7 + d..7 + d + s], p[7 + d + s..])
  }

  lemma FoundPrints(p: Segment)
    requires HeaderAt(p, 0, |p|).0 == Long
    ensures LongForm(p, HeaderAt(p, 0, |p|).1)
  {
    var h := Found(p, HeaderAt(p, 0, |p|).1);
    assert WellFormed(h);
    VersionBytes(p, h.version);
    assert p == Print(h);
  }

  lemma VersionBytes(p: Segment, v: u32)
    requires Loads(p, 1, 4) && v == Be32At(p, 1)
    ensures Be32(v) == p[1..5]
  {
    var hi, lo := Be16At(p, 1), Be16At(p, 3);
    assert v / 0x1_0000 == hi && v % 0x1_0000 == lo;
  }

  /** With the whole payload present, the parser says long or short iff the header has that form. */
  lemma HeaderMeans(skb: Segment, offset: nat, n: nat)
    requires Loads(skb, offset, n) && n > 0
    ensures var (kind, version) := HeaderAt(skb, offset, n);
            var p := skb[offset..offset + n];
            && (kind == Short <==> ShortForm(p))
            && (kind == Long <==> exists v :: LongForm(p, v))
            && (kind == Long ==> LongForm(p, version))
            && forall v :: LongForm(p, v) ==> v == version
  {
    var p := skb[offset..offset + n];
    SameHeader(skb, offset, n);
    if HeaderAt(p, 0, n).0 == Long {
      FoundPrints(p);
    }
    forall v: u32 | LongForm(p, v) ensures HeaderAt(skb, offset, n) == (Long, v) {
      var h :| WellFormed(h) && p == Print(h) && v == h.version;
      PrintedIsLong(skb, offset, h);
    }
  }

  lemma SameHeader(skb: Segment, offset: nat, n: nat)
    requires Loads(skb, offset, n) && n > 0
    ensures HeaderAt(skb, offset, n) == HeaderAt(skb[offset..offset + n], 0, n)
  {
  }

  /**
   * A buffer that ends too early: a long header is found iff it reaches the length of the source connection ID,
   * a short one iff its first byte is there, with the same version; else the packet is not QUIC.
   */
  lemma HeaderCut(t: Segment, s: Segment, offset: nat, n: nat)
    requires t <= s
    ensures HeaderAt(t, offset, n) ==
            if HeaderAt(s, offset, n).0 == Short && offset < |t| then HeaderAt(s, offset, n)
            else if HeaderAt(s, offset, n).0 == Long && offset + 6 + s[offset + 5] < |t| then HeaderAt(s, offset, n)
            else (NotQuic, 0)
  {
    assert forall i :: 0 <= i < |t| ==> t[i] == s[i];
  }

  // ----- Per-CPU metrics of one flow -----

  datatype Mode = OnPort443 | AnyUdpPort

  const PROTO_UDP: u8 := 17
  const QUIC_PORT: u16 := 443

  /** A packet of the flow; `udp` is where its UDP header stands. */
  datatype Datagram = Datagram(
    cpu: Cpu, protocol: u8, srcPort: u16, dstPort: u16, skb: Segment, udp: Option<nat>, udpLen: u16,
    ts: u64, ethProtocol: u16)

  predicate Considered(d: Datagram, mode: Mode) {
    && d.protocol == 17 && (mode.OnPort443? ==> 443 in {d.srcPort, d.dstPort})
    && d.udp.Some? && d.udp.value + 8 <= |d.skb| && d.udpLen >= 8 + 21
  }

  function Header(d: Datagram): (Kind, u32) {
    if d.udp.None? then (NotQuic, 0)
    else HeaderAt(d.skb, d.udp.value + UDP_HEADER_LEN, Max(0, d.udpLen - UDP_HEADER_LEN))
  }

  function SeenOn(log: seq<Datagram>, c: Cpu, kind: Kind): (r: u8)
    ensures r <= 1
  {
    if log == [] then 0
    else if log[|log| - 1].cpu == c && Header(log[|log| - 1]).0 == kind then 1
    else SeenOn(log[..|log| - 1], c, kind)
  }

  /** The last non-zero version a long header showed on the CPU. */
  function LastVersion(log: seq<Datagram>, c: Cpu): u32 {
    if log == [] then 0
    else
      var (d, h) := (log[|log| - 1], Header(log[|log| - 1]));
      if d.cpu == c && h.0 == Long && h.1 != 0 then h.1 else LastVersion(log[..|log| - 1], c)
  }

  /** The last packet of the CPU. */
  function LastOn(log: seq<Datagram>, c: Cpu): Option<Datagram> {
    if log == [] then None else if log[|log| - 1].cpu == c then Some(log[|log| - 1]) else LastOn(log[..|log| - 1], c)
  }

  ghost predicate Tally(log: seq<Datagram>, c: Cpu, m: QuicMetrics) {
    && m.version == LastVersion(log, c)
    && m.seenLongHdr == SeenOn(log, c, Long) && m.seenShortHdr == SeenOn(log, c, Short)
    && m.endTs == (if LastOn(log, c).Some? then LastOn(log, c).value.ts else 0)
    && Begins(log, c, m.startTs, m.ethProtocol)
  }

  /** Start and protocol are set on the CPU that created the key, by the packet that did; elsewhere they are zero. */
  ghost predicate Begins(log: seq<Datagram>, c: Cpu, startTs: u64, ethProtocol: u16) {
    if log != [] && log[0].cpu == c then startTs == log[0].ts && ethProtocol == log[0].ethProtocol
    else startTs == 0 == ethProtocol
  }

  const ZERO := QuicMetrics(0, 0, 0, 0, 0, 0)

  /** The value that the insert brings. */
  function Created(d: Datagram): QuicMetrics {
    var (kind, version) := Header(d);
    QuicMetrics(d.ts, d.ts, version, d.ethProtocol, if kind == Long then 1 else 0, if kind == Short then 1 else 0)
  }

  function Noted(m: QuicMetrics, d: Datagram): QuicMetrics {
    var (kind, version) := Header(d);
    var v := m.(endTs := d.ts);
    if kind == Long then v.(seenLongHdr := 1, version := if version != 0 then version else m.version)
    else if kind == Short then v.(seenShortHdr := 1)
    else v
  }

  const RULES: Rules<Datagram, QuicMetrics> := Rules((d: Datagram) => d.cpu, ZERO, Created, Noted)

  /**
   * The writes of track_quic_packet, one by one. They are the `note` of RULES, which `Key.Write` applies, and
   * the value goes on showing the packets of its CPU.
   */
  method UpdateFlow(v: QuicMetrics, d: Datagram, kind: Kind, version: u32, ghost log: seq<Datagram>)
    returns (v': QuicMetrics)
    requires (kind, version) == Header(d) && kind != NotQuic && log != [] && Tally(log, d.cpu, v)
    ensures v' == Noted(v, d) && Tally(log + [d], d.cpu, v')
  {
    v' := v.(endTs := d.ts);
    if kind == Long {
      v' := v'.(seenLongHdr := 1);
      if version != 0 {
        v' := v'.(version := version);
      }
    } else {
      v' := v'.(seenShortHdr := 1);
    }
    TallyStep(log, d, d.cpu, v);
  }

  lemma TallyStep(log: seq<Datagram>, d: Datagram, c: Cpu, m: QuicMetrics)
    requires log != [] && Tally(log, c, m)
    ensures Tally(log + [d], c, if c == d.cpu then Noted(m, d) else m)
  {
    assert (log + [d])[..|log|] == log;
  }

  lemma FirstTallies(d: Datagram, c: Cpu)
    ensures Tally([d], c, if c == d.cpu then Created(d) else ZERO)
  {
    assert [d][..0] == [];
  }

  /** What the protocol leaves on a CPU is the tally of its packets. */
  lemma {:induction false} ReplayTallies(log: seq<Datagram>, c: Cpu)
    ensures Tally(log, c, Replay(RULES, log, c))
  {
    if log != [] {
      var front, d := log[..|log| - 1], log[|log| - 1];
      ReplayStep(RULES, front, d, c);
      assert log == front + [d];
      ReplayTallies(front, c);
      if front == [] {
        FirstTallies(d, c);
      } else {
        TallyStep(front, d, c, Replay(RULES, front, c));
      }
    }
  }

  /** The values of a key show exactly the packets of its log. */
  ghost predicate Tallies(key: Key<Datagram, QuicMetrics>)
    reads key
  {
    forall c :: Tally(key.log, c, ValueOn(key.values, c, ZERO))
  }

  lemma KeyTallies(key: Key<Datagram, QuicMetrics>)
    requires key.Valid() && key.rules == RULES
    ensures Tallies(key)
  {
    forall c ensures Tally(key.log, c, ValueOn(key.values, c, ZERO)) {
      ReplayTallies(key.log, c);
    }
  }

  /** The packet is one that track_quic_packet looks up. */
  predicate IsQuic(d: Datagram, mode: Mode) {
    Considered(d, mode) && Header(d).0 != NotQuic
  }

  /** The tests of track_quic_packet in front of the lookup. */
  method Classify(d: Datagram, mode: Mode) returns (quic: bool)
    ensures quic <==> IsQuic(d, mode)
  {
    if d.protocol != PROTO_UDP || (mode.OnPort443? && d.dstPort != QUIC_PORT && d.srcPort != QUIC_PORT) {
      return false;
    }
    if d.udp.None? || d.udp.value + UDP_HEADER_LEN > |d.skb| || d.udpLen < UDP_HEADER_LEN + MIN_PACKET_SIZE {
      return false;
    }
    var kind, _ := ParseHeader(d.skb, d.udp.value + UDP_HEADER_LEN, d.udpLen - UDP_HEADER_LEN);
    return kind != NotQuic;
  }

  /** track_quic_packet, with any steps of other CPUs and of user space in between. */
  method Track(key: Key<Datagram, QuicMetrics>, mode: Mode, d: Datagram, room: bool, g: Gaps<Datagram>)
    requires key.Valid() && key.rules == RULES && PcOf(key.Now(), d.cpu) == Idle && OfOthers(RULES.cpu, g, d.cpu)
    modifies key
    ensures key.Valid() && Tallies(key)
    ensures !IsQuic(d, mode) ==> unchanged(key)
    ensures IsQuic(d, mode) ==> key.Now() == Tracked(RULES.cpu, old(key.Now()), d, room, g)
    ensures var last := AtLast(RULES.cpu, old(key.Now()), d, room, g);
            IsQuic(d, mode) ==>
              key.Now() == if Kept(RULES.cpu, old(key.Now()), d, room, g) then Shown(last, d.cpu, d)
                           else Lost(last, d.cpu, d)
  {
    var quic := Classify(d, mode);
    if quic {
      key.Track(d, room, g);
    }
    KeyTallies(key);
  }

  function QuicOnly(ds: seq<Datagram>, mode: Mode): seq<Datagram> {
    if ds == [] then []
    else QuicOnly(ds[..|ds| - 1], mode) + if IsQuic(ds[|ds| - 1], mode) then [ds[|ds| - 1]] else []
  }

  lemma QuicOnlyStep(base: seq<Datagram>, ds: seq<Datagram>, i: nat, mode: Mode)
    requires i < |ds|
    ensures base + QuicOnly(ds[..i + 1], mode)
            == base + QuicOnly(ds[..i], mode) + if IsQuic(ds[i], mode) then [ds[i]] else []
  {
    assert ds[..i + 1][..i] == ds[..i];
  }

  method NoteQuietly(key: Key<Datagram, QuicMetrics>, mode: Mode, d: Datagram)
    requires key.Valid() && key.rules == RULES && PcOf(key.Now(), d.cpu) == Idle
    modifies key
    ensures key.Valid() && key.lost == old(key.lost) && key.taken == old(key.taken)
    ensures key.log == old(key.log) + if IsQuic(d, mode) then [d] else []
    ensures forall c :: PcOf(old(key.Now()), c) == Idle ==> PcOf(key.Now(), c) == Idle
  {
    Track(key, mode, d, true, Quiet());
    TrackedQuietly(RULES.cpu, old(key.Now()), d, true);
  }

  /** Packets of any CPUs, without a refused insert and with nothing in between: all that are QUIC are noted. */
  method TrackAll(key: Key<Datagram, QuicMetrics>, mode: Mode, ds: seq<Datagram>)
    requires key.Valid() && key.rules == RULES && forall i :: 0 <= i < |ds| ==> PcOf(key.Now(), ds[i].cpu) == Idle
    modifies key
    ensures key.Valid() && key.lost == old(key.lost) && key.taken == old(key.taken)
    ensures key.log == old(key.log) + QuicOnly(ds, mode)
  {
    for i := 0 to |ds|
      invariant key.Valid() && key.lost == old(key.lost) && key.taken == old(key.taken)
      invariant key.log == old(key.log) + QuicOnly(ds[..i], mode)
      invariant forall j :: 0 <= j < |ds| ==> PcOf(key.Now(), ds[j].cpu) == Idle
    {
      NoteQuietly(key, mode, ds[i]);
      QuicOnlyStep(old(key.log), ds, i, mode);
    }
    assert ds[..|ds|] == ds;
  }

  /** User space takes the key and merges the CPUs' values, in the given order. */
  method Report(key: Key<Datagram, QuicMetrics>, order: seq<Cpu>) returns (m: Option<QuicMetrics>)
    requires key.Valid() && key.rules == RULES && order != []
    requires forall i :: 0 <= i < |key.log| ==> key.log[i].cpu in order
    modifies key
    ensures key.Valid() && key.Now() == Taken(old(key.Now()))
    ensures m.Some? <==> key.taken != old(key.taken)
    ensures m.Some? ==> Reported(key.taken[|old(key.taken)|..], order, m.value)
  {
    KeyTallies(key);
    ghost var ds := key.log;
    var r := key.Take();
    assert key.taken[|old(key.taken)|..] == ds;
    if r.None? {
      return None;
    }
    m := MergeListed(MergedQuic, r.value, order, ZERO);
    MergedIsReported(ds, order, Listed(r.value, order, ZERO));
  }

  /** A QUIC packet whose insert is refused is in no value, and user space gets no record. */
  method RefusedIsLost(d: Datagram, mode: Mode, order: seq<Cpu>)
    returns (key: Key<Datagram, QuicMetrics>, m: Option<QuicMetrics>)
    requires IsQuic(d, mode) && order != []
    ensures fresh(key) && key.Valid() && key.lost == [d] && key.taken == [] && m == None
  {
    key := new Key(RULES);
    Track(key, mode, d, false, Quiet());
    TrackedQuietly(RULES.cpu, Empty(), d, false);
    m := Report(key, order);
  }

  // ----- What user space reports -----

  ghost predicate SomeHas(log: seq<Datagram>, kind: Kind) {
    exists i :: 0 <= i < |log| && Header(log[i]).0 == kind
  }

  /** A form is reported iff some packet had it, and the version is the largest of the CPUs' last ones. */
  ghost predicate Reported(log: seq<Datagram>, order: seq<Cpu>, m: QuicMetrics) {
    && m.seenLongHdr == (if SomeHas(log, Long) then 1 else 0)
    && m.seenShortHdr == (if SomeHas(log, Short) then 1 else 0)
    && LargestVersion(log, order, m.version)
  }

  lemma {:induction false} SeenOnMeans(log: seq<Datagram>, c: Cpu, kind: Kind)
    ensures SeenOn(log, c, kind)
            == if exists i :: 0 <= i < |log| && log[i].cpu == c && Header(log[i]).0 == kind then 1 else 0
  {
    if log != [] {
      SeenOnMeans(log[..|log| - 1], c, kind);
    }
  }

  ghost predicate OneSaw(log: seq<Datagram>, order: seq<Cpu>, kind: Kind) {
    exists c :: c in order && SeenOn(log, c, kind) == 1
  }

  ghost predicate LargestVersion(log: seq<Datagram>, order: seq<Cpu>, v: u32) {
    && (forall c :: c in order ==> LastVersion(log, c) <= v)
    && exists c :: c in order && LastVersion(log, c) == v
  }

  lemma SawStep(log: seq<Datagram>, order: seq<Cpu>, c: Cpu, kind: Kind)
    ensures OneSaw(log, order + [c], kind) <==> OneSaw(log, order, kind) || SeenOn(log, c, kind) == 1
  {
    assert c in order + [c];
    assert forall d :: d in order ==> d in order + [c];
  }

  lemma LargestStep(log: seq<Datagram>, order: seq<Cpu>, c: Cpu, v: u32)
    requires LargestVersion(log, order, v)
    ensures LargestVersion(log, order + [c], Max(v, LastVersion(log, c)))
  {
    assert c in order + [c];
    assert forall d :: d in order ==> d in order + [c];
  }

  /** Merged values have the largest version of the CPUs, and a flag set iff one of them has. */
  lemma {:induction false} MergeJoins(log: seq<Datagram>, order: seq<Cpu>, values: seq<QuicMetrics>)
    requires order != [] && |values| == |order|
    requires forall i :: 0 <= i < |order| ==> Tally(log, order[i], values[i])
    ensures MergeEach(MergedQuic, values).Some?
    ensures MergeEach(MergedQuic, values).value.seenLongHdr == if OneSaw(log, order, Long) then 1 else 0
    ensures MergeEach(MergedQuic, values).value.seenShortHdr == if OneSaw(log, order, Short) then 1 else 0
    ensures LargestVersion(log, order, MergeEach(MergedQuic, values).value.version)
  {
    var n := |order| - 1;
    assert Tally(log, order[n], values[n]);
    assert order == order[..n] + [order[n]];
    SawStep(log, order[..n], order[n], Long);
    SawStep(log, order[..n], order[n], Short);
    if n == 0 {
      assert values[..0] == [];
    } else {
      MergeJoins(log, order[..n], values[..n]);
      LargestStep(log, order[..n], order[n], MergeEach(MergedQuic, values[..n]).value.version);
    }
  }

  lemma MergedIsReported(log: seq<Datagram>, order: seq<Cpu>, values: seq<QuicMetrics>)
    requires order != [] && |values| == |order| && forall i :: 0 <= i < |log| ==> log[i].cpu in order
    requires forall i :: 0 <= i < |order| ==> Tally(log, order[i], values[i])
    ensures MergeEach(MergedQuic, values).Some? && Reported(log, order, MergeEach(MergedQuic, values).value)
  {
    MergeJoins(log, order, values);
    SomeOn(log, order, Long);
    SomeOn(log, order, Short);
  }

  lemma SomeOn(log: seq<Datagram>, order: seq<Cpu>, kind: Kind)
    requires forall i :: 0 <= i < |log| ==> log[i].cpu in order
    ensures SomeHas(log, kind) <==> OneSaw(log, order, kind)
  {
    forall c ensures SeenOn(log, c, kind) ==
                     if exists i :: 0 <= i < |log| && log[i].cpu == c && Header(log[i]).0 == kind then 1 else 0 {
      SeenOnMeans(log, c, kind);
    }
    if SomeHas(log, kind) {
      var i :| 0 <= i < |log| && Header(log[i]).0 == kind;
      assert SeenOn(log, log[i].cpu, kind) == 1;
    }
  }

  function Payload(d: Datagram): Bytes
    requires d.udp.Some? && d.udpLen >= 8 && Loads(d.skb, d.udp.value, d.udpLen)
  {
    d.skb[d.udp.value + 8..d.udp.value + d.udpLen]
  }

  /** The whole datagram is in the buffer. */
  predicate Complete(d: Datagram) {
    d.udp.Some? && d.udpLen >= 8 + 21 && Loads(d.skb, d.udp.value, d.udpLen)
  }

  ghost predicate HasLong(d: Datagram) {
    Complete(d) && exists v :: LongForm(Payload(d), v)
  }

  ghost predicate HasShort(d: Datagram) {
    Complete(d) && ShortForm(Payload(d))
  }

  lemma FormsMean(skb: Segment, o: nat, n: nat, p: Bytes, kind: Kind, version: u32)
    requires Loads(skb, o, n) && n > 0 && p == skb[o..o + n] && (kind, version) == HeaderAt(skb, o, n)
    ensures kind == Short <==> ShortForm(p)
    ensures kind == Long <==> exists v :: LongForm(p, v)
    ensures kind == Long ==> LongForm(p, version)
  {
    HeaderMeans(skb, o, n);
  }

  lemma DatagramMeans(d: Datagram)
    requires Complete(d)
    ensures Header(d).0 == Short <==> HasShort(d)
    ensures Header(d).0 == Long <==> HasLong(d)
    ensures Header(d).0 == Long ==> LongForm(Payload(d), Header(d).1)
  {
    var o, n := d.udp.value + UDP_HEADER_LEN, d.udpLen - UDP_HEADER_LEN;
    var p, h := Payload(d), Header(d);
    assert h == HeaderAt(d.skb, o, n) && p == d.skb[o..o + n];
    FormsMean(d.skb, o, n, p, h.0, h.1);
  }

  /**
   * For complete datagrams, however they are spread over the CPUs and in whatever order the CPUs are
   * merged: a long (short) header is reported iff some packet had one.
   */
  lemma FormsReported(log: seq<Datagram>, order: seq<Cpu>, m: QuicMetrics)
    requires Reported(log, order, m) && forall i :: 0 <= i < |log| ==> Complete(log[i])
    ensures m.seenLongHdr == 1 <==> exists i :: 0 <= i < |log| && HasLong(log[i])
    ensures m.seenShortHdr == 1 <==> exists i :: 0 <= i < |log| && HasShort(log[i])
  {
    forall i | 0 <= i < |log|
      ensures (Header(log[i]).0 == Short <==> HasShort(log[i])) && (Header(log[i]).0 == Long <==> HasLong(log[i]))
    {
      DatagramMeans(log[i]);
    }
  }

  lemma {:induction false} QuicOnlyHas(ds: seq<Datagram>, mode: Mode, kind: Kind)
    requires kind != NotQuic
    ensures SomeHas(QuicOnly(ds, mode), kind) <==>
            exists i :: 0 <= i < |ds| && Considered(ds[i], mode) && Header(ds[i]).0 == kind
  {
    if ds != [] {
      var n := |ds| - 1;
      QuicOnlyHas(ds[..n], mode, kind);
      SomeHasStep(QuicOnly(ds[..n], mode), ds[n], kind);
    }
  }

  lemma SomeHasStep(log: seq<Datagram>, d: Datagram, kind: Kind)
    ensures SomeHas(log + [d], kind) <==> SomeHas(log, kind) || Header(d).0 == kind
  {
    var log' := log + [d];
    assert log'[|log|] == d && forall i :: 0 <= i < |log| ==> log'[i] == log[i];
  }

  /**
   * For all packets of a flow that are considered and complete, QUIC or not, on whatever CPUs and without
   * refused inserts: a long (short) header is reported iff some packet had one.
   */
  lemma AllFormsReported(ds: seq<Datagram>, mode: Mode, order: seq<Cpu>, m: QuicMetrics)
    requires Reported(QuicOnly(ds, mode), order, m)
    requires forall i :: 0 <= i < |ds| ==> Considered(ds[i], mode) && Complete(ds[i])
    ensures m.seenLongHdr == 1 <==> exists i :: 0 <= i < |ds| && HasLong(ds[i])
    ensures m.seenShortHdr == 1 <==> exists i :: 0 <= i < |ds| && HasShort(ds[i])
  {
    QuicOnlyHas(ds, mode, Long);
    QuicOnlyHas(ds, mode, Short);
    forall i | 0 <= i < |ds|
      ensures (Header(ds[i]).0 == Short <==> HasShort(ds[i])) && (Header(ds[i]).0 == Long <==> HasLong(ds[i]))
    {
      DatagramMeans(ds[i]);
    }
  }
}
