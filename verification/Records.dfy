/** Exported records built in shared backing arrays (pkg/model/record.go, account.go, tracer_map.go). */
module Records {
  import opened Words
  import opened Flows
  import opened Saturating
  import opened FlowContent

  datatype IntfDirUdn = IntfDirUdn(intf: string, direction: int, udn: string)

  // ----- Go slices -----

  /** `cap` cells of `arr` from `off` on, of which the first `len` are in use. */
  datatype Slice = Slice(arr: array<IntfDirUdn>, off: nat, len: nat, cap: nat) {
    ghost predicate Valid() {
      len <= cap && off + cap <= arr.Length
    }

    ghost function Contents(): seq<IntfDirUdn>
      requires Valid()
      reads arr
    {
      arr[off..off + len]
    }
  }

  /** The region of the array that a slice may write to. */
  ghost predicate InRegion(s: Slice, k: int) {
    s.off <= k < s.off + s.cap
  }

  /** append: in place while there is capacity, else into a larger array of its own. */
  method Append(s: Slice, x: IntfDirUdn) returns (r: Slice)
    requires s.Valid()
    modifies s.arr
    ensures r.Valid() && r.Contents() == old(s.Contents()) + [x]
    ensures if s.len < s.cap then r == s.(len := s.len + 1) else fresh(r.arr)
    ensures forall k :: 0 <= k < s.arr.Length && !InRegion(s, k) ==> s.arr[k] == old(s.arr[k])
  {
    if s.len < s.cap {
      s.arr[s.off + s.len] := x;
      return s.(len := s.len + 1);
    }
    var extra: nat :| extra >= 0;
    var grown := new IntfDirUdn[s.len + 1 + extra](_ => IntfDirUdn("", 0, ""));
    for k := 0 to s.len
      modifies grown
      invariant forall j :: 0 <= j < k ==> grown[j] == s.arr[s.off + j]
    {
      grown[k] := s.arr[s.off + k];
    }
    grown[s.len] := x;
    assert grown[..s.len] == old(s.arr[s.off..s.off + s.len]);
    return Slice(grown, 0, s.len + 1, grown.Length);
  }

  // ----- Records -----

  type Namer = (u32, Bytes) -> string

  /** A network event decoded from its cookie; the cause is there when it tells of a drop. */
  datatype Decoded = Decoded(text: string, cause: Option<u32>)

  type Decoder = Bytes -> Option<Decoded>

  /** What the records of a batch share: the clocks, the interface namer, the UDN cache, the event decoder. */
  datatype Setting = Setting(
    now: int, monotonicNow: u64, namer: Namer, udns: map<string, string>, agentIp: Bytes, decoder: Option<Decoder>)

  datatype EventSlot = EventSlot(cookie: Bytes, packets: u16, bytes: u16)

  datatype EventMetrics = EventMetrics(startTs: u64, endTs: u64, slots: seq<EventSlot>)

  /** A flow with what its feature records say. */
  datatype FlowData = FlowData(
    base: FlowMetrics, dnsLatency: Option<u64>, rtt: Option<u64>, drops: Option<DropMetrics>,
    events: Option<EventMetrics>)

  // ----- Network events of a record -----

  /** What a slot tells: nothing when it is unused or its cookie cannot be decoded. */
  function Told(slot: EventSlot, decode: Decoder): Option<Decoded> {
    if slot.packets == 0 then None else decode(slot.cookie)
  }

  /** The texts told, each once, in the order of their first slots. */
  function Texts(slots: seq<EventSlot>, decode: Decoder): seq<string> {
    if slots == [] then []
    else
      var front, t := Texts(slots[..|slots| - 1], decode), Told(slots[|slots| - 1], decode);
      if t.Some? && t.value.text !in front then front + [t.value.text] else front
  }

  /** The drop metrics with the drops that the slots tell of. */
  function Injected(drops: Option<DropMetrics>, ev: EventMetrics, n: nat, decode: Decoder): Option<DropMetrics>
    requires n <= |ev.slots|
  {
    if n == 0 then drops
    else
      var front, slot := Injected(drops, ev, n - 1, decode), ev.slots[n - 1];
      var t := Told(slot, decode);
      if t.None? || t.value.cause.None? then front
      else if front.None? then
        Some(DropMetrics(ev.startTs, ev.endTs, slot.bytes, slot.packets, t.value.cause.value, {}, 0, 0))
      else
        Some(front.value.(latestDropCause := t.value.cause.value, bytes := AddUint16(front.value.bytes, slot.bytes),
                          packets := AddUint16(front.value.packets, slot.packets)))
  }

  lemma {:induction false} TextsAreTold(slots: seq<EventSlot>, decode: Decoder, text: string)
    ensures text in Texts(slots, decode) <==>
            exists i :: 0 <= i < |slots| && slots[i].packets != 0 && decode(slots[i].cookie).Some?
                        && decode(slots[i].cookie).value.text == text
  {
    if slots != [] {
      TextsAreTold(slots[..|slots| - 1], decode, text);
    }
  }

  lemma {:induction false} TextsDistinct(slots: seq<EventSlot>, decode: Decoder)
    ensures forall i, j :: 0 <= i < j < |Texts(slots, decode)| ==> Texts(slots, decode)[i] != Texts(slots, decode)[j]
  {
    if slots != [] {
      TextsDistinct(slots[..|slots| - 1], decode);
    }
  }

  /** The texts are in the order of the slots that first tell them: more slots only add texts behind. */
  lemma {:induction false} TextsInOrder(slots: seq<EventSlot>, decode: Decoder, n: nat)
    requires n <= |slots|
    ensures Texts(slots[..n], decode) <= Texts(slots, decode)
    decreases |slots|
  {
    if n < |slots| {
      var front := slots[..|slots| - 1];
      TextsInOrder(front, decode, n);
      assert front[..n] == slots[..n];
    } else {
      assert slots[..n] == slots;
    }
  }

  /** The slot is in use, and its cookie tells of a drop. */
  predicate TellsDrop(slot: EventSlot, decode: Decoder) {
    slot.packets != 0 && decode(slot.cookie).Some? && decode(slot.cookie).value.cause.Some?
  }

  function ToldPackets(slots: seq<EventSlot>, n: nat, decode: Decoder): nat
    requires n <= |slots|
  {
    if n == 0 then 0
    else ToldPackets(slots, n - 1, decode) + if TellsDrop(slots[n - 1], decode) then slots[n - 1].packets else 0
  }

  function ToldBytes(slots: seq<EventSlot>, n: nat, decode: Decoder): nat
    requires n <= |slots|
  {
    if n == 0 then 0
    else ToldBytes(slots, n - 1, decode) + if TellsDrop(slots[n - 1], decode) then slots[n - 1].bytes else 0
  }

  /** The drops of the record are those of the flow plus those its network events tell of, capped at 65535. */
  lemma {:induction false} InjectedCounts(drops: Option<DropMetrics>, ev: EventMetrics, n: nat, decode: Decoder)
    requires n <= |ev.slots|
    ensures var d := Injected(drops, ev, n, decode);
            var packets := if drops.Some? then drops.value.packets else 0;
            var bytes := if drops.Some? then drops.value.bytes else 0;
            && (d.None? <==> drops.None? && forall i :: 0 <= i < n ==> !TellsDrop(ev.slots[i], decode))
            && (d.Some? ==> d.value.packets == Cap(packets + ToldPackets(ev.slots, n, decode))
                            && d.value.bytes == Cap(bytes + ToldBytes(ev.slots, n, decode)))
            && (d.None? ==> ToldPackets(ev.slots, n, decode) == 0 == ToldBytes(ev.slots, n, decode))
  {
    if n > 0 {
      InjectedCounts(drops, ev, n - 1, decode);
      var front, slot := Injected(drops, ev, n - 1, decode), ev.slots[n - 1];
      if TellsDrop(slot, decode) && front.Some? {
        AddsSaturate(front.value.packets, slot.packets);
        AddsSaturate(front.value.bytes, slot.bytes);
        CapAdd((if drops.Some? then drops.value.packets else 0) + ToldPackets(ev.slots, n - 1, decode), slot.packets);
        CapAdd((if drops.Some? then drops.value.bytes else 0) + ToldBytes(ev.slots, n - 1, decode), slot.bytes);
      }
    }
  }

  /** Slot i is the last of the first n that tells of a drop. */
  ghost predicate LastTelling(slots: seq<EventSlot>, n: nat, decode: Decoder, i: nat) {
    && i < n <= |slots| && TellsDrop(slots[i], decode)
    && forall j :: i < j < n ==> !TellsDrop(slots[j], decode)
  }

  /** The cause is that of the last event that tells of a drop; without one the drops are those of the flow. */
  lemma {:induction false} InjectedCause(drops: Option<DropMetrics>, ev: EventMetrics, n: nat, decode: Decoder, i: nat)
    requires n <= |ev.slots|
    ensures LastTelling(ev.slots, n, decode, i) ==>
              && Injected(drops, ev, n, decode).Some?
              && Injected(drops, ev, n, decode).value.latestDropCause == decode(ev.slots[i].cookie).value.cause.value
    ensures (forall j :: 0 <= j < n ==> !TellsDrop(ev.slots[j], decode)) ==> Injected(drops, ev, n, decode) == drops
  {
    if n > 0 {
      InjectedCause(drops, ev, n - 1, decode, i);
    }
  }

  /** The other drop metrics stay those of the flow; when it has none they start and end with the events. */
  lemma {:induction false} InjectedRest(drops: Option<DropMetrics>, ev: EventMetrics, n: nat, decode: Decoder)
    requires n <= |ev.slots|
    ensures drops.Some? ==>
              && Injected(drops, ev, n, decode).Some?
              && var d := Injected(drops, ev, n, decode).value;
                 d == drops.value.(packets := d.packets, bytes := d.bytes, latestDropCause := d.latestDropCause)
    ensures drops.None? && Injected(drops, ev, n, decode).Some? ==>
              var d := Injected(drops, ev, n, decode).value;
              d == DropMetrics(ev.startTs, ev.endTs, d.bytes, d.packets, d.latestDropCause, {}, 0, 0)
  {
    if n > 0 {
      InjectedRest(drops, ev, n - 1, decode);
    }
  }

  /** The loop of NewRecordInto over the network events. */
  method DecodeEvents(ev: EventMetrics, drops0: Option<DropMetrics>, decode: Decoder)
    returns (texts: seq<string>, drops: Option<DropMetrics>)
    ensures texts == Texts(ev.slots, decode) && drops == Injected(drops0, ev, |ev.slots|, decode)
  {
    texts, drops := [], drops0;
    for i := 0 to |ev.slots|
      invariant texts == Texts(ev.slots[..i], decode) && drops == Injected(drops0, ev, i, decode)
    {
      var slot := ev.slots[i];
      assert ev.slots[..i + 1][..i] == ev.slots[..i];
      if slot.packets != 0 {
        var md := decode(slot.cookie);
        if md.Some? {
          if md.value.text !in texts {
            texts := texts + [md.value.text];
          }
          if md.value.cause.Some? {
            if drops.None? {
              drops := Some(
                DropMetrics(ev.startTs, ev.endTs, slot.bytes, slot.packets, md.value.cause.value, {}, 0, 0));
            } else {
              drops := Some(drops.value.(latestDropCause := md.value.cause.value));
              drops := Some(drops.value.(bytes := AddUint16(drops.value.bytes, slot.bytes)));
              drops := Some(drops.value.(packets := AddUint16(drops.value.packets, slot.packets)));
            }
          }
        }
      }
    }
    assert ev.slots[..|ev.slots|] == ev.slots;
  }

  /** time.Duration of an unsigned 64-bit count: the number read as a signed one. */
  function Signed64(d: u64): int {
    if d < 0x8000_0000_0000_0000 then d else d - U64_LIMIT
  }

  /** NewIntfDirUdn. */
  function NewIntfDirUdn(intf: string, dir: int, cache: map<string, string>): IntfDirUdn {
    var udn := if intf !in cache then "" else if cache[intf] != "" then cache[intf] else "default";
    IntfDirUdn(intf, dir, udn)
  }

  function LocalMac(m: FlowMetrics): Bytes {
    if m.directionFirstSeen == 0 then m.dstMac else m.srcMac
  }

  /** time.Duration(a - b) on unsigned 64-bit clocks: the difference read as a signed number. */
  function Elapsed(a: u64, b: u64): int {
    Signed64(Wrap64(a + U64_LIMIT - b))
  }

  /** The true difference, whichever clock is ahead, iff it fits a signed 64-bit number. */
  lemma ElapsedExact(a: u64, b: u64)
    ensures Elapsed(a, b) == a - b <==> -0x8000_0000_0000_0000 <= a - b < 0x8000_0000_0000_0000
  {
    if a >= b {
      WrapAdd(U64_LIMIT, a - b, U64_LIMIT);
      assert Wrap64(U64_LIMIT) == 0;
    }
  }

  function First(m: FlowMetrics, st: Setting): IntfDirUdn {
    NewIntfDirUdn(st.namer(m.ifIndexFirstSeen, LocalMac(m)), m.directionFirstSeen, st.udns)
  }

  function Seen(m: FlowMetrics, st: Setting, i: nat): IntfDirUdn
    requires i < |m.observed|
  {
    NewIntfDirUdn(st.namer(m.observed[i].intf, LocalMac(m)), m.observed[i].direction, st.udns)
  }

  /** The interfaces a record should list: the first one seen, then the observed ones. */
  function Interfaces(m: FlowMetrics, st: Setting, n: nat): (r: seq<IntfDirUdn>)
    requires n <= |m.observed|
    ensures |r| == n + 1
  {
    if n == 0 then [First(m, st)] else Interfaces(m, st, n - 1) + [Seen(m, st, n - 1)]
  }

  datatype Record = Record(
    id: FlowId, metrics: FlowMetrics, timeFlowStart: int, timeFlowEnd: int, interfaces: Slice, agentIp: Bytes,
    dnsLatency: int, timeFlowRtt: int, monitorEvents: Option<seq<string>>, drops: Option<DropMetrics>)

  /** The record holds what a record built on storage of its own holds. */
  ghost predicate Holds(r: Record, id: FlowId, f: FlowData, st: Setting)
    requires r.interfaces.Valid()
    reads r.interfaces.arr
  {
    Head(r, id, f, st) && ListsAll(r, f, st)
  }

  /** The record lists the first interface and all observed ones. */
  ghost predicate ListsAll(r: Record, f: FlowData, st: Setting)
    requires r.interfaces.Valid()
    reads r.interfaces.arr
  {
    r.interfaces.Contents() == Interfaces(f.base, st, |f.base.observed|)
  }

  /** Everything but the listing. */
  ghost predicate Head(r: Record, id: FlowId, f: FlowData, st: Setting) {
    r == Described(id, f, st, r.interfaces)
  }

  function Described(id: FlowId, f: FlowData, st: Setting, interfaces: Slice): Record {
    var told := st.decoder.Some? && f.events.Some?;
    Record(id, f.base, st.now - Elapsed(st.monotonicNow, f.base.startTs),
           st.now - Elapsed(st.monotonicNow, f.base.endTs), interfaces, st.agentIp,
           if f.dnsLatency.Some? then Signed64(f.dnsLatency.value) else 0,
           if f.rtt.Some? then Signed64(f.rtt.value) else 0,
           if told then Some(Texts(f.events.value.slots, st.decoder.value)) else None,
           if told then Injected(f.drops, f.events.value, |f.events.value.slots|, st.decoder.value) else f.drops)
  }

  // ----- What a record says -----

  /** An interface listed: its name, its direction, and its UDN when the cache has one. */
  ghost predicate Names(x: IntfDirUdn, name: string, direction: int, udns: map<string, string>) {
    && x.intf == name && x.direction == direction
    && (name !in udns ==> x.udn == "")
    && (name in udns && udns[name] == "" ==> x.udn == "default")
    && (name in udns && udns[name] != "" ==> x.udn == udns[name])
  }

  /** The MAC of this host's side of the flow: the destination on ingress, the source on egress. */
  ghost predicate IsLocal(m: FlowMetrics, mac: Bytes) {
    (m.directionFirstSeen == 0 ==> mac == m.dstMac) && (m.directionFirstSeen != 0 ==> mac == m.srcMac)
  }

  lemma {:induction false} InterfacesAt(m: FlowMetrics, st: Setting, n: nat, i: nat)
    requires i <= n <= |m.observed|
    ensures Interfaces(m, st, n)[i] == if i == 0 then First(m, st) else Seen(m, st, i - 1)
  {
    if i < n {
      InterfacesAt(m, st, n - 1, i);
    }
  }

  /**
   * A record lists the first interface seen and then the observed ones, in order, each named with its own index
   * and the local MAC, with its own direction and UDN.
   */
  lemma RecordLists(r: Record, id: FlowId, f: FlowData, st: Setting, mac: Bytes)
    requires r.interfaces.Valid() && Holds(r, id, f, st) && IsLocal(f.base, mac)
    ensures var listed := r.interfaces.Contents();
            && |listed| == |f.base.observed| + 1
            && Names(listed[0], st.namer(f.base.ifIndexFirstSeen, mac), f.base.directionFirstSeen, st.udns)
            && forall i :: 0 <= i < |f.base.observed| ==>
                 Names(listed[i + 1], st.namer(f.base.observed[i].intf, mac), f.base.observed[i].direction, st.udns)
  {
    var n := |f.base.observed|;
    InterfacesAt(f.base, st, n, 0);
    forall i | 0 <= i < n
      ensures Names(r.interfaces.Contents()[i + 1], st.namer(f.base.observed[i].intf, mac),
                    f.base.observed[i].direction, st.udns)
    {
      InterfacesAt(f.base, st, n, i + 1);
    }
  }

  /** v is the unsigned number u read as a signed one. */
  ghost predicate ReadsAs(u: u64, v: int) {
    && (u < 0x8000_0000_0000_0000 ==> v == u)
    && (u >= 0x8000_0000_0000_0000 ==> v == u - 0x1_0000_0000_0000_0000)
  }

  /**
   * A record has the flow's key and metrics, starts and ends as long ago as the flow did, and tells latency, RTT,
   * events and drops of the features that the flow has.
   */
  lemma RecordTells(r: Record, id: FlowId, f: FlowData, st: Setting)
    requires Head(r, id, f, st)
    ensures r.id == id && r.metrics == f.base && r.agentIp == st.agentIp
    ensures -0x8000_0000_0000_0000 <= st.monotonicNow - f.base.startTs < 0x8000_0000_0000_0000 ==>
              r.timeFlowStart == st.now - (st.monotonicNow - f.base.startTs)
    ensures -0x8000_0000_0000_0000 <= st.monotonicNow - f.base.endTs < 0x8000_0000_0000_0000 ==>
              r.timeFlowEnd == st.now - (st.monotonicNow - f.base.endTs)
    ensures if f.dnsLatency.None? then r.dnsLatency == 0 else ReadsAs(f.dnsLatency.value, r.dnsLatency)
    ensures if f.rtt.None? then r.timeFlowRtt == 0 else ReadsAs(f.rtt.value, r.timeFlowRtt)
    ensures st.decoder.None? || f.events.None? ==> r.monitorEvents == None && r.drops == f.drops
    ensures st.decoder.Some? && f.events.Some? ==>
              var slots := f.events.value.slots;
              && r.monitorEvents == Some(Texts(slots, st.decoder.value))
              && r.drops == Injected(f.drops, f.events.value, |slots|, st.decoder.value)
  {
    ElapsedExact(st.monotonicNow, f.base.startTs);
    ElapsedExact(st.monotonicNow, f.base.endTs);
  }

  /** Append to what started as an empty slice s and has n elements: in its cells, or in an array of its own. */
  method Extend(s: Slice, r: Slice, n: nat, x: IntfDirUdn) returns (r': Slice)
    requires s.Valid() && r.Valid() && if n <= s.cap then r == s.(len := n) else r.arr != s.arr
    modifies r.arr
    ensures r'.Valid() && r'.Contents() == old(r.Contents()) + [x]
    ensures if n < s.cap then r' == s.(len := n + 1) else r'.arr != s.arr && (r'.arr == r.arr || fresh(r'.arr))
    ensures forall k :: 0 <= k < s.arr.Length && !InRegion(s, k) ==> s.arr[k] == old(s.arr[k])
  {
    r' := Append(r, x);
  }

  /** The interfaces part of NewRecordInto: reuse the slice's cells while its capacity lasts. */
  method ListInterfaces(s: Slice, m: FlowMetrics, st: Setting) returns (r: Slice)
    requires s.Valid()
    modifies s.arr
    ensures r.Valid() && r.Contents() == Interfaces(m, st, |m.observed|)
    ensures forall k :: 0 <= k < s.arr.Length && !InRegion(s, k) ==> s.arr[k] == old(s.arr[k])
    ensures if |m.observed| < s.cap then r == s.(len := |m.observed| + 1) else fresh(r.arr)
  {
    r := Extend(s, s.(len := 0), 0, First(m, st));
    for j := 0 to |m.observed|
      invariant r.Valid() && r.Contents() == Interfaces(m, st, j)
      invariant if j < s.cap then r == s.(len := j + 1) else fresh(r.arr)
      invariant forall k :: 0 <= k < s.arr.Length && !InRegion(s, k) ==> s.arr[k] == old(s.arr[k])
    {
      r := Extend(s, r, j + 1, Seen(m, st, j));
    }
  }

  /** The other parts of NewRecordInto. */
  method Describe(id: FlowId, f: FlowData, st: Setting, interfaces: Slice) returns (r: Record)
    ensures r == Described(id, f, st, interfaces)
  {
    r := Record(id, f.base, st.now - Elapsed(st.monotonicNow, f.base.startTs),
                st.now - Elapsed(st.monotonicNow, f.base.endTs), interfaces, st.agentIp, 0, 0, None, f.drops);
    if f.dnsLatency.Some? {
      if f.dnsLatency.value != 0 {
        r := r.(dnsLatency := Signed64(f.dnsLatency.value));
      }
    }
    if f.rtt.Some? {
      if f.rtt.value != 0 {
        r := r.(timeFlowRtt := Signed64(f.rtt.value));
      }
    }
    if st.decoder.Some? && f.events.Some? {
      var texts, drops := DecodeEvents(f.events.value, f.drops, st.decoder.value);
      r := r.(monitorEvents := Some(texts), drops := drops);
    }
  }

  /** NewRecordInto on element i: only that element and the region its slice owns change. */
  method NewRecordInto(dst: array<Record>, i: nat, id: FlowId, f: FlowData, st: Setting)
    requires i < dst.Length && dst[i].interfaces.Valid()
    modifies dst, dst[i].interfaces.arr
    ensures dst[i].interfaces.Valid() && Holds(dst[i], id, f, st)
    ensures forall k :: 0 <= k < dst.Length && k != i ==> dst[k] == old(dst[k])
    ensures var s := old(dst[i].interfaces);
            && (forall k :: 0 <= k < s.arr.Length && !InRegion(s, k) ==> s.arr[k] == old(s.arr[k]))
            && (if |f.base.observed| < s.cap then dst[i].interfaces == s.(len := |f.base.observed| + 1)
                else fresh(dst[i].interfaces.arr))
  {
    var interfaces := ListInterfaces(dst[i].interfaces, f.base, st);
    dst[i] := Describe(id, f, st, interfaces);
  }

  const EMPTY_FLOW := FlowMetrics(0, 0, 0, 0, 0, {}, [], [], 0, 0, 0, 0, 0, [], TlsSummary(0, 0, 0, {}, {}))
  const EMPTY_ID := FlowId([], [], 0, 0, 0, 0, 0)

  /** Record j has its own cell of the shared array, or an array of its own. */
  ghost predicate Apart(r: Record, shared: array<IntfDirUdn>, j: nat) {
    r.interfaces.arr == shared ==> r.interfaces.off == j && r.interfaces.cap == 1
  }

  /** The regions that two slices may write to do not meet. */
  ghost predicate Separate(s: Slice, t: Slice) {
    s.arr == t.arr ==> s.off + s.cap <= t.off || t.off + t.cap <= s.off
  }

  /** Slice j has cell j of the shared array, or an array that no other slice has. */
  ghost predicate OwnRegions(slices: seq<Slice>, shared: array<IntfDirUdn>) {
    && (forall j :: 0 <= j < |slices| ==> slices[j].Valid())
    && (forall j :: 0 <= j < |slices| && slices[j].arr == shared ==> slices[j].off == j && slices[j].cap == 1)
    && (forall j, k :: 0 <= j < k < |slices| && slices[j].arr == slices[k].arr ==> slices[j].arr == shared)
  }

  lemma OwnRegionsStep(slices: seq<Slice>, shared: array<IntfDirUdn>, s: Slice)
    requires OwnRegions(slices, shared) && s.Valid() && (s.arr == shared ==> s.off == |slices| && s.cap == 1)
    requires s.arr != shared ==> forall j :: 0 <= j < |slices| ==> slices[j].arr != s.arr
    ensures OwnRegions(slices + [s], shared)
  {
  }

  lemma RegionsSeparate(slices: seq<Slice>, shared: array<IntfDirUdn>)
    requires OwnRegions(slices, shared)
    ensures forall j, k :: 0 <= j < k < |slices| ==> Separate(slices[j], slices[k])
  {
  }

  twostate lemma SameContents(s: Slice)
    requires s.Valid() && forall k :: s.off <= k < s.off + s.len ==> s.arr[k] == old(s.arr[k])
    ensures s.Contents() == old(s.Contents())
  {
  }

  /** One turn of the batch loops: record i gets cell i of the shared array. */
  method Place(records: array<Record>, shared: array<IntfDirUdn>, i: nat, e: (FlowId, FlowData), st: Setting)
    requires i < records.Length == shared.Length
    modifies records, shared
    ensures records[i].interfaces.Valid() && Holds(records[i], e.0, e.1, st)
    ensures records[i].interfaces.arr == shared || fresh(records[i].interfaces.arr)
    ensures Apart(records[i], shared, i)
    ensures forall k :: 0 <= k < records.Length && k != i ==>
              records[k] == old(records[k]) && shared[k] == old(shared[k])
  {
    records[i] := records[i].(interfaces := Slice(shared, i, 0, 1));
    NewRecordInto(records, i, e.0, e.1, st);
  }

  method Fill(records: array<Record>, shared: array<IntfDirUdn>, entries: seq<(FlowId, FlowData)>, st: Setting)
    requires records.Length == |entries| == shared.Length
    modifies records, shared
    ensures forall j :: 0 <= j < |entries| ==>
              records[j].interfaces.Valid() && Holds(records[j], entries[j].0, entries[j].1, st)
    ensures forall j, k :: 0 <= j < k < |entries| ==> Separate(records[j].interfaces, records[k].interfaces)
  {
    ghost var slices: seq<Slice> := [];
    for i := 0 to |entries|
      invariant |slices| == i && OwnRegions(slices, shared)
      invariant forall j :: 0 <= j < i ==>
                  records[j].interfaces == slices[j] && (slices[j].arr == shared || fresh(slices[j].arr))
      invariant forall j :: 0 <= j < i ==> Holds(records[j], entries[j].0, entries[j].1, st)
    {
      label Before:
      Place(records, shared, i, entries[i], st);
      forall j | 0 <= j < i ensures Holds(records[j], entries[j].0, entries[j].1, st) {
        SameContents@Before(slices[j]);
      }
      OwnRegionsStep(slices, shared, records[i].interfaces);
      slices := slices + [records[i].interfaces];
    }
    RegionsSeparate(slices, shared);
  }

  /**
   * The batch loops of evict and evictFlows: one array for all records, one for all first interfaces,
   * each record given a capacity of exactly one cell.
   */
  method BuildBatch(entries: seq<(FlowId, FlowData)>, st: Setting) returns (records: array<Record>)
    ensures fresh(records) && records.Length == |entries|
    ensures forall j :: 0 <= j < |entries| ==>
              records[j].interfaces.Valid() && Holds(records[j], entries[j].0, entries[j].1, st)
    ensures forall j, k :: 0 <= j < k < |entries| ==> Separate(records[j].interfaces, records[k].interfaces)
  {
    var shared := new IntfDirUdn[|entries|](_ => IntfDirUdn("", 0, ""));
    var blank := Record(EMPTY_ID, EMPTY_FLOW, 0, 0, Slice(shared, 0, 0, 0), [], 0, 0, None, None);
    records := new Record[|entries|](_ => blank);
    Fill(records, shared, entries, st);
  }

  /** Writing one record of a batch again leaves every other one as it is. */
  method Rewrite(records: array<Record>, i: nat, id: FlowId, f: FlowData, st: Setting, ghost k: nat)
    requires i < records.Length && k < records.Length && k != i
    requires records[i].interfaces.Valid() && records[k].interfaces.Valid()
    requires Separate(records[i].interfaces, records[k].interfaces)
    modifies records, records[i].interfaces.arr
    ensures records[i].interfaces.Valid() && Holds(records[i], id, f, st)
    ensures records[k] == old(records[k]) && records[k].interfaces.Contents() == old(records[k].interfaces.Contents())
  {
    NewRecordInto(records, i, id, f, st);
    SameContents(records[k].interfaces);
  }

  /**
   * The capacity limit is needed: with a first slice that may grow into the second one's cell, building
   * the second record changes what the first one lists.
   */
  method UnlimitedOverlaps(a: (FlowId, FlowData), b: (FlowId, FlowData), st: Setting) returns (records: array<Record>)
    requires |a.1.base.observed| == 1 && b.1.base.observed == [] && Seen(a.1.base, st, 0) != First(b.1.base, st)
    ensures records.Length == 2 && records[0].interfaces.Valid() && !Holds(records[0], a.0, a.1, st)
  {
    var shared := new IntfDirUdn[2](_ => IntfDirUdn("", 0, ""));
    var blank := Record(EMPTY_ID, EMPTY_FLOW, 0, 0, Slice(shared, 0, 0, 2), [], 0, 0, None, None);
    records := new Record[2](_ => blank);
    NewRecordInto(records, 0, a.0, a.1, st);
    records[1] := blank.(interfaces := Slice(shared, 1, 0, 1));
    NewRecordInto(records, 1, b.0, b.1, st);
    assert Interfaces(a.1.base, st, 1)[1] == Seen(a.1.base, st, 0);
    assert records[1].interfaces == Slice(shared, 1, 1, 1);
    assert records[1].interfaces.Contents()[0] == First(b.1.base, st);
    assert records[0].interfaces.Contents()[1] == shared[1];
  }
}
