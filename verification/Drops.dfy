/** Dropped packets, counted per CPU in the kernel (bpf/pkt_drops.h) and merged in user space. */
module Drops {
  import opened Words
  import opened Flows
  import opened Folds
  import opened PerCpu
  import opened Saturating
  import opened FlowContent

  /** One recorded drop. */
  datatype Drop = Drop(cpu: Cpu, len: u64, ts: u64, state: u8, flags: Bits, cause: u32, ethProtocol: u16)

  const ZERO := DropMetrics(0, 0, 0, 0, 0, {}, 0, 0)

  /** The value that the insert brings. */
  function Created(d: Drop): DropMetrics {
    DropMetrics(d.ts, d.ts, AddLen(0, d.len), 1, d.cause, d.flags, d.ethProtocol, d.state)
  }

  function Noted(m: DropMetrics, d: Drop): DropMetrics {
    m.(endTs := d.ts, packets := AddLen(m.packets, 1), bytes := AddLen(m.bytes, d.len),
       latestState := d.state, latestFlags := d.flags, latestDropCause := d.cause)
  }

  const RULES: Rules<Drop, DropMetrics> := Rules((d: Drop) => d.cpu, ZERO, Created, Noted)

  /**
   * The writes of pkt_drop_lookup_and_update_flow, one by one. They are the `note` of RULES, which `Key.Write`
   * applies, and the value goes on showing the drops of its CPU.
   */
  method UpdateFlow(v: DropMetrics, d: Drop, ghost ds: seq<Drop>) returns (v': DropMetrics)
    requires ds != [] && Tally(ds, d.cpu, v)
    ensures v' == Noted(v, d) && Tally(ds + [d], d.cpu, v')
  {
    v' := v.(endTs := d.ts);
    v' := v'.(packets := AddLen(v'.packets, 1));
    v' := v'.(bytes := AddLen(v'.bytes, d.len));
    v' := v'.(latestState := d.state);
    v' := v'.(latestFlags := d.flags);
    v' := v'.(latestDropCause := d.cause);
    TallyStep(ds, d, d.cpu, v);
  }

  /** The values of a key show exactly the drops of its log. */
  ghost predicate Tallies(key: Key<Drop, DropMetrics>)
    reads key
  {
    forall c :: Tally(key.log, c, ValueOn(key.values, c, ZERO))
  }

  lemma KeyTallies(key: Key<Drop, DropMetrics>)
    requires key.Valid() && key.rules == RULES
    ensures Tallies(key)
  {
    forall c ensures Tally(key.log, c, ValueOn(key.values, c, ZERO)) {
      ReplayTallies(key.log, c);
    }
  }

  /** The counting part of trace_pkt_drop, with any steps of other CPUs and of user space in between. */
  method Trace(key: Key<Drop, DropMetrics>, d: Drop, room: bool, g: Gaps<Drop>)
    requires key.Valid() && key.rules == RULES && PcOf(key.Now(), d.cpu) == Idle && OfOthers(RULES.cpu, g, d.cpu)
    modifies key
    ensures key.Valid() && Tallies(key) && key.Now() == Tracked(RULES.cpu, old(key.Now()), d, room, g)
    ensures var last := AtLast(RULES.cpu, old(key.Now()), d, room, g);
            key.Now() == if Kept(RULES.cpu, old(key.Now()), d, room, g) then Shown(last, d.cpu, d)
                         else Lost(last, d.cpu, d)
  {
    key.Track(d, room, g);
    KeyTallies(key);
  }

  /** User space takes the key and merges the CPUs' values, in the given order. */
  method Report(key: Key<Drop, DropMetrics>, order: seq<Cpu>) returns (m: Option<DropMetrics>)
    requires key.Valid() && key.rules == RULES && order != [] && EachOnce(order)
    requires forall i :: 0 <= i < |key.log| ==> key.log[i].cpu in order
    modifies key
    ensures key.Valid() && key.Now() == Taken(old(key.Now()))
    ensures m.Some? <==> key.taken != old(key.taken)
    ensures m.Some? ==>
              var ds := key.taken[|old(key.taken)|..];
              m.value.packets == Cap(|ds|) && m.value.bytes == Cap(TotalBytes(ds))
  {
    KeyTallies(key);
    ghost var ds := key.log;
    var r := key.Take();
    assert key.taken[|old(key.taken)|..] == ds;
    if r.None? {
      return None;
    }
    m := MergeListed(MergedDrops, r.value, order, ZERO);
    DropsReported(ds, order, Listed(r.value, order, ZERO));
  }

  /** A drop whose insert is refused is in no value: user space never hears of it. */
  method RefusedIsLost(d: Drop) returns (key: Key<Drop, DropMetrics>)
    ensures fresh(key) && key.Valid() && !key.live && key.taken == [] && key.lost == key.done == [d]
  {
    key := new Key(RULES);
    Trace(key, d, false, Quiet());
    TrackedQuietly(RULES.cpu, Empty(), d, false);
  }

  /** User space takes the key before the update. */
  const TAKEN_FIRST: Gaps<Drop> := Gaps([OnTake], [], [])

  lemma Caught(s: State<Drop>, d: Drop)
    requires PcOf(s, d.cpu) == Idle && s.live
    ensures Tracked(RULES.cpu, s, d, true, TAKEN_FIRST) == Lost(Taken(Looked(RULES.cpu, s, d)), d.cpu, d)
  {
    RunOne(RULES.cpu, Looked(RULES.cpu, s, d), [], OnTake);
    assert [] + [OnTake] == TAKEN_FIRST.first;
    TrackedFate(RULES.cpu, s, d, true, TAKEN_FIRST);
  }

  /** So is a drop whose key user space takes between the lookup and the update. */
  method CaughtIsLost(first: Drop, d: Drop) returns (key: Key<Drop, DropMetrics>)
    ensures fresh(key) && key.Valid() && !key.live && key.taken == [first] && key.lost == [d]
  {
    key := new Key(RULES);
    Trace(key, first, true, Quiet());
    TrackedQuietly(RULES.cpu, Empty(), first, true);
    Caught(key.Now(), d);
    Trace(key, d, true, TAKEN_FIRST);
  }

  // ----- What each CPU counts -----

  function CountOn(ds: seq<Drop>, c: Cpu): nat {
    if ds == [] then 0 else CountOn(ds[..|ds| - 1], c) + if ds[|ds| - 1].cpu == c then 1 else 0
  }

  function BytesOn(ds: seq<Drop>, c: Cpu): nat {
    if ds == [] then 0 else BytesOn(ds[..|ds| - 1], c) + if ds[|ds| - 1].cpu == c then ds[|ds| - 1].len else 0
  }

  function TotalBytes(ds: seq<Drop>): nat {
    if ds == [] then 0 else TotalBytes(ds[..|ds| - 1]) + ds[|ds| - 1].len
  }

  function LastOn(ds: seq<Drop>, c: Cpu): Option<Drop> {
    if ds == [] then None else if ds[|ds| - 1].cpu == c then Some(ds[|ds| - 1]) else LastOn(ds[..|ds| - 1], c)
  }

  /** A CPU's value shows its own drops, capped, and what the last of them was about. */
  ghost predicate Tally(ds: seq<Drop>, c: Cpu, m: DropMetrics) {
    && m.packets == Cap(CountOn(ds, c)) && m.bytes == Cap(BytesOn(ds, c))
    && (if LastOn(ds, c).Some? then Shows(m, LastOn(ds, c).value) else m == ZERO)
    && Begins(ds, c, m.startTs, m.ethProtocol)
  }

  /** Start and protocol are set on the CPU that created the key, by the drop that did; elsewhere they are zero. */
  ghost predicate Begins(ds: seq<Drop>, c: Cpu, startTs: u64, ethProtocol: u16) {
    if ds != [] && ds[0].cpu == c then startTs == ds[0].ts && ethProtocol == ds[0].ethProtocol
    else startTs == 0 == ethProtocol
  }

  predicate Shows(m: DropMetrics, d: Drop) {
    m.endTs == d.ts && m.latestState == d.state && m.latestFlags == d.flags && m.latestDropCause == d.cause
  }

  lemma TallyStep(ds: seq<Drop>, d: Drop, c: Cpu, m: DropMetrics)
    requires ds != [] && Tally(ds, c, m)
    ensures Tally(ds + [d], c, if c == d.cpu then Noted(m, d) else m)
  {
    assert (ds + [d])[..|ds|] == ds;
    AddsSaturate(m.packets, 1);
    AddsSaturate(m.bytes, d.len);
    CapAdd(CountOn(ds, c), 1);
    CapAdd(BytesOn(ds, c), d.len);
  }

  lemma FirstTallies(d: Drop, c: Cpu)
    ensures Tally([d], c, if c == d.cpu then Created(d) else ZERO)
  {
    assert [d][..0] == [];
    AddsSaturate(0, d.len);
  }

  /** What the protocol leaves on a CPU is the tally of its drops. */
  lemma {:induction false} ReplayTallies(ds: seq<Drop>, c: Cpu)
    ensures Tally(ds, c, Replay(RULES, ds, c))
  {
    if ds != [] {
      var n := |ds| - 1;
      ReplayTallies(ds[..n], c);
      assert ds == ds[..n] + [ds[n]];
      if n == 0 {
        FirstTallies(ds[0], c);
        assert ds == [ds[0]];
      } else {
        TallyStep(ds[..n], ds[n], c, Replay(RULES, ds[..n], c));
      }
    }
  }

  // ----- What user space reports -----

  function SumCounts(ds: seq<Drop>, order: seq<Cpu>): nat {
    if order == [] then 0 else SumCounts(ds, order[..|order| - 1]) + CountOn(ds, order[|order| - 1])
  }

  function SumBytes(ds: seq<Drop>, order: seq<Cpu>): nat {
    if order == [] then 0 else SumBytes(ds, order[..|order| - 1]) + BytesOn(ds, order[|order| - 1])
  }

  /** Merging capped counts gives the capped sum. */
  lemma {:induction false} MergeCaps(ds: seq<Drop>, order: seq<Cpu>, values: seq<DropMetrics>)
    requires order != [] && |values| == |order|
    requires forall i :: 0 <= i < |order| ==> Tally(ds, order[i], values[i])
    ensures MergeEach(MergedDrops, values).Some?
    ensures MergeEach(MergedDrops, values).value.packets == Cap(SumCounts(ds, order))
    ensures MergeEach(MergedDrops, values).value.bytes == Cap(SumBytes(ds, order))
  {
    var n := |order| - 1;
    assert Tally(ds, order[n], values[n]);
    if n == 0 {
      assert values[..0] == [] && order[..0] == [];
    } else {
      MergeCaps(ds, order[..n], values[..n]);
      var m := MergeEach(MergedDrops, values[..n]).value;
      AddsSaturate(m.packets, values[n].packets);
      AddsSaturate(m.bytes, values[n].bytes);
      CapAdd(SumCounts(ds, order[..n]), CountOn(ds, order[n]));
      CapAdd(SumBytes(ds, order[..n]), BytesOn(ds, order[n]));
    }
  }

  ghost predicate EachOnce(order: seq<Cpu>) {
    forall i, j :: 0 <= i < j < |order| ==> order[i] != order[j]
  }

  /** One more drop adds to the sum over the CPUs exactly once. */
  lemma {:induction false} SumsStep(ds: seq<Drop>, d: Drop, order: seq<Cpu>)
    requires EachOnce(order)
    ensures SumCounts(ds + [d], order) == SumCounts(ds, order) + if d.cpu in order then 1 else 0
    ensures SumBytes(ds + [d], order) == SumBytes(ds, order) + if d.cpu in order then d.len else 0
  {
    if order != [] {
      var n := |order| - 1;
      SumsStep(ds, d, order[..n]);
      assert (ds + [d])[..|ds|] == ds;
      assert order == order[..n] + [order[n]];
    }
  }

  lemma {:induction false} SumsAreTotals(ds: seq<Drop>, order: seq<Cpu>)
    requires EachOnce(order) && forall i :: 0 <= i < |ds| ==> ds[i].cpu in order
    ensures SumCounts(ds, order) == |ds| && SumBytes(ds, order) == TotalBytes(ds)
  {
    if ds == [] {
      NoDrops(order);
    } else {
      var n := |ds| - 1;
      SumsAreTotals(ds[..n], order);
      SumsStep(ds[..n], ds[n], order);
      assert ds == ds[..n] + [ds[n]];
    }
  }

  lemma {:induction false} NoDrops(order: seq<Cpu>)
    ensures SumCounts([], order) == 0 && SumBytes([], order) == 0
  {
    if order != [] {
      NoDrops(order[..|order| - 1]);
    }
  }

  /**
   * However the drops were spread over the CPUs, and in whatever order the CPUs' values are merged, the
   * flow reports the true number of drops and of dropped bytes, capped at 65535.
   */
  lemma {:induction false} DropsReported(ds: seq<Drop>, order: seq<Cpu>, values: seq<DropMetrics>)
    requires order != [] && EachOnce(order) && |values| == |order|
    requires forall i :: 0 <= i < |ds| ==> ds[i].cpu in order
    requires forall i :: 0 <= i < |order| ==> Tally(ds, order[i], values[i])
    ensures MergeEach(MergedDrops, values).Some?
    ensures MergeEach(MergedDrops, values).value.packets == Cap(|ds|)
    ensures MergeEach(MergedDrops, values).value.bytes == Cap(TotalBytes(ds))
  {
    MergeCaps(ds, order, values);
    SumsAreTotals(ds, order);
  }
}
