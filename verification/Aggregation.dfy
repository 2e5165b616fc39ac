/**
 * The flow map shared by all CPUs: lookup, insert if absent, retry, locked update and the ring-buffer
 * fallback of `flow_monitor`, interleaved in any way with user space taking entries away.
 *
 * One step is one atomic action of one party. What the map, the ring buffer and the scheduler decide
 * (insert results, reservations, order of steps) is chosen by the event, so a run is any event sequence.
 */
module Aggregation {
  import opened Words
  import opened Flows
  import opened FlowEntry
  import opened FlowHistory

  /** A packet and its arrival number; no branch looks at the number. */
  datatype Tagged = Tagged(serial: nat, pkt: Packet)

  /** Where a CPU is inside flow_monitor. */
  datatype Pc =
    | Idle
    | Looking(x: Tagged)
    | Holding(x: Tagged, slot: nat)
    | Inserting(x: Tagged)
    | Retrying(x: Tagged)
    | Reserving(x: Tagged, errno: u8)

  datatype InsertResult = Inserted | Exists | Refused(errno: u8)

  datatype Counter = HashmapFailUpdateFlow | HashmapFailCreateFlow

  /**
   * `table` maps a key to its element and `memory` holds every element ever allocated, so that a CPU
   * can still hold one that was taken out of the table. `delivered` is what user space took.
   */
  datatype State = State(
    table: map<FlowId, nat>,
    memory: seq<FlowMetrics>,
    cpus: map<Cpu, Pc>,
    ring: seq<(FlowId, FlowMetrics)>,
    delivered: seq<(FlowId, FlowMetrics)>,
    counters: map<(Cpu, Counter), u32>)

  datatype Event =
    | Arrive(cpu: Cpu, p: Packet)
    | Lookup(cpu: Cpu)
    | LockedUpdate(cpu: Cpu)
    | Insert(cpu: Cpu, result: InsertResult)
    | Relookup(cpu: Cpu)
    | Reserve(cpu: Cpu, ok: bool)
    | Evict(id: FlowId)

  function PcOf(s: State, c: Cpu): Pc {
    if c in s.cpus then s.cpus[c] else Idle
  }

  function CounterOf(s: State, k: (Cpu, Counter)): u32 {
    if k in s.counters then s.counters[k] else 0
  }

  /** increase_counter. */
  function Bump(counters: map<(Cpu, Counter), u32>, k: (Cpu, Counter)): map<(Cpu, Counter), u32> {
    var was: nat := if k in counters then counters[k] else 0;
    counters[k := Wrap32(was + 1)]
  }

  predicate Enabled(s: State, e: Event) {
    match e
    case Arrive(c, p) => PcOf(s, c) == Idle
    case Lookup(c) => PcOf(s, c).Looking?
    case LockedUpdate(c) => PcOf(s, c).Holding? && PcOf(s, c).slot < |s.memory|
    case Insert(c, res) =>
      && PcOf(s, c).Inserting?
      && (res.Inserted? ==> PcOf(s, c).x.pkt.id !in s.table)
      && (res.Exists? ==> PcOf(s, c).x.pkt.id in s.table)
    case Relookup(c) => PcOf(s, c).Retrying?
    case Reserve(c, ok) => PcOf(s, c).Reserving?
    case Evict(id) => id in s.table && s.table[id] < |s.memory|
  }

  /** The step of a CPU that looks its flow up, for the first time or after a failed insert. */
  function Found(s: State, c: Cpu, x: Tagged, missing: Pc): Pc {
    if x.pkt.id in s.table then Holding(x, s.table[x.pkt.id]) else missing
  }

  function AfterInsert(ringbuf: bool, s: State, c: Cpu, x: Tagged, res: InsertResult): State {
    match res
    case Inserted =>
      s.(table := s.table[x.pkt.id := |s.memory|], memory := s.memory + [Fresh(x.pkt)], cpus := s.cpus[c := Idle])
    case Exists => s.(cpus := s.cpus[c := Retrying(x)])
    case Refused(errno) =>
      if ringbuf then s.(cpus := s.cpus[c := Reserving(x, errno)])
      else s.(cpus := s.cpus[c := Idle], counters := Bump(s.counters, (c, HashmapFailCreateFlow)))
  }

  function Apply(ringbuf: bool, s: State, serial: nat, e: Event): State
    requires Enabled(s, e)
  {
    match e
    case Arrive(c, p) => s.(cpus := s.cpus[c := Looking(Tagged(serial, p))])
    case Lookup(c) =>
      var x := PcOf(s, c).x;
      s.(cpus := s.cpus[c := Found(s, c, x, Inserting(x))])
    case LockedUpdate(c) =>
      var Holding(x, slot) := PcOf(s, c);
      s.(memory := s.memory[slot := Updated(s.memory[slot], x.pkt)], cpus := s.cpus[c := Idle])
    case Insert(c, res) => AfterInsert(ringbuf, s, c, PcOf(s, c).x, res)
    case Relookup(c) =>
      var x := PcOf(s, c).x;
      var s' := s.(cpus := s.cpus[c := Found(s, c, x, Idle)]);
      if x.pkt.id in s.table then s' else s'.(counters := Bump(s.counters, (c, HashmapFailUpdateFlow)))
    case Reserve(c, ok) =>
      var Reserving(x, errno) := PcOf(s, c);
      var s' := s.(cpus := s.cpus[c := Idle]);
      if ok then s'.(ring := s.ring + [(x.pkt.id, Fresh(x.pkt).(errno := errno))]) else s'
    case Evict(id) =>
      s.(table := s.table - {id}, delivered := s.delivered + [(id, s.memory[s.table[id]])])
  }

  // ----- An observer that writes down what became of every packet -----

  datatype Fate =
    | Merged(slot: nat)
    | Rung
    | NotUpdated(cpu: Cpu)
    | NotCreated(cpu: Cpu)
    | Unsent

  /** An element taken by user space: how many packets it had, and which were about to update it. */
  datatype Handover = Handover(slot: nat, size: nat, held: set<nat>)

  datatype Ledger = Ledger(
    arrivals: seq<Packet>,
    fates: map<nat, Fate>,
    merged: seq<seq<Tagged>>,
    rung: seq<Tagged>,
    handovers: seq<Handover>)

  /** The packets of CPUs that are between a successful lookup of this element and its update. */
  ghost function Holders(s: State, slot: nat): set<nat> {
    set c | c in s.cpus && s.cpus[c].Holding? && s.cpus[c].slot == slot :: s.cpus[c].x.serial
  }

  ghost function Note(ringbuf: bool, l: Ledger, s: State, e: Event): Ledger
    requires Enabled(s, e) && |l.merged| == |s.memory|
  {
    match e
    case Arrive(c, p) => l.(arrivals := l.arrivals + [p])
    case Lookup(c) => l
    case LockedUpdate(c) =>
      var Holding(x, slot) := PcOf(s, c);
      l.(merged := l.merged[slot := l.merged[slot] + [x]], fates := l.fates[x.serial := Merged(slot)])
    case Insert(c, res) =>
      var x := PcOf(s, c).x;
      if res.Inserted? then l.(merged := l.merged + [[x]], fates := l.fates[x.serial := Merged(|s.memory|)])
      else if res.Refused? && !ringbuf then l.(fates := l.fates[x.serial := NotCreated(c)])
      else l
    case Relookup(c) =>
      var x := PcOf(s, c).x;
      if x.pkt.id in s.table then l else l.(fates := l.fates[x.serial := NotUpdated(c)])
    case Reserve(c, ok) =>
      var x := PcOf(s, c).x;
      if ok then l.(rung := l.rung + [x], fates := l.fates[x.serial := Rung])
      else l.(fates := l.fates[x.serial := Unsent])
    case Evict(id) =>
      var slot := s.table[id];
      l.(handovers := l.handovers + [Handover(slot, |l.merged[slot]|, Holders(s, slot))])
  }

  datatype Run = Run(s: State, l: Ledger)

  const START := Run(State(map[], [], map[], [], [], map[]), Ledger([], map[], [], [], []))

  ghost predicate CanStep(r: Run, e: Event) {
    Enabled(r.s, e) && |r.l.merged| == |r.s.memory|
  }

  ghost function Next(ringbuf: bool, r: Run, e: Event): Run
    requires CanStep(r, e)
  {
    Run(Apply(ringbuf, r.s, |r.l.arrivals|, e), Note(ringbuf, r.l, r.s, e))
  }

  /** The state after these events, or None when one of them cannot happen. */
  ghost function Exec(ringbuf: bool, es: seq<Event>): Option<Run> {
    if es == [] then Some(START)
    else
      var r := Exec(ringbuf, es[..|es| - 1]);
      if r.None? || !CanStep(r.value, es[|es| - 1]) then None
      else Some(Next(ringbuf, r.value, es[|es| - 1]))
  }

  // ----- What every step keeps -----

  function Pkts(xs: seq<Tagged>): (ps: seq<Packet>)
    ensures |ps| == |xs| && forall i :: 0 <= i < |xs| ==> ps[i] == xs[i].pkt
  {
    seq(|xs|, i requires 0 <= i < |xs| => xs[i].pkt)
  }

  ghost function Serials(xs: seq<Tagged>): set<nat> {
    set x <- xs :: x.serial
  }

  ghost predicate NoRepeat(xs: seq<Tagged>) {
    forall i, j :: 0 <= i < j < |xs| ==> xs[i].serial != xs[j].serial
  }

  /** Every element is the replay of the packets merged into it, all of one flow. */
  ghost predicate MemoryOk(r: Run) {
    && |r.l.merged| == |r.s.memory|
    && forall k :: 0 <= k < |r.l.merged| ==>
         r.l.merged[k] != [] && r.s.memory[k] == Replay(Pkts(r.l.merged[k]))
  }

  ghost predicate OneFlow(xs: seq<Tagged>, id: FlowId) {
    forall i :: 0 <= i < |xs| ==> xs[i].pkt.id == id
  }

  ghost predicate SlotHas(l: Ledger, slot: nat, id: FlowId) {
    slot < |l.merged| && l.merged[slot] != [] && OneFlow(l.merged[slot], id)
  }

  ghost predicate TableOk(r: Run) {
    && (forall id :: id in r.s.table ==> SlotHas(r.l, r.s.table[id], id))
    && (forall c :: c in r.s.cpus && r.s.cpus[c].Holding? ==> SlotHas(r.l, r.s.cpus[c].slot, r.s.cpus[c].x.pkt.id))
    && (forall k :: 0 <= k < |r.l.merged| ==> r.l.merged[k] != [] && SlotHas(r.l, k, r.l.merged[k][0].pkt.id))
  }

  ghost predicate Genuine(l: Ledger, x: Tagged) {
    x.serial < |l.arrivals| && l.arrivals[x.serial] == x.pkt
  }

  /** A CPU's packet is one that arrived, has no fate yet, and is on no other CPU. */
  ghost predicate CpusOk(r: Run) {
    && (forall c :: c in r.s.cpus && r.s.cpus[c] != Idle ==>
          Genuine(r.l, r.s.cpus[c].x) && r.s.cpus[c].x.serial !in r.l.fates)
    && (forall c, d :: c in r.s.cpus && d in r.s.cpus && c != d && r.s.cpus[c] != Idle && r.s.cpus[d] != Idle ==>
          r.s.cpus[c].x.serial != r.s.cpus[d].x.serial)
  }

  ghost predicate InFlight(s: State, n: nat) {
    exists c :: c in s.cpus && s.cpus[c] != Idle && s.cpus[c].x.serial == n
  }

  /** Every packet that arrived has a fate or is on a CPU. */
  ghost predicate CoveredOk(r: Run) {
    && (forall n :: n in r.l.fates ==> n < |r.l.arrivals|)
    && (forall n :: 0 <= n < |r.l.arrivals| ==> n in r.l.fates || InFlight(r.s, n))
  }

  /** A packet is merged into the element its fate names, once, and into no other. */
  ghost predicate MergedOk(l: Ledger) {
    && (forall k, i :: 0 <= k < |l.merged| && 0 <= i < |l.merged[k]| ==>
          Genuine(l, l.merged[k][i]) && FateIs(l, l.merged[k][i].serial, Merged(k)))
    && (forall k :: 0 <= k < |l.merged| ==> NoRepeat(l.merged[k]))
    && (forall n :: n in l.fates && l.fates[n].Merged? ==>
          l.fates[n].slot < |l.merged| && n in Serials(l.merged[l.fates[n].slot]))
  }

  ghost predicate FateIs(l: Ledger, n: nat, f: Fate) {
    n in l.fates && l.fates[n] == f
  }

  /** The ring buffer holds one single-packet record for each packet with that fate, in order. */
  ghost predicate RingOk(r: Run) {
    && |r.s.ring| == |r.l.rung|
    && (forall j :: 0 <= j < |r.l.rung| ==>
          var x := r.l.rung[j];
          && Genuine(r.l, x) && FateIs(r.l, x.serial, Rung)
          && r.s.ring[j].0 == x.pkt.id
          && r.s.ring[j].1 == Fresh(x.pkt).(errno := r.s.ring[j].1.errno))
    && NoRepeat(r.l.rung)
    && (forall n :: n in r.l.fates && r.l.fates[n] == Rung ==> n in Serials(r.l.rung))
  }

  ghost function WithFate(fates: map<nat, Fate>, f: Fate): set<nat> {
    set n | n in fates && fates[n] == f
  }

  ghost predicate CountersOk(r: Run) {
    forall c :: && CounterOf(r.s, (c, HashmapFailUpdateFlow)) == Wrap32(|WithFate(r.l.fates, NotUpdated(c))|)
                && CounterOf(r.s, (c, HashmapFailCreateFlow)) == Wrap32(|WithFate(r.l.fates, NotCreated(c))|)
  }

  ghost predicate HandoverOk(r: Run, j: nat)
    requires j < |r.l.handovers| && j < |r.s.delivered|
  {
    var h, d := r.l.handovers[j], r.s.delivered[j];
    && SlotHas(r.l, h.slot, d.0)
    && 0 < h.size <= |r.l.merged[h.slot]|
    && d.1 == Replay(Pkts(r.l.merged[h.slot][..h.size]))
    && h.held == Serials(r.l.merged[h.slot][h.size..]) + Holders(r.s, h.slot)
  }

  ghost predicate Taken(l: Ledger, slot: nat) {
    exists j :: 0 <= j < |l.handovers| && l.handovers[j].slot == slot
  }

  /** Every element is either in the table or was handed over once, as it then was. */
  ghost predicate HandoversOk(r: Run) {
    && |r.s.delivered| == |r.l.handovers|
    && (forall j :: 0 <= j < |r.l.handovers| ==> HandoverOk(r, j))
    && (forall i, j :: 0 <= i < j < |r.l.handovers| ==> r.l.handovers[i].slot != r.l.handovers[j].slot)
    && (forall id :: id in r.s.table ==> !Taken(r.l, r.s.table[id]))
    && (forall k :: 0 <= k < |r.l.merged| ==> Taken(r.l, k) || k in r.s.table.Values)
  }

  ghost predicate Inv(r: Run) {
    && MemoryOk(r) && TableOk(r) && CpusOk(r) && CoveredOk(r)
    && MergedOk(r.l) && RingOk(r) && CountersOk(r) && HandoversOk(r)
  }

  lemma ReplayAppend(xs: seq<Tagged>, x: Tagged)
    requires xs != []
    ensures Replay(Pkts(xs + [x])) == Updated(Replay(Pkts(xs)), x.pkt)
  {
    var ps := Pkts(xs + [x]);
    assert ps[..|ps| - 1] == Pkts(xs);
  }

  lemma KeepsMemory(ringbuf: bool, r: Run, e: Event)
    requires CanStep(r, e) && MemoryOk(r)
    ensures MemoryOk(Next(ringbuf, r, e))
  {
    match e
    case LockedUpdate(c) =>
      ReplayAppend(r.l.merged[PcOf(r.s, c).slot], PcOf(r.s, c).x);
    case Insert(c, res) =>
      assert Pkts([PcOf(r.s, c).x]) == [PcOf(r.s, c).x.pkt];
    case _ =>
  }

  lemma SlotKept(ringbuf: bool, r: Run, e: Event, slot: nat, id: FlowId)
    requires CanStep(r, e) && TableOk(r) && SlotHas(r.l, slot, id)
    ensures SlotHas(Next(ringbuf, r, e).l, slot, id)
  {
    if e.LockedUpdate? && PcOf(r.s, e.cpu).slot == slot {
      assert r.l.merged[slot][0].pkt.id == id;
      assert r.l.merged[slot][0].pkt.id == PcOf(r.s, e.cpu).x.pkt.id;
    }
  }

  lemma EntryKept(ringbuf: bool, r: Run, e: Event, id: FlowId)
    requires CanStep(r, e) && TableOk(r) && id in Next(ringbuf, r, e).s.table
    ensures SlotHas(Next(ringbuf, r, e).l, Next(ringbuf, r, e).s.table[id], id)
  {
    if id in r.s.table {
      SlotKept(ringbuf, r, e, r.s.table[id], id);
    }
  }

  lemma HolderKept(ringbuf: bool, r: Run, e: Event, c: Cpu)
    requires CanStep(r, e) && TableOk(r) && PcOf(Next(ringbuf, r, e).s, c).Holding?
    ensures var pc := PcOf(Next(ringbuf, r, e).s, c); SlotHas(Next(ringbuf, r, e).l, pc.slot, pc.x.pkt.id)
  {
    var pc := PcOf(Next(ringbuf, r, e).s, c);
    assert SlotHas(r.l, pc.slot, pc.x.pkt.id) by {
      if PcOf(r.s, c) != pc {
        assert pc.slot == r.s.table[pc.x.pkt.id];
      }
    }
    SlotKept(ringbuf, r, e, pc.slot, pc.x.pkt.id);
  }

  lemma ElementKept(ringbuf: bool, r: Run, e: Event, k: nat)
    requires CanStep(r, e) && TableOk(r) && k < |Next(ringbuf, r, e).l.merged|
    ensures var l := Next(ringbuf, r, e).l; l.merged[k] != [] && SlotHas(l, k, l.merged[k][0].pkt.id)
  {
    if k < |r.l.merged| {
      SlotKept(ringbuf, r, e, k, r.l.merged[k][0].pkt.id);
    }
  }

  lemma KeepsTable(ringbuf: bool, r: Run, e: Event)
    requires CanStep(r, e) && TableOk(r)
    ensures TableOk(Next(ringbuf, r, e))
  {
    var r' := Next(ringbuf, r, e);
    forall id | id in r'.s.table ensures SlotHas(r'.l, r'.s.table[id], id) {
      EntryKept(ringbuf, r, e, id);
    }
    forall c | c in r'.s.cpus && r'.s.cpus[c].Holding?
      ensures SlotHas(r'.l, r'.s.cpus[c].slot, r'.s.cpus[c].x.pkt.id)
    {
      HolderKept(ringbuf, r, e, c);
    }
    forall k | 0 <= k < |r'.l.merged| ensures r'.l.merged[k] != [] && SlotHas(r'.l, k, r'.l.merged[k][0].pkt.id) {
      ElementKept(ringbuf, r, e, k);
    }
  }

  /** A CPU step changes that CPU's position only, and gives a fate to its packet only as it ends. */
  ghost predicate Moves(r: Run, r': Run, c: Cpu) {
    var pc, pc' := PcOf(r.s, c), PcOf(r'.s, c);
    && r'.s.cpus == r.s.cpus[c := pc']
    && (pc == Idle ==> pc' != Idle && r'.l.fates == r.l.fates && r'.l.arrivals == r.l.arrivals + [pc'.x.pkt]
                       && pc'.x.serial == |r.l.arrivals|)
    && (pc != Idle && pc' != Idle ==> pc'.x == pc.x && r'.l.fates == r.l.fates && r'.l.arrivals == r.l.arrivals)
    && (pc != Idle && pc' == Idle ==> pc.x.serial in r'.l.fates && r'.l.arrivals == r.l.arrivals
                                      && r'.l.fates == r.l.fates[pc.x.serial := r'.l.fates[pc.x.serial]])
  }

  lemma CpuMoves(ringbuf: bool, r: Run, e: Event)
    requires CanStep(r, e) && !e.Evict?
    ensures Moves(r, Next(ringbuf, r, e), e.cpu)
  {
  }

  lemma KeepsCpus(ringbuf: bool, r: Run, e: Event)
    requires CanStep(r, e) && CpusOk(r) && CoveredOk(r)
    ensures CpusOk(Next(ringbuf, r, e))
  {
    if !e.Evict? {
      CpuMoves(ringbuf, r, e);
      MovesKeepCpus(r, Next(ringbuf, r, e), e.cpu);
    }
  }

  lemma MovesKeepCpus(r: Run, r': Run, c: Cpu)
    requires Moves(r, r', c) && CpusOk(r) && CoveredOk(r)
    ensures CpusOk(r')
  {
    forall d | d in r'.s.cpus && r'.s.cpus[d] != Idle && d != c
      ensures Genuine(r'.l, r'.s.cpus[d].x) && r'.s.cpus[d].x.serial !in r'.l.fates
      ensures r'.s.cpus[c] != Idle ==> r'.s.cpus[c].x.serial != r'.s.cpus[d].x.serial
    {
      assert Genuine(r.l, r.s.cpus[d].x);
    }
  }

  lemma FlightKept(ringbuf: bool, r: Run, e: Event, n: nat)
    requires CanStep(r, e) && InFlight(r.s, n)
    ensures n in Next(ringbuf, r, e).l.fates || InFlight(Next(ringbuf, r, e).s, n)
  {
    var r' := Next(ringbuf, r, e);
    var c :| c in r.s.cpus && r.s.cpus[c] != Idle && r.s.cpus[c].x.serial == n;
    if n !in r'.l.fates {
      assert c in r'.s.cpus && r'.s.cpus[c] != Idle && r'.s.cpus[c].x.serial == n;
    }
  }

  lemma KeepsCovered(ringbuf: bool, r: Run, e: Event)
    requires CanStep(r, e) && CpusOk(r) && CoveredOk(r)
    ensures CoveredOk(Next(ringbuf, r, e))
  {
    var r' := Next(ringbuf, r, e);
    forall n | 0 <= n < |r'.l.arrivals| ensures n in r'.l.fates || InFlight(r'.s, n) {
      if n == |r.l.arrivals| {
        assert e.cpu in r'.s.cpus && r'.s.cpus[e.cpu].x.serial == n;
      } else if n !in r.l.fates {
        FlightKept(ringbuf, r, e, n);
      }
    }
  }

  /** Fates are final and arrivals are only added. */
  ghost predicate Grows(l: Ledger, l': Ledger) {
    && l.arrivals <= l'.arrivals
    && forall n :: n in l.fates ==> n in l'.fates && l'.fates[n] == l.fates[n]
  }

  lemma LedgerGrows(ringbuf: bool, r: Run, e: Event)
    requires CanStep(r, e) && CpusOk(r)
    ensures Grows(r.l, Next(ringbuf, r, e).l)
  {
    if !e.Evict? {
      CpuMoves(ringbuf, r, e);
    }
  }

  lemma SerialsAppend(xs: seq<Tagged>, x: Tagged)
    ensures Serials(xs + [x]) == Serials(xs) + {x.serial}
    ensures NoRepeat(xs) && x.serial !in Serials(xs) ==> NoRepeat(xs + [x])
  {
    assert forall y :: y in xs + [x] <==> y in xs || y == x;
    if NoRepeat(xs) && x.serial !in Serials(xs) {
      forall i, j | 0 <= i < j < |xs + [x]| ensures (xs + [x])[i].serial != (xs + [x])[j].serial {
        assert xs[i] in xs;
      }
    }
  }

  lemma MergedAppend(l: Ledger, x: Tagged, slot: nat)
    requires MergedOk(l) && slot < |l.merged| && Genuine(l, x) && x.serial !in l.fates
    ensures MergedOk(l.(merged := l.merged[slot := l.merged[slot] + [x]], fates := l.fates[x.serial := Merged(slot)]))
  {
    var l' := l.(merged := l.merged[slot := l.merged[slot] + [x]], fates := l.fates[x.serial := Merged(slot)]);
    SerialsAppend(l.merged[slot], x);
    forall n | n in Serials(l.merged[slot]) ensures n in l.fates {
      var i :| 0 <= i < |l.merged[slot]| && l.merged[slot][i].serial == n;
      assert FateIs(l, n, Merged(slot));
    }
    forall k, i | 0 <= k < |l'.merged| && 0 <= i < |l'.merged[k]|
      ensures Genuine(l', l'.merged[k][i]) && FateIs(l', l'.merged[k][i].serial, Merged(k))
    {
      if l'.merged[k][i] != x {
        assert l'.merged[k][i] == l.merged[k][i];
        assert FateIs(l, l.merged[k][i].serial, Merged(k));
      }
    }
  }

  lemma MergedNew(l: Ledger, x: Tagged)
    requires MergedOk(l) && Genuine(l, x) && x.serial !in l.fates
    ensures MergedOk(l.(merged := l.merged + [[x]], fates := l.fates[x.serial := Merged(|l.merged|)]))
  {
    var l' := l.(merged := l.merged + [[x]], fates := l.fates[x.serial := Merged(|l.merged|)]);
    assert x in [x];
    forall k, i | 0 <= k < |l'.merged| && 0 <= i < |l'.merged[k]|
      ensures Genuine(l', l'.merged[k][i]) && FateIs(l', l'.merged[k][i].serial, Merged(k))
    {
      if k < |l.merged| {
        assert FateIs(l, l.merged[k][i].serial, Merged(k));
      }
    }
  }

  lemma MergedSame(l: Ledger, l': Ledger)
    requires MergedOk(l) && Grows(l, l') && l'.merged == l.merged
    requires forall n :: n in l'.fates && n !in l.fates ==> !l'.fates[n].Merged?
    ensures MergedOk(l')
  {
    forall k, i | 0 <= k < |l.merged| && 0 <= i < |l.merged[k]|
      ensures Genuine(l', l.merged[k][i]) && FateIs(l', l.merged[k][i].serial, Merged(k))
    {
      assert FateIs(l, l.merged[k][i].serial, Merged(k));
    }
  }

  lemma KeepsMerged(ringbuf: bool, r: Run, e: Event)
    requires CanStep(r, e) && CpusOk(r) && MergedOk(r.l)
    ensures MergedOk(Next(ringbuf, r, e).l)
  {
    if e.LockedUpdate? {
      MergedAppend(r.l, PcOf(r.s, e.cpu).x, PcOf(r.s, e.cpu).slot);
    } else if e.Insert? && e.result.Inserted? {
      MergedNew(r.l, PcOf(r.s, e.cpu).x);
    } else {
      LedgerGrows(ringbuf, r, e);
      MergedSame(r.l, Next(ringbuf, r, e).l);
    }
  }

  lemma KeepsRing(ringbuf: bool, r: Run, e: Event)
    requires CanStep(r, e) && CpusOk(r) && RingOk(r)
    ensures RingOk(Next(ringbuf, r, e))
  {
    var r' := Next(ringbuf, r, e);
    LedgerGrows(ringbuf, r, e);
    if e.Reserve? && e.ok {
      var x := PcOf(r.s, e.cpu).x;
      SerialsAppend(r.l.rung, x);
      forall n | n in Serials(r.l.rung) ensures n in r.l.fates {
        var i :| 0 <= i < |r.l.rung| && r.l.rung[i].serial == n;
        assert FateIs(r.l, n, Rung);
      }
    }
    forall j | 0 <= j < |r.l.rung| ensures Genuine(r'.l, r.l.rung[j]) && FateIs(r'.l, r.l.rung[j].serial, Rung) {
      assert FateIs(r.l, r.l.rung[j].serial, Rung);
    }
  }

  lemma WithFateMore(fates: map<nat, Fate>, n: nat, f: Fate)
    requires n !in fates
    ensures |WithFate(fates[n := f], f)| == |WithFate(fates, f)| + 1
  {
    assert WithFate(fates[n := f], f) == WithFate(fates, f) + {n};
  }

  lemma WithFateSame(fates: map<nat, Fate>, n: nat, g: Fate, f: Fate)
    requires n !in fates && f != g
    ensures WithFate(fates[n := g], f) == WithFate(fates, f)
  {
  }

  /** A counter that shows the packets with a fate rises when one more packet has it. */
  lemma CounterRises(fates: map<nat, Fate>, n: nat, g: Fate, f: Fate)
    requires n !in fates
    ensures Wrap32(|WithFate(fates[n := g], f)|)
            == if f == g then Wrap32(Wrap32(|WithFate(fates, f)|) + 1) else Wrap32(|WithFate(fates, f)|)
  {
    if f == g {
      WithFateMore(fates, n, f);
      WrapAdd(|WithFate(fates, f)|, 1, U32_LIMIT);
    } else {
      WithFateSame(fates, n, g, f);
    }
  }

  /** A packet gets its fate in the step that counts its failure, if it failed. */
  lemma CountersMove(ringbuf: bool, r: Run, e: Event)
    requires CanStep(r, e) && CpusOk(r)
    ensures var r' := Next(ringbuf, r, e);
            if r'.l.fates == r.l.fates then r'.s.counters == r.s.counters
            else
              var n := PcOf(r.s, e.cpu).x.serial;
              && n !in r.l.fates && n in r'.l.fates && r'.l.fates == r.l.fates[n := r'.l.fates[n]]
              && forall c :: CountedBy(r, r', (c, HashmapFailUpdateFlow), r'.l.fates[n] == NotUpdated(c))
                          && CountedBy(r, r', (c, HashmapFailCreateFlow), r'.l.fates[n] == NotCreated(c))
  {
  }

  ghost predicate CountedBy(r: Run, r': Run, key: (Cpu, Counter), counted: bool) {
    CounterOf(r'.s, key) == if counted then Wrap32(CounterOf(r.s, key) + 1) else CounterOf(r.s, key)
  }

  lemma KeepsCounters(ringbuf: bool, r: Run, e: Event)
    requires CanStep(r, e) && CpusOk(r) && CountersOk(r)
    ensures CountersOk(Next(ringbuf, r, e))
  {
    var r' := Next(ringbuf, r, e);
    CountersMove(ringbuf, r, e);
    if r'.l.fates != r.l.fates {
      var n := PcOf(r.s, e.cpu).x.serial;
      CountersRise(r, r', n, r'.l.fates[n]);
    }
  }

  lemma CountersRise(r: Run, r': Run, n: nat, g: Fate)
    requires CountersOk(r) && n !in r.l.fates && r'.l.fates == r.l.fates[n := g]
    requires forall c :: CountedBy(r, r', (c, HashmapFailUpdateFlow), g == NotUpdated(c))
                      && CountedBy(r, r', (c, HashmapFailCreateFlow), g == NotCreated(c))
    ensures CountersOk(r')
  {
    forall c ensures CounterOf(r'.s, (c, HashmapFailUpdateFlow)) == Wrap32(|WithFate(r'.l.fates, NotUpdated(c))|)
             ensures CounterOf(r'.s, (c, HashmapFailCreateFlow)) == Wrap32(|WithFate(r'.l.fates, NotCreated(c))|)
    {
      CounterRises(r.l.fates, n, g, NotUpdated(c));
      CounterRises(r.l.fates, n, g, NotCreated(c));
      assert CountedBy(r, r', (c, HashmapFailUpdateFlow), g == NotUpdated(c));
    }
  }

  /** A CPU that newly holds an element found it in the table. */
  lemma HoldersStep(ringbuf: bool, r: Run, e: Event, slot: nat)
    requires CanStep(r, e) && CpusOk(r) && slot !in r.s.table.Values && slot < |r.s.memory|
    ensures var before, after := Holders(r.s, slot), Holders(Next(ringbuf, r, e).s, slot);
            if e.LockedUpdate? && PcOf(r.s, e.cpu).slot == slot
            then before == after + {PcOf(r.s, e.cpu).x.serial} else before == after
  {
    var r' := Next(ringbuf, r, e);
    if !e.Evict? {
      CpuMoves(ringbuf, r, e);
      HoldersMove(r.s, r'.s, e.cpu, slot);
    }
  }

  lemma HoldersMove(s: State, s': State, c: Cpu, slot: nat)
    requires s'.cpus == s.cpus[c := PcOf(s', c)]
    requires !(PcOf(s', c).Holding? && PcOf(s', c).slot == slot)
    ensures Holders(s, slot) == if PcOf(s, c).Holding? && PcOf(s, c).slot == slot
                                then Holders(s', slot) + {PcOf(s, c).x.serial} else Holders(s', slot)
  {
    forall n | n in Holders(s, slot) && !(PcOf(s, c).Holding? && PcOf(s, c).slot == slot && PcOf(s, c).x.serial == n)
      ensures n in Holders(s', slot)
    {
      var d :| d in s.cpus && s.cpus[d].Holding? && s.cpus[d].slot == slot && s.cpus[d].x.serial == n;
      assert d != c && s'.cpus[d] == s.cpus[d];
    }
    forall n | n in Holders(s', slot) ensures n in Holders(s, slot) {
      var d :| d in s'.cpus && s'.cpus[d].Holding? && s'.cpus[d].slot == slot && s'.cpus[d].x.serial == n;
      assert d != c && s'.cpus[d] == s.cpus[d];
    }
  }

  lemma MergedStep(ringbuf: bool, r: Run, e: Event, slot: nat)
    requires CanStep(r, e) && slot < |r.l.merged|
    ensures var xs, xs' := r.l.merged[slot], Next(ringbuf, r, e).l.merged[slot];
            xs' == if e.LockedUpdate? && PcOf(r.s, e.cpu).slot == slot then xs + [PcOf(r.s, e.cpu).x] else xs
  {
  }

  lemma HandoverKept(ringbuf: bool, r: Run, e: Event, j: nat)
    requires CanStep(r, e) && TableOk(r) && CpusOk(r)
    requires j < |r.l.handovers| && j < |r.s.delivered| && HandoverOk(r, j)
    requires r.l.handovers[j].slot !in r.s.table.Values
    ensures j < |Next(ringbuf, r, e).s.delivered| && HandoverOk(Next(ringbuf, r, e), j)
  {
    var h, r' := r.l.handovers[j], Next(ringbuf, r, e);
    SlotKept(ringbuf, r, e, h.slot, r.s.delivered[j].0);
    HoldersStep(ringbuf, r, e, h.slot);
    MergedStep(ringbuf, r, e, h.slot);
    assert r'.s.delivered[j] == r.s.delivered[j] && r'.l.handovers[j] == h;
    HandoverSame(r, r', j);
  }

  lemma HandoverSame(r: Run, r': Run, j: nat)
    requires j < |r.l.handovers| && j < |r.s.delivered| && HandoverOk(r, j)
    requires j < |r'.l.handovers| && j < |r'.s.delivered|
    requires r'.s.delivered[j] == r.s.delivered[j] && r'.l.handovers[j] == r.l.handovers[j]
    requires var slot := r.l.handovers[j].slot;
             && SlotHas(r'.l, slot, r.s.delivered[j].0)
             && var xs, xs' := r.l.merged[slot], r'.l.merged[slot];
             || (xs' == xs && Holders(r.s, slot) == Holders(r'.s, slot))
             || exists x :: xs' == xs + [x] && Holders(r.s, slot) == Holders(r'.s, slot) + {x.serial}
    ensures HandoverOk(r', j)
  {
    var h := r.l.handovers[j];
    var xs, xs' := r.l.merged[h.slot], r'.l.merged[h.slot];
    assert xs'[..h.size] == xs[..h.size];
    if xs' != xs {
      var x :| xs' == xs + [x] && Holders(r.s, h.slot) == Holders(r'.s, h.slot) + {x.serial};
      assert xs'[h.size..] == xs[h.size..] + [x];
      SerialsAppend(xs[h.size..], x);
    }
  }

  lemma TableInjective(r: Run, a: FlowId, b: FlowId)
    requires TableOk(r) && a in r.s.table && b in r.s.table && r.s.table[a] == r.s.table[b]
    ensures a == b
  {
    assert SlotHas(r.l, r.s.table[a], a) && SlotHas(r.l, r.s.table[b], b);
  }

  lemma NewHandover(ringbuf: bool, r: Run, id: FlowId)
    requires CanStep(r, Evict(id)) && TableOk(r) && MemoryOk(r) && |r.s.delivered| == |r.l.handovers|
    ensures HandoverOk(Next(ringbuf, r, Evict(id)), |r.l.handovers|)
  {
    var slot := r.s.table[id];
    assert SlotHas(r.l, slot, id);
    var xs := r.l.merged[slot];
    assert xs[..|xs|] == xs && xs[|xs|..] == [] && Serials([]) == {};
    var r' := Next(ringbuf, r, Evict(id));
    assert r'.l.merged == r.l.merged && SlotHas(r'.l, slot, id);
    assert Holders(r'.s, slot) == Holders(r.s, slot);
  }

  lemma TakenNotLive(r: Run, j: nat)
    requires HandoversOk(r) && j < |r.l.handovers|
    ensures r.l.handovers[j].slot !in r.s.table.Values
  {
    assert Taken(r.l, r.l.handovers[j].slot);
  }

  lemma KeepsHandovers(ringbuf: bool, r: Run, e: Event)
    requires CanStep(r, e) && TableOk(r) && MemoryOk(r) && CpusOk(r) && HandoversOk(r)
    ensures HandoversOk(Next(ringbuf, r, e))
  {
    var r' := Next(ringbuf, r, e);
    forall j | 0 <= j < |r'.l.handovers| ensures HandoverOk(r', j) {
      if j < |r.l.handovers| {
        TakenNotLive(r, j);
        HandoverKept(ringbuf, r, e, j);
      } else {
        NewHandover(ringbuf, r, e.id);
      }
    }
    KeepsTaken(ringbuf, r, e);
  }

  lemma TakenApart(ringbuf: bool, r: Run, e: Event, i: nat, j: nat)
    requires CanStep(r, e) && HandoversOk(r) && i < j < |Next(ringbuf, r, e).l.handovers|
    ensures Next(ringbuf, r, e).l.handovers[i].slot != Next(ringbuf, r, e).l.handovers[j].slot
  {
    if e.Evict? {
      assert !Taken(r.l, r.s.table[e.id]);
    }
  }

  lemma LiveUntaken(ringbuf: bool, r: Run, e: Event, id: FlowId)
    requires CanStep(r, e) && id in Next(ringbuf, r, e).s.table
    requires id in r.s.table ==> !Taken(r.l, r.s.table[id])
    requires e.Evict? && id in r.s.table && id != e.id ==> r.s.table[id] != r.s.table[e.id]
    requires !Taken(r.l, |r.s.memory|)
    ensures !Taken(Next(ringbuf, r, e).l, Next(ringbuf, r, e).s.table[id])
  {
  }

  lemma KeepsTaken(ringbuf: bool, r: Run, e: Event)
    requires CanStep(r, e) && TableOk(r) && HandoversOk(r)
    ensures var r' := Next(ringbuf, r, e);
            && (forall i, j :: 0 <= i < j < |r'.l.handovers| ==> r'.l.handovers[i].slot != r'.l.handovers[j].slot)
            && (forall id :: id in r'.s.table ==> !Taken(r'.l, r'.s.table[id]))
            && (forall k :: 0 <= k < |r'.l.merged| ==> Taken(r'.l, k) || k in r'.s.table.Values)
  {
    var r' := Next(ringbuf, r, e);
    forall i, j | 0 <= i < j < |r'.l.handovers| ensures r'.l.handovers[i].slot != r'.l.handovers[j].slot {
      TakenApart(ringbuf, r, e, i, j);
    }
    UntakenFresh(r);
    forall id | id in r'.s.table ensures !Taken(r'.l, r'.s.table[id]) {
      if e.Evict? && id in r.s.table && r.s.table[id] == r.s.table[e.id] {
        TableInjective(r, id, e.id);
      }
      LiveUntaken(ringbuf, r, e, id);
    }
    forall k | 0 <= k < |r'.l.merged| ensures Taken(r'.l, k) || k in r'.s.table.Values {
      SlotPlaced(ringbuf, r, e, k);
    }
  }

  lemma UntakenFresh(r: Run)
    requires HandoversOk(r)
    ensures !Taken(r.l, |r.l.merged|)
  {
    forall j | 0 <= j < |r.l.handovers| ensures r.l.handovers[j].slot < |r.l.merged| {
      assert HandoverOk(r, j);
    }
  }

  lemma SlotPlaced(ringbuf: bool, r: Run, e: Event, k: nat)
    requires CanStep(r, e) && HandoversOk(r) && k < |Next(ringbuf, r, e).l.merged|
    ensures var r' := Next(ringbuf, r, e); Taken(r'.l, k) || k in r'.s.table.Values
  {
    var r' := Next(ringbuf, r, e);
    if k == |r.l.merged| {
      var id := PcOf(r.s, e.cpu).x.pkt.id;
      assert id in r'.s.table && r'.s.table[id] == k;
    } else if Taken(r.l, k) {
      var j :| 0 <= j < |r.l.handovers| && r.l.handovers[j].slot == k;
      assert r'.l.handovers[j].slot == k;
    } else {
      var id :| id in r.s.table && r.s.table[id] == k;
      if e == Evict(id) {
        assert r'.l.handovers[|r.l.handovers|].slot == k;
      } else {
        assert id in r'.s.table && r'.s.table[id] == k;
      }
    }
  }

  lemma {:induction false} StepKeepsInv(ringbuf: bool, r: Run, e: Event)
    requires CanStep(r, e) && Inv(r)
    ensures Inv(Next(ringbuf, r, e))
  {
    KeepsMemory(ringbuf, r, e);
    KeepsTable(ringbuf, r, e);
    KeepsCpus(ringbuf, r, e);
    KeepsCovered(ringbuf, r, e);
    KeepsMerged(ringbuf, r, e);
    KeepsRing(ringbuf, r, e);
    KeepsCounters(ringbuf, r, e);
    KeepsHandovers(ringbuf, r, e);
  }

  /** Whatever the interleaving, the ledger and the machine agree. */
  lemma {:induction false} EveryRunIsAccounted(ringbuf: bool, es: seq<Event>)
    requires Exec(ringbuf, es).Some?
    ensures Inv(Exec(ringbuf, es).value)
  {
    if es == [] {
      assert forall f :: WithFate(map[], f) == {};
    } else {
      EveryRunIsAccounted(ringbuf, es[..|es| - 1]);
      StepKeepsInv(ringbuf, Exec(ringbuf, es[..|es| - 1]).value, es[|es| - 1]);
    }
  }
}
