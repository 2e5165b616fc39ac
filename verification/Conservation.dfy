/** Per-flow totals over whole runs of the shared flow map: nothing lost unaccounted or counted twice. */
module Conservation {
  import opened Words
  import opened Flows
  import opened FlowEntry
  import opened FlowHistory
  import opened Aggregation

  /** The packets of xs on one interface, in order. */
  ghost function OnSame(xs: seq<Tagged>, intf: u32): seq<Tagged> {
    if xs == [] then []
    else
      var rest := OnSame(xs[..|xs| - 1], intf);
      if xs[|xs| - 1].pkt.ifIndex == intf then rest + [xs[|xs| - 1]] else rest
  }

  /** The packets that the counters of an element made from xs stand for. */
  ghost function Own(xs: seq<Tagged>): seq<Tagged>
    requires xs != []
  {
    OnSame(xs, xs[0].pkt.ifIndex)
  }

  lemma {:induction false} OnSameIs(xs: seq<Tagged>, intf: u32)
    ensures Pkts(OnSame(xs, intf)) == OnIntf(Pkts(xs), intf)
  {
    if xs != [] {
      var n := |xs| - 1;
      OnSameIs(xs[..n], intf);
      assert Pkts(xs)[..n] == Pkts(xs[..n]);
    }
  }

  lemma {:induction false} OnSameMembers(xs: seq<Tagged>, intf: u32)
    ensures forall x :: x in OnSame(xs, intf) <==> x in xs && x.pkt.ifIndex == intf
    ensures NoRepeat(xs) ==> NoRepeat(OnSame(xs, intf))
  {
    if xs != [] {
      var n := |xs| - 1;
      OnSameMembers(xs[..n], intf);
      assert xs == xs[..n] + [xs[n]];
      if NoRepeat(xs) {
        var rest := OnSame(xs[..n], intf);
        forall x | x in rest ensures x.serial != xs[n].serial {
          var i :| 0 <= i < n && xs[..n][i] == x;
        }
        forall i | 0 <= i < |rest| ensures rest[i].serial != xs[n].serial {
          assert rest[i] in rest;
        }
      }
    }
  }

  /** An element's counters are those packets, wrapped. */
  lemma OwnCounts(xs: seq<Tagged>)
    requires xs != []
    ensures Replay(Pkts(xs)).packets == Wrap32(|Own(xs)|)
    ensures Replay(Pkts(xs)).bytes == Wrap64(TotalLen(Pkts(Own(xs))))
  {
    OnSameIs(xs, xs[0].pkt.ifIndex);
    ReplayPackets(Pkts(xs));
    ReplayBytes(Pkts(xs));
  }

  // ----- Totals -----

  /** The part of the invariant that the totals rest on. */
  ghost predicate Sound(r: Run) {
    && MemoryOk(r)
    && TableOk(r)
    && |r.s.delivered| == |r.l.handovers|
    && forall j :: 0 <= j < |r.l.handovers| ==> HandoverOk(r, j)
  }

  /** The packets counted in the first j records of a flow that user space took. */
  ghost function CountedTaken(r: Run, id: FlowId, j: nat): seq<Tagged>
    requires Sound(r) && j <= |r.l.handovers|
  {
    if j == 0 then []
    else
      assert HandoverOk(r, j - 1);
      var h := r.l.handovers[j - 1];
      CountedTaken(r, id, j - 1)
        + if r.s.delivered[j - 1].0 == id then Own(r.l.merged[h.slot][..h.size]) else []
  }

  ghost function CountedLive(r: Run, id: FlowId): seq<Tagged>
    requires Sound(r)
  {
    if id in r.s.table then
      assert SlotHas(r.l, r.s.table[id], id);
      Own(r.l.merged[r.s.table[id]])
    else []
  }

  /** All the packets that the flow's records stand for. */
  ghost function Counted(r: Run, id: FlowId): seq<Tagged>
    requires Sound(r)
  {
    CountedTaken(r, id, |r.l.handovers|) + CountedLive(r, id)
  }

  function SumPackets(ds: seq<(FlowId, FlowMetrics)>, id: FlowId): nat {
    if ds == [] then 0
    else SumPackets(ds[..|ds| - 1], id) + if ds[|ds| - 1].0 == id then ds[|ds| - 1].1.packets else 0
  }

  function SumBytes(ds: seq<(FlowId, FlowMetrics)>, id: FlowId): nat {
    if ds == [] then 0
    else SumBytes(ds[..|ds| - 1], id) + if ds[|ds| - 1].0 == id then ds[|ds| - 1].1.bytes else 0
  }

  lemma WrapBoth(a: nat, b: nat, c: nat, d: nat, limit: nat)
    requires limit > 0 && Wrap(a, limit) == Wrap(c, limit) && Wrap(b, limit) == Wrap(d, limit)
    ensures Wrap(a + b, limit) == Wrap(c + d, limit)
  {
    WrapAdd(a, b, limit);
    WrapAdd(c, b, limit);
    WrapAdd(b, c, limit);
    WrapAdd(d, c, limit);
  }

  lemma {:induction false} WrapTwice(a: nat, limit: nat)
    requires limit > 0
    ensures Wrap(Wrap(a, limit), limit) == Wrap(a, limit)
  {
    if a >= limit {
      WrapTwice(a - limit, limit);
    }
  }

  lemma {:induction false} TotalLenConcat(a: seq<Packet>, b: seq<Packet>)
    ensures TotalLen(a + b) == TotalLen(a) + TotalLen(b)
  {
    if b == [] {
      assert a + b == a;
    } else {
      assert (a + b)[..|a + b| - 1] == a + b[..|b| - 1];
      TotalLenConcat(a, b[..|b| - 1]);
    }
  }

  lemma PktsConcat(a: seq<Tagged>, b: seq<Tagged>)
    ensures Pkts(a + b) == Pkts(a) + Pkts(b)
  {
  }

  lemma {:induction false} TakenPackets(r: Run, id: FlowId, j: nat)
    requires Sound(r) && j <= |r.l.handovers|
    ensures Wrap32(SumPackets(r.s.delivered[..j], id)) == Wrap32(|CountedTaken(r, id, j)|)
  {
    if j > 0 {
      TakenPackets(r, id, j - 1);
      assert r.s.delivered[..j][..j - 1] == r.s.delivered[..j - 1];
      assert HandoverOk(r, j - 1);
      var h, d := r.l.handovers[j - 1], r.s.delivered[j - 1];
      var own := Own(r.l.merged[h.slot][..h.size]);
      OwnCounts(r.l.merged[h.slot][..h.size]);
      WrapTwice(|own|, U32_LIMIT);
      if d.0 == id {
        WrapBoth(SumPackets(r.s.delivered[..j - 1], id), d.1.packets, |CountedTaken(r, id, j - 1)|, |own|, U32_LIMIT);
      }
    }
  }

  lemma ConcatBytes(a: seq<Tagged>, b: seq<Tagged>, m: nat, n: nat)
    requires Wrap64(m) == Wrap64(TotalLen(Pkts(a))) && Wrap64(n) == Wrap64(TotalLen(Pkts(b)))
    ensures Wrap64(m + n) == Wrap64(TotalLen(Pkts(a + b)))
  {
    PktsConcat(a, b);
    TotalLenConcat(Pkts(a), Pkts(b));
    WrapBoth(m, n, TotalLen(Pkts(a)), TotalLen(Pkts(b)), U64_LIMIT);
  }

  lemma {:induction false} TakenBytes(r: Run, id: FlowId, j: nat)
    requires Sound(r) && j <= |r.l.handovers|
    ensures Wrap64(SumBytes(r.s.delivered[..j], id)) == Wrap64(TotalLen(Pkts(CountedTaken(r, id, j))))
  {
    if j > 0 {
      TakenBytes(r, id, j - 1);
      assert r.s.delivered[..j][..j - 1] == r.s.delivered[..j - 1];
      assert HandoverOk(r, j - 1);
      var h, before := r.l.handovers[j - 1], CountedTaken(r, id, j - 1);
      OwnCounts(r.l.merged[h.slot][..h.size]);
      if r.s.delivered[j - 1].0 == id {
        WrapTwice(TotalLen(Pkts(Own(r.l.merged[h.slot][..h.size]))), U64_LIMIT);
        ConcatBytes(before, Own(r.l.merged[h.slot][..h.size]),
                    SumBytes(r.s.delivered[..j - 1], id), r.s.delivered[j - 1].1.bytes);
      } else {
        assert before + [] == before;
      }
    }
  }

  ghost function Live(s: State, id: FlowId): seq<(FlowId, FlowMetrics)> {
    if id in s.table && s.table[id] < |s.memory| then [(id, s.memory[s.table[id]])] else []
  }

  lemma LiveTotals(r: Run, id: FlowId)
    requires Sound(r)
    ensures Wrap32(SumPackets(Live(r.s, id), id)) == Wrap32(|CountedLive(r, id)|)
    ensures Wrap64(SumBytes(Live(r.s, id), id)) == Wrap64(TotalLen(Pkts(CountedLive(r, id))))
  {
    if id in r.s.table {
      assert SlotHas(r.l, r.s.table[id], id);
      var xs := r.l.merged[r.s.table[id]];
      OwnCounts(xs);
      WrapTwice(|Own(xs)|, U32_LIMIT);
      WrapTwice(TotalLen(Pkts(Own(xs))), U64_LIMIT);
      assert Live(r.s, id)[..0] == [];
    }
  }

  lemma PacketTotals(r: Run, id: FlowId)
    requires Sound(r)
    ensures Wrap32(SumPackets(r.s.delivered, id) + SumPackets(Live(r.s, id), id)) == Wrap32(|Counted(r, id)|)
  {
    var n := |r.l.handovers|;
    assert r.s.delivered[..n] == r.s.delivered;
    TakenPackets(r, id, n);
    LiveTotals(r, id);
    WrapBoth(SumPackets(r.s.delivered, id), SumPackets(Live(r.s, id), id),
             |CountedTaken(r, id, n)|, |CountedLive(r, id)|, U32_LIMIT);
  }

  lemma ByteTotals(r: Run, id: FlowId)
    requires Sound(r)
    ensures Wrap64(SumBytes(r.s.delivered, id) + SumBytes(Live(r.s, id), id)) == Wrap64(TotalLen(Pkts(Counted(r, id))))
  {
    var n := |r.l.handovers|;
    assert r.s.delivered[..n] == r.s.delivered;
    TakenBytes(r, id, n);
    LiveTotals(r, id);
    ConcatBytes(CountedTaken(r, id, n), CountedLive(r, id), SumBytes(r.s.delivered, id), SumBytes(Live(r.s, id), id));
  }

  lemma Totals(r: Run, id: FlowId)
    requires Sound(r)
    ensures TotalsOk(r, id)
  {
    PacketTotals(r, id);
    ByteTotals(r, id);
  }

  // ----- Which packets are counted -----

  /** The packet updated its element after user space had already taken a copy. */
  ghost predicate Late(l: Ledger, n: nat, slot: nat) {
    exists j :: 0 <= j < |l.handovers| && l.handovers[j].slot == slot && slot < |l.merged|
                && l.handovers[j].size <= |l.merged[slot]|
                && n in Serials(l.merged[slot][l.handovers[j].size..])
  }

  /** The packet was merged in time, on the interface its element first saw. */
  ghost predicate IsCounted(l: Ledger, n: nat) {
    && n < |l.arrivals| && n in l.fates && l.fates[n].Merged?
    && var k := l.fates[n].slot;
       && k < |l.merged| && l.merged[k] != []
       && l.arrivals[n].ifIndex == l.merged[k][0].pkt.ifIndex
       && !Late(l, n, k)
  }

  lemma SerialIn(xs: seq<Tagged>, x: Tagged)
    requires x in xs
    ensures x.serial in Serials(xs)
  {
  }

  lemma NotIn(xs: seq<Tagged>, x: Tagged)
    requires x.serial !in Serials(xs)
    ensures x !in xs
  {
  }

  /** In an element without repeats, a packet of the first part is not in the rest. */
  lemma PartsDisjoint(xs: seq<Tagged>, size: nat, x: Tagged)
    requires NoRepeat(xs) && size <= |xs| && x in xs[..size]
    ensures x.serial !in Serials(xs[size..])
  {
    var i :| 0 <= i < size && xs[..size][i] == x;
    forall y | y in xs[size..] ensures y.serial != x.serial {
      var k :| 0 <= k < |xs[size..]| && xs[size..][k] == y;
      assert xs[size + k] == y && xs[i] == x;
    }
  }

  ghost predicate SlotsDiffer(l: Ledger) {
    forall i, j :: 0 <= i < j < |l.handovers| ==> l.handovers[i].slot != l.handovers[j].slot
  }

  lemma TakenIsCounted(r: Run, j: nat, x: Tagged)
    requires MergedOk(r.l) && SlotsDiffer(r.l) && j < |r.l.handovers| && j < |r.s.delivered|
    requires var h := r.l.handovers[j]; HandoverOk(r, j) && x in Own(r.l.merged[h.slot][..h.size])
    ensures FateIs(r.l, x.serial, Merged(r.l.handovers[j].slot)) && Genuine(r.l, x)
    ensures IsCounted(r.l, x.serial) && x.pkt.id == r.s.delivered[j].0
  {
    var h := r.l.handovers[j];
    var xs := r.l.merged[h.slot];
    OnSameMembers(xs[..h.size], xs[0].pkt.ifIndex);
    var i :| 0 <= i < h.size && xs[..h.size][i] == x;
    assert xs[i] == x && NoRepeat(xs);
    PartsDisjoint(xs, h.size, x);
  }

  lemma LiveIsCounted(r: Run, id: FlowId, x: Tagged)
    requires Sound(r) && MergedOk(r.l) && HandoversOk(r) && x in CountedLive(r, id)
    ensures id in r.s.table && FateIs(r.l, x.serial, Merged(r.s.table[id])) && Genuine(r.l, x)
    ensures IsCounted(r.l, x.serial) && x.pkt.id == id
  {
    var k := r.s.table[id];
    assert SlotHas(r.l, k, id) && !Taken(r.l, k);
    var xs := r.l.merged[k];
    OnSameMembers(xs, xs[0].pkt.ifIndex);
    var i :| 0 <= i < |xs| && xs[i] == x;
  }

  ghost predicate InRecord(r: Run, j: nat, x: Tagged)
    requires Sound(r) && j < |r.l.handovers|
  {
    var h := r.l.handovers[j];
    assert HandoverOk(r, j);
    x in Own(r.l.merged[h.slot][..h.size])
  }

  lemma {:induction false} TakenMembers(r: Run, id: FlowId, n: nat, x: Tagged)
    requires Sound(r) && n <= |r.l.handovers|
    ensures x in CountedTaken(r, id, n) <==> exists j :: 0 <= j < n && r.s.delivered[j].0 == id && InRecord(r, j, x)
  {
    if n > 0 {
      TakenMembers(r, id, n - 1, x);
      assert HandoverOk(r, n - 1);
    }
  }

  lemma NoRepeatConcat(a: seq<Tagged>, b: seq<Tagged>)
    requires NoRepeat(a) && NoRepeat(b)
    requires forall x, y :: x in a && y in b ==> x.serial != y.serial
    ensures NoRepeat(a + b)
  {
    forall i, j | 0 <= i < j < |a + b| ensures (a + b)[i].serial != (a + b)[j].serial {
      if i < |a| && j >= |a| {
        assert a[i] in a && b[j - |a|] in b;
      }
    }
  }

  lemma RecordNoRepeat(r: Run, j: nat)
    requires MergedOk(r.l) && j < |r.l.handovers| && j < |r.s.delivered| && HandoverOk(r, j)
    ensures var h := r.l.handovers[j]; NoRepeat(Own(r.l.merged[h.slot][..h.size]))
  {
    var h := r.l.handovers[j];
    var xs := r.l.merged[h.slot];
    assert NoRepeat(xs);
    assert NoRepeat(xs[..h.size]);
    OnSameMembers(xs[..h.size], xs[0].pkt.ifIndex);
  }

  /** The records' own packets do not overlap. */
  ghost predicate Separate(r: Run)
    requires Sound(r)
  {
    && (forall i, j, x, y :: 0 <= i < j < |r.l.handovers| && InRecord(r, i, x) && InRecord(r, j, y) ==>
          x.serial != y.serial)
    && (forall j :: 0 <= j < |r.l.handovers| ==> RecordOnce(r, j))
  }

  ghost predicate RecordOnce(r: Run, j: nat)
    requires Sound(r) && j < |r.l.handovers|
  {
    assert HandoverOk(r, j);
    NoRepeat(Own(r.l.merged[r.l.handovers[j].slot][..r.l.handovers[j].size]))
  }

  lemma RecordsSeparate(r: Run)
    requires Sound(r) && MergedOk(r.l) && SlotsDiffer(r.l)
    ensures Separate(r)
  {
    forall i, j, x, y | 0 <= i < j < |r.l.handovers| && InRecord(r, i, x) && InRecord(r, j, y)
      ensures x.serial != y.serial
    {
      RecordsDisjoint(r, i, j, x, y);
    }
    forall j | 0 <= j < |r.l.handovers| ensures RecordOnce(r, j) {
      assert HandoverOk(r, j);
      RecordNoRepeat(r, j);
    }
  }

  lemma {:induction false} TakenNoRepeat(r: Run, id: FlowId, n: nat)
    requires Sound(r) && Separate(r) && n <= |r.l.handovers|
    ensures NoRepeat(CountedTaken(r, id, n))
  {
    if n > 0 {
      TakenNoRepeat(r, id, n - 1);
      var h := r.l.handovers[n - 1];
      assert HandoverOk(r, n - 1) && RecordOnce(r, n - 1);
      var a, b := CountedTaken(r, id, n - 1), Own(r.l.merged[h.slot][..h.size]);
      forall x, y | x in a && y in b ensures x.serial != y.serial {
        TakenMembers(r, id, n - 1, x);
        var j :| 0 <= j < n - 1 && r.s.delivered[j].0 == id && InRecord(r, j, x);
        assert InRecord(r, n - 1, y);
      }
      NoRepeatConcat(a, b);
    }
  }

  lemma RecordsDisjoint(r: Run, i: nat, j: nat, x: Tagged, y: Tagged)
    requires Sound(r) && MergedOk(r.l) && SlotsDiffer(r.l)
    requires i < j < |r.l.handovers| && InRecord(r, i, x) && InRecord(r, j, y)
    ensures x.serial != y.serial
  {
    assert HandoverOk(r, i) && HandoverOk(r, j);
    TakenIsCounted(r, i, x);
    TakenIsCounted(r, j, y);
  }

  lemma CountedNoRepeat(r: Run, id: FlowId)
    requires Sound(r) && MergedOk(r.l) && HandoversOk(r)
    ensures NoRepeat(Counted(r, id))
  {
    var n := |r.l.handovers|;
    RecordsSeparate(r);
    TakenNoRepeat(r, id, n);
    LiveNoRepeat(r, id);
    forall x, y | x in CountedTaken(r, id, n) && y in CountedLive(r, id) ensures x.serial != y.serial {
      TakenMembers(r, id, n, x);
      var j :| 0 <= j < n && r.s.delivered[j].0 == id && InRecord(r, j, x);
      assert HandoverOk(r, j);
      TakenIsCounted(r, j, x);
      LiveIsCounted(r, id, y);
      TakenNotLive(r, j);
    }
    NoRepeatConcat(CountedTaken(r, id, n), CountedLive(r, id));
  }

  lemma LiveNoRepeat(r: Run, id: FlowId)
    requires Sound(r) && MergedOk(r.l)
    ensures NoRepeat(CountedLive(r, id))
  {
    if id in r.s.table {
      assert SlotHas(r.l, r.s.table[id], id);
      var xs := r.l.merged[r.s.table[id]];
      assert NoRepeat(xs);
      OnSameMembers(xs, xs[0].pkt.ifIndex);
    }
  }

  /** A counted packet is in the record its element became, or in the live entry. */
  lemma CountedIsThere(r: Run, n: nat)
    requires Sound(r) && MergedOk(r.l) && HandoversOk(r) && IsCounted(r.l, n)
    ensures n in Serials(Counted(r, r.l.arrivals[n].id))
  {
    var k, id := r.l.fates[n].slot, r.l.arrivals[n].id;
    var xs := r.l.merged[k];
    var i :| 0 <= i < |xs| && xs[i].serial == n;
    var x := xs[i];
    assert Genuine(r.l, x) && SlotHas(r.l, k, xs[0].pkt.id) && x.pkt.id == id;
    if Taken(r.l, k) {
      var j :| 0 <= j < |r.l.handovers| && r.l.handovers[j].slot == k;
      assert HandoverOk(r, j);
      InTime(r, j, x);
      TakenMembers(r, id, |r.l.handovers|, x);
      assert x in Counted(r, id);
    } else {
      var id' :| id' in r.s.table && r.s.table[id'] == k;
      assert SlotHas(r.l, k, id');
      OnSameMembers(xs, xs[0].pkt.ifIndex);
      assert x in CountedLive(r, id);
      assert x in Counted(r, id);
    }
    SerialIn(Counted(r, id), x);
  }

  lemma InTime(r: Run, j: nat, x: Tagged)
    requires Sound(r) && j < |r.l.handovers| && IsCounted(r.l, x.serial)
    requires var k := r.l.handovers[j].slot;
             && HandoverOk(r, j) && x in r.l.merged[k] && x.pkt.ifIndex == r.l.merged[k][0].pkt.ifIndex
             && FateIs(r.l, x.serial, Merged(k))
    ensures InRecord(r, j, x) && r.s.delivered[j].0 == x.pkt.id
  {
    var h := r.l.handovers[j];
    var xs := r.l.merged[h.slot];
    assert xs == xs[..h.size] + xs[h.size..];
    assert x.serial !in Serials(xs[h.size..]);
    NotIn(xs[h.size..], x);
    OnSameMembers(xs[..h.size], xs[0].pkt.ifIndex);
  }

  lemma CountedMembers(r: Run, id: FlowId, n: nat)
    requires Sound(r) && MergedOk(r.l) && HandoversOk(r)
    ensures n in Serials(Counted(r, id)) <==> IsCounted(r.l, n) && r.l.arrivals[n].id == id
  {
    if n in Serials(Counted(r, id)) {
      var x :| x in Counted(r, id) && x.serial == n;
      if x in CountedTaken(r, id, |r.l.handovers|) {
        TakenMembers(r, id, |r.l.handovers|, x);
        var j :| 0 <= j < |r.l.handovers| && r.s.delivered[j].0 == id && InRecord(r, j, x);
        assert HandoverOk(r, j);
        TakenIsCounted(r, j, x);
      } else {
        LiveIsCounted(r, id, x);
      }
    }
    if IsCounted(r.l, n) && r.l.arrivals[n].id == id {
      CountedIsThere(r, n);
    }
  }

  ghost predicate TotalsOk(r: Run, id: FlowId) {
    && Sound(r)
    && Wrap32(SumPackets(r.s.delivered, id) + SumPackets(Live(r.s, id), id)) == Wrap32(|Counted(r, id)|)
    && Wrap64(SumBytes(r.s.delivered, id) + SumBytes(Live(r.s, id), id)) == Wrap64(TotalLen(Pkts(Counted(r, id))))
  }

  ghost predicate ExactlyCounted(r: Run, id: FlowId, xs: seq<Tagged>) {
    && NoRepeat(xs)
    && forall n: nat :: n in Serials(xs) <==> IsCounted(r.l, n) && r.l.arrivals[n].id == id
  }

  lemma CountedExactly(r: Run, id: FlowId)
    requires Sound(r) && MergedOk(r.l) && HandoversOk(r)
    ensures ExactlyCounted(r, id, Counted(r, id))
  {
    CountedNoRepeat(r, id);
    forall n: nat ensures n in Serials(Counted(r, id)) <==> IsCounted(r.l, n) && r.l.arrivals[n].id == id {
      CountedMembers(r, id, n);
    }
  }

  lemma InvIsSound(r: Run)
    requires Inv(r)
    ensures Sound(r)
  {
  }

  lemma {:induction false} RunIsSound(ringbuf: bool, es: seq<Event>)
    requires Exec(ringbuf, es).Some?
    ensures Sound(Exec(ringbuf, es).value)
  {
    EveryRunIsAccounted(ringbuf, es);
    InvIsSound(Exec(ringbuf, es).value);
  }

  /**
   * For every interleaving and every flow, the packets and bytes in the records that user space took
   * and in the live entry add up, modulo the counter widths, to those of the counted packets.
   */
  lemma {:induction false} FlowTotals(ringbuf: bool, es: seq<Event>, id: FlowId)
    requires Exec(ringbuf, es).Some?
    ensures TotalsOk(Exec(ringbuf, es).value, id)
  {
    RunIsSound(ringbuf, es);
    Totals(Exec(ringbuf, es).value, id);
  }

  /**
   * The counted packets are exactly those of the flow that were merged in time, on the first-seen
   * interface of their element, once each.
   */
  lemma {:induction false} FlowPackets(ringbuf: bool, es: seq<Event>, id: FlowId)
    requires Exec(ringbuf, es).Some?
    ensures Sound(Exec(ringbuf, es).value)
    ensures ExactlyCounted(Exec(ringbuf, es).value, id, Counted(Exec(ringbuf, es).value, id))
  {
    RunIsSound(ringbuf, es);
    EveryRunIsAccounted(ringbuf, es);
    CountedExactly(Exec(ringbuf, es).value, id);
  }

  /**
   * Every packet that arrived is either still on one CPU or has exactly one fate, and the fate is real:
   * merged into one element at one place, sent once through the ring buffer, or counted in a CPU's
   * failure counter; `Unsent` is the one fate that leaves no trace.
   */
  lemma {:induction false} EveryPacketOnce(ringbuf: bool, es: seq<Event>, n: nat)
    requires Exec(ringbuf, es).Some? && n < |Exec(ringbuf, es).value.l.arrivals|
    ensures var r := Exec(ringbuf, es).value;
            && (n in r.l.fates <==> !InFlight(r.s, n))
            && (forall k :: 0 <= k < |r.l.merged| ==> (n in Serials(r.l.merged[k]) <==> FateIs(r.l, n, Merged(k))))
            && (forall k :: 0 <= k < |r.l.merged| ==> NoRepeat(r.l.merged[k]))
            && (n in Serials(r.l.rung) <==> FateIs(r.l, n, Rung)) && NoRepeat(r.l.rung)
            && |r.s.ring| == |r.l.rung|
            && (forall c :: CounterOf(r.s, (c, HashmapFailUpdateFlow)) == Wrap32(|WithFate(r.l.fates, NotUpdated(c))|))
            && (forall c :: CounterOf(r.s, (c, HashmapFailCreateFlow)) == Wrap32(|WithFate(r.l.fates, NotCreated(c))|))
  {
    var r := Exec(ringbuf, es).value;
    EveryRunIsAccounted(ringbuf, es);
    forall k | 0 <= k < |r.l.merged| && n in Serials(r.l.merged[k]) ensures FateIs(r.l, n, Merged(k)) {
      var i :| 0 <= i < |r.l.merged[k]| && r.l.merged[k][i].serial == n;
    }
    if n in Serials(r.l.rung) {
      var j :| 0 <= j < |r.l.rung| && r.l.rung[j].serial == n;
    }
  }

  // ----- When a packet misses the record of its element -----

  /** No CPU is inside flow_monitor. */
  ghost predicate Quiet(s: State) {
    forall c :: c in s.cpus ==> s.cpus[c] == Idle
  }

  /**
   * Once all CPUs are done, the packets that an element taken by user space misses are exactly those
   * whose CPU was between lookup and update when it was taken.
   */
  lemma LateExactlyHeld(ringbuf: bool, es: seq<Event>, j: nat)
    requires Exec(ringbuf, es).Some? && Quiet(Exec(ringbuf, es).value.s)
    requires j < |Exec(ringbuf, es).value.l.handovers|
    ensures var l := Exec(ringbuf, es).value.l; var h := l.handovers[j];
            && h.slot < |l.merged| && h.size <= |l.merged[h.slot]|
            && Serials(l.merged[h.slot][h.size..]) == h.held
            && (h.held == {} <==> h.size == |l.merged[h.slot]|)
  {
    var r := Exec(ringbuf, es).value;
    EveryRunIsAccounted(ringbuf, es);
    assert HandoverOk(r, j);
    var h := r.l.handovers[j];
    assert Holders(r.s, h.slot) == {};
    var rest := r.l.merged[h.slot][h.size..];
    if rest != [] {
      SerialIn(rest, rest[0]);
    } else {
      assert Serials([]) == {};
    }
  }

  /** The exits of flow_monitor. */
  datatype Outcome = InMap | OnOtherInterface | ByRing | UpdateFailed | CreateFailed | RefusedByRing

  ghost predicate Has(l: Ledger, n: nat, o: Outcome)
    requires n in l.fates && n < |l.arrivals|
  {
    match o
    case InMap => IsCounted(l, n)
    case OnOtherInterface =>
      l.fates[n].Merged? && l.fates[n].slot < |l.merged| && l.merged[l.fates[n].slot] != []
      && l.arrivals[n].ifIndex != l.merged[l.fates[n].slot][0].pkt.ifIndex
    case ByRing => l.fates[n] == Rung
    case UpdateFailed => l.fates[n].NotUpdated?
    case CreateFailed => l.fates[n].NotCreated?
    case RefusedByRing => l.fates[n] == Unsent
  }

  /** User space took no entry between a CPU's lookup and its update. */
  ghost predicate TakenAside(l: Ledger) {
    forall j :: 0 <= j < |l.handovers| ==> l.handovers[j].held == {}
  }

  lemma NoneLate(r: Run, n: nat, slot: nat)
    requires Sound(r) && TakenAside(r.l)
    ensures !Late(r.l, n, slot)
  {
    forall j | 0 <= j < |r.l.handovers| && r.l.handovers[j].slot == slot && slot < |r.l.merged|
               && r.l.handovers[j].size <= |r.l.merged[slot]|
      ensures n !in Serials(r.l.merged[slot][r.l.handovers[j].size..])
    {
      assert HandoverOk(r, j);
    }
  }

  /** If user space never takes an entry that a CPU holds, every finished packet has exactly one of six outcomes. */
  lemma {:induction false} SixOutcomes(ringbuf: bool, es: seq<Event>, n: nat)
    requires Exec(ringbuf, es).Some? && n < |Exec(ringbuf, es).value.l.arrivals|
    requires !InFlight(Exec(ringbuf, es).value.s, n) && TakenAside(Exec(ringbuf, es).value.l)
    ensures var l := Exec(ringbuf, es).value.l;
            n in l.fates && exists o :: Has(l, n, o) && forall p :: Has(l, n, p) ==> p == o
  {
    var r := Exec(ringbuf, es).value;
    var l := r.l;
    EveryRunIsAccounted(ringbuf, es);
    RunIsSound(ringbuf, es);
    assert n in l.fates;
    OneOutcome(r, n);
  }

  lemma OneOutcome(r: Run, n: nat)
    requires Sound(r) && MergedOk(r.l) && TakenAside(r.l) && n in r.l.fates && n < |r.l.arrivals|
    ensures exists o :: Has(r.l, n, o) && forall p :: Has(r.l, n, p) ==> p == o
  {
    var l := r.l;
    if l.fates[n].Merged? {
      var k := l.fates[n].slot;
      NoneLate(r, n, k);
      assert k < |l.merged| && l.merged[k] != [];
    }
    var o := match l.fates[n]
             case Merged(k) => if l.arrivals[n].ifIndex == l.merged[k][0].pkt.ifIndex then InMap else OnOtherInterface
             case Rung => ByRing
             case NotUpdated(_) => UpdateFailed
             case NotCreated(_) => CreateFailed
             case Unsent => RefusedByRing;
    assert Has(l, n, o);
  }

  lemma ExecAppend(ringbuf: bool, es: seq<Event>, e: Event)
    requires Exec(ringbuf, es).Some? && CanStep(Exec(ringbuf, es).value, e)
    ensures Exec(ringbuf, es + [e]) == Some(Next(ringbuf, Exec(ringbuf, es).value, e))
  {
    assert (es + [e])[..|es|] == es;
  }

  /** After one packet of a new flow on CPU 0. */
  lemma AfterFirst(p: Packet)
    ensures Exec(true, [Arrive(0, p), Lookup(0), Insert(0, Inserted)])
            == Some(Run(State(map[p.id := 0], [Fresh(p)], map[0 := Idle], [], [], map[]),
                        Ledger([p], map[0 := Merged(0)], [[Tagged(0, p)]], [], [])))
  {
    var x := Tagged(0, p);
    ExecAppend(true, [], Arrive(0, p));
    assert [] + [Arrive(0, p)] == [Arrive(0, p)];
    ExecAppend(true, [Arrive(0, p)], Lookup(0));
    assert [Arrive(0, p)] + [Lookup(0)] == [Arrive(0, p), Lookup(0)];
    var r := Exec(true, [Arrive(0, p), Lookup(0)]).value;
    assert r.s.cpus == map[0 := Inserting(x)];
    ExecAppend(true, [Arrive(0, p), Lookup(0)], Insert(0, Inserted));
    assert [Arrive(0, p), Lookup(0)] + [Insert(0, Inserted)] == [Arrive(0, p), Lookup(0), Insert(0, Inserted)];
    var r' := Next(true, r, Insert(0, Inserted));
    assert r'.s.table == map[p.id := 0] && r'.s.cpus == map[0 := Idle] && r'.s.memory == [Fresh(p)];
    assert r'.l.fates == map[0 := Merged(0)] && r'.l.merged == [[x]] && r'.l.arrivals == [p];
    assert r'.s == State(map[p.id := 0], [Fresh(p)], map[0 := Idle], [], [], map[]);
  }

  /** The second packet of the flow has looked it up when user space takes the entry. */
  lemma AfterTake(p: Packet)
    ensures Exec(true, [Arrive(0, p), Lookup(0), Insert(0, Inserted)] + [Arrive(0, p)] + [Lookup(0)] + [Evict(p.id)])
            == Some(Run(State(map[], [Fresh(p)], map[0 := Holding(Tagged(1, p), 0)], [], [(p.id, Fresh(p))], map[]),
                        Ledger([p, p], map[0 := Merged(0)], [[Tagged(0, p)]], [], [Handover(0, 1, {1})])))
  {
    var y := Tagged(1, p);
    var es := [Arrive(0, p), Lookup(0), Insert(0, Inserted)];
    AfterFirst(p);
    ExecAppend(true, es, Arrive(0, p));
    ExecAppend(true, es + [Arrive(0, p)], Lookup(0));
    var r := Exec(true, es + [Arrive(0, p)] + [Lookup(0)]).value;
    assert r.s.cpus == map[0 := Holding(y, 0)];
    assert Holders(r.s, 0) == {1} by {
      assert r.s.cpus[0].x.serial == 1;
    }
    ExecAppend(true, es + [Arrive(0, p)] + [Lookup(0)], Evict(p.id));
    assert r.s.table - {p.id} == map[];
    assert r.l == Ledger([p, p], map[0 := Merged(0)], [[Tagged(0, p)]], [], []);
    var r' := Next(true, r, Evict(p.id));
    assert r'.s.delivered == [(p.id, Fresh(p))];
    assert r'.l.handovers == [Handover(0, 1, {1})];
  }

  /** Such a packet exists: its update comes after the entry was taken, and no record has it. */
  lemma LateUpdateHappens(p: Packet)
    ensures var es := [Arrive(0, p), Lookup(0), Insert(0, Inserted)] + [Arrive(0, p)] + [Lookup(0)]
                      + [Evict(p.id)] + [LockedUpdate(0)];
            var r := Exec(true, es);
            && r.Some? && r.value.s.delivered == [(p.id, Fresh(p))] && r.value.s.table == map[]
            && FateIs(r.value.l, 1, Merged(0)) && !IsCounted(r.value.l, 1)
  {
    var es := [Arrive(0, p), Lookup(0), Insert(0, Inserted)] + [Arrive(0, p)] + [Lookup(0)] + [Evict(p.id)];
    AfterTake(p);
    ExecAppend(true, es, LockedUpdate(0));
    var l := Exec(true, es + [LockedUpdate(0)]).value.l;
    assert l.merged[0][1..] == [Tagged(1, p)];
    SerialIn([Tagged(1, p)], Tagged(1, p));
    assert l.handovers[0] == Handover(0, 1, {1}) && 1 in Serials(l.merged[0][l.handovers[0].size..]);
    assert Late(l, 1, 0);
  }
}
