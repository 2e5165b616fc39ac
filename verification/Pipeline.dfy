/**
 * From packets to exported records: what the kernel map and the ring buffer hand to user space, and
 * what the accounter makes of the ring buffer's records, together stand for every packet once.
 */
module Pipeline {
  import opened Words
  import opened Flows
  import opened FlowEntry
  import opened FlowHistory
  import opened Aggregation
  import Accumulate
  import Accounter
  import Conservation

  /** The packets of one flow that went through the ring buffer. */
  function RungOf(rung: seq<Tagged>, id: FlowId): seq<Tagged> {
    if rung == [] then []
    else RungOf(rung[..|rung| - 1], id) + if rung[|rung| - 1].pkt.id == id then [rung[|rung| - 1]] else []
  }

  /** Record j of the ring buffer is packet j of those sent. */
  ghost predicate SentAs(ring: seq<(FlowId, FlowMetrics)>, rung: seq<Tagged>) {
    && |ring| == |rung|
    && forall j :: 0 <= j < |rung| ==>
         ring[j].0 == rung[j].pkt.id && ring[j].1 == Fresh(rung[j].pkt).(errno := ring[j].1.errno)
  }

  lemma SumLast(ms: seq<FlowMetrics>, m: FlowMetrics)
    ensures Accumulate.SumPackets(ms + [m]) == Accumulate.SumPackets(ms) + m.packets
    ensures Accumulate.SumBytes(ms + [m]) == Accumulate.SumBytes(ms) + m.bytes
  {
    assert (ms + [m])[..|ms|] == ms;
  }

  lemma LenLast(xs: seq<Tagged>, x: Tagged)
    ensures TotalLen(Pkts(xs + [x])) == TotalLen(Pkts(xs)) + x.pkt.len
  {
    assert Pkts(xs + [x])[..|xs|] == Pkts(xs);
  }

  /** The ring buffer's records of a flow carry one packet each. */
  lemma {:induction false} RingTotals(ring: seq<(FlowId, FlowMetrics)>, rung: seq<Tagged>, id: FlowId)
    requires SentAs(ring, rung)
    ensures Accumulate.SumPackets(Accounter.Of(ring, id)) == |RungOf(rung, id)|
    ensures Accumulate.SumBytes(Accounter.Of(ring, id)) == TotalLen(Pkts(RungOf(rung, id)))
  {
    if rung != [] {
      var n := |rung| - 1;
      RingTotals(ring[..n], rung[..n], id);
      if rung[n].pkt.id == id {
        SumLast(Accounter.Of(ring[..n], id), ring[n].1);
        LenLast(RungOf(rung[..n], id), rung[n]);
      } else {
        assert RungOf(rung, id) == RungOf(rung[..n], id);
      }
    }
  }

  lemma {:induction false} RungMembers(rung: seq<Tagged>, id: FlowId)
    ensures forall x :: x in RungOf(rung, id) <==> x in rung && x.pkt.id == id
    ensures NoRepeat(rung) ==> NoRepeat(RungOf(rung, id))
  {
    if rung != [] {
      var n := |rung| - 1;
      RungMembers(rung[..n], id);
      assert rung == rung[..n] + [rung[n]];
      RungNoRepeat(rung, id);
    }
  }

  lemma RungNoRepeat(rung: seq<Tagged>, id: FlowId)
    requires rung != [] && var front := rung[..|rung| - 1];
             && (forall x :: x in RungOf(front, id) <==> x in front && x.pkt.id == id)
             && (NoRepeat(front) ==> NoRepeat(RungOf(front, id)))
    ensures NoRepeat(rung) ==> NoRepeat(RungOf(rung, id))
  {
    var n := |rung| - 1;
    var rest := RungOf(rung[..n], id);
    if NoRepeat(rung) {
      forall i | 0 <= i < |rest| ensures rest[i].serial != rung[n].serial {
        assert rest[i] in rung[..n];
        var k :| 0 <= k < n && rung[k] == rest[i];
      }
    }
  }

  /** What the accounter sent of a flow has the totals of the ring buffer's records. */
  lemma AccountedTotals(out: seq<seq<Accounter.Entry>>, ring: seq<(FlowId, FlowMetrics)>, id: FlowId)
    requires Accumulate.MergeAll(Accounter.Of(Accounter.Flatten(out), id))
             == Accumulate.MergeAll(Accounter.Of(ring, id))
    ensures var sent := Accounter.Of(Accounter.Flatten(out), id);
            && Wrap32(Accumulate.SumPackets(sent)) == Wrap32(Accumulate.SumPackets(Accounter.Of(ring, id)))
            && Wrap64(Accumulate.SumBytes(sent)) == Wrap64(Accumulate.SumBytes(Accounter.Of(ring, id)))
  {
    var sent := Accounter.Of(Accounter.Flatten(out), id);
    assert Accumulate.MergeAll([]).None?;
    Accounter.TotalsKept(sent, [], Accounter.Of(ring, id));
    assert sent + [] == sent;
  }

  /** The serials of the flow's packets with fate Rung, each once. */
  ghost predicate ExactlyRung(l: Ledger, id: FlowId) {
    && NoRepeat(RungOf(l.rung, id))
    && forall n: nat ::
         n in Serials(RungOf(l.rung, id)) <==> FateIs(l, n, Rung) && n < |l.arrivals| && l.arrivals[n].id == id
  }

  lemma RungExactly(r: Run, id: FlowId)
    requires RingOk(r)
    ensures SentAs(r.s.ring, r.l.rung) && ExactlyRung(r.l, id)
  {
    RungMembers(r.l.rung, id);
    forall n: nat
      ensures n in Serials(RungOf(r.l.rung, id))
              <==> FateIs(r.l, n, Rung) && n < |r.l.arrivals| && r.l.arrivals[n].id == id
    {
      RungSerial(r, id, n);
    }
  }

  lemma RungSerial(r: Run, id: FlowId, n: nat)
    requires RingOk(r) && forall x :: x in RungOf(r.l.rung, id) <==> x in r.l.rung && x.pkt.id == id
    ensures n in Serials(RungOf(r.l.rung, id))
            <==> FateIs(r.l, n, Rung) && n < |r.l.arrivals| && r.l.arrivals[n].id == id
  {
    if n in Serials(r.l.rung) {
      var j :| 0 <= j < |r.l.rung| && r.l.rung[j].serial == n;
      assert Genuine(r.l, r.l.rung[j]) && FateIs(r.l, n, Rung);
      if r.l.rung[j].pkt.id == id {
        assert r.l.rung[j] in RungOf(r.l.rung, id);
      }
    }
    if n in Serials(RungOf(r.l.rung, id)) {
      var x :| x in RungOf(r.l.rung, id) && x.serial == n;
      assert x in r.l.rung;
    }
  }

  function Sent(out: seq<seq<Accounter.Entry>>, id: FlowId): seq<FlowMetrics> {
    Accounter.Of(Accounter.Flatten(out), id)
  }

  /** The packets and bytes of the flow's records from the map, taken or live. */
  ghost function MapPackets(s: State, id: FlowId): nat {
    Conservation.SumPackets(s.delivered, id) + Conservation.SumPackets(Conservation.Live(s, id), id)
  }

  ghost function MapBytes(s: State, id: FlowId): nat {
    Conservation.SumBytes(s.delivered, id) + Conservation.SumBytes(Conservation.Live(s, id), id)
  }

  /** The records from the map and those sent stand for the counted and the rung packets. */
  ghost predicate Exported(s: State, sent: seq<FlowMetrics>, id: FlowId, counted: seq<Tagged>, rung: seq<Tagged>) {
    && Wrap32(MapPackets(s, id) + Accumulate.SumPackets(sent)) == Wrap32(|counted| + |rung|)
    && Wrap64(MapBytes(s, id) + Accumulate.SumBytes(sent)) == Wrap64(TotalLen(Pkts(counted)) + TotalLen(Pkts(rung)))
  }

  lemma ExportedTotals(s: State, sent: seq<FlowMetrics>, id: FlowId, counted: seq<Tagged>, rung: seq<Tagged>)
    requires Wrap32(MapPackets(s, id)) == Wrap32(|counted|)
    requires Wrap64(MapBytes(s, id)) == Wrap64(TotalLen(Pkts(counted)))
    requires Wrap32(Accumulate.SumPackets(sent)) == Wrap32(|rung|)
    requires Wrap64(Accumulate.SumBytes(sent)) == Wrap64(TotalLen(Pkts(rung)))
    ensures Exported(s, sent, id, counted, rung)
  {
    Conservation.WrapBoth(MapPackets(s, id), Accumulate.SumPackets(sent), |counted|, |rung|, U32_LIMIT);
    Conservation.WrapBoth(
      MapBytes(s, id), Accumulate.SumBytes(sent), TotalLen(Pkts(counted)), TotalLen(Pkts(rung)), U64_LIMIT);
  }

  lemma SentTotals(ring: seq<(FlowId, FlowMetrics)>, rung: seq<Tagged>, out: seq<seq<Accounter.Entry>>, id: FlowId)
    requires SentAs(ring, rung) && Accumulate.MergeAll(Sent(out, id)) == Accumulate.MergeAll(Accounter.Of(ring, id))
    ensures Wrap32(Accumulate.SumPackets(Sent(out, id))) == Wrap32(|RungOf(rung, id)|)
    ensures Wrap64(Accumulate.SumBytes(Sent(out, id))) == Wrap64(TotalLen(Pkts(RungOf(rung, id))))
  {
    RingTotals(ring, rung, id);
    AccountedTotals(out, ring, id);
  }

  lemma RunRings(ringbuf: bool, es: seq<Event>)
    requires Exec(ringbuf, es).Some?
    ensures RingOk(Exec(ringbuf, es).value)
  {
    EveryRunIsAccounted(ringbuf, es);
  }

  /** The flow's exported records stand for exactly its counted and its rung packets, each arrived and once. */
  ghost predicate ExportedOnce(r: Run, out: seq<seq<Accounter.Entry>>, id: FlowId) {
    && Conservation.Sound(r)
    && Exported(r.s, Sent(out, id), id, Conservation.Counted(r, id), RungOf(r.l.rung, id))
    && Conservation.ExactlyCounted(r, id, Conservation.Counted(r, id))
    && ExactlyRung(r.l, id)
  }

  /** What the accounter sends of a flow completes what the map exports, when it merges to the ring's records. */
  lemma {:induction false} MergedIsExported(ringbuf: bool, es: seq<Event>, out: seq<seq<Accounter.Entry>>, id: FlowId)
    requires Exec(ringbuf, es).Some?
    requires Accumulate.MergeAll(Sent(out, id)) == Accumulate.MergeAll(Accounter.Of(Exec(ringbuf, es).value.s.ring, id))
    ensures ExportedOnce(Exec(ringbuf, es).value, out, id)
  {
    var r := Exec(ringbuf, es).value;
    RunRings(ringbuf, es);
    RungExactly(r, id);
    SentTotals(r.s.ring, r.l.rung, out, id);
    Conservation.FlowTotals(ringbuf, es, id);
    ExportedTotals(r.s, Sent(out, id), id, Conservation.Counted(r, id), RungOf(r.l.rung, id));
    Conservation.FlowPackets(ringbuf, es, id);
  }

  /**
   * For every interleaving of the CPUs, and every run of an accounter that gets the ring buffer's records in
   * order, ticks at any time and then the end of its input: for every flow the records exported (those taken
   * from the map, the live one, and those the accounter sent) add up, modulo the counter widths, to its
   * counted packets plus its packets sent through the ring buffer; both are packets that arrived, once each.
   */
  method EveryPacketExportedOnce(ghost ringbuf: bool, ghost es: seq<Event>, inputs: seq<Accounter.Input>,
                                 maxEntries: int)
    returns (out: seq<seq<Accounter.Entry>>)
    requires Exec(ringbuf, es).Some?
    requires Accounter.Close in inputs && Accounter.Records(inputs) == Exec(ringbuf, es).value.s.ring
    ensures forall id :: ExportedOnce(Exec(ringbuf, es).value, out, id)
    ensures forall i :: 0 <= i < |out| ==> Accounter.NoRepeat(out[i])
  {
    var accounter := new Accounter.Accounter(maxEntries);
    var closed := accounter.Account(inputs);
    out := accounter.out;
    forall id ensures ExportedOnce(Exec(ringbuf, es).value, out, id) {
      assert accounter.log == Accounter.Records(inputs);
      MergedIsExported(ringbuf, es, out, id);
    }
  }
}
