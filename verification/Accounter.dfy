/** The user-space cache that re-aggregates single-packet records (pkg/flow/account.go). */
module Accounter {
  import opened Words
  import opened Flows
  import opened Accumulate

  type Entry = (FlowId, FlowMetrics)

  /** What a run of the event loop meets: a record, the eviction timer, the end of the input channel. */
  datatype Input = Record(id: FlowId, metrics: FlowMetrics) | Tick | Close

  // ----- What came in and what went out, per flow -----

  function Of(es: seq<Entry>, id: FlowId): seq<FlowMetrics> {
    if es == [] then []
    else
      var rest := Of(es[..|es| - 1], id);
      if es[|es| - 1].0 == id then rest + [es[|es| - 1].1] else rest
  }

  function Flatten(batches: seq<seq<Entry>>): seq<Entry> {
    if batches == [] then [] else Flatten(batches[..|batches| - 1]) + batches[|batches| - 1]
  }

  function Cached(entries: map<FlowId, FlowMetrics>, id: FlowId): Option<FlowMetrics> {
    if id in entries then Some(entries[id]) else None
  }

  ghost predicate NoRepeat(batch: seq<Entry>) {
    forall i, j :: 0 <= i < j < |batch| ==> batch[i].0 != batch[j].0
  }

  /** The batch is the cache, in some order. */
  ghost predicate Lists(batch: seq<Entry>, entries: map<FlowId, FlowMetrics>) {
    && NoRepeat(batch)
    && |batch| == |entries|
    && (forall i :: 0 <= i < |batch| ==> batch[i].0 in entries && batch[i].1 == entries[batch[i].0])
    && (forall id :: id in entries ==> exists i :: 0 <= i < |batch| && batch[i].0 == id)
  }

  /** The loop of evict over the map. */
  method ListEntries(es: map<FlowId, FlowMetrics>) returns (records: seq<Entry>)
    ensures Lists(records, es)
  {
    records := [];
    var left := es.Keys;
    while left != {}
      invariant left <= es.Keys && |records| + |left| == |es.Keys| && NoRepeat(records)
      invariant forall i :: 0 <= i < |records| ==>
                  records[i].0 in es && records[i].0 !in left && records[i].1 == es[records[i].0]
      invariant forall id :: id in es && id !in left ==> exists i :: 0 <= i < |records| && records[i].0 == id
      decreases left
    {
      var key :| key in left;
      ghost var before := records;
      records := records + [(key, es[key])];
      left := left - {key};
      forall id | id in es && id !in left ensures exists i :: 0 <= i < |records| && records[i].0 == id {
        if id == key {
          assert records[|before|].0 == id;
        } else {
          var i :| 0 <= i < |before| && before[i].0 == id;
          assert records[i].0 == id;
        }
      }
    }
  }

  /** Merging what was sent and then what is cached gives what merging all inputs gives. */
  ghost predicate Balanced(out: seq<seq<Entry>>, entries: map<FlowId, FlowMetrics>, log: seq<Entry>) {
    forall id :: MergedBase(MergeAll(Of(Flatten(out), id)), Cached(entries, id)) == MergeAll(Of(log, id))
  }

  // ----- When what is sent -----

  /** The flows of some records. */
  ghost function FlowsOf(es: seq<Entry>): set<FlowId> {
    set e <- es :: e.0
  }

  /** The cache is full for a record of a flow it does not have, or the timer finds something in it. */
  ghost predicate Evicts(maxEntries: int, pending: seq<Entry>, x: Input) {
    match x
    case Tick => pending != []
    case Record(id, _) => id !in FlowsOf(pending) && |FlowsOf(pending)| >= maxEntries
    case Close => false
  }

  /** The records since the last batch, when `start` was there before. */
  ghost function Pending(maxEntries: int, start: seq<Entry>, inputs: seq<Input>): seq<Entry> {
    if inputs == [] then start
    else
      var before, x := Pending(maxEntries, start, inputs[..|inputs| - 1]), inputs[|inputs| - 1];
      (if Evicts(maxEntries, before, x) then [] else before) + if x.Record? then [(x.id, x.metrics)] else []
  }

  /** The records behind each batch, in order. */
  ghost function Groups(maxEntries: int, start: seq<Entry>, inputs: seq<Input>): seq<seq<Entry>> {
    if inputs == [] then []
    else
      var front := inputs[..|inputs| - 1];
      var before := Pending(maxEntries, start, front);
      Groups(maxEntries, start, front) + if Evicts(maxEntries, before, inputs[|inputs| - 1]) then [before] else []
  }

  /** The cache has exactly the flows of these records, each merged in order. */
  ghost predicate Holds(entries: map<FlowId, FlowMetrics>, es: seq<Entry>) {
    && entries.Keys == FlowsOf(es)
    && forall id :: Cached(entries, id) == MergeAll(Of(es, id))
  }

  /** The batch has exactly one entry for each flow of these records, with all its records merged in order. */
  ghost predicate Sends(batch: seq<Entry>, es: seq<Entry>) {
    && NoRepeat(batch)
    && (forall i :: 0 <= i < |batch| ==> Some(batch[i].1) == MergeAll(Of(es, batch[i].0)))
    && (forall id :: id in FlowsOf(es) <==> exists i :: 0 <= i < |batch| && batch[i].0 == id)
  }

  /** From `start` on, the batches sent are those of what was read, and the rest is pending. */
  ghost predicate Ran(maxEntries: int, start: seq<seq<Entry>>, out: seq<seq<Entry>>, was: seq<Entry>,
                      pending: seq<Entry>, read: seq<Input>) {
    && Close !in read && pending == Pending(maxEntries, was, read)
    && |out| >= |start| && out[..|start|] == start
    && AllSend(out[|start|..], Groups(maxEntries, was, read))
  }

  /** What was sent and what is cached in the end: at the close the cache has been sent too. */
  ghost predicate Served(maxEntries: int, start: seq<seq<Entry>>, out: seq<seq<Entry>>, was: seq<Entry>,
                         entries: map<FlowId, FlowMetrics>, read: seq<Input>, closed: bool) {
    && Holds(entries, Pending(maxEntries, was, read))
    && |out| >= |start| && out[..|start|] == start
    && AllSend(out[|start|..],
               Groups(maxEntries, was, read) + if closed then [Pending(maxEntries, was, read)] else [])
  }

  lemma ServedOpen(maxEntries: int, start: seq<seq<Entry>>, out: seq<seq<Entry>>, was: seq<Entry>,
                   pending: seq<Entry>, entries: map<FlowId, FlowMetrics>, read: seq<Input>)
    requires Ran(maxEntries, start, out, was, pending, read) && Holds(entries, pending)
    ensures Served(maxEntries, start, out, was, entries, read, false)
  {
    assert Groups(maxEntries, was, read) + [] == Groups(maxEntries, was, read);
  }

  /** One turn of the loop. */
  lemma RanStep(maxEntries: int, start: seq<seq<Entry>>, out: seq<seq<Entry>>, was: seq<Entry>, pending: seq<Entry>,
                read: seq<Input>, x: Input, out': seq<seq<Entry>>, pending': seq<Entry>)
    requires Ran(maxEntries, start, out, was, pending, read) && x != Close
    requires if Evicts(maxEntries, pending, x)
             then |out'| == |out| + 1 && out'[..|out|] == out && Sends(out'[|out|], pending)
             else out' == out
    requires pending' == (if Evicts(maxEntries, pending, x) then [] else pending)
                         + if x.Record? then [(x.id, x.metrics)] else []
    ensures Ran(maxEntries, start, out', was, pending', read + [x])
  {
    assert (read + [x])[..|read|] == read;
    if Evicts(maxEntries, pending, x) {
      AllSendMore(start, out, out', Groups(maxEntries, was, read), pending);
    }
  }

  ghost predicate AllSend(batches: seq<seq<Entry>>, groups: seq<seq<Entry>>) {
    |batches| == |groups| && forall j :: 0 <= j < |groups| ==> Sends(batches[j], groups[j])
  }

  /** A batch goes out at a tick that finds records, and at a record of a new flow that finds the cache full. */
  lemma SentWhen(maxEntries: int, start: seq<Entry>, inputs: seq<Input>, x: Input)
    ensures var before := Pending(maxEntries, start, inputs);
            var full := |set e <- before :: e.0| >= maxEntries;
            var isNew := x.Record? && forall i :: 0 <= i < |before| ==> before[i].0 != x.id;
            Groups(maxEntries, start, inputs + [x]) == Groups(maxEntries, start, inputs) +
              if (x.Tick? && before != []) || (isNew && full) then [before] else []
  {
    var before := Pending(maxEntries, start, inputs);
    assert (inputs + [x])[..|inputs|] == inputs;
    if x.Record? {
      assert x.id !in FlowsOf(before) <==> forall i :: 0 <= i < |before| ==> before[i].0 != x.id;
    }
  }

  /** Right after a batch only the record that caused it, if any, is pending. */
  lemma PendingAfter(maxEntries: int, start: seq<Entry>, inputs: seq<Input>, x: Input)
    ensures Pending(maxEntries, start, inputs + [Tick]) == []
    ensures x.Record? && Groups(maxEntries, start, inputs + [x]) != Groups(maxEntries, start, inputs) ==>
              Pending(maxEntries, start, inputs + [x]) == [(x.id, x.metrics)]
  {
    assert (inputs + [Tick])[..|inputs|] == inputs && (inputs + [x])[..|inputs|] == inputs;
  }

  /** The groups and what is pending are the records, each once, in order. */
  lemma {:induction false} GroupsPartition(maxEntries: int, start: seq<Entry>, inputs: seq<Input>)
    requires Close !in inputs
    ensures Flatten(Groups(maxEntries, start, inputs)) + Pending(maxEntries, start, inputs) == start + Records(inputs)
  {
    if inputs == [] {
      assert Flatten([]) + start == start + [];
    } else {
      var front, x := inputs[..|inputs| - 1], inputs[|inputs| - 1];
      GroupsPartition(maxEntries, start, front);
      PartitionStep(maxEntries, start, front, x, inputs);
    }
  }

  lemma PartitionStep(maxEntries: int, start: seq<Entry>, front: seq<Input>, x: Input, inputs: seq<Input>)
    requires inputs != [] && inputs[..|inputs| - 1] == front && inputs[|inputs| - 1] == x && Close !in inputs
    requires Flatten(Groups(maxEntries, start, front)) + Pending(maxEntries, start, front) == start + Records(front)
    ensures Flatten(Groups(maxEntries, start, inputs)) + Pending(maxEntries, start, inputs) == start + Records(inputs)
  {
    var before, gs := Pending(maxEntries, start, front), Groups(maxEntries, start, front);
    var more: seq<Entry> := if x.Record? then [(x.id, x.metrics)] else [];
    assert Close !in front;
    RecordsLast(inputs, front, x);
    Regroup(start, Records(front), more);
    if Evicts(maxEntries, before, x) {
      FlattenMore(gs, before);
      assert [] + more == more;
    } else {
      assert gs + [] == gs;
      Regroup(Flatten(gs), before, more);
    }
  }

  lemma RecordsLast(inputs: seq<Input>, front: seq<Input>, x: Input)
    requires inputs != [] && inputs[..|inputs| - 1] == front && inputs[|inputs| - 1] == x && Close !in front
    ensures Records(inputs) == Records(front) + if x.Record? then [(x.id, x.metrics)] else []
  {
  }

  lemma FlattenMore(gs: seq<seq<Entry>>, g: seq<Entry>)
    ensures Flatten(gs + [g]) == Flatten(gs) + g
  {
    assert (gs + [g])[..|gs|] == gs;
  }

  lemma Regroup(a: seq<Entry>, b: seq<Entry>, c: seq<Entry>)
    ensures a + (b + c) == (a + b) + c
  {
  }

  lemma ListsSends(batch: seq<Entry>, entries: map<FlowId, FlowMetrics>, es: seq<Entry>)
    requires Lists(batch, entries) && Holds(entries, es)
    ensures Sends(batch, es)
  {
    forall i | 0 <= i < |batch| ensures Some(batch[i].1) == MergeAll(Of(es, batch[i].0)) {
      assert Cached(entries, batch[i].0) == MergeAll(Of(es, batch[i].0));
    }
    forall id ensures id in FlowsOf(es) <==> exists i :: 0 <= i < |batch| && batch[i].0 == id {
      assert id in FlowsOf(es) <==> id in entries;
    }
  }

  lemma HoldsEmpty()
    ensures Holds(map[], [])
  {
    assert forall id :: Of([], id) == [];
  }

  lemma HoldsStep(entries: map<FlowId, FlowMetrics>, es: seq<Entry>, id: FlowId, m: FlowMetrics)
    requires Holds(entries, es)
    ensures Holds(entries[id := if id in entries then Merged(entries[id], m) else m], es + [(id, m)])
  {
    var entries' := entries[id := if id in entries then Merged(entries[id], m) else m];
    assert FlowsOf(es + [(id, m)]) == FlowsOf(es) + {id};
    forall x ensures Cached(entries', x) == MergeAll(Of(es + [(id, m)], x)) {
      LogStep(es, id, m, x);
      assert Cached(entries, x) == MergeAll(Of(es, x));
    }
  }

  /** What every turn of the loop keeps. */
  ghost predicate Sound(maxEntries: int, entries: map<FlowId, FlowMetrics>, out: seq<seq<Entry>>, log: seq<Entry>,
                        pending: seq<Entry>) {
    && Balanced(out, entries, log)
    && Holds(entries, pending)
    && |entries| <= Max(1, maxEntries)
    && forall i :: 0 <= i < |out| ==> NoRepeat(out[i])
  }

  lemma FlushSound(maxEntries: int, entries: map<FlowId, FlowMetrics>, out: seq<seq<Entry>>, log: seq<Entry>,
                   pending: seq<Entry>, batch: seq<Entry>)
    requires Sound(maxEntries, entries, out, log, pending) && Lists(batch, entries)
    ensures Sound(maxEntries, map[], out + [batch], log, []) && Sends(batch, pending)
  {
    ListsSends(batch, entries, pending);
    HoldsEmpty();
    FlushBalances(out, batch, entries, log);
  }

  lemma CloseMerges(maxEntries: int, entries: map<FlowId, FlowMetrics>, out: seq<seq<Entry>>, log: seq<Entry>,
                    pending: seq<Entry>, batch: seq<Entry>)
    requires Sound(maxEntries, entries, out, log, pending) && Lists(batch, entries)
    ensures forall id :: MergeAll(Of(Flatten(out + [batch]), id)) == MergeAll(Of(log, id))
    ensures Sends(batch, pending) && forall i :: 0 <= i < |out| ==> NoRepeat((out + [batch])[i])
  {
    ListsSends(batch, entries, pending);
    forall id ensures MergeAll(Of(Flatten(out + [batch]), id)) == MergeAll(Of(log, id)) {
      BatchMerges(out, batch, entries, id);
    }
  }

  lemma RecordSound(maxEntries: int, entries: map<FlowId, FlowMetrics>, out: seq<seq<Entry>>, log: seq<Entry>,
                    pending: seq<Entry>, id: FlowId, m: FlowMetrics)
    requires Sound(maxEntries, entries, out, log, pending)
    requires id in entries || |entries| < maxEntries || entries == map[]
    ensures var entries' := entries[id := if id in entries then Merged(entries[id], m) else m];
            Sound(maxEntries, entries', out, log + [(id, m)], pending + [(id, m)])
  {
    var entries' := entries[id := if id in entries then Merged(entries[id], m) else m];
    HoldsStep(entries, pending, id, m);
    if id in entries {
      MergeBalances(out, entries, log, id, m);
      assert entries'.Keys == entries.Keys;
    } else {
      StoreBalances(out, entries, log, id, m);
      assert entries'.Keys == entries.Keys + {id};
    }
  }

  class Accounter {
    const maxEntries: int
    var entries: map<FlowId, FlowMetrics>
    var out: seq<seq<Entry>>
    ghost var log: seq<Entry>
    ghost var pending: seq<Entry>

    ghost predicate Valid()
      reads this
    {
      Sound(maxEntries, entries, out, log, pending)
    }

    constructor (maxEntries: int)
      ensures Valid() && this.maxEntries == maxEntries && entries == map[] && out == [] && log == pending == []
    {
      this.maxEntries := maxEntries;
      entries, out, log, pending := map[], [], [], [];
      HoldsEmpty();
    }

    /** evict: the map is listed in whatever order iteration gives, and sent as one batch. */
    method Evict(es: map<FlowId, FlowMetrics>)
      modifies this`out
      ensures |out| == |old(out)| + 1 && out[..|old(out)|] == old(out) && Lists(out[|old(out)|], es)
    {
      var records := ListEntries(es);
      out := out + [records];
    }

    /** The step sends what was pending as one batch, or nothing. */
    twostate predicate SentIf(evicts: bool)
      reads this
    {
      if !evicts then out == old(out)
      else |out| == |old(out)| + 1 && out[..|old(out)|] == old(out) && Sends(out[|old(out)|], old(pending))
    }

    /** Sending the cache and starting a new one. */
    method Flush()
      requires Valid()
      modifies this`out, this`entries, this`pending
      ensures Valid() && entries == map[] && pending == []
      ensures |out| == |old(out)| + 1 && out[..|old(out)|] == old(out)
      ensures Lists(out[|old(out)|], old(entries)) && Sends(out[|old(out)|], old(pending))
    {
      var evicting := entries;
      entries := map[];
      Evict(evicting);
      assert out == old(out) + [out[|old(out)|]];
      FlushSound(maxEntries, evicting, old(out), log, pending, out[|old(out)|]);
      pending := [];
    }

    method OnTick()
      requires Valid()
      modifies this`out, this`entries, this`pending
      ensures Valid() && entries == map[] && pending == []
      ensures SentIf(old(pending) != []) && (old(pending) == [] <==> old(entries) == map[])
    {
      assert entries.Keys == FlowsOf(pending);
      assert pending != [] ==> pending[0].0 in FlowsOf(pending);
      if |entries| == 0 {
        return;
      }
      Flush();
    }

    method OnRecord(id: FlowId, metrics: FlowMetrics)
      requires Valid()
      modifies this
      ensures Valid() && log == old(log) + [(id, metrics)] && id in entries
      ensures out != old(out) <==> id !in old(entries) && |old(entries)| >= maxEntries
      ensures var evicts := Evicts(maxEntries, old(pending), Record(id, metrics));
              SentIf(evicts) && pending == (if evicts then [] else old(pending)) + [(id, metrics)]
    {
      assert entries.Keys == FlowsOf(pending);
      if id in entries {
        RecordSound(maxEntries, entries, out, log, pending, id, metrics);
        entries := entries[id := Merged(entries[id], metrics)];
      } else {
        if |entries| >= maxEntries {
          Flush();
        }
        RecordSound(maxEntries, entries, out, log, pending, id, metrics);
        entries := entries[id := metrics];
      }
      log, pending := log + [(id, metrics)], pending + [(id, metrics)];
    }

    /** The cache is sent but not replaced. */
    method OnClose()
      requires Valid()
      modifies this`out
      ensures forall id :: MergeAll(Of(Flatten(out), id)) == MergeAll(Of(log, id))
      ensures forall i :: 0 <= i < |out| ==> NoRepeat(out[i])
      ensures |out| == |old(out)| + 1 && out[..|old(out)|] == old(out) && Sends(out[|old(out)|], pending)
    {
      Evict(entries);
      assert out == old(out) + [out[|old(out)|]];
      CloseMerges(maxEntries, entries, old(out), log, pending, out[|old(out)|]);
    }

    /**
     * The event loop, until the input is closed or the inputs at hand are used up: the batches sent are those of
     * `Groups`, after them at the close what is pending, and the cache holds what is pending.
     */
    method Account(inputs: seq<Input>) returns (closed: bool)
      requires Valid()
      modifies this
      ensures closed <==> Close in inputs
      ensures log == old(log) + Records(inputs)
      ensures !closed ==> Valid()
      ensures closed ==> forall id :: MergeAll(Of(Flatten(out), id)) == MergeAll(Of(log, id))
      ensures |entries| <= Max(1, maxEntries)
      ensures forall i :: 0 <= i < |out| ==> NoRepeat(out[i])
      ensures Served(maxEntries, old(out), out, old(pending), entries, BeforeClose(inputs), closed)
    {
      var i := 0;
      while i < |inputs|
        invariant 0 <= i <= |inputs| && Valid() && log == old(log) + Records(inputs[..i])
        invariant Ran(maxEntries, old(out), out, old(pending), pending, inputs[..i])
      {
        if inputs[i] == Close {
          CloseAt(inputs, i);
          FinishRun(inputs[..i], old(out), old(pending));
          return true;
        }
        assert inputs[..i + 1] == inputs[..i] + [inputs[i]];
        GoOn(inputs[i], inputs[..i], old(out), old(pending), old(log));
        i := i + 1;
      }
      assert inputs[..|inputs|] == inputs;
      NoClose(inputs);
      ServedOpen(maxEntries, old(out), out, old(pending), pending, entries, inputs);
      return false;
    }

    /** A turn after these inputs. */
    method GoOn(x: Input, ghost read: seq<Input>, ghost start: seq<seq<Entry>>, ghost was: seq<Entry>,
                ghost first: seq<Entry>)
      requires Valid() && x != Close && Ran(maxEntries, start, out, was, pending, read)
      requires log == first + Records(read)
      modifies this
      ensures Valid() && log == first + Records(read + [x])
      ensures Ran(maxEntries, start, out, was, pending, read + [x])
    {
      OnInput(x);
      assert (read + [x])[..|read|] == read;
      RecordsLast(read + [x], read, x);
      Regroup(first, Records(read), if x.Record? then [(x.id, x.metrics)] else []);
      RanStep(maxEntries, start, old(out), was, old(pending), read, x, out, pending);
    }

    /** The last turn after these inputs. */
    method FinishRun(ghost read: seq<Input>, ghost start: seq<seq<Entry>>, ghost was: seq<Entry>)
      requires Valid() && Ran(maxEntries, start, out, was, pending, read)
      modifies this`out
      ensures forall id :: MergeAll(Of(Flatten(out), id)) == MergeAll(Of(log, id))
      ensures forall i :: 0 <= i < |out| ==> NoRepeat(out[i])
      ensures Served(maxEntries, start, out, was, entries, read, true)
    {
      OnClose();
      AllSendMore(start, old(out), out, Groups(maxEntries, was, read), pending);
    }

    /** One turn of the loop, other than the last. */
    method OnInput(x: Input)
      requires Valid() && x != Close
      modifies this
      ensures Valid() && log == old(log) + if x.Record? then [(x.id, x.metrics)] else []
      ensures var evicts := Evicts(maxEntries, old(pending), x);
              && SentIf(evicts)
              && pending == (if evicts then [] else old(pending)) + if x.Record? then [(x.id, x.metrics)] else []
    {
      match x {
        case Tick =>
          OnTick();
        case Record(id, metrics) =>
          OnRecord(id, metrics);
      }
    }
  }

  /** One more batch for one more group. */
  lemma AllSendMore(start: seq<seq<Entry>>, sent: seq<seq<Entry>>, out: seq<seq<Entry>>, groups: seq<seq<Entry>>,
                    group: seq<Entry>)
    requires |start| <= |sent| && |out| == |sent| + 1 && out[..|sent|] == sent && sent[..|start|] == start
    requires AllSend(sent[|start|..], groups) && Sends(out[|sent|], group)
    ensures out[..|start|] == start && AllSend(out[|start|..], groups + [group])
  {
    assert out[..|start|] == out[..|sent|][..|start|];
    assert forall j :: 0 <= j < |groups| ==> out[|start|..][j] == out[..|sent|][|start| + j] == sent[|start|..][j];
  }

  /** The inputs that the loop reads before it ends. */
  function BeforeClose(inputs: seq<Input>): seq<Input> {
    if Close !in inputs then inputs else BeforeClose(inputs[..|inputs| - 1])
  }

  lemma {:induction false} CloseAt(inputs: seq<Input>, i: nat)
    requires i < |inputs| && inputs[i] == Close && Close !in inputs[..i]
    ensures Close in inputs && BeforeClose(inputs) == inputs[..i] && Records(inputs) == Records(inputs[..i])
    decreases |inputs|
  {
    var front := inputs[..|inputs| - 1];
    RecordsBeforeClose(inputs, i);
    assert inputs[i] in inputs;
    if i < |inputs| - 1 {
      assert front[i] == Close && front[..i] == inputs[..i];
      CloseAt(front, i);
    } else {
      assert front == inputs[..i];
    }
  }

  lemma NoClose(inputs: seq<Input>)
    requires Close !in inputs
    ensures BeforeClose(inputs) == inputs
  {
  }

  /** The records up to the close. */
  function Records(inputs: seq<Input>): seq<Entry> {
    if inputs == [] then []
    else
      var front, last := inputs[..|inputs| - 1], inputs[|inputs| - 1];
      if Close in front || !last.Record? then Records(front) else Records(front) + [(last.id, last.metrics)]
  }

  lemma {:induction false} RecordsBeforeClose(inputs: seq<Input>, i: nat)
    requires i < |inputs| && inputs[i] == Close
    ensures Records(inputs) == Records(inputs[..i])
    decreases |inputs|
  {
    var front := inputs[..|inputs| - 1];
    if i < |inputs| - 1 {
      assert front[i] == Close;
      RecordsBeforeClose(front, i);
      assert front[..i] == inputs[..i];
    }
  }

  // ----- Why the balance is kept -----

  lemma {:induction false} OfConcat(a: seq<Entry>, b: seq<Entry>, id: FlowId)
    ensures Of(a + b, id) == Of(a, id) + Of(b, id)
  {
    if b == [] {
      assert a + b == a;
    } else {
      assert (a + b)[..|a + b| - 1] == a + b[..|b| - 1];
      OfConcat(a, b[..|b| - 1], id);
    }
  }

  lemma {:induction false} OfMissing(es: seq<Entry>, id: FlowId)
    requires forall i :: 0 <= i < |es| ==> es[i].0 != id
    ensures Of(es, id) == []
  {
    if es != [] {
      OfMissing(es[..|es| - 1], id);
    }
  }

  lemma {:induction false} OfOnly(es: seq<Entry>, id: FlowId, k: nat)
    requires k < |es| && NoRepeat(es) && es[k].0 == id
    ensures Of(es, id) == [es[k].1]
  {
    var n := |es| - 1;
    if k == n {
      OfMissing(es[..n], id);
    } else {
      OfOnly(es[..n], id, k);
    }
  }

  lemma BatchMerges(out: seq<seq<Entry>>, batch: seq<Entry>, entries: map<FlowId, FlowMetrics>, id: FlowId)
    requires Lists(batch, entries)
    ensures MergeAll(Of(Flatten(out + [batch]), id)) == MergedBase(MergeAll(Of(Flatten(out), id)), Cached(entries, id))
  {
    assert (out + [batch])[..|out|] == out;
    OfConcat(Flatten(out), batch, id);
    MergeAllConcat(Of(Flatten(out), id), Of(batch, id));
    if id in entries {
      var k :| 0 <= k < |batch| && batch[k].0 == id;
      OfOnly(batch, id, k);
      assert [batch[k].1][..0] == [];
    } else {
      OfMissing(batch, id);
    }
  }

  lemma FlushBalances(out: seq<seq<Entry>>, batch: seq<Entry>, entries: map<FlowId, FlowMetrics>, log: seq<Entry>)
    requires Balanced(out, entries, log) && Lists(batch, entries)
    ensures Balanced(out + [batch], map[], log)
  {
    forall id ensures MergedBase(MergeAll(Of(Flatten(out + [batch]), id)), Cached(map[], id)) == MergeAll(Of(log, id)) {
      BatchMerges(out, batch, entries, id);
    }
  }

  lemma LogStep(log: seq<Entry>, id: FlowId, m: FlowMetrics, other: FlowId)
    ensures MergeAll(Of(log + [(id, m)], other))
            == if other == id then MergedBase(MergeAll(Of(log, id)), Some(m)) else MergeAll(Of(log, other))
  {
    assert (log + [(id, m)])[..|log|] == log;
    assert (Of(log, id) + [m])[..|Of(log, id)|] == Of(log, id);
  }

  lemma MergeBalances(out: seq<seq<Entry>>, entries: map<FlowId, FlowMetrics>, log: seq<Entry>, id: FlowId,
                      m: FlowMetrics)
    requires Balanced(out, entries, log) && id in entries
    ensures Balanced(out, entries[id := Merged(entries[id], m)], log + [(id, m)])
  {
    var entries', log' := entries[id := Merged(entries[id], m)], log + [(id, m)];
    forall x ensures MergedBase(MergeAll(Of(Flatten(out), x)), Cached(entries', x)) == MergeAll(Of(log', x)) {
      LogStep(log, id, m, x);
      MergedBaseMonoid(MergeAll(Of(Flatten(out), x)), Cached(entries, x), Some(m));
    }
  }

  lemma StoreBalances(out: seq<seq<Entry>>, entries: map<FlowId, FlowMetrics>, log: seq<Entry>, id: FlowId,
                      m: FlowMetrics)
    requires Balanced(out, entries, log) && id !in entries
    ensures Balanced(out, entries[id := m], log + [(id, m)])
  {
    var entries', log' := entries[id := m], log + [(id, m)];
    forall x ensures MergedBase(MergeAll(Of(Flatten(out), x)), Cached(entries', x)) == MergeAll(Of(log', x)) {
      LogStep(log, id, m, x);
    }
  }

  /** Equal merges have equal totals: nothing that came in is lost or counted twice. */
  lemma {:induction false} TotalsKept(sent: seq<FlowMetrics>, cached: seq<FlowMetrics>, inputs: seq<FlowMetrics>)
    requires MergedBase(MergeAll(sent), MergeAll(cached)) == MergeAll(inputs)
    ensures Wrap64(Accumulate.SumBytes(sent + cached)) == Wrap64(Accumulate.SumBytes(inputs))
    ensures Wrap32(Accumulate.SumPackets(sent + cached)) == Wrap32(Accumulate.SumPackets(inputs))
    ensures AllFlags(sent + cached) == AllFlags(inputs)
  {
    MergeAllConcat(sent, cached);
    if inputs != [] {
      MergeAllBytes(inputs);
      MergeAllPackets(inputs);
      MergeAllFlags(inputs);
      MergeAllBytes(sent + cached);
      MergeAllPackets(sent + cached);
      MergeAllFlags(sent + cached);
    }
  }
}
