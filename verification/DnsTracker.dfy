/** Matching DNS responses to queries (bpf/dns_tracker.h). */
module DnsTracker {
  import opened Words
  import opened Flows

  const EEXIST: int := 17
  const ENOENT: int := 2
  const E2BIG: int := 7

  datatype DnsKey = DnsKey(srcPort: u16, dstPort: u16, srcIp: Bytes, dstIp: Bytes, id: u16, protocol: u8)

  /** fill_dns_id. */
  function FillDnsId(id: FlowId, dnsId: u16, reverse: bool): DnsKey {
    if reverse then DnsKey(id.dstPort, id.srcPort, id.dstIp, id.srcIp, dnsId, id.transportProtocol)
    else DnsKey(id.srcPort, id.dstPort, id.srcIp, id.dstIp, dnsId, id.transportProtocol)
  }

  /** A response finds the entry of a query exactly when its addresses and ports are mirrored and the ids agree. */
  lemma MirroredKeys(query: FlowId, queryId: u16, response: FlowId, responseId: u16)
    ensures FillDnsId(query, queryId, false) == FillDnsId(response, responseId, true)
            <==> && query.srcIp == response.dstIp && query.dstIp == response.srcIp
                 && query.srcPort == response.dstPort && query.dstPort == response.srcPort
                 && query.transportProtocol == response.transportProtocol && queryId == responseId
  {
  }

  /**
   * What happened to the table. A query may be refused by a full table. A response is a lookup and a delete:
   * two events when other CPUs use the table in between, one (`Response`) when they do not.
   */
  datatype Event =
    | Query(key: DnsKey, ts: u64, refused: bool)
    | Response(key: DnsKey, ts: u64)
    | Lookup(key: DnsKey, ts: u64)
    | Delete(key: DnsKey)
    | Purge(key: DnsKey)

  predicate Opens(e: Event, key: DnsKey) { e.Query? && e.key == key && !e.refused }

  predicate Closes(e: Event, key: DnsKey) { (e.Response? || e.Delete? || e.Purge?) && e.key == key }

  /** A response reads the table in this event. */
  predicate Asks(e: Event) { e.Response? || e.Lookup? }

  /** The query at i is unanswered and not purged after n events. */
  ghost predicate Open(log: seq<Event>, n: nat, key: DnsKey, i: int)
    requires n <= |log|
  {
    0 <= i < n && Opens(log[i], key) && forall j :: i < j < n ==> !Closes(log[j], key)
  }

  /** ... and it is the oldest such query. */
  ghost predicate OldestOpen(log: seq<Event>, n: nat, key: DnsKey, i: int)
    requires n <= |log|
  {
    Open(log, n, key, i) && forall k :: 0 <= k < i ==> !Open(log, n, key, k)
  }

  /** The table holds, for every key, the time of its oldest open query. */
  ghost predicate Reflects(flows: map<DnsKey, u64>, log: seq<Event>) {
    && (forall key :: key in flows ==> exists i :: OldestOpen(log, |log|, key, i) && flows[key] == log[i].ts)
    && (forall key, i :: Open(log, |log|, key, i) ==> key in flows)
  }

  /** A DNS header as the hook sees it; `full` says that the table has no room for another query. */
  datatype Dns = Dns(id: FlowId, dnsId: u16, flags: u16, ts: u64, full: bool)

  /** `Looks` and `Deletes` are the two halves of a response with other inputs in between. */
  datatype Input = OnWire(p: Dns) | Looks(p: Dns) | Deletes(p: Dns) | Purged(key: DnsKey)

  datatype Report = Report(ret: int, latency: u64)

  predicate IsResponse(p: Dns) {
    p.flags >= 0x8000
  }

  function EventOf(p: Dns, known: bool): Event {
    if IsResponse(p) then Response(FillDnsId(p.id, p.dnsId, true), p.ts)
    else Query(FillDnsId(p.id, p.dnsId, false), p.ts, p.full && !known)
  }

  ghost predicate HasOpen(log: seq<Event>, n: nat, key: DnsKey)
    requires n <= |log|
  {
    exists i :: Open(log, n, key, i)
  }

  /** Event j tells of this input; a query is refused iff the table is full and has no open query of its key. */
  ghost predicate Logs(log: seq<Event>, j: nat, input: Input) {
    && j < |log|
    && match input
       case OnWire(p) => log[j] == EventOf(p, HasOpen(log, j, FillDnsId(p.id, p.dnsId, false)))
       case Looks(p) => log[j] == Lookup(FillDnsId(p.id, p.dnsId, true), p.ts)
       case Deletes(p) => log[j] == Delete(FillDnsId(p.id, p.dnsId, true))
       case Purged(key) => log[j] == Purge(key)
  }

  /** The report of the response at j: the time since the query it is matched with, or ENOENT iff there is none. */
  ghost predicate Answered(log: seq<Event>, j: nat, r: Report) {
    && j < |log| && Asks(log[j])
    && if r.ret == 0 then exists i :: Serves(log, i, j) && r.latency == Wrap64(log[j].ts + U64_LIMIT - log[i].ts)
       else r == Report(2, 0) && forall i :: !Serves(log, i, j)
  }

  class Tracker {
    var flows: map<DnsKey, u64>
    ghost var log: seq<Event>

    ghost predicate Valid()
      reads this
    {
      Reflects(flows, log)
    }

    constructor ()
      ensures Valid() && log == [] && flows == map[]
    {
      flows, log := map[], [];
    }

    /** The query branch: insert if absent; the result is that of the insert. */
    method OnQuery(id: FlowId, dnsId: u16, ts: u64, full: bool, errno: int) returns (ret: int)
      requires Valid() && errno > 0 && errno != EEXIST
      modifies this
      ensures Valid()
      ensures var key := FillDnsId(id, dnsId, false);
              log == old(log) + [Query(key, ts, full && key !in old(flows))]
      ensures ret == if FillDnsId(id, dnsId, false) in old(flows) then -EEXIST else if full then -errno else 0
    {
      var key := FillDnsId(id, dnsId, false);
      if key in flows {
        ret := -EEXIST;
        KeepsTable(flows, log, Query(key, ts, false), log + [Query(key, ts, false)]);
        log := log + [Query(key, ts, false)];
      } else if full {
        ret := -errno;
        KeepsTable(flows, log, Query(key, ts, true), log + [Query(key, ts, true)]);
        log := log + [Query(key, ts, true)];
      } else {
        ret := 0;
        QueryAdds(flows, log, Query(key, ts, false), log + [Query(key, ts, false)]);
        flows := flows[key := ts];
        log := log + [Query(key, ts, false)];
      }
    }

    /** The response branch. */
    method OnResponse(id: FlowId, dnsId: u16, ts: u64) returns (ret: int, latency: u64)
      requires Valid()
      modifies this
      ensures Valid() && log == old(log) + [Response(FillDnsId(id, dnsId, true), ts)]
      ensures ret == 0 || ret == ENOENT
      ensures ret == 0 ==> exists i :: OldestOpen(old(log), |old(log)|, FillDnsId(id, dnsId, true), i)
                                       && latency == Wrap64(ts + U64_LIMIT - old(log)[i].ts)
      ensures ret == ENOENT ==> latency == 0 && forall i :: !Open(old(log), |old(log)|, FillDnsId(id, dnsId, true), i)
    {
      var key := FillDnsId(id, dnsId, true);
      ret, latency := 0, 0;
      CloseRemoves(flows, log, Response(key, ts), log + [Response(key, ts)]);
      if key in flows {
        latency := Wrap64(ts + U64_LIMIT - flows[key]);
        flows := flows - {key};
      } else {
        ret := ENOENT;
        assert flows - {key} == flows;
      }
      log := log + [Response(key, ts)];
    }

    /** The lookup of a response, when the delete comes later. */
    method OnLookup(id: FlowId, dnsId: u16, ts: u64) returns (r: Report)
      requires Valid()
      modifies this`log
      ensures Valid() && log == old(log) + [Lookup(FillDnsId(id, dnsId, true), ts)]
      ensures Answered(log, |old(log)|, r)
    {
      var key := FillDnsId(id, dnsId, true);
      ghost var before := log;
      KeepsTable(flows, log, Lookup(key, ts), log + [Lookup(key, ts)]);
      if key in flows {
        r := Report(0, Wrap64(ts + U64_LIMIT - flows[key]));
      } else {
        r := Report(ENOENT, 0);
      }
      log := log + [Lookup(key, ts)];
      AnswerInLog(before, log, r);
    }

    /** Its delete, whatever is in the table by then. */
    method OnDelete(key: DnsKey)
      requires Valid()
      modifies this
      ensures Valid() && log == old(log) + [Delete(key)] && flows == old(flows) - {key}
    {
      CloseRemoves(flows, log, Delete(key), log + [Delete(key)]);
      flows := flows - {key};
      log := log + [Delete(key)];
    }

    /** The two branches of track_dns_packet: the QR flag 0x8000 tells a response. */
    method Track(p: Dns) returns (r: Report)
      requires Valid()
      modifies this
      ensures Valid() && log == old(log) + [EventOf(p, HasOpen(old(log), |old(log)|, FillDnsId(p.id, p.dnsId, false)))]
      ensures !IsResponse(p) ==>
                var open := HasOpen(old(log), |old(log)|, FillDnsId(p.id, p.dnsId, false));
                r == Report(if open then -17 else if p.full then -7 else 0, 0)
      ensures IsResponse(p) ==> Answered(log, |old(log)|, r)
    {
      ghost var before := log;
      assert FillDnsId(p.id, p.dnsId, false) in flows <==> HasOpen(log, |log|, FillDnsId(p.id, p.dnsId, false));
      if p.flags / 0x8000 % 2 == 0 {
        var ret := OnQuery(p.id, p.dnsId, p.ts, p.full, E2BIG);
        r := Report(ret, 0);
      } else {
        var ret, latency := OnResponse(p.id, p.dnsId, p.ts);
        r := Report(ret, latency);
        AnswerInLog(before, log, r);
      }
    }

    method Step(input: Input) returns (r: Report)
      requires Valid()
      modifies this
      ensures Valid() && |log| == |old(log)| + 1 && old(log) <= log && Logs(log, |old(log)|, input)
      ensures Asks(log[|old(log)|]) ==> Answered(log, |old(log)|, r)
    {
      ghost var before := log;
      r := Report(0, 0);
      match input {
        case OnWire(p) =>
          r := Track(p);
        case Looks(p) =>
          r := OnLookup(p.id, p.dnsId, p.ts);
        case Deletes(p) =>
          OnDelete(FillDnsId(p.id, p.dnsId, true));
        case Purged(key) =>
          OnPurge(key);
      }
      LogsKept(before, log, |before|, input);
    }

    /**
     * Any run of packets, halves of responses and purges: the log is the run, and every response reports
     * the time since the query it is matched with, or that there is none.
     */
    method Run(inputs: seq<Input>) returns (reports: seq<Report>)
      requires Valid()
      modifies this
      ensures Valid() && |reports| == |inputs| && |log| == |old(log)| + |inputs| && old(log) <= log
      ensures forall j :: 0 <= j < |inputs| ==> Logs(log, |old(log)| + j, inputs[j])
      ensures forall j :: 0 <= j < |inputs| && Asks(log[|old(log)| + j]) ==> Answered(log, |old(log)| + j, reports[j])
    {
      reports := [];
      ghost var n := |log|;
      for i := 0 to |inputs|
        invariant Valid() && |reports| == i && |log| == n + i && old(log) <= log
        invariant forall j :: 0 <= j < i ==> Logs(log, n + j, inputs[j])
        invariant forall j :: 0 <= j < i && Asks(log[n + j]) ==> Answered(log, n + j, reports[j])
      {
        ghost var before := log;
        var r := Step(inputs[i]);
        forall j | 0 <= j < i ensures Logs(log, n + j, inputs[j]) {
          LogsKept(before, log, n + j, inputs[j]);
        }
        forall j | 0 <= j < i && Asks(log[n + j]) ensures Answered(log, n + j, reports[j]) {
          AnswerKept(before, log, n + j, reports[j]);
        }
        reports := reports + [r];
      }
    }

    /** User space removes a stale entry. */
    method OnPurge(key: DnsKey)
      requires Valid()
      modifies this
      ensures Valid() && log == old(log) + [Purge(key)] && flows == old(flows) - {key}
    {
      CloseRemoves(flows, log, Purge(key), log + [Purge(key)]);
      flows := flows - {key};
      log := log + [Purge(key)];
    }
  }

  // ----- Why the table reflects the log -----

  lemma OpenBefore(log: seq<Event>, e: Event, log': seq<Event>, key: DnsKey, i: int)
    requires log' == log + [e]
    ensures i < |log| ==> (Open(log', |log'|, key, i) <==> Open(log, |log|, key, i) && !Closes(e, key))
    ensures i == |log| ==> (Open(log', |log'|, key, i) <==> Opens(e, key))
  {
    assert forall j :: 0 <= j < |log| ==> log'[j] == log[j];
    if 0 <= i < |log| && Open(log', |log'|, key, i) {
      assert !Closes(log'[|log|], key);
      forall j | i < j < |log| ensures !Closes(log[j], key) {
        assert !Closes(log'[j], key);
      }
    }
  }

  lemma OldestKept(log: seq<Event>, e: Event, log': seq<Event>, key: DnsKey, i: int)
    requires log' == log + [e] && OldestOpen(log, |log|, key, i) && !Closes(e, key)
    ensures OldestOpen(log', |log'|, key, i) && log'[i] == log[i]
  {
    OpenBefore(log, e, log', key, i);
    forall k | 0 <= k < i ensures !Open(log', |log'|, key, k) {
      OpenBefore(log, e, log', key, k);
    }
  }

  /** An event that closes no key, and opens none but one in the table, leaves the table right. */
  lemma KeepsTable(flows: map<DnsKey, u64>, log: seq<Event>, e: Event, log': seq<Event>)
    requires Reflects(flows, log) && log' == log + [e]
    requires !Closes(e, e.key) && (Opens(e, e.key) ==> e.key in flows)
    ensures Reflects(flows, log')
  {
    forall key | key in flows ensures exists i :: OldestOpen(log', |log'|, key, i) && flows[key] == log'[i].ts {
      var i :| OldestOpen(log, |log|, key, i) && flows[key] == log[i].ts;
      OldestKept(log, e, log', key, i);
    }
    forall key, i | Open(log', |log'|, key, i) ensures key in flows {
      OpenBefore(log, e, log', key, i);
    }
  }

  lemma QueryAdds(flows: map<DnsKey, u64>, log: seq<Event>, e: Event, log': seq<Event>)
    requires Reflects(flows, log) && log' == log + [e] && e.Query? && !e.refused && e.key !in flows
    ensures Reflects(flows[e.key := e.ts], log')
  {
    var flows' := flows[e.key := e.ts];
    forall key | key in flows' ensures exists i :: OldestOpen(log', |log'|, key, i) && flows'[key] == log'[i].ts {
      if key == e.key {
        OpenBefore(log, e, log', key, |log|);
        forall k | 0 <= k < |log| ensures !Open(log', |log'|, key, k) {
          OpenBefore(log, e, log', key, k);
        }
        assert OldestOpen(log', |log'|, key, |log|);
      } else {
        var i :| OldestOpen(log, |log|, key, i) && flows[key] == log[i].ts;
        OldestKept(log, e, log', key, i);
      }
    }
    forall key, i | Open(log', |log'|, key, i) ensures key in flows' {
      OpenBefore(log, e, log', key, i);
    }
  }

  lemma CloseRemoves(flows: map<DnsKey, u64>, log: seq<Event>, e: Event, log': seq<Event>)
    requires Reflects(flows, log) && log' == log + [e] && Closes(e, e.key)
    ensures Reflects(flows - {e.key}, log')
  {
    var flows' := flows - {e.key};
    forall key | key in flows' ensures exists i :: OldestOpen(log', |log'|, key, i) && flows'[key] == log'[i].ts {
      var i :| OldestOpen(log, |log|, key, i) && flows[key] == log[i].ts;
      OldestKept(log, e, log', key, i);
    }
    forall key, i | Open(log', |log'|, key, i) ensures key in flows' {
      OpenBefore(log, e, log', key, i);
    }
  }

  // ----- Properties of every run -----

  /** What is open after the first n events depends on them only. */
  lemma OpenInPrefix(before: seq<Event>, log: seq<Event>, n: nat, key: DnsKey, i: int)
    requires before <= log && n <= |before|
    ensures Open(log, n, key, i) <==> Open(before, n, key, i)
    ensures OldestOpen(log, n, key, i) <==> OldestOpen(before, n, key, i)
  {
    assert forall j :: 0 <= j < n ==> log[j] == before[j];
    assert forall k :: Open(log, n, key, k) <==> Open(before, n, key, k);
  }

  /** The query that the response at j is matched with. */
  ghost predicate Serves(log: seq<Event>, i: int, j: nat) {
    0 <= i && j < |log| && Asks(log[j]) && OldestOpen(log, j, log[j].key, i)
  }

  lemma ServesInPrefix(before: seq<Event>, log: seq<Event>, i: int, j: nat)
    requires before <= log && j < |before|
    ensures Serves(log, i, j) <==> Serves(before, i, j)
  {
    OpenInPrefix(before, log, j, log[j].key, i);
  }

  /** What is said of an input stays so, and holds of the event just logged. */
  lemma LogsKept(before: seq<Event>, log: seq<Event>, j: nat, input: Input)
    requires before <= log && j <= |before| && j < |log|
    requires j < |before| ==> Logs(before, j, input)
    requires j == |before| ==>
               match input
               case OnWire(p) => log[j] == EventOf(p, HasOpen(before, j, FillDnsId(p.id, p.dnsId, false)))
               case Looks(p) => log[j] == Lookup(FillDnsId(p.id, p.dnsId, true), p.ts)
               case Deletes(p) => log[j] == Delete(FillDnsId(p.id, p.dnsId, true))
               case Purged(key) => log[j] == Purge(key)
    ensures Logs(log, j, input)
  {
    if input.OnWire? {
      var key := FillDnsId(input.p.id, input.p.dnsId, false);
      forall i ensures Open(log, j, key, i) <==> Open(before, j, key, i) {
        OpenInPrefix(before, log, j, key, i);
      }
      assert HasOpen(log, j, key) <==> HasOpen(before, j, key);
    }
  }

  lemma AnswerKept(before: seq<Event>, log: seq<Event>, j: nat, r: Report)
    requires before <= log && Answered(before, j, r)
    ensures Answered(log, j, r)
  {
    forall i ensures Serves(log, i, j) <==> Serves(before, i, j) {
      ServesInPrefix(before, log, i, j);
    }
    if r.ret == 0 {
      var i :| Serves(before, i, j) && r.latency == Wrap64(before[j].ts + U64_LIMIT - before[i].ts);
      assert Serves(log, i, j) && log[i] == before[i];
    }
  }

  /** The report of a response just logged. */
  lemma AnswerInLog(before: seq<Event>, log: seq<Event>, r: Report)
    requires |log| == |before| + 1 && before <= log && Asks(log[|before|])
    requires var e := log[|before|];
             && (r.ret == 0 ==>
                   exists i ::
                     && OldestOpen(before, |before|, e.key, i)
                     && r.latency == Wrap64(e.ts + U64_LIMIT - before[i].ts))
             && (r.ret != 0 ==> r == Report(ENOENT, 0) && forall i :: !Open(before, |before|, e.key, i))
    ensures Answered(log, |before|, r)
  {
    var n, e := |before|, log[|before|];
    forall i ensures OldestOpen(log, n, e.key, i) <==> OldestOpen(before, n, e.key, i) {
      OpenInPrefix(before, log, n, e.key, i);
    }
    if r.ret == 0 {
      var i :| OldestOpen(before, n, e.key, i) && r.latency == Wrap64(e.ts + U64_LIMIT - before[i].ts);
      assert Serves(log, i, n) && log[i] == before[i];
    }
  }

  /** A response is matched with at most one query. */
  lemma ServedByOne(log: seq<Event>, i: nat, k: nat, j: nat)
    requires Serves(log, i, j) && Serves(log, k, j)
    ensures i == k
  {
    assert Open(log, j, log[j].key, i) && Open(log, j, log[j].key, k);
  }

  /** After serving one response a query serves a later one iff nothing has closed its key in between. */
  lemma ServesAgain(log: seq<Event>, i: nat, j: nat, k: nat)
    requires Serves(log, i, j) && j < k < |log| && Asks(log[k]) && log[k].key == log[j].key
    ensures Serves(log, i, k) <==> forall m :: j <= m < k ==> !Closes(log[m], log[j].key)
  {
    var key := log[j].key;
    assert Open(log, j, key, i);
    if forall m :: j <= m < k ==> !Closes(log[m], key) {
      forall h | 0 <= h < i ensures !Open(log, k, key, h) {
        assert !Open(log, j, key, h);
      }
      assert Open(log, k, key, i);
    }
  }

  /** d is the first event from j on that closes the key: the response's own delete, or an earlier one. */
  ghost predicate ClosedAt(log: seq<Event>, j: nat, d: nat, key: DnsKey) {
    j <= d < |log| && Closes(log[d], key) && forall m :: j <= m < d ==> !Closes(log[m], key)
  }

  /** A query serves a second response iff its lookup comes before the first delete after the first lookup. */
  lemma ServesTwiceBeforeDelete(log: seq<Event>, i: nat, j: nat, d: nat, k: nat)
    requires Serves(log, i, j) && j < k < |log| && Asks(log[k]) && log[k].key == log[j].key
    requires ClosedAt(log, j, d, log[j].key)
    ensures Serves(log, i, k) <==> k <= d
  {
    ServesAgain(log, i, j, k);
  }

  /** Two CPUs that both look up before either deletes are served by one query. */
  lemma OneQueryServesTwo(key: DnsKey, a: u64, b: u64, c: u64)
    ensures var log := [Query(key, a, false), Lookup(key, b), Lookup(key, c), Delete(key), Delete(key)];
            Serves(log, 0, 1) && Serves(log, 0, 2)
  {
    var log := [Query(key, a, false), Lookup(key, b), Lookup(key, c), Delete(key), Delete(key)];
    assert Open(log, 1, key, 0) && Open(log, 2, key, 0);
  }

  /** Every lookup that finds a query is followed by its delete at once: packets are handled one at a time. */
  ghost predicate OneAtATime(log: seq<Event>) {
    forall j :: 0 <= j < |log| && log[j].Lookup? && HasOpen(log, j, log[j].key) ==>
      j + 1 < |log| && log[j + 1] == Delete(log[j].key)
  }

  /** Then no query serves two responses. */
  lemma {:induction false} ServesOnce(log: seq<Event>, i: nat, j: nat, k: nat)
    requires OneAtATime(log) && Serves(log, i, j) && Serves(log, i, k)
    ensures j == k
  {
    if j < k {
      OnceOnly(log, i, j, k);
    } else if k < j {
      OnceOnly(log, i, k, j);
    }
  }

  lemma OnceOnly(log: seq<Event>, i: nat, j: nat, k: nat)
    requires OneAtATime(log) && Serves(log, i, j) && j < k < |log| && Asks(log[k])
    ensures !Serves(log, i, k)
  {
    if Serves(log, i, k) {
      assert log[i].key == log[j].key == log[k].key;
      assert HasOpen(log, j, log[j].key);
      ServesAgain(log, i, j, k);
      assert Closes(log[if log[j].Response? then j else j + 1], log[j].key);
    }
  }

  predicate HasTime(e: Event) { !e.Purge? && !e.Delete? }

  ghost predicate Monotone(log: seq<Event>) {
    forall i, j :: 0 <= i < j < |log| && HasTime(log[i]) && HasTime(log[j]) ==> log[i].ts <= log[j].ts
  }

  /** With a clock that does not run backwards, the latency is the true difference: it never wraps. */
  lemma LatencyExact(log: seq<Event>, i: nat, j: nat)
    requires Serves(log, i, j) && Monotone(log)
    ensures Wrap64(log[j].ts + U64_LIMIT - log[i].ts) == log[j].ts - log[i].ts
  {
    var d := log[j].ts - log[i].ts;
    assert d + U64_LIMIT == log[j].ts + U64_LIMIT - log[i].ts;
    assert Wrap(d + U64_LIMIT, U64_LIMIT) == Wrap(d, U64_LIMIT);
  }

  /** Over any run with such a clock, a reported latency is the time between the response and its query. */
  lemma LatencyReported(log: seq<Event>, j: nat, r: Report)
    requires Answered(log, j, r) && Monotone(log) && r.ret == 0
    ensures exists i :: Serves(log, i, j) && log[i].Query? && r.latency == log[j].ts - log[i].ts
  {
    var i :| Serves(log, i, j) && r.latency == Wrap64(log[j].ts + U64_LIMIT - log[i].ts);
    LatencyExact(log, i, j);
  }
}
