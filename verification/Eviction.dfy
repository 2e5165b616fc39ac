/** The whole of evict: the cached flows become one batch of records in shared storage (pkg/flow/account.go). */
module Eviction {
  import opened Words
  import opened Flows
  import Accounter
  import opened Records

  function Plain(e: (FlowId, FlowMetrics)): (FlowId, FlowData) {
    (e.0, FlowData(e.1, None, None, None, None))
  }

  /** Every cached flow becomes exactly one record, and records do not share storage they may write to. */
  method Evict(es: map<FlowId, FlowMetrics>, st: Setting) returns (ghost batch: seq<Accounter.Entry>,
               records: array<Record>)
    ensures fresh(records) && records.Length == |batch| && Accounter.Lists(batch, es)
    ensures forall j :: 0 <= j < |batch| ==>
              records[j].interfaces.Valid() && Holds(records[j], batch[j].0, Plain(batch[j]).1, st)
    ensures forall j :: 0 <= j < |batch| ==>
              && records[j].id == batch[j].0 && records[j].metrics == batch[j].1
              && records[j].dnsLatency == 0 == records[j].timeFlowRtt
              && records[j].monitorEvents == None && records[j].drops == None
    ensures forall j, k :: 0 <= j < k < |batch| ==> Separate(records[j].interfaces, records[k].interfaces)
  {
    var entries := Accounter.ListEntries(es);
    batch := entries;
    records := BuildBatch(seq(|entries|, i requires 0 <= i < |entries| => Plain(entries[i])), st);
    forall j | 0 <= j < |batch|
      ensures && records[j].id == batch[j].0 && records[j].metrics == batch[j].1
              && records[j].dnsLatency == 0 == records[j].timeFlowRtt
              && records[j].monitorEvents == None && records[j].drops == None
    {
      RecordTells(records[j], batch[j].0, Plain(batch[j]).1, st);
    }
  }
}
