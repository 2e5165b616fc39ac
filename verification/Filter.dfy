/** The rule-based packet filter (bpf/common/filter.h, bpf/common/packet_utils.h). */
module Filter {
  import opened Words
  import opened Flows

  const ETH_P_IP: u16 := 0x0800
  const ETH_P_IPV6: u16 := 0x86DD
  const IPPROTO_ICMP: u8 := 1
  const IPPROTO_TCP: u8 := 6
  const IPPROTO_UDP: u8 := 17
  const IPPROTO_ICMPV6: u8 := 58
  const IPPROTO_SCTP: u8 := 132
  const MAX_DIRECTION: u8 := 2

  /** `Unset` is MAX_FILTER_ACTIONS. */
  datatype Action = Accept | Reject | Unset

  /** Two exact values or a range, all zero when not asked for. */
  datatype Ports = Ports(start: u16, end: u16, port1: u16, port2: u16)

  datatype Rule = Rule(
    protocol: u8, dst: Ports, src: Ports, any: Ports, icmpType: u8, icmpCode: u8, direction: u8,
    action: Action, tcpFlags: Bits, filterDrops: bool, sample: u32, doPeerLookup: bool)

  /** The packet as the filter sees it; sampling is None for a NULL pointer. */
  datatype Query = Query(id: FlowId, flags: Bits, dropReason: u32, ethProtocol: u16, direction: u8)

  ghost predicate WellSized(id: FlowId) {
    |id.srcIp| == 16 && |id.dstIp| == 16
  }

  // ----- Longest-prefix tables -----

  type Prefix = seq<bool>

  type Trie<V> = map<Prefix, V>

  function Bit(b: u8, j: nat): bool
    requires j < 8
  {
    var weights := [128, 64, 32, 16, 8, 4, 2, 1];
    (b / weights[j]) % 2 == 1
  }

  /** The first n bits, most significant first. */
  function FirstBits(bytes: Bytes, n: nat): (p: Prefix)
    requires n <= 8 * |bytes|
    ensures |p| == n
  {
    seq(n, i requires 0 <= i < n => Bit(bytes[i / 8], i % 8))
  }

  /** bpf_map_lookup_elem on an LPM trie. */
  function Longest<V>(t: Trie<V>, bits: Prefix): Option<V> {
    if bits in t then Some(t[bits])
    else if bits == [] then None
    else Longest(t, bits[..|bits| - 1])
  }

  /** The value found is that of the longest prefix of the address in the table, if there is one. */
  lemma {:induction false} LongestIsLongest<V>(t: Trie<V>, bits: Prefix)
    ensures Longest(t, bits).None? ==> forall n :: 0 <= n <= |bits| ==> bits[..n] !in t
    ensures Longest(t, bits).Some? ==>
              exists n :: 0 <= n <= |bits| && bits[..n] in t && t[bits[..n]] == Longest(t, bits).value
                          && forall m :: n < m <= |bits| ==> bits[..m] !in t
  {
    assert bits[..|bits|] == bits;
    if bits !in t && bits != [] {
      var front := bits[..|bits| - 1];
      LongestIsLongest(t, front);
      assert forall n :: 0 <= n <= |front| ==> front[..n] == bits[..n];
    }
  }

  datatype Tables = Tables(rules: Trie<Rule>, peers: Trie<u8>)

  /** `filter_key_t`: the address bytes fill a 16-byte array from the front. */
  datatype Key = Key(prefixLen: nat, ipData: Bytes)

  const ZERO_KEY := Key(0, [0, 0, 0, 0, 0, 0, 0, 0, 0, 0, 0, 0, 0, 0, 0, 0])

  ghost predicate KeyOk(k: Key) {
    |k.ipData| == 16 && k.prefixLen <= 128
  }

  // ----- What the filter should decide -----

  function Address(q: Query, src: bool): Bytes {
    if src then q.id.srcIp else q.id.dstIp
  }

  /** The address bits looked up: 32 for IPv4, which sits in the last four bytes, 128 for IPv6. */
  function AddressBits(q: Query, src: bool): Prefix
    requires |Address(q, src)| == 16
  {
    if q.ethProtocol == ETH_P_IP then FirstBits(Address(q, src)[12..16], 32) else FirstBits(Address(q, src), 128)
  }

  predicate Ip(q: Query) {
    q.ethProtocol == ETH_P_IP || q.ethProtocol == ETH_P_IPV6
  }

  predicate PortsHold(r: Ports, port: u16) {
    if (r.start != 0 && r.end == 0) || r.port1 != 0 || r.port2 != 0
    then r.start == port || r.port1 == port || r.port2 == port
    else r.start != 0 && r.end != 0 ==> r.start <= port <= r.end
  }

  predicate Transport(proto: u8) {
    proto == IPPROTO_TCP || proto == IPPROTO_UDP || proto == IPPROTO_SCTP
  }

  /** Every clause of the rule other than its addresses. */
  predicate ClausesHold(r: Rule, q: Query) {
    var proto := q.id.transportProtocol;
    && (r.protocol == 0 || r.protocol == proto)
    && (Transport(proto) ==>
          && PortsHold(r.dst, q.id.dstPort)
          && PortsHold(r.src, q.id.srcPort)
          && (PortsHold(r.any, q.id.srcPort) || PortsHold(r.any, q.id.dstPort))
          && (proto == IPPROTO_TCP && r.tcpFlags != {} ==> r.tcpFlags == q.flags))
    && (proto == IPPROTO_ICMP || proto == IPPROTO_ICMPV6 ==>
          (r.icmpType != 0 ==> r.icmpType == q.id.icmpType && (r.icmpCode != 0 ==> r.icmpCode == q.id.icmpCode)))
    && (r.direction != MAX_DIRECTION ==> r.direction == q.direction)
    && (r.filterDrops ==> q.dropReason != 0)
  }

  /** The other address of the packet is in the peer table, when the rule asks. */
  predicate PeerHolds(t: Tables, r: Rule, q: Query, src: bool)
    requires WellSized(q.id)
  {
    r.doPeerLookup ==> Ip(q) && Longest(t.peers, AddressBits(q, !src)).Some?
  }

  function RuleFor(t: Tables, q: Query, src: bool): Option<Rule>
    requires WellSized(q.id)
  {
    Longest(t.rules, AddressBits(q, src))
  }

  predicate RuleHolds(t: Tables, q: Query, src: bool)
    requires WellSized(q.id)
  {
    var r := RuleFor(t, q, src);
    r.Some? && PeerHolds(t, r.value, q, src) && ClausesHold(r.value, q)
  }

  /** The action left by consulting the rule for one address: a peer miss clears it. */
  function Surviving(t: Tables, q: Query, src: bool, before: Action): Action
    requires WellSized(q.id)
  {
    var r := RuleFor(t, q, src);
    if r.None? then before
    else if !PeerHolds(t, r.value, q, src) then Unset
    else if r.value.action != Unset then r.value.action
    else before
  }

  /** A rule that passes its peer check sets the sampling even if another clause fails. */
  function Sampled(t: Tables, q: Query, src: bool, before: Option<u32>): Option<u32>
    requires WellSized(q.id)
  {
    var r := RuleFor(t, q, src);
    if before.Some? && r.Some? && PeerHolds(t, r.value, q, src) && r.value.sample != 0
    then Some(r.value.sample)
    else before
  }

  datatype Outcome = Outcome(matched: bool, action: Action, sampling: Option<u32>)

  /** The source rule if it holds, else the destination rule. */
  function Declared(t: Tables, q: Query, sampling: Option<u32>): Outcome
    requires WellSized(q.id)
  {
    var a1, s1 := Surviving(t, q, true, Unset), Sampled(t, q, true, sampling);
    if RuleHolds(t, q, true) then Outcome(true, a1, s1)
    else Outcome(RuleHolds(t, q, false), Surviving(t, q, false, a1), Sampled(t, q, false, s1))
  }

  datatype Counter = FilterReject | FilterAccept | FilterNoMatch

  /** The counter raised, and whether the packet is skipped. */
  function Decision(o: Outcome): (Counter, bool) {
    if o.matched && o.action != Unset
    then (if o.action == Reject then FilterReject else FilterAccept, o.action == Reject)
    else (FilterNoMatch, o.action != Reject)
  }

  // ----- The filter -----

  method SetupLookupKey(q: Query, key: Key, src: bool) returns (ok: bool, key': Key)
    requires WellSized(q.id) && KeyOk(key)
    ensures ok == Ip(q) && KeyOk(key')
    ensures ok ==> FirstBits(key'.ipData, key'.prefixLen) == AddressBits(q, src)
  {
    var ip := Address(q, src);
    if q.ethProtocol == ETH_P_IP {
      key' := Key(32, ip[12..16] + key.ipData[4..]);
      assert forall i :: 0 <= i < 4 ==> key'.ipData[i] == ip[12..16][i];
      return true, key';
    } else if q.ethProtocol == ETH_P_IPV6 {
      return true, Key(128, ip);
    }
    return false, key;
  }

  /** One port clause: the number of matches it adds, or -1 when it fails. */
  method MatchPorts(r: Ports, port: u16) returns (n: int)
    ensures n == if !PortsHold(r, port) then -1 else if r == Ports(0, r.end, 0, 0) then 0 else 1
  {
    if (r.start != 0 && r.end == 0) || r.port1 != 0 || r.port2 != 0 {
      if r.start == port || r.port1 == port || r.port2 == port {
        return 1;
      }
      return -1;
    } else if r.start != 0 && r.end != 0 {
      if r.start <= port && port <= r.end {
        return 1;
      }
      return -1;
    }
    return 0;
  }

  method MatchAnyPort(r: Ports, a: u16, b: u16) returns (n: int)
    ensures n == if !PortsHold(r, a) && !PortsHold(r, b) then -1 else if r == Ports(0, r.end, 0, 0) then 0 else 1
  {
    if (r.start != 0 && r.end == 0) || r.port1 != 0 || r.port2 != 0 {
      if r.start == a || r.start == b || r.port1 == a || r.port1 == b || r.port2 == a || r.port2 == b {
        return 1;
      }
      return -1;
    } else if r.start != 0 && r.end != 0 {
      if (r.start <= a && a <= r.end) || (r.start <= b && b <= r.end) {
        return 1;
      }
      return -1;
    }
    return 0;
  }

  /** The protocol switch of do_filter_lookup: matches added, or -1. */
  method MatchProtocol(r: Rule, q: Query) returns (n: int)
    ensures n >= -1
    ensures n >= 0 <==> ClausesHold(r.(direction := MAX_DIRECTION, filterDrops := false), q)
  {
    var proto := q.id.transportProtocol;
    if r.protocol != proto && r.protocol != 0 {
      return -1;
    }
    if Transport(proto) {
      var d := MatchPorts(r.dst, q.id.dstPort);
      if d < 0 {
        return -1;
      }
      var s := MatchPorts(r.src, q.id.srcPort);
      if s < 0 {
        return -1;
      }
      var a := MatchAnyPort(r.any, q.id.srcPort, q.id.dstPort);
      if a < 0 {
        return -1;
      }
      n := d + s + a;
      if proto == IPPROTO_TCP && r.tcpFlags != {} {
        if r.tcpFlags != q.flags {
          return -1;
        }
        n := n + 1;
      }
      return;
    }
    n := 0;
    if (proto == IPPROTO_ICMP || proto == IPPROTO_ICMPV6) && r.icmpType != 0 {
      if r.icmpType != q.id.icmpType {
        return -1;
      }
      n := n + 1;
      if r.icmpCode != 0 {
        if r.icmpCode != q.id.icmpCode {
          return -1;
        }
        n := n + 1;
      }
    }
  }

  /** The rest of do_filter_lookup, after the sampling: matches added, or -1. */
  method MatchClauses(r: Rule, q: Query) returns (n: int)
    ensures n >= -1 && (n >= 0 <==> ClausesHold(r, q))
  {
    n := MatchProtocol(r, q);
    if n < 0 {
      return -1;
    }
    if r.direction != MAX_DIRECTION {
      if r.direction != q.direction {
        return -1;
      }
      n := n + 1;
    }
    if r.filterDrops {
      if q.dropReason == 0 {
        return -1;
      }
      n := n + 1;
    }
  }

  /** The peer lookup of do_filter_lookup, on the other address. */
  method MatchPeer(t: Tables, q: Query, src: bool) returns (ok: bool)
    requires WellSized(q.id)
    ensures ok <==> Ip(q) && Longest(t.peers, AddressBits(q, !src)).Some?
  {
    var known, peerKey := SetupLookupKey(q, ZERO_KEY, !src);
    if !known {
      return false;
    }
    return Longest(t.peers, FirstBits(peerKey.ipData, peerKey.prefixLen)).Some?;
  }

  /** do_filter_lookup for the key of one address; the peer lookup uses the other one. */
  method DoFilterLookup(t: Tables, q: Query, key: Key, src: bool, action: Action, sampling: Option<u32>)
    returns (result: nat, action': Action, sampling': Option<u32>)
    requires WellSized(q.id) && KeyOk(key) && FirstBits(key.ipData, key.prefixLen) == AddressBits(q, src)
    ensures result > 0 <==> RuleHolds(t, q, src)
    ensures action' == Surviving(t, q, src, action) && sampling' == Sampled(t, q, src, sampling)
  {
    result, action', sampling' := 0, action, sampling;
    var found := Longest(t.rules, FirstBits(key.ipData, key.prefixLen));
    if found.Some? {
      var rule := found.value;
      result := result + 1;
      if rule.action != Unset {
        action' := rule.action;
        result := result + 1;
      }
      if rule.doPeerLookup {
        var peer := MatchPeer(t, q, src);
        if !peer {
          return 0, Unset, sampling';
        }
        result := result + 1;
      }
      if rule.sample != 0 && sampling.Some? {
        sampling' := Some(rule.sample);
        result := result + 1;
      }
      var n := MatchClauses(rule, q);
      if n < 0 {
        return 0, action', sampling';
      }
      result := result + n;
    }
  }

  /** matches_filter. */
  method MatchesFilter(t: Tables, q: Query, sampling: Option<u32>)
    returns (result: int, action: Action, sampling': Option<u32>)
    requires WellSized(q.id)
    ensures !Ip(q) ==> result < 0 && action == Unset && sampling' == sampling
    ensures Ip(q) ==> result >= 0 && Outcome(result > 0, action, sampling') == Declared(t, q, sampling)
  {
    action, sampling' := Unset, sampling;
    var ok, key := SetupLookupKey(q, ZERO_KEY, true);
    if !ok {
      return -1, action, sampling';
    }
    result, action, sampling' := DoFilterLookup(t, q, key, true, action, sampling');
    if result > 0 {
      return;
    }
    ok, key := SetupLookupKey(q, key, false);
    if !ok {
      return -1, action, sampling';
    }
    result, action, sampling' := DoFilterLookup(t, q, key, false, action, sampling');
  }

  /** The verdict on a packet that is checked: packets other than IP match nothing. */
  function Verdict(t: Tables, q: Query, sampling: Option<u32>): (Counter, bool)
    requires WellSized(q.id)
  {
    if Ip(q) then Decision(Declared(t, q, sampling)) else (FilterNoMatch, true)
  }

  function Times(verdicts: seq<Counter>, c: Counter): nat {
    if verdicts == [] then 0
    else Times(verdicts[..|verdicts| - 1], c) + if verdicts[|verdicts| - 1] == c then 1 else 0
  }

  /** Every counter shows how many packets got its verdict, wrapped; one that nobody raised may be missing. */
  ghost predicate Tallies(counters: map<Counter, u32>, verdicts: seq<Counter>) {
    forall c: Counter :: (if c in counters then counters[c] else 0) == Wrap32(Times(verdicts, c))
  }

  lemma TalliesStep(counters: map<Counter, u32>, verdicts: seq<Counter>, key: Counter)
    requires Tallies(counters, verdicts)
    ensures Tallies(counters[key := if key in counters then Wrap32((counters[key] as int) + 1) else 1],
                    verdicts + [key])
  {
    assert (verdicts + [key])[..|verdicts|] == verdicts;
    WrapAdd(Times(verdicts, key), 1, U32_LIMIT);
  }

  /** Every checked packet is in exactly one of the three counts. */
  lemma {:induction false} CountsPartition(verdicts: seq<Counter>)
    ensures Times(verdicts, FilterReject) + Times(verdicts, FilterAccept) + Times(verdicts, FilterNoMatch) == |verdicts|
  {
    if verdicts != [] {
      CountsPartition(verdicts[..|verdicts| - 1]);
    }
  }

  /** The filter of one CPU, whose counters nobody else raises. */
  class Checker {
    const enabled: bool
    const tables: Tables
    var counters: map<Counter, u32>
    ghost var verdicts: seq<Counter>

    ghost predicate Valid()
      reads this
    {
      Tallies(counters, verdicts)
    }

    constructor (enabled: bool, tables: Tables)
      ensures Valid() && this.enabled == enabled && this.tables == tables && verdicts == []
    {
      this.enabled, this.tables := enabled, tables;
      counters, verdicts := map[], [];
    }

    method IncreaseCounter(key: Counter)
      requires Valid()
      modifies this
      ensures Valid() && verdicts == old(verdicts) + [key]
    {
      TalliesStep(counters, verdicts, key);
      if key !in counters {
        counters := counters[key := 1];
      } else {
        counters := counters[key := Wrap32((counters[key] as int) + 1)];
      }
      verdicts := verdicts + [key];
    }

    /** check_and_apply_filter: the packet gets one verdict when filtering is on, and one counter shows it. */
    method CheckAndApply(q: Query, sampling: Option<u32>) returns (skip: bool, sampling': Option<u32>)
      requires Valid() && WellSized(q.id)
      modifies this
      ensures Valid()
      ensures !enabled ==> !skip && verdicts == old(verdicts) && counters == old(counters) && sampling' == sampling
      ensures enabled ==> skip == Verdict(tables, q, sampling).1
      ensures enabled ==> verdicts == old(verdicts) + [Verdict(tables, q, sampling).0]
      ensures enabled ==> sampling' == if Ip(q) then Declared(tables, q, sampling).sampling else sampling
    {
      skip, sampling' := false, sampling;
      if enabled {
        var result, action, s := MatchesFilter(tables, q, sampling);
        sampling' := s;
        if result != 0 && action != Unset {
          if action == Reject {
            IncreaseCounter(FilterReject);
            return true, sampling';
          }
          IncreaseCounter(FilterAccept);
        } else {
          IncreaseCounter(FilterNoMatch);
          if action == Accept || action == Unset {
            return true, sampling';
          }
        }
      }
    }
  }

  // ----- The verdict in words -----

  ghost predicate Decisive(t: Tables) {
    forall p :: p in t.rules ==> t.rules[p].action != Unset
  }

  lemma {:induction false} FoundIsInTable<V>(t: Trie<V>, bits: Prefix)
    requires Longest(t, bits).Some?
    ensures exists p :: p in t && t[p] == Longest(t, bits).value
  {
    if bits !in t {
      FoundIsInTable(t, bits[..|bits| - 1]);
    }
  }

  /** A matched rule with this action: rejected packets are skipped, accepted ones kept, and each is counted as such. */
  ghost predicate Gives(a: Action, v: (Counter, bool)) {
    && (a == Accept ==> v == (FilterAccept, false))
    && (a == Reject ==> v == (FilterReject, true))
    && (a == Unset ==> v == (FilterNoMatch, true))
  }

  /** The action that a rule found leaves when it is not cleared by a failed peer check. */
  ghost function Left(t: Tables, q: Query, src: bool): Action
    requires WellSized(q.id)
  {
    var r := RuleFor(t, q, src);
    if r.Some? && PeerHolds(t, r.value, q, src) then r.value.action else Unset
  }

  /**
   * The source rule decides if all its clauses hold, else the destination rule if all its clauses hold, with the
   * action that the source rule left when it has none. If neither holds the packet is counted as unmatched, and
   * kept only when the last rule consulted whose peer check did not fail rejects.
   */
  lemma VerdictInWords(t: Tables, q: Query, sampling: Option<u32>)
    requires WellSized(q.id)
    ensures q.ethProtocol != 0x0800 && q.ethProtocol != 0x86DD ==> Verdict(t, q, sampling) == (FilterNoMatch, true)
    ensures Ip(q) && RuleHolds(t, q, true) ==> Gives(RuleFor(t, q, true).value.action, Verdict(t, q, sampling))
    ensures Ip(q) && !RuleHolds(t, q, true) && RuleHolds(t, q, false) ==>
              var a := RuleFor(t, q, false).value.action;
              Gives(if a == Unset then Left(t, q, true) else a, Verdict(t, q, sampling))
    ensures Ip(q) && !RuleHolds(t, q, true) && !RuleHolds(t, q, false) ==>
              var dst := RuleFor(t, q, false);
              var last := if dst.None? then Left(t, q, true)
                          else if !PeerHolds(t, dst.value, q, false) then Unset
                          else if dst.value.action == Unset then Left(t, q, true)
                          else dst.value.action;
              Verdict(t, q, sampling) == (FilterNoMatch, last != Reject)
  {
  }

  /** When every rule accepts or rejects, a rule that holds gives its own verdict. */
  lemma VerdictOfDecisiveTables(t: Tables, q: Query, sampling: Option<u32>)
    requires WellSized(q.id) && Decisive(t) && Ip(q)
    ensures RuleHolds(t, q, true) ==>
              && (Verdict(t, q, sampling) == (FilterReject, true) <==> RuleFor(t, q, true).value.action == Reject)
              && (Verdict(t, q, sampling) == (FilterAccept, false) <==> RuleFor(t, q, true).value.action == Accept)
    ensures !RuleHolds(t, q, true) && RuleHolds(t, q, false) ==>
              && (Verdict(t, q, sampling) == (FilterReject, true) <==> RuleFor(t, q, false).value.action == Reject)
              && (Verdict(t, q, sampling) == (FilterAccept, false) <==> RuleFor(t, q, false).value.action == Accept)
  {
    if RuleFor(t, q, true).Some? {
      FoundIsInTable(t.rules, AddressBits(q, true));
    }
    if RuleFor(t, q, false).Some? {
      FoundIsInTable(t.rules, AddressBits(q, false));
    }
  }

  /** The rate that a rule found asks for, unless its peer check fails. */
  ghost function Rate(t: Tables, q: Query, src: bool): u32
    requires WellSized(q.id)
  {
    var r := RuleFor(t, q, src);
    if r.Some? && PeerHolds(t, r.value, q, src) then r.value.sample else 0
  }

  /** The sampling is that of the last rule consulted that asks for one, also when another of its clauses fails. */
  lemma SamplingInWords(t: Tables, q: Query, rate: u32)
    requires WellSized(q.id)
    ensures Declared(t, q, None).sampling == None
    ensures Declared(t, q, Some(rate)).sampling ==
            Some(if !RuleHolds(t, q, true) && Rate(t, q, false) != 0 then Rate(t, q, false)
                 else if Rate(t, q, true) != 0 then Rate(t, q, true)
                 else rate)
  {
  }

  // ----- What is looked up -----

  function Weigh(w: nat, bit: bool): nat {
    if bit then w else 0
  }

  /** A byte is the sum of the weights of its bits, most significant first. */
  lemma BitsOfByte(b: u8)
    ensures b == Weigh(128, Bit(b, 0)) + Weigh(64, Bit(b, 1)) + Weigh(32, Bit(b, 2)) + Weigh(16, Bit(b, 3))
                 + Weigh(8, Bit(b, 4)) + Weigh(4, Bit(b, 5)) + Weigh(2, Bit(b, 6)) + Weigh(1, Bit(b, 7))
  {
    var d := [b / 128 % 2, b / 64 % 2, b / 32 % 2, b / 16 % 2, b / 8 % 2, b / 4 % 2, b / 2 % 2, b % 2];
    Quotients(b);
    Halves(b, b / 2, b / 4, b / 8, b / 16, b / 32, b / 64, b / 128);
    Weights(b, d);
  }

  lemma Weights(b: u8, d: seq<int>)
    requires |d| == 8 && (forall j :: 0 <= j < 8 ==> 0 <= d[j] < 2 && (Bit(b, j) <==> d[j] == 1))
    ensures 128 * d[0] + 64 * d[1] + 32 * d[2] + 16 * d[3] + 8 * d[4] + 4 * d[5] + 2 * d[6] + d[7]
            == Weigh(128, Bit(b, 0)) + Weigh(64, Bit(b, 1)) + Weigh(32, Bit(b, 2)) + Weigh(16, Bit(b, 3))
               + Weigh(8, Bit(b, 4)) + Weigh(4, Bit(b, 5)) + Weigh(2, Bit(b, 6)) + Weigh(1, Bit(b, 7))
  {
    assert forall j :: 0 <= j < 8 ==> d[j] == if Bit(b, j) then 1 else 0;
  }

  lemma Halves(b0: int, b1: int, b2: int, b3: int, b4: int, b5: int, b6: int, b7: int)
    requires b1 == b0 / 2 && b2 == b1 / 2 && b3 == b2 / 2 && b4 == b3 / 2
    requires b5 == b4 / 2 && b6 == b5 / 2 && b7 == b6 / 2 && 0 <= b7 < 2
    ensures b0 == 128 * (b7 % 2) + 64 * (b6 % 2) + 32 * (b5 % 2) + 16 * (b4 % 2) + 8 * (b3 % 2) + 4 * (b2 % 2)
                  + 2 * (b1 % 2) + b0 % 2
  {
  }

  lemma Quotients(b: int)
    requires 0 <= b < 256
    ensures b / 4 == b / 2 / 2 && b / 8 == b / 4 / 2 && b / 16 == b / 8 / 2 && b / 32 == b / 16 / 2
    ensures b / 64 == b / 32 / 2 && b / 128 == b / 64 / 2 && 0 <= b / 128 < 2
  {
  }

  lemma FirstBitsPrefix(bytes: Bytes, n: nat, m: nat)
    requires m <= n <= 8 * |bytes|
    ensures FirstBits(bytes, n)[..m] == FirstBits(bytes, m)
  {
  }

  /**
   * The rule for an address is that of the longest prefix in the table that the packet's own source (or
   * destination) address starts with; an IPv4 address is the last four bytes.
   */
  lemma RuleIsOfAddress(t: Tables, q: Query, src: bool)
    requires WellSized(q.id) && (q.ethProtocol == 0x0800 || q.ethProtocol == 0x86DD)
    ensures var ip := if src then q.id.srcIp else q.id.dstIp;
            var bytes := if q.ethProtocol == 0x0800 then ip[12..16] else ip;
            match RuleFor(t, q, src)
            case None => forall n :: 0 <= n <= 8 * |bytes| ==> FirstBits(bytes, n) !in t.rules
            case Some(r) =>
              exists n :: 0 <= n <= 8 * |bytes| && FirstBits(bytes, n) in t.rules && t.rules[FirstBits(bytes, n)] == r
                          && forall m :: n < m <= 8 * |bytes| ==> FirstBits(bytes, m) !in t.rules
  {
    var bits := AddressBits(q, src);
    var ip := if src then q.id.srcIp else q.id.dstIp;
    var bytes := if q.ethProtocol == 0x0800 then ip[12..16] else ip;
    assert bits == FirstBits(bytes, 8 * |bytes|);
    LongestIsLongest(t.rules, bits);
    forall n | 0 <= n <= 8 * |bytes| ensures bits[..n] == FirstBits(bytes, n) {
      FirstBitsPrefix(bytes, 8 * |bytes|, n);
    }
  }

  // ----- What each clause selects -----

  const NO_PORTS := Ports(0, 0, 0, 0)
  const ANY_PACKET := Rule(0, NO_PORTS, NO_PORTS, NO_PORTS, 0, 0, 2, Accept, {}, false, 0, false)

  /** One port, a range, or two ports. */
  lemma PortsSelect(a: u16, b: u16, port: u16)
    requires a != 0 && b != 0 && port != 0
    ensures PortsHold(NO_PORTS, port)
    ensures PortsHold(Ports(a, 0, 0, 0), port) <==> port == a
    ensures PortsHold(Ports(a, b, 0, 0), port) <==> a <= port <= b
    ensures PortsHold(Ports(0, 0, a, b), port) <==> port == a || port == b
  {
  }

  /** A rule with one clause on ports selects by the destination, the source or either port, for TCP, UDP and SCTP. */
  lemma PortClauses(ps: Ports, q: Query)
    requires q.id.transportProtocol in {6, 17, 132}
    ensures ClausesHold(ANY_PACKET.(dst := ps), q) <==> PortsHold(ps, q.id.dstPort)
    ensures ClausesHold(ANY_PACKET.(src := ps), q) <==> PortsHold(ps, q.id.srcPort)
    ensures ClausesHold(ANY_PACKET.(any := ps), q) <==> PortsHold(ps, q.id.srcPort) || PortsHold(ps, q.id.dstPort)
  {
  }

  /** The other clauses, each alone. */
  lemma OtherClauses(q: Query, proto: u8, flags: Bits, icmpType: u8, icmpCode: u8, direction: u8)
    requires proto != 0 && flags != {} && icmpType != 0 && icmpCode != 0 && direction < 2
    ensures ClausesHold(ANY_PACKET, q)
    ensures ClausesHold(ANY_PACKET.(protocol := proto), q) <==> q.id.transportProtocol == proto
    ensures ClausesHold(ANY_PACKET.(tcpFlags := flags), q) <==> (q.id.transportProtocol == 6 ==> q.flags == flags)
    ensures ClausesHold(ANY_PACKET.(icmpType := icmpType), q)
            <==> (q.id.transportProtocol in {1, 58} ==> q.id.icmpType == icmpType)
    ensures ClausesHold(ANY_PACKET.(icmpType := icmpType, icmpCode := icmpCode), q)
            <==> (q.id.transportProtocol in {1, 58} ==> q.id.icmpType == icmpType && q.id.icmpCode == icmpCode)
    ensures ClausesHold(ANY_PACKET.(direction := direction), q) <==> q.direction == direction
    ensures ClausesHold(ANY_PACKET.(filterDrops := true), q) <==> q.dropReason != 0
  {
  }

  /** A rule with several clauses holds iff each of them holds alone; a packet of another protocol has no ports. */
  lemma ClausesTogether(r: Rule, q: Query)
    ensures ClausesHold(r, q) <==>
            && ClausesHold(ANY_PACKET.(protocol := r.protocol), q)
            && ClausesHold(ANY_PACKET.(dst := r.dst), q) && ClausesHold(ANY_PACKET.(src := r.src), q)
            && ClausesHold(ANY_PACKET.(any := r.any), q) && ClausesHold(ANY_PACKET.(tcpFlags := r.tcpFlags), q)
            && ClausesHold(ANY_PACKET.(icmpType := r.icmpType, icmpCode := r.icmpCode), q)
            && ClausesHold(ANY_PACKET.(direction := r.direction), q)
            && ClausesHold(ANY_PACKET.(filterDrops := r.filterDrops), q)
  {
  }

  /** The peer check asks for the other address of the packet in the peer table. */
  lemma PeerIsOther(t: Tables, r: Rule, q: Query, src: bool)
    requires WellSized(q.id) && (q.ethProtocol == 0x0800 || q.ethProtocol == 0x86DD)
    ensures var ip := if src then q.id.dstIp else q.id.srcIp;
            var bytes := if q.ethProtocol == 0x0800 then ip[12..16] else ip;
            PeerHolds(t, r, q, src) <==>
            (r.doPeerLookup ==> exists n :: 0 <= n <= 8 * |bytes| && FirstBits(bytes, n) in t.peers)
  {
    var bits := AddressBits(q, !src);
    var ip := if src then q.id.dstIp else q.id.srcIp;
    var bytes := if q.ethProtocol == 0x0800 then ip[12..16] else ip;
    assert bits == FirstBits(bytes, 8 * |bytes|);
    LongestIsLongest(t.peers, bits);
    forall n | 0 <= n <= 8 * |bytes| ensures bits[..n] == FirstBits(bytes, n) {
      FirstBitsPrefix(bytes, 8 * |bytes|, n);
    }
  }

  /** With no rules at all every IP packet is skipped as unmatched. */
  lemma NoRulesSkipAll(t: Tables, q: Query, sampling: Option<u32>)
    requires WellSized(q.id) && t.rules == map[]
    ensures Verdict(t, q, sampling) == (FilterNoMatch, true)
  {
    LongestIsLongest(t.rules, AddressBits(q, true));
    LongestIsLongest(t.rules, AddressBits(q, false));
  }
}
