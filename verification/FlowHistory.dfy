/** What an entry of the flow map says about the packets that made it, for every packet sequence. */
module FlowHistory {
  import opened Words
  import opened Flows
  import opened FlowEntry

  /** The entry created by the first packet and updated by the others, in order. */
  function Replay(hist: seq<Packet>): FlowMetrics
    requires hist != []
  {
    if |hist| == 1 then Fresh(hist[0])
    else Updated(Replay(hist[..|hist| - 1]), hist[|hist| - 1])
  }

  /** The packets seen on interface `intf`, in order. */
  function OnIntf(hist: seq<Packet>, intf: u32): seq<Packet> {
    if hist == [] then []
    else
      var rest := OnIntf(hist[..|hist| - 1], intf);
      var p := hist[|hist| - 1];
      if p.ifIndex == intf then rest + [p] else rest
  }

  /** The (interface, direction) pairs of the packets seen on other real interfaces, in order. */
  function Others(hist: seq<Packet>, intf: u32): (r: seq<Observed>)
    ensures forall i :: 0 <= i < |r| ==> r[i].direction == INGRESS || r[i].direction == EGRESS
    ensures forall i :: 0 <= i < |r| ==> r[i].intf != intf && r[i].intf != 0
  {
    if hist == [] then []
    else
      var rest := Others(hist[..|hist| - 1], intf);
      var p := hist[|hist| - 1];
      if p.ifIndex != intf && p.ifIndex != 0 then rest + [Observed(p.ifIndex, p.direction)] else rest
  }

  function TotalLen(ps: seq<Packet>): nat {
    if ps == [] then 0 else TotalLen(ps[..|ps| - 1]) + ps[|ps| - 1].len
  }

  function Kinds(ps: seq<Packet>): Bits {
    if ps == [] then {} else Kinds(ps[..|ps| - 1]) + ps[|ps| - 1].tls.kind
  }

  lemma {:induction false} ReplayFirst(hist: seq<Packet>)
    requires hist != []
    ensures var m := Replay(hist);
            && m.ifIndexFirstSeen == hist[0].ifIndex && m.directionFirstSeen == hist[0].direction
            && m.startTs == hist[0].ts && m.errno == 0 && m.ethProtocol == hist[0].ethProtocol
            && m.srcMac == hist[0].srcMac && m.dstMac == hist[0].dstMac
  {
    if |hist| > 1 {
      ReplayFirst(hist[..|hist| - 1]);
    }
  }

  lemma OnIntfLast(hist: seq<Packet>, intf: u32)
    requires hist != []
    ensures var own, p := OnIntf(hist[..|hist| - 1], intf), hist[|hist| - 1];
            && OnIntf(hist, intf) == (if p.ifIndex == intf then own + [p] else own)
            && TotalLen(own + [p]) == TotalLen(own) + p.len
            && Kinds(own + [p]) == Kinds(own) + p.tls.kind
  {
    var own, p := OnIntf(hist[..|hist| - 1], intf), hist[|hist| - 1];
    assert (own + [p])[..|own|] == own;
  }

  /** Only packets of the first-seen interface are counted, each once, and the counter wraps. */
  lemma {:induction false} ReplayPackets(hist: seq<Packet>)
    requires hist != []
    ensures Replay(hist).packets == Wrap32(|OnIntf(hist, hist[0].ifIndex)|)
  {
    var n, first := |hist| - 1, hist[0].ifIndex;
    OnIntfLast(hist, first);
    if n > 0 {
      ReplayPackets(hist[..n]);
      ReplayFirst(hist[..n]);
      WrapAdd(|OnIntf(hist[..n], first)|, 1, U32_LIMIT);
    }
  }

  /** The same packets give the byte count. */
  lemma {:induction false} ReplayBytes(hist: seq<Packet>)
    requires hist != []
    ensures Replay(hist).bytes == Wrap64(TotalLen(OnIntf(hist, hist[0].ifIndex)))
  {
    var n, first := |hist| - 1, hist[0].ifIndex;
    OnIntfLast(hist, first);
    if n > 0 {
      ReplayBytes(hist[..n]);
      ReplayFirst(hist[..n]);
      WrapAdd(TotalLen(OnIntf(hist[..n], first)), hist[n].len, U64_LIMIT);
    }
  }

  // ----- TLS -----

  /** The TLS fields of an entry whose first-seen interface carried ps. */
  function Summary(ps: seq<Packet>): TlsSummary
    requires ps != []
  {
    if |ps| == 1 then FreshTls(ps[0].tls)
    else NotedTls(Summary(ps[..|ps| - 1]), ps[|ps| - 1].tls)
  }

  lemma {:induction false} ReplayTls(hist: seq<Packet>)
    requires hist != []
    ensures OnIntf(hist, hist[0].ifIndex) != []
    ensures Replay(hist).tls == Summary(OnIntf(hist, hist[0].ifIndex))
  {
    var n, first := |hist| - 1, hist[0].ifIndex;
    OnIntfLast(hist, first);
    if n > 0 {
      ReplayTls(hist[..n]);
      ReplayFirst(hist[..n]);
      var own := OnIntf(hist[..n], first);
      assert (own + [hist[n]])[..|own|] == own;
    }
  }

  /** v is the first non-zero hello version among ps, or 0 when there is none. */
  ghost predicate FirstVersion(ps: seq<Packet>, v: u16) {
    if v == 0 then forall i :: 0 <= i < |ps| ==> ps[i].tls.helloVersion == 0
    else exists k :: 0 <= k < |ps| && ps[k].tls.helloVersion == v
                     && forall i :: 0 <= i < k ==> ps[i].tls.helloVersion == 0
  }

  /** Two packets carried different non-zero hello versions. */
  ghost predicate Disagree(ps: seq<Packet>) {
    exists i, j :: 0 <= i < j < |ps| && ps[i].tls.helloVersion != 0 && ps[j].tls.helloVersion != 0
                   && ps[i].tls.helloVersion != ps[j].tls.helloVersion
  }

  lemma {:induction false} SummaryVersion(ps: seq<Packet>)
    requires ps != []
    ensures FirstVersion(ps, Summary(ps).sslVersion)
  {
    var n := |ps| - 1;
    if n > 0 {
      var v := Summary(ps[..n]).sslVersion;
      SummaryVersion(ps[..n]);
      if v != 0 {
        var k :| 0 <= k < n && ps[..n][k].tls.helloVersion == v
                 && forall i :: 0 <= i < k ==> ps[..n][i].tls.helloVersion == 0;
        assert forall i :: 0 <= i < k ==> ps[i] == ps[..n][i];
      } else {
        assert forall i :: 0 <= i < n ==> ps[i] == ps[..n][i];
      }
    }
  }

  lemma {:induction false} SummaryMismatch(ps: seq<Packet>)
    requires ps != []
    ensures Summary(ps).miscFlags == if Disagree(ps) then {0} else {}
  {
    var n := |ps| - 1;
    if n > 0 {
      var front, v := ps[..n], Summary(ps[..n]).sslVersion;
      SummaryMismatch(front);
      SummaryVersion(front);
      if Disagree(front) {
        var i, j :| 0 <= i < j < n && front[i].tls.helloVersion != 0 && front[j].tls.helloVersion != 0
                    && front[i].tls.helloVersion != front[j].tls.helloVersion;
        assert ps[i] == front[i] && ps[j] == front[j];
      } else {
        DisagreeLast(ps, v);
      }
    }
  }

  /** When the earlier packets agree, only the last one can differ from the first version. */
  lemma DisagreeLast(ps: seq<Packet>, v: u16)
    requires ps != []
    requires FirstVersion(ps[..|ps| - 1], v) && !Disagree(ps[..|ps| - 1])
    ensures var w := ps[|ps| - 1].tls.helloVersion; Disagree(ps) <==> w != 0 && v != 0 && v != w
  {
    var n := |ps| - 1;
    var front, w := ps[..n], ps[n].tls.helloVersion;
    assert forall i :: 0 <= i < n ==> ps[i] == front[i];
    if v != 0 {
      var k :| 0 <= k < n && front[k].tls.helloVersion == v;
      if w != 0 && v != w {
        assert ps[k].tls.helloVersion != ps[n].tls.helloVersion;
      }
    }
    if Disagree(ps) {
      var i, j :| 0 <= i < j <= n && ps[i].tls.helloVersion != 0 && ps[j].tls.helloVersion != 0
                  && ps[i].tls.helloVersion != ps[j].tls.helloVersion;
      assert j == n && ps[i] == front[i];
      AgreeOnFirst(front, v, i);
    }
  }

  lemma AgreeOnFirst(ps: seq<Packet>, v: u16, i: nat)
    requires FirstVersion(ps, v) && !Disagree(ps)
    requires i < |ps| && ps[i].tls.helloVersion != 0
    ensures ps[i].tls.helloVersion == v
  {
    var k :| 0 <= k < |ps| && ps[k].tls.helloVersion == v
             && forall i :: 0 <= i < k ==> ps[i].tls.helloVersion == 0;
    assert k <= i;
  }

  lemma {:induction false} SummaryTypes(ps: seq<Packet>)
    requires ps != []
    ensures Summary(ps).types == Kinds(ps)
  {
    if |ps| > 1 {
      SummaryTypes(ps[..|ps| - 1]);
    } else {
      assert Kinds(ps[..0]) == {};
    }
  }

  /**
   * The TLS fields after any packet sequence: the version is the first non-zero hello version of the
   * first-seen interface, the mismatch bit says that two of its packets disagreed, and the types are
   * the union of theirs. Packets of other interfaces do not count.
   */
  lemma {:induction false} TlsOfHistory(hist: seq<Packet>)
    requires hist != []
    ensures var own, t := OnIntf(hist, hist[0].ifIndex), Replay(hist).tls;
            && FirstVersion(own, t.sslVersion)
            && t.miscFlags == (if Disagree(own) then {0} else {})
            && t.types == Kinds(own)
  {
    var own := OnIntf(hist, hist[0].ifIndex);
    ReplayTls(hist);
    SummaryVersion(own);
    SummaryMismatch(own);
    SummaryTypes(own);
  }

  // ----- Observed interfaces -----

  /** The table after the sightings s, one Observe at a time. */
  function Table(s: seq<Observed>): (t: seq<Observed>)
    ensures |t| <= MAX_OBSERVED_INTERFACES
  {
    if s == [] then [] else Observe(Table(s[..|s| - 1]), s[|s| - 1].intf, s[|s| - 1].direction)
  }

  lemma {:induction false} ReplayObserved(hist: seq<Packet>)
    requires hist != []
    ensures Replay(hist).observed == Table(Others(hist, hist[0].ifIndex))
  {
    var n, first := |hist| - 1, hist[0].ifIndex;
    if n == 0 {
      assert Others(hist[..0], first) == [];
    } else {
      ReplayObserved(hist[..n]);
      ReplayFirst(hist[..n]);
      var rest := Others(hist[..n], first);
      assert (rest + [Observed(hist[n].ifIndex, hist[n].direction)])[..|rest|] == rest;
    }
  }

  ghost function Intfs(s: seq<Observed>): set<u32> {
    set o <- s :: o.intf
  }

  /** How much of s the table listens to: up to the sighting that brings the sixth interface. */
  ghost function Horizon(s: seq<Observed>): (h: nat)
    ensures h <= |s|
  {
    if s == [] || |Intfs(s[..|s| - 1])| < 6 then |s|
    else Horizon(s[..|s| - 1])
  }

  ghost predicate Distinct(t: seq<Observed>) {
    forall i, j :: 0 <= i < j < |t| ==> t[i].intf != t[j].intf
  }

  /** The direction shown for an interface that s saw in the given directions. */
  ghost predicate Shows(s: seq<Observed>, o: Observed) {
    if o.direction == 3
    then Observed(o.intf, 0) in s && Observed(o.intf, 1) in s
    else o in s && forall d :: Observed(o.intf, d) in s ==> d == o.direction
  }

  /** t lists the interfaces of s, once each, with the directions they were seen in. */
  ghost predicate Describes(t: seq<Observed>, s: seq<Observed>) {
    && Distinct(t)
    && Intfs(t) == Intfs(s)
    && forall i :: 0 <= i < |t| ==> Shows(s, t[i])
  }

  ghost predicate Directed(s: seq<Observed>) {
    forall i :: 0 <= i < |s| ==> s[i].direction == INGRESS || s[i].direction == EGRESS
  }

  lemma {:induction false} DistinctSize(t: seq<Observed>)
    requires Distinct(t)
    ensures |Intfs(t)| == |t|
  {
    if t == [] {
      assert Intfs(t) == {};
    } else {
      var n := |t| - 1;
      DistinctSize(t[..n]);
      IntfsLast(t);
      assert t[n].intf !in Intfs(t[..n]);
    }
  }

  lemma IntfsLast(s: seq<Observed>)
    requires s != []
    ensures Intfs(s) == Intfs(s[..|s| - 1]) + {s[|s| - 1].intf}
  {
    assert s == s[..|s| - 1] + [s[|s| - 1]];
    assert forall o :: o in s <==> o in s[..|s| - 1] || o == s[|s| - 1];
  }

  /** A new interface is appended with the direction of its first sighting. */
  lemma DescribesNew(t: seq<Observed>, s: seq<Observed>, x: Observed)
    requires Describes(t, s) && Directed(s) && x.direction in {INGRESS, EGRESS}
    requires x.intf !in Intfs(s)
    ensures Describes(t + [x], s + [x])
  {
    IntfsLast(t + [x]);
    IntfsLast(s + [x]);
    assert (t + [x])[..|t|] == t && (s + [x])[..|s|] == s;
    forall i | 0 <= i < |t| ensures Shows(s + [x], t[i]) && t[i].intf != x.intf {
      assert Shows(s, t[i]);
      assert t[i].intf in Intfs(t);
    }
    assert forall d :: Observed(x.intf, d) in s ==> x.intf in Intfs(s);
    assert Shows(s + [x], x);
  }

  /** Another sighting of a listed interface only completes its direction. */
  lemma DescribesSeen(t: seq<Observed>, s: seq<Observed>, x: Observed, i: nat)
    requires Describes(t, s) && Directed(s) && x.direction in {INGRESS, EGRESS}
    requires i < |t| && t[i].intf == x.intf
    ensures Describes(if t[i].direction == x.direction then t else t[i := Observed(x.intf, OBSERVED_DIRECTION_BOTH)],
                      s + [x])
  {
    var t' := if t[i].direction == x.direction then t else t[i := Observed(x.intf, OBSERVED_DIRECTION_BOTH)];
    IntfsLast(s + [x]);
    assert (s + [x])[..|s|] == s;
    assert x.intf in Intfs(t);
    SameIntfs(t, t');
    forall j | 0 <= j < |t'| ensures Shows(s + [x], t'[j]) {
      assert Shows(s, t[j]);
      if j == i {
        ShowsBoth(s, t[i], x);
      }
    }
  }

  lemma SameIntfs(t: seq<Observed>, t': seq<Observed>)
    requires |t| == |t'| && forall j :: 0 <= j < |t| ==> t[j].intf == t'[j].intf
    ensures Intfs(t) == Intfs(t')
  {
    forall x | x in Intfs(t) ensures x in Intfs(t') {
      var j :| 0 <= j < |t| && t[j].intf == x;
      assert t'[j] in t';
    }
    forall x | x in Intfs(t') ensures x in Intfs(t) {
      var j :| 0 <= j < |t'| && t'[j].intf == x;
      assert t[j] in t;
    }
  }

  lemma ShowsBoth(s: seq<Observed>, o: Observed, x: Observed)
    requires Shows(s, o) && Directed(s) && x.direction in {INGRESS, EGRESS} && o.intf == x.intf
    ensures Shows(s + [x], if o.direction == x.direction then o else Observed(x.intf, OBSERVED_DIRECTION_BOTH))
  {
    if o.direction != OBSERVED_DIRECTION_BOTH {
      var k :| 0 <= k < |s| && s[k] == o;
      assert (s + [x])[k] == o && (s + [x])[|s|] == x;
    }
  }

  /** The table is exactly a description of the sightings up to its horizon. */
  lemma {:induction false} TableDescribes(s: seq<Observed>)
    requires Directed(s)
    ensures Describes(Table(s), s[..Horizon(s)])
    ensures |Table(s)| == |Intfs(s[..Horizon(s)])|
    ensures Horizon(s) < |s| ==> |Table(s)| == MAX_OBSERVED_INTERFACES
  {
    if s == [] {
      assert s[..0] == [] && Intfs([]) == {};
    } else {
      var n := |s| - 1;
      var r, x, t := s[..n], s[n], Table(s[..n]);
      TableDescribes(r);
      if |Intfs(r)| < MAX_OBSERVED_INTERFACES {
        HorizonOpen(r);
        assert r[..|r|] == r && s[..|s|] == s && r + [x] == s;
        var i := Find(t, x.intf);
        if i == |t| {
          FindMisses(t, x.intf);
          DescribesNew(t, r, x);
        } else {
          DescribesSeen(t, r, x, i);
        }
        DistinctSize(Table(s));
      } else {
        assert s[..Horizon(s)] == r[..Horizon(r)];
        HorizonFull(r);
      }
    }
  }

  lemma FindMisses(t: seq<Observed>, intf: u32)
    requires Find(t, intf) == |t|
    ensures intf !in Intfs(t)
  {
  }

  lemma IntfsMonotone(s: seq<Observed>, n: nat)
    requires n <= |s|
    ensures |Intfs(s[..n])| <= |Intfs(s)|
  {
    assert Intfs(s[..n]) <= Intfs(s);
    SubsetSize(Intfs(s[..n]), Intfs(s));
  }

  lemma {:induction false} SubsetSize<T>(a: set<T>, b: set<T>)
    requires a <= b
    ensures |a| <= |b|
    decreases a
  {
    if a != {} {
      var x :| x in a;
      SubsetSize(a - {x}, b - {x});
    }
  }

  lemma HorizonOpen(s: seq<Observed>)
    requires |Intfs(s)| < MAX_OBSERVED_INTERFACES
    ensures Horizon(s) == |s|
  {
    if s != [] {
      IntfsMonotone(s, |s| - 1);
    }
  }

  lemma {:induction false} HorizonFull(s: seq<Observed>)
    requires |Intfs(s)| >= MAX_OBSERVED_INTERFACES
    ensures |Intfs(s[..Horizon(s)])| >= MAX_OBSERVED_INTERFACES
  {
    if Horizon(s) == |s| {
      assert s[..|s|] == s;
    } else {
      var r := s[..|s| - 1];
      HorizonFull(r);
      assert s[..Horizon(s)] == r[..Horizon(r)];
    }
  }

  /**
   * The observed-interface table after any packet sequence: at most six distinct entries, never the
   * first-seen interface nor index 0, with the directions seen up to the packet that filled it.
   */
  lemma {:induction false} ObservedOfHistory(hist: seq<Packet>)
    requires hist != []
    ensures var t, s := Replay(hist).observed, Others(hist, hist[0].ifIndex);
            && |t| <= 6
            && Describes(t, s[..Horizon(s)])
            && (Horizon(s) < |s| ==> |t| == 6)
            && forall i :: 0 <= i < |t| ==> t[i].intf != hist[0].ifIndex && t[i].intf != 0
  {
    var s := Others(hist, hist[0].ifIndex);
    ReplayObserved(hist);
    TableDescribes(s);
    var t := Table(s);
    forall i | 0 <= i < |t| ensures t[i].intf != hist[0].ifIndex && t[i].intf != 0 {
      assert t[i].intf in Intfs(t);
      assert t[i].intf in Intfs(s[..Horizon(s)]);
    }
  }

  // ----- Times -----

  ghost predicate Ordered(hist: seq<Packet>) {
    forall i, j :: 0 <= i < j < |hist| ==> hist[i].ts <= hist[j].ts
  }

  /** With packets handled in time order, a flow never ends before it starts nor after its last packet. */
  lemma {:induction false} ReplayTimes(hist: seq<Packet>)
    requires hist != [] && Ordered(hist)
    ensures Replay(hist).startTs <= Replay(hist).endTs <= hist[|hist| - 1].ts
  {
    if |hist| > 1 {
      ReplayTimes(hist[..|hist| - 1]);
      ReplayFirst(hist[..|hist| - 1]);
    }
  }

  // ----- Flags and last values -----

  /** The entry takes note of packet i: it came on the first-seen interface, or on another real one. */
  predicate Noted(hist: seq<Packet>, i: nat)
    requires i < |hist|
  {
    hist[i].ifIndex == hist[0].ifIndex || hist[i].ifIndex != 0
  }

  /** The flags are those of all packets taken note of. */
  lemma {:induction false} ReplayFlags(hist: seq<Packet>, b: nat)
    requires hist != []
    ensures b in Replay(hist).flags <==> exists i :: 0 <= i < |hist| && Noted(hist, i) && b in hist[i].flags
  {
    var n := |hist| - 1;
    if n == 0 {
      assert Noted(hist, 0);
    } else {
      ReplayFlags(hist[..n], b);
      ReplayFirst(hist[..n]);
      assert forall i :: 0 <= i < n ==> (Noted(hist, i) <==> Noted(hist[..n], i)) && hist[i] == hist[..n][i];
      assert Noted(hist, n) <==> hist[n].ifIndex == hist[0].ifIndex || hist[n].ifIndex != 0;
    }
  }

  /** The end time is that of the last packet taken note of. */
  lemma {:induction false} ReplayEnd(hist: seq<Packet>)
    requires hist != []
    ensures exists i :: 0 <= i < |hist| && Noted(hist, i) && Replay(hist).endTs == hist[i].ts
                        && forall j :: i < j < |hist| ==> !Noted(hist, j)
  {
    var n := |hist| - 1;
    if n == 0 {
      assert Noted(hist, 0);
    } else {
      ReplayEnd(hist[..n]);
      ReplayFirst(hist[..n]);
      assert forall i :: 0 <= i < n ==> (Noted(hist, i) <==> Noted(hist[..n], i)) && hist[i] == hist[..n][i];
      if !Noted(hist, n) {
        var k :| 0 <= k < n && Noted(hist[..n], k) && Replay(hist[..n]).endTs == hist[..n][k].ts
                 && forall j :: k < j < n ==> !Noted(hist[..n], j);
        assert Noted(hist, k);
      }
    }
  }

  /** DSCP and sampling are those of the last packet on the first-seen interface. */
  lemma {:induction false} ReplayLast(hist: seq<Packet>)
    requires hist != []
    ensures var own := OnIntf(hist, hist[0].ifIndex);
            own != [] && Replay(hist).dscp == own[|own| - 1].dscp && Replay(hist).sampling == own[|own| - 1].sampling
  {
    var n := |hist| - 1;
    OnIntfLast(hist, hist[0].ifIndex);
    if n > 0 {
      ReplayLast(hist[..n]);
      ReplayFirst(hist[..n]);
    }
  }

  /** Packet i gives the value v: it is the last ServerHello with a cipher suite, or the first packet. */
  ghost predicate CipherFrom(ps: seq<Packet>, i: nat, v: u16) {
    && i < |ps| && v == ps[i].tls.cipherSuite
    && (i == 0 || (ps[i].tls.kind == {1} && v > 0))
    && forall j :: i < j < |ps| ==> ps[j].tls.kind != {1} || ps[j].tls.cipherSuite == 0
  }

  ghost predicate ShareFrom(ps: seq<Packet>, i: nat, v: u16) {
    && i < |ps| && v == ps[i].tls.keyShare
    && (i == 0 || (ps[i].tls.kind == {1} && v > 0))
    && forall j :: i < j < |ps| ==> ps[j].tls.kind != {1} || ps[j].tls.keyShare == 0
  }

  lemma {:induction false} SummaryCipher(ps: seq<Packet>) returns (i: nat)
    requires ps != []
    ensures CipherFrom(ps, i, Summary(ps).cipherSuite)
  {
    var n := |ps| - 1;
    if n == 0 || (ps[n].tls.kind == SERVER_HELLO && ps[n].tls.cipherSuite > 0) {
      i := n;
    } else {
      i := SummaryCipher(ps[..n]);
      assert forall j :: 0 <= j < n ==> ps[j] == ps[..n][j];
    }
  }

  lemma {:induction false} SummaryShare(ps: seq<Packet>) returns (i: nat)
    requires ps != []
    ensures ShareFrom(ps, i, Summary(ps).keyShare)
  {
    var n := |ps| - 1;
    if n == 0 || (ps[n].tls.kind == SERVER_HELLO && ps[n].tls.keyShare > 0) {
      i := n;
    } else {
      i := SummaryShare(ps[..n]);
      assert forall j :: 0 <= j < n ==> ps[j] == ps[..n][j];
    }
  }

  /** Cipher suite and key share are those of the last ServerHello that gave one, else of the first packet. */
  lemma ChoicesOfHistory(hist: seq<Packet>)
    requires hist != []
    ensures exists i :: CipherFrom(OnIntf(hist, hist[0].ifIndex), i, Replay(hist).tls.cipherSuite)
    ensures exists i :: ShareFrom(OnIntf(hist, hist[0].ifIndex), i, Replay(hist).tls.keyShare)
  {
    ReplayTls(hist);
    var c := SummaryCipher(OnIntf(hist, hist[0].ifIndex));
    var k := SummaryShare(OnIntf(hist, hist[0].ifIndex));
  }
}
