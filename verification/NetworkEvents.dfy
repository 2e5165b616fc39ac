/** The four-slot ring of network events of a flow on one CPU (bpf/network_events_monitoring.h). */
module NetworkEvents {
  import opened Words
  import opened Saturating

  const MAX_NETWORK_EVENTS: nat := 4

  type Cookie = c: Bytes | |c| == 8 witness [0, 0, 0, 0, 0, 0, 0, 0]

  const ZERO_COOKIE: Cookie := [0, 0, 0, 0, 0, 0, 0, 0]

  datatype Event = Event(cookie: Cookie, len: u64)

  // ----- A FIFO cache of cookies with true totals -----

  /** `since` is the event that brought the cookie in. */
  datatype Slot = Slot(cookie: Cookie, packets: nat, bytes: nat, since: nat)

  function Find(f: seq<Slot>, c: Cookie): (i: nat)
    ensures i <= |f| && (i < |f| ==> f[i].cookie == c)
    ensures forall j :: 0 <= j < i ==> f[j].cookie != c
  {
    if f == [] || f[0].cookie == c then 0
    else
      var k := Find(f[1..], c);
      assert forall j :: 1 <= j < k + 1 ==> f[j] == f[1..][j - 1];
      k + 1
  }

  /**
   * An unknown cookie is admitted, unless it is all zeros and there is room left. The event that creates the
   * entry is admitted by force, whatever its cookie.
   */
  predicate Admits(f: seq<Slot>, e: Event, force: bool) {
    Find(f, e.cookie) == |f| && (|f| == MAX_NETWORK_EVENTS || e.cookie != ZERO_COOKIE || force)
  }

  function Grown(s: Slot, e: Event): Slot {
    s.(packets := s.packets + 1, bytes := s.bytes + e.len)
  }

  /** A known cookie adds to its totals; an admitted one goes last, and pushes the oldest out of a full cache. */
  function Push(f: seq<Slot>, e: Event, n: nat, force: bool): seq<Slot> {
    var i := Find(f, e.cookie);
    if i < |f| then f[i := Grown(f[i], e)]
    else if !Admits(f, e, force) then f
    else (if |f| < MAX_NETWORK_EVENTS then f else f[1..]) + [Slot(e.cookie, 1, e.len, n)]
  }

  /** The cache of a CPU that created the entry (`own`), or of one whose ring was zeroed by another's creation. */
  function Fifo(own: bool, log: seq<Event>): seq<Slot> {
    if log == [] then []
    else Push(Fifo(own, log[..|log| - 1]), log[|log| - 1], |log| - 1, own && |log| == 1)
  }

  /** How many events were admitted. */
  function Admitted(own: bool, log: seq<Event>): nat {
    if log == [] then 0
    else
      var front, last := log[..|log| - 1], log[|log| - 1];
      Admitted(own, front) + if Admits(Fifo(own, front), last, own && front == []) then 1 else 0
  }

  function TotalPackets(log: seq<Event>, c: Cookie): nat {
    if log == [] then 0 else TotalPackets(log[..|log| - 1], c) + if log[|log| - 1].cookie == c then 1 else 0
  }

  function TotalBytes(log: seq<Event>, c: Cookie): nat {
    if log == [] then 0
    else TotalBytes(log[..|log| - 1], c) + if log[|log| - 1].cookie == c then log[|log| - 1].len else 0
  }

  ghost predicate Distinct(f: seq<Slot>) {
    forall i, j :: 0 <= i < j < |f| ==> f[i].cookie != f[j].cookie
  }

  ghost predicate OldestFirst(f: seq<Slot>, n: nat) {
    && (forall i :: 0 <= i < |f| ==> f[i].since < n)
    && (forall i, j :: 0 <= i < j < |f| ==> f[i].since < f[j].since)
  }

  /** The slot's totals are those of the events since it was admitted. */
  ghost predicate Counts(log: seq<Event>, s: Slot) {
    && s.since < |log| && log[s.since].cookie == s.cookie
    && s.packets == TotalPackets(log[s.since..], s.cookie) && s.bytes == TotalBytes(log[s.since..], s.cookie)
  }

  lemma GrowKeeps(f: seq<Slot>, i: nat, e: Event, n: nat)
    requires i < |f| && Distinct(f) && OldestFirst(f, n)
    ensures Distinct(f[i := Grown(f[i], e)]) && OldestFirst(f[i := Grown(f[i], e)], n + 1)
  {
  }

  lemma AppendKeeps(f: seq<Slot>, e: Event, n: nat)
    requires Distinct(f) && OldestFirst(f, n) && forall i :: 0 <= i < |f| ==> f[i].cookie != e.cookie
    ensures Distinct(f + [Slot(e.cookie, 1, e.len, n)]) && OldestFirst(f + [Slot(e.cookie, 1, e.len, n)], n + 1)
  {
  }

  lemma PushKeeps(f: seq<Slot>, e: Event, n: nat, force: bool)
    requires |f| <= MAX_NETWORK_EVENTS && Distinct(f) && OldestFirst(f, n)
    ensures |Push(f, e, n, force)| <= MAX_NETWORK_EVENTS
    ensures Distinct(Push(f, e, n, force)) && OldestFirst(Push(f, e, n, force), n + 1)
  {
    var i := Find(f, e.cookie);
    if i < |f| {
      GrowKeeps(f, i, e, n);
    } else if |f| < MAX_NETWORK_EVENTS {
      AppendKeeps(f, e, n);
    } else {
      AppendKeeps(f[1..], e, n);
    }
  }

  /** The cache holds at most four distinct cookies, oldest first. */
  lemma {:induction false} FifoDistinct(own: bool, log: seq<Event>)
    ensures |Fifo(own, log)| <= 4 && Distinct(Fifo(own, log)) && OldestFirst(Fifo(own, log), |log|)
  {
    if log != [] {
      var n := |log| - 1;
      FifoDistinct(own, log[..n]);
      PushKeeps(Fifo(own, log[..n]), log[n], n, own && n == 0);
    }
  }

  lemma CountsStep(log: seq<Event>, e: Event, log': seq<Event>, s: Slot)
    requires log' == log + [e] && Counts(log, s)
    ensures Counts(log', if s.cookie == e.cookie then Grown(s, e) else s)
  {
    assert log'[s.since..] == log[s.since..] + [e];
    assert log'[s.since..][..|log| - s.since] == log[s.since..];
  }

  lemma CountsFirst(log: seq<Event>, n: nat)
    requires n + 1 == |log|
    ensures Counts(log, Slot(log[n].cookie, 1, log[n].len, n))
  {
    assert log[n..] == [log[n]] && [log[n]][..0] == [];
  }

  /** Every slot of the cache carries its totals since admission. */
  lemma {:induction false} FifoCounts(own: bool, log: seq<Event>, i: nat)
    requires i < |Fifo(own, log)|
    ensures Counts(log, Fifo(own, log)[i])
  {
    var n := |log| - 1;
    var f, e, force := Fifo(own, log[..n]), log[n], own && n == 0;
    FifoDistinct(own, log[..n]);
    assert log == log[..n] + [e];
    if Admits(f, e, force) && i == |Fifo(own, log)| - 1 {
      CountsFirst(log, n);
    } else {
      var k := if Admits(f, e, force) && |f| == MAX_NETWORK_EVENTS then i + 1 else i;
      FifoCounts(own, log[..n], k);
      CountsStep(log[..n], e, log, f[k]);
    }
  }

  /** Event n brought its cookie into the cache. */
  ghost predicate AdmittedAt(own: bool, log: seq<Event>, n: nat) {
    n < |log| && Admits(Fifo(own, log[..n]), log[n], own && n == 0)
  }

  /** It did iff the cookie was not there, and was set or met a full cache or created the entry. */
  lemma AdmissionMeans(own: bool, log: seq<Event>, n: nat)
    requires n < |log|
    ensures var f, c := Fifo(own, log[..n]), log[n].cookie;
            AdmittedAt(own, log, n) <==>
            && (forall i :: 0 <= i < |f| ==> f[i].cookie != c)
            && ((exists k :: 0 <= k < 8 && c[k] != 0) || |f| == 4 || (own && n == 0))
  {
    ZeroIsUnset(log[n].cookie);
  }

  lemma ZeroIsUnset(c: Cookie)
    ensures c != ZERO_COOKIE <==> exists k :: 0 <= k < 8 && c[k] != 0
  {
    if forall k :: 0 <= k < 8 ==> c[k] == 0 {
      assert forall k :: 0 <= k < 8 ==> c[k] == ZERO_COOKIE[k];
      assert c == ZERO_COOKIE;
    }
  }

  /** When the slots came in. */
  function Ages(f: seq<Slot>): (r: seq<nat>)
    ensures |r| == |f| && forall i :: 0 <= i < |f| ==> r[i] == f[i].since
  {
    seq(|f|, i requires 0 <= i < |f| => f[i].since)
  }

  /** What is let in goes last, and pushes the first of four out. */
  function Shifted(ages: seq<nat>, admitted: bool, n: nat): seq<nat> {
    if !admitted then ages else (if |ages| < 4 then ages else ages[1..]) + [n]
  }

  lemma PushAges(f: seq<Slot>, e: Event, n: nat, force: bool)
    requires |f| <= 4
    ensures Ages(Push(f, e, n, force)) == Shifted(Ages(f), Admits(f, e, force), n)
  {
  }

  /** The events that brought in what is there, told by the admissions alone. */
  ghost function Latest(own: bool, log: seq<Event>, n: nat): (ages: seq<nat>)
    requires n <= |log|
    ensures |ages| <= 4 && forall i :: 0 <= i < |ages| ==> ages[i] < n
    ensures forall i, j :: 0 <= i < j < |ages| ==> ages[i] < ages[j]
  {
    if n == 0 then [] else Shifted(Latest(own, log, n - 1), AdmittedAt(own, log, n - 1), n - 1)
  }

  lemma {:induction false} AgesAreLatest(own: bool, log: seq<Event>, n: nat)
    requires n <= |log|
    ensures Ages(Fifo(own, log[..n])) == Latest(own, log, n)
  {
    if n > 0 {
      var front := log[..n - 1];
      AgesAreLatest(own, log, n - 1);
      FifoDistinct(own, front);
      assert log[..n][..n - 1] == front;
      PushAges(Fifo(own, front), log[n - 1], n - 1, own && n == 1);
    }
  }

  /** What came in with event n is there, or was pushed out of a cache of four by what came in later. */
  ghost predicate InOrOut(ages: seq<nat>, n: nat) {
    n in ages || (|ages| == 4 && n < ages[0])
  }

  lemma ShiftedKeeps(ages: seq<nat>, admitted: bool, m: nat, n: nat)
    requires |ages| <= 4 && n < m && InOrOut(ages, n)
    requires (forall i, j :: 0 <= i < j < |ages| ==> ages[i] < ages[j])
    ensures InOrOut(Shifted(ages, admitted, m), n)
  {
    if n in ages && admitted {
      var i :| 0 <= i < |ages| && ages[i] == n;
      var out := if |ages| < 4 then 0 else 1;
      if i >= out {
        assert Shifted(ages, admitted, m)[i - out] == n;
      }
    }
  }

  lemma {:induction false} StaysUntil(own: bool, log: seq<Event>, n: nat, m: nat)
    requires n < m <= |log| && AdmittedAt(own, log, n)
    ensures InOrOut(Latest(own, log, m), n)
    decreases m
  {
    if n < m - 1 {
      StaysUntil(own, log, n, m - 1);
      ShiftedKeeps(Latest(own, log, m - 1), AdmittedAt(own, log, m - 1), m - 1, n);
    }
  }

  lemma {:induction false} LatestAdmitted(own: bool, log: seq<Event>, n: nat, m: nat)
    requires m <= |log| && n in Latest(own, log, m)
    ensures AdmittedAt(own, log, n)
    decreases m
  {
    if n in Latest(own, log, m - 1) {
      LatestAdmitted(own, log, n, m - 1);
    }
  }

  /** The cache is what came in last: exactly the events that were admitted and not pushed out by four later ones. */
  lemma LatestStay(own: bool, log: seq<Event>, n: nat)
    ensures n in Ages(Fifo(own, log)) ==> AdmittedAt(own, log, n)
    ensures AdmittedAt(own, log, n) ==> InOrOut(Ages(Fifo(own, log)), n)
  {
    assert log[..|log|] == log;
    AgesAreLatest(own, log, |log|);
    if n in Latest(own, log, |log|) {
      LatestAdmitted(own, log, n, |log|);
    }
    if AdmittedAt(own, log, n) {
      StaysUntil(own, log, n, |log|);
    }
  }

  // ----- The ring -----

  /** Position of the i-th oldest slot in a ring that writes next at idx. */
  function At(idx: nat, n: nat, i: nat): nat
    requires idx < MAX_NETWORK_EVENTS && i < n <= MAX_NETWORK_EVENTS
  {
    if n < MAX_NETWORK_EVENTS then i else if idx + i < MAX_NETWORK_EVENTS then idx + i else idx + i - MAX_NETWORK_EVENTS
  }

  /** Which slot of the cache position k of the ring holds. */
  function Age(idx: nat, n: nat, k: nat): nat
    requires idx < MAX_NETWORK_EVENTS && k < MAX_NETWORK_EVENTS
  {
    if n < MAX_NETWORK_EVENTS then k else if k < idx then k + MAX_NETWORK_EVENTS - idx else k - idx
  }

  ghost predicate Shows(es: seq<Cookie>, ps: seq<u16>, bs: seq<u16>, k: nat, s: Slot)
    requires |es| == |ps| == |bs| == MAX_NETWORK_EVENTS && k < MAX_NETWORK_EVENTS
  {
    es[k] == s.cookie && ps[k] == Cap(s.packets) && bs[k] == Cap(s.bytes)
  }

  /** The arrays show the cache, with capped totals; cookies of unused slots are zero. */
  ghost predicate Refines(es: seq<Cookie>, ps: seq<u16>, bs: seq<u16>, idx: nat, f: seq<Slot>) {
    && |es| == |ps| == |bs| == MAX_NETWORK_EVENTS && idx < MAX_NETWORK_EVENTS && |f| <= MAX_NETWORK_EVENTS
    && (|f| < MAX_NETWORK_EVENTS ==> idx == |f|)
    && ShowsFirst(es, ps, bs, idx, f, |f|)
    && ZeroFrom(es, |f|)
  }

  /** The n oldest slots of the cache are shown. */
  ghost predicate ShowsFirst(es: seq<Cookie>, ps: seq<u16>, bs: seq<u16>, idx: nat, f: seq<Slot>, n: nat)
    requires |es| == |ps| == |bs| == MAX_NETWORK_EVENTS && idx < MAX_NETWORK_EVENTS && n <= |f| <= MAX_NETWORK_EVENTS
    decreases n, es
  {
    n == 0 || (ShowsFirst(es, ps, bs, idx, f, n - 1) && Shows(es, ps, bs, At(idx, |f|, n - 1), f[n - 1]))
  }

  ghost predicate ZeroFrom(es: seq<Cookie>, k: nat)
    requires |es| == MAX_NETWORK_EVENTS
    decreases MAX_NETWORK_EVENTS - k, es
  {
    k >= MAX_NETWORK_EVENTS || (es[k] == ZERO_COOKIE && ZeroFrom(es, k + 1))
  }

  lemma {:induction false} ShownAt(es: seq<Cookie>, ps: seq<u16>, bs: seq<u16>, idx: nat, f: seq<Slot>, n: nat, i: nat)
    requires |es| == |ps| == |bs| == MAX_NETWORK_EVENTS && idx < MAX_NETWORK_EVENTS && n <= |f| <= MAX_NETWORK_EVENTS
    requires i < n && ShowsFirst(es, ps, bs, idx, f, n)
    ensures Shows(es, ps, bs, At(idx, |f|, i), f[i])
  {
    if i < n - 1 {
      ShownAt(es, ps, bs, idx, f, n - 1, i);
    }
  }

  lemma {:induction false} ShownAll(es: seq<Cookie>, ps: seq<u16>, bs: seq<u16>, idx: nat, f: seq<Slot>, n: nat)
    requires |es| == |ps| == |bs| == MAX_NETWORK_EVENTS && idx < MAX_NETWORK_EVENTS && n <= |f| <= MAX_NETWORK_EVENTS
    requires forall i :: 0 <= i < n ==> Shows(es, ps, bs, At(idx, |f|, i), f[i])
    ensures ShowsFirst(es, ps, bs, idx, f, n)
  {
    if n > 0 {
      ShownAll(es, ps, bs, idx, f, n - 1);
    }
  }

  lemma {:induction false} ZeroAt(es: seq<Cookie>, n: nat, k: nat)
    requires |es| == MAX_NETWORK_EVENTS && ZeroFrom(es, n) && n <= k < MAX_NETWORK_EVENTS
    ensures es[k] == ZERO_COOKIE
    decreases k - n
  {
    if n < k {
      ZeroAt(es, n + 1, k);
    }
  }

  lemma {:induction false} ZeroKept(es: seq<Cookie>, n: nat, k: nat, c: Cookie)
    requires |es| == MAX_NETWORK_EVENTS && ZeroFrom(es, n) && k < MAX_NETWORK_EVENTS && k < n
    ensures ZeroFrom(es[k := c], n)
    decreases MAX_NETWORK_EVENTS - n
  {
    if n < MAX_NETWORK_EVENTS {
      ZeroKept(es, n + 1, k, c);
    }
  }

  lemma MissAdmits(es: seq<Cookie>, ps: seq<u16>, bs: seq<u16>, idx: nat, f: seq<Slot>, e: Event)
    requires Refines(es, ps, bs, idx, f) && e.cookie !in es
    ensures Admits(f, e, false)
  {
    forall i | 0 <= i < |f| ensures f[i].cookie != e.cookie {
      ShownAt(es, ps, bs, idx, f, |f|, i);
    }
  }

  /** Moving the index on leaves the slots where they are; the oldest of a full ring makes room. */
  lemma Moved(idx: nat, n: nat, i: nat)
    requires idx < MAX_NETWORK_EVENTS && n <= MAX_NETWORK_EVENTS && (n < MAX_NETWORK_EVENTS ==> idx == n)
    ensures var n', idx' := if n < MAX_NETWORK_EVENTS then n + 1 else n, (idx + 1) % MAX_NETWORK_EVENTS;
            var drop := if n < MAX_NETWORK_EVENTS then 0 else 1;
            && (i + 1 < n' ==> At(idx', n', i) == At(idx, n, i + drop) != idx)
            && (i + 1 == n' ==> At(idx', n', i) == idx)
  {
  }

  /** Each slot of the cache after an admission is where it was, or is the one just written. */
  lemma MissShows(es: seq<Cookie>, ps: seq<u16>, bs: seq<u16>, idx: nat, f: seq<Slot>, e: Event, n: nat, i: nat)
    requires Refines(es, ps, bs, idx, f) && Admits(f, e, false) && i < |Push(f, e, n, false)|
    ensures |Push(f, e, n, false)| <= MAX_NETWORK_EVENTS
    ensures Shows(es[idx := e.cookie], ps[idx := 1], bs[idx := AddLen(0, e.len)],
                  At((idx + 1) % MAX_NETWORK_EVENTS, |Push(f, e, n, false)|, i), Push(f, e, n, false)[i])
  {
    AddsSaturate(0, e.len);
    Moved(idx, |f|, i);
    if i < |Push(f, e, n, false)| - 1 {
      ShownAt(es, ps, bs, idx, f, |f|, if |f| < MAX_NETWORK_EVENTS then i else i + 1);
    }
  }

  lemma MissRefines(es: seq<Cookie>, ps: seq<u16>, bs: seq<u16>, idx: nat, f: seq<Slot>, e: Event, n: nat)
    requires Refines(es, ps, bs, idx, f) && Admits(f, e, false)
    ensures Refines(es[idx := e.cookie], ps[idx := 1], bs[idx := AddLen(0, e.len)],
                    (idx + 1) % MAX_NETWORK_EVENTS, Push(f, e, n, false))
  {
    var f', idx' := Push(f, e, n, false), (idx + 1) % MAX_NETWORK_EVENTS;
    var es', ps', bs' := es[idx := e.cookie], ps[idx := 1], bs[idx := AddLen(0, e.len)];
    forall i | 0 <= i < |f'| ensures Shows(es', ps', bs', At(idx', |f'|, i), f'[i]) {
      MissShows(es, ps, bs, idx, f, e, n, i);
    }
    ShownAll(es', ps', bs', idx', f', |f'|);
    if |f| < MAX_NETWORK_EVENTS {
      ZeroKept(es, |f| + 1, idx, e.cookie);
    }
  }

  /** The first slot with a cookie of the cache is the slot of that cookie. */
  lemma HitIsThere(es: seq<Cookie>, ps: seq<u16>, bs: seq<u16>, idx: nat, f: seq<Slot>, c: Cookie, k: nat)
    requires Refines(es, ps, bs, idx, f) && Distinct(f) && k < MAX_NETWORK_EVENTS && es[k] == c
    requires forall j :: 0 <= j < k ==> es[j] != c
    ensures Find(f, c) < |f| ==> At(idx, |f|, Find(f, c)) == k
    ensures Find(f, c) == |f| ==> |f| <= k && c == ZERO_COOKIE
  {
    var h, i := Find(f, c), Age(idx, |f|, k);
    if h < |f| {
      ShownAt(es, ps, bs, idx, f, |f|, h);
    }
    if i < |f| {
      assert At(idx, |f|, i) == k;
      ShownAt(es, ps, bs, idx, f, |f|, i);
    } else {
      ZeroAt(es, |f|, k);
    }
  }

  lemma HitRefines(es: seq<Cookie>, ps: seq<u16>, bs: seq<u16>, idx: nat, f: seq<Slot>, e: Event, k: nat, n: nat)
    requires Refines(es, ps, bs, idx, f) && Distinct(f) && k < MAX_NETWORK_EVENTS && es[k] == e.cookie
    requires forall j :: 0 <= j < k ==> es[j] != e.cookie
    ensures !Admits(f, e, false)
    ensures Refines(es, ps[k := AddLen(ps[k], 1)], bs[k := AddLen(bs[k], e.len)], idx, Push(f, e, n, false))
  {
    HitIsThere(es, ps, bs, idx, f, e.cookie, k);
    var h, f' := Find(f, e.cookie), Push(f, e, n, false);
    var ps', bs' := ps[k := AddLen(ps[k], 1)], bs[k := AddLen(bs[k], e.len)];
    AddsSaturate(ps[k], 1);
    AddsSaturate(bs[k], e.len);
    forall i | 0 <= i < |f'| ensures Shows(es, ps', bs', At(idx, |f'|, i), f'[i]) {
      ShownAt(es, ps, bs, idx, f, |f|, i);
      if i == h {
        CapAdd(f[h].packets, 1);
        CapAdd(f[h].bytes, e.len);
      } else {
        assert At(idx, |f|, i) != k;
      }
    }
    ShownAll(es, ps', bs', idx, f', |f'|);
  }

  lemma FifoLast(own: bool, log: seq<Event>, e: Event)
    requires own ==> log != []
    ensures Fifo(own, log + [e]) == Push(Fifo(own, log), e, |log|, false)
    ensures Admitted(own, log + [e]) == Admitted(own, log) + if Admits(Fifo(own, log), e, false) then 1 else 0
  {
    assert (log + [e])[..|log|] == log;
  }

  /** The ring is the cache of the log, and the overflow counter tells how often the index came round. */
  ghost predicate Reflects(es: seq<Cookie>, ps: seq<u16>, bs: seq<u16>, idx: nat, overflows: nat, own: bool,
                           log: seq<Event>) {
    && (own ==> log != [])
    && Refines(es, ps, bs, idx, Fifo(own, log))
    && Admitted(own, log) == MAX_NETWORK_EVENTS * overflows + idx
  }

  lemma Missed(es: seq<Cookie>, ps: seq<u16>, bs: seq<u16>, idx: nat, overflows: nat, own: bool, log: seq<Event>,
               e: Event)
    requires Reflects(es, ps, bs, idx, overflows, own, log)
    requires e.cookie !in es
    ensures Reflects(es[idx := e.cookie], ps[idx := 1], bs[idx := AddLen(0, e.len)], (idx + 1) % MAX_NETWORK_EVENTS,
                     if (idx + 1) % MAX_NETWORK_EVENTS == 0 then overflows + 1 else overflows, own, log + [e])
  {
    FifoLast(own, log, e);
    MissAdmits(es, ps, bs, idx, Fifo(own, log), e);
    MissRefines(es, ps, bs, idx, Fifo(own, log), e, |log|);
  }

  lemma Hit(es: seq<Cookie>, ps: seq<u16>, bs: seq<u16>, idx: nat, overflows: nat, own: bool, log: seq<Event>,
            e: Event, k: nat)
    requires Reflects(es, ps, bs, idx, overflows, own, log) && k < MAX_NETWORK_EVENTS && es[k] == e.cookie
    requires forall j :: 0 <= j < k ==> es[j] != e.cookie
    ensures Reflects(es, ps[k := AddLen(ps[k], 1)], bs[k := AddLen(bs[k], e.len)], idx, overflows, own, log + [e])
  {
    FifoLast(own, log, e);
    FifoDistinct(own, log);
    HitRefines(es, ps, bs, idx, Fifo(own, log), e, k, |log|);
  }

  lemma {:induction false} ZeroAll(es: seq<Cookie>, n: nat)
    requires |es| == MAX_NETWORK_EVENTS && forall k :: n <= k < MAX_NETWORK_EVENTS ==> es[k] == ZERO_COOKIE
    ensures ZeroFrom(es, n)
    decreases MAX_NETWORK_EVENTS - n
  {
    if n < MAX_NETWORK_EVENTS {
      ZeroAll(es, n + 1);
    }
  }

  lemma CreatedReflects(es: seq<Cookie>, ps: seq<u16>, bs: seq<u16>, cookie: Cookie, len: u64)
    requires |es| == |ps| == |bs| == MAX_NETWORK_EVENTS && es[0] == cookie && ps[0] == 1 && bs[0] == AddLen(0, len)
    requires forall k :: 1 <= k < MAX_NETWORK_EVENTS ==> es[k] == ZERO_COOKIE
    ensures Reflects(es, ps, bs, 1, 0, true, [Event(cookie, len)])
  {
    var log := [Event(cookie, len)];
    assert log[..0] == [];
    AddsSaturate(0, len);
    assert Fifo(true, log) == [Slot(cookie, 1, len, 0)];
    ShownAll(es, ps, bs, 1, Fifo(true, log), 1);
    ZeroAll(es, 1);
  }

  lemma ZeroedReflects(es: seq<Cookie>, ps: seq<u16>, bs: seq<u16>)
    requires |es| == |ps| == |bs| == MAX_NETWORK_EVENTS
    requires forall k :: 0 <= k < MAX_NETWORK_EVENTS ==> es[k] == ZERO_COOKIE
    ensures Reflects(es, ps, bs, 0, 0, false, [])
  {
    ZeroAll(es, 0);
  }

  class Ring {
    const events: array<Cookie>
    const packets: array<u16>
    const bytes: array<u16>
    var idx: nat
    var overflows: nat
    ghost const own: bool
    ghost var log: seq<Event>

    ghost predicate Valid()
      reads this, events, packets, bytes
    {
      && packets != bytes
      && Reflects(events[..], packets[..], bytes[..], idx, overflows, own, log)
    }

    /** The create path of trace_network_events, on the CPU that takes it. */
    constructor (cookie: Cookie, len: u64)
      ensures Valid() && own && log == [Event(cookie, len)] && overflows == 0
      ensures fresh(events) && fresh(packets) && fresh(bytes)
    {
      events := new Cookie[MAX_NETWORK_EVENTS](_ => ZERO_COOKIE);
      packets := new u16[MAX_NETWORK_EVENTS](_ => 0);
      bytes := new u16[MAX_NETWORK_EVENTS](_ => 0);
      idx, overflows := 0, 0;
      own, log := true, [Event(cookie, len)];
      new;
      events[0] := cookie;
      packets[0] := 1;
      bytes[0] := AddLen(0, len);
      idx := idx + 1;
      CreatedReflects(events[..], packets[..], bytes[..], cookie, len);
    }

    /** The ring that the creation on another CPU leaves on this one. */
    constructor Zeroed()
      ensures Valid() && !own && log == [] && overflows == 0
      ensures fresh(events) && fresh(packets) && fresh(bytes)
    {
      events := new Cookie[MAX_NETWORK_EVENTS](_ => ZERO_COOKIE);
      packets := new u16[MAX_NETWORK_EVENTS](_ => 0);
      bytes := new u16[MAX_NETWORK_EVENTS](_ => 0);
      idx, overflows := 0, 0;
      own, log := false, [];
      new;
      ZeroedReflects(events[..], packets[..], bytes[..]);
    }

    /** md_already_exists. */
    method Exists(cookie: Cookie) returns (i: int)
      requires events.Length == MAX_NETWORK_EVENTS
      ensures -1 <= i < MAX_NETWORK_EVENTS
      ensures i >= 0 ==> events[i] == cookie && forall j :: 0 <= j < i ==> events[j] != cookie
      ensures i < 0 ==> cookie !in events[..]
    {
      for k := 0 to MAX_NETWORK_EVENTS
        invariant forall j :: 0 <= j < k ==> events[j] != cookie
      {
        if events[k] == cookie {
          return k;
        }
      }
      return -1;
    }

    method Write(cookie: Cookie, len: u64)
      requires packets != bytes && events.Length == packets.Length == bytes.Length == MAX_NETWORK_EVENTS
      requires idx < MAX_NETWORK_EVENTS
      modifies this`idx, this`overflows, events, packets, bytes
      ensures events[..] == old(events[..])[old(idx) := cookie]
      ensures packets[..] == old(packets[..])[old(idx) := 1]
      ensures bytes[..] == old(bytes[..])[old(idx) := AddLen(0, len)]
      ensures idx == (old(idx) + 1) % MAX_NETWORK_EVENTS
      ensures overflows == if idx == 0 then old(overflows) + 1 else old(overflows)
    {
      events[idx] := cookie;
      packets[idx] := 1;
      bytes[idx] := AddLen(0, len);
      idx := (idx + 1) % MAX_NETWORK_EVENTS;
      if idx == 0 {
        overflows := overflows + 1;
      }
    }

    method Count(cookie: Cookie, len: u64, k: nat)
      requires Valid() && k < MAX_NETWORK_EVENTS
      requires events[k] == cookie && forall j :: 0 <= j < k ==> events[j] != cookie
      modifies this`log, packets, bytes
      ensures Valid() && log == old(log) + [Event(cookie, len)]
    {
      ghost var e, ps, bs := Event(cookie, len), packets[..], bytes[..];
      Hit(events[..], ps, bs, idx, overflows, own, log, e, k);
      packets[k] := AddLen(packets[k], 1);
      bytes[k] := AddLen(bytes[k], len);
      assert packets[..] == ps[k := AddLen(ps[k], 1)] && bytes[..] == bs[k := AddLen(bs[k], len)];
      log := log + [e];
    }

    method Enter(cookie: Cookie, len: u64)
      requires Valid() && cookie !in events[..]
      modifies this, events, packets, bytes
      ensures Valid() && log == old(log) + [Event(cookie, len)]
    {
      ghost var es, ps, bs, i := events[..], packets[..], bytes[..], idx;
      Missed(es, ps, bs, idx, overflows, own, log, Event(cookie, len));
      Write(cookie, len);
      log := log + [Event(cookie, len)];
      assert events[..] == es[i := cookie] && packets[..] == ps[i := 1] && bytes[..] == bs[i := AddLen(0, len)];
    }

    /** lookup_and_update_existing_flow_network_events on a flow that is there. */
    method Update(cookie: Cookie, len: u64)
      requires Valid()
      modifies this, events, packets, bytes
      ensures Valid() && log == old(log) + [Event(cookie, len)]
    {
      var k := Exists(cookie);
      if k < 0 {
        Enter(cookie, len);
      } else {
        Count(cookie, len, k);
      }
    }
  }

  /** A zero cookie that comes first on a zeroed ring is not remembered. */
  method ZeroCookieForgotten(len: u64) returns (ring: Ring)
    ensures fresh(ring) && ring.Valid() && ring.log == [Event(ZERO_COOKIE, len)]
    ensures Fifo(ring.own, ring.log) == [] && ring.idx == 0
  {
    ring := new Ring.Zeroed();
    ring.Update(ZERO_COOKIE, len);
    assert [Event(ZERO_COOKIE, len)][..0] == [];
  }

  /**
   * What the ring shows of any run: every slot of the cache with its totals since admission capped at 65535,
   * the oldest at the index once the ring is full.
   */
  lemma RingIsFifo(es: seq<Cookie>, ps: seq<u16>, bs: seq<u16>, idx: nat, own: bool, log: seq<Event>, i: nat)
    requires Refines(es, ps, bs, idx, Fifo(own, log)) && i < |Fifo(own, log)|
    ensures var s, k := Fifo(own, log)[i], At(idx, |Fifo(own, log)|, i);
            && s.since < |log| && es[k] == s.cookie == log[s.since].cookie
            && ps[k] == Cap(TotalPackets(log[s.since..], s.cookie))
            && bs[k] == Cap(TotalBytes(log[s.since..], s.cookie))
    ensures |Fifo(own, log)| == 4 && i > 0 ==>
              Fifo(own, log)[0].since < Fifo(own, log)[i].since && es[idx] == Fifo(own, log)[0].cookie
  {
    FifoDistinct(own, log);
    FifoCounts(own, log, i);
    ShownAt(es, ps, bs, idx, Fifo(own, log), |Fifo(own, log)|, i);
    ShownAt(es, ps, bs, idx, Fifo(own, log), |Fifo(own, log)|, 0);
  }

  lemma HeldBy(es: seq<Cookie>, ps: seq<u16>, bs: seq<u16>, idx: nat, f: seq<Slot>, k: nat)
    requires Refines(es, ps, bs, idx, f) && k < MAX_NETWORK_EVENTS && Age(idx, |f|, k) < |f|
    ensures es[k] == f[Age(idx, |f|, k)].cookie
  {
    ShownAt(es, ps, bs, idx, f, |f|, Age(idx, |f|, k));
  }

  /** No two slots hold the same cookie, but for zero cookies. */
  lemma NoDuplicates(es: seq<Cookie>, ps: seq<u16>, bs: seq<u16>, idx: nat, own: bool, log: seq<Event>, i: nat, j: nat)
    requires Refines(es, ps, bs, idx, Fifo(own, log)) && i < j < MAX_NETWORK_EVENTS && es[i] == es[j]
    ensures es[i] == ZERO_COOKIE
  {
    var f := Fifo(own, log);
    FifoDistinct(own, log);
    if Age(idx, |f|, i) >= |f| {
      ZeroAt(es, |f|, i);
    } else if Age(idx, |f|, j) >= |f| {
      ZeroAt(es, |f|, j);
    } else {
      HeldBy(es, ps, bs, idx, f, i);
      HeldBy(es, ps, bs, idx, f, j);
    }
  }
}
