/** Which outcome follows from what happened to a packet, told by the events alone. */
module Outcomes {
  import opened Words
  import opened Flows
  import opened FlowEntry
  import opened Aggregation

  // ----- What the events say -----

  function Arrivals(es: seq<Event>): nat {
    if es == [] then 0 else Arrivals(es[..|es| - 1]) + if es[|es| - 1].Arrive? then 1 else 0
  }

  /** The elements made so far: one for each insert that succeeded. */
  function Inserts(es: seq<Event>): nat {
    if es == [] then 0 else Inserts(es[..|es| - 1]) + if IsInserted(es[|es| - 1]) then 1 else 0
  }

  predicate IsInserted(e: Event) {
    e.Insert? && e.result == Inserted
  }

  /** The packet that came last on a CPU. */
  function LastOn(es: seq<Event>, c: Cpu): Option<Packet> {
    if es == [] then None
    else
      var e := es[|es| - 1];
      if e.Arrive? && e.cpu == c then Some(e.p) else LastOn(es[..|es| - 1], c)
  }

  /** The element under a key: that of the last insert for it that succeeded, unless it was taken since. */
  function Element(es: seq<Event>, id: FlowId): Option<nat> {
    if es == [] then None
    else
      var front, e := es[..|es| - 1], es[|es| - 1];
      if e == Evict(id) then None
      else if IsInserted(e) && LastOn(front, e.cpu).Some? && LastOn(front, e.cpu).value.id == id
      then Some(Inserts(front))
      else Element(front, id)
  }

  /** What a CPU did for a packet, and what it found. */
  datatype Did =
    | Looked(found: Option<nat>)
    | Made(slot: nat)
    | FoundMade
    | WasRefused(errno: u8)
    | LookedAgain(found: Option<nat>)
    | UpdatedIt
    | Reserved(ok: bool)

  predicate OnCpu(e: Event, c: Cpu) {
    !e.Evict? && e.cpu == c
  }

  function DidOf(front: seq<Event>, id: FlowId, e: Event): Did
    requires !e.Arrive? && !e.Evict?
  {
    match e
    case Lookup(_) => Looked(Element(front, id))
    case Insert(_, Inserted) => Made(Inserts(front))
    case Insert(_, Exists) => FoundMade
    case Insert(_, Refused(errno)) => WasRefused(errno)
    case Relookup(_) => LookedAgain(Element(front, id))
    case LockedUpdate(_) => UpdatedIt
    case Reserve(_, ok) => Reserved(ok)
  }

  /** Another packet came on the CPU after the one at a. */
  predicate Over(es: seq<Event>, a: nat, c: Cpu) {
    exists k :: a < k < |es| && es[k].Arrive? && es[k].cpu == c
  }

  /** All that the CPU of the packet that came at a did for it, in order. */
  function Story(es: seq<Event>, a: nat): seq<Did>
    requires a < |es| && es[a].Arrive?
  {
    if |es| == a + 1 then []
    else
      var front, e := es[..|es| - 1], es[|es| - 1];
      Story(front, a)
      + if OnCpu(e, es[a].cpu) && !e.Arrive? && !Over(front, a, es[a].cpu) then [DidOf(front, es[a].p.id, e)] else []
  }

  // ----- What follows from a story -----

  /** The key was found, at the first or the second lookup. */
  ghost predicate Found(story: seq<Did>, slot: nat) {
    story == [Looked(Some(slot))] || story == [Looked(None), FoundMade, LookedAgain(Some(slot))]
  }

  /** The outcome of a story that has come to its end. */
  ghost predicate Ends(ringbuf: bool, c: Cpu, story: seq<Did>, f: Fate) {
    match f
    case Merged(slot) =>
      || story == [Looked(None), Made(slot)]
      || story == [Looked(Some(slot)), UpdatedIt]
      || story == [Looked(None), FoundMade, LookedAgain(Some(slot)), UpdatedIt]
    case Rung => ringbuf && exists errno :: story == [Looked(None), WasRefused(errno), Reserved(true)]
    case Unsent => ringbuf && exists errno :: story == [Looked(None), WasRefused(errno), Reserved(false)]
    case NotCreated(d) => !ringbuf && d == c && exists errno :: story == [Looked(None), WasRefused(errno)]
    case NotUpdated(d) => d == c && story == [Looked(None), FoundMade, LookedAgain(None)]
  }

  /** Where the CPU is in a story that goes on. */
  ghost predicate GoesOn(ringbuf: bool, story: seq<Did>, pc: Pc) {
    match pc
    case Idle => false
    case Looking(_) => story == []
    case Holding(_, slot) => Found(story, slot)
    case Inserting(_) => story == [Looked(None)]
    case Retrying(_) => story == [Looked(None), FoundMade]
    case Reserving(_, errno) => ringbuf && story == [Looked(None), WasRefused(errno)]
  }

  /** A ring record of the packet carries the error of its own insert. */
  ghost predicate RingTells(r: Run, n: nat, story: seq<Did>) {
    && |r.s.ring| == |r.l.rung|
    && forall j :: 0 <= j < |r.l.rung| && r.l.rung[j].serial == n ==>
         story == [Looked(None), WasRefused(r.s.ring[j].1.errno), Reserved(true)]
  }

  // ----- The table and the CPUs are what the events say -----

  function Slot(s: State, id: FlowId): Option<nat> {
    if id in s.table then Some(s.table[id]) else None
  }

  ghost predicate Counts(es: seq<Event>, r: Run) {
    |r.s.memory| == Inserts(es) && |r.l.arrivals| == Arrivals(es)
  }

  ghost predicate CpuTold(es: seq<Event>, s: State, c: Cpu) {
    PcOf(s, c) != Idle ==> LastOn(es, c) == Some(PcOf(s, c).x.pkt)
  }

  ghost predicate TableTold(es: seq<Event>, r: Run) {
    && Counts(es, r)
    && (forall id :: Slot(r.s, id) == Element(es, id))
    && (forall c :: CpuTold(es, r.s, c))
  }

  lemma CountsStep(ringbuf: bool, es: seq<Event>, r: Run, e: Event)
    requires CanStep(r, e) && es != [] && es[|es| - 1] == e && Counts(es[..|es| - 1], r)
    ensures Counts(es, Next(ringbuf, r, e))
  {
  }

  lemma CpuStep(ringbuf: bool, es: seq<Event>, r: Run, e: Event, c: Cpu)
    requires CanStep(r, e) && es != [] && es[|es| - 1] == e && CpuTold(es[..|es| - 1], r.s, c)
    ensures CpuTold(es, Next(ringbuf, r, e).s, c)
  {
  }

  lemma SlotStep(ringbuf: bool, es: seq<Event>, r: Run, e: Event, id: FlowId)
    requires CanStep(r, e) && es != [] && es[|es| - 1] == e && TableTold(es[..|es| - 1], r)
    ensures Slot(Next(ringbuf, r, e).s, id) == Element(es, id)
  {
    if e.Insert? {
      assert CpuTold(es[..|es| - 1], r.s, e.cpu);
    }
  }

  lemma {:induction false} RunTable(ringbuf: bool, es: seq<Event>)
    requires Exec(ringbuf, es).Some?
    ensures TableTold(es, Exec(ringbuf, es).value)
  {
    if es != [] {
      var front, e := es[..|es| - 1], es[|es| - 1];
      RunTable(ringbuf, front);
      var r := Exec(ringbuf, front).value;
      CountsStep(ringbuf, es, r, e);
      forall c ensures CpuTold(es, Next(ringbuf, r, e).s, c) {
        CpuStep(ringbuf, es, r, e, c);
      }
      forall id ensures Slot(Next(ringbuf, r, e).s, id) == Element(es, id) {
        SlotStep(ringbuf, es, r, e, id);
      }
    }
  }

  // ----- The outcome is what the story says -----

  /** The packet that came at a: its fate if it has one, else where its CPU is. */
  ghost predicate Told(ringbuf: bool, es: seq<Event>, a: nat, r: Run)
    requires a < |es| && es[a].Arrive?
  {
    var c, n, story := es[a].cpu, Arrivals(es[..a]), Story(es, a);
    && n < |r.l.arrivals| && r.l.arrivals[n] == es[a].p
    && RingTells(r, n, story)
    && if n in r.l.fates
       then Ends(ringbuf, c, story, r.l.fates[n]) && (!Over(es, a, c) ==> PcOf(r.s, c) == Idle)
       else !Over(es, a, c) && GoesOn(ringbuf, story, PcOf(r.s, c)) && PcOf(r.s, c).x == Tagged(n, es[a].p)
  }

  /** The serial of the packet that a step settles. */
  ghost predicate Settles(r: Run, e: Event, n: nat) {
    !e.Arrive? && !e.Evict? && PcOf(r.s, e.cpu) != Idle && PcOf(r.s, e.cpu).x.serial == n
  }

  /** A step leaves alone the fate and the ring record of every packet but the one it works on. */
  lemma OthersKept(ringbuf: bool, r: Run, e: Event, n: nat)
    requires CanStep(r, e) && !Settles(r, e, n) && |r.s.ring| == |r.l.rung|
    ensures var r' := Next(ringbuf, r, e);
            && (n in r'.l.fates <==> n in r.l.fates) && (n in r.l.fates ==> r'.l.fates[n] == r.l.fates[n])
            && |r'.s.ring| == |r'.l.rung|
            && forall j :: 0 <= j < |r'.l.rung| && r'.l.rung[j].serial == n ==>
                 j < |r.l.rung| && r'.l.rung[j] == r.l.rung[j] && r'.s.ring[j] == r.s.ring[j]
  {
  }

  lemma ArrivalsKept(ringbuf: bool, r: Run, e: Event, n: nat)
    requires CanStep(r, e) && n < |r.l.arrivals|
    ensures n < |Next(ringbuf, r, e).l.arrivals| && Next(ringbuf, r, e).l.arrivals[n] == r.l.arrivals[n]
  {
  }

  lemma PcKept(ringbuf: bool, r: Run, e: Event, c: Cpu)
    requires CanStep(r, e) && !OnCpu(e, c)
    ensures PcOf(Next(ringbuf, r, e).s, c) == PcOf(r.s, c)
  {
  }

  lemma StoryStep(es: seq<Event>, a: nat)
    requires a < |es| - 1 && es[a].Arrive?
    ensures var front, e, c := es[..|es| - 1], es[|es| - 1], es[a].cpu;
            && front[a] == es[a] && front[..a] == es[..a]
            && (Over(es, a, c) <==> Over(front, a, c) || (e.Arrive? && e.cpu == c))
            && (OnCpu(e, c) && !e.Arrive? && !Over(front, a, c) ==>
                  Story(es, a) == Story(front, a) + [DidOf(front, es[a].p.id, e)])
            && (!OnCpu(e, c) || e.Arrive? || Over(front, a, c) ==> Story(es, a) == Story(front, a))
  {
    var front, e, c := es[..|es| - 1], es[|es| - 1], es[a].cpu;
    if Over(front, a, c) {
      var k :| a < k < |front| && front[k].Arrive? && front[k].cpu == c;
      assert es[k] == front[k];
    }
    if e.Arrive? && e.cpu == c {
      assert es[|es| - 1].Arrive?;
    }
  }

  /** A step that does not work on the packet. */
  lemma ToldElsewhere(ringbuf: bool, es: seq<Event>, a: nat, r: Run, e: Event)
    requires a < |es| - 1 && es[a].Arrive? && es[|es| - 1] == e && CanStep(r, e) && CpusOk(r)
    requires Told(ringbuf, es[..|es| - 1], a, r)
    requires !OnCpu(e, es[a].cpu) || e.Arrive? || Over(es[..|es| - 1], a, es[a].cpu)
    ensures Told(ringbuf, es, a, Next(ringbuf, r, e))
  {
    var c, n := es[a].cpu, Arrivals(es[..a]);
    StoryStep(es, a);
    assert !Settles(r, e, n);
    OthersKept(ringbuf, r, e, n);
    ArrivalsKept(ringbuf, r, e, n);
    if !OnCpu(e, c) {
      PcKept(ringbuf, r, e, c);
    }
  }

  /** The packet's own step, given what it did: it settles the packet, or moves its CPU on. */
  lemma OwnStep(ringbuf: bool, r: Run, e: Event, story: seq<Did>, did: Did, x: Tagged)
    requires CanStep(r, e) && !e.Arrive? && !e.Evict?
    requires GoesOn(ringbuf, story, PcOf(r.s, e.cpu)) && PcOf(r.s, e.cpu).x == x && x.serial !in r.l.fates
    requires DidBy(r, e, x, did)
    ensures var r' := Next(ringbuf, r, e);
            if x.serial in r'.l.fates
            then Ends(ringbuf, e.cpu, story + [did], r'.l.fates[x.serial]) && PcOf(r'.s, e.cpu) == Idle
            else GoesOn(ringbuf, story + [did], PcOf(r'.s, e.cpu)) && PcOf(r'.s, e.cpu).x == x
  {
  }

  /** What the step does, in terms of the state. */
  ghost predicate DidBy(r: Run, e: Event, x: Tagged, did: Did) {
    match e
    case Arrive(_, _) => false
    case Evict(_) => false
    case Lookup(_) => did == Looked(Slot(r.s, x.pkt.id))
    case Insert(_, Inserted) => did == Made(|r.s.memory|)
    case Insert(_, Exists) => did == FoundMade
    case Insert(_, Refused(errno)) => did == WasRefused(errno)
    case Relookup(_) => did == LookedAgain(Slot(r.s, x.pkt.id))
    case LockedUpdate(_) => did == UpdatedIt
    case Reserve(_, ok) => did == Reserved(ok)
  }

  /** No ring record is there before the packet is settled, and the one made then carries the error. */
  lemma OwnRing(ringbuf: bool, r: Run, e: Event, story: seq<Did>, did: Did, x: Tagged)
    requires CanStep(r, e) && !e.Arrive? && !e.Evict? && RingOk(r)
    requires GoesOn(ringbuf, story, PcOf(r.s, e.cpu)) && PcOf(r.s, e.cpu).x == x && x.serial !in r.l.fates
    requires DidBy(r, e, x, did)
    ensures RingTells(Next(ringbuf, r, e), x.serial, story + [did])
  {
    assert forall j :: 0 <= j < |r.l.rung| ==> r.l.rung[j].serial != x.serial;
  }

  lemma ToldHere(ringbuf: bool, es: seq<Event>, a: nat, r: Run, e: Event)
    requires a < |es| - 1 && es[a].Arrive? && es[|es| - 1] == e && CanStep(r, e) && RingOk(r)
    requires Told(ringbuf, es[..|es| - 1], a, r) && TableTold(es[..|es| - 1], r)
    requires OnCpu(e, es[a].cpu) && !e.Arrive? && !Over(es[..|es| - 1], a, es[a].cpu)
    ensures Told(ringbuf, es, a, Next(ringbuf, r, e))
  {
    var front, n := es[..|es| - 1], Arrivals(es[..a]);
    var story, did, x := Story(front, a), DidOf(front, es[a].p.id, e), Tagged(n, es[a].p);
    StoryStep(es, a);
    ArrivalsKept(ringbuf, r, e, n);
    assert Slot(r.s, es[a].p.id) == Element(front, es[a].p.id);
    OwnStep(ringbuf, r, e, story, did, x);
    OwnRing(ringbuf, r, e, story, did, x);
  }

  lemma ToldFirst(ringbuf: bool, es: seq<Event>, r: Run, e: Event)
    requires es != [] && es[|es| - 1] == e && e.Arrive? && CanStep(r, e) && CoveredOk(r) && RingOk(r) && Counts(es[..|es| - 1], r)
    ensures Told(ringbuf, es, |es| - 1, Next(ringbuf, r, e))
  {
    var n := |r.l.arrivals|;
    assert n !in r.l.fates;
    OthersKept(ringbuf, r, e, n);
  }

  /** For every run and every packet: its fate, or where its CPU is, is what its story says. */
  lemma {:induction false} OutcomeIsTold(ringbuf: bool, es: seq<Event>, a: nat)
    requires Exec(ringbuf, es).Some? && a < |es| && es[a].Arrive?
    ensures Told(ringbuf, es, a, Exec(ringbuf, es).value)
  {
    var front, e := es[..|es| - 1], es[|es| - 1];
    var r := Exec(ringbuf, front).value;
    EveryRunIsAccounted(ringbuf, front);
    RunTable(ringbuf, front);
    if a == |es| - 1 {
      ToldFirst(ringbuf, es, r, e);
    } else {
      assert front[a] == es[a];
      OutcomeIsTold(ringbuf, front, a);
      if OnCpu(e, es[a].cpu) && !e.Arrive? && !Over(front, a, es[a].cpu) {
        ToldHere(ringbuf, es, a, r, e);
      } else {
        ToldElsewhere(ringbuf, es, a, r, e);
      }
    }
  }

  // ----- In words -----

  ghost predicate Refused(story: seq<Did>) {
    exists errno :: WasRefused(errno) in story
  }

  /** The packet tried to insert its key. */
  ghost predicate TriedInsert(story: seq<Did>) {
    Refused(story) || FoundMade in story || exists slot :: Made(slot) in story
  }

  /** What the fate of a packet says about its own steps. */
  lemma EndsMean(ringbuf: bool, c: Cpu, story: seq<Did>, f: Fate)
    requires Ends(ringbuf, c, story, f)
    ensures f == Rung <==> Reserved(true) in story
    ensures f == Unsent <==> Reserved(false) in story
    ensures f == Rung || f == Unsent <==> ringbuf && Refused(story)
    ensures f == NotCreated(c) <==> !ringbuf && Refused(story)
    ensures f == NotUpdated(c) <==> FoundMade in story && LookedAgain(None) in story
  {
    match f
    case Rung =>
      var errno :| story == [Looked(None), WasRefused(errno), Reserved(true)];
      assert WasRefused(errno) in story;
    case Unsent =>
      var errno :| story == [Looked(None), WasRefused(errno), Reserved(false)];
      assert WasRefused(errno) in story;
    case NotCreated(_) =>
      var errno :| story == [Looked(None), WasRefused(errno)];
      assert WasRefused(errno) in story;
    case _ =>
  }

  lemma MergedMeans(ringbuf: bool, c: Cpu, story: seq<Did>, f: Fate, slot: nat)
    requires Ends(ringbuf, c, story, f)
    ensures f == Merged(slot) <==>
            Made(slot) in story || Looked(Some(slot)) in story || LookedAgain(Some(slot)) in story
    ensures Looked(Some(slot)) in story ==> !TriedInsert(story)
    ensures f.Merged? || f == Rung || f == Unsent || f == NotCreated(c) || f == NotUpdated(c)
  {
  }

  /**
   * For every run and every packet that is settled: it went to the ring buffer, or was refused there, iff its own
   * insert was refused and there is a ring buffer; it was not created iff its insert was refused and there is none;
   * it was not updated iff its insert found the key made and its second lookup missed it again; it is in an element
   * iff its insert made that element or one of its lookups found it. A packet that finds its key never inserts.
   */
  lemma WhichOutcome(ringbuf: bool, es: seq<Event>, a: nat)
    requires Exec(ringbuf, es).Some? && a < |es| && es[a].Arrive?
    requires Arrivals(es[..a]) in Exec(ringbuf, es).value.l.fates
    ensures var f, c, story := Exec(ringbuf, es).value.l.fates[Arrivals(es[..a])], es[a].cpu, Story(es, a);
            && (f == Rung <==> Reserved(true) in story) && (f == Unsent <==> Reserved(false) in story)
            && (f == Rung || f == Unsent <==> ringbuf && Refused(story))
            && (f == NotCreated(c) <==> !ringbuf && Refused(story))
            && (f == NotUpdated(c) <==> FoundMade in story && LookedAgain(None) in story)
            && (forall slot :: f == Merged(slot) <==>
                  Made(slot) in story || Looked(Some(slot)) in story || LookedAgain(Some(slot)) in story)
            && (forall slot :: Looked(Some(slot)) in story ==> !TriedInsert(story))
  {
    OutcomeIsTold(ringbuf, es, a);
    var f, c, story := Exec(ringbuf, es).value.l.fates[Arrivals(es[..a])], es[a].cpu, Story(es, a);
    EndsMean(ringbuf, c, story, f);
    forall slot
      ensures f == Merged(slot) <==>
              Made(slot) in story || Looked(Some(slot)) in story || LookedAgain(Some(slot)) in story
      ensures Looked(Some(slot)) in story ==> !TriedInsert(story)
    {
      MergedMeans(ringbuf, c, story, f, slot);
    }
  }

  /** A ring record is the packet's own, alone, with the error that its own insert gave. */
  lemma RingRecordIs(ringbuf: bool, es: seq<Event>, a: nat, j: nat)
    requires Exec(ringbuf, es).Some? && a < |es| && es[a].Arrive?
    requires var l := Exec(ringbuf, es).value.l; j < |l.rung| && l.rung[j].serial == Arrivals(es[..a])
    ensures var s := Exec(ringbuf, es).value.s;
            && j < |s.ring| && s.ring[j] == (es[a].p.id, Fresh(es[a].p).(errno := s.ring[j].1.errno))
            && WasRefused(s.ring[j].1.errno) in Story(es, a)
  {
    OutcomeIsTold(ringbuf, es, a);
    EveryRunIsAccounted(ringbuf, es);
    assert Genuine(Exec(ringbuf, es).value.l, Exec(ringbuf, es).value.l.rung[j]);
  }

  /** What the CPU can do next for a packet, whatever the map and the ring buffer answer. */
  ghost predicate CanGoOn(ringbuf: bool, r: Run, c: Cpu, found: Option<nat>, story: seq<Did>, errno: u8, ok: bool) {
    || (story == [] && CanStep(r, Lookup(c)))
    || (story == [Looked(None)] && CanStep(r, Insert(c, Aggregation.Refused(errno)))
        && (CanStep(r, Insert(c, Inserted)) <==> found.None?) && (CanStep(r, Insert(c, Exists)) <==> found.Some?))
    || (story == [Looked(None), FoundMade] && CanStep(r, Relookup(c)))
    || (ringbuf && Refused(story) && CanStep(r, Reserve(c, ok)))
    || (exists slot :: Found(story, slot) && CanStep(r, LockedUpdate(c)))
  }

  lemma StepsOpen(ringbuf: bool, r: Run, c: Cpu, story: seq<Did>, errno: u8, ok: bool)
    requires MemoryOk(r) && TableOk(r) && GoesOn(ringbuf, story, PcOf(r.s, c))
    ensures CanGoOn(ringbuf, r, c, Slot(r.s, PcOf(r.s, c).x.pkt.id), story, errno, ok)
  {
    match PcOf(r.s, c)
    case Reserving(_, e) =>
      assert story[1] == WasRefused(e);
    case Holding(x, slot) =>
      assert c in r.s.cpus && SlotHas(r.l, slot, x.pkt.id);
      assert Found(story, slot);
    case _ =>
  }

  /** No packet is ever stuck. */
  lemma NeverStuck(ringbuf: bool, es: seq<Event>, a: nat, errno: u8, ok: bool)
    requires Exec(ringbuf, es).Some? && a < |es| && es[a].Arrive?
    requires Arrivals(es[..a]) !in Exec(ringbuf, es).value.l.fates
    ensures CanGoOn(ringbuf, Exec(ringbuf, es).value, es[a].cpu, Element(es, es[a].p.id), Story(es, a), errno, ok)
  {
    OutcomeIsTold(ringbuf, es, a);
    EveryRunIsAccounted(ringbuf, es);
    RunTable(ringbuf, es);
    StepsOpen(ringbuf, Exec(ringbuf, es).value, es[a].cpu, Story(es, a), errno, ok);
    assert Slot(Exec(ringbuf, es).value.s, es[a].p.id) == Element(es, es[a].p.id);
  }

  /** An idle CPU takes the next packet, and user space can take exactly the flows that are in the table. */
  lemma AlwaysOpen(ringbuf: bool, es: seq<Event>, c: Cpu, p: Packet, id: FlowId)
    requires Exec(ringbuf, es).Some?
    ensures var r := Exec(ringbuf, es).value;
            && (PcOf(r.s, c) == Idle ==> CanStep(r, Arrive(c, p)))
            && (CanStep(r, Evict(id)) <==> Element(es, id).Some?)
  {
    EveryRunIsAccounted(ringbuf, es);
    RunTable(ringbuf, es);
    assert Slot(Exec(ringbuf, es).value.s, id) == Element(es, id);
  }
}
