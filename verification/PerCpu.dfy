/**
 * The protocol on one key of a per-CPU hash map: look the key up and write the own value in place, or insert
 * the key if it is absent, or look it up again when another CPU was faster; user space takes the key away at
 * any time. One method is one atomic action, so that every interleaving is a sequence of calls.
 */
module PerCpu {
  import opened Words
  import opened Flows
  import opened Folds

  /** What the CPU of a packet does to its value: `first` for the insert, `note` for an update in place. */
  datatype Rules<!P, !M> = Rules(cpu: P -> Cpu, zero: M, first: P -> M, note: (M, P) -> M)

  /** A CPU that has not written since the key was created has the zeroed value. */
  function ValueOn<M>(values: map<Cpu, M>, c: Cpu, zero: M): M {
    if c in values then values[c] else zero
  }

  /** The value of a CPU after these packets, the first of which created the key. */
  function Replay<P, M>(r: Rules<P, M>, log: seq<P>, c: Cpu): M {
    if log == [] then r.zero
    else
      var front, last := log[..|log| - 1], log[|log| - 1];
      if r.cpu(last) != c then Replay(r, front, c)
      else if front == [] then r.first(last)
      else r.note(Replay(r, front, c), last)
  }

  lemma ReplayStep<P, M>(r: Rules<P, M>, log: seq<P>, p: P, c: Cpu)
    ensures Replay(r, log + [p], c) ==
            if r.cpu(p) != c then Replay(r, log, c)
            else if log == [] then r.first(p) else r.note(Replay(r, log, c), p)
  {
    assert (log + [p])[..|log|] == log;
  }

  /** Where a CPU is; `life` tells which incarnation of the key its pointer leads to. */
  datatype Pc<P> = Idle | Holding(p: P, life: nat) | Inserting(p: P) | Retrying(p: P)

  /** A packet arrives on its CPU, or a CPU does its next action, or user space takes the key. */
  datatype Step<P> = OnLook(p: P) | OnNext(c: Cpu, room: bool) | OnTake

  // ----- The protocol as a state machine -----

  /**
   * A key, the CPUs at work on it, and what became of the packets: those the live key shows (`log`), those
   * user space took with it, those no value shows, all that are done, and all that came.
   */
  datatype State<P> = State(
    live: bool, life: nat, pcs: map<Cpu, Pc<P>>,
    log: seq<P>, taken: seq<P>, lost: seq<P>, done: seq<P>, arrived: seq<P>)

  ghost function Empty<P>(): State<P> {
    State(false, 0, map[], [], [], [], [], [])
  }

  ghost function PcOf<P>(s: State<P>, c: Cpu): Pc<P> {
    if c in s.pcs then s.pcs[c] else Idle
  }

  ghost function Moved<P>(s: State<P>, c: Cpu, pc: Pc<P>): State<P> {
    s.(pcs := s.pcs[c := pc])
  }

  /** The packet is done, and the key's values show it. */
  ghost function Shown<P>(s: State<P>, c: Cpu, p: P): State<P> {
    Moved(s, c, Idle).(live := true, log := s.log + [p], done := s.done + [p])
  }

  /** The packet is done, and no value shows it. */
  ghost function Lost<P>(s: State<P>, c: Cpu, p: P): State<P> {
    Moved(s, c, Idle).(lost := s.lost + [p], done := s.done + [p])
  }

  /** A packet looks the key up; it waits while its CPU is busy. */
  ghost function Looked<P>(cpu: P -> Cpu, s: State<P>, p: P): State<P> {
    if PcOf(s, cpu(p)) != Idle then s
    else Moved(s, cpu(p), if s.live then Holding(p, s.life) else Inserting(p)).(arrived := s.arrived + [p])
  }

  /**
   * The next action of a CPU. The insert is too late when another CPU has created the key, and refused when the
   * map has no room; the second lookup may miss; the update in place is seen only in the live incarnation.
   */
  ghost function Acted<P>(s: State<P>, c: Cpu, room: bool): State<P> {
    match PcOf(s, c)
    case Idle => s
    case Inserting(p) => if s.live then Moved(s, c, Retrying(p)) else if room then Shown(s, c, p) else Lost(s, c, p)
    case Retrying(p) => if s.live then Moved(s, c, Holding(p, s.life)) else Lost(s, c, p)
    case Holding(p, l) => if l == s.life then Shown(s, c, p) else Lost(s, c, p)
  }

  /** User space takes the key and its values. */
  ghost function Taken<P>(s: State<P>): State<P> {
    s.(live := false, life := s.life + 1, log := [], taken := s.taken + s.log)
  }

  ghost function Stepped<P>(cpu: P -> Cpu, s: State<P>, step: Step<P>): State<P> {
    match step
    case OnLook(p) => Looked(cpu, s, p)
    case OnNext(c, room) => Acted(s, c, room)
    case OnTake => Taken(s)
  }

  ghost function Run<P>(cpu: P -> Cpu, s: State<P>, steps: seq<Step<P>>): State<P> {
    if steps == [] then s
    else Stepped(cpu, Run(cpu, s, steps[..|steps| - 1]), steps[|steps| - 1])
  }

  lemma RunStep<P>(cpu: P -> Cpu, s: State<P>, steps: seq<Step<P>>, i: nat)
    requires i < |steps|
    ensures Run(cpu, s, steps[..i + 1]) == Stepped(cpu, Run(cpu, s, steps[..i]), steps[i])
  {
    assert steps[..i + 1][..i] == steps[..i];
  }

  lemma RunOne<P>(cpu: P -> Cpu, s: State<P>, a: seq<Step<P>>, step: Step<P>)
    ensures Run(cpu, s, a + [step]) == Stepped(cpu, Run(cpu, s, a), step)
  {
    assert (a + [step])[..|a|] == a;
  }

  lemma {:induction false} RunConcat<P>(cpu: P -> Cpu, s: State<P>, a: seq<Step<P>>, b: seq<Step<P>>)
    ensures Run(cpu, s, a + b) == Run(cpu, Run(cpu, s, a), b)
  {
    if b == [] {
      assert a + b == a;
    } else {
      var front, last := b[..|b| - 1], b[|b| - 1];
      RunConcat(cpu, s, a, front);
      assert a + b == (a + front) + [last];
      RunOne(cpu, s, a + front, last);
    }
  }

  // ----- What every step keeps -----

  /** Every packet that is done was taken with the key, is shown by it, or is lost: exactly one of them. */
  ghost predicate Balanced<P>(s: State<P>) {
    multiset(s.done) == multiset(s.taken) + multiset(s.log) + multiset(s.lost)
  }

  ghost function OnCpu<P>(cpu: P -> Cpu, ps: seq<P>, c: Cpu): seq<P> {
    if ps == [] then []
    else OnCpu(cpu, ps[..|ps| - 1], c) + if cpu(ps[|ps| - 1]) == c then [ps[|ps| - 1]] else []
  }

  lemma OnCpuAppend<P>(cpu: P -> Cpu, ps: seq<P>, p: P, c: Cpu)
    ensures OnCpu(cpu, ps + [p], c) == OnCpu(cpu, ps, c) + if cpu(p) == c then [p] else []
  {
    assert (ps + [p])[..|ps|] == ps;
  }

  ghost function AtWork<P>(s: State<P>, c: Cpu): seq<P> {
    if PcOf(s, c) == Idle then [] else [PcOf(s, c).p]
  }

  /** The packets that came to a CPU are those done there, in order, and then the one it is at work on. */
  ghost predicate InOrder<P>(cpu: P -> Cpu, s: State<P>, c: Cpu) {
    OnCpu(cpu, s.arrived, c) == OnCpu(cpu, s.done, c) + AtWork(s, c)
  }

  /** The packet of a CPU is its own, and a pointer to the present incarnation means that the key is there. */
  ghost predicate PcOk<P>(cpu: P -> Cpu, s: State<P>, c: Cpu) {
    && (PcOf(s, c) != Idle ==> cpu(PcOf(s, c).p) == c)
    && (PcOf(s, c).Holding? ==> PcOf(s, c).life <= s.life && (PcOf(s, c).life == s.life ==> s.live))
  }

  ghost predicate Sound<P>(cpu: P -> Cpu, s: State<P>) {
    && (s.live <==> s.log != [])
    && (forall c :: PcOk(cpu, s, c))
    && (forall c :: InOrder(cpu, s, c))
    && Balanced(s)
  }

  lemma LookInOrder<P>(cpu: P -> Cpu, s: State<P>, p: P, t: State<P>, c: Cpu)
    requires InOrder(cpu, s, c) && PcOf(s, cpu(p)) == Idle && PcOf(t, cpu(p)) != Idle && PcOf(t, cpu(p)).p == p
    requires PcOf(t, c) == PcOf(s, c) || c == cpu(p)
    requires t.done == s.done && t.arrived == s.arrived + [p]
    ensures InOrder(cpu, t, c)
  {
    OnCpuAppend(cpu, s.arrived, p, c);
  }

  lemma LookSound<P>(cpu: P -> Cpu, s: State<P>, p: P)
    requires Sound(cpu, s)
    ensures Sound(cpu, Looked(cpu, s, p))
  {
    var t := Looked(cpu, s, p);
    if t != s {
      forall c ensures PcOk(cpu, t, c) {
        assert PcOk(cpu, s, c);
      }
      forall c ensures InOrder(cpu, t, c) {
        assert InOrder(cpu, s, c);
        LookInOrder(cpu, s, p, t, c);
      }
    }
  }

  lemma DoneInOrder<P>(cpu: P -> Cpu, s: State<P>, c: Cpu, p: P, t: State<P>)
    requires Sound(cpu, s) && PcOf(s, c) != Idle && PcOf(s, c).p == p
    requires t.pcs == s.pcs[c := Idle] && t.done == s.done + [p] && t.arrived == s.arrived
    ensures forall d :: InOrder(cpu, t, d)
  {
    assert PcOk(cpu, s, c);
    forall d ensures InOrder(cpu, t, d) {
      assert InOrder(cpu, s, d);
      OnCpuAppend(cpu, s.done, p, d);
    }
  }

  lemma ShowSound<P>(cpu: P -> Cpu, s: State<P>, c: Cpu, p: P)
    requires Sound(cpu, s) && PcOf(s, c) != Idle && PcOf(s, c).p == p
    ensures Sound(cpu, Shown(s, c, p))
  {
    var t := Shown(s, c, p);
    DoneInOrder(cpu, s, c, p, t);
    forall d ensures PcOk(cpu, t, d) {
      assert PcOk(cpu, s, d);
    }
  }

  lemma LoseSound<P>(cpu: P -> Cpu, s: State<P>, c: Cpu, p: P)
    requires Sound(cpu, s) && PcOf(s, c) != Idle && PcOf(s, c).p == p
    ensures Sound(cpu, Lost(s, c, p))
  {
    var t := Lost(s, c, p);
    DoneInOrder(cpu, s, c, p, t);
    forall d ensures PcOk(cpu, t, d) {
      assert PcOk(cpu, s, d);
    }
  }

  lemma MoveSound<P>(cpu: P -> Cpu, s: State<P>, c: Cpu, pc: Pc<P>)
    requires Sound(cpu, s) && PcOf(s, c) != Idle && pc != Idle && pc.p == PcOf(s, c).p
    requires pc.Holding? ==> s.live && pc.life == s.life
    ensures Sound(cpu, Moved(s, c, pc))
  {
    var t := Moved(s, c, pc);
    assert PcOk(cpu, s, c);
    forall d ensures PcOk(cpu, t, d) && InOrder(cpu, t, d) {
      assert PcOk(cpu, s, d) && InOrder(cpu, s, d);
    }
  }

  lemma ActSound<P>(cpu: P -> Cpu, s: State<P>, c: Cpu, room: bool)
    requires Sound(cpu, s)
    ensures Sound(cpu, Acted(s, c, room))
  {
    if PcOf(s, c) != Idle {
      var p := PcOf(s, c).p;
      ShowSound(cpu, s, c, p);
      LoseSound(cpu, s, c, p);
      MoveSound(cpu, s, c, Retrying(p));
      if s.live {
        MoveSound(cpu, s, c, Holding(p, s.life));
      }
    }
  }

  lemma TakeSound<P>(cpu: P -> Cpu, s: State<P>)
    requires Sound(cpu, s)
    ensures Sound(cpu, Taken(s))
  {
    var t := Taken(s);
    forall c ensures PcOk(cpu, t, c) && InOrder(cpu, t, c) {
      assert PcOk(cpu, s, c) && InOrder(cpu, s, c);
    }
  }

  lemma StepSound<P>(cpu: P -> Cpu, s: State<P>, step: Step<P>)
    requires Sound(cpu, s)
    ensures Sound(cpu, Stepped(cpu, s, step))
  {
    match step
    case OnLook(p) => LookSound(cpu, s, p);
    case OnNext(c, room) => ActSound(cpu, s, c, room);
    case OnTake => TakeSound(cpu, s);
  }

  /** In every run, every packet that came is at work, taken, shown or lost, and nothing else is. */
  lemma {:induction false} RunSound<P>(cpu: P -> Cpu, s: State<P>, steps: seq<Step<P>>)
    requires Sound(cpu, s)
    ensures Sound(cpu, Run(cpu, s, steps))
  {
    if steps != [] {
      RunSound(cpu, s, steps[..|steps| - 1]);
      StepSound(cpu, Run(cpu, s, steps[..|steps| - 1]), steps[|steps| - 1]);
    }
  }

  /** The packet that finishes in a step, if any. */
  ghost function Finished<P>(s: State<P>, t: State<P>, step: Step<P>): seq<P> {
    if step.OnNext? && PcOf(s, step.c) != Idle && PcOf(t, step.c) == Idle then [PcOf(s, step.c).p] else []
  }

  /** The packets that finish in a run. */
  ghost function AllFinished<P>(cpu: P -> Cpu, s: State<P>, steps: seq<Step<P>>): seq<P> {
    if steps == [] then []
    else
      var u := Run(cpu, s, steps[..|steps| - 1]);
      AllFinished(cpu, s, steps[..|steps| - 1])
      + Finished(u, Stepped(cpu, u, steps[|steps| - 1]), steps[|steps| - 1])
  }

  lemma StepGrows<P>(cpu: P -> Cpu, s: State<P>, step: Step<P>)
    ensures var t := Stepped(cpu, s, step);
            && t.done == s.done + Finished(s, t, step)
            && s.taken <= t.taken && s.lost <= t.lost && s.arrived <= t.arrived
            && t.life == s.life + if step.OnTake? then 1 else 0
  {
  }

  /** A run finishes exactly the packets whose CPU becomes idle, and never forgets one taken, lost or done. */
  lemma {:induction false} RunGrows<P>(cpu: P -> Cpu, s: State<P>, steps: seq<Step<P>>)
    ensures var t := Run(cpu, s, steps);
            && t.done == s.done + AllFinished(cpu, s, steps)
            && s.taken <= t.taken && s.lost <= t.lost && s.arrived <= t.arrived
            && t.life == s.life + Takes(steps)
  {
    if steps != [] {
      var n := |steps| - 1;
      RunGrows(cpu, s, steps[..n]);
      StepGrows(cpu, Run(cpu, s, steps[..n]), steps[n]);
    }
  }

  // ----- When the key is there -----

  function Takes<P>(steps: seq<Step<P>>): nat {
    if steps == [] then 0 else Takes(steps[..|steps| - 1]) + if steps[|steps| - 1].OnTake? then 1 else 0
  }

  lemma {:induction false} NoTakes<P>(steps: seq<Step<P>>)
    ensures Takes(steps) == 0 <==> OnTake !in steps
  {
    if steps != [] {
      var n := |steps| - 1;
      NoTakes(steps[..n]);
      assert steps == steps[..n] + [steps[n]];
    }
  }

  /** The step is an insert that creates the key. */
  ghost predicate CreatesNow<P>(u: State<P>, step: Step<P>) {
    step.OnNext? && step.room && !u.live && PcOf(u, step.c).Inserting?
  }

  ghost predicate Creates<P>(cpu: P -> Cpu, s: State<P>, steps: seq<Step<P>>, i: nat) {
    i < |steps| && CreatesNow(Run(cpu, s, steps[..i]), steps[i])
  }

  ghost predicate Untaken<P>(steps: seq<Step<P>>, from: nat) {
    forall j :: from <= j < |steps| ==> steps[j] != OnTake
  }

  lemma LiveStep<P>(cpu: P -> Cpu, u: State<P>, step: Step<P>)
    requires Sound(cpu, u)
    ensures Stepped(cpu, u, step).live <==> CreatesNow(u, step) || (u.live && step != OnTake)
  {
    if step.OnNext? {
      assert PcOk(cpu, u, step.c);
    }
  }

  /** The key was there or some step created it, and no take came after. */
  ghost predicate Alive<P>(cpu: P -> Cpu, s: State<P>, steps: seq<Step<P>>) {
    (s.live && Untaken(steps, 0)) || exists i: nat :: Creates(cpu, s, steps, i) && Untaken(steps, i + 1)
  }

  lemma AliveStep<P>(cpu: P -> Cpu, s: State<P>, front: seq<Step<P>>, step: Step<P>, steps: seq<Step<P>>)
    requires steps == front + [step]
    ensures Alive(cpu, s, steps) <==> CreatesNow(Run(cpu, s, front), step) || (Alive(cpu, s, front) && step != OnTake)
  {
    var n := |front|;
    assert steps[..n] == front && steps[n] == step;
    assert forall i: nat :: i < n ==> steps[..i] == front[..i] && steps[i] == front[i];
    assert forall i: nat :: i < n ==> (Creates(cpu, s, steps, i) <==> Creates(cpu, s, front, i));
    assert forall i: nat :: i <= n ==> (Untaken(steps, i) <==> Untaken(front, i) && step != OnTake);
    assert Creates(cpu, s, steps, n) <==> CreatesNow(Run(cpu, s, front), step);
    if CreatesNow(Run(cpu, s, front), step) {
      assert Creates(cpu, s, steps, n) && Untaken(steps, n + 1);
    }
  }

  /** After any run the key is there iff it was, or some step created it, and no take came after. */
  lemma {:induction false} LiveMeans<P>(cpu: P -> Cpu, s: State<P>, steps: seq<Step<P>>)
    requires Sound(cpu, s)
    ensures Run(cpu, s, steps).live <==> Alive(cpu, s, steps)
  {
    if steps != [] {
      var front, step := steps[..|steps| - 1], steps[|steps| - 1];
      LiveMeans(cpu, s, front);
      RunSound(cpu, s, front);
      LiveStep(cpu, Run(cpu, s, front), step);
      assert steps == front + [step];
      AliveStep(cpu, s, front, step, steps);
    }
  }

  // ----- All that a CPU does for one packet -----

  predicate Mine<P>(cpu: P -> Cpu, step: Step<P>, me: Cpu) {
    match step
    case OnLook(p) => cpu(p) == me
    case OnNext(c, _) => c == me
    case OnTake => false
  }

  predicate Others<P>(cpu: P -> Cpu, steps: seq<Step<P>>, me: Cpu) {
    forall i :: 0 <= i < |steps| ==> !Mine(cpu, steps[i], me)
  }

  /** The steps of the others leave a CPU where it is. */
  lemma {:induction false} OthersLeave<P>(cpu: P -> Cpu, s: State<P>, steps: seq<Step<P>>, me: Cpu)
    requires Others(cpu, steps, me)
    ensures PcOf(Run(cpu, s, steps), me) == PcOf(s, me)
  {
    if steps != [] {
      OthersLeave(cpu, s, steps[..|steps| - 1], me);
      assert !Mine(cpu, steps[|steps| - 1], me);
    }
  }

  /** What the others do before the first, second and third action of the CPU that follows the lookup. */
  datatype Gaps<P> = Gaps(first: seq<Step<P>>, second: seq<Step<P>>, third: seq<Step<P>>)

  function Quiet<P>(): Gaps<P> {
    Gaps([], [], [])
  }

  predicate OfOthers<P>(cpu: P -> Cpu, g: Gaps<P>, me: Cpu) {
    Others(cpu, g.first, me) && Others(cpu, g.second, me) && Others(cpu, g.third, me)
  }

  /** The state in which a packet that missed inserts the key, and that in which it looks a second time. */
  ghost function AtInsert<P>(cpu: P -> Cpu, s: State<P>, p: P, g: Gaps<P>): State<P> {
    Run(cpu, Looked(cpu, s, p), g.first)
  }

  ghost function AtRetry<P>(cpu: P -> Cpu, s: State<P>, p: P, room: bool, g: Gaps<P>): State<P> {
    Run(cpu, Acted(AtInsert(cpu, s, p, g), cpu(p), room), g.second)
  }

  /** The state in which the packet does its last action: an update, or an insert or retry that ends it. */
  ghost function AtLast<P>(cpu: P -> Cpu, s: State<P>, p: P, room: bool, g: Gaps<P>): State<P> {
    var u := AtInsert(cpu, s, p, g);
    if s.live || !u.live then u
    else
      var v := AtRetry(cpu, s, p, room, g);
      if !v.live then v else Run(cpu, Acted(v, cpu(p), room), g.third)
  }

  /**
   * The packet ends in the key's values iff it found the key and no take came before its update; or the key was
   * still missing at its insert, which had room; or another CPU had created it, it was there at the second
   * lookup, and no take came before the update.
   */
  ghost predicate Kept<P>(cpu: P -> Cpu, s: State<P>, p: P, room: bool, g: Gaps<P>) {
    if s.live then OnTake !in g.first
    else if !AtInsert(cpu, s, p, g).live then room
    else AtRetry(cpu, s, p, room, g).live && OnTake !in g.third
  }

  /** The state after the packet. */
  ghost function Tracked<P>(cpu: P -> Cpu, s: State<P>, p: P, room: bool, g: Gaps<P>): State<P> {
    Acted(AtLast(cpu, s, p, room, g), cpu(p), room)
  }

  /** An update shows iff no take came since the lookup. */
  lemma UpdateFate<P>(cpu: P -> Cpu, s: State<P>, p: P, room: bool, gap: seq<Step<P>>)
    requires Others(cpu, gap, cpu(p)) && PcOf(s, cpu(p)) == Holding(p, s.life)
    ensures var u := Run(cpu, s, gap);
            Acted(u, cpu(p), room) == if OnTake !in gap then Shown(u, cpu(p), p) else Lost(u, cpu(p), p)
  {
    OthersLeave(cpu, s, gap, cpu(p));
    RunGrows(cpu, s, gap);
    NoTakes(gap);
  }

  lemma InsertFate<P>(cpu: P -> Cpu, s: State<P>, p: P, room: bool, g: Gaps<P>)
    requires !s.live && PcOf(s, cpu(p)) == Idle && OfOthers(cpu, g, cpu(p))
    ensures var u := AtInsert(cpu, s, p, g);
            Acted(u, cpu(p), room) == if u.live then Moved(u, cpu(p), Retrying(p))
                                     else if room then Shown(u, cpu(p), p) else Lost(u, cpu(p), p)
  {
    OthersLeave(cpu, Looked(cpu, s, p), g.first, cpu(p));
  }

  lemma RetryFate<P>(cpu: P -> Cpu, s: State<P>, p: P, room: bool, g: Gaps<P>)
    requires !s.live && PcOf(s, cpu(p)) == Idle && OfOthers(cpu, g, cpu(p)) && AtInsert(cpu, s, p, g).live
    ensures var v := AtRetry(cpu, s, p, room, g);
            Acted(v, cpu(p), room) == if v.live then Moved(v, cpu(p), Holding(p, v.life)) else Lost(v, cpu(p), p)
  {
    InsertFate(cpu, s, p, room, g);
    OthersLeave(cpu, Acted(AtInsert(cpu, s, p, g), cpu(p), room), g.second, cpu(p));
  }

  /** For every interleaving, the packet's last action shows it under exactly that condition, and else loses it. */
  lemma TrackedFate<P>(cpu: P -> Cpu, s: State<P>, p: P, room: bool, g: Gaps<P>)
    requires PcOf(s, cpu(p)) == Idle && OfOthers(cpu, g, cpu(p))
    ensures var u := AtLast(cpu, s, p, room, g);
            Tracked(cpu, s, p, room, g) ==
            if Kept(cpu, s, p, room, g) then Shown(u, cpu(p), p) else Lost(u, cpu(p), p)
  {
    if s.live {
      UpdateFate(cpu, Looked(cpu, s, p), p, room, g.first);
    } else {
      InsertFate(cpu, s, p, room, g);
      if AtInsert(cpu, s, p, g).live {
        RetryFate(cpu, s, p, room, g);
        var v := AtRetry(cpu, s, p, room, g);
        if v.live {
          UpdateFate(cpu, Acted(v, cpu(p), room), p, room, g.third);
        }
      }
    }
  }

  /** The same condition in terms of the steps alone: who created the key, and when it was taken. */
  lemma KeptBySteps<P>(cpu: P -> Cpu, s: State<P>, p: P, room: bool, g: Gaps<P>)
    requires Sound(cpu, s)
    ensures Kept(cpu, s, p, room, g) <==>
            if s.live then OnTake !in g.first
            else if !Alive(cpu, Looked(cpu, s, p), g.first) then room
            else Alive(cpu, Acted(AtInsert(cpu, s, p, g), cpu(p), room), g.second) && OnTake !in g.third
  {
    LookSound(cpu, s, p);
    LiveMeans(cpu, Looked(cpu, s, p), g.first);
    RunSound(cpu, Looked(cpu, s, p), g.first);
    ActSound(cpu, AtInsert(cpu, s, p, g), cpu(p), room);
    LiveMeans(cpu, Acted(AtInsert(cpu, s, p, g), cpu(p), room), g.second);
  }

  /** The packet's own actions and those of the others, up to its last. */
  ghost function Schedule<P>(cpu: P -> Cpu, s: State<P>, p: P, room: bool, g: Gaps<P>): seq<Step<P>> {
    var own := OnNext(cpu(p), room);
    var inserting := [OnLook(p)] + g.first;
    var retrying := inserting + [own] + g.second;
    if s.live || !AtInsert(cpu, s, p, g).live then inserting + [own]
    else if !AtRetry(cpu, s, p, room, g).live then retrying + [own]
    else retrying + [own] + g.third + [own]
  }

  /** What happens around the packet is a run like any other, so that all said of runs holds of it. */
  lemma TrackedIsRun<P>(cpu: P -> Cpu, s: State<P>, p: P, room: bool, g: Gaps<P>)
    ensures Tracked(cpu, s, p, room, g) == Run(cpu, s, Schedule(cpu, s, p, room, g))
  {
    var own := OnNext(cpu(p), room);
    var inserting := [OnLook(p)] + g.first;
    var retrying := inserting + [own] + g.second;
    RunOne(cpu, s, [], OnLook(p));
    assert [] + [OnLook(p)] == [OnLook(p)];
    RunConcat(cpu, s, [OnLook(p)], g.first);
    RunOne(cpu, s, inserting, own);
    RunConcat(cpu, s, inserting + [own], g.second);
    RunOne(cpu, s, retrying, own);
    RunConcat(cpu, s, retrying + [own], g.third);
    RunOne(cpu, s, retrying + [own] + g.third, own);
  }

  /** When nothing happens in between, only a refused insert loses the packet. */
  lemma TrackedQuietly<P>(cpu: P -> Cpu, s: State<P>, p: P, room: bool)
    requires PcOf(s, cpu(p)) == Idle
    ensures var u := Looked(cpu, s, p);
            Tracked(cpu, s, p, room, Quiet()) ==
            if s.live || room then Shown(u, cpu(p), p) else Lost(u, cpu(p), p)
  {
    TrackedFate(cpu, s, p, room, Quiet());
  }

  // ----- The key itself -----

  class Key<P, M> {
    const rules: Rules<P, M>
    var live: bool
    var values: map<Cpu, M>
    var life: nat
    var pcs: map<Cpu, Pc<P>>
    ghost var log: seq<P>
    ghost var taken: seq<P>
    ghost var lost: seq<P>
    ghost var done: seq<P>
    ghost var arrived: seq<P>

    ghost function Now(): State<P>
      reads this
    {
      State(live, life, pcs, log, taken, lost, done, arrived)
    }

    /** Every CPU's value is what its packets among those shown give, in order. */
    ghost predicate Valid()
      reads this
    {
      && Sound(rules.cpu, Now())
      && (!live ==> values == map[])
      && forall c :: ValueOn(values, c, rules.zero) == Replay(rules, log, c)
    }

    constructor (rules: Rules<P, M>)
      ensures Valid() && this.rules == rules && Now() == Empty()
    {
      this.rules, live, values, life, pcs := rules, false, map[], 0, map[];
      log, taken, lost, done, arrived := [], [], [], [], [];
    }

    /** A packet looks the key up. */
    method Look(p: P)
      requires Valid() && PcOf(Now(), rules.cpu(p)) == Idle
      modifies this`pcs, this`arrived
      ensures Valid() && Now() == Looked(rules.cpu, old(Now()), p)
    {
      LookSound(rules.cpu, Now(), p);
      var c := rules.cpu(p);
      if live {
        pcs := pcs[c := Holding(p, life)];
      } else {
        pcs := pcs[c := Inserting(p)];
      }
      arrived := arrived + [p];
    }

    /** The packet is done and no value shows it. */
    method Lose(c: Cpu, p: P)
      requires Valid() && PcOf(Now(), c) != Idle && PcOf(Now(), c).p == p
      modifies this`pcs, this`lost, this`done
      ensures Valid() && Now() == Lost(old(Now()), c, p)
    {
      LoseSound(rules.cpu, Now(), c, p);
      pcs := pcs[c := Idle];
      lost, done := lost + [p], done + [p];
    }

    /** The packet is done and this value of its CPU shows it. */
    method Show(c: Cpu, p: P, v: M)
      requires Valid() && PcOf(Now(), c) != Idle && PcOf(Now(), c).p == p
      requires v == if live then rules.note(ValueOn(values, c, rules.zero), p) else rules.first(p)
      modifies this`live, this`values, this`pcs, this`log, this`done
      ensures Valid() && Now() == Shown(old(Now()), c, p) && values == old(values)[c := v]
    {
      ShowSound(rules.cpu, Now(), c, p);
      assert PcOk(rules.cpu, Now(), c);
      var after := values[c := v];
      forall d ensures ValueOn(after, d, rules.zero) == Replay(rules, log + [p], d) {
        ReplayStep(rules, log, p, d);
      }
      live, values, pcs := true, after, pcs[c := Idle];
      log, done := log + [p], done + [p];
    }

    /** The insert: too late when another CPU has created the key, refused when the map has no room. */
    method Insert(c: Cpu, room: bool)
      requires Valid() && PcOf(Now(), c).Inserting?
      modifies this
      ensures Valid() && Now() == Acted(old(Now()), c, room)
      ensures values == if old(live) || !room then old(values) else map[c := rules.first(old(pcs)[c].p)]
    {
      var p := pcs[c].p;
      if live {
        MoveSound(rules.cpu, Now(), c, Retrying(p));
        pcs := pcs[c := Retrying(p)];
      } else if room {
        Show(c, p, rules.first(p));
      } else {
        Lose(c, p);
      }
    }

    /** The second lookup, after an insert that came too late. */
    method LookAgain(c: Cpu, ghost room: bool)
      requires Valid() && PcOf(Now(), c).Retrying?
      modifies this`pcs, this`lost, this`done
      ensures Valid() && Now() == Acted(old(Now()), c, room)
    {
      var p := pcs[c].p;
      if live {
        MoveSound(rules.cpu, Now(), c, Holding(p, life));
        pcs := pcs[c := Holding(p, life)];
      } else {
        Lose(c, p);
      }
    }

    /** The update in place: in the live value, or in a copy nobody reads when the key was taken since the lookup. */
    method Write(c: Cpu, ghost room: bool)
      requires Valid() && PcOf(Now(), c).Holding?
      modifies this
      ensures Valid() && Now() == Acted(old(Now()), c, room)
      ensures values == if old(pcs)[c].life != life then old(values)
                        else old(values)[c := rules.note(ValueOn(old(values), c, rules.zero), old(pcs)[c].p)]
    {
      var Holding(p, l) := pcs[c];
      assert PcOk(rules.cpu, Now(), c);
      if l == life {
        Show(c, p, rules.note(ValueOn(values, c, rules.zero), p));
      } else {
        Lose(c, p);
      }
    }

    method Clear()
      requires Sound(rules.cpu, Taken(Now()))
      modifies this
      ensures Valid() && Now() == Taken(old(Now()))
    {
      taken := taken + log;
      live, values, life, log := false, map[], life + 1, [];
    }

    /** User space takes the key, as one lookup-and-delete: an error if it is not there, else the CPUs' values. */
    method Take() returns (r: Option<map<Cpu, M>>)
      requires Valid()
      modifies this
      ensures Valid() && Now() == Taken(old(Now()))
      ensures r == if old(log) == [] then None else Some(old(values))
      ensures r.Some? ==> forall c :: ValueOn(r.value, c, rules.zero) == Replay(rules, old(log), c)
    {
      TakeSound(rules.cpu, Now());
      r := if live then Some(values) else None;
      Clear();
    }

    /** The next action of a CPU that is at work on a packet. */
    method Next(c: Cpu, room: bool)
      requires Valid() && PcOf(Now(), c) != Idle
      modifies this
      ensures Valid() && Now() == Acted(old(Now()), c, room)
    {
      match pcs[c] {
        case Inserting(_) =>
          Insert(c, room);
        case Retrying(_) =>
          LookAgain(c, room);
        case Holding(_, _) =>
          Write(c, room);
      }
    }

    /** One step of a CPU or of user space. */
    method Do(step: Step<P>)
      requires Valid()
      modifies this
      ensures Valid() && Now() == Stepped(rules.cpu, old(Now()), step)
    {
      match step {
        case OnLook(p) =>
          if rules.cpu(p) !in pcs || pcs[rules.cpu(p)].Idle? {
            Look(p);
          }
        case OnNext(c, room) =>
          if c in pcs && !pcs[c].Idle? {
            Next(c, room);
          }
        case OnTake =>
          var _ := Take();
      }
    }

    /** Any steps of the CPUs and of user space, in any order. */
    method Meanwhile(steps: seq<Step<P>>)
      requires Valid()
      modifies this
      ensures Valid() && Now() == Run(rules.cpu, old(Now()), steps)
    {
      for i := 0 to |steps|
        invariant Valid() && Now() == Run(rules.cpu, old(Now()), steps[..i])
      {
        RunStep(rules.cpu, old(Now()), steps, i);
        Do(steps[i]);
      }
      assert steps[..|steps|] == steps;
    }

    /** From an insert that came too late: what the others do, the second lookup, and the update. */
    method Retry(p: P, room: bool, g: Gaps<P>, ghost s: State<P>)
      requires Valid() && PcOf(s, rules.cpu(p)) == Idle && OfOthers(rules.cpu, g, rules.cpu(p))
      requires !s.live && AtInsert(rules.cpu, s, p, g).live
      requires Now() == Acted(AtInsert(rules.cpu, s, p, g), rules.cpu(p), room)
      modifies this
      ensures Valid() && Now() == Tracked(rules.cpu, s, p, room, g)
    {
      var c := rules.cpu(p);
      Meanwhile(g.second);
      InsertFate(rules.cpu, s, p, room, g);
      RetryFate(rules.cpu, s, p, room, g);
      OthersLeave(rules.cpu, old(Now()), g.second, c);
      LookAgain(c, room);
      if pcs[c].Holding? {
        OthersLeave(rules.cpu, Now(), g.third, c);
        Meanwhile(g.third);
        Write(c, room);
      }
    }

    method TrackSteps(p: P, room: bool, g: Gaps<P>)
      requires Valid() && PcOf(Now(), rules.cpu(p)) == Idle && OfOthers(rules.cpu, g, rules.cpu(p))
      modifies this
      ensures Valid() && Now() == Tracked(rules.cpu, old(Now()), p, room, g)
    {
      var c := rules.cpu(p);
      Look(p);
      OthersLeave(rules.cpu, Now(), g.first, c);
      Meanwhile(g.first);
      if pcs[c].Holding? {
        Write(c, room);
      } else {
        InsertFate(rules.cpu, old(Now()), p, room, g);
        Insert(c, room);
        if pcs[c].Retrying? {
          Retry(p, room, g, old(Now()));
        }
      }
    }

    /** All that a CPU does for a packet, with any steps of the others in between. */
    method Track(p: P, room: bool, g: Gaps<P>)
      requires Valid() && PcOf(Now(), rules.cpu(p)) == Idle && OfOthers(rules.cpu, g, rules.cpu(p))
      modifies this
      ensures Valid() && Now() == Tracked(rules.cpu, old(Now()), p, room, g)
      ensures var last := AtLast(rules.cpu, old(Now()), p, room, g);
              Now() == if Kept(rules.cpu, old(Now()), p, room, g) then Shown(last, rules.cpu(p), p)
                       else Lost(last, rules.cpu(p), p)
    {
      TrackedFate(rules.cpu, Now(), p, room, g);
      TrackSteps(p, room, g);
    }
  }

  // ----- Merging the values of the CPUs -----

  /** The values of the CPUs in the given order. */
  function Listed<M>(values: map<Cpu, M>, order: seq<Cpu>, zero: M): (r: seq<M>)
    ensures |r| == |order| && forall i :: 0 <= i < |r| ==> r[i] == ValueOn(values, order[i], zero)
  {
    seq(|order|, i requires 0 <= i < |order| => ValueOn(values, order[i], zero))
  }

  /** The accumulation loop of user space. */
  method MergeListed<M>(merge: (Option<M>, M) -> M, values: map<Cpu, M>, order: seq<Cpu>, zero: M)
    returns (m: Option<M>)
    ensures m == MergeEach(merge, Listed(values, order, zero))
  {
    m := None;
    ghost var all := Listed(values, order, zero);
    for i := 0 to |order|
      invariant m == MergeEach(merge, all[..i])
    {
      assert all[..i + 1][..i] == all[..i];
      m := Some(merge(m, ValueOn(values, order[i], zero)));
    }
    assert all[..|order|] == all;
  }
}
