/** The binding of SSL objects to file descriptors (bpf/openssl_tracker.h, bpf/tls_plaintext.h). */
module OpenSsl {
  import opened Words

  const MAX_DATA_SIZE: nat := 16384

  type s32 = x: int | -0x8000_0000 <= x < 0x8000_0000

  datatype Thread = Thread(tgid: u32, pid: u32)

  datatype Key = Key(ssl: u64, tgid: u32)

  datatype Pending = Pending(key: Key, fd: int)

  /** What the probes see, and what the kernel does to its least-recently-used maps on its own. */
  datatype Event =
    | SetFdEntry(t: Thread, ssl: u64, fd: int)
    | SetFdReturn(t: Thread, rc: int)
    | Free(t: Thread, ssl: u64)              // SSL_free and the BIO setters
    | LosePending(t: Thread)
    | LoseBinding(key: Key)

  datatype Maps = Maps(pending: map<Thread, Pending>, bindings: map<Key, int>)

  predicate ValidEntry(e: Event) {
    e.SetFdEntry? && e.ssl != 0 && e.fd >= 0
  }

  function Apply(m: Maps, e: Event): Maps {
    match e
    case SetFdEntry(t, ssl, fd) =>
      if !ValidEntry(e) then m
      else Maps(m.pending[t := Pending(Key(ssl, t.tgid), fd)], m.bindings - {Key(ssl, t.tgid)})
    case SetFdReturn(t, rc) =>
      if t !in m.pending then m
      else Maps(m.pending - {t}, if rc == 1 then m.bindings[m.pending[t].key := m.pending[t].fd] else m.bindings)
    case Free(t, ssl) => m.(bindings := m.bindings - {Key(ssl, t.tgid)})
    case LosePending(t) => m.(pending := m.pending - {t})
    case LoseBinding(key) => m.(bindings := m.bindings - {key})
  }

  function Replay(log: seq<Event>): Maps {
    if log == [] then Maps(map[], map[]) else Apply(Replay(log[..|log| - 1]), log[|log| - 1])
  }

  // ----- The meaning of a binding, in terms of calls -----

  predicate CallOf(e: Event, t: Thread) {
    (e.SetFdEntry? || e.SetFdReturn?) && e.t == t
  }

  /** Entry j of thread t has seen no other entry or return of the thread, nor a loss, up to event n. */
  ghost predicate OpenCall(log: seq<Event>, j: nat, n: nat, t: Thread, key: Key, fd: int)
    requires n <= |log|
  {
    && j < n && log[j] == SetFdEntry(t, key.ssl, fd) && key.ssl != 0 && fd >= 0 && key.tgid == t.tgid
    && forall m :: j < m < n ==> !CallOf(log[m], t) && log[m] != LosePending(t)
  }

  ghost predicate HasOpen(log: seq<Event>, n: nat, t: Thread, key: Key, fd: int)
    requires n <= |log|
  {
    exists j :: OpenCall(log, j, n, t, key, fd)
  }

  /** The call that returns 1 at event i set this descriptor on this object. */
  ghost predicate Commits(log: seq<Event>, i: nat, key: Key, fd: int)
    requires i < |log|
  {
    log[i].SetFdReturn? && log[i].rc == 1 && HasOpen(log, i, log[i].t, key, fd)
  }

  /** The event invalidates what is known of the object: a new call on it, its end, a new BIO, a loss. */
  predicate Hits(e: Event, key: Key) {
    || (e.SetFdEntry? && e.ssl != 0 && e.fd >= 0 && Key(e.ssl, e.t.tgid) == key)
    || (e.Free? && Key(e.ssl, e.t.tgid) == key)
    || e == LoseBinding(key)
  }

  ghost predicate StandsFrom(log: seq<Event>, i: nat, key: Key, fd: int)
    requires i < |log|
  {
    && Commits(log, i, key, fd)
    && (forall m :: i < m < |log| ==> !Hits(log[m], key))
    && (forall m, f :: i < m < |log| ==> !Commits(log, m, key, f))
  }

  ghost predicate Bound(log: seq<Event>, key: Key, fd: int) {
    exists i :: 0 <= i < |log| && StandsFrom(log, i, key, fd)
  }

  /** No thread enters SSL_set_fd again before its previous call returned. */
  ghost predicate NonNesting(log: seq<Event>) {
    forall i, j :: 0 <= i < j < |log| && log[i].SetFdEntry? && log[j].SetFdEntry? && log[i].t == log[j].t ==>
      exists m :: i < m < j && log[m].SetFdReturn? && log[m].t == log[i].t
  }

  ghost predicate PendingIs(m: Maps, t: Thread, key: Key, fd: int) {
    t in m.pending && m.pending[t] == Pending(key, fd)
  }

  lemma NonNestingPrefix(log: seq<Event>)
    requires log != [] && NonNesting(log)
    ensures NonNesting(log[..|log| - 1])
  {
    var p := log[..|log| - 1];
    forall i, j | 0 <= i < j < |p| && p[i].SetFdEntry? && p[j].SetFdEntry? && p[i].t == p[j].t
      ensures exists m :: i < m < j && p[m].SetFdReturn? && p[m].t == p[i].t
    {
      var m :| i < m < j && log[m].SetFdReturn? && log[m].t == log[i].t;
      assert p[m] == log[m];
    }
  }

  lemma OpenGrows(log: seq<Event>, j: nat, t: Thread, key: Key, fd: int)
    requires log != []
    ensures var n := |log| - 1;
            OpenCall(log, j, n + 1, t, key, fd) <==>
            (if j == n then log[n] == SetFdEntry(t, key.ssl, fd) && ValidEntry(log[n]) && key.tgid == t.tgid
             else OpenCall(log[..n], j, n, t, key, fd) && !CallOf(log[n], t) && log[n] != LosePending(t))
  {
  }

  /** What the next event does to the open calls of a thread. */
  lemma HasOpenStep(log: seq<Event>, t: Thread, key: Key, fd: int)
    requires log != []
    ensures var e := log[|log| - 1];
            HasOpen(log, |log|, t, key, fd) <==>
            if e.SetFdEntry? && e.t == t then ValidEntry(e) && key == Key(e.ssl, t.tgid) && fd == e.fd
            else HasOpen(log[..|log| - 1], |log| - 1, t, key, fd) && !CallOf(e, t) && e != LosePending(t)
  {
    var n := |log| - 1;
    if HasOpen(log, n + 1, t, key, fd) {
      var j: nat :| OpenCall(log, j, n + 1, t, key, fd);
      OpenGrows(log, j, t, key, fd);
    }
    if HasOpen(log[..n], n, t, key, fd) {
      var j: nat :| OpenCall(log[..n], j, n, t, key, fd);
      OpenGrows(log, j, t, key, fd);
    }
    OpenGrows(log, n, t, key, fd);
  }

  /** In a run without nesting an entry of a thread finds no open call of it. */
  lemma NoOpenAtEntry(log: seq<Event>, t: Thread, key: Key, fd: int)
    requires log != [] && NonNesting(log) && log[|log| - 1].SetFdEntry? && log[|log| - 1].t == t
    ensures !HasOpen(log[..|log| - 1], |log| - 1, t, key, fd)
  {
    var n := |log| - 1;
    forall j: nat | OpenCall(log[..n], j, n, t, key, fd) ensures false {
      assert log[j].SetFdEntry? && log[j].t == t;
      var m :| j < m < n && log[m].SetFdReturn? && log[m].t == t;
      assert CallOf(log[..n][m], t);
    }
  }

  lemma PendingApply(m: Maps, e: Event, t: Thread, key: Key, fd: int)
    ensures PendingIs(Apply(m, e), t, key, fd) <==>
            if ValidEntry(e) && e.t == t then key == Key(e.ssl, t.tgid) && fd == e.fd
            else PendingIs(m, t, key, fd) && e != LosePending(t) && !(e.SetFdReturn? && e.t == t)
  {
  }

  /** The pending map holds exactly the open calls. */
  lemma {:induction false} PendingIsOpen(log: seq<Event>, t: Thread, key: Key, fd: int)
    requires NonNesting(log)
    ensures PendingIs(Replay(log), t, key, fd) <==> HasOpen(log, |log|, t, key, fd)
  {
    if log != [] {
      var n := |log| - 1;
      NonNestingPrefix(log);
      PendingIsOpen(log[..n], t, key, fd);
      PendingApply(Replay(log[..n]), log[n], t, key, fd);
      HasOpenStep(log, t, key, fd);
      if log[n].SetFdEntry? && log[n].t == t {
        NoOpenAtEntry(log, t, key, fd);
      }
    }
  }

  // ----- Bindings -----

  ghost predicate BoundTo(m: Maps, key: Key, fd: int) {
    key in m.bindings && m.bindings[key] == fd
  }

  /** What one event does to one binding. */
  lemma BindingApply(m: Maps, e: Event, key: Key, fd: int)
    ensures BoundTo(Apply(m, e), key, fd) <==>
            if e.SetFdReturn? && e.rc == 1 && e.t in m.pending && m.pending[e.t].key == key then m.pending[e.t].fd == fd
            else BoundTo(m, key, fd) && !Hits(e, key)
  {
  }

  lemma CommitsPrefix(log: seq<Event>, i: nat, key: Key, fd: int)
    requires log != [] && i < |log| - 1
    ensures Commits(log, i, key, fd) <==> Commits(log[..|log| - 1], i, key, fd)
  {
    var p := log[..|log| - 1];
    forall j: nat, t ensures OpenCall(log, j, i, t, key, fd) <==> OpenCall(p, j, i, t, key, fd) {
    }
  }

  /** The last event commits a binding iff the pending map has it for the returning thread. */
  lemma CommitsLast(log: seq<Event>, key: Key, fd: int)
    requires log != [] && NonNesting(log)
    ensures var n, e := |log| - 1, log[|log| - 1];
            Commits(log, n, key, fd) <==> e.SetFdReturn? && e.rc == 1 && PendingIs(Replay(log[..n]), e.t, key, fd)
  {
    var n, e := |log| - 1, log[|log| - 1];
    if e.SetFdReturn? {
      NonNestingPrefix(log);
      PendingIsOpen(log[..n], e.t, key, fd);
      forall j: nat ensures OpenCall(log, j, n, e.t, key, fd) <==> OpenCall(log[..n], j, n, e.t, key, fd) {
      }
    }
  }

  lemma StandsGrows(log: seq<Event>, n: nat, i: nat, key: Key, fd: int)
    requires n + 1 == |log| && i < n
    requires forall f :: !Commits(log, n, key, f)
    ensures StandsFrom(log, i, key, fd) <==> StandsFrom(log[..n], i, key, fd) && !Hits(log[n], key)
  {
    var p := log[..n];
    forall m, f | 0 <= m < |p| ensures Commits(log, m, key, f) <==> Commits(p, m, key, f) {
      CommitsPrefix(log, m, key, f);
    }
  }

  lemma BoundGrows(log: seq<Event>, n: nat, key: Key, fd: int)
    requires n + 1 == |log| && forall f :: !Commits(log, n, key, f)
    ensures Bound(log, key, fd) <==> Bound(log[..n], key, fd) && !Hits(log[n], key)
  {
    var p := log[..n];
    forall i | 0 <= i < |p| ensures StandsFrom(log, i, key, fd) <==> StandsFrom(p, i, key, fd) && !Hits(log[|p|], key) {
      StandsGrows(log, n, i, key, fd);
    }
  }

  lemma BoundLast(log: seq<Event>, key: Key, fd: int, f: int)
    requires log != [] && NonNesting(log) && Commits(log, |log| - 1, key, f)
    ensures Bound(log, key, fd) <==> fd == f
  {
    var n := |log| - 1;
    CommitsLast(log, key, f);
    CommitsLast(log, key, fd);
    assert StandsFrom(log, n, key, f);
    assert Commits(log, n, key, fd) ==> fd == f;
  }

  /**
   * In every run without nesting calls, an object is bound to a descriptor iff a call of its process
   * returned 1 for that descriptor and nothing has hit the object since.
   */
  lemma {:induction false} BindingIsHistory(log: seq<Event>, key: Key, fd: int)
    requires NonNesting(log)
    ensures BoundTo(Replay(log), key, fd) <==> Bound(log, key, fd)
  {
    if log != [] {
      var n := |log| - 1;
      var m, e := Replay(log[..n]), log[n];
      NonNestingPrefix(log);
      BindingIsHistory(log[..n], key, fd);
      BindingApply(m, e, key, fd);
      forall f ensures Commits(log, n, key, f) <==> e.SetFdReturn? && e.rc == 1 && PendingIs(m, e.t, key, f) {
        CommitsLast(log, key, f);
      }
      if e.SetFdReturn? && e.rc == 1 && e.t in m.pending && m.pending[e.t].key == key {
        assert PendingIs(m, e.t, key, m.pending[e.t].fd);
        BoundLast(log, key, fd, m.pending[e.t].fd);
      } else {
        BoundGrows(log, n, key, fd);
      }
    }
  }

  // ----- Isolation of processes -----

  function ProcessOf(e: Event): u32 {
    if e.LoseBinding? then e.key.tgid else e.t.tgid
  }

  /** The events of one process, with the losses of its own entries. */
  function Of(log: seq<Event>, p: u32): seq<Event> {
    if log == [] then []
    else Of(log[..|log| - 1], p) + if ProcessOf(log[|log| - 1]) == p then [log[|log| - 1]] else []
  }

  /** Both maps hold the same entries of process p, and pending entries are for objects of their own process. */
  ghost predicate SameFor(a: Maps, b: Maps, p: u32) {
    && (forall k: Key :: k.tgid == p ==> (k in a.bindings <==> k in b.bindings))
    && (forall k: Key :: k.tgid == p && k in a.bindings ==> a.bindings[k] == b.bindings[k])
    && (forall t: Thread :: t.tgid == p ==> (t in a.pending <==> t in b.pending))
    && (forall t: Thread :: t.tgid == p && t in a.pending ==> a.pending[t] == b.pending[t])
  }

  ghost predicate OwnObjects(m: Maps) {
    forall t :: t in m.pending ==> m.pending[t].key.tgid == t.tgid
  }

  lemma OwnObjectsKept(m: Maps, e: Event)
    requires OwnObjects(m)
    ensures OwnObjects(Apply(m, e))
  {
  }

  lemma OwnStep(a: Maps, b: Maps, e: Event, p: u32)
    requires SameFor(a, b, p) && OwnObjects(a) && ProcessOf(e) == p
    ensures SameFor(Apply(a, e), Apply(b, e), p)
  {
  }

  lemma OtherStep(a: Maps, b: Maps, e: Event, p: u32)
    requires SameFor(a, b, p) && OwnObjects(a) && ProcessOf(e) != p
    ensures SameFor(Apply(a, e), b, p)
  {
  }

  /** What is bound and pending in a process is what its own events alone would give. */
  lemma {:induction false} ProcessesAreIsolated(log: seq<Event>, p: u32)
    ensures OwnObjects(Replay(log)) && SameFor(Replay(log), Replay(Of(log, p)), p)
  {
    if log != [] {
      var n := |log| - 1;
      var a, b, e := Replay(log[..n]), Replay(Of(log[..n], p)), log[n];
      ProcessesAreIsolated(log[..n], p);
      OwnObjectsKept(a, e);
      if ProcessOf(e) == p {
        OwnStep(a, b, e, p);
        assert Of(log, p)[..|Of(log, p)| - 1] == Of(log[..n], p);
      } else {
        OtherStep(a, b, e, p);
        assert Of(log, p) == Of(log[..n], p);
      }
    }
  }

  // ----- The probes -----

  datatype Active = Active(sslType: u8, buf: u64, conn: u64)

  datatype Captured = Captured(t: Thread, sslType: u8, write: bool, conn: u64, socketFd: int, dataLen: nat, buf: u64)

  /** What the probes on SSL_read see; `refused` says that the full map took no entry. */
  datatype ReadEvent = ReadEntry(t: Thread, a: Active, refused: bool) | ReadReturn(t: Thread)

  predicate Stores(e: ReadEvent, t: Thread) {
    e.ReadEntry? && e.t == t && !e.refused
  }

  /** Entry i of the thread is the last one stored, and no read of it has returned since. */
  ghost predicate OpenRead(rs: seq<ReadEvent>, i: nat, t: Thread, a: Active) {
    && i < |rs| && Stores(rs[i], t) && rs[i].a == a
    && forall j :: i < j < |rs| ==> !Stores(rs[j], t) && rs[j] != ReadReturn(t)
  }

  ghost predicate Reading(rs: seq<ReadEvent>, t: Thread, a: Active) {
    exists i :: OpenRead(rs, i, t, a)
  }

  /** The map holds, for every thread, the read it is in. */
  ghost predicate HoldsReads(active: map<Thread, Active>, rs: seq<ReadEvent>) {
    forall t, a :: Reading(rs, t, a) <==> t in active && active[t] == a
  }

  lemma ReadingStep(rs: seq<ReadEvent>, e: ReadEvent, t: Thread, a: Active)
    ensures Reading(rs + [e], t, a) <==>
            if Stores(e, t) then a == e.a else Reading(rs, t, a) && e != ReadReturn(t)
  {
    var n, rs' := |rs|, rs + [e];
    assert rs'[n] == e && forall j :: 0 <= j < n ==> rs'[j] == rs[j];
    if Reading(rs', t, a) {
      var i: nat :| OpenRead(rs', i, t, a);
      assert i < n ==> !Stores(rs'[n], t) && OpenRead(rs, i, t, a);
    }
    if Stores(e, t) {
      assert OpenRead(rs', n, t, e.a);
    } else if Reading(rs, t, a) && e != ReadReturn(t) {
      var i: nat :| OpenRead(rs, i, t, a);
      assert OpenRead(rs', i, t, a);
    }
  }

  lemma HoldsReadsStep(active: map<Thread, Active>, rs: seq<ReadEvent>, e: ReadEvent)
    requires HoldsReads(active, rs)
    ensures HoldsReads(if e.ReadReturn? then active - {e.t} else if e.refused then active else active[e.t := e.a],
                       rs + [e])
  {
    var rs' := rs + [e];
    forall t, a
      ensures Reading(rs', t, a) <==> if Stores(e, t) then a == e.a else Reading(rs, t, a) && e != ReadReturn(t)
    {
      ReadingStep(rs, e, t, a);
    }
  }

  /** The descriptor that history gives an object of a process, or -1. */
  ghost predicate FdOf(log: seq<Event>, conn: u64, tgid: u32, fd: int) {
    if fd == -1 then forall f :: !Bound(log, Key(conn, tgid), f) else Bound(log, Key(conn, tgid), fd)
  }

  class Tracker {
    const enabled: bool
    var pending: map<Thread, Pending>
    var bindings: map<Key, int>
    var active: map<Thread, Active>
    ghost var log: seq<Event>
    ghost var readLog: seq<ReadEvent>

    ghost predicate Valid()
      reads this
    {
      Maps(pending, bindings) == Replay(log) && HoldsReads(active, readLog)
    }

    constructor (enable: bool)
      ensures Valid() && log == [] && readLog == [] && enabled == enable
    {
      enabled, pending, bindings, active, log, readLog := enable, map[], map[], map[], [], [];
    }

    /** probe_entry_SSL_set_fd. */
    method OnSetFdEntry(t: Thread, ssl: u64, fd: s32)
      requires Valid()
      modifies this`pending, this`bindings, this`log
      ensures Valid() && log == old(log) + if enabled then [SetFdEntry(t, ssl, fd)] else []
    {
      if !enabled {
        return;
      }
      log := log + [SetFdEntry(t, ssl, fd)];
      assert log[..|log| - 1] == old(log);
      if ssl == 0 || fd < 0 {
        return;
      }
      var key := Key(ssl, t.tgid);
      bindings := bindings - {key};
      pending := pending[t := Pending(key, fd)];
    }

    /** probe_ret_SSL_set_fd. */
    method OnSetFdReturn(t: Thread, rc: int)
      requires Valid()
      modifies this`pending, this`bindings, this`log
      ensures Valid() && log == old(log) + [SetFdReturn(t, rc)]
    {
      log := log + [SetFdReturn(t, rc)];
      assert log[..|log| - 1] == old(log);
      if t !in pending {
        return;
      }
      var binding := pending[t];
      pending := pending - {t};
      if rc == 1 {
        bindings := bindings[binding.key := binding.fd];
      }
    }

    /** probe_entry_SSL_free. */
    method OnFree(t: Thread, ssl: u64)
      requires Valid()
      modifies this`bindings, this`log
      ensures Valid() && log == old(log) + [Free(t, ssl)]
    {
      bindings := bindings - {Key(ssl, t.tgid)};
      log := log + [Free(t, ssl)];
      assert log[..|log| - 1] == old(log);
    }

    /** The kernel drops a pending call from its map of the least recently used. */
    method OnLosePending(t: Thread)
      requires Valid()
      modifies this`pending, this`log
      ensures Valid() && log == old(log) + [LosePending(t)]
    {
      pending := pending - {t};
      log := log + [LosePending(t)];
      assert log[..|log| - 1] == old(log);
    }

    /** So it does with a binding. */
    method OnLoseBinding(key: Key)
      requires Valid()
      modifies this`bindings, this`log
      ensures Valid() && log == old(log) + [LoseBinding(key)]
    {
      bindings := bindings - {key};
      log := log + [LoseBinding(key)];
      assert log[..|log| - 1] == old(log);
    }

    /** generate_SSL_data_event: the event names the descriptor the object is bound to, and at most 16384 bytes. */
    method Generate(t: Thread, sslType: u8, write: bool, buf: u64, len: u32, conn: u64, reserved: bool)
      returns (r: Option<Captured>)
      requires Valid()
      ensures r.Some? <==> len > 0 && reserved
      ensures r.Some? ==> r.value.(socketFd := 0, dataLen := 0) == Captured(t, sslType, write, conn, 0, 0, buf)
      ensures r.Some? ==> r.value.dataLen == Min(len, 16384)
      ensures r.Some? && conn != 0 && NonNesting(log) ==> FdOf(log, conn, t.tgid, r.value.socketFd)
      ensures r.Some? && conn == 0 ==> r.value.socketFd == -1
    {
      if len <= 0 || !reserved {
        return None;
      }
      var socketFd := -1;
      if conn != 0 {
        var key := Key(conn, t.tgid);
        if key in bindings && bindings[key] >= 0 {
          socketFd := bindings[key];
        }
        if NonNesting(log) {
          FdRead(log, key);
        }
      }
      var captureLen := if len < MAX_DATA_SIZE then len else MAX_DATA_SIZE;
      return Some(Captured(t, sslType, write, conn, socketFd, captureLen, buf));
    }

    /** probe_entry_SSL_write. */
    method OnWrite(t: Thread, ssl: u64, sslType: u8, buf: u64, num: u32, reserved: bool) returns (r: Option<Captured>)
      requires Valid()
      ensures r.Some? <==> enabled && reserved && num > 0 && buf != 0
      ensures r.Some? ==> r.value.(socketFd := 0) == Captured(t, sslType, true, ssl, 0, Min(num, 16384), buf)
      ensures r.Some? && ssl == 0 ==> r.value.socketFd == -1
      ensures r.Some? && ssl != 0 && NonNesting(log) ==> FdOf(log, ssl, t.tgid, r.value.socketFd)
    {
      if !enabled || num == 0 || buf == 0 {
        return None;
      }
      r := Generate(t, sslType, true, buf, num, ssl, reserved);
    }

    /** probe_entry_SSL_read: the map has room, or the thread's entry is written over, or the read is missed. */
    method OnReadEntry(t: Thread, ssl: u64, sslType: u8, buf: u64, full: bool)
      requires Valid()
      modifies this`active, this`readLog
      ensures Valid()
      ensures readLog == old(readLog) +
                if !enabled then []
                else [ReadEntry(t, Active(sslType, buf, ssl), full && forall a :: !Reading(old(readLog), t, a))]
    {
      if !enabled {
        return;
      }
      ghost var e := ReadEntry(t, Active(sslType, buf, ssl), full && t !in active);
      assert t in active ==> Reading(readLog, t, active[t]);
      HoldsReadsStep(active, readLog, e);
      if t in active || !full {
        active := active[t := Active(sslType, buf, ssl)];
      }
      readLog := readLog + [e];
    }

    /** probe_ret_SSL_read: the event is about the read that the thread is in. */
    method OnReadReturn(t: Thread, ret: s32, reserved: bool) returns (r: Option<Captured>)
      requires Valid()
      modifies this`active, this`readLog
      ensures Valid() && readLog == old(readLog) + if enabled then [ReadReturn(t)] else []
      ensures r.Some? <==> enabled && reserved && ret > 0 && exists a :: Reading(old(readLog), t, a) && a.buf != 0
      ensures r.Some? ==>
                forall a :: Reading(old(readLog), t, a) ==>
                  && r.value.(socketFd := 0) == Captured(t, a.sslType, false, a.conn, 0, Min(ret, 16384), a.buf)
                  && (a.conn == 0 ==> r.value.socketFd == -1)
                  && (a.conn != 0 && NonNesting(log) ==> FdOf(log, a.conn, t.tgid, r.value.socketFd))
    {
      if !enabled {
        return None;
      }
      HoldsReadsStep(active, readLog, ReadReturn(t));
      readLog := readLog + [ReadReturn(t)];
      if t !in active {
        assert active - {t} == active;
        return None;
      }
      var captured := active[t];
      assert Reading(old(readLog), t, captured);
      active := active - {t};
      if ret <= 0 || captured.buf == 0 {
        return None;
      }
      r := Generate(t, captured.sslType, false, captured.buf, ret, captured.conn, reserved);
    }
  }

  lemma FdRead(log: seq<Event>, key: Key)
    requires NonNesting(log)
    ensures key in Replay(log).bindings ==> Replay(log).bindings[key] >= 0 && Bound(log, key, Replay(log).bindings[key])
    ensures key !in Replay(log).bindings ==> forall f :: !Bound(log, key, f)
  {
    var m := Replay(log);
    forall f ensures BoundTo(m, key, f) <==> Bound(log, key, f) {
      BindingIsHistory(log, key, f);
    }
    if key in m.bindings {
      assert BoundTo(m, key, m.bindings[key]);
    }
  }
}
