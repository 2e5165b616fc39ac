/**
 * The cache of interface names (pkg/ifaces/registerer.go).  Every method that changes the cache is one
 * critical section of the lock, so the runs of the goroutines are the sequences of calls.
 */
module Interfaces {
  import opened Words

  type Mac = m: Bytes | |m| == 6 witness [0, 0, 0, 0, 0, 0]

  type Cache = map<int, map<Mac, string>>

  datatype Event =
    | Added(idx: int, mac: Mac, name: string)
    | Deleted(idx: int, mac: Mac, name: string)
    | Resolved(idx: int, mac: Mac, name: string)   // the system call of a lookup that missed gave this name

  datatype Preferred = Preferred(macPrefix: Bytes, intf: string)

  // ----- What the cache should be -----

  function NameAt(c: Cache, idx: int, mac: Mac): Option<string> {
    if idx in c && mac in c[idx] then Some(c[idx][mac]) else None
  }

  function Written(c: Cache, idx: int, mac: Mac, name: string): Cache {
    var macs: map<Mac, string> := if idx in c then c[idx][mac := name] else map[mac := name];
    c[idx := macs]
  }

  function Apply(c: Cache, e: Event): Cache {
    match e
    case Added(idx, mac, name) => Written(c, idx, mac, name)
    case Resolved(idx, mac, name) => if NameAt(c, idx, mac).Some? then c else Written(c, idx, mac, name)
    case Deleted(idx, mac, name) =>
      if idx !in c then c
      else
        var macs := if mac in c[idx] && c[idx][mac] == name then c[idx] - {mac} else c[idx];
        if |macs| == 0 then c - {idx} else c[idx := macs]
  }

  function Replay(log: seq<Event>): Cache {
    if log == [] then map[] else Apply(Replay(log[..|log| - 1]), log[|log| - 1])
  }

  lemma ReplayLast(log: seq<Event>, e: Event)
    ensures Replay(log + [e]) == Apply(Replay(log), e)
  {
    assert (log + [e])[..|log|] == log;
  }

  /** Event i put this name there: an interface was added, or a lookup resolved it when nothing was there. */
  ghost predicate Writes(log: seq<Event>, i: nat, idx: int, mac: Mac, name: string)
    requires i < |log|
  {
    || log[i] == Added(idx, mac, name)
    || (log[i] == Resolved(idx, mac, name) && NameAt(Replay(log[..i]), idx, mac).None?)
  }

  /** The name was the last one written there, and no delete with that name came after. */
  ghost predicate Stands(log: seq<Event>, i: nat, idx: int, mac: Mac, name: string)
    requires i < |log|
  {
    && Writes(log, i, idx, mac, name)
    && (forall j, n :: i < j < |log| ==> !Writes(log, j, idx, mac, n))
    && (forall j :: i < j < |log| ==> log[j] != Deleted(idx, mac, name))
  }

  ghost predicate Current(log: seq<Event>, idx: int, mac: Mac, name: string) {
    exists i :: 0 <= i < |log| && Stands(log, i, idx, mac, name)
  }

  /** What one event does at one place. */
  lemma ApplyAt(c: Cache, e: Event, idx: int, mac: Mac)
    requires forall i :: i in c ==> c[i] != map[]
    ensures NameAt(Apply(c, e), idx, mac) ==
            if (e.idx, e.mac) != (idx, mac) then NameAt(c, idx, mac)
            else if e.Added? || (e.Resolved? && NameAt(c, idx, mac).None?) then Some(e.name)
            else if e.Deleted? && NameAt(c, idx, mac) == Some(e.name) then None
            else NameAt(c, idx, mac)
  {
  }

  lemma ApplyKeepsInner(c: Cache, e: Event)
    requires forall i :: i in c ==> c[i] != map[]
    ensures forall i :: i in Apply(c, e) ==> Apply(c, e)[i] != map[]
  {
    var c' := Apply(c, e);
    forall i | i in c' ensures c'[i] != map[] {
      if !e.Deleted? && i == e.idx && c' != c {
        assert e.mac in c'[i];
      }
    }
  }

  lemma {:induction false} InnerNeverEmpty(log: seq<Event>)
    ensures forall i :: i in Replay(log) ==> Replay(log)[i] != map[]
  {
    if log != [] {
      InnerNeverEmpty(log[..|log| - 1]);
      ApplyKeepsInner(Replay(log[..|log| - 1]), log[|log| - 1]);
    }
  }

  lemma StandsGrows(log: seq<Event>, log': seq<Event>, i: nat, idx: int, mac: Mac, name: string)
    requires i < |log| && |log'| == |log| + 1 && log'[..|log|] == log
    requires forall n :: !Writes(log', |log|, idx, mac, n)
    requires log'[|log|] != Deleted(idx, mac, name)
    ensures Stands(log', i, idx, mac, name) <==> Stands(log, i, idx, mac, name)
  {
    forall j, n | 0 <= j < |log| ensures Writes(log', j, idx, mac, n) <==> Writes(log, j, idx, mac, n) {
      WritesPrefix(log, log', j, idx, mac, n);
    }
  }

  lemma WritesPrefix(log: seq<Event>, log': seq<Event>, j: nat, idx: int, mac: Mac, name: string)
    requires j < |log| && |log'| == |log| + 1 && log'[..|log|] == log
    ensures Writes(log', j, idx, mac, name) <==> Writes(log, j, idx, mac, name)
  {
    assert log'[..j] == log[..j] && log'[j] == log[j];
  }

  /** An event that touches nothing here changes nothing here. */
  lemma CurrentGrows(log: seq<Event>, log': seq<Event>, idx: int, mac: Mac, name: string)
    requires |log'| == |log| + 1 && log'[..|log|] == log
    requires forall n :: !Writes(log', |log|, idx, mac, n)
    requires log'[|log|] != Deleted(idx, mac, name)
    ensures Current(log', idx, mac, name) <==> Current(log, idx, mac, name)
  {
    forall i | 0 <= i < |log| ensures Stands(log', i, idx, mac, name) <==> Stands(log, i, idx, mac, name) {
      StandsGrows(log, log', i, idx, mac, name);
    }
  }

  /** At most one name is current. */
  lemma CurrentUnique(log: seq<Event>, idx: int, mac: Mac, a: string, b: string)
    requires Current(log, idx, mac, a) && Current(log, idx, mac, b)
    ensures a == b
  {
    var i :| 0 <= i < |log| && Stands(log, i, idx, mac, a);
    var j :| 0 <= j < |log| && Stands(log, j, idx, mac, b);
    assert Writes(log, i, idx, mac, a) && Writes(log, j, idx, mac, b);
  }

  /** In every run the cache maps (index, MAC) to a name iff that name was last written and not deleted since. */
  lemma {:induction false} CacheIsHistory(log: seq<Event>, idx: int, mac: Mac, name: string)
    ensures NameAt(Replay(log), idx, mac) == Some(name) <==> Current(log, idx, mac, name)
  {
    if log != [] {
      var n := |log| - 1;
      var e, c := log[n], Replay(log[..n]);
      CacheIsHistory(log[..n], idx, mac, name);
      InnerNeverEmpty(log[..n]);
      ApplyAt(c, e, idx, mac);
      if Writes(log, n, idx, mac, e.name) {
        WrittenLast(log, idx, mac, name);
      } else if e == Deleted(idx, mac, name) {
        DeletedLast(log, idx, mac, name);
      } else {
        CurrentGrows(log[..n], log, idx, mac, name);
      }
    }
  }

  lemma WrittenLast(log: seq<Event>, idx: int, mac: Mac, name: string)
    requires log != [] && Writes(log, |log| - 1, idx, mac, log[|log| - 1].name)
    ensures Current(log, idx, mac, name) <==> name == log[|log| - 1].name
  {
    var n := |log| - 1;
    assert Stands(log, n, idx, mac, log[n].name);
    if Current(log, idx, mac, name) {
      CurrentUnique(log, idx, mac, name, log[n].name);
    }
  }

  lemma DeletedLast(log: seq<Event>, idx: int, mac: Mac, name: string)
    requires log != [] && log[|log| - 1] == Deleted(idx, mac, name)
    ensures !Current(log, idx, mac, name)
  {
  }

  // ----- Lookup -----

  ghost predicate IsPrefix(p: Bytes, mac: Mac) {
    |p| <= 6 && forall i :: 0 <= i < |p| ==> mac[i] == p[i]
  }

  ghost predicate RuleApplies(p: Preferred, mac: Mac, macs: map<Mac, string>) {
    IsPrefix(p.macPrefix, mac) && p.intf in macs.Values
  }

  /** Which names a lookup on an index with these entries may give. */
  ghost predicate Answers(macs: map<Mac, string>, prefs: seq<Preferred>, mac: Mac, name: string) {
    && name in macs.Values
    && (mac in macs ==> name == macs[mac])
    && (mac !in macs && |macs| > 1 ==> forall i: nat :: FirstRule(prefs, mac, macs, i) ==> name == prefs[i].intf)
  }

  ghost predicate FirstRule(prefs: seq<Preferred>, mac: Mac, macs: map<Mac, string>, i: nat) {
    && i < |prefs| && RuleApplies(prefs[i], mac, macs)
    && forall j :: 0 <= j < i ==> !RuleApplies(prefs[j], mac, macs)
  }

  /** preferredInterface.matches. */
  method Matches(p: Preferred, mac: Mac, macs: map<Mac, string>) returns (r: Option<string>)
    requires |p.macPrefix| <= 6
    ensures r == if RuleApplies(p, mac, macs) then Some(p.intf) else None
  {
    for i := 0 to |p.macPrefix|
      invariant forall j :: 0 <= j < i ==> mac[j] == p.macPrefix[j]
    {
      if mac[i] != p.macPrefix[i] {
        return None;
      }
    }
    var rest := macs.Keys;
    while rest != {}
      invariant rest <= macs.Keys
      invariant forall m :: m in macs && macs[m] == p.intf ==> m in rest
    {
      var m :| m in rest;
      if macs[m] == p.intf {
        return Some(p.intf);
      }
      rest := rest - {m};
    }
    return None;
  }

  class Registerer {
    var ifaces: Cache
    var mapSize: nat
    const preferred: seq<Preferred>
    ghost var log: seq<Event>

    ghost predicate Valid()
      reads this
    {
      && ifaces == Replay(log)
      && mapSize == |ifaces|
      && forall i :: 0 <= i < |preferred| ==> |preferred[i].macPrefix| <= 6
    }

    constructor (prefs: seq<Preferred>)
      requires forall i :: 0 <= i < |prefs| ==> |prefs[i].macPrefix| <= 6
      ensures Valid() && log == [] && preferred == prefs
    {
      ifaces, mapSize, preferred, log := map[], 0, prefs, [];
    }

    /** EventAdded in the event loop. */
    method OnAdded(idx: int, mac: Mac, name: string)
      requires Valid()
      modifies this
      ensures Valid() && log == old(log) + [Added(idx, mac, name)]
    {
      if idx in ifaces {
        var macs: map<Mac, string> := ifaces[idx][mac := name];
        ifaces := ifaces[idx := macs];
      } else {
        var macs: map<Mac, string> := map[mac := name];
        ifaces := ifaces[idx := macs];
      }
      mapSize := |ifaces|;
      assert ifaces == Apply(Replay(log), Added(idx, mac, name));
      ReplayLast(log, Added(idx, mac, name));
      log := log + [Added(idx, mac, name)];
    }

    /** EventDeleted in the event loop. */
    method OnDeleted(idx: int, mac: Mac, name: string)
      requires Valid()
      modifies this
      ensures Valid() && log == old(log) + [Deleted(idx, mac, name)]
    {
      ghost var was := ifaces;
      if idx in ifaces {
        var macs: map<Mac, string> := ifaces[idx];
        if mac in macs && macs[mac] == name {
          macs := macs - {mac};
          ifaces := ifaces[idx := macs];
        }
        if |macs| == 0 {
          ifaces := ifaces - {idx};
        }
        assert ifaces == Apply(was, Deleted(idx, mac, name));
      }
      mapSize := |ifaces|;
      ReplayLast(log, Deleted(idx, mac, name));
      log := log + [Deleted(idx, mac, name)];
    }

    /** ifaceCacheLookup: an answer is given iff the index is known, and the exact MAC wins. */
    method CacheLookup(idx: int, mac: Mac) returns (r: Option<string>)
      requires Valid()
      ensures r.Some? <==> idx in ifaces
      ensures r.Some? ==> Answers(ifaces[idx], preferred, mac, r.value)
    {
      InnerNeverEmpty(log);
      if idx in ifaces {
        var macs := ifaces[idx];
        if |macs| == 1 {
          var m :| m in macs;
          OnlyKey(macs, m);
          return Some(macs[m]);
        } else if |macs| > 1 {
          if mac in macs {
            return Some(macs[mac]);
          }
          for i := 0 to |preferred|
            invariant forall j :: 0 <= j < i ==> !RuleApplies(preferred[j], mac, macs)
          {
            r := Matches(preferred[i], mac, macs);
            if r.Some? {
              assert FirstRule(preferred, mac, macs, i);
              return;
            }
          }
          var m :| m in macs;
          return Some(macs[m]);
        }
      }
      return None;
    }

    /** The critical section after a lookup missed and the system named the interface. */
    method OnResolved(idx: int, found: Mac, name: string) returns (r: string)
      requires Valid()
      modifies this
      ensures Valid() && log == old(log) + [Resolved(idx, found, name)]
      ensures NameAt(ifaces, idx, found) == Some(r)
      ensures r == if NameAt(old(ifaces), idx, found).Some? then NameAt(old(ifaces), idx, found).value else name
    {
      ReplayLast(log, Resolved(idx, found, name));
      log := log + [Resolved(idx, found, name)];
      if idx in ifaces {
        if found in ifaces[idx] {
          return ifaces[idx][found];
        }
        var macs: map<Mac, string> := ifaces[idx][found := name];
        SameSize(ifaces, idx, macs);
        ifaces := ifaces[idx := macs];
      } else {
        var macs: map<Mac, string> := map[found := name];
        ifaces := ifaces[idx := macs];
        mapSize := |ifaces|;
      }
      return name;
    }

    /** What other goroutines do to the cache meanwhile. */
    method Meanwhile(events: seq<Event>)
      requires Valid()
      modifies this
      ensures Valid() && log == old(log) + events
    {
      for i := 0 to |events|
        invariant Valid() && log == old(log) + events[..i]
      {
        On(events[i]);
        assert events[..i + 1] == events[..i] + [events[i]];
      }
      assert events[..|events|] == events;
    }

    method On(e: Event)
      requires Valid()
      modifies this
      ensures Valid() && log == old(log) + [e]
    {
      match e {
        case Added(idx, mac, name) =>
          OnAdded(idx, mac, name);
        case Deleted(idx, mac, name) =>
          OnDeleted(idx, mac, name);
        case Resolved(idx, mac, name) =>
          var _ := OnResolved(idx, mac, name);
      }
    }

    /**
     * IfaceNameForIndexAndMAC, with any events between its two critical sections: a known index is answered
     * from the cache; for an unknown one the name returned is the current one of the history that includes
     * those events.
     */
    method NameFor(idx: int, mac: Mac, system: Option<(string, Bytes)>, between: seq<Event>) returns (r: Option<string>)
      requires Valid()
      modifies this
      ensures Valid()
      ensures idx in old(ifaces) ==>
                ifaces == old(ifaces) && log == old(log) && r.Some? && Answers(ifaces[idx], preferred, mac, r.value)
      ensures idx !in old(ifaces) && (system.None? || |system.value.1| < 6) ==> r == None && log == old(log)
      ensures idx !in old(ifaces) && system.Some? && |system.value.1| >= 6 ==>
                var found: Mac := system.value.1[..6];
                && log == old(log) + between + [Resolved(idx, found, system.value.0)]
                && r.Some? && Current(log, idx, found, r.value)
                && (r.value == system.value.0 || Current(old(log) + between, idx, found, r.value))
                && forall n :: Current(old(log) + between, idx, found, n) ==> n == r.value
    {
      r := CacheLookup(idx, mac);
      if r.Some? {
        return;
      }
      if system.None? || |system.value.1| < 6 {
        return None;
      }
      Meanwhile(between);
      ghost var seen := log;
      var found: Mac := system.value.1[..6];
      var name := OnResolved(idx, found, system.value.0);
      forall n ensures NameAt(Replay(seen), idx, found) == Some(n) <==> Current(seen, idx, found, n) {
        CacheIsHistory(seen, idx, found, n);
      }
      CacheIsHistory(log, idx, found, name);
      return Some(name);
    }
  }

  lemma OnlyKey(macs: map<Mac, string>, m: Mac)
    requires |macs| == 1 && m in macs
    ensures forall k :: k in macs ==> k == m
  {
    assert |macs.Keys - {m}| == 0;
    forall k | k in macs ensures k == m {
      assert k !in macs.Keys - {m};
    }
  }

  lemma SameSize(c: Cache, idx: int, macs: map<Mac, string>)
    requires idx in c
    ensures |c[idx := macs]| == |c|
  {
    assert c[idx := macs].Keys == c.Keys;
  }

  /** A resolved name never replaces one that is there, and deletes with another name change nothing. */
  lemma OthersKept(log: seq<Event>, e: Event, name: string)
    requires Current(log, e.idx, e.mac, name) && (e.Resolved? || (e.Deleted? && e.name != name))
    ensures Replay(log + [e]) == Replay(log) && Current(log + [e], e.idx, e.mac, name)
  {
    assert (log + [e])[..|log|] == log;
    InnerNeverEmpty(log);
    CacheIsHistory(log, e.idx, e.mac, name);
    CacheIsHistory(log + [e], e.idx, e.mac, name);
  }
}
