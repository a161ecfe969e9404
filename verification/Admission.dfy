/**
  Shared admission (internal/delegation/capacity.go). Every method is one critical
  section of the source's mutex, so what each keeps holds under any interleaving
  of callers. The clock is passed in; it never goes back.

  `leases` are the grants whose release has not run. The counters are proved to be
  their numbers, the limits to hold, and a refused caller's channel to be closed
  exactly when a release has come since.
*/
module Admission {
  const LIMIT := 4
  const THROTTLED := 1
  const BACKGROUND := 2
  const PAUSE := 30

  class Entry {
    var active: int
    var background: int
    var slowUntil: int

    constructor ()
      ensures active == background == slowUntil == 0
    {
      active, background, slowUntil := 0, 0, 0;
    }
  }

  /** Made after `epoch` releases. */
  class Channel {
    var closed: bool
    ghost const epoch: nat

    constructor (ghost epoch: nat)
      ensures !closed && this.epoch == epoch
    {
      closed := false;
      this.epoch := epoch;
    }
  }

  /** The closure that `take` returns: what it captured, and its `sync.Once`. */
  class Lease {
    const key: string
    const entry: Entry
    const background: bool
    var released: bool

    constructor (key: string, entry: Entry, background: bool)
      ensures this.key == key && this.entry == entry && this.background == background && !released
    {
      this.key, this.entry, this.background, released := key, entry, background, false;
    }
  }

  ghost function Held(leases: set<Lease>, key: string): set<Lease> {
    set l | l in leases && l.key == key
  }

  ghost function HeldBackground(leases: set<Lease>, key: string): set<Lease> {
    set l | l in leases && l.key == key && l.background
  }

  lemma HeldMore(leases: set<Lease>, l: Lease, k: string)
    requires l !in leases
    ensures |Held(leases + {l}, k)| == |Held(leases, k)| + if k == l.key then 1 else 0
    ensures |HeldBackground(leases + {l}, k)| == |HeldBackground(leases, k)| + if k == l.key && l.background then 1 else 0
  {
    assert Held(leases + {l}, k) == if k == l.key then Held(leases, k) + {l} else Held(leases, k);
    assert HeldBackground(leases + {l}, k)
        == if k == l.key && l.background then HeldBackground(leases, k) + {l} else HeldBackground(leases, k);
  }

  class Capacity {
    var entries: map<string, Entry>
    var changed: Channel
    ghost var issued: set<Lease>
    ghost var leases: set<Lease>
    ghost var handed: set<Channel>
    ghost var releases: nat

    ghost predicate Valid()
      reads this, entries.Values, issued, handed
    {
      && (forall k, m :: k in entries && m in entries && entries[k] == entries[m] ==> k == m)
      && (forall k :: k in entries ==> Counts(k))
      && leases <= issued && (forall l :: l in issued ==> (l in leases <==> !l.released))
      && (forall l :: l in leases ==> l.key in entries && entries[l.key] == l.entry)
      && changed in handed && changed.epoch == releases
      && (forall c :: c in handed ==> c.epoch <= releases && (c.closed <==> c.epoch < releases))
      && (forall c :: c in handed && c.epoch == releases ==> c == changed)
    }

    /** The entry of a key counts the leases of that key. */
    ghost predicate Counts(k: string)
      reads this, entries.Values
      requires k in entries
    {
      var e := entries[k];
      && e.active == |Held(leases, k)| <= LIMIT
      && e.background == |HeldBackground(leases, k)| <= BACKGROUND
    }

    predicate Throttled(key: string, now: nat)
      reads this, entries.Values
    {
      key in entries && now < entries[key].slowUntil
    }

    /** There is room for one more lease of `key`. */
    ghost predicate Room(key: string, background: bool, now: nat)
      reads this, entries.Values
    {
      && (if Throttled(key, now) then Held(leases, key) == {} else |Held(leases, key)| < LIMIT)
      && (background ==> |HeldBackground(leases, key)| < BACKGROUND)
    }

    constructor ()
      ensures Valid() && fresh(changed) && leases == issued == {} && entries == map[]
    {
      var c := new Channel(0);
      entries, changed, issued, leases, handed, releases := map[], c, {}, {}, {c}, 0;
    }

    /** The entry of a key, made if there is none. */
    method Find(key: string) returns (e: Entry)
      requires Valid()
      modifies this`entries
      ensures Valid() && key in entries && e == entries[key]
      ensures entries == old(entries)[key := e] && (if key in old(entries) then e == old(entries[key]) else fresh(e))
      ensures key !in old(entries) ==> e.active == e.background == e.slowUntil == 0
    {
      if key in entries {
        e := entries[key];
        assert entries == entries[key := e];
      } else {
        e := new Entry();
        assert Held(leases, key) == {} && HeldBackground(leases, key) == {};
        entries := entries[key := e];
      }
    }

    /** A lease if there is room, and otherwise a channel that the next release closes. */
    method Take(key: string, background: bool, now: nat) returns (lease: Lease?, wait: Channel?)
      requires Valid()
      modifies this`entries, this`leases, this`issued, entries.Values
      ensures Valid()
      ensures lease != null <==> old(Room(key, background, now))
      ensures lease != null ==> fresh(lease) && lease.key == key && lease.background == background
                                && leases == old(leases) + {lease} && issued == old(issued) + {lease} && wait == null
      ensures lease == null ==> leases == old(leases) && issued == old(issued) && wait == changed && !wait.closed
      ensures fresh(entries.Values - old(entries.Values))
      ensures key in entries && (key !in old(entries) ==> entries[key].slowUntil == 0)
      ensures forall k :: k in entries && k in old(entries) ==> entries[k].slowUntil == old(entries[k].slowUntil)
    {
      var e, room := Look(key, background, now);
      if !room {
        return null, changed;
      }
      lease := Grant(key, e, background);
      wait := null;
    }

    /** Four leases of a key, two of them for background work, and one while it is throttled. */
    lemma RoomMeans(key: string, background: bool, now: nat)
      requires Valid()
      ensures key in entries && now < entries[key].slowUntil ==>
        (Room(key, background, now) <==> Held(leases, key) == {})
      ensures key !in entries || now >= entries[key].slowUntil ==>
        (Room(key, background, now) <==>
          |Held(leases, key)| < 4 && (background ==> |HeldBackground(leases, key)| < 2))
    {
      NobodyHolds(key);
      if Held(leases, key) == {} {
        assert HeldBackground(leases, key) == {};
      }
    }

    lemma NobodyHolds(key: string)
      requires Valid()
      ensures key !in entries ==> Held(leases, key) == {}
      ensures HeldBackground(leases, key) <= Held(leases, key)
    {
    }

    /** The entry of a key, and whether it may be used. */
    method Look(key: string, background: bool, now: nat) returns (e: Entry, room: bool)
      requires Valid()
      modifies this`entries
      ensures Valid() && key in entries && e == entries[key] && room == old(Room(key, background, now))
      ensures room ==> e.active < LIMIT && (background ==> e.background < BACKGROUND)
      ensures entries == old(entries)[key := e] && (key in old(entries) ==> e == old(entries[key]))
      ensures key !in old(entries) ==> fresh(e) && e.slowUntil == 0 && Held(leases, key) == {}
      ensures HeldBackground(leases, key) <= Held(leases, key)
    {
      NobodyHolds(key);
      e := Find(key);
      assert Counts(key);
      var limit := if now < e.slowUntil then THROTTLED else LIMIT;
      room := !(e.active >= limit || (background && e.background >= BACKGROUND));
    }

    method Grant(key: string, e: Entry, background: bool) returns (lease: Lease)
      requires Valid() && key in entries && e == entries[key]
      requires e.active < LIMIT && (background ==> e.background < BACKGROUND)
      modifies this`leases, this`issued, e`active, e`background
      ensures Valid() && fresh(lease) && lease.key == key && lease.background == background
      ensures leases == old(leases) + {lease} && issued == old(issued) + {lease}
    {
      lease := new Lease(key, e, background);
      ghost var before := leases;
      e.active := e.active + 1;
      if background {
        e.background := e.background + 1;
      }
      leases, issued := leases + {lease}, issued + {lease};
      forall k | k in entries ensures Counts(k) {
        assert old(Counts(k));
        assert k != key ==> entries[k] != e;
        HeldMore(before, lease, k);
      }
    }

    /** The closure that `take` returned. A second call changes nothing. */
    method Release(l: Lease, now: nat)
      requires Valid() && l in issued
      modifies this`entries, this`changed, this`leases, this`handed, this`releases, l`released, l.entry, changed
      ensures Valid() && l.released && leases == old(leases) - {l}
      ensures old(l.released) ==> unchanged(this) && unchanged(l.entry) && unchanged(old(changed))
      ensures !old(l.released) ==> old(changed).closed && fresh(changed) && releases == old(releases) + 1
      ensures l.entry.slowUntil == old(l.entry.slowUntil)
      ensures forall k :: k in entries ==> k in old(entries) && entries[k] == old(entries[k])
      ensures forall k :: k in old(entries) ==>
        (k !in entries <==> !old(l.released) && k == l.key && Held(leases, k) == {} && !old(Throttled(k, now)))
    {
      if l.released {
        return;
      }
      PutBack(l);
      Drop(l.key, l.entry, now);
      Wake();
    }

    /** An entry nobody needs goes. */
    method Drop(key: string, e: Entry, now: nat)
      requires Valid() && key in entries && entries[key] == e
      modifies this`entries
      ensures Valid()
      ensures entries == if Held(leases, key) == {} && now >= e.slowUntil then old(entries) - {key} else old(entries)
    {
      assert Counts(key);
      if e.active == 0 && now >= e.slowUntil {
        forall l | l in leases ensures l.key != key {
          assert l !in Held(leases, key);
        }
        assert forall k :: k in entries ==> Counts(k);
        entries := entries - {key};
      }
    }

    /** Everyone who was refused looks again. */
    method Wake()
      requires Valid()
      modifies this`changed, this`handed, this`releases, changed
      ensures Valid() && old(changed).closed && fresh(changed) && releases == old(releases) + 1
    {
      changed.closed := true;
      changed := new Channel(releases + 1);
      releases, handed := releases + 1, handed + {changed};
      assert forall k :: k in entries ==> old(Counts(k));
    }

    method PutBack(l: Lease)
      requires Valid() && l in leases
      modifies this`leases, l`released, l.entry`active, l.entry`background
      ensures Valid() && l.released && leases == old(leases) - {l}
    {
      var e := l.entry;
      assert Counts(l.key);
      l.released := true;
      leases := leases - {l};
      e.active := e.active - 1;
      if l.background {
        e.background := e.background - 1;
      }
      forall k | k in entries ensures Counts(k) {
        assert old(Counts(k));
        assert k != l.key ==> entries[k] != e;
        assert leases + {l} == old(leases);
        HeldMore(leases, l, k);
      }
    }

    /** A rate limit: one lease at a time for a while. */
    method Throttle(key: string, now: nat)
      requires Valid()
      modifies this`entries, entries.Values
      ensures Valid() && leases == old(leases) && key in entries && entries[key].slowUntil == now + 30
      ensures fresh(entries.Values - old(entries.Values))
      ensures forall k :: k in old(entries) ==> k in entries && entries[k] == old(entries[k])
      ensures forall k :: k in old(entries) && k != key ==> entries[k].slowUntil == old(entries[k].slowUntil)
    {
      var e := Find(key);
      Slow(key, e, now);
    }

    method Slow(key: string, e: Entry, now: nat)
      requires Valid() && key in entries && entries[key] == e
      modifies e`slowUntil
      ensures Valid() && e.slowUntil == now + PAUSE
    {
      assert forall k :: k in entries ==> Counts(k);
      e.slowUntil := now + PAUSE;
      assert forall k :: k in entries ==> Counts(k);
    }

    /** A lease that is out is counted by the entry the map holds for its key; so the
        limits hold of the leases themselves. */
    lemma LeasesAreWithinLimits(key: string)
      requires Valid()
      ensures |Held(leases, key)| <= LIMIT && |HeldBackground(leases, key)| <= BACKGROUND
    {
      if key in entries {
        assert Counts(key);
      } else {
        assert Held(leases, key) == {} && HeldBackground(leases, key) == {};
      }
    }
  }

  // ---- Any use ----------------------------------------------------------------------------

  datatype Event = Granted(key: string, background: bool) | Returned(key: string, background: bool)

  /** How many leases of a key are out, and how many of them are background work. */
  function Out(log: seq<Event>, key: string, onlyBackground: bool): int {
    if log == [] then 0
    else
      var e := log[|log| - 1];
      Out(log[..|log| - 1], key, onlyBackground)
      + if e.key != key || (onlyBackground && !e.background) then 0 else if e.Granted? then 1 else -1
  }

  ghost predicate Moment(log: seq<Event>) {
    forall key :: 0 <= Out(log, key, false) <= LIMIT && 0 <= Out(log, key, true) <= BACKGROUND
  }

  /** Every moment, not only the last. */
  ghost predicate AllMoments(log: seq<Event>) {
    forall k :: 0 <= k <= |log| ==> Moment(log[..k])
  }

  lemma {:induction false} OneMoment(before: seq<Event>, log: seq<Event>)
    requires AllMoments(before) && before <= log && |log| <= |before| + 1 && Moment(log)
    ensures AllMoments(log)
  {
    assert forall k :: 0 <= k <= |before| ==> log[..k] == before[..k];
    assert log[..|log|] == log;
  }

  ghost predicate Tracks(c: Capacity, log: seq<Event>)
    reads c`leases
  {
    forall key :: Out(log, key, false) == |Held(c.leases, key)| && Out(log, key, true) == |HeldBackground(c.leases, key)|
  }

  lemma {:induction false} OneMore(log: seq<Event>, e: Event, key: string, onlyBackground: bool)
    ensures Out(log + [e], key, onlyBackground) == Out(log, key, onlyBackground)
        + (if e.key != key || (onlyBackground && !e.background) then 0 else if e.Granted? then 1 else -1)
  {
    assert (log + [e])[..|log|] == log;
  }

  ghost function Objects(c: Capacity): set<object>
    reads c
  {
    {c, c.changed} + c.entries.Values + c.issued + set l | l in c.issued :: l.entry
  }

  /** Leases that are asked for, returned once or more often, and throttled, in any
      order and at any times: no more than four of a key are ever out, and no more
      than two of them for background work. */
  method AnyHistory(steps: nat) returns (log: seq<Event>)
    ensures AllMoments(log)
  {
    var c := new Capacity();
    log := AnyUse(c, [], [], 0, steps);
  }

  method AnyUse(c: Capacity, log: seq<Event>, mine: seq<Lease>, now: nat, steps: nat) returns (after: seq<Event>)
    requires c.Valid() && Tracks(c, log) && AllMoments(log) && forall l :: l in mine ==> l in c.issued
    modifies Objects(c)
    ensures AllMoments(after) && log <= after
    decreases steps
  {
    after := log;
    if steps > 0 {
      var later: nat :| true;
      var next, more := AnyStep(c, log, mine, now + later);
      MomentNow(c, next);
      OneMoment(log, next);
      after := AnyUse(c, next, more, now + later, steps - 1);
    }
  }

  method AnyStep(c: Capacity, log: seq<Event>, mine: seq<Lease>, now: nat) returns (after: seq<Event>, more: seq<Lease>)
    requires c.Valid() && Tracks(c, log) && forall l :: l in mine ==> l in c.issued
    modifies Objects(c)
    ensures c.Valid() && Tracks(c, after) && fresh(Objects(c) - old(Objects(c))) && log <= after && |after| <= |log| + 1
    ensures forall l :: l in more ==> l in c.issued
  {
    after, more := log, mine;
    var which: nat, key: string, background: bool := *, *, *;
    if which < |mine| {
      after := GiveBack(c, log, mine[which], now);
    } else if which == |mine| {
      c.Throttle(key, now);
    } else {
      after, more := Ask(c, log, mine, key, background, now);
    }
  }

  lemma MomentNow(c: Capacity, log: seq<Event>)
    requires c.Valid() && Tracks(c, log)
    ensures Moment(log)
  {
    forall key ensures 0 <= Out(log, key, false) <= LIMIT && 0 <= Out(log, key, true) <= BACKGROUND {
      c.LeasesAreWithinLimits(key);
    }
  }

  method Ask(c: Capacity, log: seq<Event>, mine: seq<Lease>, key: string, background: bool, now: nat)
    returns (after: seq<Event>, more: seq<Lease>)
    requires c.Valid() && Tracks(c, log) && forall l :: l in mine ==> l in c.issued
    modifies c`entries, c`leases, c`issued, c.entries.Values
    ensures c.Valid() && Tracks(c, after) && fresh(Objects(c) - old(Objects(c))) && log <= after && |after| <= |log| + 1
    ensures forall l :: l in more ==> l in c.issued
  {
    after, more := log, mine;
    ghost var leases := c.leases;
    var lease, _ := c.Take(key, background, now);
    if lease != null {
      after, more := log + [Granted(key, background)], mine + [lease];
      forall k ensures Out(after, k, false) == |Held(c.leases, k)| && Out(after, k, true) == |HeldBackground(c.leases, k)| {
        OneMore(log, Granted(key, background), k, false);
        OneMore(log, Granted(key, background), k, true);
        HeldMore(leases, lease, k);
      }
    }
  }

  method GiveBack(c: Capacity, log: seq<Event>, l: Lease, now: nat) returns (after: seq<Event>)
    requires c.Valid() && Tracks(c, log) && l in c.issued
    modifies c`entries, c`changed, c`leases, c`handed, c`releases, l`released, l.entry, c.changed
    ensures c.Valid() && Tracks(c, after) && fresh(Objects(c) - old(Objects(c))) && log <= after && |after| <= |log| + 1
  {
    after := if l.released then log else log + [Returned(l.key, l.background)];
    var again := l.released;
    c.Release(l, now);
    if !again {
      forall k ensures Out(after, k, false) == |Held(c.leases, k)| && Out(after, k, true) == |HeldBackground(c.leases, k)| {
        OneMore(log, Returned(l.key, l.background), k, false);
        OneMore(log, Returned(l.key, l.background), k, true);
        HeldMore(c.leases, l, k);
        assert c.leases + {l} == old(c.leases);
      }
    }
  }
}
