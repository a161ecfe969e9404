/**
  The subscription account manager (internal/codexbridge/account.go) over its
  private profile (internal/codexbridge/profile.go).

  `Manager` is the source's class: one critical section of `m.mu` per method.
  Every durable write, every native process action and every change of the
  manager's memory is one `Step` of a world, and a manager records the worlds
  it went through in `trace`. A native process, the clock and the owners'
  sessions may move between any two of those steps, and a crash may follow any
  of them. `EveryRunIsSafe` is then a statement about every such run.
*/
module AccountWorld {
  import opened Prelude

  type Process = nat
  /** A native login id. Native ids are never reused. */
  type Login = nat
  type Owner = nat
  type Token = nat

  /** The cleanup file: `Torn` is a file that exists but does not hold exactly "pending\n". */
  datatype Bit = Absent | Marked | Torn

  /** `crash` holds the values the file can have after a crash now; `account` is
      the login whose credentials are stored. */
  datatype Disk = Disk(bit: Bit, crash: set<Bit>, account: Option<Login>)

  /** `live` maps each un-reaped native process to the login it still has open.
      `orphans` were started by a manager that crashed. `shut` are the logins a
      native process has ended, `dead` the owners whose session or policy ended. */
  datatype Env = Env(live: map<Process, Option<Login>>, orphans: set<Process>, shut: set<Login>,
                     clock: nat, dead: set<Owner>)

  datatype Attempt = Attempt(id: Token, native: Option<Login>, owner: Owner, expires: nat)
  datatype Ending = Connected | Canceled | Expired | Failed
  datatype Outcome = Outcome(id: Token, owner: Owner, ending: Ending)
  datatype Run = Run(id: nat, client: Process)

  datatype Memory = Memory(closed: bool, disconnecting: bool, active: Option<Run>,
                           client: Option<Process>, pending: Option<Attempt>, last: Option<Outcome>)

  /** `accepted` is the history of logins that passed every check of `complete`. */
  datatype World = World(mem: Memory, disk: Disk, env: Env, accepted: set<Login>)

  const FRESH_MEMORY := Memory(false, false, None, None, None, None)

  function Own(e: Env): set<Process> {
    e.live.Keys - e.orphans
  }

  /** A live native process could still store credentials nobody accepted. */
  predicate HoldsLogin(e: Env, ps: set<Process>) {
    exists p :: p in ps && p in e.live && e.live[p].Some?
  }

  predicate AccountVouched(w: World) {
    w.disk.account.Some? ==> w.disk.account.value in w.accepted
  }

  /** Credentials that were not accepted are stored, or may yet be stored. */
  predicate Exposed(w: World) {
    !AccountVouched(w) || HoldsLogin(w.env, w.env.live.Keys)
  }

  /** A stored account is usable exactly when no cleanup is owed. */
  predicate Usable(w: World, l: Login) {
    w.disk.bit == Absent && w.disk.account == Some(l)
  }

  // ---- Steps -------------------------------------------------------------

  /** Any number of native actions, the passing of time and the end of sessions:
      processes exit, end a login, store the credentials of an open login or drop
      the stored account. */
  predicate Native(w: World, v: World) {
    && v.mem == w.mem && v.accepted == w.accepted
    && v.disk == w.disk.(account := v.disk.account)
    && NativeEnv(w.env, v.env)
    && (v.disk.account == w.disk.account || v.disk.account == None
        || v.disk.account in w.env.live.Values)
  }

  predicate NativeEnv(e: Env, f: Env) {
    && f.orphans == e.orphans && f.clock >= e.clock && e.dead <= f.dead && e.shut <= f.shut
    && f.live.Keys <= e.live.Keys
    && (forall p :: p in f.live ==>
          || (f.live[p] == e.live[p] && (f.live[p].Some? ==> f.live[p].value !in f.shut))
          || (e.live[p].Some? && f.live[p].None? && e.live[p].value in f.shut))
    && (forall l :: l in f.shut ==> l in e.shut || Some(l) in e.live.Values)
  }

  /** One write to the cleanup file. It is removed only when this manager's own
      processes have no login open and the stored account, if any, is accepted. */
  predicate Durable(w: World, v: World) {
    && v == w.(disk := w.disk.(bit := v.disk.bit, crash := v.disk.crash))
    && var d, f := w.disk, v.disk;
       || (d.bit == Absent && f.bit == Torn && f.crash == d.crash + {Torn} && w.mem.active.None?)
       || (d.bit == Torn && f.bit == Marked && f.crash == d.crash + {Marked} && w.mem.active.None?)
       || (f.bit == d.bit && f.crash == {d.bit})
       || (d.bit != Absent && f.bit == Absent && f.crash == d.crash + {Absent} && MayRemove(w))
  }

  predicate MayRemove(w: World) {
    && AccountVouched(w) && !HoldsLogin(w.env, Own(w.env))
    && (w.mem.pending.Some? ==> Settled(w))
  }

  /** The pending login has passed every check. */
  predicate Settled(w: World) {
    w.mem.pending.Some? && w.mem.pending.value.native.Some? && w.mem.pending.value.native.value in w.accepted
  }

  predicate Launch(w: World, v: World, p: Process) {
    && w.mem.client.None? && Own(w.env) == {} && p !in w.env.live && p !in w.env.orphans
    && v == w.(env := w.env.(live := w.env.live[p := None]))
  }

  /** `account/login/start` reaches the process: it opens a login with a new id. */
  predicate OpenLogin(w: World, v: World, p: Process, l: Login) {
    && w.mem.client == Some(p) && p in Own(w.env) && w.env.live[p].None?
    && w.mem.pending.Some? && w.mem.pending.value.native.None?
    && w.disk.crash == {Marked} && w.disk.account.None?
    && l !in w.env.shut && Some(l) !in w.env.live.Values
    && v == w.(env := w.env.(live := w.env.live[p := Some(l)]))
  }

  /** Every check of `complete` holds now for the pending login `l`. */
  predicate Acceptable(w: World, l: Login) {
    && w.mem.pending.Some? && w.mem.pending.value.native == Some(l)
    && l in w.env.shut && !HoldsLogin(w.env, Own(w.env))
    && w.mem.pending.value.owner !in w.env.dead
    && w.env.clock < w.mem.pending.value.expires
  }

  predicate Accept(w: World, v: World, l: Login) {
    Acceptable(w, l) && v == w.(accepted := w.accepted + {l})
  }

  /** A change of the manager's fields. An outcome is that of the attempt that ends
      with it: connected once it is settled and the file is gone for good, and
      anything else only before that. */
  predicate Remember(w: World, v: World) {
    && v == w.(mem := v.mem)
    && (v.mem.last.Some? && v.mem.last != w.mem.last ==>
          && w.mem.pending.Some? && v.mem.pending.None?
          && v.mem.last.value.id == w.mem.pending.value.id && v.mem.last.value.owner == w.mem.pending.value.owner
          && (if v.mem.last.value.ending == Connected then Settled(w) && w.disk.crash == {Absent}
              else w.disk.crash != {Absent}))
    && (v.mem.client != w.mem.client ==>
          if v.mem.client.None? then w.mem.client.value !in w.env.live
          else w.mem.client.None? && Own(w.env) <= {v.mem.client.value})
    && (v.mem.pending.Some? && w.mem.pending.None? ==>
          w.disk.crash == {Marked} && w.mem.active.None? && !w.mem.disconnecting && !w.mem.closed)
    && (v.mem.pending.Some? && w.mem.pending.Some? && v.mem.pending != w.mem.pending ==>
          && w.mem.pending.value.native.None? && w.disk.crash == {Marked}
          && v.mem.pending == Some(w.mem.pending.value.(native := v.mem.pending.value.native)))
    && (v.mem.active.Some? && v.mem.active != w.mem.active ==>
          && w.mem.active.None? && w.mem.pending.None? && v.mem.pending.None? && w.disk.bit == Absent
          && !w.mem.disconnecting && !w.mem.closed)
  }

  /** After a crash, or a close, another manager opens the profile. */
  predicate Reopened(w: World, v: World) {
    && v.mem == FRESH_MEMORY && v.accepted == w.accepted
    && v.disk.bit in w.disk.crash && v.disk == Disk(v.disk.bit, {v.disk.bit}, w.disk.account)
    && v.env == w.env.(orphans := w.env.orphans + w.env.live.Keys)
  }

  /** No process left behind can still complete a login. The source starts its
      processes without asking the kernel to end them with Desk. */
  predicate Tame(w: World) {
    !HoldsLogin(w.env, w.env.live.Keys)
  }

  ghost predicate Step(w: World, v: World) {
    || Native(w, v)
    || Durable(w, v)
    || (exists p :: p in v.env.live && Launch(w, v, p))
    || (exists p, l :: p in v.env.live && v.env.live[p] == Some(l) && OpenLogin(w, v, p, l))
    || (exists l :: l in v.accepted && Accept(w, v, l))
    || Remember(w, v)
    || (Reopened(w, v) && Tame(w))
  }

  // ---- Invariant ---------------------------------------------------------

  predicate Inv(w: World) {
    && w.disk.bit in w.disk.crash
    && (Absent in w.disk.crash ==> !Exposed(w))
    && !HoldsLogin(w.env, w.env.orphans)
    && (forall p, q :: p in Own(w.env) && q in Own(w.env) ==> p == q)
    && (w.mem.client.Some? ==> Own(w.env) <= {w.mem.client.value})
    && (w.mem.active.Some? ==> w.mem.pending.None? && w.disk.bit == Absent)
    && (w.mem.pending.Some? && Absent in w.disk.crash ==> Settled(w))
    && w.accepted <= w.env.shut
    && (forall l :: Some(l) in w.env.live.Values ==> l !in w.env.shut)
  }

  predicate Initial(w: World) {
    w == World(FRESH_MEMORY, Disk(Absent, {Absent}, None), Env(map[], {}, {}, w.env.clock, w.env.dead), {})
  }

  /** `v` follows `w` with no login opened in between. */
  predicate Calm(w: World, v: World) {
    && v.env.clock >= w.env.clock && w.env.dead <= v.env.dead && w.env.shut <= v.env.shut
    && v.env.orphans == w.env.orphans && v.accepted == w.accepted
    && (v.disk.account == w.disk.account || v.disk.account == None || v.disk.account in w.env.live.Values)
    && (forall p :: p in v.env.live && v.env.live[p].Some? ==> p in w.env.live && v.env.live[p] == w.env.live[p])
  }

  /** ... and no process started either. */
  predicate Drift(w: World, v: World) {
    Calm(w, v) && v.env.live.Keys <= w.env.live.Keys
  }

  predicate SameTime(w: World, v: World) {
    v.env.clock == w.env.clock && v.env.dead == w.env.dead
  }

  /** No time passed, and the stored account is the same. */
  predicate Unmoved(w: World, v: World) {
    SameTime(w, v) && v.disk.account == w.disk.account
  }

  lemma CalmComposes(u: World, w: World, v: World)
    requires Calm(u, w) && Calm(w, v)
    ensures Calm(u, v)
    ensures Drift(u, w) && Drift(w, v) ==> Drift(u, v)
  {
    assert forall o :: o in w.env.live.Values ==> o == None || o in u.env.live.Values;
  }

  /** Once a manager has reaped its own processes, and no login is opened again,
      nothing can store credentials. */
  lemma NobodyHolds(u: World, w: World)
    requires Inv(u) && !HoldsLogin(u.env, Own(u.env)) && Calm(u, w)
    ensures forall o :: o in w.env.live.Values ==> o == None
    ensures !HoldsLogin(w.env, w.env.live.Keys)
  {
    forall p | p in w.env.live ensures w.env.live[p].None? {
    }
  }

  lemma InitialIsInv(w: World)
    requires Initial(w)
    ensures Inv(w)
  {
  }

  lemma StepKeepsInv(w: World, v: World)
    requires Inv(w) && Step(w, v)
    ensures Inv(v)
  {
    if Native(w, v) {
      assert Own(v.env) <= Own(w.env);
      assert forall l :: Some(l) in v.env.live.Values ==> l !in v.env.shut;
    } else if Durable(w, v) {
    } else if exists p :: p in v.env.live && Launch(w, v, p) {
      var p :| p in v.env.live && Launch(w, v, p);
      assert Own(v.env) == {p};
    } else if exists p, l :: p in v.env.live && v.env.live[p] == Some(l) && OpenLogin(w, v, p, l) {
      assert Own(v.env) == Own(w.env);
    } else if exists l :: l in v.accepted && Accept(w, v, l) {
    } else if Remember(w, v) {
    } else {
    }
  }

  // ---- Runs --------------------------------------------------------------

  ghost predicate StepAt(run: seq<World>, i: nat)
    requires i + 1 < |run|
  {
    Step(run[i], run[i + 1])
  }

  ghost predicate Chain(run: seq<World>) {
    forall i: nat :: i + 1 < |run| ==> StepAt(run, i)
  }

  lemma {:induction false} ChainKeepsInv(run: seq<World>, i: nat)
    requires |run| > 0 && Inv(run[0]) && Chain(run) && i < |run|
    ensures Inv(run[i])
  {
    if i > 0 {
      ChainKeepsInv(run, i - 1);
      assert StepAt(run, i - 1);
      StepKeepsInv(run[i - 1], run[i]);
    }
  }

  lemma {:induction false} AcceptedAt(run: seq<World>, j: nat, l: Login)
    requires Chain(run) && j < |run| && l in run[j].accepted && l !in run[0].accepted
    ensures exists i :: 0 <= i < j && Accept(run[i], run[i + 1], l)
  {
    assert j > 0;
    if l in run[j - 1].accepted {
      AcceptedAt(run, j - 1, l);
    } else {
      assert StepAt(run, j - 1);
      assert Accept(run[j - 1], run[j - 1 + 1], l);
    }
  }

  /** A run in which anything crashes at any moment. */
  ghost predicate CrashingChain(run: seq<World>) {
    forall i: nat :: i + 1 < |run| ==> StepOrCrashAt(run, i)
  }

  ghost predicate StepOrCrashAt(run: seq<World>, i: nat)
    requires i + 1 < |run|
  {
    StepAt(run, i) || Reopened(run[i], run[i + 1])
  }

  /** A crash before moment `j` left a process behind that had a login open. */
  predicate LeftOpen(run: seq<World>, j: nat)
    requires j < |run|
  {
    exists k :: 0 <= k < j && Reopened(run[k], run[k + 1]) && !Tame(run[k])
  }

  predicate SafeAt(run: seq<World>, j: nat, l: Login)
    requires j < |run|
  {
    && (Usable(run[j], l) ==> exists i :: 0 <= i < j && Accept(run[i], run[i + 1], l))
    && (run[j].disk.bit == Absent ==> !HoldsLogin(run[j].env, run[j].env.live.Keys))
    && (run[j].mem.pending.Some? ==> run[j].disk.bit != Absent || Settled(run[j]))
    && |Own(run[j].env)| <= 1
    && (run[j].mem.active.Some? ==> run[j].mem.pending.None? && run[j].disk.bit == Absent)
  }

  /** Over every run, whatever crashes and whatever the native processes do, up to
      a crash that leaves an open login behind: an account can be used only after
      `complete` accepted that very login, while its attempt was pending, its
      owner alive and its time not over. Without a cleanup file no live process
      can still complete a login; a pending attempt keeps the file, unless it has
      just been accepted; at most one process of the running manager is
      un-reaped; a run excludes a login and a cleanup. */
  lemma EveryRunIsSafe(run: seq<World>, j: nat, l: Login)
    requires |run| > 0 && Initial(run[0]) && CrashingChain(run) && j < |run|
    ensures SafeAt(run, j, l) || LeftOpen(run, j)
  {
    if !LeftOpen(run, j) {
      var past := run[..j + 1];
      forall i: nat | i + 1 < |past| ensures StepAt(past, i) {
        assert StepOrCrashAt(run, i);
      }
      ChainKeepsInv(past, j);
      if Usable(run[j], l) {
        AcceptedAt(past, j, l);
        var i :| 0 <= i < j && Accept(past[i], past[i + 1], l);
        assert Accept(run[i], run[i + 1], l);
      }
      OneOwn(run[j]);
    }
  }

  lemma OneOwn(w: World)
    requires Inv(w)
    ensures |Own(w.env)| <= 1
  {
    var own := Own(w.env);
    if p :| p in own {
      assert own == {p};
    }
  }

  predicate AdmitsNothing(w: World, v: World) {
    && (v.mem.active.Some? ==> v.mem.active == w.mem.active)
    && (v.mem.pending.Some? ==> w.mem.pending.Some? && v.mem.pending.value.id == w.mem.pending.value.id)
  }

  /** From a moment at which the manager closes or disconnects, for as long as it
      does, no step admits a run or a login: there is the run and the attempt of
      that moment, or none. */
  lemma {:induction false} NothingIsAdmittedWhileDisconnecting(run: seq<World>, i: nat, j: nat)
    requires Chain(run) && i <= j < |run|
    requires forall k: nat :: i <= k < j ==> Shutting(run, k)
    ensures AdmitsNothing(run[i], run[j])
  {
    if i < j {
      NothingIsAdmittedWhileDisconnecting(run, i, j - 1);
      assert StepAt(run, j - 1) && Shutting(run, j - 1);
    }
  }

  predicate Shutting(run: seq<World>, k: nat)
    requires k + 1 < |run|
  {
    (run[k].mem.disconnecting || run[k].mem.closed) && !Reopened(run[k], run[k + 1])
  }

  // ---- The boundary of the crash claim -------------------------------------

  lemma {:induction false} Fresh(s: set<nat>) returns (n: nat)
    ensures forall x :: x in s ==> x < n
  {
    if s == {} {
      n := 0;
    } else {
      var x :| x in s;
      var m := Fresh(s - {x});
      n := if m > x then m else x + 1;
      assert forall y :: y in s ==> y in s - {x} || y == x;
    }
  }

  ghost predicate OnlyAccepted(run: seq<World>) {
    forall i, l :: 0 <= i < |run| && Usable(run[i], l) ==> l in run[i].accepted
  }

  /** A manager that opens the profile of a crashed one, with the cleanup file
      in place, is safe in every continuation if and only if no process left
      behind still holds an open login. */
  lemma CrashIsSafeExactlyWhenTame(w: World, v: World)
    requires Inv(w) && Reopened(w, v) && v.disk.bit == Marked
    ensures Tame(w) <==> (forall run: seq<World> :: |run| > 0 && run[0] == v && Chain(run) ==> OnlyAccepted(run))
  {
    if Tame(w) {
      StepKeepsInv(w, v);
      forall run: seq<World> | |run| > 0 && run[0] == v && Chain(run)
        ensures OnlyAccepted(run)
      {
        forall i, l | 0 <= i < |run| && Usable(run[i], l) ensures l in run[i].accepted {
          ChainKeepsInv(run, i);
        }
      }
    } else {
      var run, l := OrphanCompletes(w, v);
      assert Usable(run[|run| - 1], l) && !OnlyAccepted(run);
    }
  }

  /** The run that shows it: the next manager resets exactly as `reset` does, and
      the process left behind stores its credentials afterwards. */
  lemma OrphanCompletes(w: World, v: World) returns (run: seq<World>, l: Login)
    requires Inv(w) && Reopened(w, v) && v.disk.bit == Marked && !Tame(w)
    ensures |run| > 0 && run[0] == v && Chain(run)
    ensures Usable(run[|run| - 1], l) && l !in run[|run| - 1].accepted
  {
    var o :| o in w.env.live && w.env.live[o].Some?;
    l := w.env.live[o].value;
    assert Some(l) in w.env.live.Values;
    var p := Fresh(v.env.live.Keys + v.env.orphans);
    var launched := v.(env := v.env.(live := v.env.live[p := None]));
    assert Own(v.env) == {};
    assert Launch(v, launched, p);
    var owned := launched.(mem := launched.mem.(client := Some(p)));
    assert Own(launched.env) == {p};
    assert Remember(launched, owned);
    var loggedOut := owned.(disk := owned.disk.(account := None));
    assert Native(owned, loggedOut);
    var reaped := loggedOut.(env := loggedOut.env.(live := v.env.live));
    assert Native(loggedOut, reaped);
    var stopped := reaped.(mem := reaped.mem.(client := None));
    assert Remember(reaped, stopped);
    var removed := stopped.(disk := stopped.disk.(bit := Absent, crash := stopped.disk.crash + {Absent}));
    assert MayRemove(stopped) && Durable(stopped, removed);
    var synced := removed.(disk := removed.disk.(crash := {Absent}));
    assert Durable(removed, synced);
    var stored := synced.(disk := synced.disk.(account := Some(l)));
    assert Native(synced, stored);
    run := [v, launched, owned, loggedOut, reaped, stopped, removed, synced, stored];
  }

  /** A login under way whose native process has stored the credentials and ended the
      login: what `complete` is told of. */
  method LoginStored() returns (run: seq<World>)
    ensures |run| > 0 && Initial(run[0]) && Chain(run)
    ensures run[|run| - 1] == World(FRESH_MEMORY.(client := Some(0), pending := Some(Attempt(0, Some(0), 0, 1))),
                                    Disk(Marked, {Marked}, Some(0)), Env(map[0 := None], {}, {0}, 0, {}), {})
  {
    var w0 := World(FRESH_MEMORY, Disk(Absent, {Absent}, None), Env(map[], {}, {}, 0, {}), {});
    var w1 := w0.(env := w0.env.(live := map[0 := None]));
    assert Launch(w0, w1, 0);
    var w2 := w1.(mem := w1.mem.(client := Some(0)));
    assert Own(w1.env) == {0} && Remember(w1, w2);
    var w3 := w2.(disk := Disk(Torn, {Absent, Torn}, None));
    assert Durable(w2, w3);
    var w4 := w3.(disk := Disk(Marked, {Absent, Torn, Marked}, None));
    assert Durable(w3, w4);
    var w5 := w4.(disk := Disk(Marked, {Marked}, None));
    assert Durable(w4, w5);
    var w6 := w5.(mem := w5.mem.(pending := Some(Attempt(0, None, 0, 1))));
    assert Remember(w5, w6);
    var w7 := w6.(env := w6.env.(live := map[0 := Some(0)]));
    assert OpenLogin(w6, w7, 0, 0);
    var w8 := w7.(mem := w7.mem.(pending := Some(Attempt(0, Some(0), 0, 1))));
    assert Remember(w7, w8);
    assert w8.env.live[0] in w8.env.live.Values;
    var w9 := w8.(disk := w8.disk.(account := Some(0)), env := w8.env.(live := map[0 := None], shut := {0}));
    assert Native(w8, w9);
    run := [w0, w1, w2, w3, w4, w5, w6, w7, w8, w9];
  }
}
