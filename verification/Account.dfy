/**
  The account manager itself: one method per critical section of `m.mu`, and one
  per helper that such a section calls. Answers of the native process, storage
  errors and timeouts are parameters; what the world does by itself is chosen freely,
  and nothing if the manager is `still`.
*/
module Account {
  import opened Prelude
  import opened AccountWorld

  /** How `clearCleanup` ended: `Unsynced` removed the file but could not make that durable. */
  datatype Clearing = Cleared | Kept | Unsynced

  /** How `reset` ended: `Unmarked` could not place the cleanup file first. */
  datatype Resetting = Done | Unmarked | Unfinished

  datatype Presence = Unavailable | LoginPending | SignedOut | SignedIn

  /** What fails, if it comes to it, when the cleanup file is placed and when it is removed. */
  datatype MarkFaults = MarkFaults(lookup: bool, create: bool, write: bool, sync: bool)
  datatype ClearFaults = ClearFaults(remove: bool, sync: bool)

  /** `spawn`: the manager is closing, the client has stopped, the runtime cannot be started,
      and the process that was started answers the first call. */
  datatype Starting = Starting(over: bool, done: bool, refused: bool, listed: bool)

  /** A logout in a fresh process: its call is answered, it removes the account, and
      the look afterwards is answered. */
  datatype Leaving = Leaving(starting: Starting, answered: bool, removes: bool, read: bool)

  datatype Cleaning = Cleaning(marking: MarkFaults, leaving: Leaving, clearing: ClearFaults)

  /** `ready`: the client of the attempt has stopped, the file cannot be looked up. */
  datatype Readying = Readying(stopped: bool, lookup: bool, cleaning: Cleaning, starting: Starting)

  /** `account/login/start`: the process opens a login, answers, and with a usable challenge. */
  datatype Opening = Opening(started: bool, answered: bool, usable: bool)

  predicate Starts(s: Starting) {
    !s.over && !s.refused && s.listed
  }

  /** The calls of a logout are answered ... */
  predicate Reaches(l: Leaving) {
    Starts(l.starting) && l.answered && l.read
  }

  /** ... and no account is left. */
  predicate Leaves(l: Leaving, account: Option<Login>) {
    Reaches(l) && (l.removes || account.None?)
  }

  predicate Clears(f: ClearFaults) {
    !f.remove && !f.sync
  }

  /** Nothing is in the way of a cleanup. */
  predicate Cleans(bit: Bit, account: Option<Login>, c: Cleaning) {
    Places(bit, c.marking) && Leaves(c.leaving, account) && Clears(c.clearing)
  }

  /** Two faults of `complete`: the file was removed but not durably, and it could not be
      placed again, so that nothing is left of it. */
  predicate DoubleFault(clearing: ClearFaults, marking: MarkFaults) {
    !clearing.remove && clearing.sync && (marking.lookup || marking.create)
  }

  /** Whether the file is there for certain afterwards, and what there is of it in any case. */
  predicate Places(bit: Bit, f: MarkFaults) {
    !f.lookup && bit != Torn && (bit == Absent ==> !f.create && !f.write && !f.sync)
  }

  function Placed(bit: Bit, f: MarkFaults): Bit {
    if bit != Absent then bit else if f.lookup || f.create then Absent else if f.write then Torn else Marked
  }

  class Manager {
    var closed: bool
    var disconnecting: bool
    var active: Option<Run>
    var client: Option<Process>
    var pending: Option<Attempt>
    var last: Option<Outcome>

    /** The profile directory and the world outside the manager. */
    var disk: Disk
    var env: Env

    /** History: the logins accepted so far, every world so far, the runs that
        have closed their `done` channel, and the run a logout or a close waits for. */
    var accepted: set<Login>
    var trace: seq<World>
    /** For a witness: the world does nothing by itself. */
    const still: bool
    var ended: set<Run>
    var awaited: Option<Run>

    function View(): World
      reads this
    {
      World(Memory(closed, disconnecting, active, client, pending, last), disk, env, accepted)
    }

    ghost predicate Valid()
      reads this
    {
      |trace| > 0 && trace[|trace| - 1] == View() && Chain(trace) && Inv(View())
    }

    /** What holds whenever nobody holds `m.mu`. */
    ghost predicate Quiet()
      reads this
    {
      && Valid()
      && (if client.None? then Own(env) == {} else client.value !in env.orphans)
      && (pending.None? ==> !HoldsLogin(env, Own(env)))
      && (pending.Some? ==>
            && disk.bit == Marked && Absent !in disk.crash && pending.value.native.Some?
            && (disk.account.Some? ==> disk.account == pending.value.native)
            && (forall p :: p in Own(env) ==> env.live[p].None? || env.live[p] == pending.value.native))
      && (active.Some? ==> client.None? || client.value == active.value.client)
    }

    /** The run of this manager, and the one a logout or a close waits for, have
        not both closed their channel unseen. */
    ghost predicate Joined()
      reads this`active, this`ended, this`awaited, this`closed, this`disconnecting
    {
      && (active.Some? ==> active.value !in ended)
      && (closed || disconnecting ==>
            && (active.Some? ==> awaited == active)
            && (awaited.Some? ==> awaited == active || awaited.value in ended))
    }

    /** A report of process `c` on login `id` is one on the attempt under way. */
    predicate Concerns(c: Process, id: Login)
      reads this`closed, this`client, this`pending
    {
      !closed && client == Some(c) && pending.Some? && pending.value.native == Some(id)
    }

    /** The attempt is in time, and its process, not reaped, has stored the credentials. */
    predicate Stored(id: Login)
      reads this`client, this`pending, this`env, this`disk
    {
      && pending.Some? && pending.value.owner !in env.dead && env.clock < pending.value.expires
      && client.Some? && client.value in env.live && disk.account == Some(id)
    }

    /** The attempt ends when the manager gets ready. */
    predicate Overdue(f: Readying)
      reads this`client, this`pending, this`env
    {
      && pending.Some?
      && (pending.value.owner in env.dead || env.clock >= pending.value.expires || (client.Some? && f.stopped))
    }

    /** ... or the cleanup that an earlier one owes is made. */
    predicate Owes(f: Readying)
      reads this`client, this`pending, this`env, this`disk
    {
      Overdue(f) || (pending.None? && disk.bit == Marked)
    }

    /** The client is there, or can be started. */
    predicate HasClient(s: Starting)
      reads this`client, this`env
    {
      !s.over && ((client.Some? && client.value in env.live && !s.done) || Starts(s))
    }

    /** What `Ready` takes while the world is still. */
    predicate Prepared(f: Readying)
      reads this`closed, this`client, this`pending, this`env, this`disk
    {
      && !closed && !f.lookup && (pending.None? ==> disk.bit != Torn)
      && if Owes(f) then
           Cleans(disk.bit, disk.account, f.cleaning) && Starts(f.starting)
         else HasClient(f.starting)
    }

    // ---- The record of steps ------------------------------------------------

    method Record()
      requires |trace| > 0 && Chain(trace) && Inv(trace[|trace| - 1])
      requires Step(trace[|trace| - 1], View())
      modifies this`trace
      ensures Valid() && trace == old(trace) + [View()]
    {
      StepKeepsInv(trace[|trace| - 1], View());
      var longer := trace + [View()];
      forall i: nat | i + 1 < |longer| ensures StepAt(longer, i) {
        if i + 1 < |trace| {
          assert StepAt(trace, i);
        }
      }
      trace := longer;
    }

    /** Native processes, clock and sessions move on. */
    method Interfere()
      requires Valid()
      modifies this`env, this`disk, this`trace
      ensures Valid() && old(trace) <= trace
      ensures Native(old(View()), View())
      ensures still ==> View() == old(View())
    {
      var account: Option<Login> := *;
      var later: Env := *;
      if !still && NativeEnv(env, later) && (account == disk.account || account == None || account in env.live.Values) {
        env, disk := later, disk.(account := account);
      }
      Record();
    }

    /** A process is killed and reaped. */
    method Reap(p: Process)
      requires Valid()
      modifies this`env, this`disk, this`trace
      ensures Valid() && old(trace) <= trace
      ensures Drift(old(View()), View()) && p !in env.live && Own(env) <= old(Own(env)) - {p}
      ensures disk.bit == old(disk.bit) && disk.crash == old(disk.crash)
      ensures still ==> Unmoved(old(View()), View())
    {
      Interfere();
      ghost var w := View();
      env := env.(live := env.live - {p});
      assert Native(w, View());
      Record();
      CalmComposes(old(View()), w, View());
    }

    // ---- The cleanup file (profile.go) --------------------------------------

    method NeedsCleanup(fails: bool) returns (r: Option<bool>)
      requires Valid()
      ensures r == if fails || disk.bit == Torn then None else Some(disk.bit == Marked)
    {
      if fails || disk.bit == Torn {
        return None;
      }
      return Some(disk.bit == Marked);
    }

    method SyncProfile(fails: bool) returns (ok: bool)
      requires Valid()
      modifies this`env, this`disk, this`trace
      ensures Valid() && old(trace) <= trace
      ensures Drift(old(View()), View()) && disk.bit == old(disk.bit)
      ensures disk.crash == if fails then old(disk.crash) else {disk.bit}
      ensures ok == !fails && (still ==> env == old(env) && disk.account == old(disk.account))
    {
      Interfere();
      ok := !fails;
      if ok {
        ghost var w := View();
        disk := disk.(crash := {disk.bit});
        assert Durable(w, View());
        Record();
        CalmComposes(old(View()), w, View());
      }
    }

    /** `writeNew("cleanup", ...)`: create, write and sync the file, sync the directory. */
    method WriteCleanup(f: MarkFaults) returns (ok: bool)
      requires Valid() && active.None? && disk.bit == Absent
      modifies this`env, this`disk, this`trace
      ensures Valid() && old(trace) <= trace
      ensures Drift(old(View()), View())
      ensures ok == !(f.create || f.write || f.sync)
      ensures disk.bit == if f.create then Absent else if f.write then Torn else Marked
      ensures ok ==> disk.crash == {Marked}
      ensures f.create ==> disk.crash == old(disk.crash)
      ensures still ==> env == old(env) && disk.account == old(disk.account)
    {
      if f.create {
        return false;
      }
      ghost var w := View();
      disk := disk.(bit := Torn, crash := disk.crash + {Torn});
      assert Durable(w, View());
      Record();
      Interfere();
      w := View();
      if f.write {
        return false;
      }
      disk := disk.(bit := Marked, crash := disk.crash + {Marked});
      assert Durable(w, View());
      Record();
      ok := SyncProfile(f.sync);
      CalmComposes(old(View()), w, View());
    }

    method MarkCleanup(f: MarkFaults) returns (ok: bool)
      requires Valid() && active.None?
      modifies this`env, this`disk, this`trace
      ensures Valid() && old(trace) <= trace
      ensures Drift(old(View()), View())
      ensures ok == Places(old(disk.bit), f) && disk.bit == Placed(old(disk.bit), f)
      ensures ok && old(disk.bit) == Absent ==> disk.crash == {Marked}
      ensures old(disk.bit) != Absent || disk.bit == Absent ==> disk.crash == old(disk.crash)
      ensures still ==> env == old(env) && disk.account == old(disk.account)
    {
      Interfere();
      ghost var w := View();
      var needed := NeedsCleanup(f.lookup);
      if needed != Some(false) {
        return needed == Some(true);
      }
      ok := WriteCleanup(f);
      CalmComposes(old(View()), w, View());
    }

    method ClearCleanup(f: ClearFaults) returns (r: Clearing)
      requires Valid() && MayRemove(View())
      modifies this`env, this`disk, this`trace
      ensures Valid() && old(trace) <= trace
      ensures Drift(old(View()), View())
      ensures r == if f.remove then Kept else if f.sync then Unsynced else Cleared
      ensures disk.bit == if f.remove then old(disk.bit) else Absent
      ensures disk.crash == match r
              case Cleared => {Absent}
              case Kept => old(disk.crash)
              case Unsynced => old(disk.crash) + {Absent}
      ensures still ==> env == old(env) && disk.account == old(disk.account)
    {
      Interfere();
      if f.remove {
        return Kept;
      }
      ghost var w := View();
      if disk.bit != Absent {
        disk := disk.(bit := Absent, crash := disk.crash + {Absent});
        assert MayRemove(w) && Durable(w, View());
        Record();
        CalmComposes(old(View()), w, View());
      }
      w := View();
      var synced := SyncProfile(f.sync);
      CalmComposes(old(View()), w, View());
      r := if synced then Cleared else Unsynced;
    }

    // ---- The native process ---------------------------------------------------

    method StopClient()
      requires Valid()
      modifies this`client, this`env, this`disk, this`trace
      ensures Valid() && old(trace) <= trace
      ensures Drift(old(View()), View())
      ensures client.None? && disk.bit == old(disk.bit) && disk.crash == old(disk.crash)
      ensures old(client.Some? || Own(env) == {}) ==> Own(env) == {}
      ensures still ==> Unmoved(old(View()), View())
    {
      if client.None? {
        Interfere();
        return;
      }
      Reap(client.value);
      ghost var w := View();
      client := None;
      assert Remember(w, View());
      Record();
    }

    method Finish(ending: Ending)
      requires Valid()
      requires pending.Some? ==>
                 if ending.Connected? then Settled(View()) && disk.crash == {Absent} else disk.crash != {Absent}
      modifies this`pending, this`last, this`trace
      ensures Valid() && old(trace) <= trace
      ensures pending.None?
      ensures last == match old(pending)
                      case None => old(last)
                      case Some(p) => Some(Outcome(p.id, p.owner, ending))
    {
      if pending.None? {
        return;
      }
      ghost var w := View();
      last := Some(Outcome(pending.value.id, pending.value.owner, ending));
      pending := None;
      assert Remember(w, View());
      Record();
    }

    method LaunchProcess() returns (p: Process)
      requires Valid() && client.None? && Own(env) == {}
      modifies this`env, this`disk, this`trace
      ensures Valid() && old(trace) <= trace
      ensures Calm(old(View()), View())
      ensures Own(env) <= {p} && (p in env.live ==> env.live[p].None?) && p !in env.orphans
      ensures disk.bit == old(disk.bit) && disk.crash == old(disk.crash)
      ensures still ==> Unmoved(old(View()), View()) && p in env.live
    {
      Interfere();
      ghost var w := View();
      ghost var n := Fresh(env.live.Keys + env.orphans);
      assert n !in env.live && n !in env.orphans;
      p :| p !in env.live && p !in env.orphans;
      env := env.(live := env.live[p := None]);
      assert Launch(w, View(), p);
      Record();
      assert Own(env) == {p};
    }

    /** `spawn` keeps a client whose process has not stopped. */
    method DropStopped(done: bool)
      requires Valid() && (client.None? ==> Own(env) == {})
      modifies this`client, this`env, this`disk, this`trace
      ensures Valid() && old(trace) <= trace
      ensures Drift(old(View()), View())
      ensures disk.bit == old(disk.bit) && disk.crash == old(disk.crash)
      ensures client.Some? <==> old(client.Some? && client.value in env.live) && !done
      ensures client.Some? ==> View() == old(View())
      ensures client.None? ==> Own(env) == {}
      ensures still ==> Unmoved(old(View()), View())
    {
      if client.Some? && (done || client.value !in env.live) {
        StopClient();
      }
    }

    method Spawn(s: Starting) returns (ok: bool)
      requires Valid() && (client.None? ==> Own(env) == {})
      modifies this`client, this`env, this`disk, this`trace
      ensures Valid() && old(trace) <= trace
      ensures Calm(old(View()), View())
      ensures disk.bit == old(disk.bit) && disk.crash == old(disk.crash)
      ensures ok ==> client.Some? && !closed
      ensures ok <==> !closed && old(HasClient(s))
      ensures client.None? ==> Own(env) == {}
      ensures client.Some? ==> client == old(client) || client.value !in env.orphans
      ensures still ==> Unmoved(old(View()), View()) && (ok ==> client.value in env.live)
    {
      if closed || s.over {
        return false;
      }
      DropStopped(s.done);
      if client.Some? {
        return true;
      }
      if s.refused {
        return false;
      }
      ghost var w := View();
      var p := LaunchProcess();
      CalmComposes(old(View()), w, View());
      w := View();
      if !s.listed {
        Reap(p);
        CalmComposes(old(View()), w, View());
        return false;
      }
      client := Some(p);
      assert Remember(w, View());
      Record();
      return true;
    }

    /** `account/read`: the native process may answer whether credentials are stored. */
    method ReadAccount(answers: bool) returns (r: Option<bool>)
      requires Valid() && client.Some?
      modifies this`env, this`disk, this`trace
      ensures Valid() && old(trace) <= trace
      ensures Native(old(View()), View()) && (still ==> View() == old(View()))
      ensures r == if answers && client.value in env.live then Some(disk.account.Some?) else None
    {
      Interfere();
      if !answers || client.value !in env.live {
        return None;
      }
      return Some(disk.account.Some?);
    }

    /** `account/logout`: the native process may remove what is stored. */
    method CallLogout(removes: bool)
      requires Valid() && client.Some?
      modifies this`env, this`disk, this`trace
      ensures Valid() && old(trace) <= trace
      ensures Calm(old(View()), View())
      ensures disk.bit == old(disk.bit) && disk.crash == old(disk.crash)
      ensures still ==> env == old(env)
      ensures still && client.value in env.live ==> disk.account == if removes then None else old(disk.account)
    {
      Interfere();
      if removes && client.value in env.live {
        ghost var w := View();
        disk := disk.(account := None);
        assert Native(w, View());
        Record();
        CalmComposes(old(View()), w, View());
      }
    }

    /** Log out in a fresh process, and look. */
    method LogOutAfresh(f: Leaving) returns (ok: bool)
      requires Valid() && client.None? && Own(env) == {}
      modifies this`client, this`env, this`disk, this`trace
      ensures Valid() && old(trace) <= trace
      ensures Calm(old(View()), View())
      ensures disk.bit == old(disk.bit) && disk.crash == old(disk.crash)
      ensures client.None? && Own(env) == {}
      ensures ok ==> !closed && disk.account.None? && Reaches(f)
      ensures still ==> SameTime(old(View()), View()) && (ok <==> !closed && Leaves(f, old(disk.account)))
    {
      var spawned := Spawn(f.starting);
      if !spawned {
        StopClient();
        return false;
      }
      ghost var w := View();
      var account := None;
      if f.answered {
        CallLogout(f.removes);
        CalmComposes(old(View()), w, View());
        w := View();
        account := ReadAccount(f.read);
        CalmComposes(old(View()), w, View());
      }
      w := View();
      NobodyHolds(old(View()), w);
      StopClient();
      CalmComposes(old(View()), w, View());
      return account == Some(false);
    }

    /** `reset` once the cleanup file is there: every native writer is reaped
        before the logout, and again before the file goes. */
    method ReapAndLogOut(leaving: Leaving, clearing: ClearFaults) returns (ok: bool)
      requires Valid() && active.None? && pending.None? && (client.None? ==> Own(env) == {})
      modifies this`client, this`env, this`disk, this`trace
      ensures Valid() && old(trace) <= trace
      ensures Calm(old(View()), View())
      ensures client.None? && Own(env) == {}
      ensures ok ==> disk.account.None? && disk.bit == Absent && disk.crash == {Absent} && !closed
      ensures ok ==> Reaches(leaving) && Clears(clearing)
      ensures old(disk.bit) != Absent && disk.bit == Absent ==> disk.account.None?
      ensures still ==> SameTime(old(View()), View())
      ensures still ==> (ok <==> !closed && Leaves(leaving, old(disk.account)) && Clears(clearing))
    {
      StopClient();
      ghost var w := View();
      var out := LogOutAfresh(leaving);
      CalmComposes(old(View()), w, View());
      if !out {
        return false;
      }
      w := View();
      NobodyHolds(w, w);
      var cleared := ClearCleanup(clearing);
      CalmComposes(old(View()), w, View());
      return cleared.Cleared?;
    }

    /** The attempt ends, and the native process is told to cancel its login; the answer is not used. */
    method FinishAndCancel(ending: Ending)
      requires Valid() && (pending.Some? ==> ending != Connected && disk.crash != {Absent})
      modifies this`pending, this`last, this`env, this`disk, this`trace
      ensures Valid() && old(trace) <= trace
      ensures Drift(old(View()), View()) && Own(env) <= old(Own(env)) && pending.None?
      ensures disk.bit == old(disk.bit) && disk.crash == old(disk.crash)
      ensures last == match old(pending)
                      case None => old(last)
                      case Some(p) => Some(Outcome(p.id, p.owner, ending))
      ensures still ==> Unmoved(old(View()), View())
    {
      Finish(ending);
      if client.Some? {
        Interfere();
      }
    }

    /** `Unmarked` exactly when the file could not be placed; it is then there as far
        as it was written. `Done` only when nothing fails, and then, unless the process
        does not do as it is asked. */
    method Reset(ending: Ending, c: Cleaning) returns (r: Resetting)
      requires Valid() && active.None? && (client.None? ==> Own(env) == {})
      requires pending.Some? ==> ending != Connected && disk.crash != {Absent}
      modifies this`pending, this`last, this`client, this`env, this`disk, this`trace
      ensures Quiet() && old(trace) <= trace
      ensures Calm(old(View()), View())
      ensures pending.None? && client.None? && Own(env) == {}
      ensures last == match old(pending)
                      case None => old(last)
                      case Some(p) => Some(Outcome(p.id, p.owner, ending))
      ensures r.Done? ==> disk.account.None? && disk.bit == Absent && disk.crash == {Absent} && !closed
      ensures !r.Unmarked? && disk.bit == Absent ==> disk.account.None?
      ensures r.Unmarked? <==> !Places(old(disk.bit), c.marking)
      ensures r.Unmarked? ==> disk.bit == Placed(old(disk.bit), c.marking)
      ensures r.Unmarked? && still ==> disk.account == old(disk.account)
      ensures r.Done? ==> Reaches(c.leaving) && Clears(c.clearing)
      ensures still ==> SameTime(old(View()), View())
      ensures still ==> (r.Done? <==> !closed && Cleans(old(disk.bit), old(disk.account), c))
    {
      var marked := MarkCleanup(c.marking);
      ghost var w := View();
      if !marked {
        StopClient();
        CalmComposes(old(View()), w, View());
        Finish(ending);
        return Unmarked;
      }
      var done := ResetMarked(ending, c);
      CalmComposes(old(View()), w, View());
      return if done then Done else Unfinished;
    }

    /** `reset` once the file is there. */
    method ResetMarked(ending: Ending, c: Cleaning) returns (done: bool)
      requires Valid() && active.None? && (client.None? ==> Own(env) == {})
      requires pending.Some? ==> ending != Connected && disk.crash != {Absent}
      modifies this`pending, this`last, this`client, this`env, this`disk, this`trace
      ensures Valid() && old(trace) <= trace
      ensures Calm(old(View()), View())
      ensures pending.None? && client.None? && Own(env) == {}
      ensures last == match old(pending)
                      case None => old(last)
                      case Some(p) => Some(Outcome(p.id, p.owner, ending))
      ensures done ==> disk.account.None? && disk.bit == Absent && disk.crash == {Absent} && !closed
      ensures done ==> Reaches(c.leaving) && Clears(c.clearing)
      ensures old(disk.bit) != Absent && disk.bit == Absent ==> disk.account.None?
      ensures still ==> SameTime(old(View()), View())
      ensures still ==> (done <==> !closed && Leaves(c.leaving, old(disk.account)) && Clears(c.clearing))
    {
      FinishAndCancel(ending);
      ghost var w := View();
      done := ReapAndLogOut(c.leaving, c.clearing);
      CalmComposes(old(View()), w, View());
    }

    // ---- Critical sections ----------------------------------------------------

    /** What the attempt ends with if it is overdue. */
    function Verdict(): Ending
      reads this`pending, this`env
      requires pending.Some?
    {
      if env.clock >= pending.value.expires then Expired
      else if pending.value.owner in env.dead then Canceled
      else Failed
    }

    /** Overdue attempts end, owed cleanups are made, and there is a client. */
    method Ready(f: Readying) returns (ok: bool)
      requires Quiet() && active.None?
      modifies this`pending, this`last, this`client, this`env, this`disk, this`trace
      ensures Quiet() && old(trace) <= trace && accepted == old(accepted) && env.clock >= old(env.clock)
      ensures pending == if !closed && old(Overdue(f)) then None else old(pending)
      ensures last == if !closed && old(Overdue(f))
                      then Some(Outcome(old(pending.value.id), old(pending.value.owner), old(Verdict())))
                      else old(last)
      ensures ok ==> client.Some? && !closed && (pending.None? ==> disk.bit == Absent)
      ensures ok && old(Owes(f)) ==> pending.None? && disk.account.None?
      ensures still ==> (ok <==> old(Prepared(f))) && SameTime(old(View()), View())
      ensures still && ok ==> client.value in env.live && (old(Owes(f)) || disk.account == old(disk.account))
    {
      if closed {
        return false;
      }
      ok := EndOverdue(f);
      if !ok {
        return;
      }
      var needed := NeedsCleanup(f.lookup);
      if needed.None? {
        return false;
      }
      if needed.value && pending.None? {
        var reset := Reset(Failed, f.cleaning);
        if !reset.Done? {
          return false;
        }
      }
      ok := Spawn(f.starting);
    }

    method EndOverdue(f: Readying) returns (ok: bool)
      requires Quiet() && active.None? && !closed
      modifies this`pending, this`last, this`client, this`env, this`disk, this`trace
      ensures Quiet() && old(trace) <= trace && accepted == old(accepted) && env.clock >= old(env.clock)
      ensures !old(Overdue(f)) ==> ok && View() == old(View())
      ensures old(Overdue(f)) ==> pending.None? && client.None?
      ensures old(Overdue(f)) ==> last == Some(Outcome(old(pending.value.id), old(pending.value.owner), old(Verdict())))
      ensures ok && old(Overdue(f)) ==> disk.account.None? && disk.bit == Absent
      ensures still ==> SameTime(old(View()), View())
      ensures still && old(Overdue(f)) ==> (ok <==> Cleans(old(disk.bit), old(disk.account), f.cleaning))
    {
      if pending.Some? && (pending.value.owner in env.dead || env.clock >= pending.value.expires) {
        var reset := Reset(if env.clock >= pending.value.expires then Expired else Canceled, f.cleaning);
        return reset.Done?;
      }
      if pending.Some? && client.Some? && f.stopped {
        var reset := Reset(Failed, f.cleaning);
        return reset.Done?;
      }
      return true;
    }

    /** What a client is told: `available` is the runtime, `login` how the last attempt of the
        owner ended, and `waiting` that the owner has one under way. `SignedIn` and `SignedOut`
        are what an answered look says, and only while no attempt is under way. */
    method Status(ownerID: Owner, f: Readying, answers: bool, changed: bool)
      returns (available: bool, account: Presence, login: Option<Outcome>, waiting: bool)
      requires Quiet()
      modifies this`pending, this`last, this`client, this`env, this`disk, this`trace
      ensures Quiet() && old(trace) <= trace && accepted == old(accepted)
      ensures account == SignedIn ==>
                disk.account.Some? && Usable(View(), disk.account.value) && disk.account.value in accepted
      ensures account == SignedOut ==> disk.account.None?
      ensures available ==> active.None? && !disconnecting && !closed
      ensures account == LoginPending <==> available && pending.Some?
      ensures available && pending.None? && answers && client.Some? && client.value in env.live && !changed ==>
        && (account == SignedIn <==> disk.account.Some?)
        && (account == SignedOut <==> disk.account.None?)
      ensures !available || (pending.None? && (!answers || changed)) ==> account == Unavailable
      ensures login == if available && last.Some? && last.value.owner == ownerID then last else None
      ensures waiting <==> available && pending.Some? && pending.value.owner == ownerID
      ensures active.Some? || disconnecting ==> !available && View() == old(View())
      ensures active.None? && !disconnecting && !closed ==>
                && pending == (if old(Overdue(f)) then None else old(pending))
                && last == if old(Overdue(f))
                           then Some(Outcome(old(pending.value.id), old(pending.value.owner), old(Verdict())))
                           else old(last)
      ensures available && pending.None? ==> disk.bit == Absent
      ensures still ==> SameTime(old(View()), View())
      ensures still ==> (available <==> active.None? && !disconnecting && old(Prepared(f)))
      ensures still && available && pending.None? && answers && !changed ==>
        account == (if !old(Owes(f)) && old(disk.account).Some? then SignedIn else SignedOut)
    {
      available, account, login, waiting := false, Unavailable, None, false;
      if active.Some? || disconnecting {
        return;
      }
      available := Ready(f);
      if !available {
        return;
      }
      if last.Some? && last.value.owner == ownerID {
        login := last;
      }
      if pending.Some? {
        account, waiting := LoginPending, pending.value.owner == ownerID;
        return;
      }
      var present := ReadAccount(answers);
      if present.None? {
        return;
      }
      if changed {
        StopClient();
        return;
      }
      account := if present.value then SignedIn else SignedOut;
    }


    /** `account/login/start`: the native process opens a login, and answers. */
    method CallLoginStart(o: Opening) returns (challenge: Option<Login>)
      requires Valid() && client.Some? && Own(env) <= {client.value} && !HoldsLogin(env, Own(env))
      requires pending.Some? && pending.value.native.None? && disk.crash == {Marked} && disk.account.None?
      modifies this`env, this`disk, this`trace
      ensures Valid() && old(trace) <= trace
      ensures disk.bit == Marked && disk.crash == {Marked} && env.clock >= old(env.clock)
      ensures env.orphans == old(env.orphans)
      ensures challenge.Some? ==>
                && (disk.account.Some? ==> disk.account == challenge)
                && (forall p :: p in Own(env) ==> env.live[p].None? || env.live[p] == challenge)
      ensures challenge.Some? ==> o.started && o.answered && old(client.value in Own(env))
      ensures still ==> SameTime(old(View()), View())
      ensures still && o.started && o.answered && old(client.value in Own(env)) ==> challenge.Some?
    {
      NobodyHolds(View(), View());
      Interfere();
      if client.value !in env.live || client.value in env.orphans || !o.started {
        return None;
      }
      ghost var n := Fresh(env.shut);
      assert n !in env.shut && Some(n) !in env.live.Values;
      var l: Login :| l !in env.shut && Some(l) !in env.live.Values;
      ghost var w := View();
      env := env.(live := env.live[client.value := Some(l)]);
      assert OpenLogin(w, View(), client.value, l);
      Record();
      assert forall p :: p in Own(env) ==> env.live[p] == Some(l);
      assert forall o :: o in env.live.Values ==> o == None || o == Some(l);
      Interfere();
      return if o.answered then Some(l) else None;
    }

    /** `StartLogin` up to the cleanup file: nobody is signed in, and the file is durable. */
    method PrepareLogin(f: Readying, answers: bool, marking: MarkFaults) returns (ok: bool)
      requires Quiet() && active.None?
      modifies this`pending, this`last, this`client, this`env, this`disk, this`trace
      ensures Quiet() && old(trace) <= trace && accepted == old(accepted) && env.clock >= old(env.clock)
      ensures pending == if !closed && old(Overdue(f)) then None else old(pending)
      ensures ok ==> pending.None? && client.Some? && !closed && disk.crash == {Marked} && disk.account.None?
      ensures still ==> SameTime(old(View()), View()) && (ok ==> client.value in env.live)
      ensures still ==> (ok <==> old(Prepared(f)) && pending.None? && answers && Places(Absent, marking)
                                 && (old(Owes(f)) || old(disk.account).None?))
    {
      ok := Ready(f);
      if !ok || pending.Some? {
        return false;
      }
      var present := ReadAccount(answers);
      if present != Some(false) {
        return false;
      }
      ghost var w := View();
      ok := MarkCleanup(marking);
      NobodyHolds(w, View());
    }

    /** `StartLogin` from the cleanup file on. */
    method Challenge(owner: Owner, id: Token, ttl: nat, o: Opening, c: Cleaning) returns (started: bool)
      requires Quiet() && active.None? && pending.None? && client.Some?
      requires !closed && !disconnecting && disk.crash == {Marked} && disk.account.None?
      modifies this`pending, this`last, this`client, this`env, this`disk, this`trace
      ensures Quiet() && old(trace) <= trace && accepted == old(accepted) && env.clock >= old(env.clock)
      ensures started ==>
                && owner !in env.dead && disk.crash == {Marked} && last.None?
                && pending.Some? && pending.value.id == id && pending.value.owner == owner
                && env.clock < pending.value.expires == old(env.clock) + ttl
      ensures !started ==> pending.None? && last == Some(Outcome(id, owner, Failed))
      ensures still ==> (started <==> old(client.value in env.live) && o.started && o.answered && o.usable
                                      && owner !in old(env).dead && ttl > 0)
    {
      ghost var w := View();
      pending, last := Some(Attempt(id, None, owner, env.clock + ttl)), None;
      assert Remember(w, View());
      Record();
      var challenge := CallLoginStart(o);
      if challenge.Some? && o.usable && owner !in env.dead && env.clock < pending.value.expires {
        w := View();
        pending := Some(pending.value.(native := challenge));
        assert Remember(w, View());
        Record();
        return true;
      }
      var reset := Reset(Failed, c);
      return false;
    }

    /** A login starts if nothing is in its way: another run, attempt, account or end. */
    method StartLogin(owner: Owner, id: Token, ttl: nat, f: Readying, answers: bool, marking: MarkFaults, o: Opening,
                      c: Cleaning)
      returns (started: bool)
      requires Quiet()
      modifies this`pending, this`last, this`client, this`env, this`disk, this`trace
      ensures Quiet() && old(trace) <= trace && accepted == old(accepted)
      ensures started ==>
                && !disconnecting && !closed && active.None? && owner !in env.dead && disk.crash == {Marked}
                && last.None? && pending.Some? && pending.value.id == id && pending.value.owner == owner
                && env.clock < pending.value.expires <= env.clock + ttl && pending.value.expires >= old(env.clock) + ttl
      ensures !started ==> pending.None? || pending == old(pending)
      ensures still ==> (started <==>
                && owner !in old(env).dead && active.None? && !disconnecting && old(Prepared(f))
                && (old(pending).None? || old(Overdue(f))) && (old(Owes(f)) || old(disk.account).None?)
                && answers && Places(Absent, marking) && o.started && o.answered && o.usable && ttl > 0)
    {
      if owner in env.dead || active.Some? || disconnecting {
        return false;
      }
      started := PrepareLogin(f, answers, marking);
      if started {
        started := Challenge(owner, id, ttl, o, c);
      }
    }

    method CancelLogin(ownerID: Owner, id: Token, c: Cleaning) returns (r: Option<Resetting>)
      requires Quiet()
      modifies this`pending, this`last, this`client, this`env, this`disk, this`trace
      ensures Quiet() && old(trace) <= trace && accepted == old(accepted)
      ensures r.Some? <==> !closed && old(pending.Some? && pending.value.owner == ownerID && pending.value.id == id)
      ensures r.None? ==> View() == old(View())
      ensures r.Some? ==> pending.None? && last == Some(Outcome(id, ownerID, Canceled))
      ensures r == Some(Done) ==> disk.account.None? && disk.bit == Absent && Reaches(c.leaving) && Clears(c.clearing)
      ensures still && r.Some? ==> (r == Some(Done) <==> Cleans(Marked, old(disk.account), c))
    {
      if closed || pending.None? || pending.value.owner != ownerID || pending.value.id != id {
        return None;
      }
      var reset := Reset(Canceled, c);
      return Some(reset);
    }

    /** The session, the policy or the time of an attempt ended. */
    method Abort(id: Token, c: Cleaning)
      requires Quiet()
      modifies this`pending, this`last, this`client, this`env, this`disk, this`trace
      ensures Quiet() && old(trace) <= trace && accepted == old(accepted)
      ensures closed || old(pending.None? || pending.value.id != id) ==> View() == old(View())
      ensures !closed && old(pending.Some? && pending.value.id == id) ==>
        && pending.None?
        && last == Some(Outcome(id, old(pending.value.owner),
                                if old(env.clock >= pending.value.expires) then Expired else Canceled))
    {
      if closed || pending.None? || pending.value.id != id {
        return;
      }
      var reset := Reset(if env.clock >= pending.value.expires then Expired else Canceled, c);
    }

    /** The watcher of process `c` sees that it stopped. */
    method WatchDone(c: Process)
      requires Quiet()
      modifies this`pending, this`last, this`client, this`env, this`disk, this`trace
      ensures Quiet() && old(trace) <= trace && accepted == old(accepted)
      ensures disk.bit == old(disk.bit) && disk.crash == old(disk.crash)
      ensures !closed && old(client) == Some(c) ==> pending.None? && client.None?
      ensures !closed && old(client) == Some(c) ==>
        last == match old(pending)
                case None => old(last)
                case Some(p) => Some(Outcome(p.id, p.owner, Failed))
      ensures closed || old(client) != Some(c) ==> View() == old(View())
    {
      if !closed && client == Some(c) {
        Finish(Failed);
        StopClient();
        assert Own(env) == {};
      }
    }

    /** `complete` up to its verdict: every check, and then the acceptance. */
    method CheckCompletion(id: Login, success: Option<bool>, answers: bool, intact: bool) returns (all: bool)
      requires Quiet() && client.Some? && pending.Some? && pending.value.native == Some(id)
      requires success == Some(true) ==> id in env.shut
      modifies this`env, this`disk, this`accepted, this`trace
      ensures Valid() && old(trace) <= trace && Drift(old(View()).(accepted := accepted), View())
      ensures disk.bit == old(disk.bit) && disk.crash == old(disk.crash)
      ensures (forall p :: p in Own(env) ==> env.live[p].None? || env.live[p] == Some(id))
      ensures disk.account.Some? ==> disk.account == Some(id)
      ensures accepted == if all then old(accepted) + {id} else old(accepted)
      ensures all ==> MayRemove(View()) && success == Some(true)
                      && pending.value.owner !in env.dead && env.clock < pending.value.expires
      ensures still ==> env == old(env) && disk.account == old(disk.account)
      ensures still ==> (all <==>
                && success == Some(true) && answers && intact && client.value in old(env.live)
                && old(pending.value.owner !in env.dead && env.clock < pending.value.expires && disk.account.Some?))
    {
      if success != Some(true) || pending.value.owner in env.dead || env.clock >= pending.value.expires {
        return false;
      }
      var present := ReadAccount(answers);
      if present != Some(true) || !intact || pending.value.owner in env.dead || env.clock >= pending.value.expires {
        return false;
      }
      ghost var w := View();
      forall p | p in Own(env) ensures env.live[p].None? {
      }
      accepted := accepted + {id};
      assert Accept(w, View(), id);
      Record();
      return true;
    }

    /** `complete` after its verdict. */
    method Conclude(id: Login, all: bool, clearing: ClearFaults, cleaning: Cleaning)
        returns (cleared: Option<Clearing>, reset: Option<Resetting>)
      requires Valid() && active.None? && client.Some? && client.value !in env.orphans
      requires pending.Some? && disk.bit == Marked && Absent !in disk.crash
      requires all ==> MayRemove(View())
      modifies this`pending, this`last, this`client, this`env, this`disk, this`trace
      ensures Quiet() && old(trace) <= trace && pending.None?
      ensures last == Some(Outcome(old(pending).value.id, old(pending).value.owner,
                                   if reset.None? then Connected else Failed))
      ensures cleared == if !all then None
                         else Some(if clearing.remove then Kept else if clearing.sync then Unsynced else Cleared)
      ensures reset.None? <==> cleared == Some(Cleared)
      ensures reset.None? ==> disk.bit == Absent && disk.crash == {Absent}
      ensures reset.Some? ==>
        (reset == Some(Unmarked) <==> !Places(if cleared == Some(Unsynced) then Absent else Marked, cleaning.marking))
      ensures reset.Some? && Usable(View(), id) <==> all && DoubleFault(clearing, cleaning.marking) && disk.account == Some(id)
      ensures reset == Some(Unmarked) && still ==> disk.account == old(disk.account)
      ensures reset.None? ==> client == old(client) && Calm(old(View()), View())
      ensures still && reset.None? ==> env == old(env) && disk.account == old(disk.account)
    {
      cleared, reset := None, None;
      ghost var w := View();
      if all {
        var outcome := ClearCleanup(clearing);
        cleared := Some(outcome);
        NobodyHolds(w, View());
        if outcome.Cleared? {
          Finish(Connected);
          return;
        }
      }
      var resetting := Reset(Failed, cleaning);
      reset := Some(resetting);
    }

    /** The native process `c` reports that login `id` ended.

        A login that is reported failed can be used exactly when it passed every
        check and then met a double fault, with its account still stored. */
    method Complete(c: Process, id: Login, success: Option<bool>, answers: bool, intact: bool,
                    clearing: ClearFaults, cleaning: Cleaning)
        returns (cleared: Option<Clearing>, reset: Option<Resetting>)
      requires Quiet()
      requires success == Some(true) ==> id in env.shut
      modifies this`pending, this`last, this`client, this`env, this`disk, this`accepted, this`trace
      ensures Quiet() && old(trace) <= trace
      ensures var concerns := old(Concerns(c, id));
              && (!concerns ==> cleared.None? && reset.None? && old(View()) == View())
              && (concerns ==>
                    && pending.None?
                    && last == Some(Outcome(old(pending).value.id, old(pending).value.owner,
                                            if reset.None? then Connected else Failed)))
      ensures accepted == if cleared.Some? then old(accepted) + {id} else old(accepted)
      ensures cleared.Some? ==> success == Some(true) && old(pending.value.owner !in env.dead)
                                && old(env.clock < pending.value.expires)
      ensures cleared.Some? ==>
        cleared == Some(if clearing.remove then Kept else if clearing.sync then Unsynced else Cleared)
      ensures cleared == Some(Cleared) <==> (cleared.Some? && reset.None?)
      ensures reset.Some? ==>
        (reset == Some(Unmarked) <==> !Places(if cleared == Some(Unsynced) then Absent else Marked, cleaning.marking))
      ensures cleared == Some(Cleared) ==> disk.bit == Absent && disk.crash == {Absent} && client == old(client)
      ensures still ==>
        (cleared.Some? <==> old(Concerns(c, id) && Stored(id)) && success == Some(true) && answers && intact)
      ensures still && cleared == Some(Cleared) ==> env == old(env) && disk.account == old(disk.account)
      ensures reset.Some? && Usable(View(), id) <==>
                cleared.Some? && DoubleFault(clearing, cleaning.marking) && disk.account == Some(id)
      ensures still ==> (reset.Some? && Usable(View(), id) <==>
                && old(Concerns(c, id) && Stored(id)) && success == Some(true) && answers && intact
                && DoubleFault(clearing, cleaning.marking))
    {
      cleared, reset := None, None;
      if closed || client != Some(c) || pending.None? || pending.value.native != Some(id) {
        return;
      }
      var all := CheckCompletion(id, success, answers, intact);
      cleared, reset := Conclude(id, all, clearing, cleaning);
    }

    method LogoutBegin() returns (go: bool)
      requires Quiet() && Joined()
      modifies this`disconnecting, this`awaited, this`trace
      ensures Quiet() && Joined() && old(trace) <= trace
      ensures go <==> old(!closed && !disconnecting)
      ensures go ==> disconnecting
      ensures !go ==> old(View()) == View()
    {
      if closed || disconnecting {
        return false;
      }
      ghost var w := View();
      disconnecting, awaited := true, active;
      assert Remember(w, View());
      Record();
      return true;
    }

    /** The rest of `Logout`, after the run it cancelled has closed its channel. */
    method LogoutFinish(c: Cleaning) returns (ok: bool)
      requires Quiet() && Joined() && disconnecting
      requires awaited.Some? ==> awaited.value in ended
      modifies this`disconnecting, this`pending, this`last, this`client, this`env, this`disk, this`trace
      ensures Quiet() && Joined() && old(trace) <= trace && accepted == old(accepted) && !disconnecting
      ensures active.None?
      ensures ok ==> pending.None? && client.None? && Own(env) == {}
                     && disk.account.None? && disk.bit == Absent && disk.crash == {Absent}
      ensures closed ==> !ok && View() == old(View()).(mem := old(View()).mem.(disconnecting := false))
      ensures !closed ==> last == if old(pending).None? then None
                                  else Some(Outcome(old(pending).value.id, old(pending).value.owner, Canceled))
      ensures !closed ==> pending.None? && client.None?
      ensures still && !closed ==> SameTime(old(View()), View())
      ensures ok ==> Reaches(c.leaving) && Clears(c.clearing)
      ensures still && !closed ==> (ok <==> Cleans(old(disk.bit), old(disk.account), c))
    {
      ok := false;
      if !closed {
        if pending.None? {
          Forget();
        }
        var reset := Reset(Canceled, c);
        ok := reset.Done?;
      }
      Reconnect();
    }

    /** The last outcome is forgotten. */
    method Forget()
      requires Valid()
      modifies this`last, this`trace
      ensures Valid() && old(trace) <= trace && last.None?
    {
      ghost var w := View();
      last := None;
      assert Remember(w, View());
      Record();
    }

    method Reconnect()
      requires Valid()
      modifies this`disconnecting, this`trace
      ensures Valid() && old(trace) <= trace && !disconnecting
    {
      ghost var w := View();
      disconnecting := false;
      assert Remember(w, View());
      Record();
    }

    method CloseBegin()
      requires Quiet() && Joined() && !closed
      modifies this`closed, this`awaited, this`trace
      ensures Quiet() && Joined() && old(trace) <= trace && closed
    {
      ghost var w := View();
      closed, awaited := true, active;
      assert Remember(w, View());
      Record();
    }

    /** The rest of `Close`: the stored account and the cleanup file stay as they are. */
    method CloseFinish()
      requires Quiet() && Joined() && closed
      requires awaited.Some? ==> awaited.value in ended
      modifies this`pending, this`last, this`client, this`env, this`disk, this`trace
      ensures Quiet() && Joined() && old(trace) <= trace && accepted == old(accepted)
      ensures active.None? && pending.None? && client.None? && Own(env) == {}
      ensures disk.bit == old(disk.bit) && disk.crash == old(disk.crash)
      ensures old(pending.None?) ==> disk.account.None? || disk.account == old(disk.account)
    {
      ghost var w := View();
      Finish(Canceled);
      StopClient();
      if w.mem.pending.None? {
        NobodyHolds(w, w);
      }
      assert Own(env) == {};
    }

    /** `admitRun` with the lock, and `Run` up to the point where it gives the lock back. */
    method AdmitRun(id: nat, f: Readying, answers: bool, offered: bool) returns (run: Option<Run>)
      requires Quiet() && Joined() && (forall r :: r in ended ==> r.id != id)
      modifies this`active, this`pending, this`last, this`client, this`env, this`disk, this`trace
      ensures Quiet() && Joined() && old(trace) <= trace && accepted == old(accepted)
      ensures active == if run.Some? then run else old(active)
      ensures run.Some? ==> old(active.None? && pending.None? && !disconnecting && !closed)
      ensures run.Some? ==> run.value.id == id && client == Some(run.value.client) && pending.None? && disk.bit == Absent
                            && disk.account.Some? && disk.account.value in accepted
      ensures pending == old(pending) && last == old(last)
      ensures still ==> (run.Some? <==>
                && old(active).None? && !disconnecting && old(pending).None? && old(Prepared(f)) && !old(Owes(f))
                && old(disk.account).Some? && answers && offered)
      ensures still && run.Some? ==> Unmoved(old(View()), View())
    {
      if closed || disconnecting || active.Some? || pending.Some? {
        return None;
      }
      var ok := Ready(f);
      if !ok {
        return None;
      }
      var present := ReadAccount(answers);
      if present != Some(true) || !offered {
        return None;
      }
      ghost var w := View();
      run := Some(Run(id, client.value));
      active := run;
      assert Remember(w, View());
      Record();
    }

    /** The deferred end of `Run`: reap the process before another run can be admitted. */
    method EndRun(run: Run)
      requires Quiet() && Joined() && active == Some(run)
      modifies this`active, this`ended, this`client, this`env, this`disk, this`trace
      ensures Quiet() && Joined() && old(trace) <= trace && accepted == old(accepted)
      ensures active.None? && client.None? && Own(env) == {} && ended == old(ended) + {run}
      ensures disk.bit == old(disk.bit) && disk.crash == old(disk.crash)
      ensures still ==> Unmoved(old(View()), View())
    {
      Reap(run.client);
      ghost var w := View();
      if client == Some(run.client) {
        client := None;
      }
      active := None;
      ended := ended + {run};
      assert Remember(w, View());
      Record();
    }

    // ---- Opening --------------------------------------------------------------

    /** A profile that no manager has used. */
    constructor Create(clock: nat)
      ensures Quiet() && Joined() && Initial(trace[0]) && |trace| == 1 && fresh(this)
      ensures active.None? && ended == {}
    {
      closed, disconnecting, active, client, pending, last := false, false, None, None, None, None;
      disk, env := Disk(Absent, {Absent}, None), Env(map[], {}, {}, clock, {});
      accepted, ended, awaited, still := {}, {}, None, false;
      trace := [World(FRESH_MEMORY, Disk(Absent, {Absent}, None), Env(map[], {}, {}, clock, {}), {})];
    }

    /** The manager that opens the profile after a crash: `past` is any history up
        to the crash, in the middle of an operation or not. */
    constructor Open(past: seq<World>, found: World)
      requires |past| > 0 && Chain(past) && Inv(past[|past| - 1]) && Tame(past[|past| - 1])
      requires Reopened(past[|past| - 1], found)
      ensures Quiet() && Joined() && trace == past + [found] && fresh(this)
      ensures active.None? && ended == {}
    {
      closed, disconnecting, active, client, pending, last := false, false, None, None, None, None;
      disk, env := found.disk, found.env;
      accepted, ended, awaited, still := found.accepted, {}, None, false;
      trace := past;
      new;
      Record();
      assert Own(env) == {};
    }

    /** The manager at the end of a history. */
    constructor At(past: seq<World>, still: bool)
      requires |past| > 0 && Chain(past) && Inv(past[|past| - 1])
      ensures Valid() && View() == past[|past| - 1] && trace == past && this.still == still && fresh(this)
      ensures ended == {} && awaited.None?
    {
      var now := past[|past| - 1];
      closed, disconnecting, active, client := now.mem.closed, now.mem.disconnecting, now.mem.active, now.mem.client;
      pending, last, disk, env := now.mem.pending, now.mem.last, now.disk, now.env;
      accepted, ended, awaited := now.accepted, {}, None;
      trace := past;
      this.still := still;
    }
  }

  /** Any history of a profile: operations of any client in any order, logouts and
      closes that wait, native completions, and crashes after any step. Whatever
      happens, the next operation can be entered, and the recorded run is one
      that `EveryRunIsSafe` speaks about. */
  method AnyHistory(rounds: nat) returns (m: Manager)
    ensures m.Quiet() && m.Joined() && Chain(m.trace) && Initial(m.trace[0])
  {
    m := new Manager.Create(0);
    for i := 0 to rounds
      invariant m.Quiet() && m.Joined() && Initial(m.trace[0]) && fresh(m)
      invariant m.active.Some? ==> m.active.value.id < i
      invariant forall r :: r in m.ended ==> r.id < i
    {
      var crash: bool := *;
      var n: nat := *;
      if crash {
        m := CrashAndReopen(m, n);
      } else {
        AnyOperation(m, i);
      }
    }
  }

  method AnyOperation(m: Manager, i: nat)
    requires m.Quiet() && m.Joined() && Initial(m.trace[0])
    requires m.active.Some? ==> m.active.value.id < i
    requires forall r :: r in m.ended ==> r.id < i
    modifies m
    ensures m.Quiet() && m.Joined() && old(m.trace) <= m.trace
    ensures m.active.Some? ==> m.active.value.id <= i
    ensures forall r :: r in m.ended ==> r.id <= i
  {
    var n: nat := *;
    var c: Process := *;
    var success: Option<bool> := *;
    var f: Readying, cleaning: Cleaning, o: Opening, answers: bool, b: bool := *, *, *, *, *;
    if {
      case true => m.Interfere();
      case true => var available, account, login, waiting := m.Status(n, f, answers, b);
      case true => var started := m.StartLogin(n, i, c, f, answers, f.cleaning.marking, o, cleaning);
      case true => var r := m.CancelLogin(n, c, cleaning);
      case true => m.Abort(n, cleaning);
      case true => m.WatchDone(c);
      case success == Some(true) ==> n in m.env.shut => AnyCompletion(m, c, n, success);
      case true => var run := m.AdmitRun(i, f, answers, b);
      case m.active.Some? => m.EndRun(m.active.value);
      case true => var go := m.LogoutBegin();
      case m.disconnecting && m.active.None? => var ok := m.LogoutFinish(cleaning);
      case !m.closed => m.CloseBegin();
      case m.closed && m.active.None? => m.CloseFinish();
    }
  }

  method AnyCompletion(m: Manager, c: Process, id: Login, success: Option<bool>)
    requires m.Quiet() && m.Joined() && (success == Some(true) ==> id in m.env.shut)
    modifies m
    ensures m.Quiet() && m.Joined() && old(m.trace) <= m.trace
    ensures m.active == old(m.active) && m.ended == old(m.ended)
  {
    var answers: bool, intact: bool := *, *;
    var clearing: ClearFaults, cleaning: Cleaning := *, *;
    var cleared, reset := m.Complete(c, id, success, answers, intact, clearing, cleaning);
  }

  // ---- Runs that show what the operations do ------------------------------------

  const STARTS := Starting(false, false, false, true)
  const WELL := Cleaning(MarkFaults(false, false, false, false), Leaving(STARTS, true, true, true),
                         ClearFaults(false, false))
  const READY := Readying(false, false, WELL, STARTS)

  /** With nothing in the way a user signs in, is told so, has a run, signs out, and somebody
      else may begin to sign in. */
  method SignInAndOut() returns (m: Manager, login: Option<Outcome>, run: Option<Run>)
    ensures m.Quiet() && Chain(m.trace) && Initial(m.trace[0]) && fresh(m)
    ensures login == Some(Outcome(0, 0, Connected)) && run.Some? && m.accepted == {0}
    ensures m.pending.Some? && m.pending.value.id == 1 && m.pending.value.owner == 2
  {
    m := SignIn();
    login, run := RunOnce(m);
    SignOut(m, run.value);
    var started := m.StartLogin(2, 1, 1, READY, true, WELL.marking, Opening(true, true, true), WELL);
  }

  method SignIn() returns (m: Manager)
    ensures m.Quiet() && m.Joined() && Initial(m.trace[0]) && m.still && fresh(m) && m.ended == {} && m.accepted == {0}
    ensures !m.closed && !m.disconnecting && m.active.None? && m.pending.None? && m.client.Some?
    ensures m.last == Some(Outcome(0, 0, Connected)) && m.disk.bit == Absent && m.disk.account == Some(0)
    ensures m.client.value in m.env.live && 2 !in m.env.dead
  {
    var before := LoginStored();
    InitialIsInv(before[0]);
    ChainKeepsInv(before, |before| - 1);
    m := new Manager.At(before, true);
    var cleared, reset := m.Complete(0, 0, Some(true), true, true, ClearFaults(false, false), WELL);
  }

  method RunOnce(m: Manager) returns (login: Option<Outcome>, run: Option<Run>)
    requires m.Quiet() && m.Joined() && m.still && !m.closed && !m.disconnecting && m.ended == {}
    requires m.active.None? && m.pending.None? && m.client.Some? && m.client.value in m.env.live
    requires m.last == Some(Outcome(0, 0, Connected)) && m.disk.bit == Absent && m.disk.account == Some(0)
    modifies m
    ensures m.Quiet() && m.Joined() && old(m.trace) <= m.trace && m.accepted == old(m.accepted)
    ensures !m.closed && !m.disconnecting && run.Some? && m.active == run && SameTime(old(m.View()), m.View())
    ensures login == Some(Outcome(0, 0, Connected))
  {
    var available, account, waiting;
    available, account, login, waiting := m.Status(0, READY, true, false);
    assert account == SignedIn && !waiting;
    run := m.AdmitRun(0, READY, true, true);
  }

  /** The run ends, the user signs out, and is told so. */
  method SignOut(m: Manager, run: Run)
    requires m.Quiet() && m.Joined() && m.active == Some(run) && m.still && !m.closed && !m.disconnecting
    modifies m
    ensures m.Quiet() && m.Joined() && old(m.trace) <= m.trace && m.accepted == old(m.accepted)
    ensures m.active.None? && m.pending.None? && m.last.None? && !m.disconnecting && !m.closed
    ensures m.disk.account.None? && m.disk.bit == Absent && SameTime(old(m.View()), m.View())
  {
    m.EndRun(run);
    var go := m.LogoutBegin();
    var ok := m.LogoutFinish(WELL);
    assert ok;
    var available, account, login, waiting := m.Status(0, READY, true, false);
    assert account == SignedOut && login == None;
  }

  /** The run that shows it, through `Complete` itself: the login is in time and stored, the
      cleanup file is removed, the directory cannot be synced, and the file cannot be created
      again. */
  method FailedYetUsable() returns (m: Manager, cleared: Option<Clearing>, reset: Option<Resetting>)
    ensures m.Quiet() && Chain(m.trace) && Initial(m.trace[0])
    ensures cleared == Some(Unsynced) && reset == Some(Unmarked)
    ensures m.last == Some(Outcome(0, 0, Failed)) && Usable(m.View(), 0)
  {
    var run := LoginStored();
    InitialIsInv(run[0]);
    ChainKeepsInv(run, |run| - 1);
    m := new Manager.At(run, true);
    cleared, reset := m.Complete(0, 0, Some(true), true, true, ClearFaults(false, true),
                                 WELL.(marking := MarkFaults(false, true, false, false)));
  }

  /** A crash after step `k` of the history, and the next manager, provided no
      process left behind can still complete a login. */
  method CrashAndReopen(m: Manager, k: nat) returns (next: Manager)
    requires m.Quiet() && m.Joined() && Initial(m.trace[0])
    ensures next.Quiet() && next.Joined() && Initial(next.trace[0])
    ensures next == m || (fresh(next) && next.active.None? && next.ended == {})
  {
    next := m;
    var found: World := *;
    if k < |m.trace| {
      var past := m.trace[..k + 1];
      forall i: nat | i + 1 < |past| ensures StepAt(past, i) {
        assert StepAt(m.trace, i);
      }
      InitialIsInv(past[0]);
      ChainKeepsInv(past, k);
      if Tame(past[k]) && Reopened(past[k], found) {
        next := new Manager.Open(past, found);
      }
    }
  }
}
