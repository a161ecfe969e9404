/**
  Managed updates (scripts/desk-update.py): what is installed, what was before and
  what waits, in one file that is replaced as a whole, and the release directories
  beside it. Every method below is one critical section of `state.lock`, or a step
  that holds `download.lock` or `running.lock`; between any two of them any other
  process may take its own, and a process may stop (`Abandon`).

  Downloads, archives and file digests are parameters: `fetched` is the digest of
  the manifest in an archive that was verified, `intact` whether a directory on
  disk still passes verification.
*/
module Updater {
  import opened Prelude
  import opened SemVer

  datatype Release = Release(version: string, digest: string)
  datatype Latest = Latest(version: string, asset: bool)
  /** `installation.json` */
  datatype State = State(current: Option<Release>, previous: Option<Release>, pending: Option<Release>, autoInstall: bool,
                         latest: Option<Latest>, error: bool, checkedAt: int)

  const DAY := 86400
  const FRESH := State(None, None, None, false, None, false, 0)

  /** A download under way, by whoever holds `download.lock`. */
  datatype Download = Idle | Begun(latest: Latest) | Placed(selected: Release)

  /** How a look for a release ends: it raised, there is no newer one, or one is worth fetching. */
  datatype Look = Raised | NoNewer | Fetching

  /** A change of the current release. */
  datatype Move = Move(from: Option<Release>, to: Release, rollback: bool)

  // ---- What every step keeps -----------------------------------------------------

  predicate Stable(version: string, digits: Digits) {
    Parse(version, digits).Some?
  }

  predicate NewerText(a: string, b: string, digits: Digits) {
    Stable(a, digits) && Stable(b, digits) && Newer(Parse(a, digits).value, Parse(b, digits).value)
  }

  /** Release `r` is what its directory holds. */
  predicate Held(r: Option<Release>, releases: map<string, string>, digits: Digits) {
    r.Some? ==> Stable(r.value.version, digits) && r.value.version in releases && releases[r.value.version] == r.value.digest
  }

  predicate Sound(s: State, releases: map<string, string>, digits: Digits) {
    && Held(s.current, releases, digits) && Held(s.previous, releases, digits) && Held(s.pending, releases, digits)
    && (s.latest.Some? ==> Stable(s.latest.value.version, digits))
    && (s.pending.Some? && s.current.Some? ==> NewerText(s.pending.value.version, s.current.value.version, digits))
    && (s.previous.Some? ==> s.current.Some?)
  }

  /** A directory is never replaced. */
  predicate Grows(before: map<string, string>, after: map<string, string>) {
    forall v :: v in before ==> v in after && after[v] == before[v]
  }

  predicate Lawful(m: Move, digits: Digits) {
    m.rollback || m.from == None || NewerText(m.to.version, m.from.value.version, digits)
  }

  /** Every move starts where the one before it led, the last one led to `current`. */
  predicate Linked(moves: seq<Move>, current: Option<Release>) {
    && (moves == [] ==> current == None)
    && (forall i :: 0 <= i < |moves| ==> moves[i].from == Reached(moves, i))
    && Reached(moves, |moves|) == current
  }

  /** Where the first `i` moves led. */
  function Reached(moves: seq<Move>, i: nat): Option<Release>
    requires i <= |moves|
  {
    if i == 0 then None else Some(moves[i - 1].to)
  }

  lemma {:induction false} OneMoveMore(moves: seq<Move>, current: Option<Release>, m: Move)
    requires Linked(moves, current) && m.from == current
    ensures Linked(moves + [m], Some(m.to))
  {
    var more := moves + [m];
    forall i | 0 <= i < |more| ensures more[i].from == Reached(more, i) {
      assert i < |moves| ==> more[i] == moves[i] && Reached(more, i) == Reached(moves, i);
    }
  }

  /** Move `k` went to a newer version than the move before it. */
  predicate Rises(moves: seq<Move>, k: nat, digits: Digits)
    requires 0 < k < |moves|
  {
    NewerText(moves[k].to.version, moves[k - 1].to.version, digits)
  }

  lemma EveryForwardMoveRises(moves: seq<Move>, current: Option<Release>, digits: Digits)
    requires Linked(moves, current) && (forall m :: m in moves ==> Lawful(m, digits))
    ensures forall k :: 0 < k < |moves| && !moves[k].rollback ==> Rises(moves, k, digits)
  {
    forall k | 0 < k < |moves| && !moves[k].rollback ensures Rises(moves, k, digits) {
      assert moves[k] in moves && moves[k].from == Reached(moves, k);
    }
  }

  /** The versions that the moves led to. */
  ghost predicate Led(moves: seq<Move>, vs: seq<Version>, digits: Digits) {
    |vs| == |moves| && forall k :: 0 <= k < |moves| ==> Parse(moves[k].to.version, digits) == Some(vs[k])
  }

  lemma {:induction false} RisesChain(vs: seq<Version>, i: nat, j: nat)
    requires i < j < |vs| && forall k :: i < k <= j ==> Newer(vs[k], vs[k - 1])
    ensures Newer(vs[j], vs[i])
  {
    if i < j - 1 {
      RisesChain(vs, i, j - 1);
    }
  }

  /** Between two moments with no rollback in between, the installed version rises with
      every move, however often anything was staged, cancelled or abandoned. */
  lemma {:induction false} VersionsOnlyRise(moves: seq<Move>, current: Option<Release>, vs: seq<Version>, digits: Digits,
                                            i: nat, j: nat)
    requires Linked(moves, current) && (forall m :: m in moves ==> Lawful(m, digits)) && Led(moves, vs, digits)
    requires i < j < |moves| && forall k :: i < k <= j ==> !moves[k].rollback
    ensures Newer(vs[j], vs[i])
  {
    EveryForwardMoveRises(moves, current, digits);
    forall k | i < k <= j ensures Newer(vs[k], vs[k - 1]) {
      assert Rises(moves, k, digits);
    }
    RisesChain(vs, i, j);
  }

  function Target(s: State, rollback: bool): Option<Release> {
    if rollback then s.previous else s.pending
  }

  /** What `activate` makes of the state. */
  function Activated(s: State, rollback: bool): State {
    if Target(s, rollback) == None then s
    else s.(previous := s.current, current := Target(s, rollback), pending := None, autoInstall := s.autoInstall && !rollback)
  }

  /** Forward only to a newer release, and one version is one manifest. */
  lemma ActivationIsSound(s: State, rollback: bool, releases: map<string, string>, digits: Digits)
    requires Sound(s, releases, digits)
    ensures Sound(Activated(s, rollback), releases, digits)
    ensures !rollback && s.current.Some? && Activated(s, false).current != s.current ==>
      NewerText(Activated(s, false).current.value.version, s.current.value.version, digits)
  {
  }

  /** Releases that name one version are one release. */
  lemma OneVersionOneManifest(s: State, releases: map<string, string>, digits: Digits, a: Option<Release>,
                              b: Option<Release>)
    requires Sound(s, releases, digits) && a in {s.current, s.previous, s.pending}
    requires b in {s.current, s.previous, s.pending}
    requires a.Some? && b.Some? && a.value.version == b.value.version
    ensures a == b
  {
  }

  /** Going back twice is going nowhere, exactly if what was before came after something. */
  lemma TwoRollbacksRestore(s: State)
    ensures var t := Activated(Activated(s, true), true);
      (t.current == s.current && t.previous == s.previous) <==> (s.previous.Some? ==> s.current.Some?)
  {
  }

  class Installation {
    var file: State
    var releases: map<string, string>
    var download: Download
    var running: bool
    const digits: Digits
    ghost var moves: seq<Move>

    ghost predicate Valid()
      reads this
    {
      && Decimal(digits) && Sound(file, releases, digits)
      && (download.Begun? ==> Stable(download.latest.version, digits))
      && (download.Placed? ==> Held(Some(download.selected), releases, digits))
      && (forall m :: m in moves ==> Lawful(m, digits)) && Linked(moves, file.current)
    }

    constructor (digits: Digits)
      requires Decimal(digits)
      ensures Valid() && file == FRESH && releases == map[] && this.digits == digits && !running
      ensures moves == [] && download == Idle
    {
      file, releases, download, running, this.digits, moves := FRESH, map[], Idle, false, digits, [];
    }

    /** `checked`: at most once a day unless forced. A failure keeps the last answer. */
    method Check(force: bool, now: int, release: Option<Latest>)
      requires Valid() && (release.Some? ==> Stable(release.value.version, digits))
      modifies this`file
      ensures Valid()
      ensures file == if !force && now - old(file.checkedAt) < DAY then old(file)
                      else old(file).(latest := if release.Some? then release else old(file.latest),
                                      error := release == None, checkedAt := now)
    {
      if force || now - file.checkedAt >= DAY {
        if release.Some? {
          file := file.(latest := release, error := false);
        } else {
          file := file.(error := true);
        }
        file := file.(checkedAt := now);
      }
    }

    /** There is an asset for this platform, of a newer version. */
    predicate Worthwhile(release: Option<Latest>, current: Option<Release>) {
      && release.Some? && release.value.asset
      && (current.Some? ==> NewerText(release.value.version, current.value.version, digits))
    }

    /** The first part of `stage`: a look that the download is worth it. */
    method Begin(now: int, release: Option<Latest>) returns (look: Look)
      requires Valid() && (release.Some? ==> Stable(release.value.version, digits))
      modifies this`file, this`download
      ensures Valid() && (look != Raised ==> old(download) == Idle)
      ensures old(download) == Idle ==> (look == Fetching <==> Worthwhile(release, old(file.current)))
      ensures old(download) == Idle ==> (look == Raised <==> release == None || !release.value.asset)
      ensures download == if look == Fetching then Begun(release.value) else old(download)
      ensures file == if old(download) != Idle then old(file)
                      else old(file).(latest := if release.Some? then release else old(file.latest),
                                      error := release == None, checkedAt := now)
    {
      if download != Idle {
        return Raised;
      }
      Check(true, now, release);
      if file.error || !file.latest.value.asset {
        return Raised;
      }
      var latest := file.latest.value;
      if file.current.Some? && !Newer(Parse(latest.version, digits).value, Parse(file.current.value.version, digits).value) {
        return NoNewer;
      }
      download := Begun(latest);
      return Fetching;
    }

    /** The archive is there: its directory is put in place, or the one in place is it. */
    method Place(fetched: Option<string>, intact: bool) returns (ok: bool)
      requires Valid() && download.Begun?
      modifies this`releases, this`download
      ensures Valid() && Grows(old(releases), releases)
      ensures var v := old(download).latest.version;
        ok <==> fetched.Some? && (v in old(releases) ==> intact && old(releases)[v] == fetched.value)
      ensures ok ==> download == Placed(Release(old(download).latest.version, fetched.value))
      ensures !ok ==> download == Idle && releases == old(releases)
    {
      var v := download.latest.version;
      if fetched == None || (v in releases && (!intact || releases[v] != fetched.value)) {
        download := Idle;
        return false;
      }
      if v !in releases {
        releases := releases[v := fetched.value];
      }
      download := Placed(Release(v, fetched.value));
      return true;
    }

    /** The last part of `stage`, on the state as it is now. */
    method Record()
      requires Valid() && download.Placed?
      modifies this`file, this`download
      ensures Valid() && download == Idle
      ensures var selected := old(download).selected;
        file == if old(file.current).Some? && !NewerText(selected.version, old(file.current).value.version, digits)
                then old(file) else old(file).(pending := Some(selected))
    {
      var selected := download.selected;
      if file.current == None || Newer(Parse(selected.version, digits).value, Parse(file.current.value.version, digits).value) {
        file := file.(pending := Some(selected));
      }
      download := Idle;
    }

    /** A download ends early, or its process does. */
    method Abandon()
      requires Valid()
      modifies this`download
      ensures Valid() && download == Idle
    {
      download := Idle;
    }

    /** `activate`, by whoever holds `running.lock`. */
    method Activate(rollback: bool, intact: bool) returns (ok: bool)
      requires Valid()
      modifies this`file, this`moves
      ensures Valid()
      ensures ok <==> intact || (if rollback then old(file.previous) else old(file.pending)) == None
      ensures !rollback && intact && old(file.pending).Some? ==>
        file == old(file).(current := old(file.pending), previous := old(file.current), pending := None)
      ensures rollback && intact && old(file.previous).Some? ==>
        file == old(file).(current := old(file.previous), previous := old(file.current), pending := None,
                           autoInstall := false)
      ensures !intact || (if rollback then old(file.previous) else old(file.pending)) == None ==> file == old(file)
      ensures file == if ok then Activated(old(file), rollback) else old(file)
      ensures if intact && Target(old(file), rollback).Some?
              then file.current.Some? && moves == old(moves) + [Move(old(file.current), file.current.value, rollback)]
              else moves == old(moves)
    {
      var target := if rollback then file.previous else file.pending;
      if target == None {
        return true;
      }
      if !intact {
        return false;
      }
      ActivationIsSound(file, rollback, releases, digits);
      Note(rollback);
      file := Activated(file, rollback);
      return true;
    }

    /** The move that `activate` is about to make. */
    ghost method Note(rollback: bool)
      requires Valid() && Target(file, rollback).Some?
      modifies this`moves
      ensures moves == old(moves) + [Move(file.current, Target(file, rollback).value, rollback)]
      ensures Linked(moves, Target(file, rollback)) && forall m :: m in moves ==> Lawful(m, digits)
    {
      var m := Move(file.current, Target(file, rollback).value, rollback);
      OneMoveMore(moves, file.current, m);
      moves := moves + [m];
    }

    method Cancel()
      requires Valid()
      modifies this`file
      ensures Valid() && file == old(file).(pending := None)
    {
      file := file.(pending := None);
    }

    method Auto(on: bool)
      requires Valid()
      modifies this`file
      ensures Valid() && file == old(file).(autoInstall := on)
    {
      file := file.(autoInstall := on);
    }

    /** The archive of a release is there, and its directory is free or is it. */
    predicate Fetched(release: Latest, fetched: Option<string>, intact: bool, releases: map<string, string>) {
      fetched.Some? && (release.version in releases ==> intact && releases[release.version] == fetched.value)
    }

    /** The release will be staged if nobody else does anything. */
    predicate Gets(s: State, free: bool, release: Option<Latest>, fetched: Option<string>, intact: bool,
                   releases: map<string, string>) {
      free && Worthwhile(release, s.current) && Fetched(release.value, fetched, intact, releases)
    }

    /** `stage`, with other processes in between unless it is `alone`. */
    method Stage(now: int, release: Option<Latest>, fetched: Option<string>, intact: bool, alone: bool) returns (ok: bool)
      requires Valid() && (release.Some? ==> Stable(release.value.version, digits))
      modifies this`file, this`download, this`releases
      ensures Valid() && Grows(old(releases), releases)
      ensures file.current == old(file.current) && file.previous == old(file.previous)
      ensures alone ==> file.autoInstall == old(file.autoInstall)
      ensures alone && Gets(old(file), old(download) == Idle, release, fetched, intact, old(releases)) ==>
        ok && file.pending == Some(Release(release.value.version, fetched.value))
      ensures alone && !Gets(old(file), old(download) == Idle, release, fetched, intact, old(releases)) ==>
        file.pending == old(file.pending)
        && (ok <==> old(download) == Idle && release.Some? && release.value.asset
                    && !Worthwhile(release, old(file.current)))
    {
      var look := Begin(now, release);
      if look != Fetching {
        return look == NoNewer;
      }
      if !alone {
        Others(false);
      }
      assert download.Begun?;
      ok := Place(fetched, intact);
      if ok {
        if !alone {
          Others(false);
        }
        Record();
      }
    }

    /** Any steps of other processes while `running.lock` is held, and `download.lock` unless `free`. */
    method Others(free: bool)
      requires Valid()
      modifies this`file, this`download, this`releases
      ensures Valid() && Grows(old(releases), releases) && (!free ==> download == old(download))
      ensures file.current == old(file.current) && file.previous == old(file.previous)
    {
      var steps: nat :| true;
      for i := 0 to steps
        invariant Valid() && Grows(old(releases), releases) && (!free ==> download == old(download))
        invariant file.current == old(file.current) && file.previous == old(file.previous)
      {
        var waits: bool := *;
        if free && waits {
          Elsewhere();
        } else {
          Besides();
        }
      }
    }

    /** One step that needs no more than `state.lock` ... */
    method Besides()
      requires Valid()
      modifies this`file
      ensures Valid() && file.current == old(file.current) && file.previous == old(file.previous)
    {
      var which: nat, now: int, release: Option<Latest>, b: bool := *, *, *, *;
      if which == 0 {
        Cancel();
      } else if which == 1 {
        Auto(b);
      } else if release.Some? ==> Stable(release.value.version, digits) {
        Check(b, now, release);
      }
    }

    /** ... and one of a download. */
    method Elsewhere()
      requires Valid()
      modifies this`file, this`download, this`releases
      ensures Valid() && Grows(old(releases), releases)
      ensures file.current == old(file.current) && file.previous == old(file.previous)
    {
      var stops: bool := *;
      if stops {
        Abandon();
      } else if download.Begun? {
        var fetched: Option<string>, intact: bool := *, *;
        var _ := Place(fetched, intact);
      } else if download.Placed? {
        Record();
      } else {
        var now: int, release: Option<Latest> := *, *;
        if release.Some? ==> Stable(release.value.version, digits) {
          var _ := Begin(now, release);
        }
      }
    }

    /** The update that `launch` makes first: an answer of at most a day ago, or a new one, says
        that there is a newer release than what waits, or runs. */
    predicate Wanted(s: State, now: int, answer: Option<Latest>) {
      var latest := if now - s.checkedAt >= DAY && answer.Some? then answer else s.latest;
      var selected := if s.pending.Some? then s.pending else s.current;
      && s.autoInstall && (if now - s.checkedAt >= DAY then answer.Some? else !s.error)
      && latest.Some? && (selected.Some? ==> NewerText(latest.value.version, selected.value.version, digits))
    }

    method Refresh(now: int, answer: Option<Latest>, release: Option<Latest>, fetched: Option<string>, intact: bool,
                   alone: bool)
      requires Valid() && (answer.Some? ==> Stable(answer.value.version, digits))
      requires release.Some? ==> Stable(release.value.version, digits)
      modifies this`file, this`download, this`releases
      ensures Valid() && Grows(old(releases), releases)
      ensures file.current == old(file.current) && file.previous == old(file.previous)
      ensures alone && Wanted(old(file), now, answer)
              && Gets(old(file), old(download) == Idle, release, fetched, intact, old(releases)) ==>
        file.pending == Some(Release(release.value.version, fetched.value))
      ensures alone && !(Wanted(old(file), now, answer)
                         && Gets(old(file), old(download) == Idle, release, fetched, intact, old(releases))) ==>
        file.pending == old(file.pending)
      ensures alone ==> file.autoInstall == old(file.autoInstall)
    {
      var wanted := Ask(now, answer);
      if wanted {
        var _ := Stage(now, release, fetched, intact, alone);
      }
      if !alone {
        Others(true);
      }
    }

    method Ask(now: int, answer: Option<Latest>) returns (wanted: bool)
      requires Valid() && (answer.Some? ==> Stable(answer.value.version, digits))
      modifies this`file
      ensures Valid() && (wanted <==> Wanted(old(file), now, answer))
      ensures file == old(file).(latest := file.latest, error := file.error, checkedAt := file.checkedAt)
    {
      if !file.autoInstall {
        return false;
      }
      Check(false, now, answer);
      wanted := !file.error && file.latest.Some? && IsNewer(file.latest.value, file);
    }

    /** The answer names a newer release than what waits, or is current. */
    predicate IsNewer(latest: Latest, s: State)
      requires Sound(s, releases, digits) && Stable(latest.version, digits)
      reads this
    {
      var selected := if s.pending.Some? then s.pending else s.current;
      selected == None || Newer(Parse(latest.version, digits).value, Parse(selected.value.version, digits).value)
    }

    /** `launch`: update if asked to, activate what waits, and run what is current. It
        never runs an older release than the one that was installed, and only what
        its directory was verified to hold. `waits` is what waits when it activates: the
        release it just fetched, and else what waited before, unless other processes
        took steps. If that verifies, and is able to run, it is what runs. */
    method Launch(now: int, answer: Option<Latest>, release: Option<Latest>, fetched: Option<string>, intact: bool,
                  alone: bool, whole: bool, runs: bool)
      returns (ran: Option<Release>, ghost waits: Option<Release>)
      requires Valid() && (answer.Some? ==> Stable(answer.value.version, digits))
      requires release.Some? ==> Stable(release.value.version, digits)
      modifies this
      ensures Valid() && Grows(old(releases), releases) && running == old(running)
      ensures old(running) ==> ran == None && file == old(file)
      ensures ran.Some? ==> ran == file.current && Held(ran, releases, digits)
      ensures ran.Some? && ran != old(file.current) ==> file.previous == old(file.current)
      ensures ran.Some? && old(file.current).Some? && ran != old(file.current) ==>
        NewerText(ran.value.version, old(file.current).value.version, digits)
      ensures !old(running) ==>
        ran == if !runs || (waits.Some? && !whole) then None else if waits.Some? then waits else old(file.current)
      ensures !old(running) && waits.Some? && whole ==>
        file.current == waits && file.previous == old(file.current) && (alone ==> file.pending == None)
      ensures !old(running) && (waits == None || !whole) ==>
        file.current == old(file.current) && file.previous == old(file.previous) && (alone ==> file.pending == waits)
      ensures alone && !old(running) ==> file.autoInstall == old(file.autoInstall)
      ensures alone && !old(running) && Wanted(old(file), now, answer)
              && Gets(old(file), old(download) == Idle, release, fetched, intact, old(releases)) ==>
        waits == Some(Release(release.value.version, fetched.value))
      ensures alone && !old(running)
              && !(Wanted(old(file), now, answer)
                   && Gets(old(file), old(download) == Idle, release, fetched, intact, old(releases))) ==>
        waits == old(file.pending)
    {
      if running {
        return None, None;
      }
      running := true;
      Refresh(now, answer, release, fetched, intact, alone);
      waits := file.pending;
      ran := Start(alone, whole, runs);
      running := false;
    }

    /** What waits is activated, and what is current then is run. */
    method Start(alone: bool, whole: bool, runs: bool) returns (ran: Option<Release>)
      requires Valid()
      modifies this`file, this`download, this`releases, this`moves
      ensures Valid() && Grows(old(releases), releases)
      ensures ran.Some? ==> ran == file.current && Held(ran, releases, digits)
      ensures ran == if !runs || (old(file.pending).Some? && !whole) then None
                     else if old(file.pending).Some? then old(file.pending) else old(file.current)
      ensures old(file.pending).Some? && whole ==>
        file.current == old(file.pending) && file.previous == old(file.current) && (alone ==> file.pending == None)
        && (file.previous.Some? ==> NewerText(file.current.value.version, file.previous.value.version, digits))
      ensures old(file.pending) == None || !whole ==>
        file.current == old(file.current) && file.previous == old(file.previous)
        && (alone ==> file.pending == old(file.pending))
      ensures alone ==> file.autoInstall == old(file.autoInstall)
    {
      ActivationIsSound(file, false, releases, digits);
      var activated := Activate(false, whole);
      if !alone {
        Others(true);
      }
      ran := if activated && runs then file.current else None;
    }

    /** `install`: the latest release, with none before or with an older one, is current
        afterwards if it is fetched and verifies. */
    method Install(now: int, release: Option<Latest>, fetched: Option<string>, intact: bool, alone: bool, whole: bool)
      returns (ok: bool)
      requires Valid() && (release.Some? ==> Stable(release.value.version, digits))
      modifies this`file, this`download, this`releases, this`moves
      ensures Valid() && Grows(old(releases), releases)
      ensures running ==> !ok && file == old(file)
      ensures !running && alone && whole
              && Gets(old(file), old(download) == Idle, release, fetched, intact, old(releases)) ==>
        ok && file.current == Some(Release(release.value.version, fetched.value))
        && file.previous == old(file.current) && file.pending == None
      ensures alone && ok ==> file.current.Some? && old(download) == Idle && release.Some? && release.value.asset
      ensures alone && !ok ==> file.current == old(file.current) && file.previous == old(file.previous)
    {
      if running {
        return false;
      }
      ok := Stage(now, release, fetched, intact, alone);
      if ok {
        ok := Put(alone, whole);
      }
    }

    method Put(alone: bool, whole: bool) returns (ok: bool)
      requires Valid()
      modifies this`file, this`download, this`releases, this`moves
      ensures Valid() && Grows(old(releases), releases) && (alone ==> releases == old(releases))
      ensures alone && whole && old(file.pending).Some? ==>
        ok && file.current == old(file.pending) && file.previous == old(file.current) && file.pending == None
      ensures ok ==> file.current.Some?
      ensures alone && !ok ==> file.current == old(file.current) && file.previous == old(file.previous)
      ensures alone ==> download == old(download) && file.checkedAt == old(file).checkedAt
    {
      if !alone {
        Others(true);
      }
      ok := Activate(false, whole);
      ok := ok && file.current.Some?;
    }

    /** `rollback` */
    method Rollback(intact: bool) returns (ok: bool)
      requires Valid()
      modifies this`file, this`moves
      ensures Valid() && releases == old(releases)
      ensures ok <==> !running && (intact || old(file.previous) == None)
      ensures ok && old(file.previous).Some? ==>
        file == old(file).(current := old(file.previous), previous := old(file.current), pending := None,
                           autoInstall := false)
      ensures !ok || old(file.previous) == None ==> file == old(file)
      ensures file == if ok then Activated(old(file), true) else old(file)
    {
      if running {
        return false;
      }
      ok := Activate(true, intact);
    }

    /** Two rollbacks, with any steps of other processes in between: if both succeed, what
        was current and what was before it are so again. If only the first does, they have
        changed places, or there was nothing before. */
    method RollBackTwice(first: bool, second: bool) returns (back: bool, forth: bool)
      requires Valid()
      modifies this`file, this`moves, this`download, this`releases
      ensures Valid() && Grows(old(releases), releases)
      ensures back == forth ==> file.current == old(file.current) && file.previous == old(file.previous)
      ensures back != forth && old(file.previous).Some? ==>
        file.current == old(file.previous) && file.previous == old(file.current)
    {
      back := Rollback(first);
      Others(true);
      forth := Rollback(second);
      TwoRollbacksRestore(old(file));
    }

    /** Any use of the installation. Every version it ever ran came forward, or back
        by a rollback (`Valid`), and no release directory was ever replaced. */
    method AnyHistory(steps: nat)
      requires Valid() && !running
      modifies this
      ensures Valid() && Grows(old(releases), releases)
    {
      for i := 0 to steps
        invariant Valid() && Grows(old(releases), releases) && !running
      {
        var which: nat, now: int, release: Option<Latest>, fetched: Option<string>, intact: bool := *, *, *, *, *;
        var answer: Option<Latest>, alone: bool, whole: bool, runs: bool := *, *, *, *;
        if which == 0 {
          Others(true);
        } else if which == 1 {
          var _ := Rollback(intact);
        } else if release.Some? ==> Stable(release.value.version, digits) {
          if which == 2 {
            var _ := Install(now, release, fetched, intact, alone, whole);
          } else if answer.Some? ==> Stable(answer.value.version, digits) {
            var _, _ := Launch(now, answer, release, fetched, intact, alone, whole, runs);
          }
        }
      }
    }
  }

  // ---- With nothing in the way -----------------------------------------------------

  /** What is installed runs. */
  method FirstRun(digits: Digits, version: string, digest: string) returns (m: Installation)
    requires Decimal(digits) && Stable(version, digits)
    ensures fresh(m) && m.Valid() && !m.running && m.file.current == Some(Release(version, digest))
  {
    m := new Installation(digits);
    var latest := Some(Latest(version, true));
    var installed := m.Install(0, latest, Some(digest), true, true, true);
    RunAgain(m, None);
  }

  /** With nothing waiting and no update wanted, what is current runs. */
  method RunAgain(m: Installation, latest: Option<Latest>)
    requires m.Valid() && !m.running && m.file.pending == None && (m.file.autoInstall ==> latest == None)
    requires latest.Some? ==> Stable(latest.value.version, m.digits)
    modifies m
    ensures m.Valid() && !m.running && m.file.current == old(m.file.current) && m.file.previous == old(m.file.previous)
  {
    var ran, waits := m.Launch(m.file.checkedAt + DAY, latest, latest, Some(""), true, true, true, true);
    assert ran == m.file.current;
  }

  /** A launch of an installation that updates itself fetches a newer release and runs it;
      after a rollback the next launch runs what ran before, and fetches nothing. */
  method UpAndBack(m: Installation, version: string, digest: string)
    requires m.Valid() && !m.running && m.download == Idle && m.file.autoInstall
    requires m.file.current.Some? && m.file.pending == None
    requires NewerText(version, m.file.current.value.version, m.digits) && version !in m.releases
    modifies m
    ensures m.Valid() && m.file.current == old(m.file.current) && m.file.previous == Some(Release(version, digest))
  {
    Up(m, version, digest);
    var back := m.Rollback(true);
    RunAgain(m, Some(Latest(version, true)));
  }

  method Up(m: Installation, version: string, digest: string)
    requires m.Valid() && !m.running && m.download == Idle && m.file.autoInstall
    requires m.file.current.Some? && m.file.pending == None
    requires NewerText(version, m.file.current.value.version, m.digits) && version !in m.releases
    modifies m
    ensures m.Valid() && !m.running && m.file.pending == None
    ensures m.file.current == Some(Release(version, digest)) && m.file.previous == old(m.file.current)
  {
    var latest := Some(Latest(version, true));
    assert m.Wanted(m.file, m.file.checkedAt + DAY, latest);
    assert m.Gets(m.file, true, latest, Some(digest), true, m.releases);
    var ran, waits := m.Launch(m.file.checkedAt + DAY, latest, latest, Some(digest), true, true, true, true);
    assert ran == Some(Release(version, digest));
  }
}
