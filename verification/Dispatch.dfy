/**
  Delegated tasks (internal/delegation/tasks.go): one or two workers take tasks
  from a shared cursor, each committing "running" before it executes a task and
  the outcome after.

  `History` says what any history of a batch must look like, task by task and
  moment by moment. `Dispatch.Run` is proved to leave only such histories, for
  every schedule of the workers, every answer of the two hooks and a
  cancellation at any point. Strings are sequences of bytes.
*/
module History {
  import opened Prelude

  datatype Phase = Queued | Running | Complete | Failed | Interrupted | Unknown

  /** A time is `None` when empty; `Some(None)` is text that is no time. */
  datatype Task = Task(id: string, title: string, objective: string, state: Phase, created: Option<Option<nat>>,
                       started: Option<Option<nat>>, finished: Option<Option<nat>>, problem: string)
  {
    predicate Valid() {
      && id != "" && |id| <= 128 && title != "" && |title| <= 512 && objective != "" && |objective| <= 2000
      && |problem| <= 4000 && state != Unknown
      && created != Some(None) && started != Some(None) && finished != Some(None)
    }
  }

  /** An error's text, and whether it wraps a `Fatal`. */
  datatype Error = Error(text: string, fatal: bool)

  /** `Claimed` is the worker's look at the cursor and the context under the
      mutex, `Committed` one call of the transition hook with its answer. `Withdrawn` is the
      end of the caller's context, `Cancelled` that of the batch's own. */
  datatype Event =
    | Claimed(task: nat)
    | Committed(task: nat, record: Task, error: Option<Error>)
    | Began(task: nat)
    | Finished(task: nat, error: Option<Error>)
    | Withdrawn
    | Cancelled

  /** The host: what the transition hook answers before and after task `i` is executed, what its
      execution comes to, and whether the caller may withdraw. */
  datatype Host = Host(starts: nat -> Option<Error>, runs: nat -> Option<Error>, closes: nat -> Option<Error>,
                       withdraws: bool)

  /** Event `e` is the host's, if it is an answer. */
  predicate Answers(h: Host, e: Event) {
    match e
    case Committed(i, r, error) => error == if r.state == Running then h.starts(i) else h.closes(i)
    case Finished(i, error) => error == h.runs(i)
    case Withdrawn => h.withdraws
    case _ => true
  }

  ghost predicate Answered(h: Host, log: seq<Event>) {
    forall k :: 0 <= k < |log| ==> Answers(h, log[k])
  }

  /** At most one event was added, and the host answered so. */
  ghost predicate Adds(h: Host, before: seq<Event>, after: seq<Event>) {
    after == before || (after != [] && after[..|after| - 1] == before && Answers(h, after[|after| - 1]))
  }

  lemma AddsEvent(h: Host, log: seq<Event>, e: Event)
    requires Answers(h, e)
    ensures Adds(h, log, log + [e])
  {
    assert (log + [e])[..|log|] == log;
  }

  lemma AnsweredMore(h: Host, before: seq<Event>, after: seq<Event>)
    requires Answered(h, before) && Adds(h, before, after)
    ensures Answered(h, after)
  {
    if after != before {
      assert forall k :: 0 <= k < |before| ==> after[k] == before[k];
    }
  }

  /** Nobody withdraws, every transition is taken and no error is fatal. */
  ghost predicate Gracious(h: Host) {
    !h.withdraws && forall i: nat ::
      h.starts(i) == None && h.closes(i) == None && (h.runs(i).Some? ==> !h.runs(i).value.fatal)
  }

  lemma GraciousIsUnbroken(h: Host, log: seq<Event>)
    requires Answered(h, log) && Gracious(h)
    ensures !Broke(log) && Withdrawn !in log
  {
    forall e | e in log ensures !Fails(e) {
      assert Answers(h, e);
    }
  }

  predicate Of(e: Event, i: nat) {
    !e.Withdrawn? && !e.Cancelled? && e.task == i
  }

  /** What happened to task `i`. */
  function Life(log: seq<Event>, i: nat): seq<Event> {
    if log == [] then [] else Life(log[..|log| - 1], i) + if Of(log[|log| - 1], i) then [log[|log| - 1]] else []
  }

  function Claims(log: seq<Event>): seq<nat> {
    if log == [] then []
    else Claims(log[..|log| - 1]) + if log[|log| - 1].Claimed? then [log[|log| - 1].task] else []
  }

  /** How many tasks are being executed, and how many "running" transitions failed. */
  function Executing(log: seq<Event>): int {
    if log == [] then 0
    else
      Executing(log[..|log| - 1])
      + if log[|log| - 1].Began? then 1 else if log[|log| - 1].Finished? then -1 else 0
  }

  predicate Refusal(e: Event) {
    e.Committed? && e.record.state == Running && e.error.Some?
  }

  function Refusals(log: seq<Event>): nat {
    if log == [] then 0 else Refusals(log[..|log| - 1]) + if Refusal(log[|log| - 1]) then 1 else 0
  }

  lemma {:induction false} OneMore(log: seq<Event>, e: Event, i: nat)
    ensures Life(log + [e], i) == Life(log, i) + if Of(e, i) then [e] else []
    ensures Claims(log + [e]) == Claims(log) + if e.Claimed? then [e.task] else []
    ensures Executing(log + [e]) == Executing(log) + if e.Began? then 1 else if e.Finished? then -1 else 0
    ensures Refusals(log + [e]) == Refusals(log) + if Refusal(e) then 1 else 0
  {
    assert (log + [e])[..|log|] == log;
  }

  // ---- The life of one task ---------------------------------------------------

  /** The record that says task `t` is running. */
  predicate Starts(t: Task, r: Task) {
    r.state == Running && r.started.Some? && r.started.value.Some? && r == t.(state := Running, started := r.started)
  }

  const TOO_LONG := "The task failed; see its saved operations for details."
  const STOPPED := "Stopped before the task completed."
  const NOT_STARTED := "Stopped before the task started."

  function Trouble(r: Task, error: Option<Error>): string {
    if error == None then r.problem
    else if |error.value.text| > 4000 then TOO_LONG else error.value.text
  }

  /** Record `c` closes the task that `r` started and `error` came back from. */
  predicate Closes(r: Task, error: Option<Error>, c: Task) {
    && c.finished.Some? && c.finished.value.Some?
    && c == r.(state := c.state, finished := c.finished, problem := c.problem)
    && match c.state
       case Complete => error == None && c.problem == r.problem
       case Failed => error.Some? && c.problem == Trouble(r, error)
       case Interrupted => c.problem == if Trouble(r, error) == "" then STOPPED else Trouble(r, error)
       case _ => false
  }

  predicate LeftOver(t: Task, c: Task) {
    && c.finished.Some? && c.finished.value.Some?
    && c == t.(state := Interrupted, problem := NOT_STARTED, finished := c.finished)
  }

  /** A claimed task is marked running, executed once if that was committed,
      and closed once. */
  predicate ClaimedLife(t: Task, i: nat, life: seq<Event>) {
    && |life| <= 5
    && (|life| >= 1 ==> life[0] == Claimed(i))
    && (|life| >= 2 ==> life[1].Committed? && Starts(t, life[1].record))
    && (|life| >= 3 ==> life[1].error == None && life[2] == Began(i))
    && (|life| >= 4 ==> life[3].Finished?)
    && (|life| == 5 ==> life[4].Committed? && Closes(life[1].record, life[3].error, life[4].record))
  }

  predicate LeftLife(t: Task, life: seq<Event>) {
    |life| == 1 && life[0].Committed? && LeftOver(t, life[0].record)
  }

  /** ... as far as it got at any moment, ... */
  predicate Partial(t: Task, i: nat, life: seq<Event>) {
    ClaimedLife(t, i, life) || LeftLife(t, life)
  }

  /** ... when the batch is over, ... */
  predicate Whole(t: Task, i: nat, life: seq<Event>) {
    || LeftLife(t, life)
    || (ClaimedLife(t, i, life) && (|life| == 5 || (|life| == 2 && life[1].error.Some?)))
  }

  /** No transition failed and nothing fatal came back. */
  predicate Calm(life: seq<Event>) {
    forall k :: 0 <= k < |life| ==>
      && (life[k].Committed? ==> life[k].error == None)
      && (life[k].Finished? && life[k].error.Some? ==> !life[k].error.value.fatal)
  }

  /** ... and when the batch went well. */
  predicate Fulfilled(t: Task, i: nat, life: seq<Event>) {
    ClaimedLife(t, i, life) && |life| == 5 && Calm(life) && life[4].record.state in {Complete, Failed}
  }

  // ---- The whole batch -----------------------------------------------------------

  /** A moment: tasks were claimed in order from the first, each lives as it
      should, and no more than `workers` are being executed. */
  ghost predicate Moment(tasks: seq<Task>, workers: nat, log: seq<Event>) {
    && (forall i :: 0 <= i < |tasks| ==> Partial(tasks[i], i, Life(log, i)))
    && (forall i :: i >= |tasks| ==> Life(log, i) == [])
    && |Claims(log)| <= |tasks|
    && (forall k :: 0 <= k < |Claims(log)| ==> Claims(log)[k] == k)
    && 0 <= Executing(log) <= workers && Refusals(log) <= workers
  }

  /** A transition failed, or something fatal came back. */
  predicate Fails(e: Event) {
    (e.Committed? && e.error.Some?) || (e.Finished? && e.error.Some? && e.error.value.fatal)
  }

  predicate Broke(log: seq<Event>) {
    exists e :: e in log && Fails(e)
  }

  /** ... and `why` is what it was. */
  predicate Blamed(log: seq<Event>, why: Error) {
    exists e :: e in log && Fails(e) && e.error == Some(why)
  }

  /** Nothing is claimed after a cancellation, and nothing is cancelled before the caller
      withdrew or something broke. A task is closed as interrupted only after a
      cancellation, and never otherwise if it finished after one. */
  ghost predicate Heeds(before: seq<Event>, e: Event) {
    && (e.Claimed? ==> Cancelled !in before)
    && (e.Cancelled? ==> Withdrawn in before || Broke(before))
    && (e.Committed? && e.record.state == Interrupted ==> Cancelled in before)
    && (e.Committed? && e.record.state in {Complete, Failed} ==> !Overtaken(before, e.task))
  }

  ghost predicate HeedsCancellation(log: seq<Event>) {
    forall k :: 0 <= k < |log| ==> HeedsAt(log, k)
  }

  ghost predicate HeedsAt(log: seq<Event>, k: nat)
    requires k < |log|
  {
    Heeds(log[..k], log[k])
  }

  /** Task `i` finished executing when the batch had been cancelled. */
  ghost predicate Overtaken(log: seq<Event>, i: nat) {
    exists j, k :: 0 <= j < k < |log| && log[j] == Cancelled && log[k].Finished? && log[k].task == i
  }

  /** Whatever is committed can be read back. */
  predicate Readable(log: seq<Event>) {
    forall k :: 0 <= k < |log| && log[k].Committed? ==> log[k].record.Valid()
  }

  /** Every moment, not only the last. */
  ghost predicate Orderly(tasks: seq<Task>, workers: nat, log: seq<Event>) {
    AllMoments(tasks, workers, log) && HeedsCancellation(log) && Readable(log)
  }

  ghost predicate AllMoments(tasks: seq<Task>, workers: nat, log: seq<Event>) {
    forall k :: 0 <= k <= |log| ==> MomentAt(tasks, workers, log, k)
  }

  ghost predicate MomentAt(tasks: seq<Task>, workers: nat, log: seq<Event>, k: nat)
    requires k <= |log|
  {
    Moment(tasks, workers, log[..k])
  }

  lemma LastMoment(tasks: seq<Task>, workers: nat, log: seq<Event>)
    requires Orderly(tasks, workers, log)
    ensures Moment(tasks, workers, log)
  {
    assert MomentAt(tasks, workers, log, |log|) && log[..|log|] == log;
  }
}

module Dispatch {
  import opened Prelude
  import opened History

  /** Where a worker stands. `Failing` and `Cancelling` are the two halves of
      `fail`, which sets the error under the mutex and cancels outside it. */
  datatype Worker =
    | Idle
    | Starting(task: nat)
    | Ready(task: nat, record: Task)
    | Busy(task: nat, record: Task)
    | Back(task: nat, record: Task, error: Option<Error>)
    | Closing(task: nat, record: Task, error: Option<Error>)
    | Failing(why: Error)
    | Cancelling
    | Done

  /** `ctx` is the caller's context, `cancelled` the batch's own. */
  datatype Batch = Batch(workers: seq<Worker>, next: nat, fatal: Option<Error>, ctx: bool, cancelled: bool, log: seq<Event>)

  predicate Holds(w: Worker, i: nat) {
    !w.Idle? && !Retired(w) && w.task == i
  }

  predicate Retired(w: Worker) {
    w.Failing? || w.Cancelling? || w.Done?
  }

  function Count(ws: seq<Worker>, p: Worker -> bool): nat {
    if ws == [] then 0 else Count(ws[..|ws| - 1], p) + if p(ws[|ws| - 1]) then 1 else 0
  }

  lemma {:induction false} CountMoves(ws: seq<Worker>, p: Worker -> bool, w: nat, x: Worker)
    requires w < |ws|
    ensures Count(ws[w := x], p) == Count(ws, p) - (if p(ws[w]) then 1 else 0) + (if p(x) then 1 else 0)
    ensures Count(ws[w := x], p) <= |ws|
  {
    var n := |ws| - 1;
    if w == n {
      assert ws[w := x][..n] == ws[..n];
    } else {
      assert ws[w := x][..n] == ws[..n][w := x];
      CountMoves(ws[..n], p, w, x);
    }
    CountBound(ws[w := x], p);
  }

  lemma {:induction false} CountBound(ws: seq<Worker>, p: Worker -> bool)
    ensures Count(ws, p) <= |ws|
  {
    if ws != [] {
      CountBound(ws[..|ws| - 1], p);
    }
  }

  // ---- What every step keeps --------------------------------------------------

  /** The life of the task that `w` holds. */
  predicate Living(t: Task, w: Worker, life: seq<Event>) {
    match w
    case Starting(i) => ClaimedLife(t, i, life) && |life| == 1
    case Ready(i, r) => ClaimedLife(t, i, life) && |life| == 2 && life[1].error == None && life[1].record == r
    case Busy(i, r) => ClaimedLife(t, i, life) && |life| == 3 && life[1].record == r
    case Back(i, r, e) => ClaimedLife(t, i, life) && |life| == 4 && life[1].record == r && life[3].error == e
    case Closing(i, c, e) => ClaimedLife(t, i, life) && |life| == 4 && Closes(life[1].record, e, c) && life[3].error == e
    case _ => true
  }

  predicate WorkerLives(tasks: seq<Task>, next: nat, log: seq<Event>, w: Worker) {
    w.Idle? || Retired(w) || (w.task < next && w.task < |tasks| && Living(tasks[w.task], w, Life(log, w.task)))
  }

  ghost predicate WorkersLive(tasks: seq<Task>, s: Batch) {
    && (forall w :: 0 <= w < |s.workers| ==> WorkerLives(tasks, s.next, s.log, s.workers[w]))
    && (forall v, w :: 0 <= v < w < |s.workers| ==> Apart(s.workers[v], s.workers[w]))
  }

  /** No two workers hold one task. */
  predicate Apart(v: Worker, w: Worker) {
    w.Idle? || Retired(w) || !Holds(v, w.task)
  }

  ghost predicate Held(s: Batch, i: nat) {
    exists w :: 0 <= w < |s.workers| && Holds(s.workers[w], i)
  }

  /** `fail` was called. */
  ghost predicate Doomed(s: Batch) {
    s.fatal.Some? || exists w :: 0 <= w < |s.workers| && s.workers[w].Failing?
  }

  /** A worker is done with task `i`. */
  predicate Settled(t: Task, i: nat, life: seq<Event>, doomed: bool, cancelled: bool) {
    && ClaimedLife(t, i, life) && Whole(t, i, life)
    && (doomed || Calm(life)) && (doomed || cancelled || Fulfilled(t, i, life))
  }

  ghost predicate Cursor(tasks: seq<Task>, s: Batch) {
    && s.next == |Claims(s.log)| <= |tasks|
    && (forall k :: 0 <= k < |Claims(s.log)| ==> Claims(s.log)[k] == k)
    && (forall i :: i >= s.next ==> Life(s.log, i) == [])
    && (forall i :: 0 <= i < s.next && !Held(s, i) ==> Settled(tasks[i], i, Life(s.log, i), Doomed(s), s.cancelled))
  }

  const BUSY := (w: Worker) => w.Busy?
  const RETIRED := (w: Worker) => Retired(w)

  ghost predicate Counted(s: Batch) {
    && Executing(s.log) == Count(s.workers, BUSY) <= |s.workers|
    && Refusals(s.log) <= Count(s.workers, RETIRED) <= |s.workers|
  }

  ghost predicate Flags(tasks: seq<Task>, s: Batch) {
    && (s.cancelled <==> Cancelled in s.log) && (s.ctx <==> Withdrawn in s.log)
    && (s.cancelled ==> s.ctx || s.fatal.Some?)
    && (s.fatal.Some? ==> Blamed(s.log, s.fatal.value))
    && (forall w :: 0 <= w < |s.workers| ==> WorkerFlags(tasks, s, s.workers[w]))
  }

  ghost predicate WorkerFlags(tasks: seq<Task>, s: Batch, w: Worker) {
    && (w.Failing? ==> Blamed(s.log, w.why))
    && (w.Cancelling? ==> s.fatal.Some?)
    && (w.Done? ==> s.next == |tasks| || s.cancelled)
    && (w.Ready? || w.Busy? || w.Back? || w.Closing? ==> w.record.Valid())
    && (w.Closing? ==> if w.record.state == Interrupted then Cancelled in s.log else !Overtaken(s.log, w.task))
  }

  ghost predicate Inv(tasks: seq<Task>, s: Batch) {
    && (forall t :: t in tasks ==> t.Valid() && t.state == Queued)
    && WorkersLive(tasks, s) && Cursor(tasks, s) && Counted(s) && Flags(tasks, s)
    && Orderly(tasks, |s.workers|, s.log)
  }

  lemma {:induction false} MomentOf(tasks: seq<Task>, s: Batch)
    requires WorkersLive(tasks, s) && Cursor(tasks, s) && Counted(s)
    ensures Moment(tasks, |s.workers|, s.log)
  {
    forall i | 0 <= i < |tasks| ensures Partial(tasks[i], i, Life(s.log, i)) {
      if i < s.next && Held(s, i) {
        var w :| 0 <= w < |s.workers| && Holds(s.workers[w], i);
        assert Living(tasks[i], s.workers[w], Life(s.log, i));
      }
    }
  }

  lemma {:induction false} Appended(tasks: seq<Task>, workers: nat, log: seq<Event>, e: Event)
    requires Orderly(tasks, workers, log) && Moment(tasks, workers, log + [e])
    requires Heeds(log, e) && (e.Committed? ==> e.record.Valid())
    ensures Orderly(tasks, workers, log + [e])
  {
    MomentsMore(tasks, workers, log, e);
    HeedsMore(log, e);
  }

  lemma {:induction false} MomentsMore(tasks: seq<Task>, workers: nat, log: seq<Event>, e: Event)
    requires Moment(tasks, workers, log + [e]) && AllMoments(tasks, workers, log)
    ensures AllMoments(tasks, workers, log + [e])
  {
    var more := log + [e];
    forall k | 0 <= k <= |more| ensures MomentAt(tasks, workers, more, k) {
      if k <= |log| {
        assert more[..k] == log[..k] && MomentAt(tasks, workers, log, k);
      } else {
        assert more[..k] == more;
      }
    }
  }

  lemma {:induction false} HeedsMore(log: seq<Event>, e: Event)
    requires HeedsCancellation(log) && Heeds(log, e)
    ensures HeedsCancellation(log + [e])
  {
    var more := log + [e];
    forall k | 0 <= k < |more| ensures HeedsAt(more, k) {
      assert more[..k] == log[..k];
      assert k < |log| ==> more[k] == log[k] && HeedsAt(log, k);
      assert k == |log| ==> log[..k] == log;
    }
  }

  /** Event `e` leaves the flags of the workers it is not about as they were. */
  lemma {:induction false} FlagsKeep(tasks: seq<Task>, s: Batch, e: Event, w: Worker)
    requires WorkerFlags(tasks, s, w)
    requires e.Finished? ==> !Holds(w, e.task)
    ensures WorkerFlags(tasks, s.(log := s.log + [e]), w)
  {
    var more := s.log + [e];
    if w.Failing? {
      BlamedStays(s.log, e, w.why);
    }
    if w.Closing? && Overtaken(more, w.task) {
      var j, k :| 0 <= j < k < |more| && more[j] == Cancelled && more[k].Finished? && more[k].task == w.task;
      assert k < |s.log|;
      assert s.log[j] == Cancelled && s.log[k].Finished?;
    }
  }

  lemma {:induction false} BlamedStays(log: seq<Event>, e: Event, why: Error)
    requires Blamed(log, why)
    ensures Blamed(log + [e], why)
  {
    var f :| f in log && Fails(f) && f.error == Some(why);
    assert f in log + [e];
  }

  /** Worker `w` does something about the task it holds, `i`, and goes on as `x`. */
  ghost predicate Handles(tasks: seq<Task>, s: Batch, w: nat, i: nat, e: Event, x: Worker) {
    && w < |s.workers| && Holds(s.workers[w], i) && i < |tasks| && Of(e, i) && !e.Claimed?
    && (e.Began? <==> x.Busy?) && (e.Finished? <==> s.workers[w].Busy?) && (Refusal(e) ==> x.Failing?)
    && (e.Committed? ==> e.record.Valid())
    && (e.Committed? && e.record.state == Interrupted ==> Cancelled in s.log)
    && (e.Committed? && e.record.state in {Complete, Failed} ==> !Overtaken(s.log, i))
    && WorkerFlags(tasks, s.(log := s.log + [e]), x)
    && var life := Life(s.log, i) + [e];
       if Holds(x, i) then Living(tasks[i], x, life)
       else
         (x.Idle? || x.Failing?) && Settled(tasks[i], i, life, Doomed(s) || x.Failing?, s.cancelled)
  }

  function Moved(s: Batch, w: nat, e: Event, x: Worker): Batch
    requires w < |s.workers|
  {
    s.(workers := s.workers[w := x], log := s.log + [e])
  }

  lemma {:induction false} CountedMoves(tasks: seq<Task>, s: Batch, w: nat, i: nat, e: Event, x: Worker)
    requires Counted(s) && Handles(tasks, s, w, i, e, x)
    ensures Counted(Moved(s, w, e, x))
  {
    OneMore(s.log, e, i);
    CountMoves(s.workers, BUSY, w, x);
    CountMoves(s.workers, RETIRED, w, x);
  }

  lemma {:induction false} LivesMove(tasks: seq<Task>, s: Batch, w: nat, i: nat, e: Event, x: Worker)
    requires WorkersLive(tasks, s) && Handles(tasks, s, w, i, e, x)
    ensures WorkersLive(tasks, Moved(s, w, e, x))
  {
    var t := Moved(s, w, e, x);
    OneMore(s.log, e, i);
    forall v | 0 <= v < |t.workers| ensures WorkerLives(tasks, t.next, t.log, t.workers[v]) {
      assert WorkerLives(tasks, s.next, s.log, s.workers[v]);
      if v != w && !s.workers[v].Idle? && !Retired(s.workers[v]) {
        OneMore(s.log, e, s.workers[v].task);
        assert if v < w then Apart(s.workers[v], s.workers[w]) else Apart(s.workers[w], s.workers[v]);
      }
    }
    StayApart(tasks, s, t, w, x);
  }

  /** A worker that goes on with its task, or lets go of it, stays apart from the others. */
  lemma {:induction false} StayApart(tasks: seq<Task>, s: Batch, t: Batch, w: nat, x: Worker)
    requires WorkersLive(tasks, s) && w < |s.workers| && t.workers == s.workers[w := x]
    requires x.Idle? || Retired(x) || Holds(s.workers[w], x.task)
    requires forall i :: Holds(x, i) ==> Holds(s.workers[w], i)
    ensures forall u, v :: 0 <= u < v < |t.workers| ==> Apart(t.workers[u], t.workers[v])
  {
    forall u, v | 0 <= u < v < |t.workers| ensures Apart(t.workers[u], t.workers[v]) {
      assert Apart(s.workers[u], s.workers[v]);
    }
  }

  lemma DoomStays(s: Batch, t: Batch, w: nat)
    requires |t.workers| == |s.workers| && (forall v :: 0 <= v < |s.workers| && v != w ==> t.workers[v] == s.workers[v])
    requires w < |s.workers| && (s.workers[w].Failing? ==> t.fatal.Some?)
    requires s.fatal.Some? ==> t.fatal.Some?
    ensures Doomed(s) ==> Doomed(t)
  {
    if v :| 0 <= v < |s.workers| && s.workers[v].Failing? {
      if v != w {
        assert t.workers[v].Failing?;
      }
    }
  }

  lemma HeldStays(s: Batch, t: Batch, w: nat, j: nat)
    requires |t.workers| == |s.workers| && (forall v :: 0 <= v < |s.workers| && v != w ==> t.workers[v] == s.workers[v])
    requires w < |s.workers| && (!Holds(s.workers[w], j) || Holds(t.workers[w], j))
    ensures Held(s, j) ==> Held(t, j)
  {
    if v :| 0 <= v < |s.workers| && Holds(s.workers[v], j) {
      assert Holds(t.workers[v], j);
    }
  }

  lemma LaterStayEmpty(tasks: seq<Task>, s: Batch, e: Event, i: nat)
    requires Cursor(tasks, s) && i < s.next && Of(e, i) && !e.Claimed?
    ensures forall j: nat :: j >= s.next ==> Life(s.log + [e], j) == []
  {
    forall j: nat | j >= s.next ensures Life(s.log + [e], j) == [] {
      OneMore(s.log, e, j);
    }
  }

  lemma {:induction false} CursorMoves(tasks: seq<Task>, s: Batch, w: nat, i: nat, e: Event, x: Worker)
    requires WorkersLive(tasks, s) && Cursor(tasks, s) && Handles(tasks, s, w, i, e, x)
    ensures Cursor(tasks, Moved(s, w, e, x))
  {
    var t := Moved(s, w, e, x);
    DoomStays(s, t, w);
    OneMore(s.log, e, i);
    assert t.workers[w] == x;
    LaterStayEmpty(tasks, s, e, i);
    forall j | 0 <= j < s.next && !Held(t, j) ensures Settled(tasks[j], j, Life(t.log, j), Doomed(t), t.cancelled) {
      OneMore(s.log, e, j);
      if j == i {
        assert !Holds(x, i);
      } else {
        HeldStays(s, t, w, j);
        assert Settled(tasks[j], j, Life(s.log, j), Doomed(s), s.cancelled);
      }
    }
  }

  lemma {:induction false} FlagsMove(tasks: seq<Task>, s: Batch, w: nat, i: nat, e: Event, x: Worker)
    requires WorkersLive(tasks, s) && Flags(tasks, s) && Handles(tasks, s, w, i, e, x)
    ensures Flags(tasks, Moved(s, w, e, x))
  {
    var t := Moved(s, w, e, x);
    if s.fatal.Some? {
      BlamedStays(s.log, e, s.fatal.value);
    }
    forall v | 0 <= v < |t.workers| ensures WorkerFlags(tasks, t, t.workers[v]) {
      if v == w {
        assert WorkerFlags(tasks, s.(log := t.log), x);
      } else {
        FlagsKeep(tasks, s, e, s.workers[v]);
        assert WorkerFlags(tasks, s.(log := t.log), s.workers[v]);
      }
    }
  }

  lemma {:induction false} InvMoves(tasks: seq<Task>, s: Batch, w: nat, i: nat, e: Event, x: Worker)
    requires Inv(tasks, s) && Handles(tasks, s, w, i, e, x)
    ensures Inv(tasks, Moved(s, w, e, x))
  {
    CountedMoves(tasks, s, w, i, e, x);
    LivesMove(tasks, s, w, i, e, x);
    CursorMoves(tasks, s, w, i, e, x);
    FlagsMove(tasks, s, w, i, e, x);
    MomentOf(tasks, Moved(s, w, e, x));
    Appended(tasks, |s.workers|, s.log, e);
  }

  // ---- Steps that are about no task ----------------------------------------------

  function Claim(s: Batch, w: nat): Batch
    requires w < |s.workers|
  {
    Moved(s, w, Claimed(s.next), Starting(s.next)).(next := s.next + 1)
  }

  ghost predicate MayClaim(tasks: seq<Task>, s: Batch, w: nat) {
    w < |s.workers| && s.workers[w].Idle? && s.next < |tasks| && !s.cancelled
  }

  lemma {:induction false} LivesClaim(tasks: seq<Task>, s: Batch, w: nat)
    requires MayClaim(tasks, s, w) && Cursor(tasks, s) && WorkersLive(tasks, s)
    ensures WorkersLive(tasks, Claim(s, w))
  {
    var t := Claim(s, w);
    OneMore(s.log, Claimed(s.next), s.next);
    forall v | 0 <= v < |t.workers| ensures WorkerLives(tasks, t.next, t.log, t.workers[v]) {
      assert WorkerLives(tasks, s.next, s.log, s.workers[v]);
      if v != w && !s.workers[v].Idle? && !Retired(s.workers[v]) {
        OneMore(s.log, Claimed(s.next), s.workers[v].task);
      }
    }
    forall u, v | 0 <= u < v < |t.workers| ensures Apart(t.workers[u], t.workers[v]) {
      assert Apart(s.workers[u], s.workers[v]);
      assert WorkerLives(tasks, s.next, s.log, s.workers[u]) && WorkerLives(tasks, s.next, s.log, s.workers[v]);
    }
  }

  lemma {:induction false} CursorClaims(tasks: seq<Task>, s: Batch, w: nat)
    requires MayClaim(tasks, s, w) && Cursor(tasks, s)
    ensures Cursor(tasks, Claim(s, w))
  {
    var t := Claim(s, w);
    OneMore(s.log, Claimed(s.next), s.next);
    DoomStays(s, t, w);
    assert Holds(t.workers[w], s.next);
    forall j: nat | j >= t.next ensures Life(t.log, j) == [] {
      OneMore(s.log, Claimed(s.next), j);
    }
    forall j | 0 <= j < t.next && !Held(t, j) ensures Settled(tasks[j], j, Life(t.log, j), Doomed(t), t.cancelled) {
      OneMore(s.log, Claimed(s.next), j);
      HeldStays(s, t, w, j);
      assert Settled(tasks[j], j, Life(s.log, j), Doomed(s), s.cancelled);
    }
  }

  lemma {:induction false} CountedClaim(s: Batch, w: nat)
    requires w < |s.workers| && s.workers[w].Idle? && Counted(s)
    ensures Counted(Claim(s, w))
  {
    OneMore(s.log, Claimed(s.next), s.next);
    CountMoves(s.workers, BUSY, w, Starting(s.next));
    CountMoves(s.workers, RETIRED, w, Starting(s.next));
  }

  lemma {:induction false} FlagsClaim(tasks: seq<Task>, s: Batch, w: nat)
    requires MayClaim(tasks, s, w) && Flags(tasks, s)
    ensures Flags(tasks, Claim(s, w))
  {
    var t := Claim(s, w);
    if s.fatal.Some? {
      BlamedStays(s.log, Claimed(s.next), s.fatal.value);
    }
    forall v | 0 <= v < |t.workers| && v != w ensures WorkerFlags(tasks, t, t.workers[v]) {
      FlagsKeep(tasks, s, Claimed(s.next), s.workers[v]);
    }
  }

  lemma {:induction false} InvClaims(tasks: seq<Task>, s: Batch, w: nat)
    requires MayClaim(tasks, s, w) && Inv(tasks, s)
    ensures Inv(tasks, Claim(s, w))
  {
    LivesClaim(tasks, s, w);
    CursorClaims(tasks, s, w);
    CountedClaim(s, w);
    FlagsClaim(tasks, s, w);
    MomentOf(tasks, Claim(s, w));
    Appended(tasks, |s.workers|, s.log, Claimed(s.next));
  }

  /** Worker `w` goes on as `x` without a word. */
  ghost predicate Turns(tasks: seq<Task>, s: Batch, w: nat, x: Worker, t: Batch) {
    && w < |s.workers| && t == s.(workers := s.workers[w := x], fatal := t.fatal)
    && (s.fatal.Some? ==> t.fatal == s.fatal) && (t.fatal.Some? ==> Blamed(s.log, t.fatal.value))
    && var y := s.workers[w];
       && ((y.Back? && x.Closing? && x.task == y.task) || ((y.Idle? || Retired(y)) && Retired(x) && !x.Failing?))
       && (y.Failing? ==> t.fatal.Some?)
       && WorkerLives(tasks, s.next, s.log, x) && WorkerFlags(tasks, t, x)
  }

  lemma {:induction false} FlagsTurn(tasks: seq<Task>, s: Batch, w: nat, x: Worker, t: Batch)
    requires Turns(tasks, s, w, x, t) && Counted(s) && Flags(tasks, s)
    ensures Counted(t) && Flags(tasks, t)
  {
    CountMoves(s.workers, BUSY, w, x);
    CountMoves(s.workers, RETIRED, w, x);
    forall v | 0 <= v < |t.workers| && v != w ensures WorkerFlags(tasks, t, t.workers[v]) {
      assert WorkerFlags(tasks, s, s.workers[v]);
    }
  }

  lemma {:induction false} LivesTurn(tasks: seq<Task>, s: Batch, w: nat, x: Worker, t: Batch)
    requires WorkersLive(tasks, s) && Turns(tasks, s, w, x, t)
    ensures WorkersLive(tasks, t)
  {
    forall v | 0 <= v < |t.workers| ensures WorkerLives(tasks, t.next, t.log, t.workers[v]) {
      assert WorkerLives(tasks, s.next, s.log, s.workers[v]);
    }
    StayApart(tasks, s, t, w, x);
  }

  lemma {:induction false} InvTurns(tasks: seq<Task>, s: Batch, w: nat, x: Worker, t: Batch)
    requires Inv(tasks, s) && Turns(tasks, s, w, x, t)
    ensures Inv(tasks, t)
  {
    FlagsTurn(tasks, s, w, x, t);
    LivesTurn(tasks, s, w, x, t);
    DoomStays(s, t, w);
    forall j | 0 <= j < t.next && !Held(t, j) ensures Settled(tasks[j], j, Life(t.log, j), Doomed(t), t.cancelled) {
      HeldStays(s, t, w, j);
    }
  }

  function Withdrew(s: Batch): Batch {
    s.(ctx := true, log := s.log + [Withdrawn])
  }

  function Abandoned(s: Batch): Batch {
    s.(cancelled := true, log := s.log + [Cancelled])
  }

  /** An event that is about no task. */
  lemma {:induction false} LivesGoOn(tasks: seq<Task>, s: Batch, e: Event, t: Batch)
    requires WorkersLive(tasks, s) && Cursor(tasks, s) && (e.Withdrawn? || e.Cancelled?) && t.log == s.log + [e]
    requires t.workers == s.workers && t.next == s.next && t.fatal == s.fatal && (s.cancelled ==> t.cancelled)
    ensures WorkersLive(tasks, t) && Cursor(tasks, t)
  {
    forall j: nat ensures Life(t.log, j) == Life(s.log, j) && Claims(t.log) == Claims(s.log) {
      OneMore(s.log, e, j);
    }
    forall j | 0 <= j < t.next && !Held(t, j) ensures Settled(tasks[j], j, Life(t.log, j), Doomed(t), t.cancelled) {
      assert !Held(s, j) && Settled(tasks[j], j, Life(s.log, j), Doomed(s), s.cancelled);
    }
  }

  lemma {:induction false} FlagsGoOn(tasks: seq<Task>, s: Batch, e: Event, t: Batch)
    requires Counted(s) && Flags(tasks, s) && (e.Withdrawn? || e.Cancelled?)
    requires t == if e.Withdrawn? then Withdrew(s) else Abandoned(s)
    requires e.Cancelled? ==> s.ctx || s.fatal.Some?
    ensures Counted(t) && Flags(tasks, t)
  {
    OneMore(s.log, e, 0);
    forall v | 0 <= v < |t.workers| ensures WorkerFlags(tasks, t, t.workers[v]) {
      FlagsKeep(tasks, s, e, s.workers[v]);
    }
    if s.fatal.Some? {
      BlamedStays(s.log, e, s.fatal.value);
    }
  }

  lemma {:induction false} InvCancels(tasks: seq<Task>, s: Batch)
    requires Inv(tasks, s) && !s.cancelled && (s.ctx || s.fatal.Some?)
    ensures Inv(tasks, Abandoned(s))
  {
    LivesGoOn(tasks, s, Cancelled, Abandoned(s));
    FlagsGoOn(tasks, s, Cancelled, Abandoned(s));
    MomentOf(tasks, Abandoned(s));
    Appended(tasks, |s.workers|, s.log, Cancelled);
  }

  lemma {:induction false} InvWithdraws(tasks: seq<Task>, s: Batch)
    requires Inv(tasks, s)
    ensures Inv(tasks, Withdrew(s))
  {
    LivesGoOn(tasks, s, Withdrawn, Withdrew(s));
    FlagsGoOn(tasks, s, Withdrawn, Withdrew(s));
    MomentOf(tasks, Withdrew(s));
    Appended(tasks, |s.workers|, s.log, Withdrawn);
  }

  // ---- The workers ------------------------------------------------------------------

  /** How many steps are left. */
  function Rank(w: Worker): nat {
    match w
    case Starting(_) => 8
    case Ready(_, _) => 7
    case Busy(_, _) => 6
    case Back(_, _, _) => 5
    case Closing(_, _, _) => 4
    case Failing(_) => 3
    case Cancelling => 2
    case Idle => 1
    case Done => 0
  }

  function Ranks(ws: seq<Worker>): nat {
    if ws == [] then 0 else Ranks(ws[..|ws| - 1]) + Rank(ws[|ws| - 1])
  }

  lemma {:induction false} RanksMove(ws: seq<Worker>, w: nat, x: Worker)
    requires w < |ws|
    ensures Ranks(ws[w := x]) == Ranks(ws) - Rank(ws[w]) + Rank(x)
  {
    var n := |ws| - 1;
    if w == n {
      assert ws[w := x][..n] == ws[..n];
    } else {
      assert ws[w := x][..n] == ws[..n][w := x];
      RanksMove(ws[..n], w, x);
    }
  }

  function Left(n: nat, s: Batch): int {
    8 * (n - s.next) + Ranks(s.workers)
  }

  /** What a step of worker `w` may have touched. */
  predicate Stepped(n: nat, s: Batch, w: nat, t: Batch) {
    && w < |s.workers| == |t.workers| && t.workers == s.workers[w := t.workers[w]]
    && s.next <= t.next && t.ctx == s.ctx && s.log <= t.log && Left(n, t) < Left(n, s)
    && (s.cancelled ==> t.cancelled)
  }

  lemma StepDown(n: nat, s: Batch, w: nat, e: Event, x: Worker)
    requires w < |s.workers| && Rank(x) < Rank(s.workers[w])
    ensures Stepped(n, s, w, Moved(s, w, e, x))
  {
    RanksMove(s.workers, w, x);
  }

  /** The top of a worker's loop. */
  method Take(ghost h: Host, tasks: seq<Task>, s: Batch, w: nat) returns (t: Batch)
    requires Inv(tasks, s) && w < |s.workers| && s.workers[w].Idle?
    ensures Inv(tasks, t) && Stepped(|tasks|, s, w, t) && Adds(h, s.log, t.log)
    ensures if s.next < |tasks| && !s.cancelled then t == Claim(s, w) else t == s.(workers := s.workers[w := Done])
  {
    if s.next >= |tasks| || s.cancelled {
      t := s.(workers := s.workers[w := Done]);
      InvTurns(tasks, s, w, Done, t);
      RanksMove(s.workers, w, Done);
    } else {
      t := Claim(s, w);
      InvClaims(tasks, s, w);
      RanksMove(s.workers, w, Starting(s.next));
    }
  }

  /** The transition hook before execution. */
  method Start(h: Host, tasks: seq<Task>, s: Batch, w: nat) returns (t: Batch)
    requires Inv(tasks, s) && w < |s.workers| && s.workers[w].Starting?
    ensures Inv(tasks, t) && Stepped(|tasks|, s, w, t) && Adds(h, s.log, t.log)
  {
    var now: nat :| true;
    var i := s.workers[w].task;
    var error := h.starts(i);
    AtWork(tasks, s, w);
    var r := tasks[i].(state := Running, started := Some(Some(now)));
    var e := Committed(i, r, error);
    var x := if error.Some? then Failing(error.value) else Ready(i, r);
    t := Moved(s, w, e, x);
    StartKeeps(tasks, s, w, i, r, error);
    StartStepsDown(|tasks|, s, w, e, x);
    AddsEvent(h, s.log, e);
  }

  /** The task that a worker holds, as far as it got. */
  lemma AtWork(tasks: seq<Task>, s: Batch, w: nat)
    requires Inv(tasks, s) && w < |s.workers| && !s.workers[w].Idle? && !Retired(s.workers[w])
    ensures s.workers[w].task < |tasks| && tasks[s.workers[w].task].Valid()
    ensures Living(tasks[s.workers[w].task], s.workers[w], Life(s.log, s.workers[w].task))
    ensures WorkerFlags(tasks, s, s.workers[w])
  {
    assert WorkerLives(tasks, s.next, s.log, s.workers[w]);
    assert tasks[s.workers[w].task] in tasks;
  }

  lemma StartKeeps(tasks: seq<Task>, s: Batch, w: nat, i: nat, r: Task, error: Option<Error>)
    requires Inv(tasks, s) && w < |s.workers| && s.workers[w] == Starting(i) && i < |tasks| && Starts(tasks[i], r)
    ensures Inv(tasks, Moved(s, w, Committed(i, r, error), if error.Some? then Failing(error.value) else Ready(i, r)))
  {
    var e, x := Committed(i, r, error), if error.Some? then Failing(error.value) else Ready(i, r);
    AtWork(tasks, s, w);
    StartIsLawful(tasks, s, w, e, x);
    InvMoves(tasks, s, w, i, e, x);
  }

  lemma {:induction false} StartIsLawful(tasks: seq<Task>, s: Batch, w: nat, e: Event, x: Worker)
    requires w < |s.workers| && s.workers[w].Starting? && e.Committed? && e.task == s.workers[w].task < |tasks|
    requires Living(tasks[e.task], s.workers[w], Life(s.log, e.task))
    requires tasks[e.task].Valid() && Starts(tasks[e.task], e.record)
    requires x == if e.error.Some? then Failing(e.error.value) else Ready(e.task, e.record)
    ensures Handles(tasks, s, w, e.task, e, x)
  {
    assert e in s.log + [e];
  }

  lemma StartStepsDown(n: nat, s: Batch, w: nat, e: Event, x: Worker)
    requires w < |s.workers| && s.workers[w].Starting? && (x.Failing? || x.Ready?)
    ensures Stepped(n, s, w, Moved(s, w, e, x))
  {
    StepDown(n, s, w, e, x);
  }

  /** Into the execute hook ... */
  method Begin(ghost h: Host, tasks: seq<Task>, s: Batch, w: nat) returns (t: Batch)
    requires Inv(tasks, s) && w < |s.workers| && s.workers[w].Ready?
    ensures Inv(tasks, t) && Stepped(|tasks|, s, w, t) && Adds(h, s.log, t.log)
  {
    assert WorkerLives(tasks, s.next, s.log, s.workers[w]) && WorkerFlags(tasks, s, s.workers[w]);
    var i, x := s.workers[w].task, Busy(s.workers[w].task, s.workers[w].record);
    t := Moved(s, w, Began(i), x);
    AddsEvent(h, s.log, Began(i));
    InvMoves(tasks, s, w, i, Began(i), x);
    RanksMove(s.workers, w, x);
  }

  /** ... and back from it with whatever it says. */
  method Return(h: Host, tasks: seq<Task>, s: Batch, w: nat) returns (t: Batch)
    requires Inv(tasks, s) && w < |s.workers| && s.workers[w].Busy?
    ensures Inv(tasks, t) && Stepped(|tasks|, s, w, t) && Adds(h, s.log, t.log)
  {
    assert WorkerLives(tasks, s.next, s.log, s.workers[w]) && WorkerFlags(tasks, s, s.workers[w]);
    var error := h.runs(s.workers[w].task);
    var i, x := s.workers[w].task, Back(s.workers[w].task, s.workers[w].record, error);
    t := Moved(s, w, Finished(i, error), x);
    AddsEvent(h, s.log, Finished(i, error));
    InvMoves(tasks, s, w, i, Finished(i, error), x);
    RanksMove(s.workers, w, x);
  }

  /** The final record. */
  method Conclude(r: Task, error: Option<Error>, cancelled: bool) returns (c: Task)
    requires r.Valid()
    ensures c.Valid() && Closes(r, error, c) && (c.state == Interrupted <==> cancelled)
  {
    var now: nat := *;
    c := r.(state := Complete);
    if error.Some? {
      c := c.(state := Failed, problem := error.value.text);
      if |c.problem| > 4000 {
        c := c.(problem := TOO_LONG);
      }
    }
    if cancelled {
      c := c.(state := Interrupted);
      if c.problem == "" {
        c := c.(problem := STOPPED);
      }
    }
    c := c.(finished := Some(Some(now)));
  }

  /** ... made with a look at the context. */
  method Judge(ghost h: Host, tasks: seq<Task>, s: Batch, w: nat) returns (t: Batch)
    requires Inv(tasks, s) && w < |s.workers| && s.workers[w].Back?
    ensures Inv(tasks, t) && Stepped(|tasks|, s, w, t) && Adds(h, s.log, t.log)
  {
    assert WorkerLives(tasks, s.next, s.log, s.workers[w]) && WorkerFlags(tasks, s, s.workers[w]);
    var Back(i, r, error) := s.workers[w];
    var c := Conclude(r, error, s.cancelled);
    var x := Closing(i, c, error);
    t := s.(workers := s.workers[w := x]);
    JudgeIsLawful(tasks, s, w, x);
    InvTurns(tasks, s, w, x, t);
    RanksMove(s.workers, w, x);
  }

  lemma {:induction false} JudgeIsLawful(tasks: seq<Task>, s: Batch, w: nat, x: Worker)
    requires Inv(tasks, s) && w < |s.workers| && s.workers[w].Back? && x.Closing?
    requires x.task == s.workers[w].task && x.error == s.workers[w].error && x.record.Valid()
    requires Closes(s.workers[w].record, x.error, x.record) && (x.record.state == Interrupted <==> s.cancelled)
    ensures Turns(tasks, s, w, x, s.(workers := s.workers[w := x]))
  {
    assert WorkerLives(tasks, s.next, s.log, s.workers[w]) && WorkerFlags(tasks, s, s.workers[w]);
  }

  /** Where a worker stands after its closing transition. */
  function Closed(refused: Option<Error>, error: Option<Error>): Worker {
    if refused.Some? then Failing(refused.value)
    else if error.Some? && error.value.fatal then Failing(error.value) else Idle
  }

  lemma CloseStepsDown(n: nat, s: Batch, w: nat, e: Event, refused: Option<Error>, error: Option<Error>)
    requires w < |s.workers| && s.workers[w].Closing?
    ensures Stepped(n, s, w, Moved(s, w, e, Closed(refused, error)))
  {
    StepDown(n, s, w, e, Closed(refused, error));
  }

  /** The transition hook after execution. */
  method Close(h: Host, tasks: seq<Task>, s: Batch, w: nat) returns (t: Batch)
    requires Inv(tasks, s) && w < |s.workers| && s.workers[w].Closing?
    ensures Inv(tasks, t) && Stepped(|tasks|, s, w, t) && Adds(h, s.log, t.log)
  {
    var Closing(i, c, error) := s.workers[w];
    var refused := h.closes(i);
    var e, x := Committed(i, c, refused), Closed(refused, error);
    t := Moved(s, w, e, x);
    AtWork(tasks, s, w);
    AddsEvent(h, s.log, e);
    CloseKeeps(tasks, s, w, i, c, error, refused);
    CloseStepsDown(|tasks|, s, w, e, refused, error);
  }

  lemma CloseKeeps(tasks: seq<Task>, s: Batch, w: nat, i: nat, c: Task, error: Option<Error>, refused: Option<Error>)
    requires Inv(tasks, s) && w < |s.workers| && s.workers[w] == Closing(i, c, error)
    ensures Inv(tasks, Moved(s, w, Committed(i, c, refused), Closed(refused, error)))
  {
    assert WorkerLives(tasks, s.next, s.log, s.workers[w]) && WorkerFlags(tasks, s, s.workers[w]);
    CloseIsLawful(tasks, s, w, i, c, error, refused);
    InvMoves(tasks, s, w, i, Committed(i, c, refused), Closed(refused, error));
  }

  lemma {:induction false} CloseIsLawful(tasks: seq<Task>, s: Batch, w: nat, i: nat, c: Task, error: Option<Error>,
                                         refused: Option<Error>)
    requires w < |s.workers| && s.workers[w] == Closing(i, c, error) && i < |tasks|
    requires Living(tasks[i], s.workers[w], Life(s.log, i)) && WorkerFlags(tasks, s, s.workers[w])
    requires Cancelled in s.log ==> s.cancelled
    ensures Handles(tasks, s, w, i, Committed(i, c, refused), Closed(refused, error))
  {
    BlameAtClose(s.log, i, c, refused, error);
    CloseSettles(tasks[i], i, Life(s.log, i), c, error, refused, s.cancelled);
  }

  lemma CloseSettles(t: Task, i: nat, life: seq<Event>, c: Task, error: Option<Error>, refused: Option<Error>,
                     cancelled: bool)
    requires Living(t, Closing(i, c, error), life) && (c.state == Interrupted ==> cancelled)
    ensures Settled(t, i, life + [Committed(i, c, refused)], Closed(refused, error).Failing?, cancelled)
  {
  }

  lemma {:induction false} BlameAtClose(log: seq<Event>, i: nat, c: Task, refused: Option<Error>, error: Option<Error>)
    requires |Life(log, i)| == 4 && Life(log, i)[3].Finished? && Life(log, i)[3].error == error
    ensures Closed(refused, error).Failing? ==> Blamed(log + [Committed(i, c, refused)], Closed(refused, error).why)
  {
    var e := Committed(i, c, refused);
    assert e in log + [e];
    if error.Some? && error.value.fatal {
      var k := FinishIn(log, i, Life(log, i)[3]);
      assert log[k] in log + [e];
    }
  }

  lemma {:induction false} FinishIn(log: seq<Event>, i: nat, e: Event) returns (k: nat)
    requires e in Life(log, i)
    ensures k < |log| && log[k] == e
  {
    if log[|log| - 1] == e {
      k := |log| - 1;
    } else {
      k := FinishIn(log[..|log| - 1], i, e);
    }
  }

  /** The first half of `fail`. */
  method Condemn(ghost h: Host, tasks: seq<Task>, s: Batch, w: nat) returns (t: Batch)
    requires Inv(tasks, s) && w < |s.workers| && s.workers[w].Failing?
    ensures Inv(tasks, t) && Stepped(|tasks|, s, w, t) && Adds(h, s.log, t.log)
    ensures t.fatal == if s.fatal.Some? then s.fatal else Some(s.workers[w].why)
  {
    assert WorkerFlags(tasks, s, s.workers[w]);
    var fatal := if s.fatal == None then Some(s.workers[w].why) else s.fatal;
    t := s.(workers := s.workers[w := Cancelling], fatal := fatal);
    InvTurns(tasks, s, w, Cancelling, t);
    RanksMove(s.workers, w, Cancelling);
  }

  /** The second half, and the end of the worker. */
  method Cancel(ghost h: Host, tasks: seq<Task>, s: Batch, w: nat) returns (t: Batch)
    requires Inv(tasks, s) && w < |s.workers| && s.workers[w].Cancelling?
    ensures Inv(tasks, t) && Stepped(|tasks|, s, w, t) && Adds(h, s.log, t.log) && t.cancelled
  {
    assert WorkerFlags(tasks, s, s.workers[w]);
    var u := Abandon(h, tasks, s);
    t := u.(workers := u.workers[w := Done]);
    InvTurns(tasks, u, w, Done, t);
    RanksMove(u.workers, w, Done);
  }

  /** The batch's context is cancelled, by `cancel()` or because the caller's was. */
  method Abandon(ghost h: Host, tasks: seq<Task>, s: Batch) returns (t: Batch)
    requires Inv(tasks, s) && (s.ctx || s.fatal.Some?)
    ensures Inv(tasks, t) && t == s.(cancelled := true, log := t.log) && Adds(h, s.log, t.log)
  {
    t := s;
    if !s.cancelled {
      t := Abandoned(s);
      InvCancels(tasks, s);
    }
  }

  method Step(h: Host, tasks: seq<Task>, s: Batch, w: nat) returns (t: Batch)
    requires Inv(tasks, s) && w < |s.workers| && !s.workers[w].Done?
    ensures Inv(tasks, t) && Stepped(|tasks|, s, w, t) && Adds(h, s.log, t.log)
  {
    match s.workers[w]
    case Idle => t := Take(h, tasks, s, w);
    case Starting(_) => t := Start(h, tasks, s, w);
    case Ready(_, _) => t := Begin(h, tasks, s, w);
    case Busy(_, _) => t := Return(h, tasks, s, w);
    case Back(_, _, _) => t := Judge(h, tasks, s, w);
    case Closing(_, _, _) => t := Close(h, tasks, s, w);
    case Failing(_) => t := Condemn(h, tasks, s, w);
    case Cancelling => t := Cancel(h, tasks, s, w);
  }

  // ---- The batch ------------------------------------------------------------------

  predicate Distinct(tasks: seq<Task>) {
    forall i, j :: 0 <= i < j < |tasks| ==> tasks[i].id != tasks[j].id
  }

  /** What may be dispatched. */
  predicate Acceptable(tasks: seq<Task>, concurrency: int, hooked: bool) {
    && 1 <= concurrency <= 2 && |tasks| <= 100 && hooked && Distinct(tasks)
    && forall t :: t in tasks ==> t.Valid() && t.state == Queued
  }

  method Check(tasks: seq<Task>, concurrency: int, hooked: bool) returns (ok: bool)
    ensures ok <==> Acceptable(tasks, concurrency, hooked)
  {
    if concurrency < 1 || concurrency > 2 || |tasks| > 100 || !hooked {
      return false;
    }
    var seen: set<string> := {};
    for i := 0 to |tasks|
      invariant seen == set t | t in tasks[..i] :: t.id
      invariant Distinct(tasks[..i])
      invariant forall t :: t in tasks[..i] ==> t.Valid() && t.state == Queued
    {
      assert tasks[..i + 1] == tasks[..i] + [tasks[i]];
      assert tasks[i] in tasks;
      if !tasks[i].Valid() || tasks[i].state != Queued {
        return false;
      }
      if tasks[i].id in seen {
        var t :| t in tasks[..i] && t.id == tasks[i].id;
        return false;
      }
      seen := seen + {tasks[i].id};
    }
    assert tasks[..|tasks|] == tasks;
    return true;
  }

  datatype Outcome = Rejected | Nil | Stopped | Blames(why: Error)

  predicate Joined(s: Batch) {
    forall w :: 0 <= w < |s.workers| ==> s.workers[w].Done?
  }

  /** Every worker runs, in any order of their steps, until all have returned.
      The caller may cancel at any point. */
  method Work(h: Host, tasks: seq<Task>, start: Batch) returns (s: Batch)
    requires Inv(tasks, start) && Answered(h, start.log)
    ensures Inv(tasks, s) && Joined(s) && |s.workers| == |start.workers| && Answered(h, s.log)
  {
    s := start;
    while !Joined(s)
      invariant Inv(tasks, s) && |s.workers| == |start.workers| && Answered(h, s.log)
      decreases Ahead(|tasks|, s)
    {
      s := Advance(h, tasks, s);
    }
  }

  function Ahead(n: nat, s: Batch): int {
    Left(n, s) + (if s.ctx then 0 else 1) + (if s.cancelled then 0 else 1)
  }

  /** A step of some worker, or of the caller's. */
  method Advance(h: Host, tasks: seq<Task>, s: Batch) returns (t: Batch)
    requires Inv(tasks, s) && !Joined(s) && Answered(h, s.log)
    ensures Inv(tasks, t) && |t.workers| == |s.workers| && Answered(h, t.log)
    ensures Ahead(|tasks|, t) < Ahead(|tasks|, s)
  {
    var outside: bool := *;
    if outside && !s.ctx && h.withdraws {
      InvWithdraws(tasks, s);
      t := Withdrew(s);
      AddsEvent(h, s.log, Withdrawn);
    } else if outside && s.ctx && !s.cancelled {
      t := Abandon(h, tasks, s);
    } else {
      var w :| 0 <= w < |s.workers| && !s.workers[w].Done?;
      t := Step(h, tasks, s, w);
    }
    AnsweredMore(h, s.log, t.log);
  }

  /** The workers have returned, and what they left up to `next` was closed. */
  ghost predicate Wound(tasks: seq<Task>, workers: nat, next: nat, fatal: Option<Error>, cancelled: bool, log: seq<Event>) {
    && Orderly(tasks, workers, log) && next <= |tasks|
    && (forall i :: 0 <= i < next ==> AtRest(tasks[i], i, Life(log, i), fatal.Some?, cancelled))
    && (forall i :: i >= next ==> Life(log, i) == [])
    && (fatal.Some? ==> Blamed(log, fatal.value))
  }

  /** Nothing more will happen to task `i`. */
  predicate AtRest(t: Task, i: nat, life: seq<Event>, failed: bool, cancelled: bool) {
    Whole(t, i, life) && (failed || Calm(life)) && (failed || cancelled || Fulfilled(t, i, life))
  }

  lemma {:induction false} JoinedIsWound(tasks: seq<Task>, s: Batch)
    requires Inv(tasks, s) && Joined(s) && (tasks != [] ==> s.workers != [])
    ensures Wound(tasks, |s.workers|, s.next, s.fatal, s.cancelled, s.log)
    ensures s.next < |tasks| ==> s.cancelled
    ensures (s.cancelled <==> Cancelled in s.log) && (s.ctx <==> Withdrawn in s.log)
  {
    forall i | 0 <= i < s.next ensures Settled(tasks[i], i, Life(s.log, i), s.fatal.Some?, s.cancelled) {
      assert !Held(s, i);
    }
    if s.next < |tasks| {
      assert WorkerFlags(tasks, s, s.workers[0]);
    }
  }

  lemma {:induction false} LeaveIsOrderly(tasks: seq<Task>, workers: nat, log: seq<Event>, e: Event)
    requires Orderly(tasks, workers, log) && Cancelled in log
    requires e.Committed? && e.task < |tasks| && tasks[e.task].Valid() && Life(log, e.task) == []
    requires LeftOver(tasks[e.task], e.record)
    ensures Orderly(tasks, workers, log + [e])
  {
    LastMoment(tasks, workers, log);
    forall i: nat ensures Life(log + [e], i) == if i == e.task then [e] else Life(log, i) {
      OneMore(log, e, i);
    }
    OneMore(log, e, e.task);
    Appended(tasks, workers, log, e);
  }

  lemma LeftIsAtRest(t: Task, i: nat, e: Event)
    requires e.Committed? && LeftOver(t, e.record)
    ensures AtRest(t, i, [e], e.error.Some?, true)
  {
    assert LeftLife(t, [e]);
  }

  lemma LeaveLives(tasks: seq<Task>, next: nat, fatal: Option<Error>, log: seq<Event>, e: Event, i: nat)
    requires next < |tasks| && e.Committed? && e.task == next && LeftOver(tasks[next], e.record)
    requires if i < next then AtRest(tasks[i], i, Life(log, i), fatal.Some?, true) else Life(log, i) == []
    ensures i > next ==> Life(log + [e], i) == []
    ensures i <= next ==> AtRest(tasks[i], i, Life(log + [e], i), fatal.Some? || e.error.Some?, true)
  {
    OneMore(log, e, i);
    if i == next {
      assert Life(log + [e], i) == [e];
      LeftIsAtRest(tasks[i], i, e);
    } else {
      assert Life(log + [e], i) == Life(log, i);
    }
  }

  lemma {:induction false} LeaveKeeps(tasks: seq<Task>, workers: nat, next: nat, fatal: Option<Error>,
                                      log: seq<Event>, e: Event)
    requires Wound(tasks, workers, next, fatal, true, log) && Cancelled in log && next < |tasks| && tasks[next].Valid()
    requires e.Committed? && e.task == next && LeftOver(tasks[next], e.record)
    ensures Wound(tasks, workers, next + 1, if fatal == None then e.error else fatal, true, log + [e])
    ensures Cancelled in log + [e]
  {
    LeaveIsOrderly(tasks, workers, log, e);
    LeaveRests(tasks, next, fatal, log, e);
    assert e in log + [e] && Cancelled in log + [e];
    if fatal.Some? {
      BlamedStays(log, e, fatal.value);
    }
  }

  lemma LeaveRests(tasks: seq<Task>, next: nat, fatal: Option<Error>, log: seq<Event>, e: Event)
    requires next < |tasks| && e.Committed? && e.task == next && LeftOver(tasks[next], e.record)
    requires forall i :: 0 <= i < next ==> AtRest(tasks[i], i, Life(log, i), fatal.Some?, true)
    requires forall i :: i >= next ==> Life(log, i) == []
    ensures forall i :: 0 <= i < next + 1 ==>
      AtRest(tasks[i], i, Life(log + [e], i), fatal.Some? || e.error.Some?, true)
    ensures forall i :: i >= next + 1 ==> Life(log + [e], i) == []
  {
    forall i: nat ensures i > next ==> Life(log + [e], i) == []
      ensures i <= next ==> AtRest(tasks[i], i, Life(log + [e], i), fatal.Some? || e.error.Some?, true) {
      LeaveLives(tasks, next, fatal, log, e, i);
    }
  }

  method Spawn(tasks: seq<Task>, n: nat) returns (s: Batch)
    requires forall t :: t in tasks ==> t.Valid() && t.state == Queued
    ensures Inv(tasks, s) && |s.workers| == n && s.log == []
  {
    s := Batch([], 0, None, false, false, []);
    for i := 0 to n
      invariant s == Batch(s.workers, 0, None, false, false, []) && |s.workers| == i
      invariant Idling(s.workers)
    {
      assert (s.workers + [Idle])[..i] == s.workers;
      s := s.(workers := s.workers + [Idle]);
    }
    StartIsInv(tasks, s.workers);
  }

  predicate Idling(workers: seq<Worker>) {
    && (forall w :: 0 <= w < |workers| ==> workers[w] == Idle)
    && Count(workers, BUSY) == Count(workers, RETIRED) == 0
  }

  lemma StartIsInv(tasks: seq<Task>, workers: seq<Worker>)
    requires (forall t :: t in tasks ==> t.Valid() && t.state == Queued) && Idling(workers)
    ensures Inv(tasks, Batch(workers, 0, None, false, false, []))
  {
    var s := Batch(workers, 0, None, false, false, []);
    IdlersAreFree(tasks, s);
    NothingHappened(tasks, s);
    MomentOf(tasks, s);
    assert s.log[..0] == s.log;
  }

  lemma IdlersAreFree(tasks: seq<Task>, s: Batch)
    requires s == Batch(s.workers, 0, None, false, false, []) && Idling(s.workers)
    ensures WorkersLive(tasks, s) && Flags(tasks, s)
  {
  }

  lemma NothingHappened(tasks: seq<Task>, s: Batch)
    requires s == Batch(s.workers, 0, None, false, false, []) && Idling(s.workers)
    ensures Cursor(tasks, s) && Counted(s) && HeedsCancellation(s.log) && Readable(s.log)
  {
  }

  lemma {:induction false} WithdrawalKeeps(tasks: seq<Task>, workers: nat, next: nat, fatal: Option<Error>,
                                           cancelled: bool, log: seq<Event>)
    requires Wound(tasks, workers, next, fatal, cancelled, log)
    ensures Wound(tasks, workers, next, fatal, cancelled, log + [Withdrawn])
  {
    LastMoment(tasks, workers, log);
    forall i: nat ensures Life(log + [Withdrawn], i) == Life(log, i) {
      OneMore(log, Withdrawn, i);
    }
    OneMore(log, Withdrawn, 0);
    Appended(tasks, workers, log, Withdrawn);
    if fatal.Some? {
      BlamedStays(log, Withdrawn, fatal.value);
    }
  }

  /** The caller's context may end at any moment. */
  method MayWithdraw(ghost tasks: seq<Task>, ghost workers: nat, ghost next: nat, ghost fatal: Option<Error>,
                     ghost cancelled: bool, was: seq<Event>, over: bool, may: bool)
      returns (log: seq<Event>, ctx: bool)
    requires Wound(tasks, workers, next, fatal, cancelled, was) && (over <==> Withdrawn in was)
    ensures Wound(tasks, workers, next, fatal, cancelled, log) && (ctx <==> Withdrawn in log)
    ensures Cancelled in log <==> Cancelled in was
    ensures log == was || (may && log == was + [Withdrawn])
  {
    log, ctx := was, over;
    var ends: bool := *;
    if ends && may && !over {
      WithdrawalKeeps(tasks, workers, next, fatal, cancelled, was);
      log, ctx := was + [Withdrawn], true;
    }
  }

  /** What no worker took is committed as interrupted. */
  method CloseRest(h: Host, tasks: seq<Task>, s: Batch) returns (log: seq<Event>, fatal: Option<Error>, ctx: bool)
    requires Wound(tasks, |s.workers|, s.next, s.fatal, s.cancelled, s.log) && (s.ctx <==> Withdrawn in s.log)
    requires (forall t :: t in tasks ==> t.Valid()) && Answered(h, s.log)
    requires s.next < |tasks| ==> s.cancelled && Cancelled in s.log
    ensures Wound(tasks, |s.workers|, |tasks|, fatal, s.cancelled, log) && (ctx <==> Withdrawn in log)
    ensures (s.fatal.Some? ==> fatal == s.fatal) && (Cancelled in s.log ==> Cancelled in log) && Answered(h, log)
  {
    var next := s.next;
    fatal := s.fatal;
    log, ctx := MayWithdraw(tasks, |s.workers|, next, fatal, s.cancelled, s.log, s.ctx, h.withdraws);
    AnsweredWithdrawal(h, s.log, log);
    while next < |tasks|
      invariant Wound(tasks, |s.workers|, next, fatal, s.cancelled, log)
      invariant next < |tasks| ==> s.cancelled && Cancelled in log
      invariant (s.fatal.Some? ==> fatal == s.fatal) && (ctx <==> Withdrawn in log)
      invariant (Cancelled in s.log ==> Cancelled in log) && Answered(h, log)
    {
      log, fatal, ctx := CloseOne(h, tasks, |s.workers|, next, fatal, log, ctx);
      next := next + 1;
    }
  }

  /** One transition of a task that nobody took. */
  method CloseOne(h: Host, tasks: seq<Task>, ghost workers: nat, next: nat, was: Option<Error>, before: seq<Event>,
                  over: bool)
      returns (log: seq<Event>, fatal: Option<Error>, ctx: bool)
    requires Wound(tasks, workers, next, was, true, before) && (over <==> Withdrawn in before) && Answered(h, before)
    requires Cancelled in before && next < |tasks| && tasks[next].Valid()
    ensures Wound(tasks, workers, next + 1, fatal, true, log) && (ctx <==> Withdrawn in log) && Answered(h, log)
    ensures Cancelled in log && (was.Some? ==> fatal == was)
  {
    var now: nat :| true;
    var error := h.closes(next);
    var t := tasks[next].(state := Interrupted, problem := NOT_STARTED, finished := Some(Some(now)));
    var e := Committed(next, t, error);
    LeaveKeeps(tasks, workers, next, was, before, e);
    AddsEvent(h, before, e);
    AnsweredMore(h, before, before + [e]);
    fatal := if was == None then error else was;
    log, ctx := MayWithdraw(tasks, workers, next + 1, fatal, true, before + [e], over, h.withdraws);
    AnsweredWithdrawal(h, before + [e], log);
  }

  lemma AnsweredWithdrawal(h: Host, before: seq<Event>, after: seq<Event>)
    requires Answered(h, before) && (after == before || (h.withdraws && after == before + [Withdrawn]))
    ensures Answered(h, after)
  {
    if after != before {
      AddsEvent(h, before, Withdrawn);
      AnsweredMore(h, before, after);
    }
  }

  /** Nothing broke in a batch whose tasks all lived calmly. */
  lemma {:induction false} CalmIsUnbroken(tasks: seq<Task>, workers: nat, log: seq<Event>)
    requires Orderly(tasks, workers, log) && forall i :: 0 <= i < |tasks| ==> Calm(Life(log, i))
    ensures !Broke(log)
  {
    LastMoment(tasks, workers, log);
    forall e | e in log && (e.Committed? || e.Finished?) ensures !Fails(e) {
      var k :| 0 <= k < |log| && log[k] == e;
      InLife(log, k);
      assert e.task < |tasks|;
    }
  }

  lemma {:induction false} InLife(log: seq<Event>, k: nat)
    requires k < |log| && !log[k].Withdrawn? && !log[k].Cancelled?
    ensures log[k] in Life(log, log[k].task)
  {
    var n := |log| - 1;
    if k < n {
      InLife(log[..n], k);
    }
  }

  /** What the batch's error says of it. */
  lemma Verdict(tasks: seq<Task>, workers: nat, fatal: Option<Error>, cancelled: bool, log: seq<Event>)
    requires Wound(tasks, workers, |tasks|, fatal, cancelled, log) && (cancelled ==> Cancelled in log)
    ensures fatal.Some? <==> Broke(log)
    ensures forall i :: 0 <= i < |tasks| ==> Whole(tasks[i], i, Life(log, i))
    ensures fatal == None && Withdrawn !in log ==>
      forall i :: 0 <= i < |tasks| ==> Fulfilled(tasks[i], i, Life(log, i))
  {
    assert forall i :: 0 <= i < |tasks| ==> AtRest(tasks[i], i, Life(log, i), fatal.Some?, cancelled);
    if fatal == None {
      CalmIsUnbroken(tasks, workers, log);
      if Withdrawn !in log && cancelled {
        NotCancelled(log);
      }
    }
  }

  lemma NotCancelled(log: seq<Event>)
    requires HeedsCancellation(log) && Withdrawn !in log && !Broke(log)
    ensures Cancelled !in log
  {
    forall k | 0 <= k < |log| ensures log[k] != Cancelled {
      assert HeedsAt(log, k);
      UnbrokenBefore(log, k);
    }
  }

  lemma UnbrokenBefore(log: seq<Event>, k: nat)
    requires k <= |log| && !Broke(log)
    ensures !Broke(log[..k])
  {
    forall e | e in log[..k] ensures !Fails(e) {
      assert e in log;
    }
  }

  /** The workers of a batch, from the first step to the last. */
  method Join(h: Host, tasks: seq<Task>, workers: nat) returns (s: Batch)
    requires (forall t :: t in tasks ==> t.Valid() && t.state == Queued) && (tasks != [] ==> workers > 0)
    ensures |s.workers| == workers && Wound(tasks, workers, s.next, s.fatal, s.cancelled, s.log)
    ensures s.next < |tasks| ==> s.cancelled
    ensures (s.cancelled <==> Cancelled in s.log) && (s.ctx <==> Withdrawn in s.log) && Answered(h, s.log)
  {
    s := Spawn(tasks, workers);
    s := Work(h, tasks, s);
    JoinedIsWound(tasks, s);
  }

  /** An acceptable batch, with so many workers. */
  method Perform(h: Host, tasks: seq<Task>, workers: nat) returns (outcome: Outcome, log: seq<Event>)
    requires (forall t :: t in tasks ==> t.Valid() && t.state == Queued) && (tasks != [] ==> workers > 0)
    ensures Orderly(tasks, workers, log) && outcome != Rejected && Answered(h, log)
    ensures Gracious(h) ==> outcome == Nil
    ensures forall i :: 0 <= i < |tasks| ==> Whole(tasks[i], i, Life(log, i))
    ensures outcome.Blames? ==> Blamed(log, outcome.why)
    ensures outcome.Blames? <==> Broke(log)
    ensures outcome == Stopped <==> !Broke(log) && Withdrawn in log
    ensures outcome == Nil ==> forall i :: 0 <= i < |tasks| ==> Fulfilled(tasks[i], i, Life(log, i))
  {
    var s := Join(h, tasks, workers);
    var fatal, ctx;
    log, fatal, ctx := CloseRest(h, tasks, s);
    Verdict(tasks, workers, fatal, s.cancelled, log);
    if Gracious(h) {
      GraciousIsUnbroken(h, log);
    }
    outcome := if fatal.Some? then Blames(fatal.value) else if ctx then Stopped else Nil;
  }

  /**
    A batch. Whatever the host answers, however the workers are scheduled and
    whenever the caller withdraws: every moment is in order; at the end every task
    has lived its whole life, so no transition is still to come. The batch is blamed on
    a hook exactly if something broke; otherwise it was stopped exactly if the caller
    withdrew, and went well exactly if not, and then every task was executed once and
    its outcome was committed. With a gracious host it goes well.
  */
  method Run(h: Host, tasks: seq<Task>, concurrency: int, hooked: bool)
    returns (outcome: Outcome, log: seq<Event>, workers: nat)
    ensures outcome == Rejected <==> !Acceptable(tasks, concurrency, hooked)
    ensures outcome == Rejected ==> log == []
    ensures Acceptable(tasks, concurrency, hooked) && Gracious(h) ==> outcome == Nil
    ensures Answered(h, log)
    ensures outcome != Rejected ==>
      Orderly(tasks, workers, log) && workers == if concurrency < |tasks| then concurrency else |tasks|
    ensures outcome != Rejected ==> forall i :: 0 <= i < |tasks| ==> Whole(tasks[i], i, Life(log, i))
    ensures outcome.Blames? ==> Blamed(log, outcome.why)
    ensures outcome != Rejected ==> (outcome.Blames? <==> Broke(log))
    ensures outcome != Rejected ==> (outcome == Stopped <==> !Broke(log) && Withdrawn in log)
    ensures outcome == Nil ==> forall i :: 0 <= i < |tasks| ==> Fulfilled(tasks[i], i, Life(log, i))
  {
    var ok := Check(tasks, concurrency, hooked);
    if !ok {
      return Rejected, [], 0;
    }
    workers := if concurrency < |tasks| then concurrency else |tasks|;
    outcome, log := Perform(h, tasks, workers);
  }
}
