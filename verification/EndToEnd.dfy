/**
  A browser run as a whole (internal/desk/agent_run.go:200-219 handed to
  internal/codexbridge/run.go:219-284): the event loop's handler is the socket's, so
  what the loop gets for its n-th call is what the n-th call of the session came
  back with.
*/
module EndToEnd {
  import opened Prelude
  import S = AgentSocket
  import T = Transcript
  import RunLoop
  import RunMeaning

  /** What the calls came back with, in turn. */
  function Returns(log: seq<S.Event>): seq<T.ToolAnswer> {
    if log == [] then []
    else
      var front, e := Returns(log[..|log| - 1]), log[|log| - 1];
      if e.Returned? then front + [e.answer] else front
  }

  /** As many calls came back as were asked and are not open, ... */
  lemma {:induction false} ReturnsSoFar(log: seq<S.Event>)
    requires !S.StageOf(log).Wrong?
    ensures |Returns(log)| == S.StageOf(log).next - if S.StageOf(log).open.Some? then 1 else 0
  {
    if log != [] {
      ReturnsSoFar(log[..|log| - 1]);
    }
  }

  /** ... each in its turn. */
  lemma {:induction false} ReturnedAt(log: seq<S.Event>, i: nat) returns (k: nat)
    requires !S.StageOf(log).Wrong? && i < |Returns(log)|
    ensures k < |log| && log[k] == S.Returned(i, Returns(log)[i])
  {
    var n := |log| - 1;
    if i < |Returns(log[..n])| {
      k := ReturnedAt(log[..n], i);
    } else {
      ReturnsSoFar(log[..n]);
      S.CallsSoFar(log[..n]);
      k := n;
    }
  }

  /** Call `i` was asked and shown, the browser gave it the one answer `a`, and it came
      back with that answer at `k`, before anything happened to a later call. */
  predicate ServedAt(log: seq<S.Event>, i: nat, a: T.ToolAnswer, k: nat) {
    && k < |log| && log[k] == S.Returned(i, a)
    && S.Asked(i) in log[..k] && S.Shown(i) in log[..k] && S.Answered(i, a) in log[..k]
    && (forall e :: e in log && e.Answered? && e.call == i ==> e.answer == a)
    && (forall e :: e in log[..k] ==> e.call <= i)
  }

  lemma {:induction false} PrefixIsRight(log: seq<S.Event>, k: nat)
    requires !S.StageOf(log).Wrong? && k <= |log|
    ensures !S.StageOf(log[..k]).Wrong?
  {
    if k < |log| {
      PrefixIsRight(log[..|log| - 1], k);
      assert log[..|log| - 1][..k] == log[..k];
    } else {
      assert log[..k] == log;
    }
  }

  lemma {:induction false} ReturnIsServed(log: seq<S.Event>, i: nat) returns (k: nat)
    requires !S.StageOf(log).Wrong? && i < |Returns(log)|
    ensures ServedAt(log, i, Returns(log)[i], k)
  {
    var a := Returns(log)[i];
    k := ReturnedAt(log, i);
    S.EachCallIsAnsweredOnce(log, k);
    OneAnswer(log, i, a, k);
    PrefixIsRight(log, k);
    PrefixIsRight(log, k + 1);
    assert log[..k + 1][..k] == log[..k];
    S.CallsSoFar(log[..k]);
    assert S.StageOf(log[..k]).open.value.call == i;
    forall e | e in log[..k] ensures e.call <= i {
      var j :| 0 <= j < k && log[..k][j] == e;
    }
  }

  lemma {:induction false} OneAnswer(log: seq<S.Event>, i: nat, a: T.ToolAnswer, k: nat)
    requires !S.StageOf(log).Wrong? && k <= |log| && S.Answered(i, a) in log[..k]
    ensures forall e :: e in log && e.Answered? && e.call == i ==> e.answer == a
  {
    var j :| 0 <= j < k && log[..k][j] == S.Answered(i, a);
    forall e | e in log && e.Answered? && e.call == i ensures e.answer == a {
      var m :| 0 <= m < |log| && log[m] == e;
      S.EachCallIsAnsweredOnce(log, m);
      S.EachCallIsAnsweredOnce(log, j);
      assert !(j < m) && !(m < j);
    }
  }

  predicate Served(log: seq<S.Event>, i: nat, a: T.ToolAnswer) {
    exists k :: 0 <= k < |log| && ServedAt(log, i, a, k)
  }

  /**
    The loop and the socket, with any transcript, any input from the browser, any
    interleaving and any end. Every answer that is sent is the browser's one answer to
    that very call, which was shown to it before; it goes back under the RPC id of that
    call; and nothing happened to a later call by then.
  */
  method BrowserRun(faults: seq<RunLoop.Fault>, frames: seq<T.Frame>, r: T.Request)
      returns (verdict: RunLoop.Verdict, seen: seq<T.Frame>, v: RunLoop.Vars, log: seq<S.Event>)
    ensures seen <= frames && RunLoop.Over(v, seen, r) && S.StageOf(log).Stage?
    ensures |v.sent| <= |v.asked|
    ensures forall i :: 0 <= i < |v.sent| ==>
              RunMeaning.AnswersACall(v, seen, i) && Served(log, i, v.sent[i].answer)
  {
    log := S.Session(T.Limit(r));
    verdict, seen, v := RunLoop.EventLoop(Returns(log), faults, frames, r);
    RunMeaning.EveryAnswerIsToItsCall(v, seen, r);
    forall i | 0 <= i < |v.sent|
      ensures RunMeaning.AnswersACall(v, seen, i) && Served(log, i, v.sent[i].answer) {
      assert v.sent[i].answer == v.answers[i] == Returns(log)[i];
      var k := ReturnIsServed(log, i);
    }
  }
}
