/**
  The tool calls of one browser run (internal/desk/agent_run.go): the handler
  goroutine shows a call to the browser and waits, the reader goroutine hands it
  the browser's answer. They share one pending id and one answer channel under a
  mutex; the channel has room for one answer.

  `Session` interleaves the two in any order, with any input from the browser and
  a cancellation at any point. What comes out is proved to be what one thread
  would do, call after call (`Stage`), and so each call is answered once with the
  browser's result for that very call (`EachCallIsAnsweredOnce`).
*/
module AgentSocket {
  import opened Prelude
  import Transcript

  type ToolAnswer = Transcript.ToolAnswer

  /** A decoded message of the browser; `Broken` is a read error, a cancel
      or anything else that is no answer to a call of this run. */
  datatype Input = Broken | ToolResult(call: nat, answer: ToolAnswer)

  const MAX_ANSWER := 0x10_0000

  datatype Event =
    | Asked(call: nat)
    | Shown(call: nat)
    | Answered(call: nat, answer: ToolAnswer)
    | Returned(call: nat, answer: ToolAnswer)
    | Busy(call: nat)

  // ---- One call after another --------------------------------------------------

  datatype Open = Open(call: nat, shown: bool, answer: Option<ToolAnswer>)
  /** `next` calls were asked, and the last of them may be open. */
  datatype Stage = Stage(next: nat, open: Option<Open>) | Wrong

  function Then(g: Stage, e: Event): Stage {
    if g.Wrong? then Wrong
    else if e.Asked? then
      if g.open == None && e.call == g.next then Stage(g.next + 1, Some(Open(e.call, false, None))) else Wrong
    else if g.open == None || g.open.value.call != e.call then Wrong
    else
      var o := g.open.value;
      match e
      case Shown(_) => if o.shown then Wrong else g.(open := Some(o.(shown := true)))
      case Answered(_, a) => if o.answer.Some? then Wrong else g.(open := Some(o.(answer := Some(a))))
      case Returned(_, a) => if o.shown && o.answer == Some(a) then g.(open := None) else Wrong
      case Busy(_) => Wrong
  }

  function StageOf(log: seq<Event>): Stage {
    if log == [] then Stage(0, None) else Then(StageOf(log[..|log| - 1]), log[|log| - 1])
  }

  lemma {:induction false} OneMore(log: seq<Event>, e: Event)
    ensures StageOf(log + [e]) == Then(StageOf(log), e)
  {
    assert (log + [e])[..|log|] == log;
  }

  lemma {:induction false} CallsSoFar(log: seq<Event>)
    requires !StageOf(log).Wrong?
    ensures forall k :: 0 <= k < |log| ==> log[k].call < StageOf(log).next
    ensures StageOf(log).open.Some? ==> StageOf(log).open.value.call + 1 == StageOf(log).next
  {
    if log != [] {
      var n := |log| - 1;
      CallsSoFar(log[..n]);
      assert forall k :: 0 <= k < n ==> log[..n][k] == log[k];
    }
  }

  /** What has happened to the open call. */
  predicate Tells(log: seq<Event>, o: Open) {
    && Asked(o.call) in log && (o.shown <==> Shown(o.call) in log)
    && (o.answer.Some? ==> Answered(o.call, o.answer.value) in log)
    && (forall e :: e in log && e.call == o.call && e.Answered? ==> o.answer.Some?)
    && (forall e :: e in log && e.call == o.call ==> !e.Returned?)
  }

  lemma {:induction false} OpenSoFar(log: seq<Event>)
    requires !StageOf(log).Wrong? && StageOf(log).open.Some?
    ensures Tells(log, StageOf(log).open.value)
  {
    var n := |log| - 1;
    var before := StageOf(log[..n]);
    assert log == log[..n] + [log[n]];
    if before.open.Some? {
      OpenSoFar(log[..n]);
    } else {
      CallsSoFar(log[..n]);
    }
  }

  /** Event `e` comes once, and a result only after the call was shown and the
      browser answered it with that result. */
  predicate Fits(before: seq<Event>, e: Event) {
    && !e.Busy?
    && (forall f :: f in before && SameKind(e, f) ==> f.call != e.call)
    && (e.Returned? ==> Asked(e.call) in before && Shown(e.call) in before && Answered(e.call, e.answer) in before)
  }

  lemma {:induction false} LastFits(before: seq<Event>, e: Event)
    requires !Then(StageOf(before), e).Wrong?
    ensures Fits(before, e)
  {
    CallsSoFar(before);
    if StageOf(before).open.Some? {
      OpenSoFar(before);
    }
    forall f | f in before && SameKind(e, f) ensures f.call != e.call {
      var k :| 0 <= k < |before| && before[k] == f;
    }
  }

  lemma {:induction false} EachCallIsAnsweredOnce(log: seq<Event>, k: nat)
    requires !StageOf(log).Wrong? && k < |log|
    ensures Fits(log[..k], log[k])
  {
    var n := |log| - 1;
    if k == n {
      LastFits(log[..n], log[n]);
    } else {
      EachCallIsAnsweredOnce(log[..n], k);
      assert log[..n][..k] == log[..k];
    }
  }

  predicate SameKind(e: Event, f: Event) {
    || (e.Asked? && f.Asked?) || (e.Shown? && f.Shown?)
    || (e.Answered? && f.Answered?) || (e.Returned? && f.Returned?)
  }

  // ---- Two goroutines -----------------------------------------------------------

  /** The handler is `Away` between two calls and `Over` when the run has ended. */
  datatype Handler = Away | Showing(call: nat, waiter: nat) | Waiting(call: nat, waiter: nat) | Over
  datatype Reader = Reading | Handing(waiter: nat, answer: ToolAnswer) | Gone

  /** `buffers` are the channels made so far; `done` is the session's context. */
  datatype Shared = Shared(pending: Option<nat>, waiter: Option<nat>, buffers: seq<seq<ToolAnswer>>, done: bool,
                           handler: Handler, reader: Reader, calls: nat, log: seq<Event>)

  /** Where the answer of open call `o` is when its channel is `w`. */
  predicate Awaits(s: Shared, o: Open, w: nat) {
    && w < |s.buffers|
    && match o.answer
       case None => s.pending == Some(o.call) && s.waiter == Some(w) && s.buffers[w] == [] && !s.reader.Handing?
       case Some(a) =>
         && s.pending == None
         && if s.reader.Handing? then s.reader == Handing(w, a) && s.buffers[w] == [] else s.buffers[w] == [a]
  }

  ghost predicate Inv(s: Shared) {
    var g := StageOf(s.log);
    && g.Stage? && g.next == s.calls
    && (s.reader.Gone? ==> s.done)
    && (g.open == None ==> s.pending == None && !s.reader.Handing?)
    && match s.handler
       case Away => g.open == None
       case Showing(call, w) =>
         g.open.Some? && g.open.value.call == call && !g.open.value.shown && Awaits(s, g.open.value, w)
       case Waiting(call, w) =>
         g.open.Some? && g.open.value.call == call && g.open.value.shown && Awaits(s, g.open.value, w)
       case Over => g.open == None || exists w :: Awaits(s, g.open.value, w)
  }

  /** The handler while the run continues; `limit` is the run's own bound on calls. It may
      `go` on: make another call, have it shown, and wait for the answer even though the
      session is over. Without a reason to end it returns what the browser answered. */
  method Handle(s: Shared, limit: nat, go: bool) returns (t: Shared)
    requires Inv(s) && !s.handler.Over? && s.calls <= limit
    requires s.handler.Waiting? ==> s.done || s.buffers[s.handler.waiter] != []
    ensures Inv(t) && t.calls <= limit && t.reader == s.reader && t.done == s.done
    ensures Left(limit, t) < Left(limit, s)
    ensures if t.handler.Over? then t == s.(handler := Over) else t.log == s.log + Said(s)
    ensures t.handler.Over? <==> match s.handler
      case Away => !go || s.calls == limit
      case Showing(_, _) => !go
      case Waiting(_, w) => s.done && (!go || s.buffers[w] == [])
      case Over => true
  {
    match s.handler
    case Away =>
      if go && s.calls < limit {
        t := Ask(s);
      } else {
        t := s.(handler := Over);
      }
    case Showing(_, _) =>
      t := Show(s, go);
    case Waiting(_, _) =>
      t := Await(s, go);
  }

  /** The call is sent to the browser, or cannot be. */
  method Show(s: Shared, sent: bool) returns (t: Shared)
    requires Inv(s) && s.handler.Showing?
    ensures Inv(t)
    ensures var Showing(call, w) := s.handler;
      t == if sent then s.(handler := Waiting(call, w), log := s.log + [Shown(call)]) else s.(handler := Over)
  {
    var Showing(call, w) := s.handler;
    if sent {
      t := s.(handler := Waiting(call, w), log := s.log + [Shown(call)]);
      OneMore(s.log, Shown(call));
    } else {
      t := s.(handler := Over);
      assert Awaits(t, StageOf(s.log).open.value, w);
    }
  }

  /** The select of a handler that waits. */
  method Await(s: Shared, go: bool) returns (t: Shared)
    requires Inv(s) && s.handler.Waiting? && (s.done || s.buffers[s.handler.waiter] != [])
    ensures Inv(t) && t.reader == s.reader && t.done == s.done && t.calls == s.calls && t.pending == s.pending
    ensures if s.done && (!go || s.buffers[s.handler.waiter] == []) then t == s.(handler := Over)
            else t.handler.Away? && t.log == s.log + Said(s)
  {
    var Waiting(call, w) := s.handler;
    if s.done && (!go || s.buffers[w] == []) {
      t := s.(handler := Over);
      assert Awaits(t, StageOf(s.log).open.value, w);
    } else {
      var e := Returned(call, s.buffers[w][0]);
      t := s.(handler := Away, buffers := s.buffers[w := []], log := s.log + [e]);
      OneMore(s.log, e);
    }
  }

  /** What the handler's next step tells. */
  function Said(s: Shared): seq<Event> {
    match s.handler
    case Away => [Asked(s.calls)]
    case Showing(call, _) => [Shown(call)]
    case Waiting(call, w) => if w < |s.buffers| && s.buffers[w] != [] then [Returned(call, s.buffers[w][0])] else []
    case Over => []
  }

  /** A new call, under an id of its own: the handler's locked section. */
  method Ask(s: Shared) returns (t: Shared)
    requires Inv(s) && s.handler.Away?
    ensures Inv(t)
    ensures t == s.(pending := Some(s.calls), waiter := Some(|s.buffers|), buffers := s.buffers + [[]],
                    handler := Showing(s.calls, |s.buffers|), calls := s.calls + 1, log := s.log + [Asked(s.calls)])
  {
    var call, w := s.calls, |s.buffers|;
    t := s.(buffers := s.buffers + [[]], calls := call + 1);
    if t.pending != None {
      t := t.(handler := Over, log := t.log + [Busy(call)]);
    } else {
      t := t.(pending := Some(call), waiter := Some(w), handler := Showing(call, w), log := t.log + [Asked(call)]);
    }
    OneMore(s.log, Asked(call));
  }

  /** What the browser may send while call `pending` waits. */
  predicate Matches(input: Input, pending: Option<nat>) {
    input.ToolResult? && |input.answer.text| <= MAX_ANSWER && pending == Some(input.call)
  }

  /** The reader's step: read `input` and match it under the lock, or hand over.
      Anything but the one answer that is waited for ends the session. */
  method Read(s: Shared, limit: nat, input: Input) returns (t: Shared)
    requires Inv(s) && !s.reader.Gone? && s.calls <= limit
    ensures Inv(t) && t.handler == s.handler && t.calls == s.calls
    ensures t.done == (s.done || t.reader.Gone?) && (t.reader.Gone? <==> s.reader.Reading? && !Matches(input, s.pending))
    ensures t.log == s.log
        + if s.reader.Reading? && Matches(input, s.pending) then [Answered(input.call, input.answer)] else []
    ensures s.reader.Reading? && s.pending.Some? && input.ToolResult? && input.call == s.pending.value
            && |input.answer.text| <= 0x10_0000 ==>
      t.reader.Handing? && t.reader.answer == input.answer && t.pending == None && t.done == s.done
    ensures s.reader.Handing? ==>
      t.reader.Reading? && t == s.(reader := Reading, buffers := t.buffers) && |t.buffers| == |s.buffers|
      && t.buffers[s.reader.waiter] == [s.reader.answer]
    ensures Left(limit, t) < Left(limit, s)
  {
    match s.reader
    case Handing(w, a) =>
      HandingIsRoomy(s);
      var buffer := Send(s.buffers[w], a);
      t := s.(buffers := s.buffers[w := buffer], reader := Reading);
      if s.handler.Over? {
        assert Awaits(t, StageOf(s.log).open.value, w);
      }
    case Reading =>
      if !input.ToolResult? || |input.answer.text| > MAX_ANSWER || s.pending != Some(input.call) {
        t := s.(reader := Gone, done := true);
        if s.handler.Over? && StageOf(s.log).open.Some? {
          var w :| Awaits(s, StageOf(s.log).open.value, w);
          assert Awaits(t, StageOf(s.log).open.value, w);
        }
      } else {
        PendingIsOpen(s);
        var e := Answered(input.call, input.answer);
        t := s.(reader := Handing(s.waiter.value, input.answer), pending := None, waiter := None, log := s.log + [e]);
        OneMore(s.log, e);
        if s.handler.Over? {
          assert Awaits(t, StageOf(t.log).open.value, s.waiter.value);
        }
      }
  }

  lemma PendingIsOpen(s: Shared)
    requires Inv(s) && s.pending.Some?
    ensures var g := StageOf(s.log);
      g.open.Some? && g.open.value.call == s.pending.value && s.waiter.Some? && Awaits(s, g.open.value, s.waiter.value)
  {
  }

  lemma HandingIsRoomy(s: Shared)
    requires Inv(s) && s.reader.Handing?
    ensures s.reader.waiter < |s.buffers| && s.buffers[s.reader.waiter] == []
    ensures StageOf(s.log).open.Some? && Awaits(s, StageOf(s.log).open.value, s.reader.waiter)
  {
  }

  /** `waiter <- answer`. The channel has room for one: it must be empty for the reader not to block. */
  method Send(buffer: seq<ToolAnswer>, a: ToolAnswer) returns (r: seq<ToolAnswer>)
    requires buffer == []
    ensures r == [a]
  {
    r := buffer + [a];
  }

  function Left(limit: nat, s: Shared): int {
    6 * (limit - s.calls)
    + (match s.handler case Over => 0 case Away => 1 case Waiting(_, _) => 2 case Showing(_, _) => 3)
    + (match s.reader case Gone => 0 case Reading => 1 case Handing(_, _) => 2)
    + (if s.pending.Some? then 2 else 0)
  }

  /**
    A session, until the run and the reader have ended. The two always end: while
    one of them has not, one can step. No answer is lost in a full channel, and
    the handler is never told that another call is pending.
  */
  method Session(limit: nat) returns (log: seq<Event>)
    ensures StageOf(log).Stage? && StageOf(log).next <= limit
  {
    var s := Shared(None, None, [], false, Away, Reading, 0, []);
    while !(s.handler.Over? && s.reader.Gone?)
      invariant Inv(s) && s.calls <= limit
      decreases Left(limit, s) + if s.done then 0 else 1
    {
      var handler: bool, outside: bool := *, *;
      var ready := !s.handler.Over? && (s.handler.Waiting? ==> s.done || s.buffers[s.handler.waiter] != []);
      if outside && !s.done {
        if s.handler.Over? && StageOf(s.log).open.Some? {
          ghost var w :| Awaits(s, StageOf(s.log).open.value, w);
          assert Awaits(s.(done := true), StageOf(s.log).open.value, w);
        }
        s := s.(done := true);
      } else if ready && (handler || s.reader.Gone?) {
        var go: bool := *;
        s := Handle(s, limit, go);
      } else {
        var input: Input := *;
        s := Read(s, limit, input);
      }
    }
    return s.log;
  }
}
