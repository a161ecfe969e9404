/**
  The RPC client (internal/codexbridge/protocol.go): callers register a waiter
  under a number of their own and send; one reader hands each response to the
  waiter of its number. Every method below is one step that the source makes
  atomic by a mutex, a channel or a single goroutine, so what all of them keep
  holds under every interleaving of the callers and the reader.

  A waiter gets at most one frame, and it is the one that answers its call; so the
  reader never blocks on it. A response nobody waits for stops the client.
*/
module Client {
  import opened Prelude

  /** The id of a frame; `Foreign` is text this client never sends. */
  datatype FrameID = Absent | Number(n: nat) | Foreign
  datatype ErrorMember = NoError | NullError | SomeError
  /** A scanned line: whether it has a method and a result, and `body` for all it says. */
  datatype Frame = Frame(id: FrameID, named: bool, hasResult: bool, error: ErrorMember, body: nat)

  const OUTSTANDING := 64
  const EVENTS := 64

  predicate IsResponse(f: Frame) {
    !f.named && !f.id.Absent?
  }

  datatype Outcome = Answered(frame: Frame) | Upstream | Unavailable | Context
  datatype Phase = Registered | Waiting | Leaving(outcome: Outcome) | Returned(outcome: Outcome)

  /** One call in progress, with its channel of room for one frame. */
  class Call {
    const id: nat
    var buffer: Option<Frame>
    var phase: Phase
    var cancelled: bool

    constructor (id: nat)
      ensures this.id == id && buffer == None && phase == Registered && !cancelled
    {
      this.id, buffer, phase, cancelled := id, None, Registered, false;
    }
  }

  lemma AddKey<V>(m: map<nat, V>, n: nat, v: V)
    ensures m[n := v].Keys == m.Keys + {n}
  {
  }

  datatype Reader = Reading | Handing(call: Call, frame: Frame) | Broken

  class Client {
    var next: nat
    var pending: map<nat, Call>
    var events: seq<Frame>
    var done: bool
    var reader: Reader
    /** Every call there was, the response each number got, and the notices so far. */
    ghost var calls: map<nat, Call>
    ghost var answers: map<nat, Frame>
    ghost var notices: seq<Frame>
    ghost var consumed: seq<Frame>

    ghost predicate Valid()
      reads this, calls.Values
    {
      Table() && Fair() && Queue() && (reader.Handing? ==> Known(reader.call) && Hands(reader.call, reader.frame))
    }

    ghost predicate Known(c: Call)
      reads this`calls
    {
      c.id in calls && calls[c.id] == c
    }

    /** Who waits has had no answer; numbers are given out once. */
    ghost predicate Table()
      reads this`pending, this`calls, this`answers, this`next
    {
      && |pending| <= OUTSTANDING
      && (forall n :: n in pending ==> n !in answers && n in calls && calls[n] == pending[n])
      && (forall n :: n in calls ==> n <= next && calls[n].id == n)
      && (forall n :: n in answers ==> n <= next && answers[n].id == Number(n))
    }

    ghost predicate Fair()
      reads this`calls, this`answers, calls.Values
    {
      forall n :: n in calls ==> Sound(calls[n], answers)
    }

    /** A call has at most one frame, and it is the one that answered its number. */
    static ghost predicate Sound(c: Call, answers: map<nat, Frame>)
      reads c
    {
      && (c.buffer.Some? ==> c.id in answers && c.buffer.value == answers[c.id])
      && (c.phase.Leaving? || c.phase.Returned? ==>
            (c.phase.outcome.Answered? ==> c.id in answers && answers[c.id] == c.phase.outcome.frame))
    }

    ghost predicate Queue()
      reads this`events, this`consumed, this`notices
    {
      |events| <= EVENTS && consumed + events == notices
    }

    /** The reader is about to give `f` to `c`, whose channel is empty. */
    ghost predicate Hands(c: Call, f: Frame)
      reads this`answers, c
    {
      c.buffer == None && c.id in answers && answers[c.id] == f
    }

    constructor ()
      ensures Valid() && !done && calls == map[] && answers == map[] && reader == Reading
      ensures pending == map[] && notices == [] && consumed == []
    {
      next, pending, events, done, reader := 0, map[], [], false, Reading;
      calls, answers, notices, consumed := map[], map[], [], [];
    }

    // ---- The callers --------------------------------------------------------------

    /** The next number and a waiter under it, unless 64 calls are unanswered. */
    method Register() returns (c: Call?)
      requires Valid()
      modifies this`next, this`pending, this`calls
      ensures Valid() && next == old(next) + 1
      ensures c == null <==> |old(pending)| >= OUTSTANDING
      ensures c == null ==> pending == old(pending) && calls == old(calls)
      ensures c != null ==> fresh(c) && c.id == next && c.phase == Registered && next !in old(calls)
      ensures c != null ==> pending == old(pending)[next := c] && calls == old(calls)[next := c]
      ensures c != null ==> pending.Keys == old(pending.Keys) + {next} && calls.Keys == old(calls.Keys) + {next}
    {
      next := next + 1;
      if |pending| >= OUTSTANDING {
        return null;
      }
      c := new Call(next);
      AddKey(pending, next, c);
      AddKey(calls, next, c);
      Enter(c);
    }

    method Enter(c: Call)
      requires Valid() && |pending| < OUTSTANDING
      requires c.id == next && next !in calls && next !in answers && c.buffer == None && c.phase == Registered
      modifies this`pending, this`calls
      ensures Valid() && pending == old(pending)[next := c] && calls == old(calls)[next := c]
    {
      pending := pending[next := c];
      calls := calls[next := c];
    }

    /** The request is written, or it is not and the call ends. */
    method Send(c: Call, oversized: bool, written: bool)
      requires Valid() && Known(c) && c.phase == Registered
      modifies this`done, c`phase
      ensures Valid()
      ensures c.phase == if oversized then Leaving(Upstream)
                         else if old(done) || !written then Leaving(Unavailable) else Waiting
      ensures done == (old(done) || (!oversized && !written))
    {
      if oversized {
        c.phase := Leaving(Upstream);
      } else if done {
        c.phase := Leaving(Unavailable);
      } else if !written {
        Stop();
        c.phase := Leaving(Unavailable);
      } else {
        c.phase := Waiting;
      }
    }

    /** The call's context ends, and with it the client. */
    method CancelCall(c: Call)
      requires Valid() && Known(c)
      modifies this`done, c`cancelled
      ensures Valid() && done && c.cancelled
    {
      c.cancelled := true;
      Stop();
    }

    /** The select of a caller. One case has to be ready, and any ready one may be taken. While
        the call is not cancelled and the client not stopped, the frame says what it comes to. */
    method Select(c: Call, choice: nat, decodes: bool)
      requires Valid() && Known(c) && c.phase == Waiting && (c.buffer.Some? || c.cancelled || done)
      modifies c`phase, c`buffer
      ensures Valid() && c.phase.Leaving?
      ensures c.phase.outcome.Answered? ==>
        old(c.buffer) == Some(c.phase.outcome.frame) && c.phase.outcome.frame.id == Number(c.id)
      ensures c.phase.outcome.Answered? ==>
        !c.cancelled && old(c.buffer).value.error != SomeError && decodes
      ensures c.phase.outcome.Upstream? ==>
        !c.cancelled && old(c.buffer).Some? && old(c.buffer).value.error == SomeError
      ensures c.phase.outcome.Unavailable? ==>
        done || (!c.cancelled && old(c.buffer).Some? && old(c.buffer).value.error != SomeError && !decodes)
      ensures c.phase.outcome.Context? ==> c.cancelled
      ensures choice == 0 && old(c.buffer).Some? && !c.cancelled ==>
        (c.phase.outcome.Unavailable? ==> old(c.buffer).value.error != SomeError && !decodes)
      ensures c.cancelled && (!done || choice == 1 || (choice == 0 && old(c.buffer).Some?)) ==> c.phase.outcome == Context
      ensures done && choice > 1 ==> c.phase.outcome == Unavailable
    {
      if c.buffer.Some? && (choice == 0 || !(c.cancelled || done)) {
        var f := c.buffer.value;
        c.buffer := None;
        c.phase := Leaving(
          if c.cancelled then Context
          else if f.error == SomeError then Upstream
          else if !decodes then Unavailable
          else Answered(f));
      } else if c.cancelled && (choice == 1 || !done) {
        c.phase := Leaving(Context);
      } else {
        c.phase := Leaving(Unavailable);
      }
    }

    method Unlist(n: nat)
      requires Valid()
      modifies this`pending
      ensures Valid() && pending == old(pending) - {n} && pending.Keys == old(pending).Keys - {n}
    {
      pending := pending - {n};
    }

    /** The deferred removal, and the return. */
    method Return(c: Call) returns (outcome: Outcome)
      requires Valid() && Known(c) && c.phase.Leaving?
      modifies this`pending, c`phase
      ensures Valid() && pending == old(pending) - {c.id} && outcome == old(c.phase.outcome) && c.phase == Returned(outcome)
      ensures outcome.Answered? ==> outcome.frame.id == Number(c.id) && c.id in answers && answers[c.id] == outcome.frame
    {
      outcome := c.phase.outcome;
      c.phase := Returned(outcome);
      Unlist(c.id);
    }

    method TakeEvent() returns (f: Frame)
      requires Valid() && events != []
      modifies this`events, this`consumed
      ensures Valid() && old(events) == [f] + events && consumed == old(consumed) + [f]
    {
      f := events[0];
      events, consumed := events[1..], consumed + [f];
    }

    method Stop()
      requires Valid()
      modifies this`done
      ensures Valid() && done
    {
      done := true;
    }

    // ---- The reader -----------------------------------------------------------------

    /** The loop is left; so it is too if the output ends or a line is not a frame. */
    method Break()
      requires Valid() && reader == Reading
      modifies this`reader
      ensures Valid() && reader == Broken
    {
      reader := Broken;
    }

    /** A response was scanned: it takes its waiter out of the table under the mutex.
        If there is none, or the response says nothing, this is the end. */
    method Match(f: Frame)
      requires Valid() && reader == Reading && IsResponse(f)
      modifies this`pending, this`reader, this`answers
      ensures Valid()
      ensures if f.id.Number? && f.id.n in old(pending) && (f.hasResult || f.error != NoError)
        then reader == Handing(old(pending)[f.id.n], f) && answers == old(answers)[f.id.n := f] && f.id.n !in old(answers)
        else reader == Broken && answers == old(answers)
      ensures f.id.Number? && f.id.n in old(answers) ==> reader == Broken
      ensures pending.Keys == old(pending).Keys - if f.id.Number? then {f.id.n} else {}
    {
      if !f.id.Number? || f.id.n !in pending {
        Break();
        return;
      }
      var waiter := pending[f.id.n];
      Unlist(f.id.n);
      if !f.hasResult && f.error == NoError {
        Break();
      } else {
        Answer(waiter, f);
      }
    }

    /** The first response to a call, on its way. */
    method Answer(c: Call, f: Frame)
      requires Valid() && Known(c) && f.id == Number(c.id) && c.id !in answers && c.id !in pending
      modifies this`reader, this`answers
      ensures Valid() && reader == Handing(c, f) && answers == old(answers)[c.id := f]
    {
      assert Sound(calls[c.id], answers);
      forall n | n in calls ensures Sound(calls[n], answers[c.id := f]) {
        assert Sound(calls[n], answers);
      }
      answers := answers[c.id := f];
      reader := Handing(c, f);
    }

    /** Anything else that was scanned is queued if it has a name and there is room. */
    method Enqueue(f: Frame, closing: bool)
      requires Valid() && reader == Reading && !IsResponse(f)
      modifies this`reader, this`events, this`notices
      ensures Valid() && (reader == Reading || reader == Broken)
      ensures if reader == Reading then f.named && |old(events)| < EVENTS && notices == old(notices) + [f]
              else notices == old(notices)
      ensures reader == Reading <==> f.named && |old(events)| < EVENTS && !(closing && done)
    {
      if f.named && |events| < EVENTS && !(closing && done) {
        events, notices := events + [f], notices + [f];
      } else {
        reader := Broken;
      }
    }

    /** `waiter <- f`: the channel is empty, so this does not block. */
    method Hand()
      requires Valid() && reader.Handing?
      modifies this`reader, reader.call`buffer
      ensures Valid() && reader == Reading
      ensures old(reader.call.buffer) == None && old(reader).call.buffer == Some(old(reader).frame)
    {
      var c, f := reader.call, reader.frame;
      assert c.buffer == None;
      c.buffer := Some(f);
      reader := Reading;
    }

    /** After the loop the client stops; whoever waits can go (`Released`). */
    method End()
      requires Valid() && reader == Broken
      modifies this`done
      ensures Valid() && done
    {
      Stop();
    }
  }

  // ---- What may happen, and in what order ---------------------------------------------------

  /** `Line` is a frame that the reader scanned; it goes on after it, or that was the last.
      `Cut` is the end of the output, `Stopped` the end of the client for whatever reason. */
  datatype Event = Asked(id: nat) | Refused | Line(frame: Frame, on: bool) | Cut | Noticed(frame: Frame)
    | Came(id: nat, outcome: Outcome) | Stopped

  /** The state of affairs after some events: who asked, who waits for an answer, the
      answers, whose call came back, the notices and how many of them were taken. */
  datatype Book = Book(asked: set<nat>, waiting: set<nat>, answers: map<nat, Frame>, back: set<nat>,
                       notices: seq<Frame>, noticed: nat, flowing: bool, stopped: bool)

  const BLANK := Book({}, {}, map[], {}, [], 0, true, false)

  /** The frame ends the reading: a response that nobody waits for or that says nothing, a
      frame without a name, or a notice for which there is no room. */
  predicate Ends(b: Book, f: Frame) {
    if IsResponse(f) then !f.id.Number? || f.id.n !in b.waiting || (!f.hasResult && f.error == NoError)
    else !f.named || |b.notices| - b.noticed >= EVENTS
  }

  predicate Allowed(b: Book, e: Event) {
    match e
    case Asked(id) => id !in b.asked && |b.waiting| < OUTSTANDING
    case Refused => |b.waiting| == OUTSTANDING
    case Line(f, on) => b.flowing && (Ends(b, f) ==> !on) && (!on ==> Ends(b, f) || (!IsResponse(f) && b.stopped))
    case Cut => b.flowing
    case Noticed(f) => b.noticed < |b.notices| && b.notices[b.noticed] == f
    case Came(id, o) =>
      id in b.asked && id !in b.back && (o.Answered? ==> id in b.answers && b.answers[id] == o.frame)
    case Stopped => !b.stopped
  }

  function Turn(b: Book, e: Event): Book {
    match e
    case Asked(id) => b.(asked := b.asked + {id}, waiting := b.waiting + {id})
    case Refused => b
    case Line(f, on) => Heard(b.(flowing := on), f, on)
    case Cut => b.(flowing := false)
    case Noticed(_) => b.(noticed := b.noticed + 1)
    case Came(id, _) => b.(waiting := b.waiting - {id}, back := b.back + {id})
    case Stopped => b.(stopped := true)
  }

  function Heard(b: Book, f: Frame, on: bool): Book {
    if !IsResponse(f) then (if on then b.(notices := b.notices + [f]) else b)
    else if !f.id.Number? then b
    else b.(waiting := b.waiting - {f.id.n}, answers := if on then b.answers[f.id.n := f] else b.answers)
  }

  function After(log: seq<Event>): Book {
    if log == [] then BLANK else Turn(After(log[..|log| - 1]), log[|log| - 1])
  }

  predicate AllowedAt(log: seq<Event>, k: nat)
    requires k < |log|
  {
    Allowed(After(log[..k]), log[k])
  }

  predicate Lawful(log: seq<Event>) {
    forall k :: 0 <= k < |log| ==> AllowedAt(log, k)
  }

  lemma Append(log: seq<Event>, e: Event)
    requires Lawful(log) && Allowed(After(log), e)
    ensures Lawful(log + [e]) && After(log + [e]) == Turn(After(log), e)
  {
    var longer := log + [e];
    assert longer[..|log|] == log;
    forall k | 0 <= k < |longer| ensures AllowedAt(longer, k) {
      if k < |log| {
        assert longer[..k] == log[..k] && AllowedAt(log, k);
      }
    }
  }

  // ---- What a lawful history means ----------------------------------------------------------

  lemma {:induction false} AfterNext(log: seq<Event>, k: nat)
    requires k < |log|
    ensures After(log[..k + 1]) == Turn(After(log[..k]), log[k])
  {
    assert log[..k + 1][..k] == log[..k];
  }

  predicate WasAsked(log: seq<Event>, k: nat, id: nat)
    requires k <= |log|
  {
    exists j :: 0 <= j < k && log[j] == Asked(id)
  }

  predicate IsBack(log: seq<Event>, k: nat, id: nat)
    requires k <= |log|
  {
    exists j :: 0 <= j < k && log[j].Came? && log[j].id == id
  }

  /** A response of that number was scanned after it was asked. */
  predicate IsAnswered(log: seq<Event>, k: nat, id: nat)
    requires k <= |log|
  {
    exists j :: 0 <= j < k && Responds(log[j], id) && WasAsked(log, j, id)
  }

  predicate Responds(e: Event, id: nat) {
    e.Line? && IsResponse(e.frame) && e.frame.id == Number(id)
  }

  lemma {:induction false} AskedMeans(log: seq<Event>, k: nat, id: nat)
    requires k <= |log|
    ensures id in After(log[..k]).asked <==> WasAsked(log, k, id)
  {
    if k > 0 {
      AskedMeans(log, k - 1, id);
      AfterNext(log, k - 1);
      var e := log[k - 1];
      assert id in After(log[..k]).asked <==> id in After(log[..k - 1]).asked || e == Asked(id);
    }
  }

  lemma {:induction false} BackMeans(log: seq<Event>, k: nat, id: nat)
    requires k <= |log|
    ensures id in After(log[..k]).back <==> IsBack(log, k, id)
  {
    if k > 0 {
      BackMeans(log, k - 1, id);
      AfterNext(log, k - 1);
      var e := log[k - 1];
      assert id in After(log[..k]).back <==> id in After(log[..k - 1]).back || (e.Came? && e.id == id);
    }
  }

  predicate Waits(log: seq<Event>, k: nat, id: nat)
    requires k <= |log|
  {
    WasAsked(log, k, id) && !IsAnswered(log, k, id) && !IsBack(log, k, id)
  }

  lemma PastNext(log: seq<Event>, k: nat, id: nat)
    requires k < |log|
    ensures WasAsked(log, k + 1, id) <==> WasAsked(log, k, id) || log[k] == Asked(id)
    ensures IsBack(log, k + 1, id) <==> IsBack(log, k, id) || (log[k].Came? && log[k].id == id)
    ensures IsAnswered(log, k + 1, id) <==> IsAnswered(log, k, id) || (Responds(log[k], id) && WasAsked(log, k, id))
  {
  }

  /** Who waits has asked, has had no response and has not come back. */
  lemma {:induction false} WaitingMeans(log: seq<Event>, k: nat, id: nat)
    requires Lawful(log) && k <= |log|
    ensures id in After(log[..k]).waiting <==> Waits(log, k, id)
  {
    if k > 0 {
      WaitingMeans(log, k - 1, id);
      AfterNext(log, k - 1);
      WaitingNext(After(log[..k - 1]), log[k - 1], id);
      PastNext(log, k - 1, id);
      if log[k - 1] == Asked(id) {
        NotBefore(log, k - 1, id);
      }
    }
  }

  lemma {:induction false} FewWait(log: seq<Event>, k: nat)
    requires Lawful(log) && k <= |log|
    ensures |After(log[..k]).waiting| <= OUTSTANDING
  {
    if k > 0 {
      FewWait(log, k - 1);
      AfterNext(log, k - 1);
      assert AllowedAt(log, k - 1);
      WaitingNext(After(log[..k - 1]), log[k - 1], 0);
    }
  }

  lemma WaitingNext(b: Book, e: Event, id: nat)
    ensures id in Turn(b, e).waiting <==>
              e == Asked(id) || (id in b.waiting && !Responds(e, id) && !(e.Came? && e.id == id))
    ensures |Turn(b, e).waiting| <= |b.waiting| + if e.Asked? then 1 else 0
  {
    match e
    case Line(f, on) =>
      if IsResponse(f) && f.id.Number? {
        Fewer(b.waiting, f.id.n);
      }
    case Came(n, _) => Fewer(b.waiting, n);
    case _ =>
  }

  lemma Fewer(s: set<nat>, n: nat)
    ensures |s - {n}| <= |s|
  {
    if n in s {
      assert |s - {n}| == |s| - 1;
    } else {
      assert s - {n} == s;
    }
  }

  /** Nothing came of a call before it was asked. */
  lemma {:induction false} NotBefore(log: seq<Event>, k: nat, id: nat)
    requires Lawful(log) && k < |log| && log[k] == Asked(id)
    ensures !WasAsked(log, k, id) && !IsAnswered(log, k, id) && !IsBack(log, k, id)
  {
    assert AllowedAt(log, k);
    AskedMeans(log, k, id);
    if j :| 0 <= j < k && log[j].Came? && log[j].id == id {
      assert AllowedAt(log, j);
      AskedMeans(log, j, id);
    }
  }

  /** Frame `f` is the one response that answered `id`: any other there was ended the reading. */
  predicate IsTheAnswer(log: seq<Event>, k: nat, id: nat, f: Frame)
    requires k <= |log|
  {
    exists j :: 0 <= j < k && AnswersAt(log, j, id, f) && forall i :: 0 <= i < k && i != j ==> !Delivers(log[i], id)
  }

  predicate AnswersAt(log: seq<Event>, j: nat, id: nat, f: Frame)
    requires j < |log|
  {
    log[j] == Line(f, true) && Responds(log[j], id) && WasAsked(log, j, id)
  }

  predicate Delivers(e: Event, id: nat) {
    Responds(e, id) && e.on
  }

  /** A response is delivered exactly if its number waits and it says something. */
  lemma ResponseMeans(log: seq<Event>, k: nat)
    requires Lawful(log) && k < |log| && log[k].Line? && IsResponse(log[k].frame)
    ensures var f := log[k].frame;
      log[k].on <==> f.id.Number? && Waits(log, k, f.id.n) && (f.hasResult || f.error != NoError)
  {
    assert AllowedAt(log, k);
    if log[k].frame.id.Number? {
      WaitingMeans(log, k, log[k].frame.id.n);
    }
  }

  lemma {:induction false} AnswersMean(log: seq<Event>, k: nat, id: nat)
    requires Lawful(log) && k <= |log|
    ensures id in After(log[..k]).answers ==> IsTheAnswer(log, k, id, After(log[..k]).answers[id])
    ensures id !in After(log[..k]).answers ==> forall i :: 0 <= i < k ==> !Delivers(log[i], id)
  {
    if k > 0 {
      AnswersMean(log, k - 1, id);
      AfterNext(log, k - 1);
      AnswersTurn(After(log[..k - 1]), log[k - 1], id);
      if Delivers(log[k - 1], id) {
        ResponseMeans(log, k - 1);
        FirstAnswer(log, k - 1, id);
      } else if id in After(log[..k - 1]).answers {
        AnswerStays(log, k - 1, id, After(log[..k - 1]).answers[id]);
      }
    }
  }

  lemma AnswersTurn(b: Book, e: Event, id: nat)
    ensures var c := Turn(b, e);
      if Delivers(e, id) then id in c.answers && c.answers[id] == e.frame
      else (id in c.answers <==> id in b.answers) && (id in b.answers ==> c.answers[id] == b.answers[id])
  {
  }

  lemma FirstAnswer(log: seq<Event>, k: nat, id: nat)
    requires k < |log| && Delivers(log[k], id) && Waits(log, k, id)
    requires forall i :: 0 <= i < k ==> Delivers(log[i], id) ==> WasAsked(log, i, id)
    ensures IsTheAnswer(log, k + 1, id, log[k].frame)
  {
    assert AnswersAt(log, k, id, log[k].frame);
    forall i | 0 <= i < k ensures !Delivers(log[i], id) {
      assert !(Responds(log[i], id) && WasAsked(log, i, id));
    }
  }

  lemma AnswerStays(log: seq<Event>, k: nat, id: nat, f: Frame)
    requires k < |log| && IsTheAnswer(log, k, id, f) && !Delivers(log[k], id)
    ensures IsTheAnswer(log, k + 1, id, f)
  {
    var j :| 0 <= j < k && AnswersAt(log, j, id, f) && forall i :: 0 <= i < k && i != j ==> !Delivers(log[i], id);
    assert AnswersAt(log, j, id, f);
  }

  /** While the reader goes on, every line before went on. */
  lemma {:induction false} FlowingMeans(log: seq<Event>, k: nat, i: nat)
    requires Lawful(log) && i < k <= |log| && After(log[..k]).flowing
    ensures log[i] != Cut && (log[i].Line? ==> log[i].on)
  {
    AfterNext(log, k - 1);
    assert AllowedAt(log, k - 1);
    if i < k - 1 {
      FlowingMeans(log, k - 1, i);
    }
  }

  /** The notices that were queued, and those that were taken. */
  function Scanned(log: seq<Event>): seq<Frame> {
    if log == [] then []
    else
      var front, e := Scanned(log[..|log| - 1]), log[|log| - 1];
      if e.Line? && !IsResponse(e.frame) && e.on then front + [e.frame] else front
  }

  function Taken(log: seq<Event>): seq<Frame> {
    if log == [] then []
    else
      var front, e := Taken(log[..|log| - 1]), log[|log| - 1];
      if e.Noticed? then front + [e.frame] else front
  }

  lemma NoticesNext(log: seq<Event>, k: nat)
    requires k < |log|
    ensures var e := log[k];
      && Scanned(log[..k + 1]) ==
           Scanned(log[..k]) + (if e.Line? && !IsResponse(e.frame) && e.on then [e.frame] else [])
      && Taken(log[..k + 1]) == Taken(log[..k]) + if e.Noticed? then [e.frame] else []
  {
    assert log[..k + 1][..k] == log[..k];
  }

  lemma {:induction false} NoticesMean(log: seq<Event>, k: nat)
    requires Lawful(log) && k <= |log|
    ensures var b := After(log[..k]);
      b.noticed <= |b.notices| && Scanned(log[..k]) == b.notices && Taken(log[..k]) == b.notices[..b.noticed]
  {
    if k > 0 {
      var i := k - 1;
      NoticesMean(log, i);
      NoticesNext(log, i);
      AfterNext(log, i);
      assert AllowedAt(log, i);
      var b, e := After(log[..i]), log[i];
      NoticesTurn(b, e);
      assert After(log[..k]) == Turn(b, e);
    }
  }

  lemma NoticesTurn(b: Book, e: Event)
    requires b.noticed <= |b.notices| && Allowed(b, e)
    ensures var c := Turn(b, e);
      && c.noticed <= |c.notices|
      && c.notices == b.notices + (if e.Line? && !IsResponse(e.frame) && e.on then [e.frame] else [])
      && c.notices[..c.noticed] == b.notices[..b.noticed] + if e.Noticed? then [e.frame] else []
  {
  }

  ghost predicate Waiters(log: seq<Event>, k: nat, ids: set<nat>)
    requires k <= |log|
  {
    forall id :: id in ids <==> Waits(log, k, id)
  }

  /** The frame is a notice for which there is room. */
  predicate Fits(log: seq<Event>, k: nat, f: Frame)
    requires k <= |log|
  {
    f.named && |Scanned(log[..k])| - |Taken(log[..k])| < EVENTS
  }

  lemma {:induction false} StoppedMeans(log: seq<Event>, k: nat)
    requires k <= |log| && After(log[..k]).stopped
    ensures exists j :: 0 <= j < k && log[j] == Stopped
  {
    assert k > 0;
    AfterNext(log, k - 1);
    if log[k - 1] != Stopped {
      StoppedMeans(log, k - 1);
    }
  }

  /** What every event of a history is. */
  ghost predicate Means(log: seq<Event>, k: nat)
    requires k < |log|
  {
    match log[k]
    case Asked(id) => !WasAsked(log, k, id) && exists ids :: Waiters(log, k, ids) && |ids| < OUTSTANDING
    case Refused => exists ids :: Waiters(log, k, ids) && |ids| == OUTSTANDING
    case Line(f, on) =>
      && (forall i :: 0 <= i < k ==> log[i] != Cut && (log[i].Line? ==> log[i].on))
      && (IsResponse(f) ==>
            (on <==> f.id.Number? && Waits(log, k, f.id.n) && (f.hasResult || f.error != NoError)))
      && (!IsResponse(f) && on ==> Fits(log, k, f))
      && (!IsResponse(f) && !on ==> !Fits(log, k, f) || exists j :: 0 <= j < k && log[j] == Stopped)
    case Came(id, o) =>
      && WasAsked(log, k, id) && !IsBack(log, k, id)
      && (o.Answered? ==> o.frame.id == Number(id) && IsTheAnswer(log, k, id, o.frame))
    case Noticed(f) => Taken(log[..k]) + [f] <= Scanned(log[..k])
    case _ => true
  }

  /**
    In every lawful history: a number is asked once, while fewer than 64 calls wait, and a
    call is refused only while 64 do; a response is delivered exactly if its call waits,
    and an unknown, repeated or empty one is the last line; a call comes back once, and if
    it succeeds with the one response its number got; notices are taken in their order.
  */
  lemma LawfulMeans(log: seq<Event>, k: nat)
    requires Lawful(log) && k < |log|
    ensures Means(log, k)
  {
    assert AllowedAt(log, k);
    match log[k]
    case Asked(id) =>
      AskedMeans(log, k, id);
      WaitersAre(log, k);
    case Refused => WaitersAre(log, k);
    case Line(f, on) =>
      forall i | 0 <= i < k ensures log[i] != Cut && (log[i].Line? ==> log[i].on) {
        FlowingMeans(log, k, i);
      }
      NoticesMean(log, k);
      if IsResponse(f) {
        ResponseMeans(log, k);
      } else if After(log[..k]).stopped {
        StoppedMeans(log, k);
      }
    case Came(id, o) =>
      AskedMeans(log, k, id);
      BackMeans(log, k, id);
      AnswersMean(log, k, id);
    case Noticed(f) => NoticesMean(log, k);
    case _ =>
  }

  lemma WaitersAre(log: seq<Event>, k: nat)
    requires Lawful(log) && k <= |log|
    ensures Waiters(log, k, After(log[..k]).waiting)
  {
    forall id ensures id in After(log[..k]).waiting <==> Waits(log, k, id) {
      WaitingMeans(log, k, id);
    }
  }

  // ---- Any interleaving -----------------------------------------------------------------

  /** The client's own state is as the book has it. */
  ghost predicate Kept(c: Client, b: Book)
    reads c
  {
    && b.asked == c.calls.Keys && b.waiting == c.pending.Keys && b.answers == c.answers && b.notices == c.notices
    && b.noticed == |c.consumed| && b.flowing == !c.reader.Broken? && b.stopped == c.done
  }

  ghost predicate Logged(c: Client, log: seq<Event>)
    reads c
  {
    Lawful(log) && Kept(c, After(log))
  }

  /** Who came back has returned, and the open calls are those that may go on. */
  ghost predicate Going(c: Client, open: map<nat, Call>, back: set<nat>)
    reads c`calls, c.calls.Values`phase
  {
    && (forall n :: n in back ==> n in c.calls && c.calls[n].phase.Returned?)
    && (forall n :: n in open ==> n in c.calls && c.calls[n] == open[n] && !open[n].phase.Returned?)
  }

  /** The caller that `call` is comes back. */
  method ComeBack(c: Client, call: Call, log: seq<Event>) returns (longer: seq<Event>)
    requires c.Valid() && Logged(c, log) && c.Known(call) && call.phase.Leaving? && call.id !in After(log).back
    modifies c`pending, call`phase
    ensures c.Valid() && Logged(c, longer)
    ensures call.phase.Returned? && After(longer).back == After(log).back + {call.id}
  {
    var outcome := c.Return(call);
    Append(log, Came(call.id, outcome));
    longer := log + [Came(call.id, outcome)];
  }

  /** Any other step of it. */
  method CallerStep(c: Client, call: Call, log: seq<Event>) returns (longer: seq<Event>)
    requires c.Valid() && Logged(c, log) && c.Known(call) && (call.phase == Registered || call.phase == Waiting)
    modifies c`done, call`phase, call`buffer, call`cancelled
    ensures c.Valid() && Logged(c, longer) && !call.phase.Returned? && After(longer).back == After(log).back
  {
    var gives: bool, oversized: bool, written: bool, choice: nat, decodes: bool := *, *, *, *, *;
    var was := c.done;
    if gives {
      c.CancelCall(call);
    } else if call.phase == Registered {
      c.Send(call, oversized, written);
    } else if call.buffer.Some? || call.cancelled || c.done {
      c.Select(call, choice, decodes);
    }
    longer := log;
    if c.done && !was {
      Append(log, Stopped);
      longer := log + [Stopped];
    }
  }

  /** The reader scans a response. */
  method ScanResponse(c: Client, f: Frame, log: seq<Event>) returns (longer: seq<Event>)
    requires c.Valid() && Logged(c, log) && c.reader == Reading && IsResponse(f)
    modifies c`reader, c`pending, c`answers
    ensures c.Valid() && Logged(c, longer) && After(longer).back == After(log).back
  {
    c.Match(f);
    var e := Line(f, c.reader != Broken);
    Append(log, e);
    longer := log + [e];
  }

  /** The reader scans anything else, or the end. */
  method ScanOther(c: Client, line: Option<Frame>, log: seq<Event>) returns (longer: seq<Event>)
    requires c.Valid() && Logged(c, log) && c.reader == Reading && (line.Some? ==> !IsResponse(line.value))
    modifies c`reader, c`events, c`notices
    ensures c.Valid() && Logged(c, longer) && After(longer).back == After(log).back
  {
    var e := Cut;
    if line.Some? {
      var closing: bool := *;
      c.Enqueue(line.value, closing);
      e := Line(line.value, c.reader != Broken);
    } else {
      c.Break();
    }
    Append(log, e);
    longer := log + [e];
  }

  /** A step of the reader: scan, hand over, or end. */
  method ReaderStep(c: Client, line: Option<Frame>, log: seq<Event>) returns (longer: seq<Event>)
    requires c.Valid() && Logged(c, log)
    modifies c`reader, c`pending, c`answers, c`events, c`notices, c`done, c.calls.Values`buffer
    ensures c.Valid() && Logged(c, longer) && After(longer).back == After(log).back
  {
    longer := log;
    if c.reader.Handing? {
      c.Hand();
    } else if c.reader == Broken {
      longer := Close(c, log);
    } else if line.Some? && IsResponse(line.value) {
      longer := ScanResponse(c, line.value, log);
    } else {
      longer := ScanOther(c, line, log);
    }
  }

  /** The client is closed, from outside or by the reader at its end. */
  method Close(c: Client, log: seq<Event>) returns (longer: seq<Event>)
    requires c.Valid() && Logged(c, log)
    modifies c`done
    ensures c.Valid() && Logged(c, longer) && After(longer).back == After(log).back
  {
    longer := log;
    if !c.done {
      Append(log, Stopped);
      longer := log + [Stopped];
    }
    if c.reader == Broken {
      c.End();
    } else {
      c.Stop();
    }
  }

  /** Somebody takes a notice. */
  method Take(c: Client, log: seq<Event>) returns (longer: seq<Event>)
    requires c.Valid() && Logged(c, log) && c.events != []
    modifies c`events, c`consumed
    ensures c.Valid() && Logged(c, longer) && After(longer).back == After(log).back
  {
    var f := c.TakeEvent();
    Append(log, Noticed(f));
    longer := log + [Noticed(f)];
  }

  method Ask(c: Client, log: seq<Event>) returns (call: Call?, longer: seq<Event>)
    requires c.Valid() && Logged(c, log)
    modifies c`next, c`pending, c`calls
    ensures c.Valid() && Logged(c, longer) && After(longer).back == After(log).back
    ensures call == null ==> c.calls == old(c.calls)
    ensures call != null ==> fresh(call) && call.phase == Registered && call.id !in old(c.calls)
                             && c.calls == old(c.calls)[call.id := call]
  {
    call := c.Register();
    var e := if call == null then Refused else Asked(call.id);
    Append(log, e);
    longer := log + [e];
  }

  // ---- The same, with the calls that are open ---------------------------------------------

  method Leaves(c: Client, open: map<nat, Call>, call: Call, log: seq<Event>)
      returns (later: map<nat, Call>, longer: seq<Event>)
    requires c.Valid() && Logged(c, log) && Going(c, open, After(log).back) && call.id in open && open[call.id] == call
    requires call.phase.Leaving?
    modifies c`pending, call`phase
    ensures c.Valid() && Logged(c, longer) && Going(c, later, After(longer).back)
  {
    longer := ComeBack(c, call, log);
    later := open - {call.id};
  }

  method Goes(c: Client, ghost open: map<nat, Call>, call: Call, log: seq<Event>) returns (longer: seq<Event>)
    requires c.Valid() && Logged(c, log) && Going(c, open, After(log).back) && call.id in open && open[call.id] == call
    requires !call.phase.Leaving?
    modifies c`done, call`phase, call`buffer, call`cancelled
    ensures c.Valid() && Logged(c, longer) && Going(c, open, After(longer).back)
  {
    longer := CallerStep(c, call, log);
  }

  method NewCall(c: Client, open: map<nat, Call>, log: seq<Event>)
      returns (later: map<nat, Call>, longer: seq<Event>)
    requires c.Valid() && Logged(c, log) && Going(c, open, After(log).back)
    modifies c`next, c`pending, c`calls
    ensures c.Valid() && Logged(c, longer) && Going(c, later, After(longer).back)
    ensures fresh(c.calls.Values - old(c.calls.Values))
  {
    ghost var calls := c.calls;
    var call;
    call, longer := Ask(c, log);
    later := open;
    if call != null {
      later := open[call.id := call];
      assert c.calls.Values <= calls.Values + {call};
    }
  }

  method NextLine(c: Client, ghost open: map<nat, Call>, line: Option<Frame>, log: seq<Event>)
      returns (longer: seq<Event>)
    requires c.Valid() && Logged(c, log) && Going(c, open, After(log).back)
    modifies c`reader, c`pending, c`answers, c`events, c`notices, c`done, c.calls.Values`buffer
    ensures c.Valid() && Logged(c, longer) && Going(c, open, After(longer).back)
  {
    longer := ReaderStep(c, line, log);
  }

  /** Whoever takes notices, and whoever closes the client from outside. */
  method FromOutside(c: Client, ghost open: map<nat, Call>, closes: bool, log: seq<Event>)
      returns (longer: seq<Event>)
    requires c.Valid() && Logged(c, log) && Going(c, open, After(log).back)
    modifies c`done, c`events, c`consumed
    ensures c.Valid() && Logged(c, longer) && Going(c, open, After(longer).back)
  {
    longer := log;
    if closes {
      longer := Close(c, log);
    } else if c.events != [] {
      longer := Take(c, log);
    }
  }

  method AnyCaller(c: Client, open: map<nat, Call>, call: Call, log: seq<Event>)
      returns (later: map<nat, Call>, longer: seq<Event>)
    requires c.Valid() && Logged(c, log) && Going(c, open, After(log).back) && call.id in open && open[call.id] == call
    modifies c`pending, c`done, call
    ensures c.Valid() && Logged(c, longer) && Going(c, later, After(longer).back)
  {
    if call.phase.Leaving? {
      later, longer := Leaves(c, open, call, log);
    } else {
      later := open;
      longer := Goes(c, open, call, log);
    }
  }

  method AnyStep(c: Client, open: map<nat, Call>, log: seq<Event>) returns (later: map<nat, Call>, longer: seq<Event>)
    requires c.Valid() && Logged(c, log) && Going(c, open, After(log).back)
    modifies c, c.calls.Values
    ensures c.Valid() && Logged(c, longer) && Going(c, later, After(longer).back)
    ensures fresh(c.calls.Values - old(c.calls.Values))
  {
    later, longer := open, log;
    var which: nat, line: Option<Frame>, n: nat := *, *, *;
    if which == 0 {
      later, longer := NewCall(c, open, log);
    } else if which == 1 {
      longer := NextLine(c, open, line, log);
    } else if which in {2, 3} {
      longer := FromOutside(c, open, which == 2, log);
    } else if n in open {
      later, longer := AnyCaller(c, open, open[n], log);
    }
  }

  /** Once the client has stopped, nothing keeps a caller: wherever it is, its own next
      steps bring it back, with an answer only if it got one before. */
  method Released(c: Client, call: Call, oversized: bool, written: bool, choice: nat, decodes: bool)
      returns (outcome: Outcome)
    requires c.Valid() && c.Known(call) && !call.phase.Returned? && c.done
    modifies c`pending, c`done, call`phase, call`buffer
    ensures c.Valid() && call.phase == Returned(outcome) && call.id !in c.pending
    ensures outcome.Answered? ==> old(call.buffer == Some(outcome.frame) || call.phase == Leaving(outcome))
  {
    if call.phase == Registered {
      c.Send(call, oversized, written);
    }
    if call.phase == Waiting {
      c.Select(call, choice, decodes);
    }
    outcome := c.Return(call);
  }

  /** Any callers, the reader, whoever takes notices and whoever closes the client, in any
      order, with any lines from the process: what happens is a lawful history. */
  method AnyHistory(steps: nat) returns (log: seq<Event>)
    ensures Lawful(log) && forall k :: 0 <= k < |log| ==> Means(log, k)
  {
    var c := new Client();
    var open: map<nat, Call> := map[];
    log := [];
    for i := 0 to steps
      invariant c.Valid() && fresh(c) && fresh(c.calls.Values) && Logged(c, log) && Going(c, open, After(log).back)
    {
      open, log := AnyStep(c, open, log);
    }
    forall k | 0 <= k < |log| ensures Means(log, k) {
      LawfulMeans(log, k);
    }
  }
}
