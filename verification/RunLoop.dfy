/**
  One Codex run (internal/codexbridge/run.go): the event loop that reads the
  native transcript, forwards text and messages, and answers tool calls.

  `Transcript` says what a transcript is: `Lawful` frame by frame, the way the
  loop meets it; module RunMeaning says the same as a whole, without any table.
  `RunLoop.EventLoop` is proved to continue, end well or refuse exactly so, whatever
  the host's callbacks do. Text is a sequence of bytes; frames arrive decoded,
  `wellFormed` being the decoder's verdict.
*/
module Transcript {
  import opened Prelude

  /** A frame with an RPC id is a `ToolCall` or an `OtherRequest`; one that is
      neither of these nor named below is a `Notice`. */
  datatype Frame =
    | ToolCall(rpc: string, wellFormed: bool, thread: string, turn: string, id: string, tool: string,
               namespaced: bool, arguments: string, isObject: bool)
    | OtherRequest(rpc: string)
    | Delta(wellFormed: bool, thread: string, turn: string, item: string, delta: string)
    | Started(wellFormed: bool, thread: string, turn: string, item: string, reasoning: bool)
    | Completed(wellFormed: bool, thread: string, turn: string, item: string, message: bool, text: string, phase: string)
    | TurnCompleted(wellFormed: bool, thread: string, turn: string, status: string)
    | Error(wellFormed: bool, thread: string, turn: string, willRetry: Option<bool>, described: bool)
    | Notice

  /** What the run was started with, and the thread and turn the native process gave it. */
  datatype Request = Request(thread: string, turn: string, offered: set<string>, critic: bool)

  const MAX_TEXT := 0x20_0000
  const MAX_ARGUMENTS := 0x4_0000
  const MAX_ANSWER := 0x10_0000
  const MAX_FRAMES := 10000
  const MAX_ITEMS := 256

  function Limit(r: Request): nat {
    if r.critic then 4 else 20
  }

  predicate ValidID(id: string) {
    id != "" && |id| <= 256 && forall c :: c in id ==> c != '\r' && c != '\n' && c != '\0'
  }

  // ---- A transcript, frame by frame ------------------------------------------

  /** The tables of the loop after some frames. */
  datatype Tally = Tally(rpcs: set<string>, callIDs: set<string>, items: set<string>, itemCount: nat,
                         texts: map<string, string>, completed: set<string>,
                         calls: nat, frames: nat, bytes: nat, reasoning: nat, retries: nat)

  function Prior(texts: map<string, string>, n: string): string {
    if n in texts then texts[n] else ""
  }

  predicate OfItem(f: Frame) {
    f.Delta? || f.Started? || f.Completed?
  }

  function WithItem(t: Tally, n: string): Tally {
    if n in t.items then t else t.(items := t.items + {n}, itemCount := t.itemCount + 1)
  }

  /** One admitted frame more. */
  function Tallied(t: Tally, f: Frame): Tally {
    var u := (if OfItem(f) then WithItem(t, f.item) else t).(frames := t.frames + 1);
    match f
    case ToolCall(rpc, _, _, _, id, _, _, _, _) =>
      u.(rpcs := t.rpcs + {rpc}, callIDs := t.callIDs + {id}, calls := t.calls + 1)
    case Delta(_, _, _, n, text) =>
      u.(texts := t.texts[n := Prior(t.texts, n) + text], bytes := t.bytes + |text|)
    case Started(_, _, _, _, reasoning) =>
      u.(reasoning := t.reasoning + if reasoning then 1 else 0)
    case Completed(_, _, _, n, message, text, _) =>
      if message then u.(completed := t.completed + {n}, texts := t.texts - {n}, bytes := t.bytes + |text|)
      else u.(completed := t.completed + {n})
    case Error(_, _, _, _, _) => u.(retries := t.retries + 1)
    case _ => u
  }

  function TallyOf(fs: seq<Frame>): Tally {
    if fs == [] then Tally({}, {}, {}, 0, map[], {}, 0, 0, 0, 0, 0)
    else Tallied(TallyOf(fs[..|fs| - 1]), fs[|fs| - 1])
  }

  predicate OwnTurn(f: Frame, r: Request)
    requires !f.ToolCall? && !f.OtherRequest? && !f.Notice?
  {
    f.wellFormed && f.thread == r.thread && f.turn == r.turn
  }

  predicate KnownItem(t: Tally, item: string) {
    ValidID(item) && (item in t.items || t.itemCount < MAX_ITEMS)
  }

  /** Frame `f` may follow the frames of `t` in a run that continues. */
  predicate Admits(t: Tally, f: Frame, r: Request) {
    && t.frames < MAX_FRAMES
    && match f
       case ToolCall(rpc, wellFormed, thread, turn, id, tool, namespaced, arguments, isObject) =>
         && |rpc| <= 512 && rpc !in t.rpcs && wellFormed && thread == r.thread && turn == r.turn
         && ValidID(id) && id !in t.callIDs && !namespaced && tool in r.offered
         && |arguments| <= MAX_ARGUMENTS && isObject && t.calls < Limit(r)
       case OtherRequest(_) => false
       case Delta(_, _, _, item, delta) =>
         OwnTurn(f, r) && item !in t.completed && KnownItem(t, item) && t.bytes + |delta| <= MAX_TEXT
       case Started(_, _, _, item, reasoning) =>
         OwnTurn(f, r) && KnownItem(t, item) && (reasoning ==> t.reasoning < Limit(r))
       case Completed(_, _, _, item, message, text, _) =>
         && OwnTurn(f, r) && KnownItem(t, item) && item !in t.completed
         && (message ==> (Prior(t.texts, item) == "" || Prior(t.texts, item) == text)
                         && t.bytes + |text| <= MAX_TEXT)
       case TurnCompleted(_, _, _, _) => false
       case Error(_, _, _, willRetry, described) =>
         OwnTurn(f, r) && described && willRetry == Some(true) && t.retries < 2
       case Notice => true
  }

  /** Frame `f` ends the run well. */
  predicate Ends(t: Tally, f: Frame, r: Request) {
    t.frames < MAX_FRAMES && f.TurnCompleted? && OwnTurn(f, r) && f.status == "completed" && t.texts.Keys == {}
  }

  predicate Lawful(fs: seq<Frame>, r: Request) {
    fs == [] || (Lawful(fs[..|fs| - 1], r) && Admits(TallyOf(fs[..|fs| - 1]), fs[|fs| - 1], r))
  }

  // ---- What leaves the bridge ------------------------------------------------

  datatype RunEvent = Text(id: nat, text: string) | Message(id: nat, text: string, final: bool) | Retry(attempt: nat)
  datatype ToolAnswer = ToolAnswer(text: string, isError: bool)
  /** A call given to the host's handler. */
  datatype Asked = Asked(id: nat, tool: string, arguments: string)
  datatype Sent = Sent(rpc: string, answer: ToolAnswer)

  function ToolCalls(fs: seq<Frame>): seq<Frame> {
    if fs == [] then []
    else
      var f := fs[|fs| - 1];
      ToolCalls(fs[..|fs| - 1]) + if f.ToolCall? then [f] else []
  }

  /** The event that an admitted frame makes the loop forward. */
  function EventFor(t: Tally, f: Frame, ids: map<string, nat>): seq<RunEvent>
    requires OfItem(f) ==> f.item in ids
  {
    match f
    case Delta(_, _, _, n, text) => [Text(ids[n], text)]
    case Completed(_, _, _, n, message, text, phase) =>
      if message then [Message(ids[n], text, phase == "final_answer" || phase == "")] else []
    case Error(_, _, _, _, _) => [Retry(t.retries + 1)]
    case _ => []
  }

  /** Everything forwarded for `fs` when its items have the opaque ids `ids`. */
  function Forwarded(fs: seq<Frame>, ids: map<string, nat>): seq<RunEvent>
    requires TallyOf(fs).items <= ids.Keys
  {
    if fs == [] then []
    else
      var before := fs[..|fs| - 1];
      Forwarded(before, ids) + EventFor(TallyOf(before), fs[|fs| - 1], ids)
  }

  lemma {:induction false} ForwardedKeeps(fs: seq<Frame>, ids: map<string, nat>, more: map<string, nat>)
    requires TallyOf(fs).items <= ids.Keys <= more.Keys
    requires forall n :: n in ids ==> more[n] == ids[n]
    ensures Forwarded(fs, more) == Forwarded(fs, ids)
  {
    if fs != [] {
      ForwardedKeeps(fs[..|fs| - 1], ids, more);
    }
  }

  /** One admitted frame more. */
  lemma {:induction false} OneMore(fs: seq<Frame>, f: Frame, r: Request, ids: map<string, nat>, more: map<string, nat>)
    requires Lawful(fs, r) && Admits(TallyOf(fs), f, r)
    requires TallyOf(fs).items <= ids.Keys <= more.Keys && (OfItem(f) ==> f.item in more)
    requires forall n :: n in ids ==> more[n] == ids[n]
    ensures Lawful(fs + [f], r) && TallyOf(fs + [f]) == Tallied(TallyOf(fs), f)
    ensures TallyOf(fs + [f]).items <= more.Keys
    ensures Forwarded(fs + [f], more) == Forwarded(fs, ids) + EventFor(TallyOf(fs), f, more)
    ensures ToolCalls(fs + [f]) == ToolCalls(fs) + if f.ToolCall? then [f] else []
  {
    assert (fs + [f])[..|fs|] == fs;
    ForwardedKeeps(fs, ids, more);
  }

  ghost predicate Injective(ids: map<string, nat>) {
    forall n, m :: n in ids && m in ids && ids[n] == ids[m] ==> n == m
  }

  lemma {:induction false} LawfulIsBounded(fs: seq<Frame>, r: Request)
    requires Lawful(fs, r)
    ensures var t := TallyOf(fs);
      && t.frames == |fs| <= MAX_FRAMES && t.bytes <= MAX_TEXT && t.calls == |ToolCalls(fs)| <= Limit(r)
      && t.retries <= 2 && t.reasoning <= Limit(r) && t.itemCount == |t.items| <= MAX_ITEMS
  {
    if fs != [] {
      LawfulIsBounded(fs[..|fs| - 1], r);
    }
  }
}

/** The loop. Its local variables are passed and returned by the pieces below. */
module RunLoop {
  import opened Prelude
  import opened Transcript

  datatype Failure = ErrRun | ErrLimit | ErrRetries | ErrUnavailable | ErrContext

  /** `Refused` is the transcript's fault, `Stopped` the host's or the clock's. */
  datatype Verdict = Continue | Ended | Refused(why: Failure) | Stopped(cause: Failure)

  /** What the world does at one frame. Instead of the frame the clock may stop the run, or the
      native process (`over`); there may be no randomness; the host may not take the event; the
      run may end while the handler is at work (`hung`) or just after (`late`); and the native
      process may not take the answer (`broken`). */
  datatype Fault = Fault(over: Option<Failure>, random: bool, emits: Option<Failure>, hung: bool, late: bool, broken: bool)

  const NO_FAULT := Fault(None, false, None, false, false, false)

  function At(faults: seq<Fault>, k: nat): Fault {
    if k < |faults| then faults[k] else NO_FAULT
  }

  function AnswerAt(host: seq<ToolAnswer>, n: nat): Option<ToolAnswer> {
    if n < |host| then Some(host[n]) else None
  }

  // ---- How a frame ends the run ---------------------------------------------------

  /** The call is one of this run, and a new one. */
  predicate WellCalled(t: Tally, f: Frame, r: Request)
    requires f.ToolCall?
  {
    && |f.rpc| <= 512 && f.rpc !in t.rpcs && f.wellFormed && f.thread == r.thread && f.turn == r.turn
    && ValidID(f.id) && f.id !in t.callIDs && !f.namespaced && f.tool in r.offered
    && |f.arguments| <= MAX_ARGUMENTS && f.isObject
  }

  predicate Agrees(t: Tally, f: Frame)
    requires f.Completed?
  {
    f.message ==> Prior(t.texts, f.item) == "" || Prior(t.texts, f.item) == f.text
  }

  /** Why a frame that is not admitted is refused. */
  function Reason(t: Tally, f: Frame, r: Request): Failure {
    if t.frames >= MAX_FRAMES then ErrLimit
    else
      match f
      case ToolCall(_, _, _, _, _, _, _, _, _) => if WellCalled(t, f, r) then ErrLimit else ErrRun
      case Delta(_, _, _, n, _) => if OwnTurn(f, r) && ValidID(n) && n !in t.completed then ErrLimit else ErrRun
      case Started(_, _, _, n, _) => if OwnTurn(f, r) && ValidID(n) then ErrLimit else ErrRun
      case Completed(_, _, _, n, _, _, _) =>
        if OwnTurn(f, r) && ValidID(n) && (!KnownItem(t, n) || (n !in t.completed && Agrees(t, f))) then ErrLimit
        else ErrRun
      case Error(_, _, _, willRetry, described) =>
        if OwnTurn(f, r) && described && willRetry.Some? && (willRetry.value || t.retries > 0) then ErrRetries
        else ErrRun
      case _ => ErrRun
  }

  /** Nothing was counted yet. */
  function Uncounted(t: Tally): Tally {
    t.(itemCount := 0, calls := 0, frames := 0, bytes := 0, reasoning := 0, retries := 0)
  }

  function SizeOf(f: Frame): nat {
    if f.Delta? then |f.delta| else if f.Completed? then |f.text| else 0
  }

  /** A frame that was refused is refused for a limit exactly if nothing but the counts of the
      run is against it, and for too many retries if one more of them is announced, or they
      were in vain. */
  lemma RefusedForLimits(t: Tally, f: Frame, r: Request)
    requires !Admits(t, f, r) && !Ends(t, f, r) && SizeOf(f) <= MAX_TEXT
    requires t.frames < MAX_FRAMES && t.texts.Keys <= t.items && t.completed <= t.items
    ensures Reason(t, f, r) == ErrLimit <==> !f.Error? && Admits(Uncounted(t), f, r)
    ensures Reason(t, f, r) == ErrRetries <==>
      f.Error? && (Admits(Uncounted(t), f, r)
                   || (t.retries > 0 && f.willRetry == Some(false)
                       && Admits(Uncounted(t), f.(willRetry := Some(true)), r)))
  {
    if f.Error? {
      ErrorReason(t, f, r);
    }
  }

  lemma ErrorReason(t: Tally, f: Frame, r: Request)
    requires f.Error? && !Admits(t, f, r) && t.frames < MAX_FRAMES
    ensures Reason(t, f, r) == ErrRetries <==>
      Admits(Uncounted(t), f, r)
      || (t.retries > 0 && f.willRetry == Some(false) && Admits(Uncounted(t), f.(willRetry := Some(true)), r))
  {
    var g := f.(willRetry := Some(true));
    assert OwnTurn(g, r) <==> OwnTurn(f, r);
    assert Admits(Uncounted(t), g, r) <==> OwnTurn(f, r) && f.described;
    assert Admits(Uncounted(t), f, r) <==> OwnTurn(f, r) && f.described && f.willRetry == Some(true);
    assert Reason(t, f, r) == ErrRetries <==>
      OwnTurn(f, r) && f.described && f.willRetry.Some? && (f.willRetry.value || t.retries > 0);
  }

  /** A random id is drawn for the frame. */
  predicate Draws(t: Tally, f: Frame, r: Request) {
    if f.ToolCall? then Admits(t, f, r)
    else OfItem(f) && OwnTurn(f, r) && f.item !in t.items && KnownItem(t, f.item)
         && (f.Delta? ==> f.item !in t.completed)
  }

  predicate Forwards(f: Frame) {
    f.Delta? || f.Error? || (f.Completed? && f.message)
  }

  /** How the loop goes on after frame `f`, whose call, if it is one, `answer` is for. */
  function Outcome(t: Tally, f: Frame, r: Request, fault: Fault, answer: Option<ToolAnswer>): Verdict {
    if t.frames < MAX_FRAMES && Draws(t, f, r) && fault.random then Stopped(ErrUnavailable)
    else if Ends(t, f, r) then Ended
    else if !Admits(t, f, r) then Refused(Reason(t, f, r))
    else if f.ToolCall? then Answering(fault, answer)
    else if Forwards(f) && fault.emits.Some? then Stopped(fault.emits.value)
    else Continue
  }

  function Answering(fault: Fault, answer: Option<ToolAnswer>): Verdict {
    if fault.hung then Stopped(ErrContext)
    else if answer.None? then Stopped(ErrRun)
    else if fault.late then Stopped(ErrContext)
    else if |answer.value.text| > MAX_ANSWER then Stopped(ErrLimit)
    else if fault.broken then Stopped(ErrUnavailable)
    else Continue
  }

  /** An item's frame: it is named before its text is looked at. */
  function Naming(t: Tally, f: Frame, r: Request, fault: Fault): Verdict
    requires OfItem(f)
  {
    if !OwnTurn(f, r) || (f.Delta? && f.item in t.completed) || !ValidID(f.item) then Refused(ErrRun)
    else if f.item in t.items then Continue
    else if t.itemCount >= MAX_ITEMS then Refused(ErrLimit)
    else if fault.random then Stopped(ErrUnavailable)
    else Continue
  }

  function OfText(t: Tally, size: nat, fault: Fault): Verdict {
    if t.bytes + size > MAX_TEXT then Refused(ErrLimit)
    else if fault.emits.Some? then Stopped(fault.emits.value)
    else Continue
  }

  function OfDelta(t: Tally, f: Frame, r: Request, fault: Fault): Verdict
    requires f.Delta?
  {
    var named := Naming(t, f, r, fault);
    if named.Continue? then OfText(t, |f.delta|, fault) else named
  }

  function OfStart(t: Tally, f: Frame, r: Request, fault: Fault): Verdict
    requires f.Started?
  {
    var named := Naming(t, f, r, fault);
    if named.Continue? && f.reasoning && t.reasoning >= Limit(r) then Refused(ErrLimit) else named
  }

  function OfDone(t: Tally, f: Frame, r: Request, fault: Fault): Verdict
    requires f.Completed?
  {
    var named := Naming(t, f, r, fault);
    if !named.Continue? then named
    else if f.item in t.completed || !Agrees(t, f) then Refused(ErrRun)
    else if f.message then OfText(t, |f.text|, fault)
    else Continue
  }

  lemma ItemOutcome(t: Tally, f: Frame, r: Request, fault: Fault, answer: Option<ToolAnswer>)
    requires OfItem(f) && t.frames < MAX_FRAMES
    ensures Outcome(t, f, r, fault, answer) ==
      if f.Delta? then OfDelta(t, f, r, fault)
      else if f.Started? then OfStart(t, f, r, fault)
      else OfDone(t, f, r, fault)
  {
  }

  /** Only an admitted frame is followed by another; and with no fault, and a short answer to a
      call, every one is. */
  lemma OutcomeMeans(t: Tally, f: Frame, r: Request, fault: Fault, answer: Option<ToolAnswer>)
    ensures fault == NO_FAULT && (f.ToolCall? ==> answer.Some? && |answer.value.text| <= 0x10_0000) ==>
      (Outcome(t, f, r, fault, answer).Continue? <==> Admits(t, f, r))
    ensures var v := Outcome(t, f, r, fault, answer);
      && (v.Continue? ==> Admits(t, f, r)) && (v.Ended? <==> Ends(t, f, r)) && (v.Refused? ==> !Admits(t, f, r))
  {
  }

  lemma TooManyFrames(t: Tally, f: Frame, r: Request, fault: Fault, answer: Option<ToolAnswer>)
    requires t.frames >= MAX_FRAMES
    ensures Outcome(t, f, r, fault, answer) == Refused(ErrLimit)
  {
  }

  // ---- The pieces of the loop ---------------------------------------------------

  /** What a run that got as far as `fs` has in its variables. */
  ghost predicate Tracks(t: Tally, items: map<string, nat>, owner: map<nat, string>, issued: nat,
                         emitted: seq<RunEvent>, fs: seq<Frame>, r: Request)
  {
    && t == TallyOf(fs) && Lawful(fs, r)
    && items.Keys == t.items && |items| == t.itemCount
    && emitted == Forwarded(fs, items)
    && Owned(items, owner, issued)
  }

  /** `owner` is the inverse of `items`, whose ids were all given out. */
  ghost predicate Owned(items: map<string, nat>, owner: map<nat, string>, issued: nat) {
    forall n :: n in items ==> items[n] < issued && items[n] in owner && owner[items[n]] == n
  }

  lemma OwnedIsInjective(items: map<string, nat>, owner: map<nat, string>, issued: nat)
    requires Owned(items, owner, issued)
    ensures Injective(items)
  {
  }

  /** ... after frame `f`. */
  ghost function Owners(owner: map<nat, string>, items: map<string, nat>, issued: nat, f: Frame): map<nat, string> {
    if OfItem(f) && f.item !in items then owner[issued := f.item] else owner
  }

  /** Every one of `calls` went to the handler once, under an id of its own, and
      the handler's answer, and nothing else, went back under its RPC id. */
  ghost predicate Answered(asked: seq<Asked>, answers: seq<ToolAnswer>, sent: seq<Sent>, calls: seq<Frame>) {
    && |asked| == |answers| == |sent| == |calls|
    && (forall i :: 0 <= i < |sent| ==>
          var f := calls[i];
          f.ToolCall? && asked[i].tool == f.tool && asked[i].arguments == f.arguments
          && sent[i] == Sent(f.rpc, answers[i]))
  }

  ghost predicate FreshlyNumbered(asked: seq<Asked>, issued: nat) {
    && (forall i :: 0 <= i < |asked| ==> asked[i].id < issued)
    && (forall i, j :: 0 <= i < j < |asked| ==> asked[i].id != asked[j].id)
  }

  /** `opaqueID`: a new random id, or no randomness. */
  method OpaqueID(issued: nat, failed: bool) returns (id: Option<nat>)
    ensures id == if failed then None else Some(issued)
  {
    return if failed then None else Some(issued);
  }

  /** The ids after item `n` has been named. */
  ghost predicate Named(items: map<string, nat>, issued: nat, n: string, items': map<string, nat>, issued': nat) {
    if n in items then items' == items && issued' == issued
    else items' == items[n := issued] && issued' == issued + 1
  }

  lemma NamedOne(t: Tally, items: map<string, nat>, owner: map<nat, string>, issued: nat, f: Frame,
                 items': map<string, nat>, issued': nat)
    requires items.Keys == t.items && |items| == t.itemCount && Owned(items, owner, issued)
    requires if OfItem(f) then Named(items, issued, f.item, items', issued') else items' == items && issued <= issued'
    ensures items'.Keys == Tallied(t, f).items && |items'| == Tallied(t, f).itemCount
    ensures Owned(items', Owners(owner, items, issued, f), issued')
  {
    if OfItem(f) && f.item !in items {
      assert items'.Keys == t.items + {f.item};
    }
  }

  /** `itemID`: the opaque id of a native item, given out at its first frame. */
  method ItemID(items: map<string, nat>, issued: nat, native: string, random: bool)
      returns (verdict: Verdict, items': map<string, nat>, issued': nat)
    ensures verdict.Continue? ==>
              ValidID(native) && (native in items || |items| < MAX_ITEMS)
              && Named(items, issued, native, items', issued')
    ensures verdict == if !ValidID(native) then Refused(ErrRun)
                       else if native in items then Continue
                       else if |items| >= MAX_ITEMS then Refused(ErrLimit)
                       else if random then Stopped(ErrUnavailable) else Continue
  {
    items', issued' := items, issued;
    if !ValidID(native) {
      verdict := Refused(ErrRun);
    } else if native in items {
      verdict := Continue;
    } else if |items| >= MAX_ITEMS {
      verdict := Refused(ErrLimit);
    } else {
      var id := OpaqueID(issued, random);
      if id.None? {
        return Stopped(ErrUnavailable), items', issued';
      }
      verdict, items', issued' := Continue, items[native := id.value], issued + 1;
    }
  }

  /** The item of a frame of the run's own turn is named. */
  method NameItem(t: Tally, items: map<string, nat>, issued: nat, f: Frame, r: Request, fault: Fault)
      returns (verdict: Verdict, items': map<string, nat>, issued': nat)
    requires OfItem(f) && items.Keys == t.items && |items| == t.itemCount
    ensures verdict == Naming(t, f, r, fault)
    ensures verdict.Continue? ==> Named(items, issued, f.item, items', issued')
  {
    if !f.wellFormed || f.thread != r.thread || f.turn != r.turn || (f.Delta? && f.item in t.completed) {
      return Refused(ErrRun), items, issued;
    }
    verdict, items', issued' := ItemID(items, issued, f.item, fault.random);
  }

  /** `deliver`: count the text, then hand the event to the host. */
  method Deliver(bytes: nat, emitted: seq<RunEvent>, event: RunEvent, emits: Option<Failure>)
      returns (verdict: Verdict, bytes': nat, emitted': seq<RunEvent>)
    ensures bytes' == bytes + if event.Retry? then 0 else |event.text|
    ensures emitted' == if verdict.Continue? then emitted + [event] else emitted
    ensures verdict == if bytes' > MAX_TEXT then Refused(ErrLimit)
                       else if emits.Some? then Stopped(emits.value) else Continue
  {
    bytes', emitted' := bytes + (if event.Retry? then 0 else |event.text|), emitted;
    if bytes' > MAX_TEXT {
      verdict := Refused(ErrLimit);
    } else if emits.Some? {
      verdict := Stopped(emits.value);
    } else {
      verdict, emitted' := Continue, emitted + [event];
    }
  }

  /** Frame `f` was dealt with as the transcript's law says. */
  ghost predicate Dealt(t: Tally, items: map<string, nat>, issued: nat, emitted: seq<RunEvent>, f: Frame,
                        verdict: Verdict, expected: Verdict,
                        t': Tally, items': map<string, nat>, issued': nat, emitted': seq<RunEvent>)
  {
    && (verdict.Continue? ==>
          && t' == Tallied(t, f)
          && (if OfItem(f) then Named(items, issued, f.item, items', issued') else items' == items && issued' == issued)
          && emitted' == emitted + EventFor(t, f, items'))
    && (!verdict.Continue? ==> emitted' == emitted)
    && verdict == expected
  }

  method OnDelta(t: Tally, items: map<string, nat>, issued: nat, emitted: seq<RunEvent>, f: Frame, r: Request,
                 fault: Fault)
      returns (verdict: Verdict, t': Tally, items': map<string, nat>, issued': nat, emitted': seq<RunEvent>)
    requires f.Delta? && t.frames < MAX_FRAMES && items.Keys == t.items && |items| == t.itemCount
    ensures Dealt(t, items, issued, emitted, f, verdict, OfDelta(t, f, r, fault),
                  t', items', issued', emitted')
  {
    t', items', issued', emitted' := t, items, issued, emitted;
    verdict, items', issued' := NameItem(t, items, issued, f, r, fault);
    if !verdict.Continue? {
      return;
    }
    var texts := t.texts[f.item := Prior(t.texts, f.item) + f.delta];
    var bytes;
    verdict, bytes, emitted' := Deliver(t.bytes, emitted, Text(items'[f.item], f.delta), fault.emits);
    t' := WithItem(t, f.item).(frames := t.frames + 1, texts := texts, bytes := bytes);
  }

  method OnStarted(t: Tally, items: map<string, nat>, issued: nat, emitted: seq<RunEvent>, f: Frame, r: Request,
                   fault: Fault)
      returns (verdict: Verdict, t': Tally, items': map<string, nat>, issued': nat)
    requires f.Started? && t.frames < MAX_FRAMES && items.Keys == t.items && |items| == t.itemCount
    ensures Dealt(t, items, issued, emitted, f, verdict, OfStart(t, f, r, fault),
                  t', items', issued', emitted)
  {
    t', items', issued' := t, items, issued;
    verdict, items', issued' := NameItem(t, items, issued, f, r, fault);
    if !verdict.Continue? {
      return;
    }
    var reasoning := t.reasoning;
    if f.reasoning {
      reasoning := reasoning + 1;
      if reasoning > Limit(r) {
        verdict := Refused(ErrLimit);
        return;
      }
    }
    t' := WithItem(t, f.item).(frames := t.frames + 1, reasoning := reasoning);
  }

  /** The completion of a message that has its opaque id. */
  method OnMessage(t: Tally, emitted: seq<RunEvent>, f: Frame, id: nat, emits: Option<Failure>)
      returns (verdict: Verdict, t': Tally, emitted': seq<RunEvent>)
    requires f.Completed? && f.message
    ensures verdict == if !Agrees(t, f) then Refused(ErrRun)
                       else if t.bytes + |f.text| > MAX_TEXT then Refused(ErrLimit)
                       else if emits.Some? then Stopped(emits.value) else Continue
    ensures
      && (verdict.Continue? ==>
            && t' == t.(texts := t.texts - {f.item}, bytes := t.bytes + |f.text|)
            && emitted' == emitted + [Message(id, f.text, f.phase == "final_answer" || f.phase == "")])
      && (!verdict.Continue? ==> emitted' == emitted)
  {
    t', emitted' := t, emitted;
    var prior := Prior(t.texts, f.item);
    if prior != "" && prior != f.text {
      verdict := Refused(ErrRun);
      return;
    }
    var bytes;
    var final := f.phase == "final_answer" || f.phase == "";
    verdict, bytes, emitted' := Deliver(t.bytes, emitted, Message(id, f.text, final), emits);
    t' := t.(texts := t.texts - {f.item}, bytes := bytes);
  }

  method OnCompleted(t: Tally, items: map<string, nat>, issued: nat, emitted: seq<RunEvent>, f: Frame, r: Request,
                     fault: Fault)
      returns (verdict: Verdict, t': Tally, items': map<string, nat>, issued': nat, emitted': seq<RunEvent>)
    requires f.Completed? && t.frames < MAX_FRAMES && items.Keys == t.items && |items| == t.itemCount
    ensures Dealt(t, items, issued, emitted, f, verdict, OfDone(t, f, r, fault),
                  t', items', issued', emitted')
  {
    t', items', issued', emitted' := t, items, issued, emitted;
    verdict, items', issued' := NameItem(t, items, issued, f, r, fault);
    if !verdict.Continue? {
      return;
    }
    verdict, t', emitted' := OnDone(t, emitted, f, items'[f.item], fault.emits);
  }

  /** ... of an item that has its opaque id. */
  method OnDone(t: Tally, emitted: seq<RunEvent>, f: Frame, id: nat, emits: Option<Failure>)
      returns (verdict: Verdict, t': Tally, emitted': seq<RunEvent>)
    requires f.Completed?
    ensures verdict == if f.item in t.completed || !Agrees(t, f) then Refused(ErrRun)
                       else if f.message && t.bytes + |f.text| > MAX_TEXT then Refused(ErrLimit)
                       else if f.message && emits.Some? then Stopped(emits.value) else Continue
    ensures
      && (verdict.Continue? ==>
            && t' == Tallied(t, f)
            && emitted' == emitted + EventFor(t, f, map[f.item := id]))
      && (!verdict.Continue? ==> emitted' == emitted)
  {
    t', emitted' := t, emitted;
    if f.item in t.completed {
      verdict := Refused(ErrRun);
      return;
    }
    t' := WithItem(t, f.item).(frames := t.frames + 1, completed := t.completed + {f.item});
    if f.message {
      verdict, t', emitted' := OnMessage(t', emitted, f, id, emits);
    } else {
      verdict := Continue;
    }
  }

  method OnTurn(t: Tally, f: Frame, r: Request) returns (verdict: Verdict)
    requires f.TurnCompleted? && t.frames < MAX_FRAMES
    ensures verdict == if Ends(t, f, r) then Ended else Refused(ErrRun)
  {
    if !f.wellFormed || f.thread != r.thread || f.turn != r.turn || f.status != "completed" || |t.texts| > 0 {
      assert |t.texts| > 0 ==> t.texts.Keys != {};
      return Refused(ErrRun);
    }
    return Ended;
  }

  method OnError(t: Tally, items: map<string, nat>, issued: nat, emitted: seq<RunEvent>, f: Frame, r: Request,
                 fault: Fault)
      returns (verdict: Verdict, t': Tally, emitted': seq<RunEvent>)
    requires f.Error? && t.frames < MAX_FRAMES && t.bytes <= MAX_TEXT
    ensures Dealt(t, items, issued, emitted, f, verdict, Outcome(t, f, r, fault, None),
                  t', items, issued, emitted')
  {
    t', emitted' := t, emitted;
    if !f.wellFormed || f.thread != r.thread || f.turn != r.turn || f.willRetry.None? || !f.described {
      verdict := Refused(ErrRun);
      return;
    }
    if !f.willRetry.value {
      verdict := Refused(if t.retries > 0 then ErrRetries else ErrRun);
      return;
    }
    if t.retries >= 2 {
      verdict := Refused(ErrRetries);
      return;
    }
    var retries := t.retries + 1;
    var bytes;
    verdict, bytes, emitted' := Deliver(t.bytes, emitted, Retry(retries), fault.emits);
    t' := t.(frames := t.frames + 1, retries := retries);
  }

  /** The host's handler: its answer to the n-th call is the n-th of `host`, and after that
      there is an error or the end of the run. */
  method AskHandler(host: seq<ToolAnswer>, asked: seq<Asked>, answers: seq<ToolAnswer>, call: Asked, hung: bool)
      returns (answer: Option<ToolAnswer>, asked': seq<Asked>, answers': seq<ToolAnswer>)
    requires answers <= host && |asked| == |answers|
    ensures asked' == asked + [call] && answers' <= host
    ensures answers' == answers + if answer.Some? then [answer.value] else []
    ensures answer == if hung then None else AnswerAt(host, |asked|)
  {
    answer := if !hung && |asked| < |host| then Some(host[|asked|]) else None;
    asked' := asked + [call];
    answers' := if answer.Some? then answers + [answer.value] else answers;
  }

  method OnToolCall(host: seq<ToolAnswer>, t: Tally, issued: nat, asked: seq<Asked>, answers: seq<ToolAnswer>,
                    sent: seq<Sent>, f: Frame, r: Request, fault: Fault)
      returns (verdict: Verdict, t': Tally, issued': nat, asked': seq<Asked>, answers': seq<ToolAnswer>, sent': seq<Sent>)
    requires f.ToolCall? && t.frames < MAX_FRAMES && t.calls <= Limit(r) && |asked| == |answers| == |sent| == t.calls
    requires answers <= host
    ensures answers' <= host
    ensures verdict.Continue? ==>
              && Admits(t, f, r) && t' == Tallied(t, f) && issued' == issued + 1
              && asked' == asked + [Asked(issued, f.tool, f.arguments)]
              && |answers'| == |answers| + 1 && answers <= answers'
              && sent' == sent + [Sent(f.rpc, answers'[|answers|])]
    ensures !verdict.Continue? ==>
              && sent' == sent && answers <= answers' && |sent| <= |answers'| <= |asked'| <= Limit(r)
              && (asked' == asked || asked' == asked + [Asked(issued, f.tool, f.arguments)])
    ensures verdict == Outcome(t, f, r, fault, AnswerAt(host, t.calls))
    ensures verdict.Refused? ==> asked' == asked
    ensures verdict.Continue? ==> |answers'[|answers|].text| <= 0x10_0000
  {
    t', issued', asked', answers', sent' := t, issued, asked, answers, sent;
    if |f.rpc| > 512 || f.rpc in t.rpcs {
      verdict := Refused(ErrRun);
      return;
    }
    if !f.wellFormed || f.thread != r.thread || f.turn != r.turn || !ValidID(f.id) || f.id in t.callIDs
       || f.namespaced || f.tool !in r.offered || |f.arguments| > MAX_ARGUMENTS {
      verdict := Refused(ErrRun);
      return;
    }
    if !f.isObject {
      verdict := Refused(ErrRun);
      return;
    }
    if t.calls + 1 > Limit(r) {
      verdict := Refused(ErrLimit);
      return;
    }
    t' := t.(frames := t.frames + 1, calls := t.calls + 1, rpcs := t.rpcs + {f.rpc}, callIDs := t.callIDs + {f.id});
    var id := OpaqueID(issued, fault.random);
    if id.None? {
      verdict := Stopped(ErrUnavailable);
      return;
    }
    issued' := issued + 1;
    var answer;
    answer, asked', answers' := AskHandler(host, asked, answers, Asked(id.value, f.tool, f.arguments), fault.hung);
    if answer.None? {
      verdict := Stopped(if fault.hung then ErrContext else ErrRun);
    } else if fault.late {
      verdict := Stopped(ErrContext);
    } else if |answer.value.text| > MAX_ANSWER {
      verdict := Stopped(ErrLimit);
    } else if fault.broken {
      verdict := Stopped(ErrUnavailable);
    } else {
      sent' := sent + [Sent(f.rpc, answer.value)];
      verdict := Continue;
    }
  }

  /** A tool call was handed over and answered; another frame changes nothing. */
  ghost predicate Handed(asked: seq<Asked>, answers: seq<ToolAnswer>, sent: seq<Sent>, f: Frame, issued: nat,
                         asked': seq<Asked>, answers': seq<ToolAnswer>, sent': seq<Sent>, issued': nat)
  {
    if f.ToolCall?
    then
      && asked' == asked + [Asked(issued, f.tool, f.arguments)] && issued < issued'
      && |answers'| == |answers| + 1 && answers <= answers'
      && sent' == sent + [Sent(f.rpc, answers'[|answers|])]
    else asked' == asked && answers' == answers && sent' == sent
  }

  lemma AnsweredMore(asked: seq<Asked>, answers: seq<ToolAnswer>, sent: seq<Sent>, calls: seq<Frame>, f: Frame, issued: nat,
                     asked': seq<Asked>, answers': seq<ToolAnswer>, sent': seq<Sent>, issued': nat)
    requires Answered(asked, answers, sent, calls) && FreshlyNumbered(asked, issued) && issued <= issued'
    requires Handed(asked, answers, sent, f, issued, asked', answers', sent', issued')
    ensures Answered(asked', answers', sent', calls + if f.ToolCall? then [f] else [])
    ensures FreshlyNumbered(asked', issued')
  {
  }

  lemma {:induction false} TracksMore(t: Tally, items: map<string, nat>, owner: map<nat, string>, issued: nat,
                                      emitted: seq<RunEvent>, fs: seq<Frame>, f: Frame, r: Request,
                                      items': map<string, nat>, issued': nat)
    requires Tracks(t, items, owner, issued, emitted, fs, r) && Admits(t, f, r) && issued <= issued'
    requires if OfItem(f) then Named(items, issued, f.item, items', issued') else items' == items
    ensures Tracks(Tallied(t, f), items', Owners(owner, items, issued, f), issued',
                   emitted + EventFor(t, f, items'), fs + [f], r)
    ensures ToolCalls(fs + [f]) == ToolCalls(fs) + if f.ToolCall? then [f] else []
  {
    NamedOne(t, items, owner, issued, f, items', issued');
    OneMore(fs, f, r, items, items');
  }

  /** One frame. */
  method OneFrame(host: seq<ToolAnswer>, t: Tally, items: map<string, nat>, issued: nat, emitted: seq<RunEvent>,
                  asked: seq<Asked>, answers: seq<ToolAnswer>, sent: seq<Sent>, f: Frame, r: Request, fault: Fault)
      returns (verdict: Verdict, t': Tally, items': map<string, nat>, issued': nat, emitted': seq<RunEvent>,
               asked': seq<Asked>, answers': seq<ToolAnswer>, sent': seq<Sent>)
    requires t.frames < MAX_FRAMES && items.Keys == t.items && |items| == t.itemCount
    requires t.bytes <= MAX_TEXT && t.calls <= Limit(r) && |asked| == |answers| == |sent| == t.calls
    requires answers <= host
    ensures answers' <= host
    ensures verdict.Continue? ==>
              && Admits(t, f, r) && t' == Tallied(t, f) && issued <= issued'
              && (if OfItem(f) then Named(items, issued, f.item, items', issued') else items' == items)
              && emitted' == emitted + EventFor(t, f, items')
              && Handed(asked, answers, sent, f, issued, asked', answers', sent', issued')
    ensures verdict.Continue? && f.ToolCall? ==> |answers'[|answers|].text| <= 0x10_0000
    ensures verdict == Outcome(t, f, r, fault, AnswerAt(host, t.calls))
    ensures verdict.Ended? <==> Ends(t, f, r)
    ensures verdict.Refused? ==> !Admits(t, f, r) && asked' == asked && answers' == answers
    ensures verdict.Ended? ==> asked' == asked && answers' == answers
    ensures !verdict.Continue? ==>
              && answers <= answers' && |sent| <= |answers'| <= |asked'| <= Limit(r)
              && (asked' == asked || (f.ToolCall? && asked' == asked + [Asked(issued, f.tool, f.arguments)]))
  {
    t', items', issued', emitted', asked', answers', sent' := t, items, issued, emitted, asked, answers, sent;
    OutcomeMeans(t, f, r, fault, AnswerAt(host, t.calls));
    if OfItem(f) {
      ItemOutcome(t, f, r, fault, AnswerAt(host, t.calls));
    }
    match f {
      case OtherRequest(_) =>
        verdict := Refused(ErrRun);
      case ToolCall(_, _, _, _, _, _, _, _, _) =>
        verdict, t', issued', asked', answers', sent' := OnToolCall(host, t, issued, asked, answers, sent, f, r, fault);
      case Delta(_, _, _, _, _) =>
        verdict, t', items', issued', emitted' := OnDelta(t, items, issued, emitted, f, r, fault);
      case Started(_, _, _, _, _) =>
        verdict, t', items', issued' := OnStarted(t, items, issued, emitted, f, r, fault);
      case Completed(_, _, _, _, _, _, _) =>
        verdict, t', items', issued', emitted' := OnCompleted(t, items, issued, emitted, f, r, fault);
      case TurnCompleted(_, _, _, _) =>
        verdict := OnTurn(t, f, r);
      case Error(_, _, _, _, _) =>
        verdict, t', emitted' := OnError(t, items, issued, emitted, f, r, fault);
      case Notice =>
        verdict, t' := Continue, t.(frames := t.frames + 1);
    }
  }

  /** What was asked of the host and sent to the native process for `calls`, when at
      most one more call was in progress at the end. */
  ghost predicate HandedOver(asked: seq<Asked>, answers: seq<ToolAnswer>, sent: seq<Sent>, calls: seq<Frame>, r: Request) {
    && |calls| == |sent| <= |answers| <= |asked| <= Limit(r) && |asked| <= |sent| + 1
    && Answered(asked[..|sent|], answers[..|sent|], sent, calls)
    && (forall i, j :: 0 <= i < j < |asked| ==> asked[i].id != asked[j].id)
  }

  lemma {:induction false} Interrupted(asked: seq<Asked>, answers: seq<ToolAnswer>, sent: seq<Sent>,
                                       calls: seq<Frame>, r: Request,
                    issued: nat, asked': seq<Asked>, answers': seq<ToolAnswer>)
    requires Answered(asked, answers, sent, calls) && FreshlyNumbered(asked, issued)
    requires answers <= answers' && |answers'| <= |asked'| <= Limit(r)
    requires asked' == asked || (|asked'| == |asked| + 1 && asked <= asked' && asked'[|asked|].id == issued)
    ensures HandedOver(asked', answers', sent, calls, r)
  {
    assert asked'[..|sent|] == asked && answers'[..|sent|] == answers;
  }

  /** The variables of the loop. */
  datatype Vars = Vars(t: Tally, items: map<string, nat>, issued: nat, emitted: seq<RunEvent>,
                       asked: seq<Asked>, answers: seq<ToolAnswer>, sent: seq<Sent>)

  /** The loop has dealt with `fs` and goes on. */
  ghost predicate Going(v: Vars, owner: map<nat, string>, fs: seq<Frame>, r: Request) {
    && Tracks(v.t, v.items, owner, v.issued, v.emitted, fs, r)
    && Answered(v.asked, v.answers, v.sent, ToolCalls(fs)) && FreshlyNumbered(v.asked, v.issued)
  }

  /** What left the bridge is what `fs` says. */
  ghost predicate Over(v: Vars, fs: seq<Frame>, r: Request) {
    && Lawful(fs, r)
    && Injective(v.items) && v.items.Keys == TallyOf(fs).items && v.emitted == Forwarded(fs, v.items)
    && HandedOver(v.asked, v.answers, v.sent, ToolCalls(fs), r)
  }

  /** Why the loop ends at frame `f` after `fs`. */
  ghost predicate Because(verdict: Verdict, v: Vars, fs: seq<Frame>, f: Frame, r: Request) {
    && (verdict.Ended? ==> Ends(TallyOf(fs), f, r))
    && (verdict.Refused? ==> !Admits(TallyOf(fs), f, r) && !Ends(TallyOf(fs), f, r))
    && (!verdict.Stopped? ==> |v.asked| == |v.sent|)
  }

  lemma {:induction false} GoingIsOver(v: Vars, owner: map<nat, string>, fs: seq<Frame>, r: Request)
    requires Going(v, owner, fs, r)
    ensures Over(v, fs, r)
  {
    LawfulIsBounded(fs, r);
    OwnedIsInjective(v.items, owner, v.issued);
    Interrupted(v.asked, v.answers, v.sent, ToolCalls(fs), r, v.issued, v.asked, v.answers);
  }

  /** No answer that was sent is longer than 1 MiB. */
  predicate Short(sent: seq<Sent>) {
    forall i :: 0 <= i < |sent| ==> |sent[i].answer.text| <= 0x10_0000
  }

  method Turn(host: seq<ToolAnswer>, v: Vars, f: Frame, r: Request, fault: Fault, ghost owner: map<nat, string>,
              ghost fs: seq<Frame>)
      returns (verdict: Verdict, v': Vars, ghost owner': map<nat, string>)
    requires Going(v, owner, fs, r) && v.answers <= host && Short(v.sent)
    ensures v'.answers <= host && Short(v'.sent)
    ensures verdict == Outcome(TallyOf(fs), f, r, fault, AnswerAt(host, TallyOf(fs).calls))
    ensures verdict.Continue? ==> Going(v', owner', fs + [f], r)
    ensures !verdict.Continue? ==> Over(v', fs, r) && Because(verdict, v', fs, f, r)
  {
    LawfulIsBounded(fs, r);
    GoingIsOver(v, owner, fs, r);
    v', owner' := v, owner;
    if v.t.frames + 1 > MAX_FRAMES {
      TooManyFrames(v.t, f, r, fault, AnswerAt(host, v.t.calls));
      verdict := Refused(ErrLimit);
      return;
    }
    var t', items', issued', emitted', asked', answers', sent';
    verdict, t', items', issued', emitted', asked', answers', sent' :=
      OneFrame(host, v.t, v.items, v.issued, v.emitted, v.asked, v.answers, v.sent, f, r, fault);
    if verdict.Continue? {
      TracksMore(v.t, v.items, owner, v.issued, v.emitted, fs, f, r, items', issued');
      AnsweredMore(v.asked, v.answers, v.sent, ToolCalls(fs), f, v.issued, asked', answers', sent', issued');
      v' := Vars(t', items', issued', emitted', asked', answers', sent');
      owner' := Owners(owner, v.items, v.issued, f);
    } else {
      Interrupted(v.asked, v.answers, v.sent, ToolCalls(fs), r, v.issued, asked', answers');
      v' := v.(asked := asked', answers := answers');
    }
  }

  /** How frame `k` ends the loop, or that it does not. */
  function StepOf(host: seq<ToolAnswer>, faults: seq<Fault>, frames: seq<Frame>, k: nat, r: Request): Verdict
    requires k < |frames|
  {
    var t := TallyOf(frames[..k]);
    Outcome(t, frames[k], r, At(faults, k), AnswerAt(host, t.calls))
  }

  predicate Goes(host: seq<ToolAnswer>, faults: seq<Fault>, frames: seq<Frame>, k: nat, r: Request)
    requires k < |frames|
  {
    At(faults, k).over.None? && StepOf(host, faults, frames, k, r).Continue?
  }

  /** Nothing ends the loop at the first `n` frames. */
  ghost predicate Went(host: seq<ToolAnswer>, faults: seq<Fault>, frames: seq<Frame>, n: nat, r: Request)
    requires n <= |frames|
  {
    forall k :: 0 <= k < n ==> Goes(host, faults, frames, k, r)
  }

  /** At frame `k` the loop ends so. */
  predicate LoopEnds(host: seq<ToolAnswer>, faults: seq<Fault>, frames: seq<Frame>, k: nat, r: Request, v: Verdict)
    requires k <= |frames|
  {
    v == if At(faults, k).over.Some? then Stopped(At(faults, k).over.value)
         else if k == |frames| then Stopped(ErrUnavailable)
         else StepOf(host, faults, frames, k, r)
  }

  lemma StepIs(host: seq<ToolAnswer>, faults: seq<Fault>, frames: seq<Frame>, seen: seq<Frame>, r: Request, v: Verdict)
    requires seen <= frames && |seen| < |frames| && At(faults, |seen|).over.None?
    requires v == Outcome(TallyOf(seen), frames[|seen|], r, At(faults, |seen|), AnswerAt(host, TallyOf(seen).calls))
    requires Went(host, faults, frames, |seen|, r)
    ensures if v.Continue? then Went(host, faults, frames, |seen| + 1, r) else LoopEnds(host, faults, frames, |seen|, r, v)
  {
    assert frames[..|seen|] == seen;
  }

  /** The event loop: it takes the frames as they come, until the turn ends, a frame
      is refused, or the host, the clock or the native process stop it. `seen` are
      the frames dealt with before that. */
  method EventLoop(host: seq<ToolAnswer>, faults: seq<Fault>, frames: seq<Frame>, r: Request)
      returns (verdict: Verdict, seen: seq<Frame>, v: Vars)
    ensures seen <= frames && Over(v, seen, r) && !verdict.Continue? && v.answers <= host && Short(v.sent)
    ensures !verdict.Stopped? ==> |seen| < |frames| && Because(verdict, v, seen, frames[|seen|], r)
    ensures Went(host, faults, frames, |seen|, r) && LoopEnds(host, faults, frames, |seen|, r, verdict)
  {
    verdict, seen, v := Continue, [], Vars(TallyOf([]), map[], 0, [], [], [], []);
    ghost var owner := map[];
    while true
      invariant seen <= frames && Going(v, owner, seen, r) && v.answers <= host && Short(v.sent)
      invariant Went(host, faults, frames, |seen|, r)
      decreases |frames| - |seen|
    {
      var fault := At(faults, |seen|);
      if fault.over.Some? || |seen| == |frames| {
        GoingIsOver(v, owner, seen, r);
        return Stopped(if fault.over.Some? then fault.over.value else ErrUnavailable), seen, v;
      }
      var f := frames[|seen|];
      verdict, v, owner := Turn(host, v, f, r, fault, owner, seen);
      StepIs(host, faults, frames, seen, r, verdict);
      if !verdict.Continue? {
        return;
      }
      seen := seen + [f];
    }
  }
}
