/**
  What a lawful transcript and a run over it mean, without the loop's tables.
*/
module RunMeaning {
  import opened Prelude
  import opened Transcript
  import opened RunLoop

  // ---- The transcript as a whole -------------------------------------------------

  /** The concatenated deltas of an item. */
  function Streamed(fs: seq<Frame>, item: string): string {
    if fs == [] then ""
    else
      var f := fs[|fs| - 1];
      Streamed(fs[..|fs| - 1], item) + if f.Delta? && f.item == item then f.delta else ""
  }

  /** The final messages of an item, in order. */
  function FinalMessages(fs: seq<Frame>, item: string): seq<string> {
    if fs == [] then []
    else
      var f := fs[|fs| - 1];
      FinalMessages(fs[..|fs| - 1], item) + if f.Completed? && f.message && f.item == item then [f.text] else []
  }

  function Reasonings(fs: seq<Frame>): nat {
    if fs == [] then 0
    else
      var f := fs[|fs| - 1];
      Reasonings(fs[..|fs| - 1]) + if f.Started? && f.reasoning then 1 else 0
  }

  function Retries(fs: seq<Frame>): nat {
    if fs == [] then 0
    else Retries(fs[..|fs| - 1]) + if fs[|fs| - 1].Error? then 1 else 0
  }

  function TextBytes(fs: seq<Frame>): nat {
    if fs == [] then 0
    else
      var f := fs[|fs| - 1];
      TextBytes(fs[..|fs| - 1]) + if f.Delta? then |f.delta| else if f.Completed? && f.message then |f.text| else 0
  }

  function Items(fs: seq<Frame>): set<string> {
    set i | 0 <= i < |fs| && OfItem(fs[i]) :: fs[i].item
  }

  /** A frame that is in order for itself. */
  predicate Fine(f: Frame, r: Request) {
    match f
    case ToolCall(rpc, wellFormed, thread, turn, id, tool, namespaced, arguments, isObject) =>
      && |rpc| <= 512 && wellFormed && thread == r.thread && turn == r.turn
      && ValidID(id) && !namespaced && tool in r.offered && |arguments| <= MAX_ARGUMENTS && isObject
    case OtherRequest(_) => false
    case TurnCompleted(_, _, _, _) => false
    case Error(_, _, _, willRetry, described) => OwnTurn(f, r) && described && willRetry == Some(true)
    case Notice => true
    case _ => OwnTurn(f, r) && ValidID(f.item)
  }

  predicate Clash(f: Frame, g: Frame) {
    || (f.ToolCall? && g.ToolCall? && (f.rpc == g.rpc || f.id == g.id))
    || (f.Completed? && (g.Delta? || g.Completed?) && f.item == g.item)
  }

  /** The message agrees with what was streamed for its item before. */
  predicate Agrees(fs: seq<Frame>, j: nat)
    requires j < |fs|
  {
    var f := fs[j];
    f.Completed? && f.message ==> Streamed(fs[..j], f.item) == "" || Streamed(fs[..j], f.item) == f.text
  }

  /** The whole law: every frame in order for itself, no RPC id or call id twice,
      nothing of an item after its completion, every message what was streamed, and
      the limits. */
  ghost predicate Declared(fs: seq<Frame>, r: Request) {
    && (forall i :: 0 <= i < |fs| ==> Fine(fs[i], r))
    && (forall i, j :: 0 <= i < j < |fs| ==> !Clash(fs[i], fs[j]))
    && (forall j :: 0 <= j < |fs| ==> Agrees(fs, j))
    && WithinLimits(fs, r)
  }

  ghost predicate WithinLimits(fs: seq<Frame>, r: Request) {
    && |fs| <= MAX_FRAMES
    && |ToolCalls(fs)| <= Limit(r) && Reasonings(fs) <= Limit(r) && Retries(fs) <= 2
    && TextBytes(fs) <= MAX_TEXT && |Items(fs)| <= MAX_ITEMS
  }

  // ---- The tables mean what they should -------------------------------------------

  lemma {:induction false} Counts(fs: seq<Frame>)
    ensures var t := TallyOf(fs);
      && t.frames == |fs| && t.calls == |ToolCalls(fs)| && t.reasoning == Reasonings(fs)
      && t.retries == Retries(fs) && t.bytes == TextBytes(fs)
  {
    if fs != [] {
      Counts(fs[..|fs| - 1]);
    }
  }

  /** The tables of ids tell whether a frame clashes with an earlier one. */
  ghost predicate Apart(t: Tally, g: Frame) {
    && (g.ToolCall? ==> g.rpc !in t.rpcs && g.id !in t.callIDs)
    && (g.Delta? || g.Completed? ==> g.item !in t.completed)
  }

  lemma {:induction false} ApartMeans(fs: seq<Frame>, g: Frame)
    ensures Apart(TallyOf(fs), g) <==> (forall i :: 0 <= i < |fs| ==> !Clash(fs[i], g))
  {
    if fs != [] {
      var before, f := fs[..|fs| - 1], fs[|fs| - 1];
      ApartMeans(before, g);
      assert forall i :: 0 <= i < |before| ==> before[i] == fs[i];
      assert Apart(TallyOf(fs), g) <==> Apart(TallyOf(before), g) && !Clash(f, g);
    }
  }

  lemma {:induction false} OneMoreItem(fs: seq<Frame>)
    requires fs != []
    ensures var f := fs[|fs| - 1];
      Items(fs) == Items(fs[..|fs| - 1]) + if OfItem(f) then {f.item} else {}
  {
    var before, f := fs[..|fs| - 1], fs[|fs| - 1];
    forall x | x in Items(before) ensures x in Items(fs) {
      var i :| 0 <= i < |before| && OfItem(before[i]) && before[i].item == x;
      assert fs[i] == before[i];
    }
    forall x | x in Items(fs) ensures x in Items(before) || (OfItem(f) && x == f.item) {
      var i :| 0 <= i < |fs| && OfItem(fs[i]) && fs[i].item == x;
      assert i < |before| ==> before[i] == fs[i];
    }
  }

  lemma {:induction false} ItemsAre(fs: seq<Frame>)
    ensures TallyOf(fs).items == Items(fs) && TallyOf(fs).itemCount == |Items(fs)|
  {
    if fs != [] {
      ItemsAre(fs[..|fs| - 1]);
      OneMoreItem(fs);
      TalliedItems(TallyOf(fs[..|fs| - 1]), fs[|fs| - 1]);
    }
  }

  lemma TalliedItems(t: Tally, f: Frame)
    requires t.itemCount == |t.items|
    ensures Tallied(t, f).items == t.items + if OfItem(f) then {f.item} else {}
    ensures Tallied(t, f).itemCount == |Tallied(t, f).items|
  {
    assert OfItem(f) && f.item in t.items ==> t.items + {f.item} == t.items;
  }

  /** Item by item: what has been streamed and finished. */
  ghost predicate Tallies(t: Tally, fs: seq<Frame>, n: string) {
    && |FinalMessages(fs, n)| <= 1
    && (n in t.texts ==> t.texts[n] == Streamed(fs, n))
    && (n !in t.completed ==> FinalMessages(fs, n) == [] && Prior(t.texts, n) == Streamed(fs, n))
    && (n !in t.texts ==> Streamed(fs, n) == "" || FinalMessages(fs, n) == [Streamed(fs, n)])
  }

  lemma {:induction false} TextsMean(fs: seq<Frame>, r: Request, n: string)
    requires Lawful(fs, r)
    ensures Tallies(TallyOf(fs), fs, n)
  {
    if fs != [] {
      var before, f := fs[..|fs| - 1], fs[|fs| - 1];
      TextsMean(before, r, n);
      if !(f.Delta? && f.item == n) {
        assert Streamed(fs, n) == Streamed(before, n);
      }
      if f.Completed? && f.message && f.item == n {
        assert FinalMessages(fs, n) == [f.text];
      } else {
        assert FinalMessages(fs, n) == FinalMessages(before, n);
      }
    }
  }

  // ---- Lawful, frame by frame, is Declared, as a whole ---------------------------

  lemma {:induction false} DeclaredBefore(before: seq<Frame>, f: Frame, r: Request)
    requires Declared(before + [f], r)
    ensures Declared(before, r)
  {
    var fs := before + [f];
    assert fs[..|before|] == before;
    assert forall i :: 0 <= i < |before| ==> fs[i] == before[i];
    forall j | 0 <= j < |before| ensures Agrees(before, j) {
      assert Agrees(fs, j) && fs[..j] == before[..j];
    }
    ItemsAre(fs);
    ItemsAre(before);
  }

  lemma {:induction false} ClashesMore(before: seq<Frame>, f: Frame)
    requires forall i, j :: 0 <= i < j < |before| ==> !Clash(before[i], before[j])
    ensures (forall i, j :: 0 <= i < j < |before| + 1 ==> !Clash((before + [f])[i], (before + [f])[j]))
            <==> Apart(TallyOf(before), f)
  {
    var fs := before + [f];
    ApartMeans(before, f);
    if forall i, j :: 0 <= i < j < |fs| ==> !Clash(fs[i], fs[j]) {
      forall i | 0 <= i < |before| ensures !Clash(before[i], f) {
        assert !Clash(fs[i], fs[|before|]);
      }
    }
  }

  lemma {:induction false} AgreesMore(before: seq<Frame>, f: Frame, r: Request)
    requires Lawful(before, r) && (forall j :: 0 <= j < |before| ==> Agrees(before, j))
    requires f.Completed? ==> f.item !in TallyOf(before).completed
    ensures (forall j :: 0 <= j < |before| + 1 ==> Agrees(before + [f], j))
            <==> (f.Completed? && f.message ==>
                    Prior(TallyOf(before).texts, f.item) == "" || Prior(TallyOf(before).texts, f.item) == f.text)
  {
    var fs := before + [f];
    forall j | 0 <= j < |before| ensures Agrees(fs, j) {
      assert Agrees(before, j) && fs[..j] == before[..j] && fs[j] == before[j];
    }
    assert fs[..|before|] == before;
    if f.Completed? {
      TextsMean(before, r, f.item);
    }
    assert Agrees(fs, |before|) <==>
           (f.Completed? && f.message ==> Streamed(before, f.item) == "" || Streamed(before, f.item) == f.text);
  }

  ghost predicate Room(t: Tally, f: Frame, r: Request) {
    && t.frames < MAX_FRAMES
    && (f.ToolCall? ==> t.calls < Limit(r)) && (f.Error? ==> t.retries < 2)
    && (f.Started? && f.reasoning ==> t.reasoning < Limit(r))
    && (f.Delta? ==> t.bytes + |f.delta| <= MAX_TEXT)
    && (f.Completed? && f.message ==> t.bytes + |f.text| <= MAX_TEXT)
    && (OfItem(f) ==> f.item in t.items || t.itemCount < MAX_ITEMS)
  }

  lemma {:induction false} LimitsMore(before: seq<Frame>, f: Frame, r: Request)
    requires WithinLimits(before, r)
    ensures WithinLimits(before + [f], r) <==> Room(TallyOf(before), f, r)
  {
    var fs := before + [f];
    assert fs[..|before|] == before;
    Counts(before);
    Counts(fs);
    ItemsAre(before);
    ItemsAre(fs);
  }

  lemma AdmitsParts(t: Tally, f: Frame, r: Request)
    ensures Admits(t, f, r) <==>
            && Fine(f, r) && Apart(t, f) && Room(t, f, r)
            && (f.Completed? && f.message ==> Prior(t.texts, f.item) == "" || Prior(t.texts, f.item) == f.text)
  {
  }

  lemma {:induction false} OneFrameMore(before: seq<Frame>, f: Frame, r: Request)
    requires Lawful(before, r) && Declared(before, r)
    ensures Declared(before + [f], r) <==> Admits(TallyOf(before), f, r)
  {
    var fs, t := before + [f], TallyOf(before);
    LimitsMore(before, f, r);
    ClashesMore(before, f);
    AdmitsParts(t, f, r);
    assert (forall i :: 0 <= i < |fs| ==> Fine(fs[i], r)) <==> Fine(f, r) by {
      assert fs[|before|] == f;
      assert forall i :: 0 <= i < |before| ==> fs[i] == before[i];
    }
    if Apart(t, f) {
      AgreesMore(before, f, r);
    }
  }

  /** What the loop accepts frame by frame, with its tables, is exactly what the law
      says of the transcript as a whole. */
  lemma {:induction false} LawfulIsDeclared(fs: seq<Frame>, r: Request)
    ensures Lawful(fs, r) <==> Declared(fs, r)
  {
    if fs == [] {
      ItemsAre(fs);
    } else {
      var before, f := fs[..|fs| - 1], fs[|fs| - 1];
      assert fs == before + [f];
      LawfulIsDeclared(before, r);
      if Lawful(before, r) {
        OneFrameMore(before, f, r);
      } else if Declared(fs, r) {
        DeclaredBefore(before, f, r);
      }
    }
  }

  // ---- What leaves the bridge means ------------------------------------------------

  /** The text forwarded under an opaque id, in order. */
  function TextOf(es: seq<RunEvent>, id: nat): string {
    if es == [] then ""
    else
      var e := es[|es| - 1];
      TextOf(es[..|es| - 1], id) + if e.Text? && e.id == id then e.text else ""
  }

  function MessagesOf(es: seq<RunEvent>, id: nat): seq<string> {
    if es == [] then []
    else
      var e := es[|es| - 1];
      MessagesOf(es[..|es| - 1], id) + if e.Message? && e.id == id then [e.text] else []
  }

  function BytesOf(es: seq<RunEvent>): nat {
    if es == [] then 0
    else
      var e := es[|es| - 1];
      BytesOf(es[..|es| - 1]) + if e.Retry? then 0 else |e.text|
  }

  function RetriesOf(es: seq<RunEvent>): seq<nat> {
    if es == [] then []
    else
      var e := es[|es| - 1];
      RetriesOf(es[..|es| - 1]) + if e.Retry? then [e.attempt] else []
  }

  lemma {:induction false} OneEvent(es: seq<RunEvent>, e: RunEvent, id: nat)
    ensures TextOf(es + [e], id) == TextOf(es, id) + if e.Text? && e.id == id then e.text else ""
    ensures MessagesOf(es + [e], id) == MessagesOf(es, id) + if e.Message? && e.id == id then [e.text] else []
  {
    assert (es + [e])[..|es|] == es;
  }

  /** The event for frame `f` has the frame's text under the id of its item. */
  lemma {:induction false} ContentMore(es: seq<RunEvent>, t: Tally, f: Frame, ids: map<string, nat>, n: string)
    requires (OfItem(f) ==> f.item in ids) && Injective(ids) && n in ids
    ensures var ds := es + EventFor(t, f, ids);
      && TextOf(ds, ids[n]) == TextOf(es, ids[n]) + (if f.Delta? && f.item == n then f.delta else "")
      && MessagesOf(ds, ids[n])
         == MessagesOf(es, ids[n]) + (if f.Completed? && f.message && f.item == n then [f.text] else [])
  {
    var more := EventFor(t, f, ids);
    if more == [] {
      assert es + more == es;
    } else {
      assert es + more == es + [more[0]];
      OneEvent(es, more[0], ids[n]);
    }
  }

  /** Item by item, what is forwarded is what was streamed and finished. */
  lemma {:induction false} ForwardedContent(fs: seq<Frame>, ids: map<string, nat>, n: string)
    requires TallyOf(fs).items <= ids.Keys && Injective(ids) && n in ids
    ensures TextOf(Forwarded(fs, ids), ids[n]) == Streamed(fs, n)
    ensures MessagesOf(Forwarded(fs, ids), ids[n]) == FinalMessages(fs, n)
  {
    if fs != [] {
      var before, f := fs[..|fs| - 1], fs[|fs| - 1];
      ForwardedContent(before, ids, n);
      ContentMore(Forwarded(before, ids), TallyOf(before), f, ids, n);
    }
  }

  ghost predicate CountsUp(s: seq<nat>, n: nat) {
    |s| == n && forall i :: 0 <= i < n ==> s[i] == i + 1
  }

  lemma {:induction false} TotalsMore(es: seq<RunEvent>, t: Tally, f: Frame, ids: map<string, nat>)
    requires (OfItem(f) ==> f.item in ids) && BytesOf(es) == t.bytes && CountsUp(RetriesOf(es), t.retries)
    ensures var ds := es + EventFor(t, f, ids);
      BytesOf(ds) == Tallied(t, f).bytes && CountsUp(RetriesOf(ds), Tallied(t, f).retries)
  {
    var more := EventFor(t, f, ids);
    if more == [] {
      assert es + more == es;
    } else {
      assert es + more == es + [more[0]];
      OneTotal(es, more[0]);
    }
    TalliedTotals(t, f);
  }

  lemma TalliedTotals(t: Tally, f: Frame)
    ensures Tallied(t, f).bytes == t.bytes + if f.Delta? then |f.delta| else if f.Completed? && f.message then |f.text| else 0
    ensures Tallied(t, f).retries == t.retries + if f.Error? then 1 else 0
  {
  }

  lemma {:induction false} OneTotal(es: seq<RunEvent>, e: RunEvent)
    ensures BytesOf(es + [e]) == BytesOf(es) + if e.Retry? then 0 else |e.text|
    ensures RetriesOf(es + [e]) == RetriesOf(es) + if e.Retry? then [e.attempt] else []
  {
    assert (es + [e])[..|es|] == es;
  }

  lemma {:induction false} ForwardedTotals(fs: seq<Frame>, ids: map<string, nat>)
    requires TallyOf(fs).items <= ids.Keys
    ensures BytesOf(Forwarded(fs, ids)) == TallyOf(fs).bytes
    ensures CountsUp(RetriesOf(Forwarded(fs, ids)), TallyOf(fs).retries)
  {
    if fs != [] {
      var before, f := fs[..|fs| - 1], fs[|fs| - 1];
      ForwardedTotals(before, ids);
      TotalsMore(Forwarded(before, ids), TallyOf(before), f, ids);
    }
  }

  lemma {:induction false} ForwardedIds(fs: seq<Frame>, ids: map<string, nat>)
    requires TallyOf(fs).items <= ids.Keys
    ensures forall e :: e in Forwarded(fs, ids) && !e.Retry? ==> e.id in ids.Values
  {
    if fs != [] {
      var f := fs[|fs| - 1];
      ForwardedIds(fs[..|fs| - 1], ids);
      if OfItem(f) {
        assert ids[f.item] in ids.Values;
      }
    }
  }

  /** Nothing of an item is forwarded after its message. */
  ghost predicate MessageLast(es: seq<RunEvent>) {
    forall i, j :: 0 <= i < j < |es| && es[i].Message? && !es[j].Retry? ==> es[i].id != es[j].id
  }

  lemma {:induction false} ForwardedOrder(fs: seq<Frame>, ids: map<string, nat>, r: Request)
    requires Lawful(fs, r) && TallyOf(fs).items <= ids.Keys && Injective(ids)
    ensures MessageLast(Forwarded(fs, ids))
    ensures forall n, e :: n in ids && n !in TallyOf(fs).completed && e in Forwarded(fs, ids) && e.Message? ==>
              e.id != ids[n]
  {
    if fs != [] {
      var before, f := fs[..|fs| - 1], fs[|fs| - 1];
      ForwardedOrder(before, ids, r);
      var es, more := Forwarded(before, ids), EventFor(TallyOf(before), f, ids);
      if more == [] {
        assert es + more == es;
      } else {
        assert es + more == es + [more[0]];
        assert forall i :: 0 <= i < |es| ==> es[i] in es;
      }
    }
  }

  /** A run that ends well: under every opaque id, the text forwarded is empty or
      exactly the one message of that item, nothing follows an item's message, and
      no item is left with text and no message. */
  lemma {:induction false} EndedRunIsFaithful(v: Vars, seen: seq<Frame>, f: Frame, r: Request, id: nat)
    requires Over(v, seen, r) && Ends(TallyOf(seen), f, r)
    ensures |MessagesOf(v.emitted, id)| <= 1
    ensures TextOf(v.emitted, id) == "" || MessagesOf(v.emitted, id) == [TextOf(v.emitted, id)]
    ensures MessageLast(v.emitted)
  {
    ForwardedOrder(seen, v.items, r);
    ForwardedIds(seen, v.items);
    if n :| n in v.items && v.items[n] == id {
      ForwardedContent(seen, v.items, n);
      TextsMean(seen, r, n);
    } else {
      NothingOf(v.emitted, id);
    }
  }

  lemma {:induction false} NothingOf(es: seq<RunEvent>, id: nat)
    requires forall e :: e in es && !e.Retry? ==> e.id != id
    ensures TextOf(es, id) == "" && MessagesOf(es, id) == []
  {
    if es != [] {
      NothingOf(es[..|es| - 1], id);
    }
  }

  /** However a run ends: the text stays within 2 MiB, at most two retries are
      announced, as 1 and 2, and at most 20 calls (4 for a critic) reach the handler,
      each under an id of its own. */
  lemma {:induction false} EveryRunIsBounded(v: Vars, seen: seq<Frame>, r: Request)
    requires Over(v, seen, r)
    ensures BytesOf(v.emitted) <= MAX_TEXT
    ensures RetriesOf(v.emitted) <= [1, 2] && MessageLast(v.emitted)
    ensures |v.asked| <= (if r.critic then 4 else 20) && |v.sent| <= |v.asked| <= |v.sent| + 1
    ensures forall i, j :: 0 <= i < j < |v.asked| ==> v.asked[i].id != v.asked[j].id
  {
    LawfulIsBounded(seen, r);
    ForwardedTotals(seen, v.items);
    ForwardedOrder(seen, v.items, r);
  }

  /** Answer `i` goes back under the RPC id of one tool call of the transcript. */
  ghost predicate AnswersACall(v: Vars, seen: seq<Frame>, i: nat)
    requires i < |v.sent| && i < |v.asked|
  {
    exists f :: f in seen && f.ToolCall? && f.rpc == v.sent[i].rpc
                && f.tool == v.asked[i].tool && f.arguments == v.asked[i].arguments
  }

  /** Every answer sent is the handler's answer to a call that the transcript made,
      for a tool that was offered, under the RPC id of that call alone. */
  lemma {:induction false} EveryAnswerIsToItsCall(v: Vars, seen: seq<Frame>, r: Request)
    requires Over(v, seen, r)
    ensures |v.sent| <= |v.asked| && |v.sent| <= |v.answers|
    ensures forall i, j :: 0 <= i < j < |v.sent| ==> v.sent[i].rpc != v.sent[j].rpc
    ensures forall i :: 0 <= i < |v.sent| ==>
              v.sent[i].answer == v.answers[i] && v.asked[i].tool in r.offered && AnswersACall(v, seen, i)
  {
    CallsAre(seen, r);
    var cs := ToolCalls(seen);
    forall i | 0 <= i < |v.sent|
      ensures cs[i] in seen && v.sent[i] == Sent(cs[i].rpc, v.answers[i])
      ensures v.asked[i].tool == cs[i].tool && v.asked[i].arguments == cs[i].arguments && cs[i].tool in r.offered
    {
      assert v.asked[..|v.sent|][i] == v.asked[i] && v.answers[..|v.sent|][i] == v.answers[i];
      assert cs[i] in cs;
    }
  }

  lemma {:induction false} CallsAre(fs: seq<Frame>, r: Request)
    requires Lawful(fs, r)
    ensures forall c :: c in ToolCalls(fs) ==> c in fs && c.ToolCall? && c.tool in r.offered && c.rpc in TallyOf(fs).rpcs
    ensures forall i, j :: 0 <= i < j < |ToolCalls(fs)| ==> ToolCalls(fs)[i].rpc != ToolCalls(fs)[j].rpc
  {
    if fs != [] {
      var before, f := fs[..|fs| - 1], fs[|fs| - 1];
      CallsAre(before, r);
      assert fs == before + [f];
      var cs := ToolCalls(before);
      assert forall i :: 0 <= i < |cs| ==> cs[i] in cs;
      if !f.ToolCall? {
        assert ToolCalls(fs) == cs;
      }
    }
  }
}
