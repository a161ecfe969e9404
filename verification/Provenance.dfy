/**
  What a tombstone reaches (internal/desk/ai_memory.go:235-257, 291-354). A suggestion
  that carries an id puts a message's text into an entry that records another message and
  another key. Here each entry is credited with every message whose text was ever put into
  it, and the two promises of a tombstone, that what was forgotten does not come back and
  that nothing is stored under a tombstone, are shown to hold exactly as far as the request
  fits the entry it names.
*/
module Provenance {
  import opened Prelude
  import opened Memory

  /** The messages whose text suggestions have put into the entry of an id. */
  type Credits = map<nat, set<nat>>

  function Behind(src: Credits, id: nat): set<nat> {
    if id in src then src[id] else {}
  }

  /** A suggestion that is stored, and was not before. */
  predicate Writes(d: Document, c: Change, w: World) {
    c.action == Suggest && w.message.Some? && Apply(d, c, w).Some? && |d.blocked| <= TOMBS && !Again(d, c, w)
  }

  /** A new entry has no credit from an older one; a suggestion's text is that of its message. */
  function Credited(src: Credits, d: Document, c: Change, w: World): Credits {
    var kept := src - {w.newID};
    if !Writes(d, c, w) then kept
    else if Hits(d, c) then kept[c.id := Behind(kept, c.id) + {w.message.value.digest}]
    else kept[w.newID := {w.message.value.digest}]
  }

  /** Forgetting an entry of that key reaches message `s`, unless it is buried already. */
  predicate Reached(d: Document, key: string, s: nat) {
    OfSource(s) in d.blocked || exists f :: f in d.entries && f.key == key && f.digest == s
  }

  /** Forgetting any entry buries every message it is credited with. */
  ghost predicate Traceable(d: Document, src: Credits) {
    forall e, s :: e in d.entries && s in Behind(src, e.id) ==> s != 0 && Reached(d, e.key, s)
  }

  /** The entry that the suggestion names, if it finds one, or another of its key, records
      the cited message. */
  predicate Recorded(d: Document, c: Change, w: World)
    requires w.message.Some?
  {
    Hits(d, c) ==>
      exists f :: f in d.entries && f.key == d.entries[Find(d.entries, c.id)].key && f.digest == w.message.value.digest
  }

  // ---- What a forget reaches -------------------------------------------------------------------

  /** What `Traceable` says of an entry is what its `forget` does. */
  lemma ForgettingBuriesExactly(d: Document, c: Change, w: World, s: nat)
    requires c.action == Forget && Find(d.entries, c.id) < |d.entries| && s != 0
    ensures OfSource(s) in Apply(d, c, w).value.blocked <==> Reached(d, d.entries[Find(d.entries, c.id)].key, s)
  {
    var key := d.entries[Find(d.entries, c.id)].key;
    Buries(d.blocked, WithKey(d.entries, key), OfSource(s));
    SourcesOfKey(d.entries, key, s);
  }

  lemma SourcesOfKey(entries: seq<Entry>, key: string, s: nat)
    requires s != 0
    ensures (exists e :: e in WithKey(entries, key) && OfSource(s) in TombsOf(e)) <==>
              (exists f :: f in entries && f.key == key && f.digest == s)
  {
    if e :| e in WithKey(entries, key) && OfSource(s) in TombsOf(e) {
      KeyPartition(entries, key, e);
    }
    if f :| f in entries && f.key == key && f.digest == s {
      KeyPartition(entries, key, f);
      assert OfSource(s) in TombsOf(f);
    }
  }

  predicate Gone(d: Document, id: nat) {
    forall f :: f in d.entries ==> f.id != id
  }

  // ---- Every change keeps it, or it does not ---------------------------------------------------

  predicate SameAt(d: Document, after: Document, i: nat)
    requires i < |d.entries| <= |after.entries|
  {
    var e, f := d.entries[i], after.entries[i];
    f.id == e.id && f.key == e.key && f.digest == e.digest
  }

  /** Entries stay in place, and at most one with the new id comes after them. */
  ghost predicate Grown(d: Document, after: Document, newID: nat) {
    && |d.entries| <= |after.entries| <= |d.entries| + 1
    && (forall i :: 0 <= i < |d.entries| ==> SameAt(d, after, i))
    && (|after.entries| > |d.entries| ==> after.entries[|d.entries|].id == newID)
    && (forall s :: OfSource(s) in d.blocked ==> OfSource(s) in after.blocked)
  }

  lemma {:induction false} StepShape(d: Document, c: Change, w: World)
    requires c.action !in {Forget, Clear}
    ensures Grown(d, Stored(d, c, w), w.newID)
  {
    var r := Apply(d, c, w);
    if c.action in {Approve, Edit} && r.Some? {
      PutShape(d, About(c, d.entries[Find(d.entries, c.id)]), w);
    } else if c.action in {Save, Suggest} && r.Some? {
      PutShape(d, c, w);
    }
  }

  lemma {:induction false} PutShape(d: Document, c: Change, w: World)
    requires Put(d, c, w).Some?
    ensures Grown(d, Put(d, c, w).value, w.newID)
  {
    var text, after := Trim(c.text), Put(d, c, w).value;
    if c.action == Suggest {
      var m := w.message.value;
      if after != d {
        StoreShape(d, c, text, if Explicit(m.text) == text then Active else Pending, m.digest, w);
      }
    } else {
      var e := if c.action == Approve then d else d.(blocked := Restored(d.blocked, c.key, text));
      StoreShape(e, c, text, Active, 0, w);
      forall s | OfSource(s) in d.blocked ensures OfSource(s) in e.blocked {
        RestoresExactly(d.blocked, c.key, text, OfSource(s));
      }
    }
  }

  lemma {:induction false} ReachedStays(d: Document, after: Document, newID: nat, key: string, s: nat)
    requires Grown(d, after, newID) && Reached(d, key, s)
    ensures Reached(after, key, s)
  {
    if f :| f in d.entries && f.key == key && f.digest == s {
      var i :| 0 <= i < |d.entries| && d.entries[i] == f;
      assert SameAt(d, after, i) && after.entries[i] in after.entries;
    }
  }

  /** What grows stays traceable, but for the credit the change itself gives. */
  lemma {:induction false} GrownIsTraceable(d: Document, src: Credits, after: Document, w: World)
    requires Traceable(d, src) && Grown(d, after, w.newID)
    ensures Traceable(after, src - {w.newID})
  {
    forall e, s | e in after.entries && s in Behind(src - {w.newID}, e.id) ensures s != 0 && Reached(after, e.key, s) {
      var i :| 0 <= i < |after.entries| && after.entries[i] == e;
      assert i < |d.entries| && SameAt(d, after, i) && d.entries[i] in d.entries;
      ReachedStays(d, after, w.newID, e.key, s);
    }
  }

  predicate TextStays(d: Document, after: Document, k: nat)
    requires k < |d.entries| <= |after.entries|
  {
    after.entries[k].text == d.entries[k].text && SameAt(d, after, k)
  }

  /** A suggestion that finds its entry adds none, and takes no tomb away. */
  lemma {:induction false} WrittenAt(d: Document, c: Change, w: World)
    requires Writes(d, c, w) && Hits(d, c)
    ensures var after := Stored(d, c, w);
      var i := Find(d.entries, c.id);
      && |after.entries| == |d.entries| && after.blocked == d.blocked && OfSource(w.message.value.digest) !in d.blocked
      && after.entries[i].text == Trim(c.text) && SameAt(d, after, i)
      && (forall k :: 0 <= k < |d.entries| && k != i ==> TextStays(d, after, k))
  {
    WritesStores(d, c, w);
    SupersedesAt(d.entries, c.key);
    FindAgrees(d.entries, Supersede(d.entries, c.key), c.id);
  }

  lemma WritesStores(d: Document, c: Change, w: World)
    requires Writes(d, c, w)
    ensures OfSource(w.message.value.digest) !in d.blocked
    ensures var state := if Explicit(w.message.value.text) == Trim(c.text) then Active else Pending;
      Store(d, c, Trim(c.text), state, w.message.value.digest, w) == Some(Stored(d, c, w))
  {
  }

  lemma {:induction false} AddedAt(d: Document, c: Change, w: World)
    requires Writes(d, c, w) && !Hits(d, c)
    ensures var after := Stored(d, c, w);
      && |after.entries| == |d.entries| + 1 && after.blocked == d.blocked
      && var e := after.entries[|d.entries|];
         e.id == w.newID && e.key == c.key && e.text == Trim(c.text) && e.digest == w.message.value.digest
  {
    WritesStores(d, c, w);
    SupersedesAt(d.entries, c.key);
    FindAgrees(d.entries, Supersede(d.entries, c.key), c.id);
  }

  /** A suggestion that is stored leaves its document traceable exactly if it is recorded. */
  lemma TraceableExactlyWhen(d: Document, src: Credits, c: Change, w: World)
    requires Distinct(d.entries) && Fair(d, w) && Traceable(d, src) && Writes(d, c, w)
    ensures Traceable(Stored(d, c, w), Credited(src, d, c, w)) <==> Recorded(d, c, w)
  {
    StepShape(d, c, w);
    GrownIsTraceable(d, src, Stored(d, c, w), w);
    if Hits(d, c) {
      HitIsReached(d, c, w);
      HitIsTraceable(d, src, c, w);
    } else {
      AddedIsTraceable(d, src, c, w);
    }
  }

  lemma CreditedTo(src: Credits, d: Document, c: Change, w: World, id: nat, s: nat)
    requires s in Behind(Credited(src, d, c, w), id)
    ensures s in Behind(src - {w.newID}, id)
            || (Writes(d, c, w) && s == w.message.value.digest && id == if Hits(d, c) then c.id else w.newID)
  {
  }

  lemma OnlyNew(d: Document, after: Document, w: World, g: Entry)
    requires Fair(d, w) && Grown(d, after, w.newID) && g in after.entries && g.id == w.newID
    ensures |after.entries| == |d.entries| + 1 && g == after.entries[|d.entries|]
  {
    forall i | 0 <= i < |d.entries| ensures after.entries[i] != g {
      assert SameAt(d, after, i) && d.entries[i] in d.entries;
    }
  }

  lemma {:induction false} HitIsReached(d: Document, c: Change, w: World)
    requires Writes(d, c, w) && Hits(d, c) && Grown(d, Stored(d, c, w), w.newID)
    ensures Reached(Stored(d, c, w), d.entries[Find(d.entries, c.id)].key, w.message.value.digest) <==>
              Recorded(d, c, w)
  {
    WrittenAt(d, c, w);
    var after, key, s := Stored(d, c, w), d.entries[Find(d.entries, c.id)].key, w.message.value.digest;
    if f :| f in after.entries && f.key == key && f.digest == s {
      var k :| 0 <= k < |after.entries| && after.entries[k] == f;
      assert SameAt(d, after, k) && d.entries[k] in d.entries;
    }
    if f :| f in d.entries && f.key == key && f.digest == s {
      assert Reached(d, key, s);
      ReachedStays(d, after, w.newID, key, s);
    }
  }

  lemma {:induction false} HitIsTraceable(d: Document, src: Credits, c: Change, w: World)
    requires Distinct(d.entries) && Fair(d, w) && Writes(d, c, w) && Hits(d, c)
    requires Grown(d, Stored(d, c, w), w.newID) && Traceable(Stored(d, c, w), src - {w.newID})
    ensures Traceable(Stored(d, c, w), Credited(src, d, c, w)) <==>
              Reached(Stored(d, c, w), d.entries[Find(d.entries, c.id)].key, w.message.value.digest)
  {
    WrittenAt(d, c, w);
    var after, now, s, i := Stored(d, c, w), Credited(src, d, c, w), w.message.value.digest, Find(d.entries, c.id);
    var e := after.entries[i];
    assert e in after.entries && s in Behind(now, e.id);
    if Reached(after, e.key, s) {
      forall g, t | g in after.entries && t in Behind(now, g.id) ensures t != 0 && Reached(after, g.key, t) {
        CreditedTo(src, d, c, w, g.id, t);
        if g.id == c.id {
          var k :| 0 <= k < |after.entries| && after.entries[k] == g;
          assert SameAt(d, after, k) && k == i;
        }
      }
    }
  }

  lemma {:induction false} AddedIsTraceable(d: Document, src: Credits, c: Change, w: World)
    requires Fair(d, w) && Writes(d, c, w) && !Hits(d, c)
    requires Grown(d, Stored(d, c, w), w.newID) && Traceable(Stored(d, c, w), src - {w.newID})
    ensures Traceable(Stored(d, c, w), Credited(src, d, c, w))
  {
    AddedAt(d, c, w);
    var after, now, s := Stored(d, c, w), Credited(src, d, c, w), w.message.value.digest;
    var e := after.entries[|d.entries|];
    assert e in after.entries && Reached(after, e.key, s);
    forall g, t | g in after.entries && t in Behind(now, g.id) ensures t != 0 && Reached(after, g.key, t) {
      CreditedTo(src, d, c, w, g.id, t);
      if g.id == w.newID {
        OnlyNew(d, after, w, g);
      }
    }
  }

  lemma {:induction false} StepIsTraceable(d: Document, src: Credits, c: Change, w: World)
    requires Distinct(d.entries) && Fair(d, w) && Traceable(d, src)
    ensures Traceable(Stored(d, c, w), Credited(src, d, c, w)) <==> (Writes(d, c, w) ==> Recorded(d, c, w))
  {
    LessIsTraceable(d, src, w.newID);
    if Writes(d, c, w) {
      TraceableExactlyWhen(d, src, c, w);
    } else if c.action == Forget && Stored(d, c, w) != d {
      ForgetIsTraceable(d, src, c, w);
    } else if c.action !in {Forget, Clear} {
      StepShape(d, c, w);
      GrownIsTraceable(d, src, Stored(d, c, w), w);
    }
  }

  lemma {:induction false} LessIsTraceable(d: Document, src: Credits, n: nat)
    requires Traceable(d, src)
    ensures Traceable(d, src - {n})
  {
    forall e, s | e in d.entries && s in Behind(src - {n}, e.id) ensures s != 0 && Reached(d, e.key, s) {
      assert s in Behind(src, e.id);
    }
  }

  lemma {:induction false} ForgetIsTraceable(d: Document, src: Credits, c: Change, w: World)
    requires Traceable(d, src) && c.action == Forget && Stored(d, c, w) != d
    ensures Traceable(Stored(d, c, w), src - {w.newID})
  {
    LessIsTraceable(d, src, w.newID);
    var after, key := Stored(d, c, w), d.entries[Find(d.entries, c.id)].key;
    forall e, s | e in after.entries && s in Behind(src - {w.newID}, e.id) ensures s != 0 && Reached(after, e.key, s) {
      KeyPartition(d.entries, key, e);
      OtherKeysStayReached(d, key, e.key, s);
    }
  }

  lemma {:induction false} OtherKeysStayReached(d: Document, key: string, other: string, s: nat)
    requires other != key && Reached(d, other, s)
    ensures Reached(d.(blocked := Bury(d.blocked, WithKey(d.entries, key)), entries := WithoutKey(d.entries, key)),
                    other, s)
  {
    Buries(d.blocked, WithKey(d.entries, key), OfSource(s));
    if f :| f in d.entries && f.key == other && f.digest == s {
      KeyPartition(d.entries, key, f);
    }
  }

  lemma {:induction false} StaysPut(d: Document, c: Change, w: World, e: Entry)
    requires e in d.entries && c.action !in {Forget, Clear}
    ensures !Gone(Stored(d, c, w), e.id)
  {
    StepShape(d, c, w);
    var i :| 0 <= i < |d.entries| && d.entries[i] == e;
    assert SameAt(d, Stored(d, c, w), i);
  }

  /** Only a forget or a clear removes an entry, and it buries what the entry is credited with. */
  lemma {:induction false} LeavingBuries(d: Document, src: Credits, c: Change, w: World, e: Entry, s: nat)
    requires Traceable(d, src) && e in d.entries && s in Behind(src, e.id) && Gone(Stored(d, c, w), e.id)
    ensures s != 0 && OfSource(s) in Stored(d, c, w).blocked
  {
    if c.action !in {Forget, Clear} {
      StaysPut(d, c, w, e);
    }
    assert Stored(d, c, w) != d && Reached(d, e.key, s);
    if OfSource(s) in d.blocked {
      SourceStaysBuried(d, c, w, s);
    } else {
      var f :| f in d.entries && f.key == e.key && f.digest == s;
      if c.action == Forget {
        KeyPartition(d.entries, d.entries[Find(d.entries, c.id)].key, e);
      }
      ForgettingBuries(d, c, w, f);
    }
  }

  // ---- Any sequence of changes -----------------------------------------------------------------

  function CreditsOf(d: Document, src: Credits, steps: seq<Step>): Credits {
    if steps == [] then src
    else
      var n := |steps| - 1;
      Credited(CreditsOf(d, src, steps[..n]), Run(d, steps[..n]), steps[n].change, steps[n].world)
  }

  /** Step `i`, if it is a suggestion that is stored, is recorded. */
  predicate RecordedAt(d: Document, steps: seq<Step>, i: nat)
    requires i < |steps|
  {
    var e, c, w := Run(d, steps[..i]), steps[i].change, steps[i].world;
    Writes(e, c, w) ==> Recorded(e, c, w)
  }

  ghost predicate TraceableAt(d: Document, src: Credits, steps: seq<Step>, n: nat)
    requires n <= |steps|
  {
    Traceable(Run(d, steps[..n]), CreditsOf(d, src, steps[..n]))
  }

  lemma PrefixIsPlausible(d: Document, steps: seq<Step>, n: nat)
    requires Plausible(d, steps) && n <= |steps|
    ensures Plausible(d, steps[..n])
  {
    forall i | 0 <= i < n ensures Fair(Run(d, steps[..n][..i]), steps[..n][i].world) && Later(steps[..n], i) {
      assert steps[..n][..i] == steps[..i] && Later(steps, i);
    }
  }

  lemma StepTraceableAt(d: Document, src: Credits, steps: seq<Step>, i: nat)
    requires Readable(d) && Plausible(d, steps) && i < |steps| && TraceableAt(d, src, steps, i)
    ensures TraceableAt(d, src, steps, i + 1) <==> RecordedAt(d, steps, i)
  {
    PrefixIsPlausible(d, steps, i);
    EveryRunIsReadable(d, steps[..i]);
    RunAt(d, steps, i);
    assert steps[..i + 1][..i] == steps[..i];
    StepIsTraceable(Run(d, steps[..i]), CreditsOf(d, src, steps[..i]), steps[i].change, steps[i].world);
  }

  lemma {:induction false} TraceableSoFar(d: Document, src: Credits, steps: seq<Step>, n: nat)
    requires Readable(d) && Plausible(d, steps) && Traceable(d, src)
    requires n <= |steps| && forall i :: 0 <= i < n ==> RecordedAt(d, steps, i)
    ensures TraceableAt(d, src, steps, n)
  {
    if n > 0 {
      TraceableSoFar(d, src, steps, n - 1);
      StepTraceableAt(d, src, steps, n - 1);
    }
  }

  /** At every moment of a run forgetting would bury whatever message stands behind an
      entry, if and only if every suggestion that the run stores is recorded. */
  lemma EveryRunIsTraceableExactlyWhen(d: Document, src: Credits, steps: seq<Step>)
    requires Readable(d) && Plausible(d, steps) && Traceable(d, src)
    ensures (forall n :: 0 <= n <= |steps| ==> TraceableAt(d, src, steps, n)) <==>
              (forall i :: 0 <= i < |steps| ==> RecordedAt(d, steps, i))
  {
    if forall i :: 0 <= i < |steps| ==> RecordedAt(d, steps, i) {
      forall n | 0 <= n <= |steps| ensures TraceableAt(d, src, steps, n) {
        TraceableSoFar(d, src, steps, n);
      }
    } else {
      var i :| 0 <= i < |steps| && !RecordedAt(d, steps, i);
      if TraceableAt(d, src, steps, i) {
        StepTraceableAt(d, src, steps, i);
      }
    }
  }

  lemma {:induction false} BuriedFrom(d: Document, steps: seq<Step>, k: nat, j: nat, s: nat)
    requires k <= j <= |steps| && s != 0 && OfSource(s) in Run(d, steps[..k]).blocked
    ensures OfSource(s) in Run(d, steps[..j]).blocked
  {
    if k < j {
      BuriedFrom(d, steps, k, j - 1, s);
      RunAt(d, steps, j - 1);
      SourceStaysBuried(Run(d, steps[..j - 1]), steps[j - 1].change, steps[j - 1].world, s);
    }
  }

  /** A message whose text was ever in an entry that step `k` forgets or clears is never
      stored again, whatever follows, if the suggestions before were recorded. */
  lemma ForgottenTextStaysOut(d: Document, src: Credits, steps: seq<Step>, k: nat, j: nat, e: Entry, s: nat)
    requires Readable(d) && Plausible(d, steps) && Traceable(d, src) && k < j <= |steps|
    requires forall i :: 0 <= i < k ==> RecordedAt(d, steps, i)
    requires e in Run(d, steps[..k]).entries && s in Behind(CreditsOf(d, src, steps[..k]), e.id)
    requires Gone(Run(d, steps[..k + 1]), e.id)
    ensures OfSource(s) in Run(d, steps[..j]).blocked && Refuses(Run(d, steps[..j]), s)
  {
    TraceableSoFar(d, src, steps, k);
    RunAt(d, steps, k);
    LeavingBuries(Run(d, steps[..k]), CreditsOf(d, src, steps[..k]), steps[k].change, steps[k].world, e, s);
    BuriedFrom(d, steps, k + 1, j, s);
  }

  // ---- Where it comes back ----------------------------------------------------------------------

  predicate SameMessage(w: World, v: World) {
    v.message == w.message && !v.sensitive && v.filesFit
  }

  function WrittenID(d: Document, c: Change, w: World): nat {
    if Hits(d, c) then c.id else w.newID
  }

  function ForgetOf(id: nat): Change {
    Change(Forget, id, "", "", None, Files(0, 0))
  }

  /** Entry `e` is what the suggestion stored. */
  predicate IsWritten(e: Entry, d: Document, c: Change, w: World) {
    && e.id == WrittenID(d, c, w) && e.text == Trim(c.text)
    && e.key == if Hits(d, c) then d.entries[Find(d.entries, c.id)].key else c.key
  }

  lemma {:induction false} WritesOne(d: Document, c: Change, w: World)
    requires Readable(d) && Fair(d, w) && Writes(d, c, w)
    ensures var after := Stored(d, c, w);
      var i := Find(after.entries, WrittenID(d, c, w));
      && i < |after.entries| && IsWritten(after.entries[i], d, c, w) && Distinct(after.entries)
      && (Reached(after, after.entries[i].key, w.message.value.digest) <==> Recorded(d, c, w))
  {
    ReadableStays(d, c, w);
    StepShape(d, c, w);
    var after := Stored(d, c, w);
    if Hits(d, c) {
      WrittenAt(d, c, w);
      HitIsReached(d, c, w);
      FoundAt(after.entries, Find(d.entries, c.id));
    } else {
      AddedAt(d, c, w);
      FoundAt(after.entries, |d.entries|);
      assert after.entries[|d.entries|] in after.entries;
    }
  }

  lemma {:induction false} FoundAt(entries: seq<Entry>, i: nat)
    requires Distinct(entries) && i < |entries|
    ensures Find(entries, entries[i].id) == i
  {
    if i > 0 {
      FoundAt(entries[1..], i - 1);
    }
  }

  lemma {:induction false} ForgetRemoves(d: Document, id: nat, w: World)
    requires Distinct(d.entries) && Find(d.entries, id) < |d.entries|
    ensures Apply(d, ForgetOf(id), w).Some?
    ensures var after := Apply(d, ForgetOf(id), w).value;
      Gone(after, id) && |after.entries| < |d.entries| && after.settings == d.settings && after.cutoff == d.cutoff
  {
    var i := Find(d.entries, id);
    var key := d.entries[i].key;
    WithoutKeyIsLess(d.entries, key, i);
    forall f | f in WithoutKey(d.entries, key) ensures f.id != id {
      KeyPartition(d.entries, key, f);
    }
  }

  lemma {:induction false} WithoutKeyIsLess(entries: seq<Entry>, key: string, i: nat)
    requires i < |entries| && entries[i].key == key
    ensures |WithoutKey(entries, key)| < |entries|
  {
    var n := |entries| - 1;
    WithoutKeyKeeps(entries[..n], key);
    if i < n {
      WithoutKeyIsLess(entries[..n], key, i);
    }
  }

  /** The entry that a suggestion has stored is forgotten: every suggestion that cites the
      same message is refused from then on if and only if the suggestion was recorded, and
      if it was a command that was not, the same command, naming no entry, is stored again. */
  lemma {:induction false} ForgettingReachesExactlyWhen(d: Document, c: Change, w: World, v: World)
    requires Readable(d) && Fair(d, w) && Writes(d, c, w)
    requires v.message == w.message && !v.sensitive && v.filesFit
    ensures var r := Apply(Stored(d, c, w), ForgetOf(WrittenID(d, c, w)), v);
      && r.Some? && Gone(r.value, WrittenID(d, c, w))
      && (Recorded(d, c, w) <==> OfSource(w.message.value.digest) in r.value.blocked)
      && (Recorded(d, c, w) ==> Refuses(r.value, w.message.value.digest))
      && (!Recorded(d, c, w) && Explicit(w.message.value.text) == Trim(c.text) ==>
            ComesBack(r.value, c.(id := 0), v))
  {
    WrittenIsForgotten(d, c, w, v);
    if Recorded(d, c, w) {
      BuriedIsRefused(Apply(Stored(d, c, w), ForgetOf(WrittenID(d, c, w)), v).value, w.message.value.digest);
    } else if Explicit(w.message.value.text) == Trim(c.text) {
      CommandComesBack(d, c, w, v);
    }
  }

  lemma BuriedIsRefused(d: Document, s: nat)
    requires OfSource(s) in d.blocked
    ensures Refuses(d, s)
  {
  }

  lemma {:induction false} CommandComesBack(d: Document, c: Change, w: World, v: World)
    requires Readable(d) && Fair(d, w) && Writes(d, c, w) && !Recorded(d, c, w)
    requires Explicit(w.message.value.text) == Trim(c.text)
    requires v.message == w.message && !v.sensitive && v.filesFit
    ensures var r := Apply(Stored(d, c, w), ForgetOf(WrittenID(d, c, w)), v);
      r.Some? && ComesBack(r.value, c.(id := 0), v)
  {
    WrittenIsForgotten(d, c, w, v);
    NotAgain(d, c, w, v);
    WritesMeans(d, c, w);
    CommandIsStored(Apply(Stored(d, c, w), ForgetOf(WrittenID(d, c, w)), v).value, c.(id := 0), v);
  }

  /** The cited message is from after the last clear. */
  predicate Timely(d: Document, w: World) {
    w.message.Some? && w.message.value.at.Some? && (d.cutoff.Some? ==> w.message.value.at.value > d.cutoff.value)
  }

  lemma WritesMeans(d: Document, c: Change, w: World)
    requires Writes(d, c, w)
    ensures c.action == Suggest && Storable(c, w) && Timely(d, w)
  {
  }

  /** A suggestion that nothing refuses is stored. */
  lemma SuggestionStores(d: Document, c: Change, w: World, explicit: bool)
    requires c.action == Suggest && Storable(c, w) && Timely(d, w)
    requires OfSource(w.message.value.digest) !in d.blocked && !Again(d, c, w)
    requires explicit == (Explicit(w.message.value.text) == Trim(c.text))
    requires explicit || (d.settings.suggest && !IsBlocked(d, c.key, Trim(c.text), w.message.value.digest))
    ensures Apply(d, c, w) == Store(d, c, Trim(c.text), if explicit then Active else Pending, w.message.value.digest, w)
  {
  }

  lemma {:induction false} WrittenIsForgotten(d: Document, c: Change, w: World, v: World)
    requires Readable(d) && Fair(d, w) && Writes(d, c, w)
    ensures var r := Apply(Stored(d, c, w), ForgetOf(WrittenID(d, c, w)), v);
      && r.Some? && Gone(r.value, WrittenID(d, c, w)) && |r.value.entries| < ENTRIES && r.value.cutoff == d.cutoff
      && (Recorded(d, c, w) <==> OfSource(w.message.value.digest) in r.value.blocked)
  {
    WritesOne(d, c, w);
    ReadableStays(d, c, w);
    ForgetRemoves(Stored(d, c, w), WrittenID(d, c, w), v);
    ForgettingBuriesExactly(Stored(d, c, w), ForgetOf(WrittenID(d, c, w)), v, w.message.value.digest);
  }

  predicate ComesBack(d: Document, c: Change, w: World) {
    && w.message.Some? && Apply(d, c, w).Some?
    && Entry(w.newID, c.key, Trim(c.text), Active, w.now, w.message.value.digest, c.files) in
         Apply(d, c, w).value.entries
  }

  lemma {:induction false} CommandIsStored(d: Document, c: Change, w: World)
    requires c.action == Suggest && c.id == 0 && Storable(c, w) && Timely(d, w)
    requires Explicit(w.message.value.text) == Trim(c.text)
    requires |d.entries| < ENTRIES && !Again(d, c, w) && OfSource(w.message.value.digest) !in d.blocked
    ensures ComesBack(d, c, w)
  {
    SuggestionStores(d, c, w, true);
    SupersedesAt(d.entries, c.key);
  }

  lemma {:induction false} NotAgain(d: Document, c: Change, w: World, v: World)
    requires Readable(d) && Fair(d, w) && Writes(d, c, w) && Hits(d, c)
    ensures var r := Apply(Stored(d, c, w), ForgetOf(c.id), v);
      r.Some? ==> !Again(r.value, c, w)
  {
    var after, i := Stored(d, c, w), Find(d.entries, c.id);
    WrittenAt(d, c, w);
    ReadableStays(d, c, w);
    FoundAt(after.entries, i);
    var key := after.entries[i].key;
    forall e | e in WithoutKey(after.entries, key) ensures !Repeats(e, c.key, Trim(c.text), w.message.value.digest) {
      KeyPartition(after.entries, key, e);
      var k :| 0 <= k < |after.entries| && after.entries[k] == e;
      assert k != i && TextStays(d, after, k) && d.entries[k] in d.entries;
    }
  }

  // ---- What is stored under a tombstone ----------------------------------------------------------

  /** No tomb of the entry as it stands. */
  predicate TombFree(d: Document, e: Entry) {
    forall t :: t in TombsOf(e) ==> t !in d.blocked
  }

  /** An entry that a suggestion stores without a command has no tomb exactly if the entry
      it names, if it finds one, is under no tomb by its key or the message it records. */
  lemma {:induction false} TombFreeExactlyWhen(d: Document, c: Change, w: World)
    requires Fair(d, w) && Writes(d, c, w) && Explicit(w.message.value.text) != Trim(c.text)
    ensures var i := if Hits(d, c) then Find(d.entries, c.id) else |d.entries|;
      var after := Stored(d, c, w);
      && i < |after.entries| && IsWritten(after.entries[i], d, c, w)
      && OfText(Hash(after.entries[i].text)) !in after.blocked
      && (TombFree(after, after.entries[i]) <==> (Hits(d, c) ==> !UnderATomb(d, d.entries[i])))
      && (OfKey(Hash(after.entries[i].key)) !in after.blocked <==>
            (Hits(d, c) ==> OfKey(Hash(d.entries[i].key)) !in d.blocked))
  {
    if Hits(d, c) {
      WrittenAt(d, c, w);
      var i := Find(d.entries, c.id);
      var e := Stored(d, c, w).entries[i];
      assert OfKey(Hash(e.key)) in TombsOf(e) && (e.digest != 0 ==> OfSource(e.digest) in TombsOf(e));
    } else {
      AddedAt(d, c, w);
    }
  }

  predicate UnderATomb(d: Document, e: Entry) {
    OfKey(Hash(e.key)) in d.blocked || (e.digest != 0 && OfSource(e.digest) in d.blocked)
  }

  // ---- The two inputs -----------------------------------------------------------------------------

  lemma OneStored(d: Document, e: Entry, c: Change, state: State, digest: nat, w: World)
    requires d.entries == [e] && c.id == e.id != 0
    ensures Store(d, c, Trim(c.text), state, digest, w) ==
              Some(d.(entries := [e.(text := Trim(c.text), state := state, updated := w.now, files := c.files)]))
  {
    SupersedesAt([e], c.key);
    var was := if state == Active then Supersede([e], c.key) else [e];
    FindAgrees([e], was, c.id);
    assert forall x: Entry :: was[0 := x] == [x];
  }

  lemma OneForgotten(d: Document, e: Entry, w: World, s: nat)
    requires d.entries == [e] && d.blocked == [] && s != e.digest
    ensures var r := Stored(d, ForgetOf(e.id), w);
      && r.entries == [] && r.settings == d.settings && r.cutoff == d.cutoff
      && OfSource(s) !in r.blocked && |r.blocked| <= 3
  {
    var one := [e];
    assert one[..|one| - 1] == [] && one == [] + [one[|one| - 1]];
    assert WithKey(one, e.key) == WithKey([], e.key) + [one[|one| - 1]] == one;
    assert WithoutKey(one, e.key) == WithoutKey([], e.key) && Find(one, e.id) == 0;
    BuryOne([], [], e);
    assert Bury([], one) == AddTombs([], TombsOf(e));
    AddsTombs([], TombsOf(e), OfSource(s));
    AddsFew([], TombsOf(e));
  }

  lemma {:induction false} AddsFew(blocked: seq<Tomb>, tombs: seq<Tomb>)
    ensures |AddTombs(blocked, tombs)| <= |blocked| + |tombs|
  {
    if tombs != [] {
      AddsFew(blocked, tombs[..|tombs| - 1]);
    }
  }

  /** Entry 1, under key "k", from message 11 or from none. */
  function OneEntry(digest: nat, blocked: seq<Tomb>): Document {
    Document(Settings(true, true), [Entry(1, "k", "a", Active, 0, digest, Files(0, 0))], blocked, None)
  }

  lemma BIsStorable(c: Change, w: World)
    requires c.key in {"k", "z"} && c.text == "b" && c.files.count == 0 && !w.sensitive && w.filesFit
    ensures Storable(c, w) && Trim(c.text) == "b"
  {
    assert Trim("b") == "b";
  }

  function SuggestB(key: string): Change {
    Change(Suggest, 1, key, "b", None, Files(0, 0))
  }

  predicate CommandB(w: World) {
    !w.sensitive && w.filesFit && w.newID > 1 && w.message == Some(Message("/remember b", Some(1), 12))
  }

  lemma CommandBStores(d: Document, w: World)
    requires CommandB(w) && d.cutoff == None && OfSource(12) !in d.blocked && |d.blocked| <= TOMBS
    requires forall e :: e in d.entries ==> e.digest != 12
    ensures Apply(d, SuggestB("k"), w) == Store(d, SuggestB("k"), "b", Active, 12, w)
  {
    BIsStorable(SuggestB("k"), w);
    assert "/remember " + "b" == "/remember b";
    RememberAsks("b");
    SuggestionStores(d, SuggestB("k"), w, true);
  }

  lemma IntoOne(w: World)
    requires CommandB(w)
    ensures var d := OneEntry(11, []);
      Stored(d, SuggestB("k"), w) == d.(entries := [Entry(1, "k", "b", Active, w.now, 11, Files(0, 0))])
  {
    var d := OneEntry(11, []);
    CommandBStores(d, w);
    OneStored(d, d.entries[0], SuggestB("k"), Active, 12, w);
  }

  lemma IntoNone(d: Document, w: World)
    requires CommandB(w) && d.entries == [] && d.cutoff == None && OfSource(12) !in d.blocked && |d.blocked| <= TOMBS
    ensures Stored(d, SuggestB("k"), w).entries == [Entry(w.newID, "k", "b", Active, w.now, 12, Files(0, 0))]
  {
    CommandBStores(d, w);
  }

  /** Forgotten, and stored again: entry 1 records message 11, the command of message 12 is put
      into it, it is forgotten, and the same command is stored anew. */
  lemma ForgottenComesBack(w: World)
    requires CommandB(w)
    ensures var written := Stored(OneEntry(11, []), SuggestB("k"), w);
      var forgotten := Stored(written, ForgetOf(1), w);
      && written.entries == [Entry(1, "k", "b", Active, w.now, 11, Files(0, 0))]
      && forgotten.entries == []
      && Stored(forgotten, SuggestB("k"), w).entries == [Entry(w.newID, "k", "b", Active, w.now, 12, Files(0, 0))]
  {
    IntoOne(w);
    var written := OneEntry(11, []).(entries := [Entry(1, "k", "b", Active, w.now, 11, Files(0, 0))]);
    OneForgotten(written, written.entries[0], w, 12);
    IntoNone(Stored(written, ForgetOf(1), w), w);
  }

  /** Stored under a tombstone: key "k" is blocked, and an unasked suggestion of key "z" that
      names an entry of key "k" is stored there. */
  lemma StoredUnderATomb(w: World)
    requires !w.sensitive && w.filesFit && w.message == Some(Message("x", Some(1), 12))
    ensures var c, d := SuggestB("z"), OneEntry(0, [OfKey("k")]);
      && Hash("k") == "k"
      && Stored(d, c, w) == d.(entries := [Entry(1, "k", "b", Pending, w.now, 0, Files(0, 0))])
  {
    var c, d := SuggestB("z"), OneEntry(0, [OfKey("k")]);
    BIsStorable(c, w);
    OneLetter('k');
    OneLetter('z');
    assert Lower("x") == "x" && Trim("x") == "x" && Explicit("x") == "";
    SuggestionStores(d, c, w, false);
    OneStored(d, d.entries[0], c, Pending, 12, w);
  }

  lemma OneLetter(c: char)
    requires 'a' <= c <= 'z'
    ensures Hash([c]) == [c]
  {
    assert Lower([c]) == [c] && Trim([c]) == [c];
    assert [c][1..] == "" && Squeeze([c]) == [c] + Squeeze("");
  }
}
