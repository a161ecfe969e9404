/**
  Publishing (internal/desk/artifact_publications.go, project_artifact_review.go
  and dialect_publications.go): the transactions that change the ledger file and
  the staged review beside it. Any sequence of them, with any failure on the way,
  only ever appends to the ledger, and every ledger written can be read again.

  A file is replaced as a whole: a failed write leaves the old or the new one.
  The project lock and the ledger lock are held throughout a transaction.
*/
module Publishing {
  import opened Prelude
  import opened Ledgers
  import opened Versions

  // ---- Snapshots ----------------------------------------------------------------

  datatype Head = Head(id: string, version: string)
  /** What the reviewed bytes parse to. */
  type Heads = map<Ref, Head>

  datatype Entry = Entry(kind: string, alias: string, path: string, content: Ref)
  datatype Snapshot = Snapshot(config: Ref, entries: seq<Entry>)

  /** The public lock: absent, not parsable, naming bytes that are gone, or the set it pins. */
  datatype Lock = NoLock | Unparsable | Lost | Locked(was: Snapshot)

  /** Files of a project: packs and graphs of bounded size, digested. */
  predicate ValidSnapshot(s: Snapshot) {
    ValidRef(s.config) && forall e :: e in s.entries ==> e.kind in {"pack", "graph"} && ValidRef(e.content)
  }

  predicate HasHead(e: Entry, heads: Heads) {
    e.content in heads && heads[e.content].id != "" && heads[e.content].version != ""
  }

  function DocumentOf(e: Entry, heads: Heads): Document
    requires HasHead(e, heads)
  {
    Document(e.kind, e.alias, heads[e.content].id, heads[e.content].version, e.path, e.content)
  }

  /** `publicationFromSnapshot`. */
  method FromSnapshot(s: Snapshot, heads: Heads) returns (p: Option<Publication>)
    requires ValidSnapshot(s)
    ensures p.Some? <==> AllHeads(s, heads)
    ensures p.Some? ==> Sound(p.value) && Reflects(p.value, s, heads) && !p.value.imported
                        && p.value.body.review == None && p.value.body.reviews == []
  {
    var docs: seq<Document> := [];
    for i := 0 to |s.entries|
      invariant |docs| == i
      invariant forall k :: 0 <= k < i ==> HasHead(s.entries[k], heads) && docs[k] == DocumentOf(s.entries[k], heads)
    {
      var e := s.entries[i];
      if e.content !in heads || heads[e.content].id == "" || heads[e.content].version == "" {
        assert !HasHead(s.entries[i], heads);
        return None;
      }
      docs := docs + [DocumentOf(e, heads)];
    }
    var now: string :| now != "";
    var body := Body(Some(s.config), None, docs, None, []);
    p := Some(Publication(Digest(body), now, false, body));
  }

  /** Publication `p` is of exactly the bytes of `s`. */
  predicate Reflects(p: Publication, s: Snapshot, heads: Heads) {
    && p.body.config == Some(s.config) && p.body.dialect == None && |p.body.documents| == |s.entries|
    && forall k :: 0 <= k < |s.entries| ==>
         HasHead(s.entries[k], heads) && p.body.documents[k] == DocumentOf(s.entries[k], heads)
  }

  // ---- The staged review -----------------------------------------------------------

  /** `readPendingPublication` accepts it. */
  predicate Acceptable(p: Publication) {
    && p.id == Digest(p.body) && p.body.dialect == None && p.body.config.Some? && ValidRef(p.body.config.value)
    && forall r :: r in p.body.reviews ==> ValidRef(r)
  }

  /** ... which leaves this to whoever staged it. */
  predicate Timely(p: Publication) {
    p.at != "" && (p.body.review.Some? ==> ValidRef(p.body.review.value))
  }

  /** A staged review that is recovered leaves a readable ledger exactly when it has a
      time and no broken review, which the reader does not look at. */
  lemma RecoveredIsReadable(l: Ledger, p: Publication, saved: Publication)
    requires WellFormed(l) && |l.items| < MAX_ITEMS && Acceptable(p) && Sound(saved) && SameContent(p, saved)
    requires Functional(Docs(l.items) + p.body.documents)
    requires forall q :: q in l.items ==> !SameContent(q, p)
    ensures WellFormed(With(l, p)) <==> Timely(p)
  {
    var more := With(l, p);
    DocsOfOne(l.items, p);
    assert more.items[|l.items|] == p;
    UnknownIsNew(l, p);
    if Timely(p) {
      Appends(l, p);
    } else {
      assert p in more.items && !Sound(p);
    }
  }

  lemma {:induction false} UnknownIsNew(l: Ledger, p: Publication)
    requires Consistent(l) && p.id == Digest(p.body) && forall q :: q in l.items ==> !SameContent(q, p)
    ensures !Names(l.items, p.id)
  {
    forall i | 0 <= i < |l.items| ensures l.items[i].id != p.id {
      assert l.items[i] in l.items;
    }
  }

  lemma {:induction false} Appends(l: Ledger, p: Publication)
    requires WellFormed(l) && Sound(p) && Functional(Docs(l.items) + p.body.documents)
    requires !Names(l.items, p.id)
    ensures Consistent(With(l, p)) && Extends(l, With(l, p))
  {
    DocsOfOne(l.items, p);
    OneIDMore(l.items, p);
    var items := l.items + [p];
    forall r | r in l.receipts ensures Names(items, l.receipts[r]) {
      var i :| 0 <= i < |l.items| && l.items[i].id == l.receipts[r];
      assert items[i].id == l.receipts[r];
    }
  }

  // ---- Transactions ------------------------------------------------------------------

  /** The candidate may be committed to the ledger of `t` as it is. */
  predicate Ready(t: Transaction) {
    && WellFormed(t.ledger) && Sound(t.candidate) && Functional(Docs(t.ledger.items) + t.candidate.body.documents)
    && (t.base.Some? ==> t.base.value in t.ledger.items)
  }

  function With(l: Ledger, p: Publication): Ledger {
    l.(items := l.items + [p])
  }

  /** The ledger with the candidate, unless it is there. */
  function WithCandidate(t: Transaction): Ledger {
    if Names(t.ledger.items, t.candidate.id) then t.ledger else With(t.ledger, t.candidate)
  }

  method AddCandidate(t: Transaction) returns (l: Ledger)
    requires Ready(t)
    ensures l == WithCandidate(t) && Consistent(l) && Extends(t.ledger, l)
  {
    for i := 0 to |t.ledger.items|
      invariant forall k :: 0 <= k < i ==> t.ledger.items[k].id != t.candidate.id
    {
      if t.ledger.items[i].id == t.candidate.id {
        return t.ledger;
      }
    }
    Appends(t.ledger, t.candidate);
    return With(t.ledger, t.candidate);
  }

  /** The accepted reviews join the candidate; without any, a publication of the same content stands for it. */
  method AdmitReviews(t: Transaction, accepted: seq<Ref>) returns (u: Transaction)
    requires Ready(t) && forall r :: r in accepted ==> ValidRef(r)
    ensures Ready(u) && u.ledger == t.ledger && u.base == t.base && SameContent(u.candidate, t.candidate)
    ensures u.candidate.body.reviews == accepted || (accepted == [] && u.candidate in t.ledger.items)
  {
    var body := t.candidate.body.(reviews := accepted);
    u := t.(candidate := t.candidate.(body := body, id := Digest(body)));
    if accepted == [] {
      for i := 0 to |t.ledger.items| {
        if SameContent(t.ledger.items[i], u.candidate) {
          return t.(candidate := t.ledger.items[i]);
        }
      }
    }
  }

  /** Publication `p` is what the lock `was` published: the staged publication if it is of that
      content, and else a copy that is marked as imported and has no reviews. */
  predicate Pinned(p: Publication, was: Snapshot, heads: Heads, pending: Option<Option<Publication>>) {
    && Reflects(p, was, heads)
    && if pending.Some? && pending.value.Some? && Reflects(pending.value.value, was, heads) then p == pending.value.value
       else p.imported && p.body.review == None && p.body.reviews == []
  }

  /** The staged review, if there is one, can be read. */
  predicate Legible(pending: Option<Option<Publication>>) {
    pending.Some? ==> pending.value.Some? && Acceptable(pending.value.value)
  }

  predicate AllHeads(s: Snapshot, heads: Heads) {
    forall e :: e in s.entries ==> HasHead(e, heads)
  }

  method Choose(was: Snapshot, heads: Heads, pending: Option<Option<Publication>>) returns (p: Option<Publication>)
    requires ValidSnapshot(was) && (pending.Some? && pending.value.Some? ==> Timely(pending.value.value))
    ensures p.Some? <==> AllHeads(was, heads) && Legible(pending)
    ensures p.Some? ==> Sound(p.value) && Pinned(p.value, was, heads, pending)
  {
    p := FromSnapshot(was, heads);
    if p == None || (pending.Some? && (pending.value == None || !Acceptable(pending.value.value))) {
      return None;
    }
    p := Some(p.value.(imported := true));
    if pending.Some? {
      SameIsReflected(pending.value.value, p.value, was, heads);
      if SameContent(pending.value.value, p.value) {
        p := pending.value;
      }
    }
  }

  /** What has the content of a publication of exactly these bytes is one itself. */
  lemma SameIsReflected(q: Publication, p: Publication, was: Snapshot, heads: Heads)
    requires Reflects(p, was, heads)
    ensures SameContent(q, p) <==> Reflects(q, was, heads)
  {
    if Reflects(q, was, heads) {
      assert q.body.documents == p.body.documents;
    }
  }

  /** The first of that content. */
  predicate FirstOf(items: seq<Publication>, i: int, was: Snapshot, heads: Heads) {
    && 0 <= i < |items| && Reflects(items[i], was, heads)
    && forall k :: 0 <= k < i ==> !Reflects(items[k], was, heads)
  }

  ghost predicate IsFirst(items: seq<Publication>, q: Publication, was: Snapshot, heads: Heads)
    ensures IsFirst(items, q, was, heads) ==> q in items
  {
    exists i :: FirstOf(items, i, was, heads) && q == items[i]
  }

  predicate Holds(items: seq<Publication>, was: Snapshot, heads: Heads) {
    exists q :: q in items && Reflects(q, was, heads)
  }

  method FindSame(items: seq<Publication>, p: Publication, ghost was: Snapshot, ghost heads: Heads)
      returns (found: Option<Publication>)
    requires Reflects(p, was, heads)
    ensures found.Some? <==> Holds(items, was, heads)
    ensures found.Some? ==> IsFirst(items, found.value, was, heads)
    ensures found == None ==> forall q :: q in items ==> !SameContent(q, p)
  {
    for i := 0 to |items|
      invariant forall k :: 0 <= k < i ==> !Reflects(items[k], was, heads)
    {
      SameIsReflected(items[i], p, was, heads);
      if SameContent(items[i], p) {
        assert FirstOf(items, i, was, heads);
        return Some(items[i]);
      }
    }
    forall q | q in items ensures !SameContent(q, p) {
      SameIsReflected(q, p, was, heads);
    }
    return None;
  }

  /** The base that a lock stands for in the ledger, and the ledger that has it: the first
      publication of its content, or the pinned one after the others. */
  ghost predicate BasedOn(ledger: Ledger, was: Snapshot, heads: Heads, pending: Option<Option<Publication>>,
                    base: Publication, after: Ledger) {
    if Holds(ledger.items, was, heads) then
      after == ledger && IsFirst(ledger.items, base, was, heads)
    else Pinned(base, was, heads, pending) && after == With(ledger, base)
  }

  /** One ledger was written, the old one and what the lock pins, which it had not. */
  ghost predicate Recovered(ledger: Ledger, was: Snapshot, heads: Heads, pending: Option<Option<Publication>>,
                            after: Option<Ledger>, written: seq<Ledger>, before: seq<Ledger>) {
    && |written| == |before| + 1 && before <= written
    && after == Some(written[|before|]) && !Holds(ledger.items, was, heads)
    && exists p :: Pinned(p, was, heads, pending) && after == Some(With(ledger, p))
  }

  lemma RecoveredBy(ledger: Ledger, p: Publication, was: Snapshot, heads: Heads, pending: Option<Option<Publication>>,
                    before: seq<Ledger>)
    requires Pinned(p, was, heads, pending) && !Holds(ledger.items, was, heads)
    ensures Recovered(ledger, was, heads, pending, Some(With(ledger, p)), before + [With(ledger, p)], before)
  {
    assert (before + [With(ledger, p)])[|before|] == With(ledger, p);
  }

  // ---- Dialects --------------------------------------------------------------------------

  /** What a request to publish a dialect comes to. */
  datatype Reply = Refused | Earlier(publication: Publication) | Saved

  /** Publication `p` is what `request` published, or what it found to be published. */
  predicate Settles(l: Ledger, p: Publication, request: string) {
    && p.body.dialect.Some?
    && (p.body.dialect.value.request == request || (request in l.receipts && l.receipts[request] == p.id))
  }

  predicate IsDone(l: Option<Ledger>, p: Publication, request: string) {
    l.Some? && p in l.value.items && Settles(l.value, p, request)
  }

  predicate Done(l: Option<Ledger>, request: string) {
    l.Some? && exists p :: p in l.value.items && Settles(l.value, p, request)
  }

  predicate OfDialect(p: Publication, preparation: string, variant: string) {
    p.body.dialect.Some? && p.body.dialect.value.preparation == preparation && p.body.dialect.value.variant == variant
  }

  /** The newest publication of a dialect. */
  function Latest(items: seq<Publication>, preparation: string, variant: string): ID {
    if items == [] then NoID
    else if OfDialect(items[|items| - 1], preparation, variant) then items[|items| - 1].id
    else Latest(items[..|items| - 1], preparation, variant)
  }

  method FindDone(l: Ledger, request: string) returns (done: Option<Publication>)
    ensures done.Some? ==> IsDone(Some(l), done.value, request)
    ensures done == None ==> !Done(Some(l), request)
  {
    for i := 0 to |l.items|
      invariant forall k :: 0 <= k < i ==> !Settles(l, l.items[k], request)
    {
      if Settles(l, l.items[i], request) {
        return Some(l.items[i]);
      }
    }
    return None;
  }

  method FindLatest(items: seq<Publication>, preparation: string, variant: string) returns (id: ID)
    ensures id == Latest(items, preparation, variant)
  {
    var i := |items|;
    assert items[..i] == items;
    while i > 0
      invariant 0 <= i <= |items| && Latest(items, preparation, variant) == Latest(items[..i], preparation, variant)
    {
      i := i - 1;
      assert items[..i + 1][..i] == items[..i];
      if OfDialect(items[i], preparation, variant) {
        return items[i].id;
      }
    }
    return NoID;
  }

  /** The request was not done, its base was still the newest, and it is the newest now. */
  predicate SavedOn(was: Option<Ledger>, candidate: Publication, base: ID, now: Option<Ledger>)
    requires candidate.body.dialect.Some?
  {
    var d := candidate.body.dialect.value;
    && was.Some? && !Done(was, d.request) && Latest(was.value.items, d.preparation, d.variant) == base
    && now == Some(With(was.value, candidate)) && Latest(now.value.items, d.preparation, d.variant) == candidate.id
  }

  lemma UndoneIsNew(l: Ledger, candidate: Publication)
    requires WellFormed(l) && Sound(candidate) && candidate.body.dialect.Some?
    requires !Done(Some(l), candidate.body.dialect.value.request)
    ensures !Names(l.items, candidate.id)
    ensures var d := candidate.body.dialect.value;
      Latest(With(l, candidate).items, d.preparation, d.variant) == candidate.id
  {
    forall i | 0 <= i < |l.items| ensures l.items[i].id != candidate.id {
      assert l.items[i] in l.items && Sound(l.items[i]);
      assert !Settles(l, l.items[i], candidate.body.dialect.value.request);
    }
  }

  lemma {:induction false} LatestIsOne(items: seq<Publication>, preparation: string, variant: string)
    ensures var id := Latest(items, preparation, variant); id == NoID || Names(items, id)
  {
    if items != [] && !OfDialect(items[|items| - 1], preparation, variant) {
      var n := |items| - 1;
      LatestIsOne(items[..n], preparation, variant);
      if Names(items[..n], Latest(items[..n], preparation, variant)) {
        var i :| 0 <= i < n && items[..n][i].id == Latest(items[..n], preparation, variant);
        assert items[i].id == items[..n][i].id;
      }
    }
  }

  /** From place `n` on there is a publication of the dialect; so the newest is not older. */
  lemma {:induction false} LatestIsAfter(items: seq<Publication>, n: nat, preparation: string, variant: string)
      returns (i: nat)
    requires n < |items| && OfDialect(items[n], preparation, variant)
    ensures n <= i < |items| && items[i].id == Latest(items, preparation, variant)
  {
    var last := |items| - 1;
    if OfDialect(items[last], preparation, variant) {
      i := last;
    } else {
      i := LatestIsAfter(items[..last], n, preparation, variant);
    }
  }

  /** There is a publication of the dialect after `base`. */
  ghost predicate Superseded(items: seq<Publication>, preparation: string, variant: string, base: ID) {
    exists n :: 0 <= n < |items| && OfDialect(items[n], preparation, variant) && (base == NoID || Names(items[..n], base))
  }

  lemma {:induction false} SavedIsNewer(l: Ledger, candidate: Publication, base: ID)
    requires candidate.body.dialect.Some? && Latest(l.items, candidate.body.dialect.value.preparation,
                                                    candidate.body.dialect.value.variant) == base
    ensures var d, items := candidate.body.dialect.value, With(l, candidate).items;
      Superseded(items, d.preparation, d.variant, base) && Done(Some(With(l, candidate)), d.request)
  {
    var d, items := candidate.body.dialect.value, With(l, candidate).items;
    assert items[|l.items|] == candidate && items[..|l.items|] == l.items;
    LatestIsOne(l.items, d.preparation, d.variant);
    assert candidate in items && Settles(With(l, candidate), candidate, d.request);
  }

  /** A base that was superseded is never the newest again, and what is done stays done. */
  lemma {:induction false} BaseIsGone(l: Ledger, later: Ledger, preparation: string, variant: string, base: ID,
                                      request: string)
    requires Superseded(l.items, preparation, variant, base) && Done(Some(l), request)
    requires Extends(l, later) && WellFormed(later)
    ensures Latest(later.items, preparation, variant) != base && Done(Some(later), request)
  {
    var n :|
      0 <= n < |l.items| && OfDialect(l.items[n], preparation, variant) && (base == NoID || Names(l.items[..n], base));
    assert later.items[n] == l.items[n];
    var i := LatestIsAfter(later.items, n, preparation, variant);
    assert later.items[i] in later.items && Sound(later.items[i]);
    if base != NoID {
      var k :| 0 <= k < n && l.items[..n][k].id == base;
      assert later.items[k] == l.items[k] && HasOwnID(later.items, i);
    }
    var p :| p in l.items && Settles(l, p, request);
    var m :| 0 <= m < |l.items| && l.items[m] == p;
    assert later.items[m] == p && Settles(later, p, request);
  }

  // ---- When a transaction gets where ---------------------------------------------------------

  predicate Fits(l: Ledger, size: nat) {
    |l.items| <= MAX_ITEMS && size <= MAX_BYTES
  }

  /** What the disk does while a transaction opens: whether the bytes of the lock are kept, how
      the import is written and how large it is; whether the bytes of the candidate are
      retained, and how large the ledger would be with it. */
  datatype Opening = Opening(kept: bool, importSize: nat, imports: Write, retained: bool, size: nat)

  function DocumentsOf(s: Snapshot, heads: Heads): seq<Document>
    requires AllHeads(s, heads)
  {
    seq(|s.entries|, i requires 0 <= i < |s.entries| => DocumentOf(s.entries[i], heads))
  }

  predicate Imports(ledger: Ledger, was: Snapshot, heads: Heads, a: Opening)
    requires AllHeads(was, heads)
  {
    && Functional(Docs(ledger.items) + DocumentsOf(was, heads)) && |ledger.items| < MAX_ITEMS
    && a.importSize <= MAX_BYTES && a.imports == Landed
  }

  predicate Recovers(ledger: Ledger, was: Snapshot, heads: Heads, pending: Option<Option<Publication>>, a: Opening) {
    && AllHeads(was, heads) && Legible(pending) && a.kept
    && (Holds(ledger.items, was, heads) || Imports(ledger, was, heads, a))
  }

  /** The documents of the ledger once the lock is recovered. */
  function BasedDocuments(ledger: Ledger, lock: Lock, heads: Heads): seq<Document>
    requires lock.Locked? ==> AllHeads(lock.was, heads)
  {
    Docs(ledger.items)
    + if lock.Locked? && !Holds(ledger.items, lock.was, heads) then DocumentsOf(lock.was, heads) else []
  }

  lemma BasedDocs(ledger: Ledger, was: Snapshot, heads: Heads, pending: Option<Option<Publication>>, base: Publication,
                  after: Ledger)
    requires AllHeads(was, heads) && BasedOn(ledger, was, heads, pending, base, after)
    ensures Docs(after.items) == BasedDocuments(ledger, Locked(was), heads)
  {
    if !Holds(ledger.items, was, heads) {
      DocsOfOne(ledger.items, base);
      assert base.body.documents == DocumentsOf(was, heads);
    }
  }

  predicate MayOpen(current: Option<Ledger>, snap: Snapshot, lock: Lock, heads: Heads,
                    pending: Option<Option<Publication>>, a: Opening) {
    && current.Some? && AllHeads(snap, heads) && !lock.Lost? && a.retained && a.size <= MAX_BYTES
    && (lock.Locked? ==> Recovers(current.value, lock.was, heads, pending, a))
    && Functional(BasedDocuments(current.value, lock, heads) + DocumentsOf(snap, heads))
  }

  /** Transaction `t` is of exactly the bytes of `snap`, on the ledger with the locked base. */
  ghost predicate OpenedAs(t: Transaction, ledger: Ledger, snap: Snapshot, lock: Lock, heads: Heads,
                     pending: Option<Option<Publication>>) {
    && Reflects(t.candidate, snap, heads) && !t.candidate.imported && !lock.Lost?
    && Based(ledger, lock, heads, pending, t.base, t.ledger)
  }

  ghost predicate Based(ledger: Ledger, lock: Lock, heads: Heads, pending: Option<Option<Publication>>,
                        base: Option<Publication>, after: Ledger) {
    if lock.Locked? then base.Some? && BasedOn(ledger, lock.was, heads, pending, base.value, after)
    else base == None && after == ledger
  }

  /** The version check turns down the transaction. */
  ghost predicate Turned(ledger: Ledger, snap: Snapshot, lock: Lock, heads: Heads, pending: Option<Option<Publication>>,
                         answers: Runtime) {
    exists t :: OpenedAs(t, ledger, snap, lock, heads, pending) && !Every(t, t.candidate.body.documents, answers).ok
  }

  /** The candidate carries the accepted reviews, or there are none and it is known. */
  predicate Reviewed(t: Transaction, accepted: seq<Ref>) {
    t.candidate.body.reviews == accepted || (accepted == [] && t.candidate in t.ledger.items)
  }

  /** A publication of exactly the reviewed bytes is staged, with the reviews that were accepted. */
  predicate IsStaged(pending: Option<Option<Publication>>, snap: Snapshot, heads: Heads, accepted: seq<Ref>) {
    && pending.Some? && pending.value.Some? && Reflects(pending.value.value, snap, heads)
    && (accepted != [] ==> pending.value.value.body.reviews == accepted)
  }

  /** How the confirmation of a review ends. */
  datatype Confirmation = Confirmed | NotOpened | GoesBack | NotStaged | NotLocked | NotCommitted

  predicate MayReceive(ledger: Ledger, request: string, id: ID, size: nat, end: Write) {
    if request in ledger.receipts then ledger.receipts[request] == id
    else Names(ledger.items, id) && |ledger.receipts| < MAX_ITEMS && size <= MAX_BYTES && end == Landed
  }

  /** The candidate names nothing differently and the version check lets it pass. */
  ghost predicate Passes(t: Transaction, answers: Runtime) {
    Functional(Docs(t.ledger.items) + t.candidate.body.documents) && Every(t, t.candidate.body.documents, answers).ok
  }

  ghost predicate MayPublish(current: Option<Ledger>, candidate: Publication, base: ID, answers: Runtime)
    requires candidate.body.dialect.Some?
  {
    var d := candidate.body.dialect.value;
    && current.Some? && !Done(current, d.request)
    && Latest(current.value.items, d.preparation, d.variant) == base
    && Passes(Transaction(current.value, candidate, None), answers)
  }

  /** The ledger file and the staged review, as one project has them. `written`
      are the ledgers written so far, `checked` the places in the ledger that were
      committed after the version check. */
  class Store {
    var history: Option<Stored>
    var pending: Option<Option<Publication>>
    ghost var written: seq<Ledger>
    ghost var checked: set<nat>
    ghost const first: Option<Stored>
    ghost const runtime: Runtime

    ghost predicate Valid()
      reads this
    {
      (pending.Some? && pending.value.Some? ==> Timely(pending.value.value)) && Kept()
    }

    ghost predicate Kept()
      reads this`history, this`written, this`checked
    {
      && Chain(Current(first), written)
      && (written == [] ==> history == first && checked == {})
      && (written != [] ==> Current(history) == Some(written[|written| - 1]) && AllChecked(written[|written| - 1].items))
    }

    ghost predicate AllChecked(items: seq<Publication>)
      reads this`checked
    {
      forall i :: i in checked ==> i < |items| && NewIsGreater(items, i, runtime)
    }

    constructor (history: Option<Stored>, pending: Option<Option<Publication>>, runtime: Runtime)
      requires pending.Some? && pending.value.Some? ==> Timely(pending.value.value)
      ensures Valid() && this.history == history && this.pending == pending && written == [] && checked == {}
      ensures first == history && this.runtime == runtime
    {
      this.history, this.pending, written, checked, first, this.runtime := history, pending, [], {}, history, runtime;
    }

    /** `writePublicationLedger`; `size` is what `l` takes as text, `news` are the checked places
        of `l` that are new. */
    method Write(l: Ledger, size: nat, end: Write, ghost news: set<nat>) returns (ok: bool)
      requires Valid() && Consistent(l) && Current(history).Some? && Extends(Current(history).value, l)
      requires forall i :: i in news ==> i < |l.items| && NewIsGreater(l.items, i, runtime)
      modifies this`history, this`written, this`checked
      ensures Valid()
      ensures ok <==> Fits(l, size) && (end == Landed || old(history) == Some(Stored(Some(l), size)))
      ensures if written == old(written) then history == old(history) && checked == old(checked)
              else written == old(written) + [l] && Current(history) == Some(l) && checked == old(checked) + news
      ensures ok ==> Current(history) == Some(l)
    {
      if |l.items| > MAX_ITEMS || size > MAX_BYTES {
        return false;
      }
      var raw := Some(Stored(Some(l), size));
      if history == raw {
        return true;
      }
      if end != Untouched {
        Swap(l, size, news);
      }
      ok := end == Landed;
    }

    /** The file is the new one. */
    method Swap(l: Ledger, size: nat, ghost news: set<nat>)
      requires Valid() && WellFormed(l) && size <= MAX_BYTES && Current(history).Some? && Extends(Current(history).value, l)
      requires forall i :: i in news ==> i < |l.items| && NewIsGreater(l.items, i, runtime)
      modifies this`history, this`written, this`checked
      ensures Valid() && history == Some(Stored(Some(l), size))
      ensures written == old(written) + [l] && Current(history) == Some(l) && checked == old(checked) + news
    {
      ChainMore(Current(first), written, l);
      GreaterStays(l);
      history := Some(Stored(Some(l), size));
      written := written + [l];
      checked := checked + news;
    }

    /** What the previous lock published, with the reviews that were staged for exactly
        that, is put into the ledger if it is not there. */
    method Recover(ledger: Ledger, was: Snapshot, heads: Heads, a: Opening)
      returns (base: Option<Publication>, after: Ledger)
      requires Valid() && ValidSnapshot(was) && Current(history) == Some(ledger)
      modifies this`history, this`written, this`checked
      ensures Valid() && checked == old(checked)
      ensures base.Some? <==> Recovers(ledger, was, heads, pending, a)
      ensures base.Some? ==> Current(history) == Some(after) && base.value in after.items
                             && BasedOn(ledger, was, heads, pending, base.value, after)
      ensures written == old(written) || Recovered(ledger, was, heads, pending, Current(history), written, old(written))
    {
      after := ledger;
      var chosen := Choose(was, heads, pending);
      if chosen == None || !a.kept {
        return None, ledger;
      }
      base := FindSame(ledger.items, chosen.value, was, heads);
      if base == None {
        base, after := ImportChosen(ledger, chosen.value, was, heads, a);
        assert after.items[|ledger.items|] == chosen.value;
      }
    }

    method ImportChosen(ledger: Ledger, p: Publication, was: Snapshot, heads: Heads, a: Opening)
      returns (base: Option<Publication>, after: Ledger)
      requires Valid() && Current(history) == Some(ledger) && Sound(p) && Pinned(p, was, heads, pending)
      requires AllHeads(was, heads) && !Holds(ledger.items, was, heads)
      requires forall q :: q in ledger.items ==> !SameContent(q, p)
      modifies this`history, this`written, this`checked
      ensures Valid() && checked == old(checked)
      ensures base == (if Imports(ledger, was, heads, a) then Some(p) else None) && after == With(ledger, p)
      ensures base.Some? ==> Current(history) == Some(after)
      ensures written == old(written) || Recovered(ledger, was, heads, pending, Current(history), written, old(written))
    {
      assert p.body.documents == DocumentsOf(was, heads);
      RecoveredBy(ledger, p, was, heads, pending, written);
      var ok;
      ok, after := Import(ledger, p, a.importSize, a.imports);
      base := if ok then Some(p) else None;
    }

    method Import(ledger: Ledger, p: Publication, size: nat, end: Write) returns (ok: bool, after: Ledger)
      requires Valid() && Current(history) == Some(ledger)
      requires Sound(p) && forall q :: q in ledger.items ==> !SameContent(q, p)
      modifies this`history, this`written, this`checked
      ensures Valid() && checked == old(checked) && after == With(ledger, p)
      ensures ok <==> Functional(Docs(ledger.items) + p.body.documents) && Fits(after, size) && end == Landed
      ensures ok ==> Current(history) == Some(after)
      ensures written == old(written)
              || (written == old(written) + [With(ledger, p)] && Current(history) == Some(With(ledger, p)))
    {
      after := With(ledger, p);
      ok := Admit(ledger, p);
      if ok {
        ok := Append(ledger, p, size, end);
      }
    }

    method Append(ledger: Ledger, p: Publication, size: nat, end: Write) returns (ok: bool)
      requires Valid() && Current(history) == Some(ledger) && Sound(p)
      requires Functional(Docs(ledger.items) + p.body.documents) && forall q :: q in ledger.items ==> !SameContent(q, p)
      modifies this`history, this`written, this`checked
      ensures Valid() && checked == old(checked)
      ensures ok <==> Fits(With(ledger, p), size) && end == Landed
      ensures ok ==> Current(history) == Some(With(ledger, p))
      ensures written == old(written)
              || (written == old(written) + [With(ledger, p)] && Current(history) == Some(With(ledger, p)))
    {
      UnknownIsNew(ledger, p);
      Appends(ledger, p);
      assert |With(ledger, p).items| == |ledger.items| + 1;
      ok := Write(With(ledger, p), size, end, {});
    }

    /** Opens a transaction for `snap`. */
    method Begin(snap: Snapshot, lock: Lock, heads: Heads, a: Opening) returns (t: Option<Transaction>)
      requires Valid() && ValidSnapshot(snap) && (lock.Locked? ==> ValidSnapshot(lock.was))
      modifies this`history, this`written, this`checked
      ensures Valid() && checked == old(checked)
      ensures t.Some? ==> Ready(t.value) && Current(history) == Some(t.value.ledger)
      ensures t.Some? ==> old(Current(history)).Some?
                          && OpenedAs(t.value, old(Current(history)).value, snap, lock, heads, pending)
      ensures t.Some? ==> MayOpen(old(Current(history)), snap, lock, heads, pending, a)
      ensures t == None ==> !MayOpen(old(Current(history)), snap, lock, heads, pending, a)
                            || |old(Current(history)).value.items| + 2 > MAX_ITEMS
      ensures written == old(written) || (old(Current(history)).Some? && lock.Locked?
        && Recovered(old(Current(history)).value, lock.was, heads, pending, Current(history), written, old(written)))
    {
      var read := Ledgers.Read(history);
      var candidate := FromSnapshot(snap, heads);
      if read == None || candidate == None || lock.Lost? {
        return None;
      }
      t := BeginOn(read.value, candidate.value, snap, lock, heads, a);
    }

    method BeginOn(read: Ledger, candidate: Publication, snap: Snapshot, lock: Lock, heads: Heads, a: Opening)
      returns (t: Option<Transaction>)
      requires Valid() && !lock.Lost? && (lock.Locked? ==> ValidSnapshot(lock.was)) && Current(history) == Some(read)
      requires AllHeads(snap, heads) && Sound(candidate) && Reflects(candidate, snap, heads) && !candidate.imported
      modifies this`history, this`written, this`checked
      ensures Valid() && checked == old(checked)
      ensures t.Some? ==> Ready(t.value) && Current(history) == Some(t.value.ledger)
      ensures t.Some? ==> OpenedAs(t.value, read, snap, lock, heads, pending)
      ensures t.Some? ==> MayOpen(Some(read), snap, lock, heads, pending, a)
      ensures t == None ==> !MayOpen(Some(read), snap, lock, heads, pending, a) || |read.items| + 2 > MAX_ITEMS
      ensures written == old(written) || (lock.Locked?
        && Recovered(read, lock.was, heads, pending, Current(history), written, old(written)))
    {
      assert candidate.body.documents == DocumentsOf(snap, heads);
      var ok, base, ledger := Base(read, lock, heads, a);
      if ok {
        t := Open(ledger, candidate, base, a);
      } else {
        t := None;
      }
    }

    /** The ledger and the base on which the candidate is put. */
    method Base(read: Ledger, lock: Lock, heads: Heads, a: Opening)
      returns (ok: bool, base: Option<Publication>, ledger: Ledger)
      requires Valid() && !lock.Lost? && (lock.Locked? ==> ValidSnapshot(lock.was)) && Current(history) == Some(read)
      modifies this`history, this`written, this`checked
      ensures Valid() && checked == old(checked) && (base.Some? ==> base.value in ledger.items)
      ensures ok <==> (lock.Locked? ==> Recovers(read, lock.was, heads, pending, a))
      ensures ok ==> Current(history) == Some(ledger) && Based(read, lock, heads, pending, base, ledger)
      ensures ok ==> Docs(ledger.items) == BasedDocuments(read, lock, heads) && |ledger.items| <= |read.items| + 1
      ensures written == old(written) || (lock.Locked?
        && Recovered(read, lock.was, heads, pending, Current(history), written, old(written)))
    {
      ok, base, ledger := true, None, read;
      if lock.Locked? {
        base, ledger := Recover(read, lock.was, heads, a);
        ok := base.Some?;
        if ok {
          BasedDocs(read, lock.was, heads, pending, base.value, ledger);
        }
      }
    }

    method Open(ledger: Ledger, candidate: Publication, base: Option<Publication>, a: Opening)
      returns (t: Option<Transaction>)
      requires WellFormed(ledger) && Sound(candidate) && (base.Some? ==> base.value in ledger.items)
      ensures t.Some? ==> t.value == Transaction(ledger, candidate, base) && Ready(t.value)
      ensures t.Some? ==> Functional(Docs(ledger.items) + candidate.body.documents) && a.retained && a.size <= MAX_BYTES
      ensures t == None ==> !Functional(Docs(ledger.items) + candidate.body.documents) || !a.retained
                            || a.size > MAX_BYTES || |ledger.items| == MAX_ITEMS
    {
      var admitted := Admit(ledger, candidate);
      if !admitted || !a.retained {
        return None;
      }
      t := Some(Transaction(ledger, candidate, base));
      var proposed := AddCandidate(t.value);
      if |proposed.items| > MAX_ITEMS || a.size > MAX_BYTES {
        return None;
      }
    }

    /** `stageReview`: the whole file or none of it. */
    method StageReview(candidate: Publication, end: Write) returns (ok: bool)
      requires Valid() && Timely(candidate)
      modifies this`pending
      ensures Valid() && (ok <==> end == Landed)
      ensures pending == if end == Untouched then old(pending) else Some(Some(candidate))
    {
      if end != Untouched {
        pending := Some(Some(candidate));
      }
      ok := end == Landed;
    }

    /** Commits a transaction whose versions were checked. */
    method Commit(t: Transaction, size: nat, end: Write) returns (ok: bool)
      requires Valid() && Ready(t) && Advances(t, runtime) && Current(history) == Some(t.ledger)
      modifies this`history, this`written, this`checked
      ensures Valid() && old(written) <= written
      ensures ok ==> Current(history) == Some(WithCandidate(t)) && Names(WithCandidate(t).items, t.candidate.id)
      ensures ok <==> Fits(WithCandidate(t), size)
                      && (end == Landed || old(history) == Some(Stored(Some(WithCandidate(t)), size)))
      ensures Current(history) == Some(t.ledger) || Current(history) == Some(WithCandidate(t))
      ensures checked == old(checked) || checked == old(checked) + {|t.ledger.items|}
      ensures Current(history).value.items != t.ledger.items ==> |t.ledger.items| in checked
    {
      var l := AddCandidate(t);
      AdvancingIsGreater(t, runtime);
      ok := Write(l, size, end, if l.items == t.ledger.items then {} else {|t.ledger.items|});
    }

    /** The receipt of a request that published nothing new. */
    method RetainReceipt(request: string, id: ID, size: nat, end: Write) returns (ok: bool)
      requires Valid() && IsDigest(request)
      modifies this`history, this`written, this`checked
      ensures Valid() && old(written) <= written
      ensures ok ==> Current(history).Some? && request in Current(history).value.receipts
                     && Current(history).value.receipts[request] == id && Names(Current(history).value.items, id)
      ensures ok <==> old(Current(history)).Some? && MayReceive(old(Current(history)).value, request, id, size, end)
      ensures old(Current(history)).Some? ==>
        Current(history).Some? && Current(history).value.items == old(Current(history)).value.items
    {
      var read := Ledgers.Read(history);
      if read == None {
        return false;
      }
      var ledger := read.value;
      if request in ledger.receipts {
        return ledger.receipts[request] == id;
      }
      var i := 0;
      while i < |ledger.items| && ledger.items[i].id != id
        invariant i <= |ledger.items| && forall k :: 0 <= k < i ==> ledger.items[k].id != id
      {
        i := i + 1;
      }
      if i == |ledger.items| || |ledger.receipts| >= MAX_ITEMS {
        return false;
      }
      assert Names(ledger.items, id);
      ok := Write(ledger.(receipts := ledger.receipts[request := id]), size, end, {});
    }

    /** The transaction of a confirmed review, up to its staging. */
    method Prepare(snap: Snapshot, lock: Lock, heads: Heads, accepted: seq<Ref>, answers: Runtime, a: Opening)
      returns (t: Option<Transaction>, begun: bool)
      requires Valid() && ValidSnapshot(snap) && (lock.Locked? ==> ValidSnapshot(lock.was))
      requires Grammar(answers) && forall r :: r in accepted ==> ValidRef(r)
      modifies this`history, this`written, this`checked
      ensures Valid() && old(written) <= written
      ensures t.Some? ==> begun && Ready(t.value) && Current(history) == Some(t.value.ledger)
      ensures t.Some? ==> Advances(t.value, answers) && Reflects(t.value.candidate, snap, heads)
      ensures t.Some? ==> Reviewed(t.value, accepted)
      ensures begun ==> old(Current(history)).Some?
      ensures begun && t == None ==> Turned(old(Current(history)).value, snap, lock, heads, pending, answers)
      ensures !begun ==> !MayOpen(old(Current(history)), snap, lock, heads, pending, a)
                          || |old(Current(history)).value.items| + 2 > MAX_ITEMS
    {
      t := Begin(snap, lock, heads, a);
      begun := t.Some?;
      if begun {
        var advances, _ := Check(t.value, answers);
        if !advances {
          return None, true;
        }
        var u := AdmitReviews(t.value, accepted);
        AdvancesCarries(t.value, u, answers);
        t := Some(u);
      }
    }

    /** A confirmed review: recovery, version check, reviews, staging, the public lock, commit. */
    method LockConfirmed(snap: Snapshot, lock: Lock, heads: Heads, accepted: seq<Ref>, answers: Runtime, a: Opening,
                         stages: Write, locks: bool, size: nat, commits: Write)
      returns (r: Confirmation)
      requires Valid() && ValidSnapshot(snap) && (lock.Locked? ==> ValidSnapshot(lock.was))
      requires Grammar(answers) && answers == runtime && forall r :: r in accepted ==> ValidRef(r)
      modifies this
      ensures Valid() && old(written) <= written
      ensures r == Confirmed ==> Publishes(Current(history), snap, heads)
      ensures r in {Confirmed, NotLocked, NotCommitted} ==> IsStaged(pending, snap, heads, accepted)
      ensures r == NotOpened ==> !MayOpen(old(Current(history)), snap, lock, heads, old(pending), a)
                                 || |old(Current(history)).value.items| + 2 > MAX_ITEMS
      ensures r == GoesBack ==> old(Current(history)).Some?
                                && Turned(old(Current(history)).value, snap, lock, heads, old(pending), answers)
      ensures (r == NotStaged ==> stages != Landed) && (r == NotLocked ==> !locks)
      ensures r == NotCommitted ==> commits != Landed || size > MAX_BYTES || !(Current(history).Some?
                                    && |Current(history).value.items| < MAX_ITEMS)
    {
      var t, begun := Prepare(snap, lock, heads, accepted, answers, a);
      if t == None {
        return if begun then GoesBack else NotOpened;
      }
      r := Finish(t.value, snap, heads, accepted, stages, locks, size, commits);
    }

    method Finish(t: Transaction, ghost snap: Snapshot, ghost heads: Heads, ghost accepted: seq<Ref>, stages: Write,
                  locks: bool, size: nat, commits: Write)
      returns (r: Confirmation)
      requires Valid() && Ready(t) && Current(history) == Some(t.ledger) && Advances(t, runtime)
      requires Reflects(t.candidate, snap, heads) && Reviewed(t, accepted)
      modifies this
      ensures Valid() && old(written) <= written && r in {Confirmed, NotStaged, NotLocked, NotCommitted}
      ensures r == Confirmed ==> Publishes(Current(history), snap, heads)
      ensures r != NotStaged ==> IsStaged(pending, snap, heads, accepted)
      ensures (r == NotStaged ==> stages != Landed) && (r == NotLocked ==> !locks)
      ensures r == NotCommitted ==> commits != Landed || size > MAX_BYTES || !(Current(history).Some?
                                    && |Current(history).value.items| < MAX_ITEMS)
    {
      var staged := StageReview(t.candidate, stages);
      if !staged {
        return NotStaged;
      }
      if !locks {
        return NotLocked;
      }
      var ok := Commit(t, size, commits);
      CandidateIsThere(t, snap, heads);
      r := if ok then Confirmed else NotCommitted;
    }

    /** A checked dialect is published; there is no lock to recover. A request that is done
        is answered with what it published, and nothing is published on another base. */
    method PublishDialect(candidate: Publication, base: ID, answers: Runtime, readable: bool, retained: bool, size: nat,
                          end: Write)
      returns (r: Reply)
      requires Valid() && Sound(candidate) && candidate.body.dialect.Some? && Grammar(answers) && answers == runtime
      modifies this`history, this`written, this`checked
      ensures Valid() && old(written) <= written
      ensures r.Earlier? ==> IsDone(old(Current(history)), r.publication, candidate.body.dialect.value.request)
      ensures r.Earlier? <==> Done(old(Current(history)), candidate.body.dialect.value.request) && readable
      ensures Done(old(Current(history)), candidate.body.dialect.value.request) ==>
        !r.Saved? && history == old(history) && written == old(written)
      ensures r.Saved? ==> SavedOn(old(Current(history)), candidate, base, Current(history))
      ensures r.Refused? ==> Current(history) == old(Current(history))
                             || SavedOn(old(Current(history)), candidate, base, Current(history))
      ensures r.Saved? <==> MayPublish(old(Current(history)), candidate, base, answers) && retained
                            && Fits(With(old(Current(history)).value, candidate), size) && end == Landed
    {
      var read := Ledgers.Read(history);
      if read == None {
        return Refused;
      }
      var d := candidate.body.dialect.value;
      var done := FindDone(read.value, d.request);
      if done.Some? {
        return if readable then Earlier(done.value) else Refused;
      }
      var latest := FindLatest(read.value.items, d.preparation, d.variant);
      if latest != base {
        return Refused;
      }
      var t := Transaction(read.value, candidate, None);
      UndoneIsNew(t.ledger, candidate);
      var ok := CheckAndCommit(t, answers, retained, size, end);
      r := if ok then Saved else Refused;
    }

    method CheckAndCommit(t: Transaction, answers: Runtime, retained: bool, size: nat, end: Write) returns (ok: bool)
      requires Valid() && Current(history) == Some(t.ledger) && Sound(t.candidate) && t.base == None
      requires Grammar(answers) && answers == runtime && !Names(t.ledger.items, t.candidate.id)
      modifies this`history, this`written, this`checked
      ensures Valid() && old(written) <= written
      ensures ok ==> Current(history) == Some(With(t.ledger, t.candidate))
      ensures ok <==> Passes(t, answers) && retained && Fits(With(t.ledger, t.candidate), size) && end == Landed
      ensures Current(history) == Some(t.ledger) || Current(history) == Some(With(t.ledger, t.candidate))
    {
      ok := Admit(t.ledger, t.candidate);
      if !ok {
        return;
      }
      var memo;
      ok, memo := Check(t, answers);
      if ok && retained {
        assert |With(t.ledger, t.candidate).items| == |t.ledger.items| + 1;
        ok := Commit(t, size, end);
      } else {
        ok := false;
      }
    }

    lemma IsChain()
      requires Valid()
      ensures Chain(Current(first), written) && Current(history) == Now(Current(first), written)
    {
    }

    lemma {:induction false} GreaterStays(l: Ledger)
      requires Valid() && Current(history).Some? && Extends(Current(history).value, l)
      ensures AllChecked(l.items)
    {
      forall i | i in checked ensures i < |l.items| && NewIsGreater(l.items, i, runtime) {
        var items := Current(history).value.items;
        assert l.items[..i] == items[..i] && l.items[i] == items[i];
      }
    }
  }

  lemma {:induction false} AdvancesCarries(t: Transaction, u: Transaction, runtime: Runtime)
    requires Advances(t, runtime) && u.ledger == t.ledger && u.base == t.base && SameContent(u.candidate, t.candidate)
    ensures Advances(u, runtime)
  {
    assert u.candidate.body.documents == t.candidate.body.documents;
    forall d | d in u.candidate.body.documents ensures Admissible(u, d, runtime) {
      assert Admissible(t, d, runtime);
      forall b | Bound(u, b, d) ensures Finds(runtime, b.version, d.version, Greater) {
        assert Bound(t, b, d);
      }
    }
  }

  /** The ledger holds a publication of exactly the bytes of `snap`. */
  predicate Publishes(l: Option<Ledger>, snap: Snapshot, heads: Heads) {
    l.Some? && exists p :: p in l.value.items && Reflects(p, snap, heads)
  }

  lemma {:induction false} CandidateIsThere(t: Transaction, snap: Snapshot, heads: Heads)
    requires Ready(t) && Reflects(t.candidate, snap, heads)
    ensures Publishes(Some(WithCandidate(t)), snap, heads)
  {
    if Names(t.ledger.items, t.candidate.id) {
      var i :| 0 <= i < |t.ledger.items| && t.ledger.items[i].id == t.candidate.id;
      assert t.ledger.items[i] in t.ledger.items;
      assert Reflects(t.ledger.items[i], snap, heads);
    } else {
      assert WithCandidate(t).items[|t.ledger.items|] == t.candidate;
    }
  }

  // ---- Histories -----------------------------------------------------------------------

  /** Every ledger that was written is well formed and extends all before it. */
  ghost predicate Chain(first: Option<Ledger>, written: seq<Ledger>) {
    && (written != [] ==> first.Some?)
    && (forall i :: 0 <= i < |written| ==> WellFormed(written[i]) && Extends(first.value, written[i]))
    && (forall i, j :: 0 <= i < j < |written| ==> Extends(written[i], written[j]))
  }

  lemma {:induction false} ExtendsOn(a: Ledger, b: Ledger, c: Ledger)
    requires Extends(a, b) && Extends(b, c)
    ensures Extends(a, c)
  {
  }

  lemma {:induction false} ChainMore(first: Option<Ledger>, written: seq<Ledger>, l: Ledger)
    requires Chain(first, written) && WellFormed(l)
    requires if written == [] then first.Some? && Extends(first.value, l) else Extends(written[|written| - 1], l)
    ensures Chain(first, written + [l])
  {
    forall i | 0 <= i < |written| ensures Extends(written[i], l) && Extends(first.value, l) {
      var last := written[|written| - 1];
      ExtendsOn(written[i], last, l);
      ExtendsOn(first.value, last, l);
    }
  }

  /** The ledger after those that were written. */
  function Now(first: Option<Ledger>, written: seq<Ledger>): Option<Ledger> {
    if written == [] then first else Some(written[|written| - 1])
  }

  /**
    Any transactions in any order, each as far as it gets: what is in the file at the
    end, if anything was written, is the last of a chain of ledgers that each read
    well and extend the one before, and every publication that was committed after
    the version check brought only greater versions.
  */
  method AnyHistory(store: Store, answers: Runtime, steps: nat)
    requires store.Valid() && Grammar(answers) && answers == store.runtime
    modifies store
    ensures store.Valid() && old(store.written) <= store.written
  {
    for i := 0 to steps
      invariant store.Valid() && old(store.written) <= store.written
    {
      var which: nat, size: nat, end: Write :| true;
      if which == 0 {
        var snap: Snapshot, lock: Lock, heads: Heads, accepted: seq<Ref> := *, *, *, *;
        var sound := forall r :: r in accepted ==> ValidRef(r);
        if sound && ValidSnapshot(snap) && (lock.Locked? ==> ValidSnapshot(lock.was)) {
          var a: Opening, stages: Write, locks: bool := *, *, *;
          var _ := store.LockConfirmed(snap, lock, heads, accepted, answers, a, stages, locks, size, end);
        }
      } else if which == 1 {
        var candidate: Publication := *;
        if Sound(candidate) && candidate.body.dialect.Some? {
          var base: ID := *;
          var readable: bool, retained: bool := *, *;
          var _ := store.PublishDialect(candidate, base, answers, readable, retained, size, end);
        }
      } else {
        var request: string, id: ID := *, *;
        if IsDigest(request) {
          var _ := store.RetainReceipt(request, id, size, end);
        }
      }
    }
  }

  /** Two requests to publish the same dialect on the same base, with any transactions in
      between: at most one of them is saved, and the request that was saved stays done. */
  method PublishBoth(store: Store, a: Publication, b: Publication, base: ID, answers: Runtime, steps: nat)
    returns (first: Reply, second: Reply)
    requires store.Valid() && Grammar(answers) && answers == store.runtime
    requires Sound(a) && Sound(b) && a.body.dialect.Some? && b.body.dialect.Some?
    requires a.body.dialect.value.preparation == b.body.dialect.value.preparation
    requires a.body.dialect.value.variant == b.body.dialect.value.variant
    modifies store
    ensures store.Valid() && !(first.Saved? && second.Saved?)
    ensures first.Saved? ==> Done(Current(store.history), a.body.dialect.value.request)
  {
    first := PublishOne(store, a, base, answers);
    ghost var saved, now := store.written, Current(store.history);
    store.IsChain();
    AnyHistory(store, answers, steps);
    ghost var later, mid := store.written, Current(store.history);
    store.IsChain();
    second := PublishOne(store, b, base, answers);
    store.IsChain();
    if first.Saved? {
      ghost var d := a.body.dialect.value;
      Grown(Current(store.first), saved, later, now, mid);
      BaseIsGone(now.value, mid.value, d.preparation, d.variant, base, d.request);
      Grown(Current(store.first), saved, store.written, now, Current(store.history));
      BaseIsGone(now.value, Current(store.history).value, d.preparation, d.variant, base, d.request);
    }
  }

  lemma {:induction false} Grown(first: Option<Ledger>, before: seq<Ledger>, after: seq<Ledger>,
                                 was: Option<Ledger>, now: Option<Ledger>)
    requires Chain(first, after) && before <= after && was.Some? && WellFormed(was.value)
    requires was == Now(first, before) && now == Now(first, after)
    ensures now.Some? && WellFormed(now.value) && Extends(was.value, now.value)
  {
    var i, j := |before| - 1, |after| - 1;
    if before != [] && i < j {
      assert Extends(after[i], after[j]);
    }
  }

  method PublishOne(store: Store, candidate: Publication, base: ID, answers: Runtime) returns (r: Reply)
    requires store.Valid() && Grammar(answers) && answers == store.runtime
    requires Sound(candidate) && candidate.body.dialect.Some?
    modifies store
    ensures store.Valid() && old(store.written) <= store.written
    ensures r.Saved? ==> old(Current(store.history)).Some? && Current(store.history).Some?
    ensures r.Saved? ==> WellFormed(Current(store.history).value)
    ensures var d := candidate.body.dialect.value;
      r.Saved? ==>
        && Latest(old(Current(store.history)).value.items, d.preparation, d.variant) == base
        && Superseded(Current(store.history).value.items, d.preparation, d.variant, base)
        && Done(Current(store.history), d.request)
  {
    ghost var was := Current(store.history);
    var readable: bool, retained: bool, size: nat, end: Write :| true;
    r := store.PublishDialect(candidate, base, answers, readable, retained, size, end);
    if r.Saved? {
      SavedIsNewer(was.value, candidate, base);
    }
  }
}
