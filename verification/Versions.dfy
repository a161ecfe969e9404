/**
  The version check of a publication (internal/desk/artifact_publications.go,
  `checkPublicationVersions`). The Runtime compares versions; its answers are
  memorised under a text made of both. `Check` is proved to answer as comparing
  everything anew would, `MemoConfuses` shows what that rests on, and
  `AdvancingIsGreater` what it means for the ledger.
*/
module Versions {
  import opened Prelude
  import opened Ledgers

  datatype Comparison = Less | Equal | Greater

  datatype Pair = Pair(base: string, candidate: string)

  /** The Runtime: the pairs it compares, and how. */
  type Runtime = imap<Pair, Comparison>

  /** The transaction's ledger, candidate and locked base. */
  datatype Transaction = Transaction(ledger: Ledger, candidate: Publication, base: Option<Publication>)

  /** The Runtime's version grammar has no slash. */
  ghost predicate Grammar(runtime: Runtime) {
    forall p :: p in runtime ==> '/' !in p.candidate
  }

  predicate Finds(runtime: Runtime, base: string, candidate: string, c: Comparison) {
    Pair(base, candidate) in runtime && runtime[Pair(base, candidate)] == c
  }

  function MemoKey(base: string, candidate: string): string {
    base + "/" + candidate
  }

  // ---- What is asked for -----------------------------------------------------------

  predicate Known(ds: seq<Document>, d: Document) {
    exists i :: 0 <= i < |ds| && SameArtifact(ds[i], d) && ds[i].content == d.content
  }

  /** Candidate `d` takes the alias or path that `b` holds in the lock. */
  predicate Replaces(b: Document, d: Document) {
    (b.path == d.path || b.alias == d.alias) && SameArtifact(b, d) && b.content != d.content
  }

  function BaseDocs(t: Transaction): seq<Document> {
    if t.base.Some? then t.base.value.body.documents else []
  }

  /** The releases whose version candidate `d` must exceed, ... */
  predicate Bound(t: Transaction, b: Document, d: Document) {
    if Known(Docs(t.ledger.items), d) then b in BaseDocs(t) && Replaces(b, d)
    else b in Docs(t.ledger.items) && SameArtifact(b, d)
  }

  ghost predicate Admissible(t: Transaction, d: Document, runtime: Runtime) {
    && Finds(runtime, d.version, d.version, Equal)
    && forall b :: Bound(t, b, d) ==> Finds(runtime, b.version, d.version, Greater)
  }

  ghost predicate Advances(t: Transaction, runtime: Runtime) {
    forall d :: d in t.candidate.body.documents ==> Admissible(t, d, runtime)
  }

  /** ... one by one, as often and in the order in which they are found. */
  function Bases(t: Transaction, d: Document): seq<Document> {
    if Known(Docs(t.ledger.items), d) then Replaced(BaseDocs(t), d) else Releases(Docs(t.ledger.items), d)
  }

  function Replaced(ds: seq<Document>, d: Document): seq<Document> {
    if ds == [] then []
    else Replaced(ds[..|ds| - 1], d) + if Replaces(ds[|ds| - 1], d) then [ds[|ds| - 1]] else []
  }

  function Releases(ds: seq<Document>, d: Document): seq<Document> {
    if ds == [] then []
    else Releases(ds[..|ds| - 1], d) + if SameArtifact(ds[|ds| - 1], d) then [ds[|ds| - 1]] else []
  }

  lemma {:induction false} OneMore(ds: seq<Document>, i: nat, d: Document)
    requires i < |ds|
    ensures Replaced(ds[..i + 1], d) == Replaced(ds[..i], d) + if Replaces(ds[i], d) then [ds[i]] else []
    ensures Releases(ds[..i + 1], d) == Releases(ds[..i], d) + if SameArtifact(ds[i], d) then [ds[i]] else []
  {
    assert ds[..i + 1][..i] == ds[..i];
  }

  lemma {:induction false} Sieved(ds: seq<Document>, d: Document, b: Document)
    ensures b in Replaced(ds, d) <==> b in ds && Replaces(b, d)
    ensures b in Releases(ds, d) <==> b in ds && SameArtifact(b, d)
  {
    if ds != [] {
      var n := |ds| - 1;
      Sieved(ds[..n], d, b);
      assert ds == ds[..n] + [ds[n]];
    }
  }

  lemma BasesAreBound(t: Transaction, d: Document, b: Document)
    ensures b in Bases(t, d) <==> Bound(t, b, d)
  {
    Sieved(BaseDocs(t), d, b);
    Sieved(Docs(t.ledger.items), d, b);
  }

  // ---- The memo ----------------------------------------------------------------------

  /** What the memo holds as long as nothing was refused: the answer for some
      pair of that key, equal for a version and itself and greater otherwise. */
  ghost predicate Memo(checked: map<string, Comparison>, runtime: Runtime) {
    forall k :: k in checked ==> exists p: Pair :: Recorded(checked, k, p, runtime)
  }

  predicate Recorded(checked: map<string, Comparison>, k: string, p: Pair, runtime: Runtime) {
    && k in checked && k == MemoKey(p.base, p.candidate)
    && Finds(runtime, p.base, p.candidate, checked[k]) && checked[k] == if p.base == p.candidate then Equal else Greater
  }

  lemma {:induction false} KeysAgree(b: string, c: string, b': string, c': string)
    requires MemoKey(b, c) == MemoKey(b', c') && '/' !in c && '/' !in c'
    ensures b == b' && c == c'
  {
    var k := MemoKey(b, c);
    assert forall i :: |b| < i < |k| ==> k[i] == c[i - |b| - 1];
    assert forall i :: |b'| < i < |k| ==> k[i] == c'[i - |b'| - 1];
    assert k[|b|] == '/' && k[|b'|] == '/';
    assert b == k[..|b|] && b' == k[..|b'|] && c == k[|b| + 1..] && c' == k[|b'| + 1..];
  }

  /** A version with a slash may meet the memo of another pair; but that pair then
      compared greater, where a version must equal itself. */
  lemma {:induction false} SlashIsNotItself(p: Pair, v: string)
    requires '/' !in p.candidate && '/' in v && MemoKey(p.base, p.candidate) == MemoKey(v, v)
    ensures p.base != p.candidate
  {
    assert MemoKey(v, v)[|v| + 1..] == v;
    assert MemoKey(p.base, p.candidate)[|p.base| + 1..] == p.candidate;
  }

  /** Whether nothing was refused so far, and the memo. */
  datatype Answer = Answer(ok: bool, memo: map<string, Comparison>)

  /** `compare`, and whether it finds what it has to find. */
  ghost function Wants(checked: map<string, Comparison>, base: string, candidate: string, c: Comparison,
                       runtime: Runtime): Answer
  {
    var key, p := MemoKey(base, candidate), Pair(base, candidate);
    if key in checked then Answer(checked[key] == c, checked)
    else if |checked| >= 256 || p !in runtime then Answer(false, checked)
    else Answer(runtime[p] == c, checked[key := runtime[p]])
  }

  ghost function AllGreater(checked: map<string, Comparison>, bases: seq<Document>, v: string,
                            runtime: Runtime): Answer
  {
    if bases == [] then Answer(true, checked)
    else
      var n := |bases| - 1;
      var front := AllGreater(checked, bases[..n], v, runtime);
      if front.ok then Wants(front.memo, bases[n].version, v, Greater, runtime) else front
  }

  ghost function One(t: Transaction, d: Document, checked: map<string, Comparison>, runtime: Runtime): Answer {
    var itself := Wants(checked, d.version, d.version, Equal, runtime);
    if itself.ok then AllGreater(itself.memo, Bases(t, d), d.version, runtime) else itself
  }

  /** What the check makes of candidates `ds`, whatever the Runtime's grammar. */
  ghost function Every(t: Transaction, ds: seq<Document>, runtime: Runtime): Answer {
    if ds == [] then Answer(true, map[])
    else
      var front := Every(t, ds[..|ds| - 1], runtime);
      if front.ok then One(t, ds[|ds| - 1], front.memo, runtime) else front
  }

  lemma {:induction false} StopsGreater(checked: map<string, Comparison>, bases: seq<Document>, k: nat, v: string,
                                        runtime: Runtime)
    requires k <= |bases| && !AllGreater(checked, bases[..k], v, runtime).ok
    ensures AllGreater(checked, bases, v, runtime) == AllGreater(checked, bases[..k], v, runtime)
  {
    if k < |bases| {
      assert bases[..|bases| - 1][..k] == bases[..k];
      StopsGreater(checked, bases[..|bases| - 1], k, v, runtime);
    } else {
      assert bases[..k] == bases;
    }
  }

  lemma {:induction false} StopsEvery(t: Transaction, ds: seq<Document>, k: nat, runtime: Runtime)
    requires k <= |ds| && !Every(t, ds[..k], runtime).ok
    ensures Every(t, ds, runtime) == Every(t, ds[..k], runtime)
  {
    if k < |ds| {
      assert ds[..|ds| - 1][..k] == ds[..k];
      StopsEvery(t, ds[..|ds| - 1], k, runtime);
    } else {
      assert ds[..k] == ds;
    }
  }

  lemma GreaterNext(checked: map<string, Comparison>, bases: seq<Document>, i: nat, v: string, runtime: Runtime)
    requires i < |bases|
    ensures var front := AllGreater(checked, bases[..i], v, runtime);
      AllGreater(checked, bases[..i + 1], v, runtime) ==
        if front.ok then Wants(front.memo, bases[i].version, v, Greater, runtime) else front
  {
    assert bases[..i + 1][..i] == bases[..i];
  }

  lemma EveryNext(t: Transaction, ds: seq<Document>, i: nat, runtime: Runtime)
    requires i < |ds|
    ensures var front := Every(t, ds[..i], runtime);
      Every(t, ds[..i + 1], runtime) == if front.ok then One(t, ds[i], front.memo, runtime) else front
  {
    assert ds[..i + 1][..i] == ds[..i];
  }

  // ---- What has to be compared -------------------------------------------------------

  /** The texts of the pairs that are compared for version `v`, ... */
  ghost function Against(bases: seq<Document>, v: string): set<string> {
    set b | b in bases :: MemoKey(b.version, v)
  }

  ghost function Needed(t: Transaction, d: Document): set<string> {
    {MemoKey(d.version, d.version)} + Against(Bases(t, d), d.version)
  }

  /** ... and for all candidates `ds`. */
  ghost function Needs(t: Transaction, ds: seq<Document>): set<string> {
    if ds == [] then {} else Needs(t, ds[..|ds| - 1]) + Needed(t, ds[|ds| - 1])
  }

  /** Candidate `d` is compared with itself, and with what it must exceed. */
  ghost predicate Compared(t: Transaction, d: Document, k: string) {
    k == MemoKey(d.version, d.version) || exists b :: Bound(t, b, d) && k == MemoKey(b.version, d.version)
  }

  lemma {:induction false} NeedsMean(t: Transaction, ds: seq<Document>, k: string)
    ensures k in Needs(t, ds) <==> exists d :: d in ds && Compared(t, d, k)
  {
    if ds != [] {
      var n := |ds| - 1;
      NeedsMean(t, ds[..n], k);
      assert ds == ds[..n] + [ds[n]];
      forall b ensures b in Bases(t, ds[n]) <==> Bound(t, b, ds[n]) {
        BasesAreBound(t, ds[n], b);
      }
      assert k in Needed(t, ds[n]) <==> Compared(t, ds[n], k);
    }
  }

  /** The memo holds what was compared, in no more than 256 places. */
  ghost predicate Remembers(s: Answer, needed: set<string>) {
    s.memo.Keys <= needed && |s.memo| <= 256 && (s.ok ==> s.memo.Keys == needed)
  }

  lemma WantsRemembers(checked: map<string, Comparison>, base: string, v: string, c: Comparison, runtime: Runtime)
    requires |checked| <= 256
    ensures Remembers(Wants(checked, base, v, c, runtime), checked.Keys + {MemoKey(base, v)})
  {
    var key := MemoKey(base, v);
    if key !in checked && Pair(base, v) in runtime {
      var more := checked[key := runtime[Pair(base, v)]];
      assert more.Keys == checked.Keys + {key} && |more| == |checked| + 1;
    }
  }

  lemma {:induction false} AllGreaterRemembers(checked: map<string, Comparison>, bases: seq<Document>, v: string,
                                           runtime: Runtime)
    requires |checked| <= 256
    ensures Remembers(AllGreater(checked, bases, v, runtime), checked.Keys + Against(bases, v))
  {
    if bases != [] {
      var n := |bases| - 1;
      AllGreaterRemembers(checked, bases[..n], v, runtime);
      var front := AllGreater(checked, bases[..n], v, runtime);
      WantsRemembers(front.memo, bases[n].version, v, Greater, runtime);
      AgainstNext(bases, n, v);
      RemembersNext(front, AllGreater(checked, bases, v, runtime), checked.Keys + Against(bases[..n], v),
                MemoKey(bases[n].version, v));
      Grouped(checked.Keys, Against(bases[..n], v), MemoKey(bases[n].version, v));
    } else {
      assert Against(bases, v) == {};
    }
  }

  lemma Grouped(a: set<string>, b: set<string>, k: string)
    ensures a + b + {k} == a + (b + {k})
  {
  }

  lemma AgainstNext(bases: seq<Document>, n: nat, v: string)
    requires |bases| == n + 1
    ensures Against(bases, v) == Against(bases[..n], v) + {MemoKey(bases[n].version, v)}
  {
    assert bases == bases[..n] + [bases[n]];
  }

  lemma RemembersNext(front: Answer, s: Answer, needed: set<string>, key: string)
    requires Remembers(front, needed) && if front.ok then Remembers(s, front.memo.Keys + {key}) else s == front
    ensures Remembers(s, needed + {key})
  {
  }

  lemma OneRemembers(t: Transaction, d: Document, checked: map<string, Comparison>, runtime: Runtime)
    requires |checked| <= 256
    ensures Remembers(One(t, d, checked, runtime), checked.Keys + Needed(t, d))
  {
    WantsRemembers(checked, d.version, d.version, Equal, runtime);
    AllGreaterRemembers(Wants(checked, d.version, d.version, Equal, runtime).memo, Bases(t, d), d.version, runtime);
  }

  lemma {:induction false} EveryRemembers(t: Transaction, ds: seq<Document>, runtime: Runtime)
    ensures Remembers(Every(t, ds, runtime), Needs(t, ds))
  {
    if ds != [] {
      EveryRemembers(t, ds[..|ds| - 1], runtime);
      OneRemembers(t, ds[|ds| - 1], Every(t, ds[..|ds| - 1], runtime).memo, runtime);
    }
  }

  /** There is no room for the answer about `k`. */
  predicate Full(memo: map<string, Comparison>, k: string) {
    |memo| >= 256 && k !in memo
  }

  lemma FullMeans(memo: map<string, Comparison>, k: string, needed: set<string>)
    requires Full(memo, k) && memo.Keys <= needed && k in needed
    ensures |needed| > 256
  {
    FewerAre(memo.Keys + {k}, needed);
  }

  lemma {:induction false} FewerAre(a: set<string>, b: set<string>)
    requires a <= b
    ensures |a| <= |b|
  {
    if a != {} {
      var x :| x in a;
      FewerAre(a - {x}, b - {x});
    }
  }

  // ---- What the memo is worth --------------------------------------------------------

  /** The Runtime must find a version equal to itself. */
  lemma ItselfMeans(checked: map<string, Comparison>, v: string, runtime: Runtime)
    requires Grammar(runtime) && Memo(checked, runtime)
    ensures var s := Wants(checked, v, v, Equal, runtime);
      if s.ok then Memo(s.memo, runtime) && Finds(runtime, v, v, Equal)
      else !Finds(runtime, v, v, Equal) || Full(s.memo, MemoKey(v, v))
  {
    if MemoKey(v, v) in checked {
      var p: Pair :| Recorded(checked, MemoKey(v, v), p, runtime);
      if '/' in v {
        SlashIsNotItself(p, v);
      } else {
        KeysAgree(p.base, p.candidate, v, v);
      }
    } else if Finds(runtime, v, v, Equal) {
      MemoMore(checked, Pair(v, v), Equal, runtime);
    }
  }

  /** Version `v`, which was found equal to itself, must be greater than `base`. */
  lemma GreaterMeans(checked: map<string, Comparison>, base: string, v: string, runtime: Runtime)
    requires Grammar(runtime) && Memo(checked, runtime) && Finds(runtime, v, v, Equal)
    ensures var s := Wants(checked, base, v, Greater, runtime);
      if s.ok then Memo(s.memo, runtime) && Finds(runtime, base, v, Greater)
      else !Finds(runtime, base, v, Greater) || Full(s.memo, MemoKey(base, v))
  {
    if MemoKey(base, v) in checked {
      var p: Pair :| Recorded(checked, MemoKey(base, v), p, runtime);
      KeysAgree(p.base, p.candidate, base, v);
    } else if Finds(runtime, base, v, Greater) {
      MemoMore(checked, Pair(base, v), Greater, runtime);
    }
  }

  lemma {:induction false} AllGreaterMeans(checked: map<string, Comparison>, bases: seq<Document>, v: string,
                                           runtime: Runtime)
    requires Grammar(runtime) && Memo(checked, runtime) && Finds(runtime, v, v, Equal)
    ensures var s := AllGreater(checked, bases, v, runtime);
      if s.ok then Memo(s.memo, runtime) && forall b :: b in bases ==> Finds(runtime, b.version, v, Greater)
      else (exists b :: b in bases && (!Finds(runtime, b.version, v, Greater) || Full(s.memo, MemoKey(b.version, v))))
  {
    if bases != [] {
      var n := |bases| - 1;
      AllGreaterMeans(checked, bases[..n], v, runtime);
      assert bases == bases[..n] + [bases[n]];
      var front := AllGreater(checked, bases[..n], v, runtime);
      if front.ok {
        GreaterMeans(front.memo, bases[n].version, v, runtime);
      } else {
        var b :| b in bases[..n] && (!Finds(runtime, b.version, v, Greater) || Full(front.memo, MemoKey(b.version, v)));
        assert b in bases;
      }
    }
  }

  lemma OneMeans(t: Transaction, d: Document, checked: map<string, Comparison>, runtime: Runtime)
    requires Grammar(runtime) && Memo(checked, runtime)
    ensures var s := One(t, d, checked, runtime);
      if s.ok then Memo(s.memo, runtime) && Admissible(t, d, runtime)
      else !Admissible(t, d, runtime) || exists k :: k in Needed(t, d) && Full(s.memo, k)
  {
    ItselfMeans(checked, d.version, runtime);
    var itself := Wants(checked, d.version, d.version, Equal, runtime);
    if itself.ok {
      AllGreaterMeans(itself.memo, Bases(t, d), d.version, runtime);
      forall b ensures b in Bases(t, d) <==> Bound(t, b, d) {
        BasesAreBound(t, d, b);
      }
    }
  }

  lemma {:induction false} EveryMeans(t: Transaction, ds: seq<Document>, runtime: Runtime)
    requires Grammar(runtime)
    ensures var s := Every(t, ds, runtime);
      if s.ok then Memo(s.memo, runtime) && forall d :: d in ds ==> Admissible(t, d, runtime)
      else (exists d :: d in ds && !Admissible(t, d, runtime)) || exists k :: k in Needs(t, ds) && Full(s.memo, k)
  {
    if ds != [] {
      var n := |ds| - 1;
      EveryMeans(t, ds[..n], runtime);
      assert ds == ds[..n] + [ds[n]];
      var front := Every(t, ds[..n], runtime);
      if front.ok {
        OneMeans(t, ds[n], front.memo, runtime);
      } else if d :| d in ds[..n] && !Admissible(t, d, runtime) {
        assert d in ds;
      }
    }
  }

  lemma {:induction false} MemoMore(checked: map<string, Comparison>, p: Pair, answer: Comparison, runtime: Runtime)
    requires Memo(checked, runtime) && MemoKey(p.base, p.candidate) !in checked
    requires Finds(runtime, p.base, p.candidate, answer) && answer == if p.base == p.candidate then Equal else Greater
    ensures Memo(checked[MemoKey(p.base, p.candidate) := answer], runtime)
  {
    var memo := checked[MemoKey(p.base, p.candidate) := answer];
    forall k | k in memo ensures exists q: Pair :: Recorded(memo, k, q, runtime) {
      if k in checked {
        var q: Pair :| Recorded(checked, k, q, runtime);
        assert Recorded(memo, k, q, runtime);
      } else {
        assert Recorded(memo, k, p, runtime);
      }
    }
  }

  // ---- The check -----------------------------------------------------------------------

  /** `compare`: from the memo, or from the Runtime if there is room. */
  method Compare(checked: map<string, Comparison>, base: string, candidate: string, runtime: Runtime)
    returns (answer: Option<Comparison>, memo: map<string, Comparison>)
    ensures forall c: Comparison :: Answer(answer == Some(c), memo) == Wants(checked, base, candidate, c, runtime)
    ensures answer.Some? ==> MemoKey(base, candidate) in memo && memo[MemoKey(base, candidate)] == answer.value
  {
    memo := checked;
    var key := base + "/" + candidate;
    if key in checked {
      return Some(checked[key]), memo;
    }
    if |checked| >= 256 {
      return None, memo;
    }
    if Pair(base, candidate) !in runtime {
      return None, memo;
    }
    answer := Some(runtime[Pair(base, candidate)]);
    memo := checked[key := answer.value];
  }

  method FindReplaced(docs: seq<Document>, d: Document) returns (replaced: seq<Document>)
    ensures replaced == Replaced(docs, d)
  {
    replaced := [];
    for i := 0 to |docs|
      invariant replaced == Replaced(docs[..i], d)
    {
      OneMore(docs, i, d);
      if Replaces(docs[i], d) {
        replaced := replaced + [docs[i]];
      }
    }
    assert docs[..|docs|] == docs;
  }

  lemma {:induction false} KnownMore(ds: seq<Document>, i: nat, d: Document)
    requires i < |ds|
    ensures Known(ds[..i + 1], d) <==> Known(ds[..i], d) || (SameArtifact(ds[i], d) && ds[i].content == d.content)
  {
    assert ds[..i + 1][i] == ds[i] && forall k :: 0 <= k < i ==> ds[..i + 1][k] == ds[..i][k];
  }

  /** What there is among `ds` of the artifact of `d`, and whether its content is. */
  predicate Found(ds: seq<Document>, d: Document, known: bool, releases: seq<Document>) {
    known == Known(ds, d) && releases == Releases(ds, d)
  }

  lemma FoundMore(ds: seq<Document>, e: Document, d: Document, known: bool, releases: seq<Document>)
    requires Found(ds, d, known, releases)
    ensures if SameArtifact(e, d) then Found(ds + [e], d, known || e.content == d.content, releases + [e])
            else Found(ds + [e], d, known, releases)
  {
    var more := ds + [e];
    assert more[..|ds|] == ds && more[..|more|] == more;
    OneMore(more, |ds|, d);
    KnownMore(more, |ds|, d);
  }

  /** The releases the ledger holds of the artifact of `d`, and whether one has its content. */
  method FindReleases(items: seq<Publication>, d: Document) returns (known: bool, releases: seq<Document>)
    ensures known == Known(Docs(items), d) && releases == Releases(Docs(items), d)
  {
    known, releases := false, [];
    for i := 0 to |items|
      invariant Found(Docs(items[..i]), d, known, releases)
    {
      DocsAppend(items, i);
      known, releases := FindInOne(Docs(items[..i]), items[i].body.documents, d, known, releases);
    }
    assert items[..|items|] == items;
  }

  method FindInOne(ghost before: seq<Document>, docs: seq<Document>, d: Document, known: bool, releases: seq<Document>)
    returns (found: bool, all: seq<Document>)
    requires Found(before, d, known, releases)
    ensures Found(before + docs, d, found, all)
  {
    found, all := known, releases;
    assert before + docs[..0] == before;
    for j := 0 to |docs|
      invariant Found(before + docs[..j], d, found, all)
    {
      assert before + docs[..j + 1] == before + docs[..j] + [docs[j]];
      FoundMore(before + docs[..j], docs[j], d, found, all);
      if SameArtifact(docs[j], d) {
        all := all + [docs[j]];
        found := found || docs[j].content == d.content;
      }
    }
    assert docs[..|docs|] == docs;
  }

  /** Version `v` against each of the releases it must exceed. */
  method CheckBases(checked: map<string, Comparison>, bases: seq<Document>, v: string, runtime: Runtime)
    returns (ok: bool, memo: map<string, Comparison>)
    ensures Answer(ok, memo) == AllGreater(checked, bases, v, runtime)
  {
    memo := checked;
    for i := 0 to |bases|
      invariant Answer(true, memo) == AllGreater(checked, bases[..i], v, runtime)
    {
      GreaterNext(checked, bases, i, v, runtime);
      var answer;
      answer, memo := Compare(memo, bases[i].version, v, runtime);
      if answer != Some(Greater) {
        StopsGreater(checked, bases, i + 1, v, runtime);
        return false, memo;
      }
    }
    assert bases[..|bases|] == bases;
    ok := true;
  }

  /** One candidate document. */
  method CheckOne(t: Transaction, d: Document, runtime: Runtime, checked: map<string, Comparison>)
    returns (ok: bool, memo: map<string, Comparison>)
    ensures Answer(ok, memo) == One(t, d, checked, runtime)
  {
    var answer;
    answer, memo := Compare(checked, d.version, d.version, runtime);
    if answer != Some(Equal) {
      return false, memo;
    }
    var replaced := FindReplaced(BaseDocs(t), d);
    var known, releases := FindReleases(t.ledger.items, d);
    ok, memo := CheckBases(memo, if known then replaced else releases, d.version, runtime);
  }

  method CheckAll(t: Transaction, runtime: Runtime) returns (ok: bool, memo: map<string, Comparison>)
    ensures Answer(ok, memo) == Every(t, t.candidate.body.documents, runtime)
  {
    var docs := t.candidate.body.documents;
    ok, memo := true, map[];
    for i := 0 to |docs|
      invariant Answer(true, memo) == Every(t, docs[..i], runtime)
    {
      EveryNext(t, docs, i, runtime);
      ok, memo := CheckOne(t, docs[i], runtime, memo);
      if !ok {
        StopsEvery(t, docs, i + 1, runtime);
        return;
      }
    }
    assert docs[..|docs|] == docs;
    ok := true;
  }

  lemma EveryIsExact(t: Transaction, runtime: Runtime)
    requires Grammar(runtime)
    ensures var ds := t.candidate.body.documents;
      Every(t, ds, runtime).ok <==> Advances(t, runtime) && |Needs(t, ds)| <= 256
  {
    var ds := t.candidate.body.documents;
    EveryMeans(t, ds, runtime);
    EveryRemembers(t, ds, runtime);
    var s := Every(t, ds, runtime);
    if s.ok {
      assert |s.memo.Keys| == |s.memo|;
    } else if k :| k in Needs(t, ds) && Full(s.memo, k) {
      FullMeans(s.memo, k, Needs(t, ds));
    }
  }

  /** Computes `Every` of the candidates. Under the grammar it admits exactly what the
      Runtime, asked anew about every pair, finds to advance, if that takes no more than
      256 comparisons (`NeedsMean`). */
  method Check(t: Transaction, runtime: Runtime) returns (ok: bool, memo: map<string, Comparison>)
    ensures Answer(ok, memo) == Every(t, t.candidate.body.documents, runtime)
    ensures Grammar(runtime) ==> (ok <==> Advances(t, runtime) && |Needs(t, t.candidate.body.documents)| <= 256)
  {
    ok, memo := CheckAll(t, runtime);
    if Grammar(runtime) {
      EveryIsExact(t, runtime);
    }
  }

  // ---- Without the grammar ---------------------------------------------------------------

  function Pack(id: string, version: string, content: string): Document {
    Document("pack", id, id, version, id, Ref(content, 1))
  }

  function Of(ds: seq<Document>): Publication {
    Publication(NoID, "", false, Body(None, None, ds, None, []))
  }

  /** The ledger holds "a" at 1 and "b" at 1/2; "a" comes at 2/3 and "b" at 3. */
  function Slashed(): Transaction {
    Transaction(Ledger(1, [Of([Pack("a", "1", "0"), Pack("b", "1/2", "0")])], map[]),
                Of([Pack("a", "2/3", "1"), Pack("b", "3", "1")]), None)
  }

  /** A Runtime whose grammar has a slash, and which finds 3 less than 1/2. */
  predicate Slashing(runtime: Runtime) {
    && Finds(runtime, "2/3", "2/3", Equal) && Finds(runtime, "1", "2/3", Greater) && Finds(runtime, "3", "3", Equal)
    && Finds(runtime, "1/2", "3", Less)
  }

  lemma HeldOf(d: Document, n: nat)
    requires n < 2 && d.content.sha256 == "1" && d.kind == "pack" && d.id == (if n == 0 then "a" else "b")
    ensures Bases(Slashed(), d) == [if n == 0 then Pack("a", "1", "0") else Pack("b", "1/2", "0")]
  {
    var ds := [Pack("a", "1", "0"), Pack("b", "1/2", "0")];
    DocsOfOne([], Of(ds));
    assert [] + [Of(ds)] == [Of(ds)] && Docs(Slashed().ledger.items) == ds;
    OneMore(ds, 0, d);
    OneMore(ds, 1, d);
    assert ds[..0] == [] && ds[..2] == ds;
  }

  lemma OneOfOne(t: Transaction, d: Document, b: Document, checked: map<string, Comparison>, runtime: Runtime)
    requires Bases(t, d) == [b] && Wants(checked, d.version, d.version, Equal, runtime).ok
    ensures One(t, d, checked, runtime) ==
              Wants(Wants(checked, d.version, d.version, Equal, runtime).memo, b.version, d.version, Greater, runtime)
  {
    var one, memo := [b], Wants(checked, d.version, d.version, Equal, runtime).memo;
    assert one[..|one| - 1] == [] && one[|one| - 1] == b;
    assert AllGreater(memo, one, d.version, runtime) == Wants(memo, b.version, d.version, Greater, runtime);
  }

  lemma EveryOfTwo(t: Transaction, d: Document, e: Document, runtime: Runtime)
    ensures var first := One(t, d, map[], runtime);
      Every(t, [d, e], runtime) == if first.ok then One(t, e, first.memo, runtime) else first
  {
    var two, one := [d, e], [d];
    assert two[..|two| - 1] == one && one[..|one| - 1] == [];
    assert two[|two| - 1] == e && one[|one| - 1] == d;
    assert Every(t, one, runtime) == One(t, d, map[], runtime);
  }

  /** Without the grammar the memo does confuse: two pairs have one key, and the check
      admits what the Runtime, asked anew, finds to go back. */
  lemma MemoConfuses(runtime: Runtime)
    requires Slashing(runtime)
    ensures Every(Slashed(), Slashed().candidate.body.documents, runtime).ok && !Advances(Slashed(), runtime)
    ensures !Grammar(runtime)
  {
    var t, a, b := Slashed(), Pack("a", "2/3", "1"), Pack("b", "3", "1");
    HeldOf(a, 0);
    HeldOf(b, 1);
    EveryOfTwo(t, a, b, runtime);
    OneOfOne(t, a, Pack("a", "1", "0"), map[], runtime);
    var memo := One(t, a, map[], runtime).memo;
    assert MemoKey("1", "2/3") == "1/2/3" == MemoKey("1/2", "3");
    assert |MemoKey("2/3", "2/3")| == 7 && |MemoKey("3", "3")| == 3;
    assert memo == map[MemoKey("2/3", "2/3") := Equal, "1/2/3" := Greater];
    OneOfOne(t, b, Pack("b", "1/2", "0"), memo, runtime);
    BasesAreBound(t, b, Pack("b", "1/2", "0"));
    assert b in t.candidate.body.documents && Bound(t, Pack("b", "1/2", "0"), b);
  }

  // ---- What an admitted publication means ------------------------------------------------

  /** Content that publication `i` brings to an artifact has a version greater than
      every version the ledger held of that artifact before. */
  predicate NewIsGreater(items: seq<Publication>, i: nat, runtime: Runtime)
    requires i < |items|
  {
    forall d, b :: d in items[i].body.documents && b in Docs(items[..i]) && SameArtifact(b, d) && !Known(Docs(items[..i]), d)
      ==> Finds(runtime, b.version, d.version, Greater)
  }

  lemma {:induction false} AdvancingIsGreater(t: Transaction, runtime: Runtime)
    requires Advances(t, runtime)
    ensures NewIsGreater(t.ledger.items + [t.candidate], |t.ledger.items|, runtime)
  {
    var items := t.ledger.items + [t.candidate];
    assert items[..|t.ledger.items|] == t.ledger.items;
    forall d, b | d in t.candidate.body.documents && b in Docs(t.ledger.items) && SameArtifact(b, d)
      && !Known(Docs(t.ledger.items), d) ensures Finds(runtime, b.version, d.version, Greater) {
      assert Admissible(t, d, runtime) && Bound(t, b, d);
    }
  }

  /** An alias or a path that stays with an artifact keeps its content or gets a greater version. */
  lemma {:induction false} BindingsNeverGoBack(t: Transaction, b: Document, d: Document, runtime: Runtime)
    requires Advances(t, runtime) && d in t.candidate.body.documents
    requires t.base.Some? && t.base.value in t.ledger.items && b in BaseDocs(t)
    requires SameArtifact(b, d) && (b.path == d.path || b.alias == d.alias)
    ensures b.content == d.content || Finds(runtime, b.version, d.version, Greater)
  {
    assert Admissible(t, d, runtime);
    InDocs(t.ledger.items, t.base.value, b);
    assert b.content != d.content ==> Bound(t, b, d);
  }

  lemma {:induction false} InDocs(items: seq<Publication>, p: Publication, d: Document)
    requires p in items && d in p.body.documents
    ensures d in Docs(items)
  {
    var i :| 0 <= i < |items| && items[i] == p;
    DocsAppend(items, i);
    var j :| 0 <= j < |p.body.documents| && p.body.documents[j] == d;
    assert Docs(items)[|Docs(items[..i])| + j] == d;
  }
}
