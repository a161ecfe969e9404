/**
  The ledger of published artifacts (internal/desk/artifact_publications.go and
  the callers of its transaction): what a ledger is, how it is read, how a new
  publication is admitted, and what every sequence of recoveries, commits and
  receipts keeps. A digest is taken to identify what was digested, so the
  identity of a publication is the part of it that is hashed.
*/
module Ledgers {
  import opened Prelude

  datatype Ref = Ref(sha256: string, bytes: int)
  datatype Document = Document(kind: string, alias: string, id: string, version: string, path: string, content: Ref)
  datatype Dialect = Dialect(preparation: string, revision: string, variant: string, recipe: Ref, pack: Ref,
      request: string)
  /** What is hashed. */
  datatype Body = Body(config: Option<Ref>, dialect: Option<Dialect>, documents: seq<Document>,
                       review: Option<Ref>, reviews: seq<Ref>)
  datatype ID = NoID | Digest(body: Body)
  datatype Publication = Publication(id: ID, at: string, imported: bool, body: Body)
  datatype Ledger = Ledger(version: int, items: seq<Publication>, receipts: map<string, ID>)

  const MAX_ITEMS := 4096
  const MAX_BYTES := 0x80_0000
  const EMPTY := Ledger(1, [], map[])

  predicate Hex(s: string) {
    forall c :: c in s ==> 'a' <= c <= 'f' || '0' <= c <= '9'
  }

  predicate IsDigest(s: string) {
    |s| == 64 && Hex(s)
  }

  predicate ValidRef(r: Ref) {
    IsDigest(r.sha256) && 0 <= r.bytes <= 0x200_0000
  }

  predicate ValidDialect(d: Dialect, b: Body) {
    && b.config == None && |d.preparation| == 37 && d.preparation[..5] == "prep_" && Hex(d.preparation[5..])
    && IsDigest(d.revision) && d.variant in {"asserted", "generated"} && ValidRef(d.recipe) && ValidRef(d.pack)
    && IsDigest(d.request) && |b.documents| == 1 && b.documents[0].kind == "dialect"
  }

  predicate ValidDocument(d: Document) {
    d.id != "" && d.version != "" && d.kind in {"pack", "graph", "dialect"} && ValidRef(d.content)
  }

  predicate ValidBody(b: Body) {
    && (b.review.Some? ==> ValidRef(b.review.value)) && (forall r :: r in b.reviews ==> ValidRef(r))
    && (if b.dialect.Some? then ValidDialect(b.dialect.value, b) else b.config.Some? && ValidRef(b.config.value))
    && (forall d :: d in b.documents ==> ValidDocument(d))
  }

  predicate Sound(p: Publication) {
    p.id == Digest(p.body) && p.at != "" && ValidBody(p.body)
  }

  function Bare(b: Body): Body {
    b.(review := None, reviews := [])
  }

  predicate SameContent(a: Publication, b: Publication) {
    Bare(a.body) == Bare(b.body)
  }

  // ---- Identities -----------------------------------------------------------------

  predicate SameArtifact(a: Document, b: Document) {
    a.kind == b.kind && a.id == b.id
  }

  /** Every document the ledger names, in order. */
  function Docs(items: seq<Publication>): seq<Document> {
    if items == [] then [] else Docs(items[..|items| - 1]) + items[|items| - 1].body.documents
  }

  /** An identity names one content. */
  predicate Functional(ds: seq<Document>) {
    forall j :: 0 <= j < |ds| ==> Agrees(ds, j)
  }

  /** Document `j` has the content of every one before it that names the same. */
  predicate Agrees(ds: seq<Document>, j: nat)
    requires j < |ds|
  {
    forall i :: 0 <= i < j && SameArtifact(ds[i], ds[j]) && ds[i].version == ds[j].version ==>
      ds[i].content == ds[j].content
  }

  predicate Distinct(items: seq<Publication>) {
    forall j :: 0 <= j < |items| ==> HasOwnID(items, j)
  }

  predicate HasOwnID(items: seq<Publication>, j: nat)
    requires j < |items|
  {
    forall i :: 0 <= i < j ==> items[i].id != items[j].id
  }

  predicate Names(items: seq<Publication>, id: ID) {
    exists i :: 0 <= i < |items| && items[i].id == id
  }

  /** All that is asked of a ledger but its length. */
  predicate Consistent(l: Ledger) {
    && l.version == 1 && |l.receipts| <= MAX_ITEMS
    && (forall p :: p in l.items ==> Sound(p)) && Distinct(l.items) && Functional(Docs(l.items))
    && (forall r :: r in l.receipts ==> IsDigest(r) && Names(l.items, l.receipts[r]))
  }

  predicate WellFormed(l: Ledger) {
    Consistent(l) && |l.items| <= MAX_ITEMS
  }

  /** `b` is `a` with more at the end. */
  predicate Extends(a: Ledger, b: Ledger) {
    a.items <= b.items && (forall r :: r in a.receipts ==> r in b.receipts && b.receipts[r] == a.receipts[r])
  }

  lemma {:induction false} DocsOfMore(items: seq<Publication>, more: seq<Publication>)
    ensures Docs(items + more) == Docs(items) + Docs(more)
  {
    if more == [] {
      assert items + more == items;
    } else {
      var n := |more| - 1;
      assert (items + more)[..|items| + n] == items + more[..n];
      DocsOfMore(items, more[..n]);
    }
  }

  lemma {:induction false} DocsOfOne(items: seq<Publication>, p: Publication)
    ensures Docs(items + [p]) == Docs(items) + p.body.documents
  {
    assert (items + [p])[..|items|] == items;
  }

  lemma {:induction false} DocsAppend(items: seq<Publication>, i: nat)
    requires i < |items|
    ensures Docs(items[..i + 1]) == Docs(items[..i]) + items[i].body.documents
    ensures Docs(items[..i + 1]) <= Docs(items)
  {
    assert items[..i + 1] == items[..i] + [items[i]];
    DocsOfOne(items[..i], items[i]);
    DocsOfMore(items[..i + 1], items[i + 1..]);
    assert items == items[..i + 1] + items[i + 1..];
  }

  /**
    Nothing a ledger ever named comes to name anything else: an identity keeps
    its content, a receipt its publication, and a publication its place.
  */
  lemma {:induction false} IdentitiesNeverChange(a: Ledger, b: Ledger, d: Document, e: Document)
    requires Extends(a, b) && WellFormed(b)
    requires d in Docs(a.items) && e in Docs(b.items) && SameArtifact(d, e) && d.version == e.version
    ensures d.content == e.content
  {
    assert b.items == a.items + b.items[|a.items|..];
    DocsOfMore(a.items, b.items[|a.items|..]);
    var i :| 0 <= i < |Docs(a.items)| && Docs(a.items)[i] == d;
    var j :| 0 <= j < |Docs(b.items)| && Docs(b.items)[j] == e;
    assert Docs(b.items)[i] == d;
    assert Agrees(Docs(b.items), if i < j then j else i);
  }

  // ---- Reading and admitting --------------------------------------------------------

  /** The ledger file: what it decodes to, if anything, and its size. */
  datatype Stored = Stored(ledger: Option<Ledger>, size: nat)

  /** What the ledger file stands for. */
  function Current(file: Option<Stored>): Option<Ledger> {
    if file == None then Some(EMPTY)
    else
      var Stored(ledger, size) := file.value;
      if size <= MAX_BYTES && ledger.Some? && WellFormed(ledger.value) then ledger else None
  }

  datatype Key = Key(kind: string, id: string, version: string)

  function KeyOf(d: Document): Key {
    Key(d.kind, d.id, d.version)
  }

  predicate Indexed(identities: map<Key, Ref>, ds: seq<Document>) {
    && (forall k :: k in identities ==> exists i :: 0 <= i < |ds| && KeyOf(ds[i]) == k)
    && (forall i :: 0 <= i < |ds| ==> KeyOf(ds[i]) in identities && identities[KeyOf(ds[i])] == ds[i].content)
  }

  lemma {:induction false} IndexedMore(identities: map<Key, Ref>, ds: seq<Document>, d: Document)
    requires Indexed(identities, ds) && (KeyOf(d) in identities ==> identities[KeyOf(d)] == d.content)
    ensures Indexed(identities[KeyOf(d) := d.content], ds + [d])
  {
    assert (ds + [d])[|ds|] == d;
    forall k | k in identities ensures exists i :: 0 <= i < |ds + [d]| && KeyOf((ds + [d])[i]) == k {
      var i :| 0 <= i < |ds| && KeyOf(ds[i]) == k;
      assert (ds + [d])[i] == ds[i];
    }
  }

  lemma {:induction false} Clash(identities: map<Key, Ref>, ds: seq<Document>, d: Document, all: seq<Document>)
    requires Indexed(identities, ds) && KeyOf(d) in identities && identities[KeyOf(d)] != d.content
    requires ds + [d] <= all
    ensures !Functional(all)
  {
    var i :| 0 <= i < |ds| && KeyOf(ds[i]) == KeyOf(d);
    assert (ds + [d])[i] == all[i] == ds[i] && (ds + [d])[|ds|] == all[|ds|] == d;
    assert !Agrees(all, |ds|);
  }

  lemma {:induction false} IndexedIsFunctional(identities: map<Key, Ref>, ds: seq<Document>)
    requires Indexed(identities, ds)
    ensures Functional(ds)
  {
    forall j | 0 <= j < |ds| ensures Agrees(ds, j) {
      forall i | 0 <= i < j && SameArtifact(ds[i], ds[j]) && ds[i].version == ds[j].version
        ensures ds[i].content == ds[j].content {
        assert KeyOf(ds[i]) == KeyOf(ds[j]);
      }
    }
  }

  lemma {:induction false} FunctionalPrefix(ds: seq<Document>, all: seq<Document>)
    requires ds <= all && !Functional(ds)
    ensures !Functional(all)
  {
    var j :| 0 <= j < |ds| && !Agrees(ds, j);
    assert !Agrees(all, j);
  }

  lemma {:induction false} OneIDMore(items: seq<Publication>, p: Publication)
    ensures Distinct(items + [p]) <==> Distinct(items) && !Names(items, p.id)
  {
    var more := items + [p];
    forall j | 0 <= j < |items| ensures HasOwnID(more, j) <==> HasOwnID(items, j) {
      assert forall i :: 0 <= i <= j ==> more[i] == items[i];
    }
    assert forall i :: 0 <= i < |items| ==> more[i] == items[i];
    if Names(items, p.id) {
      var i :| 0 <= i < |items| && items[i].id == p.id;
      assert more[i].id == more[|items|].id && !HasOwnID(more, |items|);
    } else {
      assert HasOwnID(more, |items|);
    }
  }

  lemma {:induction false} DistinctPrefix(items: seq<Publication>, i: nat)
    requires i <= |items| && !Distinct(items[..i])
    ensures !Distinct(items)
  {
    var j :| 0 <= j < i && !HasOwnID(items[..i], j);
    assert !HasOwnID(items, j);
  }

  /** The inner loop, about one publication's documents. */
  method Index(known: map<Key, Ref>, ghost before: seq<Document>, docs: seq<Document>)
    returns (ok: bool, identities: map<Key, Ref>)
    requires Indexed(known, before)
    ensures if ok then Indexed(identities, before + docs) else !Functional(before + docs)
  {
    identities := known;
    assert before + docs[..0] == before;
    for j := 0 to |docs|
      invariant Indexed(identities, before + docs[..j])
    {
      var d := docs[j];
      assert before + docs[..j + 1] == (before + docs[..j]) + [d] <= before + docs;
      if KeyOf(d) in identities && identities[KeyOf(d)] != d.content {
        Clash(identities, before + docs[..j], d, before + docs);
        return false, identities;
      }
      IndexedMore(identities, before + docs[..j], d);
      identities := identities[KeyOf(d) := d.content];
    }
    assert docs[..|docs|] == docs;
    return true, identities;
  }

  method Admit(ledger: Ledger, candidate: Publication) returns (ok: bool)
    ensures ok <==> Functional(Docs(ledger.items) + candidate.body.documents)
  {
    var all := ledger.items + [candidate];
    DocsOfOne(ledger.items, candidate);
    var identities: map<Key, Ref> := map[];
    for i := 0 to |all|
      invariant Indexed(identities, Docs(all[..i]))
    {
      DocsAppend(all, i);
      var fits;
      fits, identities := Index(identities, Docs(all[..i]), all[i].body.documents);
      if !fits {
        FunctionalPrefix(Docs(all[..i + 1]), Docs(all));
        return false;
      }
    }
    assert all[..|all|] == all;
    IndexedIsFunctional(identities, Docs(all));
    return true;
  }

  /** Reads the ledger: accepted exactly when it is well formed. */
  method Read(file: Option<Stored>) returns (r: Option<Ledger>)
    ensures r == Current(file)
  {
    if file == None {
      return Some(EMPTY);
    }
    var Stored(decoded, size) := file.value;
    if size > MAX_BYTES || decoded == None {
      return None;
    }
    var ledger := decoded.value;
    if ledger.version != 1 || |ledger.items| > MAX_ITEMS {
      return None;
    }
    var fits, ids := CheckItems(ledger.items);
    if !fits || |ledger.receipts| > MAX_ITEMS {
      return None;
    }
    fits := CheckReceipts(ledger.receipts, ids, ledger.items);
    if !fits {
      return None;
    }
    fits := Admit(ledger, Publication(NoID, "", false, Body(None, None, [], None, [])));
    assert Docs(ledger.items) + [] == Docs(ledger.items);
    r := if fits then Some(ledger) else None;
  }

  method CheckItems(items: seq<Publication>) returns (ok: bool, ids: set<ID>)
    ensures ok <==> Distinct(items) && forall p :: p in items ==> Sound(p)
    ensures ok ==> forall id :: id in ids <==> Names(items, id)
  {
    ids := {};
    for i := 0 to |items|
      invariant Distinct(items[..i]) && forall p :: p in items[..i] ==> Sound(p)
      invariant forall id :: id in ids <==> Names(items[..i], id)
    {
      var p := items[i];
      assert p in items && items[..i + 1] == items[..i] + [p];
      OneIDMore(items[..i], p);
      if p.id != Digest(p.body) || p.id in ids || p.at == "" || !ValidBody(p.body) {
        if p.id in ids {
          DistinctPrefix(items, i + 1);
        }
        return false, ids;
      }
      ids := ids + {p.id};
      NamesMore(items, i);
    }
    assert items[..|items|] == items;
    return true, ids;
  }

  lemma NamesMore(items: seq<Publication>, i: nat)
    requires i < |items|
    ensures forall id :: Names(items[..i + 1], id) <==> Names(items[..i], id) || id == items[i].id
  {
    forall id ensures Names(items[..i + 1], id) <==> Names(items[..i], id) || id == items[i].id {
      if Names(items[..i], id) {
        var k :| 0 <= k < i && items[..i][k].id == id;
        assert items[..i + 1][k].id == id;
      }
      if Names(items[..i + 1], id) {
        var k :| 0 <= k < i + 1 && items[..i + 1][k].id == id;
        assert k < i ==> items[..i][k].id == id;
      }
      assert items[..i + 1][i] == items[i];
    }
  }

  method CheckReceipts(receipts: map<string, ID>, ids: set<ID>, ghost items: seq<Publication>) returns (ok: bool)
    requires forall id :: id in ids <==> Names(items, id)
    ensures ok <==> forall r :: r in receipts ==> IsDigest(r) && Names(items, receipts[r])
  {
    var left := receipts.Keys;
    while left != {}
      invariant left <= receipts.Keys
      invariant forall r :: r in receipts && r !in left ==> IsDigest(r) && Names(items, receipts[r])
    {
      var r :| r in left;
      if !IsDigest(r) || receipts[r] !in ids {
        return false;
      }
      left := left - {r};
    }
    return true;
  }
}
