/**
  The history of one artifact, page by page (internal/desk/artifact_publications.go,
  `handleArtifactVersions`). A page holds at most 25 rows and as many bytes as one
  reading may, newest first, and names where the next one starts.

  Following that name from the newest page gives every row once, newest first, even
  if the ledger grows meanwhile (`FollowingGivesEveryRow`), and comes to an end
  exactly when no row alone is over the budget (`FollowingEndsExactlyWhenRowsFit`).
*/
module Paging {
  import opened Prelude
  import opened Ledgers
  import Versions

  const ROWS := 25
  const BUDGET := 0x80_0000

  /** The document that is number `sequence` of the ledger, counted from one, in
      publication `index`, and the size of its content. */
  datatype Row = Row(sequence: nat, index: nat, bytes: int)

  // ---- The rows of an artifact ------------------------------------------------------

  predicate About(d: Document, kind: string, id: string) {
    d.kind == kind && d.id == id
  }

  predicate SameRelease(a: Document, b: Document) {
    SameArtifact(a, b) && a.version == b.version && a.content.sha256 == b.content.sha256
  }

  /** A publication that names a release twice has one row of it. */
  predicate Repeated(docs: seq<Document>, k: nat)
    requires k < |docs|
  {
    exists j :: 0 <= j < k && SameRelease(docs[j], docs[k])
  }

  function RowsIn(docs: seq<Document>, offset: nat, index: nat, kind: string, id: string, n: nat): seq<Row>
    requires n <= |docs|
  {
    if n == 0 then []
    else
      RowsIn(docs, offset, index, kind, id, n - 1)
      + if IsRow(docs, kind, id, n - 1) then [Row(offset + n, index, docs[n - 1].content.bytes)] else []
  }

  function Rows(items: seq<Publication>, kind: string, id: string): seq<Row> {
    if items == [] then []
    else
      var n := |items| - 1;
      var docs := items[n].body.documents;
      Rows(items[..n], kind, id) + RowsIn(docs, |Docs(items[..n])|, n, kind, id, |docs|)
  }

  predicate Ascending(rows: seq<Row>) {
    forall j :: 0 <= j < |rows| ==> AboveAll(rows, j)
  }

  predicate AboveAll(rows: seq<Row>, j: nat)
    requires j < |rows|
  {
    forall i :: 0 <= i < j ==> rows[i].sequence < rows[j].sequence
  }

  predicate Within(rows: seq<Row>, low: nat, high: nat) {
    forall i :: 0 <= i < |rows| ==> low < rows[i].sequence <= high
  }

  lemma {:induction false} Joined(a: seq<Row>, b: seq<Row>, low: nat, mid: nat, high: nat)
    requires Ascending(a) && Ascending(b) && Within(a, low, mid) && Within(b, mid, high) && low <= mid <= high
    ensures Ascending(a + b) && Within(a + b, low, high)
  {
    forall j | 0 <= j < |a + b| ensures AboveAll(a + b, j) {
      assert if j < |a| then AboveAll(a, j) else AboveAll(b, j - |a|);
    }
  }

  lemma {:induction false} RowsInAreOrdered(docs: seq<Document>, offset: nat, index: nat, kind: string, id: string, n: nat)
    requires n <= |docs|
    ensures Ascending(RowsIn(docs, offset, index, kind, id, n))
    ensures Within(RowsIn(docs, offset, index, kind, id, n), offset, offset + n)
  {
    if n > 0 {
      RowsInAreOrdered(docs, offset, index, kind, id, n - 1);
      var last := if IsRow(docs, kind, id, n - 1)
        then [Row(offset + n, index, docs[n - 1].content.bytes)] else [];
      Joined(RowsIn(docs, offset, index, kind, id, n - 1), last, offset, offset + n - 1, offset + n);
    }
  }

  lemma {:induction false} RowsAreOrdered(items: seq<Publication>, kind: string, id: string)
    ensures Ascending(Rows(items, kind, id)) && Within(Rows(items, kind, id), 0, |Docs(items)|)
  {
    if items != [] {
      var n := |items| - 1;
      var docs, offset := items[n].body.documents, |Docs(items[..n])|;
      RowsAreOrdered(items[..n], kind, id);
      RowsInAreOrdered(docs, offset, n, kind, id, |docs|);
      Joined(Rows(items[..n], kind, id), RowsIn(docs, offset, n, kind, id, |docs|), 0, offset, offset + |docs|);
    }
  }

  lemma {:induction false} RowsInAreExactly(docs: seq<Document>, offset: nat, index: nat, kind: string, id: string,
                                            n: nat, k: nat)
    requires k < n <= |docs|
    ensures Row(offset + k + 1, index, docs[k].content.bytes) in RowsIn(docs, offset, index, kind, id, n)
      <==> IsRow(docs, kind, id, k)
  {
    RowsInAreOrdered(docs, offset, index, kind, id, n - 1);
    if k < n - 1 {
      RowsInAreExactly(docs, offset, index, kind, id, n - 1, k);
    }
  }

  /** The place of document `k` of publication `i`. */
  function RowOf(items: seq<Publication>, i: nat, k: nat): Row
    requires i < |items| && k < |items[i].body.documents|
  {
    Row(|Docs(items[..i])| + k + 1, i, items[i].body.documents[k].content.bytes)
  }

  /** The rows are the documents of the artifact, each the first of its release in its publication. */
  lemma {:induction false} RowsAreExactly(items: seq<Publication>, kind: string, id: string, i: nat, k: nat)
    requires i < |items| && k < |items[i].body.documents|
    ensures RowOf(items, i, k) in Rows(items, kind, id) <==> IsRow(items[i].body.documents, kind, id, k)
  {
    LastOrBefore(items, kind, id, RowOf(items, i, k));
    if i < |items| - 1 {
      Earlier(items, i, k);
      RowsAreExactly(items[..|items| - 1], kind, id, i, k);
    } else {
      var docs := items[i].body.documents;
      RowsInAreExactly(docs, |Docs(items[..i])|, i, kind, id, |docs|, k);
    }
  }

  predicate IsRow(docs: seq<Document>, kind: string, id: string, k: nat)
    requires k < |docs|
  {
    About(docs[k], kind, id) && !Repeated(docs, k)
  }

  lemma {:induction false} Earlier(items: seq<Publication>, i: nat, k: nat)
    requires i < |items| - 1 && k < |items[i].body.documents|
    ensures RowOf(items[..|items| - 1], i, k) == RowOf(items, i, k)
    ensures RowOf(items, i, k).sequence <= |Docs(items[..|items| - 1])|
  {
    var front := items[..|items| - 1];
    assert front[..i] == items[..i];
    DocsAppend(front, i);
  }

  /** A row is the last publication's exactly if its number is beyond the others'. */
  lemma {:induction false} LastOrBefore(items: seq<Publication>, kind: string, id: string, row: Row)
    requires items != []
    ensures var n := |items| - 1;
      var docs, offset := items[n].body.documents, |Docs(items[..n])|;
      row in Rows(items, kind, id) <==>
        if row.sequence <= offset then row in Rows(items[..n], kind, id) else row in RowsIn(docs, offset, n, kind, id, |docs|)
  {
    var n := |items| - 1;
    var docs, offset := items[n].body.documents, |Docs(items[..n])|;
    RowsAreOrdered(items[..n], kind, id);
    RowsInAreOrdered(docs, offset, n, kind, id, |docs|);
  }

  /** What is published later comes after. */
  lemma {:induction false} RowsGrow(items: seq<Publication>, more: seq<Publication>, kind: string, id: string)
    requires items <= more
    ensures Rows(items, kind, id) <= Rows(more, kind, id)
    ensures Within(Rows(more, kind, id)[|Rows(items, kind, id)|..], |Docs(items)|, |Docs(more)|)
    ensures |Docs(items)| <= |Docs(more)|
  {
    if items == more {
      assert Rows(more, kind, id)[|Rows(items, kind, id)|..] == [];
    } else {
      var n := |more| - 1;
      var docs := more[n].body.documents;
      RowsGrow(items, more[..n], kind, id);
      RowsInAreOrdered(docs, |Docs(more[..n])|, n, kind, id, |docs|);
    }
  }

  /** The loop that collects the rows. */
  method List(items: seq<Publication>, kind: string, id: string) returns (rows: seq<Row>)
    requires forall p :: p in items ==> Sound(p)
    ensures rows == Rows(items, kind, id)
  {
    rows := [];
    var sequence := 0;
    for i := 0 to |items|
      invariant sequence == |Docs(items[..i])| && rows == Rows(items[..i], kind, id)
    {
      DocsAppend(items, i);
      assert items[..i + 1][..i] == items[..i];
      assert items[i] in items;
      var more := ListOne(items[i].body.documents, sequence, i, kind, id);
      rows := rows + more;
      sequence := sequence + |items[i].body.documents|;
    }
    assert items[..|items|] == items;
  }

  method ListOne(docs: seq<Document>, offset: nat, index: nat, kind: string, id: string) returns (rows: seq<Row>)
    requires forall d :: d in docs ==> ValidDocument(d)
    ensures rows == RowsIn(docs, offset, index, kind, id, |docs|)
  {
    rows := [];
    var seen: set<string> := {};
    for j := 0 to |docs|
      invariant rows == RowsIn(docs, offset, index, kind, id, j)
      invariant forall k :: 0 <= k < j && About(docs[k], kind, id) ==> ReleaseKey(docs[k]) in seen
      invariant forall s :: s in seen ==> exists k :: 0 <= k < j && About(docs[k], kind, id) && s == ReleaseKey(docs[k])
    {
      var d := docs[j];
      if About(d, kind, id) {
        ghost var known := d.version + "/" + d.content.sha256 in seen;
        assert known == Repeated(docs, j) by {
          if known {
            var k :| 0 <= k < j && About(docs[k], kind, id) && ReleaseKey(d) == ReleaseKey(docs[k]);
            assert docs[k] in docs && docs[j] in docs;
            KeysNameReleases(docs[k], d);
          }
        }
        if d.version + "/" + d.content.sha256 !in seen {
          seen := seen + {d.version + "/" + d.content.sha256};
          rows := rows + [Row(offset + j + 1, index, d.content.bytes)];
        }
      }
    }
  }

  function ReleaseKey(d: Document): string {
    Versions.MemoKey(d.version, d.content.sha256)
  }

  lemma KeysNameReleases(a: Document, b: Document)
    requires ValidDocument(a) && ValidDocument(b) && SameArtifact(a, b) && ReleaseKey(a) == ReleaseKey(b)
    ensures SameRelease(a, b)
  {
    Versions.KeysAgree(a.version, a.content.sha256, b.version, b.content.sha256);
  }

  // ---- A page ------------------------------------------------------------------------

  function Reverse(rows: seq<Row>): seq<Row> {
    if rows == [] then [] else Reverse(rows[1..]) + [rows[0]]
  }

  lemma {:induction false} ReverseJoins(a: seq<Row>, b: seq<Row>)
    ensures Reverse(a + b) == Reverse(b) + Reverse(a)
  {
    if a == [] {
      assert a + b == b;
    } else {
      ReverseJoins(a[1..], b);
      assert (a + b)[1..] == a[1..] + b;
    }
  }

  /** The rows that a cursor leaves to see; zero is no cursor. */
  function Unseen(rows: seq<Row>, before: nat): seq<Row> {
    if rows == [] || before == 0 || rows[|rows| - 1].sequence < before then rows
    else Unseen(rows[..|rows| - 1], before)
  }

  /** How many rows are left for later pages when `taken` rows of `spent` bytes are on this one. */
  function Leaves(rows: seq<Row>, taken: nat, spent: int): nat {
    if rows == [] then 0
    else
      var last := rows[|rows| - 1].bytes;
      if taken >= ROWS || spent + last > BUDGET then |rows| else Leaves(rows[..|rows| - 1], taken + 1, spent + last)
  }

  function Next(rows: seq<Row>, left: nat): nat
    requires left <= |rows|
  {
    if left == 0 then 0 else rows[left - 1].sequence + 1
  }

  lemma {:induction false} LeavesLess(rows: seq<Row>, taken: nat, spent: int)
    ensures Leaves(rows, taken, spent) <= |rows|
  {
    if rows != [] {
      LeavesLess(rows[..|rows| - 1], taken + 1, spent + rows[|rows| - 1].bytes);
    }
  }

  function Bytes(rows: seq<Row>): int {
    if rows == [] then 0 else Bytes(rows[..|rows| - 1]) + rows[|rows| - 1].bytes
  }

  /** A page has at most 25 rows of at most 8 MiB, and no row more would do. */
  lemma {:induction false} PageIsFull(rows: seq<Row>, taken: nat, spent: int)
    requires taken <= 25 && spent <= 0x80_0000
    ensures var left := Leaves(rows, taken, spent);
      && left <= |rows| && taken + |rows| - left <= 25 && spent + Bytes(rows[left..]) <= 0x80_0000
      && (left > 0 ==> taken + |rows| - left == 25 || spent + Bytes(rows[left..]) + rows[left - 1].bytes > 0x80_0000)
  {
    var n, left := |rows| - 1, Leaves(rows, taken, spent);
    if n >= 0 && taken < ROWS && spent + rows[n].bytes <= BUDGET {
      PageIsFull(rows[..n], taken + 1, spent + rows[n].bytes);
      assert rows[left..][..n - left] == rows[..n][left..];
    }
  }

  /** The page of these rows, and where the next one starts. */
  ghost predicate IsPage(rows: seq<Row>, before: nat, page: seq<Row>, next: nat) {
    var unseen := Unseen(rows, before);
    var left := Leaves(unseen, 0, 0);
    left <= |unseen| && page == Reverse(unseen[left..]) && next == Next(unseen, left)
  }

  /** Rows `i` on are of documents that are not lost, by number. */
  predicate ThereFrom(rows: seq<Row>, i: nat, lost: set<nat>) {
    forall k :: i <= k < |rows| ==> rows[k].sequence !in lost
  }

  /** The documents of the page are there. */
  predicate AllThere(rows: seq<Row>, before: nat, lost: set<nat>) {
    ThereFrom(Unseen(rows, before), Leaves(Unseen(rows, before), 0, 0), lost)
  }

  /** A request. It is answered exactly if every retained document of its page can be read. */
  method Page(items: seq<Publication>, kind: string, id: string, before: nat, lost: set<nat>)
    returns (ok: bool, page: seq<Row>, next: nat)
    requires forall p :: p in items ==> Sound(p)
    ensures ok <==> AllThere(Rows(items, kind, id), before, lost)
    ensures ok ==> IsPage(Rows(items, kind, id), before, page, next)
  {
    var rows := List(items, kind, id);
    RowsAreOrdered(items, kind, id);
    UnseenIsPrefix(rows, before);
    ok, page, next := Fill(rows, before, lost);
  }

  /** The loop over the rows, from the newest. */
  method Fill(rows: seq<Row>, before: nat, lost: set<nat>) returns (ok: bool, page: seq<Row>, next: nat)
    requires Parted(rows, before)
    ensures ok <==> AllThere(rows, before, lost)
    ensures ok ==> IsPage(rows, before, page, next)
  {
    ghost var unseen := Unseen(rows, before);
    LeavesLess(unseen, 0, 0);
    var i, budget := |rows|, 0;
    ok, page, next := true, [], 0;
    assert unseen[..|unseen|] == unseen && unseen[|unseen|..] == [];
    while i > 0
      invariant 0 <= i <= |rows|
      invariant if i > |unseen| then page == [] && budget == 0
                else Taken(unseen, i, page, budget) && ThereFrom(unseen, i, lost)
    {
      var entry := rows[i - 1];
      if before == 0 || entry.sequence < before {
        TakesOne(unseen, i, page, budget);
        if |page| >= ROWS || budget + entry.bytes > BUDGET {
          return true, page, entry.sequence + 1;
        }
        if entry.sequence in lost {
          TakenIsOnPage(unseen, i - 1, page + [entry], budget + entry.bytes);
          return false, [], 0;
        }
        budget := budget + entry.bytes;
        page := page + [entry];
      }
      i := i - 1;
    }
  }

  /** A row that is taken is on the page. */
  lemma TakenIsOnPage(unseen: seq<Row>, i: nat, page: seq<Row>, budget: int)
    requires Taken(unseen, i, page, budget)
    ensures Leaves(unseen, 0, 0) <= i
  {
    LeavesLess(unseen[..i], |page|, budget);
  }

  /** Rows `i` on are on the page. */
  predicate Taken(unseen: seq<Row>, i: nat, page: seq<Row>, budget: int) {
    i <= |unseen| && page == Reverse(unseen[i..]) && Leaves(unseen[..i], |page|, budget) == Leaves(unseen, 0, 0)
  }

  lemma {:induction false} TakesOne(unseen: seq<Row>, i: nat, page: seq<Row>, budget: int)
    requires 0 < i && Taken(unseen, i, page, budget)
    ensures var last := unseen[i - 1].bytes;
      if |page| >= ROWS || budget + last > BUDGET then Leaves(unseen, 0, 0) == i
      else Taken(unseen, i - 1, page + [unseen[i - 1]], budget + last)
  {
    assert unseen[..i][..i - 1] == unseen[..i - 1];
    assert unseen[i - 1..][1..] == unseen[i..];
  }

  lemma {:induction false} UnseenIsPrefix(rows: seq<Row>, before: nat)
    requires Ascending(rows)
    ensures Parted(rows, before)
  {
    if rows != [] {
      assert AboveAll(rows, |rows| - 1);
      if before != 0 && rows[|rows| - 1].sequence >= before {
        var front := rows[..|rows| - 1];
        assert forall j :: 0 <= j < |front| && AboveAll(rows, j) ==> AboveAll(front, j);
        UnseenIsPrefix(front, before);
      }
    }
  }

  /** The unseen rows are those before the cursor. */
  predicate Parted(rows: seq<Row>, before: nat) {
    && Unseen(rows, before) <= rows && (before == 0 ==> Unseen(rows, before) == rows)
    && (before > 0 ==> forall k :: 0 <= k < |rows| ==> (k < |Unseen(rows, before)| <==> rows[k].sequence < before))
  }

  // ---- Following the cursor ------------------------------------------------------------

  /** The rows received so far, and the cursor of the next request, if there is one. */
  datatype Walk = Walk(rows: seq<Row>, cursor: Option<nat>)

  /** One page of the rows that are unseen. */
  function Turned(walk: Walk, unseen: seq<Row>): Walk {
    LeavesLess(unseen, 0, 0);
    var left := Leaves(unseen, 0, 0);
    Walk(walk.rows + Reverse(unseen[left..]), if Next(unseen, left) == 0 then None else Some(Next(unseen, left)))
  }

  /** Request after request, each answered from the ledger as it then is. */
  function Follow(ledgers: seq<seq<Publication>>, kind: string, id: string): Walk {
    if ledgers == [] then Walk([], Some(0))
    else
      var n := |ledgers| - 1;
      var walk := Follow(ledgers[..n], kind, id);
      if walk.cursor == None then walk
      else Turned(walk, Unseen(Rows(ledgers[n], kind, id), walk.cursor.value))
  }

  /** The ledgers of one project: each extends the one at the first request. */
  predicate OneProject(ledgers: seq<seq<Publication>>) {
    forall k :: 0 <= k < |ledgers| ==> ledgers[0] <= ledgers[k]
  }

  /** How many of `rows` are still to come after `pages` pages. */
  function Remaining(rows: seq<Row>, pages: nat): (left: nat)
    ensures left <= |rows|
  {
    if pages == 0 then |rows|
    else
      var m := Remaining(rows, pages - 1);
      LeavesLess(rows[..m], 0, 0);
      Leaves(rows[..m], 0, 0)
  }

  /** A ledger that grew shows behind the cursor what it showed before. */
  lemma {:induction false} CursorStays(items: seq<Publication>, more: seq<Publication>, kind: string, id: string, m: nat)
    requires items <= more && 0 < m <= |Rows(items, kind, id)|
    ensures Unseen(Rows(more, kind, id), Next(Rows(items, kind, id), m)) == Rows(items, kind, id)[..m]
  {
    var rows, all := Rows(items, kind, id), Rows(more, kind, id);
    RowsGrow(items, more, kind, id);
    RowsAreOrdered(more, kind, id);
    UnseenIsPrefix(all, Next(rows, m));
    var unseen := Unseen(all, Next(rows, m));
    assert rows[m - 1] == all[m - 1];
    assert m - 1 < |unseen|;
    assert m < |all| ==> AboveAll(all, m);
  }

  /** The walk has what is no longer to come. */
  predicate Shows(walk: Walk, rows: seq<Row>, left: nat) {
    && left <= |rows| && walk.rows == Reverse(rows[left..])
    && walk.cursor == if left == 0 then None else Some(Next(rows, left))
  }

  lemma {:induction false} ReverseSplits(rows: seq<Row>, left: nat, m: nat)
    requires left <= m <= |rows|
    ensures Reverse(rows[left..]) == Reverse(rows[m..]) + Reverse(rows[..m][left..])
  {
    assert rows[left..] == rows[..m][left..] + rows[m..];
    ReverseJoins(rows[..m][left..], rows[m..]);
  }

  /** After any number of pages the walk has the newest rows of the first ledger, newest first. */
  lemma {:induction false} WalkSoFar(ledgers: seq<seq<Publication>>, kind: string, id: string)
    requires ledgers != [] && OneProject(ledgers)
    ensures Shows(Follow(ledgers, kind, id), Rows(ledgers[0], kind, id), Remaining(Rows(ledgers[0], kind, id), |ledgers|))
  {
    var n := |ledgers| - 1;
    var rows := Rows(ledgers[0], kind, id);
    var m := Remaining(rows, n);
    if n > 0 {
      WalkSoFar(ledgers[..n], kind, id);
      if m > 0 {
        CursorStays(ledgers[0], ledgers[n], kind, id, m);
      }
    } else {
      assert ledgers[..n] == [] && rows[..m] == rows;
    }
    var walk := Follow(ledgers[..n], kind, id);
    OnePage(walk, rows, m);
    if m > 0 || n == 0 {
      assert Follow(ledgers, kind, id) == Turned(walk, rows[..m]);
    }
  }

  lemma {:induction false} OnePage(walk: Walk, rows: seq<Row>, m: nat)
    requires m <= |rows| && walk.rows == Reverse(rows[m..])
    ensures Shows(Turned(walk, rows[..m]), rows, Leaves(rows[..m], 0, 0))
  {
    LeavesLess(rows[..m], 0, 0);
    ReverseSplits(rows, Leaves(rows[..m], 0, 0), m);
  }

  /** Every row of the artifact once, newest first, whatever is published meanwhile. */
  lemma {:induction false} FollowingGivesEveryRow(ledgers: seq<seq<Publication>>, kind: string, id: string)
    requires ledgers != [] && OneProject(ledgers) && Follow(ledgers, kind, id).cursor == None
    ensures Follow(ledgers, kind, id).rows == Reverse(Rows(ledgers[0], kind, id))
  {
    WalkSoFar(ledgers, kind, id);
    assert Rows(ledgers[0], kind, id)[0..] == Rows(ledgers[0], kind, id);
  }

  predicate Fits(rows: seq<Row>) {
    forall k :: 0 <= k < |rows| ==> rows[k].bytes <= BUDGET
  }

  predicate Sized(rows: seq<Row>) {
    forall k :: 0 <= k < |rows| ==> rows[k].bytes >= 0
  }

  /** A row over the budget is left, and so are all before it. */
  lemma {:induction false} TooLargeIsLeft(rows: seq<Row>, k: nat, taken: nat, spent: nat)
    requires Sized(rows) && k < |rows| && rows[k].bytes > BUDGET
    ensures Leaves(rows, taken, spent) > k
  {
    var n := |rows| - 1;
    if k < n && taken < ROWS && spent + rows[n].bytes <= BUDGET {
      TooLargeIsLeft(rows[..n], k, taken + 1, spent + rows[n].bytes);
    }
  }

  lemma {:induction false} TooLargeRemains(rows: seq<Row>, k: nat, pages: nat)
    requires Sized(rows) && k < |rows| && rows[k].bytes > BUDGET
    ensures Remaining(rows, pages) > k
  {
    if pages > 0 {
      TooLargeRemains(rows, k, pages - 1);
      TooLargeIsLeft(rows[..Remaining(rows, pages - 1)], k, 0, 0);
    }
  }

  lemma {:induction false} FittingRowsGoOn(rows: seq<Row>, pages: nat)
    requires Fits(rows)
    ensures Remaining(rows, pages) == 0 || Remaining(rows, pages) + pages <= |rows|
  {
    if pages > 0 {
      FittingRowsGoOn(rows, pages - 1);
      var m := Remaining(rows, pages - 1);
      if m > 0 {
        LeavesLess(rows[..m][..m - 1], 1, rows[m - 1].bytes);
      }
    }
  }

  /** The walk ends, after no more pages than there are rows and one, exactly if every row fits a page. */
  lemma {:induction false} FollowingEndsExactlyWhenRowsFit(ledgers: seq<seq<Publication>>, kind: string, id: string)
    requires ledgers != [] && OneProject(ledgers) && Sized(Rows(ledgers[0], kind, id))
    requires |ledgers| > |Rows(ledgers[0], kind, id)|
    ensures Follow(ledgers, kind, id).cursor == None <==> Fits(Rows(ledgers[0], kind, id))
  {
    var rows := Rows(ledgers[0], kind, id);
    WalkSoFar(ledgers, kind, id);
    if Fits(rows) {
      FittingRowsGoOn(rows, |ledgers|);
    } else {
      var k :| 0 <= k < |rows| && rows[k].bytes > BUDGET;
      TooLargeRemains(rows, k, |ledgers|);
    }
  }
}
