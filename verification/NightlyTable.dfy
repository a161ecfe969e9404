/**
  The nightly mutation table (scripts/mutation-nightly-table.py): the rows of a half
  are dealt to n shards in turn, and taken from them in turn again; each row is
  counted once; and the shards' changes are laid over the tracked record.

  A row is taken as its name and what the harness said of it; the layout of the
  tables as text is not part of this.
*/
module NightlyTable {
  import opened Prelude

  datatype Row = Row(name: string, said: string)
  /** What shard `k` of `n` left. */
  datatype Part<R> = Part(n: nat, rows: seq<R>, finished: bool)
  /** The shards of a half that reported, by number from one. */
  type Half<R> = map<nat, Part<R>>

  // ---- Dealing and taking back ---------------------------------------------------------

  /** Every n-th row from place `at` on. */
  function Deal<R>(rows: seq<R>, n: nat, at: nat): seq<R>
    requires n > 0
    decreases |rows| - at
  {
    if at >= |rows| then [] else [rows[at]] + Deal(rows, n, at + n)
  }

  /** Row `i` of shard `k` is row i * n + k - 1 of all. */
  lemma {:induction false} DealtAt<R>(rows: seq<R>, n: nat, at: nat, i: nat)
    requires n > 0
    ensures i < |Deal(rows, n, at)| <==> at + i * n < |rows|
    ensures i < |Deal(rows, n, at)| ==> Deal(rows, n, at)[i] == rows[at + i * n]
    decreases i
  {
    if at < |rows| && i > 0 {
      DealtAt(rows, n, at + n, i - 1);
      assert at + n + (i - 1) * n == at + i * n;
    }
  }

  ghost predicate Dealt<R>(parts: Half<R>, rows: seq<R>, n: nat)
    requires n > 0
  {
    forall k :: 1 <= k <= n ==> k in parts && parts[k].rows == Deal(rows, n, k - 1)
  }

  /** `rows` were dealt to `n` shards, and each says that there are `n`. */
  ghost predicate WasDealt<R>(parts: Half<R>, rows: seq<R>, n: nat) {
    n > 0 && Dealt(parts, rows, n) && forall k :: k in parts ==> parts[k].n == n
  }

  /** What the shards up to `k` give in round `i`. */
  function Round<R>(parts: Half<R>, i: nat, k: nat): seq<R> {
    if k == 0 then []
    else Round(parts, i, k - 1) + if k in parts && i < |parts[k].rows| then [parts[k].rows[i]] else []
  }

  function Rounds<R>(parts: Half<R>, n: nat, i: nat): seq<R> {
    if i == 0 then [] else Rounds(parts, n, i - 1) + Round(parts, i - 1, n)
  }

  function UpTo<R>(rows: seq<R>, m: nat): seq<R> {
    if m <= |rows| then rows[..m] else rows
  }

  /** In round `i` the shards hold the rows from `m` on. */
  ghost predicate Serves<R>(parts: Half<R>, rows: seq<R>, n: nat, i: nat, m: nat) {
    forall k :: 1 <= k <= n ==> ServesOne(parts, rows, i, k, m)
  }

  ghost predicate ServesOne<R>(parts: Half<R>, rows: seq<R>, i: nat, k: nat, m: nat)
    requires k > 0
  {
    && k in parts && (i < |parts[k].rows| <==> m + k - 1 < |rows|)
    && (i < |parts[k].rows| ==> parts[k].rows[i] == rows[m + k - 1])
  }

  lemma {:induction false} RoundRestores<R>(parts: Half<R>, rows: seq<R>, n: nat, i: nat, k: nat, m: nat)
    requires Serves(parts, rows, n, i, m) && k <= n
    ensures UpTo(rows, m) + Round(parts, i, k) == UpTo(rows, m + k)
  {
    if k > 0 {
      RoundRestores(parts, rows, n, i, k - 1, m);
      assert ServesOne(parts, rows, i, k, m);
      var next := if i < |parts[k].rows| then [parts[k].rows[i]] else [];
      assert UpTo(rows, m) + Round(parts, i, k) == UpTo(rows, m + k - 1) + next;
    } else {
      assert UpTo(rows, m) + [] == UpTo(rows, m);
    }
  }

  lemma {:induction false} DealtServes<R>(parts: Half<R>, rows: seq<R>, n: nat, i: nat)
    requires n > 0 && Dealt(parts, rows, n)
    ensures Serves(parts, rows, n, i, i * n)
  {
    forall k | 1 <= k <= n ensures ServesOne(parts, rows, i, k, i * n) {
      DealtAt(rows, n, k - 1, i);
      assert parts[k].rows == Deal(rows, n, k - 1);
    }
  }

  lemma {:induction false} RoundsRestore<R>(parts: Half<R>, rows: seq<R>, n: nat, i: nat)
    requires n > 0 && Dealt(parts, rows, n)
    ensures Rounds(parts, n, i) == UpTo(rows, i * n)
  {
    if i > 0 {
      Before(i, n);
      RoundsRestore(parts, rows, n, i - 1);
      DealtServes(parts, rows, n, i - 1);
      RoundRestores(parts, rows, n, i - 1, n, (i - 1) * n);
    }
  }

  lemma Before(i: nat, n: nat)
    requires i > 0
    ensures (i - 1) * n == i * n - n && i * n >= n
  {
  }

  /** Whatever the number of rows and of shards, taking in turn undoes dealing in turn. */
  lemma {:induction false} TakingUndoesDealing<R>(parts: Half<R>, rows: seq<R>, n: nat, longest: nat)
    requires n > 0 && Dealt(parts, rows, n) && forall k :: 1 <= k <= n ==> |parts[k].rows| <= longest
    ensures Rounds(parts, n, longest) == rows
  {
    assert 1 in parts;
    RoundsRestore(parts, rows, n, longest);
    DealtAt(rows, n, 0, longest);
    assert parts[1].rows == Deal(rows, n, 0);
  }

  /** Shard `k` did not report, or its table has no closing line. */
  predicate Missing<R>(parts: Half<R>, k: nat) {
    k !in parts || !parts[k].finished
  }

  method Longest<R>(parts: Half<R>) returns (n: nat, longest: nat)
    requires parts.Keys != {}
    ensures forall k :: k in parts ==> parts[k].n <= n && |parts[k].rows| <= longest
    ensures exists k :: k in parts && parts[k].n == n
  {
    var k :| k in parts;
    n, longest := parts[k].n, |parts[k].rows|;
    var left := parts.Keys - {k};
    while left != {}
      invariant left <= parts.Keys && k in parts && parts[k].n == n
      invariant forall j :: j in parts && j !in left ==> parts[j].n <= n && |parts[j].rows| <= longest
    {
      var j :| j in left;
      if parts[j].n > n {
        k, n := j, parts[j].n;
      }
      if |parts[j].rows| > longest {
        longest := |parts[j].rows|;
      }
      left := left - {j};
    }
  }

  const DID_NOT_RUN := "**" + "DID NOT RUN - no shard of this half reported**"
  const DID_NOT_FINISH := "**" + "DID NOT FINISH - see its progress.log**"

  /** Row `r` is one of the shards up to `n`, before place `m` of its shard. */
  predicate Reported<R(==)>(parts: Half<R>, n: nat, m: nat, r: R) {
    exists k :: 1 <= k <= n && HasRow(parts, k, m, r)
  }

  predicate HasRow<R(==)>(parts: Half<R>, k: nat, m: nat, r: R) {
    k in parts && exists i :: 0 <= i < |parts[k].rows| && i < m && parts[k].rows[i] == r
  }

  predicate Gives<R(==)>(parts: Half<R>, k: nat, i: nat, r: R) {
    k in parts && i < |parts[k].rows| && parts[k].rows[i] == r
  }

  predicate GivesUpTo<R(==)>(parts: Half<R>, n: nat, i: nat, r: R) {
    exists k :: 1 <= k <= n && Gives(parts, k, i, r)
  }

  lemma {:induction false} RoundHas<R>(parts: Half<R>, i: nat, k: nat, r: R)
    ensures r in Round(parts, i, k) <==> GivesUpTo(parts, k, i, r)
  {
    if k > 0 {
      RoundHas(parts, i, k - 1, r);
      assert r in Round(parts, i, k) <==> r in Round(parts, i, k - 1) || Gives(parts, k, i, r);
    }
  }

  lemma {:induction false} OneRoundMore<R>(parts: Half<R>, n: nat, m: nat, r: R)
    ensures Reported(parts, n, m + 1, r) <==> Reported(parts, n, m, r) || GivesUpTo(parts, n, m, r)
  {
    if Reported(parts, n, m + 1, r) {
      var k :| 1 <= k <= n && HasRow(parts, k, m + 1, r);
      assert HasRow(parts, k, m, r) || Gives(parts, k, m, r);
    }
    if Reported(parts, n, m, r) {
      var k :| 1 <= k <= n && HasRow(parts, k, m, r);
      assert HasRow(parts, k, m + 1, r);
    }
    if GivesUpTo(parts, n, m, r) {
      var k :| 1 <= k <= n && Gives(parts, k, m, r);
      assert HasRow(parts, k, m + 1, r);
    }
  }

  lemma {:induction false} RoundsHave<R>(parts: Half<R>, n: nat, m: nat, r: R)
    ensures r in Rounds(parts, n, m) <==> Reported(parts, n, m, r)
  {
    if m > 0 {
      var i := m - 1;
      RoundsHave(parts, n, i, r);
      RoundHas(parts, i, n, r);
      OneRoundMore(parts, n, i, r);
      assert Rounds(parts, n, m) == Rounds(parts, n, i) + Round(parts, i, n);
      assert Reported(parts, n, m, r) <==> Reported(parts, n, i + 1, r);
    }
  }

  /** Row `r` is of the half: of a shard that is not numbered past the largest number of shards. */
  predicate OfHalf<R(==)>(parts: Half<R>, r: R) {
    exists j, k :: j in parts && k in parts && 1 <= k <= parts[j].n && r in parts[k].rows
  }

  lemma {:induction false} AllAreGathered<R>(parts: Half<R>, n: nat, longest: nat, r: R)
    requires forall k :: k in parts ==> parts[k].n <= n && |parts[k].rows| <= longest
    requires exists k :: k in parts && parts[k].n == n
    ensures r in Rounds(parts, n, longest) <==> OfHalf(parts, r)
  {
    RoundsHave(parts, n, longest, r);
    if OfHalf(parts, r) {
      var j, k :| j in parts && k in parts && 1 <= k <= parts[j].n && r in parts[k].rows;
      assert HasRow(parts, k, longest, r);
    }
    if Reported(parts, n, longest, r) {
      var j :| j in parts && parts[j].n == n;
      var k :| 1 <= k <= n && HasRow(parts, k, longest, r);
      assert 1 <= k <= parts[j].n && r in parts[k].rows;
    }
  }

  /** The rows of a half in the harness's order, and a row for what is missing of it. */
  method Gather(parts: Half<Row>) returns (table: seq<Row>, unfinished: seq<Row>)
    ensures forall r :: r in unfinished ==> r.said in {DID_NOT_RUN, DID_NOT_FINISH}
    ensures unfinished == [] <==> Complete(parts)
    ensures forall n, rows :: WasDealt(parts, rows, n) ==> table == rows
    ensures forall r :: r in table <==> OfHalf(parts, r)
  {
    table, unfinished := [], [];
    if parts.Keys == {} {
      unfinished := [Row("rows", DID_NOT_RUN)];
      assert 1 !in parts;
      return;
    }
    var n, longest := Longest(parts);
    ghost var some :| some in parts && parts[some].n == n;
    for k := 1 to n + 1
      invariant forall r :: r in unfinished ==> r.said == DID_NOT_FINISH
      invariant unfinished == [] <==> forall j :: 1 <= j < k ==> !Missing(parts, j)
    {
      assert Missing(parts, k) <==> k !in parts || !parts[k].finished;
      if k !in parts || !parts[k].finished {
        unfinished := unfinished + [Row("shard", DID_NOT_FINISH)];
      }
    }
    for i := 0 to longest
      invariant table == Rounds(parts, n, i)
    {
      ghost var before := table;
      for k := 1 to n + 1
        invariant table == before + Round(parts, i, k - 1)
      {
        if k in parts && i < |parts[k].rows| {
          table := table + [parts[k].rows[i]];
        }
      }
    }
    forall r ensures r in table <==> OfHalf(parts, r) {
      AllAreGathered(parts, n, longest, r);
    }
    forall m, rows | WasDealt(parts, rows, m) ensures table == rows {
      assert m == n;
      TakingUndoesDealing(parts, rows, n, longest);
    }
  }

  /** The half reported, and every shard up to the largest number of shards finished. */
  ghost predicate Complete<R>(parts: Half<R>) {
    parts.Keys != {} && forall k, j :: j in parts && 1 <= k <= parts[j].n ==> !Missing(parts, k)
  }

  // ---- What the rows say -----------------------------------------------------------------

  datatype Verdict = Caught | Survivor | Inconclusive | NotRun

  predicate StartsWith(s: string, prefix: string) {
    |prefix| <= |s| && s[..|prefix|] == prefix
  }

  predicate Has(s: string, part: string) {
    StartsWith(s, part) || (s != "" && Has(s[1..], part))
  }

  function VerdictOf(r: Row): Verdict {
    if Has(r.said, "NOT DISCRIMINATING") then Survivor
    else if Has(r.said, "INCONCLUSIVE") then Inconclusive
    else if StartsWith(r.said, "**") || r.said == "MUTATION DID NOT APPLY" then NotRun
    else Caught
  }

  function Of(rows: seq<Row>, v: Verdict): seq<Row> {
    if rows == [] then []
    else Of(rows[..|rows| - 1], v) + if VerdictOf(rows[|rows| - 1]) == v then [rows[|rows| - 1]] else []
  }

  /** Every row is in one of the four lists, and in none it does not belong to. */
  lemma {:induction false} EachRowIsCountedOnce(rows: seq<Row>, r: Row)
    ensures |Of(rows, Caught)| + |Of(rows, Survivor)| + |Of(rows, Inconclusive)| + |Of(rows, NotRun)| == |rows|
    ensures forall v :: r in Of(rows, v) <==> r in rows && VerdictOf(r) == v
  {
    if rows != [] {
      var n := |rows| - 1;
      EachRowIsCountedOnce(rows[..n], r);
      assert rows == rows[..n] + [rows[n]];
    }
  }

  /** The loop over the table. What was caught is what is left over. */
  method Sort(rows: seq<Row>) returns (caught: int, survivors: seq<Row>, inconclusive: seq<Row>, notRun: seq<Row>)
    ensures survivors == Of(rows, Survivor) && inconclusive == Of(rows, Inconclusive) && notRun == Of(rows, NotRun)
    ensures caught == |Of(rows, Caught)|
  {
    survivors, inconclusive, notRun := [], [], [];
    for i := 0 to |rows|
      invariant survivors == Of(rows[..i], Survivor) && inconclusive == Of(rows[..i], Inconclusive)
      invariant notRun == Of(rows[..i], NotRun)
    {
      var said := rows[i].said;
      assert rows[..i + 1][..i] == rows[..i];
      if Has(said, "NOT DISCRIMINATING") {
        survivors := survivors + [rows[i]];
      } else if Has(said, "INCONCLUSIVE") {
        inconclusive := inconclusive + [rows[i]];
      } else if StartsWith(said, "**") || said == "MUTATION DID NOT APPLY" {
        notRun := notRun + [rows[i]];
      }
    }
    assert rows[..|rows|] == rows;
    EachRowIsCountedOnce(rows, Row("", ""));
    caught := |rows| - |survivors| - |inconclusive| - |notRun|;
  }

  datatype Halves = All | Go | Web

  /** Row `r` is of a half that was run. */
  predicate OfRun(half: Halves, go: Half<Row>, web: Half<Row>, r: Row) {
    (half != Web && OfHalf(go, r)) || (half != Go && OfHalf(web, r))
  }

  /** The rows of the halves that were run, and what is missing of them. */
  method Collect(half: Halves, go: Half<Row>, web: Half<Row>) returns (rows: seq<Row>, unfinished: seq<Row>)
    ensures forall r :: r in rows <==> OfRun(half, go, web, r)
    ensures forall r :: r in unfinished ==> r.said in {DID_NOT_RUN, DID_NOT_FINISH}
    ensures unfinished == [] <==> (half != Web ==> Complete(go)) && (half != Go ==> Complete(web))
    ensures half == All ==> forall n, m, a, b :: WasDealt(go, a, n) && WasDealt(web, b, m) ==> rows == a + b
  {
    rows, unfinished := [], [];
    if half != Web {
      rows, unfinished := Gather(go);
    }
    if half != Go {
      var more, missing := Gather(web);
      rows, unfinished := rows + more, unfinished + missing;
    }
  }

  /** The whole table of a run, and whether it may close the open issue: exactly if it
      covered both halves, no shard is missing, and every row was caught. */
  method Report(half: Halves, go: Half<Row>, web: Half<Row>) returns (table: seq<Row>, clean: bool)
    ensures clean <==> half == All && Complete(go) && Complete(web) && forall r :: r in table ==> VerdictOf(r) == Caught
    ensures half == All && Complete(go) && Complete(web) ==>
      forall n, m, rows, more :: WasDealt(go, rows, n) && WasDealt(web, more, m) ==> table == rows + more
    ensures forall r :: OfRun(half, go, web, r) ==> r in table
    ensures forall r :: r in table ==> OfRun(half, go, web, r) || r.said in {DID_NOT_RUN, DID_NOT_FINISH}
  {
    var unfinished: seq<Row>;
    table, unfinished := Collect(half, go, web);
    table := table + unfinished;
    var caught, survivors, inconclusive, notRun := Sort(table);
    clean := half == All && survivors == [] && inconclusive == [] && notRun == [];
    NothingListed(table);
    if unfinished != [] {
      assert unfinished[0] in table && unfinished[0] in unfinished;
      NeverDone(unfinished[0]);
    }
  }

  lemma {:induction false} NothingListed(rows: seq<Row>)
    ensures Of(rows, Survivor) == Of(rows, Inconclusive) == Of(rows, NotRun) == []
      <==> forall r :: r in rows ==> VerdictOf(r) == Caught
  {
    if rows != [] {
      var n := |rows| - 1;
      NothingListed(rows[..n]);
      assert rows == rows[..n] + [rows[n]];
    }
  }

  lemma NeverDone(r: Row)
    requires r.said in {DID_NOT_RUN, DID_NOT_FINISH}
    ensures VerdictOf(r) != Caught
  {
    assert StartsWith(r.said, "**");
  }

  // ---- The record ---------------------------------------------------------------------------

  /** Which tests each mutation was caught by. */
  type Record = map<string, string>

  function At(r: Record, key: string): Option<string> {
    if key in r then Some(r[key]) else None
  }

  predicate Changes(mine: Record, base: Record, key: string) {
    At(mine, key) != At(base, key)
  }

  /** What the last shard that changed `key` says, or the tracked record. */
  function Latest(base: Record, shards: seq<Record>, key: string): Option<string> {
    if shards == [] then At(base, key)
    else if Changes(shards[|shards| - 1], base, key) then At(shards[|shards| - 1], key)
    else Latest(base, shards[..|shards| - 1], key)
  }

  /** Each shard's changes laid over the record, in turn. */
  method Overlay(base: Record, shards: seq<Record>) returns (merged: Record)
    ensures forall key :: At(merged, key) == Latest(base, shards, key)
  {
    merged := base;
    for i := 0 to |shards|
      invariant forall key :: At(merged, key) == Latest(base, shards[..i], key)
    {
      assert shards[..i + 1][..i] == shards[..i];
      var mine := shards[i];
      var before := merged;
      var keys := mine.Keys + base.Keys;
      while keys != {}
        invariant keys <= mine.Keys + base.Keys
        invariant forall key :: At(merged, key) == if key !in keys && Changes(mine, base, key) then At(mine, key) else At(before, key)
      {
        var key :| key in keys;
        if At(mine, key) != At(base, key) {
          if key in mine {
            merged := merged[key := mine[key]];
          } else {
            merged := merged - {key};
          }
        }
        keys := keys - {key};
      }
    }
    assert shards[..|shards|] == shards;
  }

  /** No two shards change one key. */
  predicate Disjoint(base: Record, shards: seq<Record>, key: string) {
    forall i, j :: 0 <= i < j < |shards| ==> !Changes(shards[i], base, key) || !Changes(shards[j], base, key)
  }

  lemma {:induction false} TheOneThatChanges(base: Record, shards: seq<Record>, key: string, mine: Record)
    requires Disjoint(base, shards, key)
    ensures mine in shards && Changes(mine, base, key) ==> Latest(base, shards, key) == At(mine, key)
    ensures (forall m :: m in shards ==> !Changes(m, base, key)) ==> Latest(base, shards, key) == At(base, key)
  {
    if shards != [] {
      var n := |shards| - 1;
      assert shards[n] in shards;
      TheOneThatChanges(base, shards[..n], key, mine);
    }
  }

  /** What is laid over the record comes from a shard that changes it, or none does. */
  lemma {:induction false} LatestIsOfOne(base: Record, shards: seq<Record>, key: string)
    ensures || (exists m :: m in shards && Changes(m, base, key) && Latest(base, shards, key) == At(m, key))
            || (Latest(base, shards, key) == At(base, key) && forall m :: m in shards ==> !Changes(m, base, key))
  {
    if shards != [] {
      var n := |shards| - 1;
      LatestIsOfOne(base, shards[..n], key);
      assert shards == shards[..n] + [shards[n]];
    }
  }

  /** Then the order of the shards does not matter. */
  lemma {:induction false} OrderDoesNotMatter(base: Record, shards: seq<Record>, others: seq<Record>, key: string)
    requires multiset(shards) == multiset(others) && Disjoint(base, shards, key)
    ensures Latest(base, shards, key) == Latest(base, others, key)
  {
    forall m ensures m in shards <==> m in others {
      assert m in shards <==> m in multiset(shards);
      assert m in others <==> m in multiset(others);
    }
    LatestIsOfOne(base, others, key);
    if m :| m in others && Changes(m, base, key) && Latest(base, others, key) == At(m, key) {
      TheOneThatChanges(base, shards, key, m);
    } else {
      TheOneThatChanges(base, shards, key, base);
    }
  }
}
