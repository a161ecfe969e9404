/**
  Project memory (internal/desk/ai_memory.go): entries that supersede each other by
  key, and tombstones for what was forgotten. `Apply` says what a change makes of
  the document; `ApplyMemory` is the source's code and is proved to compute it. The
  lemmas are about any sequence of changes.

  A tombstone stands for the digest it holds, so for the text in lower case with
  single spaces; case and spaces are those of ASCII. Whether text is sensitive,
  whether the files it names are as digested, and the cited message are parameters.
*/
module Memory {
  import opened Prelude

  datatype State = Active | Pending | Superseded
  /** Ids and digests are told apart, and nothing else; zero is the empty one. `Files`
      are the project files an entry rests on, so many of them. */
  datatype Files = Files(count: nat, list: nat)
  datatype Entry = Entry(id: nat, key: string, text: string, state: State, updated: int, digest: nat, files: Files)
  datatype Tomb = OfKey(hash: string) | OfText(hash: string) | OfSource(digest: nat)
  datatype Settings = Settings(use: bool, suggest: bool)
  datatype Document = Document(settings: Settings, entries: seq<Entry>, blocked: seq<Tomb>, cutoff: Option<int>)

  datatype Action = SetUp | Clear | Forget | Approve | Edit | Save | Suggest | Unknown
  datatype Change = Change(action: Action, id: nat, key: string, text: string, settings: Option<Settings>, files: Files)

  /** The user's message that a suggestion cites, as it is saved. */
  datatype Message = Message(text: string, at: Option<int>, digest: nat)
  /** The clock, a new id, and what the rest of the project says about the change. */
  datatype World = World(now: int, newID: nat, sensitive: bool, filesFit: bool, message: Option<Message>)

  const ENTRIES := 256
  const TOMBS := 4096

  // ---- Text -------------------------------------------------------------------------

  predicate Space(c: char) {
    c == ' ' || c == '\t' || c == '\n' || c == '\r'
  }

  function Lower(s: string): string {
    if s == "" then ""
    else [if 'A' <= s[0] <= 'Z' then (s[0] as int + 32) as char else s[0]] + Lower(s[1..])
  }

  function TrimLeft(s: string): string {
    if s != "" && Space(s[0]) then TrimLeft(s[1..]) else s
  }

  function TrimRight(s: string): string {
    if s != "" && Space(s[|s| - 1]) then TrimRight(s[..|s| - 1]) else s
  }

  function Trim(s: string): string {
    TrimRight(TrimLeft(s))
  }

  /** Words apart by one space. */
  function Squeeze(s: string): string {
    if s == "" then ""
    else if Space(s[0]) && |s| > 1 && Space(s[1]) then Squeeze(s[1..])
    else [if Space(s[0]) then ' ' else s[0]] + Squeeze(s[1..])
  }

  /** What is digested of a text. */
  function Hash(s: string): string {
    Squeeze(Trim(Lower(s)))
  }

  predicate StartsWith(s: string, prefix: string) {
    |prefix| <= |s| && s[..|prefix|] == prefix
  }

  const COMMANDS := ["/remember ", "remember this: ", "remember that ", "remember: "]

  function Command(text: string, k: nat): string
    requires k <= |COMMANDS|
    decreases |COMMANDS| - k
  {
    if k == |COMMANDS| then ""
    else if StartsWith(Lower(Trim(text)), COMMANDS[k]) && |COMMANDS[k]| <= |Trim(text)| then
      Trim(Trim(text)[|COMMANDS[k]|..])
    else Command(text, k + 1)
  }

  /** What a direct remember command asks to remember, or nothing. */
  function Explicit(text: string): string {
    Command(text, 0)
  }

  predicate ValidKey(key: string) {
    && 1 <= |key| <= 80 && key[0] != '-'
    && forall c :: c in key ==> 'a' <= c <= 'z' || '0' <= c <= '9' || c == '-'
  }

  // ---- Entries and tombstones ----------------------------------------------------------

  predicate Distinct(entries: seq<Entry>) {
    forall i, j :: 0 <= i < j < |entries| ==> entries[i].id != entries[j].id
  }

  predicate ValidEntry(e: Entry) {
    e.id != 0 && ValidKey(e.key) && Trim(e.text) != "" && |e.text| <= 2000 && e.files.count <= 8
  }

  /** The stored document, as it has to read. */
  predicate Readable(d: Document) {
    && |d.entries| <= ENTRIES && |d.blocked| <= TOMBS && Distinct(d.entries)
    && forall e :: e in d.entries ==> ValidEntry(e)
  }

  predicate OneActive(entries: seq<Entry>) {
    forall i, j :: 0 <= i < j < |entries| && entries[i].state == entries[j].state == Active ==>
      entries[i].key != entries[j].key
  }

  /** The tombs of an entry, but for a source it has not. */
  function TombsOf(e: Entry): seq<Tomb> {
    [OfKey(Hash(e.key)), OfText(Hash(e.text))] + if e.digest == 0 then [] else [OfSource(e.digest)]
  }

  function AddTomb(blocked: seq<Tomb>, t: Tomb): seq<Tomb> {
    if t in blocked then blocked else blocked + [t]
  }

  function AddTombs(blocked: seq<Tomb>, tombs: seq<Tomb>): seq<Tomb> {
    if tombs == [] then blocked else AddTomb(AddTombs(blocked, tombs[..|tombs| - 1]), tombs[|tombs| - 1])
  }

  function Bury(blocked: seq<Tomb>, entries: seq<Entry>): seq<Tomb> {
    if entries == [] then blocked
    else AddTombs(Bury(blocked, entries[..|entries| - 1]), TombsOf(entries[|entries| - 1]))
  }

  function WithKey(entries: seq<Entry>, key: string): seq<Entry> {
    if entries == [] then []
    else
      var front, last := WithKey(entries[..|entries| - 1], key), entries[|entries| - 1];
      if last.key == key then front + [last] else front
  }

  function WithoutKey(entries: seq<Entry>, key: string): seq<Entry> {
    if entries == [] then []
    else
      var front, last := WithoutKey(entries[..|entries| - 1], key), entries[|entries| - 1];
      if last.key == key then front else front + [last]
  }

  /** A human's own save or edit takes these tombs away ... */
  predicate Restores(t: Tomb, key: string, text: string) {
    t == OfKey(Hash(key)) || t == OfText(Hash(text))
  }

  /** ... and leaves the others. */
  function Restored(blocked: seq<Tomb>, key: string, text: string): seq<Tomb> {
    if blocked == [] then []
    else
      var front, last := Restored(blocked[..|blocked| - 1], key, text), blocked[|blocked| - 1];
      if Restores(last, key, text) then front else front + [last]
  }

  function Demoted(e: Entry, key: string): Entry {
    if e.key == key then e.(state := Superseded) else e
  }

  function Supersede(entries: seq<Entry>, key: string): seq<Entry> {
    if entries == [] then [] else Supersede(entries[..|entries| - 1], key) + [Demoted(entries[|entries| - 1], key)]
  }

  /** Where the entry of that id is, or the length. */
  function Find(entries: seq<Entry>, id: nat): (i: nat)
    ensures i <= |entries| && (i < |entries| ==> entries[i].id == id) && forall k :: 0 <= k < i ==> entries[k].id != id
  {
    if entries == [] || entries[0].id == id then 0 else 1 + Find(entries[1..], id)
  }

  predicate IsBlocked(d: Document, key: string, text: string, digest: nat) {
    OfKey(Hash(key)) in d.blocked || OfText(Hash(text)) in d.blocked || (digest != 0 && OfSource(digest) in d.blocked)
  }

  predicate Repeats(e: Entry, key: string, text: string, digest: nat) {
    e.digest == digest && e.key == key && e.text == text
  }

  // ---- What a change makes of the document -----------------------------------------------

  /** The last part: supersede, then replace the entry of that id or add one. */
  function Store(d: Document, c: Change, text: string, state: State, digest: nat, w: World): Option<Document> {
    var entries := if state == Active then Supersede(d.entries, c.key) else d.entries;
    var i := Find(entries, c.id);
    if c.id != 0 && i < |entries| then
      Some(d.(entries := entries[i := entries[i].(text := text, state := state, updated := w.now, files := c.files)]))
    else if |entries| >= ENTRIES then None
    else Some(d.(entries := entries + [Entry(w.newID, c.key, text, state, w.now, digest, c.files)]))
  }

  function Suggested(d: Document, c: Change, text: string, w: World): Option<Document> {
    if w.message == None || w.message.value.at == None then None
    else
      var m := w.message.value;
      var explicit := Explicit(m.text) == text;
      if d.cutoff.Some? && m.at.value <= d.cutoff.value then None
      else if OfSource(m.digest) in d.blocked || (!explicit && IsBlocked(d, c.key, text, m.digest)) then None
      else if !explicit && !d.settings.suggest then None
      else if exists e :: e in d.entries && Repeats(e, c.key, text, m.digest) then Some(d)
      else Store(d, c, text, if explicit then Active else Pending, m.digest, w)
  }

  function Put(d: Document, c: Change, w: World): Option<Document> {
    var text := Trim(c.text);
    if !ValidKey(c.key) || text == "" || |text| > 2000 || '\0' in text then None
    else if w.sensitive || c.files.count > 8 || !w.filesFit then None
    else if c.action == Suggest then Suggested(d, c, text, w)
    else
      Store(if c.action == Approve then d else d.(blocked := Restored(d.blocked, c.key, text)), c, text, Active, 0, w)
  }

  /** An approval or an edit is about the entry of its id. */
  function About(c: Change, e: Entry): Change {
    if c.action == Approve then c.(key := e.key, text := e.text, files := e.files) else c.(key := e.key)
  }

  function Apply(d: Document, c: Change, w: World): Option<Document> {
    match c.action
    case SetUp => if c.settings.Some? then Some(d.(settings := c.settings.value)) else None
    case Clear => Some(d.(blocked := Bury(d.blocked, d.entries), entries := [], cutoff := Some(w.now)))
    case Forget =>
      var i := Find(d.entries, c.id);
      if i == |d.entries| then None
      else
        var key := d.entries[i].key;
        Some(d.(blocked := Bury(d.blocked, WithKey(d.entries, key)), entries := WithoutKey(d.entries, key)))
    case Save => Put(d, c, w)
    case Suggest => Put(d, c, w)
    case Unknown => None
    case _ =>
      var i := Find(d.entries, c.id);
      if i == |d.entries| then None else Put(d, About(c, d.entries[i]), w)
  }

  /** What is stored in the end: nothing of a change that is refused or does not fit. */
  function Stored(d: Document, c: Change, w: World): Document {
    var r := Apply(d, c, w);
    if r.Some? && |r.value.blocked| <= TOMBS then r.value else d
  }

  // ---- Tombstones ------------------------------------------------------------------------

  lemma {:induction false} AddsTombs(blocked: seq<Tomb>, tombs: seq<Tomb>, t: Tomb)
    ensures t in AddTombs(blocked, tombs) <==> t in blocked || t in tombs
  {
    if tombs != [] {
      var n := |tombs| - 1;
      AddsTombs(blocked, tombs[..n], t);
      assert tombs == tombs[..n] + [tombs[n]];
    }
  }

  /** What is buried is what was and the tombs of every entry. */
  lemma {:induction false} Buries(blocked: seq<Tomb>, entries: seq<Entry>, t: Tomb)
    ensures t in Bury(blocked, entries) <==> t in blocked || exists e :: e in entries && t in TombsOf(e)
  {
    if entries != [] {
      var n := |entries| - 1;
      Buries(blocked, entries[..n], t);
      AddsTombs(Bury(blocked, entries[..n]), TombsOf(entries[n]), t);
      assert entries == entries[..n] + [entries[n]];
    }
  }

  /** A human's save or edit takes away exactly the tombs of its key and its text. */
  lemma {:induction false} RestoresExactly(blocked: seq<Tomb>, key: string, text: string, t: Tomb)
    ensures t in Restored(blocked, key, text) <==> t in blocked && t != OfKey(Hash(key)) && t != OfText(Hash(text))
    ensures |Restored(blocked, key, text)| <= |blocked|
  {
    if blocked != [] {
      var n := |blocked| - 1;
      RestoresExactly(blocked[..n], key, text, t);
      assert blocked == blocked[..n] + [blocked[n]];
    }
  }

  // ---- Entries ---------------------------------------------------------------------------

  lemma {:induction false} KeyPartition(entries: seq<Entry>, key: string, e: Entry)
    ensures e in WithKey(entries, key) <==> e in entries && e.key == key
    ensures e in WithoutKey(entries, key) <==> e in entries && e.key != key
  {
    if entries != [] {
      var n := |entries| - 1;
      KeyPartition(entries[..n], key, e);
      assert entries == entries[..n] + [entries[n]];
    }
  }

  lemma {:induction false} SupersedesAt(entries: seq<Entry>, key: string)
    ensures |Supersede(entries, key)| == |entries|
    ensures forall i :: 0 <= i < |entries| ==> Supersede(entries, key)[i] == Demoted(entries[i], key)
  {
    if entries != [] {
      SupersedesAt(entries[..|entries| - 1], key);
    }
  }

  lemma {:induction false} WithoutKeyKeeps(entries: seq<Entry>, key: string)
    ensures |WithoutKey(entries, key)| <= |entries|
    ensures Distinct(entries) ==> Distinct(WithoutKey(entries, key))
    ensures OneActive(entries) ==> OneActive(WithoutKey(entries, key))
  {
    if entries != [] {
      var front := WithoutKey(entries[..|entries| - 1], key);
      WithoutKeyKeeps(entries[..|entries| - 1], key);
      forall i | 0 <= i < |front| ensures front[i] in entries[..|entries| - 1] {
        KeyPartition(entries[..|entries| - 1], key, front[i]);
      }
    }
  }

  lemma {:induction false} SupersedeKeeps(entries: seq<Entry>, key: string)
    ensures Distinct(entries) ==> Distinct(Supersede(entries, key))
    ensures OneActive(entries) ==> OneActive(Supersede(entries, key))
  {
    SupersedesAt(entries, key);
  }

  // ---- One active entry a key ---------------------------------------------------------------

  /** Entry `e` may stand beside `entries`, whatever is at `i`. */
  predicate Alone(entries: seq<Entry>, i: nat, e: Entry) {
    e.state == Active ==>
      forall j :: 0 <= j < |entries| && j != i && entries[j].state == Active ==> entries[j].key != e.key
  }

  lemma {:induction false} ReplacingIsFine(entries: seq<Entry>, i: nat, e: Entry)
    requires OneActive(entries) && i < |entries|
    ensures OneActive(entries[i := e]) <==> Alone(entries, i, e)
  {
    var after := entries[i := e];
    if OneActive(after) && e.state == Active {
      forall j | 0 <= j < |entries| && j != i && entries[j].state == Active ensures entries[j].key != e.key {
        assert after[j] == entries[j] && after[i] == e;
      }
    }
  }

  lemma {:induction false} AddingIsFine(entries: seq<Entry>, e: Entry)
    requires OneActive(entries) && Alone(entries, |entries|, e)
    ensures OneActive(entries + [e])
  {
  }

  lemma {:induction false} StoreKeepsOneActive(d: Document, c: Change, text: string, state: State, digest: nat,
                                               w: World)
    requires OneActive(d.entries) && Store(d, c, text, state, digest, w).Some?
    requires c.id != 0 && Find(d.entries, c.id) < |d.entries| ==>
      d.entries[Find(d.entries, c.id)].key == c.key || state != Active
    ensures OneActive(Store(d, c, text, state, digest, w).value.entries)
  {
    var i := Find(d.entries, c.id);
    if c.id != 0 && i < |d.entries| {
      if state == Active {
        StoringAnID(d, c, text, digest, w);
      } else {
        ReplacingIsFine(d.entries, i, d.entries[i].(text := text, state := state, updated := w.now, files := c.files));
      }
    } else {
      AddingKeepsOneActive(d.entries, Entry(w.newID, c.key, text, state, w.now, digest, c.files));
      SupersedesAt(d.entries, c.key);
      FindAgrees(d.entries, Supersede(d.entries, c.key), c.id);
    }
  }

  lemma {:induction false} AddingKeepsOneActive(entries: seq<Entry>, e: Entry)
    requires OneActive(entries)
    ensures OneActive((if e.state == Active then Supersede(entries, e.key) else entries) + [e])
  {
    SupersedesAt(entries, e.key);
    SupersedeKeeps(entries, e.key);
    AddingIsFine(if e.state == Active then Supersede(entries, e.key) else entries, e);
  }

  lemma {:induction false} FindAgrees(a: seq<Entry>, b: seq<Entry>, id: nat)
    requires |a| == |b| && forall i :: 0 <= i < |a| ==> a[i].id == b[i].id
    ensures Find(a, id) == Find(b, id)
  {
    if a != [] && a[0].id != id {
      FindAgrees(a[1..], b[1..], id);
    }
  }

  /** Saves and suggestions as the project's own pages send them. */
  predicate Plain(c: Change) {
    c.action in {Save, Suggest} ==> c.id == 0
  }

  predicate Hits(d: Document, c: Change) {
    c.id != 0 && Find(d.entries, c.id) < |d.entries|
  }

  /** A save, or a suggestion by command that was not stored before. */
  predicate Activates(d: Document, c: Change, w: World) {
    || c.action == Save
    || (c.action == Suggest && w.message.Some? && Explicit(w.message.value.text) == Trim(c.text) && !Again(d, c, w))
  }

  predicate Again(d: Document, c: Change, w: World) {
    w.message.Some? && exists e :: e in d.entries && Repeats(e, c.key, Trim(c.text), w.message.value.digest)
  }

  /** The change activates an entry by its id that has another key than the change,
      beside an active entry of that key. */
  predicate Misplaces(d: Document, c: Change, w: World) {
    && Activates(d, c, w) && Hits(d, c)
    && var i := Find(d.entries, c.id);
       d.entries[i].key != c.key && !Alone(d.entries, i, d.entries[i].(state := Active))
  }

  /** Every change but these leaves one active entry a key, and each of these leaves two. */
  lemma {:induction false} OneActiveExactlyWhen(d: Document, c: Change, w: World)
    requires OneActive(d.entries) && Apply(d, c, w).Some?
    ensures OneActive(Apply(d, c, w).value.entries) <==> !Misplaces(d, c, w)
  {
    var text := Trim(c.text);
    if c.action == Forget {
      WithoutKeyKeeps(d.entries, d.entries[Find(d.entries, c.id)].key);
    } else if c.action in {Approve, Edit} {
      PutKeepsOneActive(d, About(c, d.entries[Find(d.entries, c.id)]), w);
    } else if c.action in {Save, Suggest} && !(Hits(d, c) && Activates(d, c, w)) {
      PutKeepsOneActive(d, c, w);
    } else if c.action == Save {
      StoringAnID(d.(blocked := Restored(d.blocked, c.key, text)), c, text, 0, w);
    } else if c.action == Suggest {
      StoringAnID(d, c, text, w.message.value.digest, w);
    }
  }

  lemma {:induction false} PutKeepsOneActive(d: Document, c: Change, w: World)
    requires OneActive(d.entries) && Put(d, c, w).Some?
    requires Hits(d, c) && !(c.action == Suggest && !Activates(d, c, w)) ==>
      d.entries[Find(d.entries, c.id)].key == c.key
    ensures OneActive(Put(d, c, w).value.entries)
  {
    var text := Trim(c.text);
    if c.action == Suggest {
      var m := w.message.value;
      if Put(d, c, w).value != d {
        StoreKeepsOneActive(d, c, text, if Explicit(m.text) == text then Active else Pending, m.digest, w);
      }
    } else {
      var e := if c.action == Approve then d else d.(blocked := Restored(d.blocked, c.key, text));
      StoreKeepsOneActive(e, c, text, Active, 0, w);
    }
  }

  /** Storing under an id makes that entry active under its own key, whatever key was
      superseded: it keeps the rule exactly if the keys agree or no other entry of
      that key is active. */
  lemma {:induction false} StoringAnID(d: Document, c: Change, text: string, digest: nat, w: World)
    requires OneActive(d.entries) && c.id != 0 && Find(d.entries, c.id) < |d.entries|
    ensures var i := Find(d.entries, c.id);
      var r := Store(d, c, text, Active, digest, w);
      r.Some? && (OneActive(r.value.entries) <==>
        d.entries[i].key == c.key || Alone(d.entries, i, d.entries[i].(state := Active)))
  {
    SupersedesAt(d.entries, c.key);
    SupersedeKeeps(d.entries, c.key);
    var before, i := Supersede(d.entries, c.key), Find(d.entries, c.id);
    FindAgrees(d.entries, before, c.id);
    var e := before[i].(text := text, state := Active, updated := w.now, files := c.files);
    ReplacingIsFine(before, i, e);
    AloneAfter(d.entries, c.key, i, e);
  }

  lemma {:induction false} AloneAfter(entries: seq<Entry>, key: string, i: nat, e: Entry)
    requires i < |entries| && e.state == Active && e.key == entries[i].key
    ensures Alone(Supersede(entries, key), i, e) <==> e.key == key || Alone(entries, i, entries[i].(state := Active))
  {
    SupersedesAt(entries, key);
    var after := Supersede(entries, key);
    if e.key != key && Alone(after, i, e) {
      forall j | 0 <= j < |entries| && j != i && entries[j].state == Active ensures entries[j].key != e.key {
        assert after[j].state == if entries[j].key == key then Superseded else Active;
      }
    }
  }

  /** An active entry of key "k" and, under id 2, a superseded one. */
  function TwoOfK(): Document {
    Document(Settings(true, true),
             [Entry(1, "k", "one", Active, 0, 0, Files(0, 0)), Entry(2, "k", "two", Superseded, 0, 0, Files(0, 0))],
             [], None)
  }

  lemma OtherMisplaces(c: Change, w: World)
    requires Activates(TwoOfK(), c, w) && c.id == 2 && c.key != "k"
    ensures Misplaces(TwoOfK(), c, w)
  {
    var d := TwoOfK();
    assert Find(d.entries[1..], 2) == 0 && Find(d.entries, 2) == 1;
    assert d.entries[0].state == Active && d.entries[0].key == d.entries[1].key;
  }

  predicate Storable(c: Change, w: World) {
    && ValidKey(c.key) && Trim(c.text) != "" && |Trim(c.text)| <= 2000 && '\0' !in Trim(c.text)
    && !w.sensitive && c.files.count <= 8 && w.filesFit
  }

  /** What finds its entry, and is not refused for what it says, is stored: a save or a command. */
  lemma HitsAreStored(d: Document, c: Change, w: World)
    requires Storable(c, w) && Hits(d, c) && d.blocked == [] && d.cutoff == None
    requires c.action == Save || (c.action == Suggest && Activates(d, c, w) && w.message.value.at.Some?)
    ensures Apply(d, c, w).Some? && Apply(d, c, w).value.blocked == []
  {
    assert Restored(d.blocked, c.key, Trim(c.text)) == [];
    if c.action == Save {
      HitStores(d, c, Trim(c.text), 0, w);
    } else {
      HitStores(d, c, Trim(c.text), w.message.value.digest, w);
    }
  }

  lemma HitStores(d: Document, c: Change, text: string, digest: nat, w: World)
    requires Hits(d, c)
    ensures Store(d, c, text, Active, digest, w).Some?
    ensures Store(d, c, text, Active, digest, w).value.blocked == d.blocked
  {
    SupersedesAt(d.entries, c.key);
    FindAgrees(d.entries, Supersede(d.entries, c.key), c.id);
  }

  lemma OtherIsStorable(c: Change, w: World)
    requires c.key == "other" && c.text == "two" && c.files.count == 0 && !w.sensitive && w.filesFit
    ensures Storable(c, w) && Trim(c.text) == "two"
  {
    assert Trim("two") == "two";
  }

  /** Two active entries of one key, by one save ... */
  lemma TwoActive(w: World)
    requires !w.sensitive && w.filesFit
    ensures OneActive(TwoOfK().entries) && Distinct(TwoOfK().entries)
    ensures !OneActive(Stored(TwoOfK(), Change(Save, 2, "other", "two", None, Files(0, 0)), w).entries)
  {
    var c := Change(Save, 2, "other", "two", None, Files(0, 0));
    OtherIsStorable(c, w);
    OtherMisplaces(c, w);
    HitsAreStored(TwoOfK(), c, w);
    OneActiveExactlyWhen(TwoOfK(), c, w);
  }

  lemma TwoIsAsked(c: Change, w: World)
    requires c.action == Suggest && Trim(c.text) == "two" && w.message == Some(Message("/remember two", Some(1), 11))
    ensures Activates(TwoOfK(), c, w)
  {
    assert "/remember " + "two" == "/remember two";
    RememberAsks("two");
  }

  /** ... and by one remember command. */
  lemma TwoActiveByCommand(w: World)
    requires !w.sensitive && w.filesFit && w.message == Some(Message("/remember two", Some(1), 11))
    ensures !OneActive(Stored(TwoOfK(), Change(Suggest, 2, "other", "two", None, Files(0, 0)), w).entries)
  {
    var c := Change(Suggest, 2, "other", "two", None, Files(0, 0));
    OtherIsStorable(c, w);
    TwoIsAsked(c, w);
    OtherMisplaces(c, w);
    HitsAreStored(TwoOfK(), c, w);
    OneActiveExactlyWhen(TwoOfK(), c, w);
  }

  lemma {:induction false} LowerAt(s: string)
    ensures |Lower(s)| == |s|
    ensures forall i :: 0 <= i < |s| && !('A' <= s[i] <= 'Z') ==> Lower(s)[i] == s[i]
    ensures forall i :: 0 <= i < |s| && 'A' <= s[i] <= 'Z' ==> Lower(s)[i] as int == s[i] as int + 32
  {
    if s != "" {
      LowerAt(s[1..]);
    }
  }

  /** "/remember x" asks to remember x. */
  lemma {:induction false} RememberAsks(t: string)
    requires t != "" && !Space(t[0]) && !Space(t[|t| - 1])
    ensures Explicit("/remember " + t) == t
  {
    var prefix := "/remember ";
    var s := prefix + t;
    assert s[|s| - 1] == t[|t| - 1] && Trim(s) == s && Trim(t) == t;
    LowerAt(s);
    assert COMMANDS[0] == prefix && |prefix| == 10 && s[10..] == t;
    forall i | 0 <= i < 10 ensures Lower(s)[i] == prefix[i] {
      NoCapital(i);
      assert s[i] == prefix[i];
    }
    assert Lower(s)[..10] == prefix;
  }

  lemma NoCapital(i: nat)
    requires i < 10
    ensures !('A' <= "/remember "[i] <= 'Z')
  {
    var prefix := "/remember ";
    assert prefix[0] == '/' && prefix[1] == 'r' && prefix[2] == 'e' && prefix[3] == 'm' && prefix[4] == 'e';
    assert prefix[5] == 'm' && prefix[6] == 'b' && prefix[7] == 'e' && prefix[8] == 'r' && prefix[9] == ' ';
  }

  // ---- The document stays readable ---------------------------------------------------------

  predicate Inky(s: string) {
    exists c :: c in s && !Space(c)
  }

  lemma {:induction false} LeftKeepsInk(s: string)
    ensures Inky(TrimLeft(s)) <==> Inky(s)
  {
    if s != "" && Space(s[0]) {
      LeftKeepsInk(s[1..]);
      assert s == [s[0]] + s[1..];
    }
  }

  lemma {:induction false} RightKeepsInk(s: string)
    ensures Inky(TrimRight(s)) <==> Inky(s)
    ensures TrimRight(s) != "" <==> Inky(s)
  {
    if s != "" && Space(s[|s| - 1]) {
      RightKeepsInk(s[..|s| - 1]);
      assert s == s[..|s| - 1] + [s[|s| - 1]];
    } else if s != "" {
      assert s[|s| - 1] in s;
    }
  }

  lemma {:induction false} TrimKeepsInk(s: string)
    ensures (Inky(Trim(s)) <==> Inky(s)) && (Trim(s) != "" <==> Inky(s))
  {
    LeftKeepsInk(s);
    RightKeepsInk(TrimLeft(s));
  }

  /** An entry that the request is not about: superseded if a new text of its key was activated. */
  predicate Beside(e: Entry, f: Entry, activated: Option<string>) {
    f == if activated == Some(e.key) then e.(state := Superseded) else e
  }

  /** Entry `i`, and no other, became `f`. */
  predicate BecameAt(before: seq<Entry>, after: seq<Entry>, i: nat, f: Entry, activated: Option<string>) {
    && i < |before| == |after| && after[i] == f
    && forall k :: 0 <= k < |before| && k != i ==> Beside(before[k], after[k], activated)
  }

  /** Entry `f` came after the others. */
  predicate JoinedBy(before: seq<Entry>, after: seq<Entry>, f: Entry, activated: Option<string>) {
    && |after| == |before| + 1 && after[|before|] == f
    && forall k :: 0 <= k < |before| ==> Beside(before[k], after[k], activated)
  }

  /** The last part of a request stores one entry under its id, or adds one if there is room. */
  lemma {:induction false} StoreIs(d: Document, c: Change, text: string, state: State, digest: nat, w: World, i: nat)
    requires i == Find(d.entries, c.id)
    ensures var r := Store(d, c, text, state, digest, w);
      var activated := if state == Active then Some(c.key) else None;
      && (r.Some? <==> (c.id != 0 && i < |d.entries|) || |d.entries| < ENTRIES)
      && (r.Some? ==> r.value == d.(entries := r.value.entries))
      && (c.id != 0 && i < |d.entries| ==>
            var e := d.entries[i];
            BecameAt(d.entries, r.value.entries, i, Entry(e.id, e.key, text, state, w.now, e.digest, c.files), activated))
      && (r.Some? && (c.id == 0 || i == |d.entries|) ==>
            JoinedBy(d.entries, r.value.entries, Entry(w.newID, c.key, text, state, w.now, digest, c.files), activated))
  {
    SupersedesAt(d.entries, c.key);
    FindAgrees(d.entries, Supersede(d.entries, c.key), c.id);
  }

  /** What the last part does to the entries: one is replaced under its id and key, or one is added. */
  lemma {:induction false} StoreShape(d: Document, c: Change, text: string, state: State, digest: nat, w: World)
    requires Store(d, c, text, state, digest, w).Some?
    ensures var after := Store(d, c, text, state, digest, w).value.entries;
      && |d.entries| <= |after| <= |d.entries| + 1
      && (forall i :: 0 <= i < |d.entries| ==> Keeps(d.entries[i], after[i], text, c.files))
      && (|after| > |d.entries| ==> IsNew(d, after[|d.entries|], c, text, w) && after[|d.entries|].digest == digest)
  {
    StoreIs(d, c, text, state, digest, w, Find(d.entries, c.id));
  }

  /** Entry `e` is new and there was room for it. */
  predicate IsNew(d: Document, e: Entry, c: Change, text: string, w: World) {
    |d.entries| < ENTRIES && e.id == w.newID && e.key == c.key && e.text == text && e.files == c.files
  }

  /** Entry `f` is `e`, superseded perhaps, or with the new text and files. */
  predicate Keeps(e: Entry, f: Entry, text: string, files: Files) {
    && f.id == e.id && f.key == e.key && f.digest == e.digest
    && ((f.text == e.text && f.files == e.files) || (f.text == text && f.files == files))
  }

  lemma {:induction false} StoreStaysReadable(d: Document, c: Change, text: string, state: State, digest: nat, w: World)
    requires Readable(d) && Fair(d, w) && ValidKey(c.key) && Trim(text) != "" && |text| <= 2000 && c.files.count <= 8
    requires Store(d, c, text, state, digest, w).Some?
    ensures Readable(Store(d, c, text, state, digest, w).value)
  {
    StoreShape(d, c, text, state, digest, w);
    var r := Store(d, c, text, state, digest, w).value;
    forall i | 0 <= i < |r.entries|
      ensures ValidEntry(r.entries[i]) && (i < |d.entries| ==> r.entries[i].id == d.entries[i].id != w.newID) {
      if i < |d.entries| {
        assert d.entries[i] in d.entries && Keeps(d.entries[i], r.entries[i], text, c.files);
      }
    }
  }

  lemma {:induction false} PutStaysReadable(d: Document, c: Change, w: World)
    requires Readable(d) && Fair(d, w) && Put(d, c, w).Some?
    ensures Readable(Put(d, c, w).value)
  {
    var text := Trim(c.text);
    TrimKeepsInk(c.text);
    TrimKeepsInk(text);
    if c.action == Suggest {
      var m := w.message.value;
      if Put(d, c, w).value != d {
        StoreStaysReadable(d, c, text, if Explicit(m.text) == text then Active else Pending, m.digest, w);
      }
    } else {
      RestoresExactly(d.blocked, c.key, text, OfKey(""));
      var e := if c.action == Approve then d else d.(blocked := Restored(d.blocked, c.key, text));
      StoreStaysReadable(e, c, text, Active, 0, w);
    }
  }

  lemma {:induction false} ReadableStays(d: Document, c: Change, w: World)
    requires Readable(d) && Fair(d, w)
    ensures Readable(Stored(d, c, w))
  {
    var r := Apply(d, c, w);
    if c.action == Forget && r.Some? {
      var key := d.entries[Find(d.entries, c.id)].key;
      WithoutKeyKeeps(d.entries, key);
      forall e | e in WithoutKey(d.entries, key) ensures e in d.entries {
        KeyPartition(d.entries, key, e);
      }
    } else if c.action in {Approve, Edit} && r.Some? {
      PutStaysReadable(d, About(c, d.entries[Find(d.entries, c.id)]), w);
    } else if c.action in {Save, Suggest} && r.Some? {
      PutStaysReadable(d, c, w);
    }
  }

  // ---- What was forgotten stays forgotten ------------------------------------------------------

  /** A new id is new; a digest is not empty. */
  predicate Fair(d: Document, w: World) {
    && w.newID != 0 && (forall e :: e in d.entries ==> e.id != w.newID)
    && (w.message.Some? ==> w.message.value.digest != 0)
  }

  /** Entries from message `s` are, if anything, fewer. */
  predicate NoMoreFrom(s: nat, before: Document, after: Document) {
    forall e :: e in after.entries && e.digest == s ==> exists f :: f in before.entries && f.digest == s && f.id == e.id
  }

  lemma {:induction false} StoreIsQuiet(d: Document, c: Change, text: string, state: State, digest: nat, w: World,
                                        s: nat)
    requires Store(d, c, text, state, digest, w).Some? && s != digest
    ensures Store(d, c, text, state, digest, w).value.blocked == d.blocked
    ensures NoMoreFrom(s, d, Store(d, c, text, state, digest, w).value)
  {
    SupersedesAt(d.entries, c.key);
    var after := Store(d, c, text, state, digest, w).value.entries;
    forall e | e in after && e.digest == s ensures exists f :: f in d.entries && f.digest == s && f.id == e.id {
      var i :| 0 <= i < |after| && after[i] == e;
      assert d.entries[i] in d.entries;
    }
  }

  /** No change takes a source's tomb away, and none adds an entry from a buried source. */
  lemma {:induction false} SourceStaysBuried(d: Document, c: Change, w: World, s: nat)
    requires OfSource(s) in d.blocked && s != 0
    ensures OfSource(s) in Stored(d, c, w).blocked
    ensures NoMoreFrom(s, d, Stored(d, c, w))
  {
    var r := Apply(d, c, w);
    if r.Some? {
      match c.action
      case Clear => Buries(d.blocked, d.entries, OfSource(s));
      case Forget =>
        var key := d.entries[Find(d.entries, c.id)].key;
        Buries(d.blocked, WithKey(d.entries, key), OfSource(s));
        forall e | e in r.value.entries ensures e in d.entries {
          KeyPartition(d.entries, key, e);
        }
      case Save => PutIsQuiet(d, c, w, s);
      case Suggest => PutIsQuiet(d, c, w, s);
      case Approve => PutIsQuiet(d, About(c, d.entries[Find(d.entries, c.id)]), w, s);
      case Edit => PutIsQuiet(d, About(c, d.entries[Find(d.entries, c.id)]), w, s);
      case _ =>
    }
  }

  lemma {:induction false} PutIsQuiet(d: Document, c: Change, w: World, s: nat)
    requires OfSource(s) in d.blocked && s != 0 && Put(d, c, w).Some?
    ensures OfSource(s) in Put(d, c, w).value.blocked && NoMoreFrom(s, d, Put(d, c, w).value)
  {
    var text := Trim(c.text);
    if c.action == Suggest {
      var m := w.message.value;
      if Put(d, c, w).value != d {
        StoreIsQuiet(d, c, text, if Explicit(m.text) == text then Active else Pending, m.digest, w, s);
      }
    } else {
      RestoresExactly(d.blocked, c.key, text, OfSource(s));
      var e := if c.action == Approve then d else d.(blocked := Restored(d.blocked, c.key, text));
      StoreIsQuiet(e, c, text, Active, 0, w, s);
    }
  }

  /** A forgotten entry's source is buried. */
  lemma {:induction false} ForgettingBuries(d: Document, c: Change, w: World, e: Entry)
    requires c.action in {Clear, Forget} && Stored(d, c, w) != d && e in d.entries && e.digest != 0
    requires c.action == Forget && Find(d.entries, c.id) < |d.entries| ==> e.key == d.entries[Find(d.entries, c.id)].key
    ensures OfSource(e.digest) in Stored(d, c, w).blocked && e !in Stored(d, c, w).entries
  {
    assert OfSource(e.digest) in TombsOf(e);
    if c.action == Clear {
      Buries(d.blocked, d.entries, OfSource(e.digest));
    } else {
      KeyPartition(d.entries, e.key, e);
      Buries(d.blocked, WithKey(d.entries, e.key), OfSource(e.digest));
    }
  }

  // ---- Any sequence of changes -------------------------------------------------------------------

  datatype Step = Step(change: Change, world: World)

  function Run(d: Document, steps: seq<Step>): Document {
    if steps == [] then d
    else
      var last := steps[|steps| - 1];
      Stored(Run(d, steps[..|steps| - 1]), last.change, last.world)
  }

  /** Ids are new and the clock does not go back. */
  predicate Plausible(d: Document, steps: seq<Step>) {
    forall i :: 0 <= i < |steps| ==> Fair(Run(d, steps[..i]), steps[i].world) && Later(steps, i)
  }

  predicate Later(steps: seq<Step>, i: nat)
    requires i < |steps|
  {
    forall j :: 0 <= j < i ==> steps[j].world.now <= steps[i].world.now
  }

  lemma {:induction false} OneLess(d: Document, steps: seq<Step>)
    requires steps != [] && Plausible(d, steps)
    ensures Plausible(d, steps[..|steps| - 1]) && Fair(Run(d, steps[..|steps| - 1]), steps[|steps| - 1].world)
  {
    var n := |steps| - 1;
    forall i | 0 <= i < n ensures Fair(Run(d, steps[..n][..i]), steps[..n][i].world) && Later(steps[..n], i) {
      assert steps[..n][..i] == steps[..i] && Later(steps, i);
    }
  }

  /** Step `i` is not a change that leaves two active entries of a key. */
  predicate InPlace(d: Document, steps: seq<Step>, i: nat)
    requires i < |steps|
  {
    var e := Run(d, steps[..i]);
    Stored(e, steps[i].change, steps[i].world) == e || !Misplaces(e, steps[i].change, steps[i].world)
  }

  ghost predicate AlwaysOneActive(d: Document, steps: seq<Step>) {
    forall i :: 0 <= i <= |steps| ==> OneActive(Run(d, steps[..i]).entries)
  }

  lemma RunAt(d: Document, steps: seq<Step>, i: nat)
    requires i < |steps|
    ensures Run(d, steps[..i + 1]) == Stored(Run(d, steps[..i]), steps[i].change, steps[i].world)
  {
    assert steps[..i + 1][..i] == steps[..i];
  }

  lemma {:induction false} EveryRunIsReadable(d: Document, steps: seq<Step>)
    requires Readable(d) && Plausible(d, steps)
    ensures Readable(Run(d, steps))
  {
    if steps != [] {
      var n := |steps| - 1;
      OneLess(d, steps);
      EveryRunIsReadable(d, steps[..n]);
      ReadableStays(Run(d, steps[..n]), steps[n].change, steps[n].world);
    }
  }

  lemma {:induction false} InPlaceSoFar(d: Document, steps: seq<Step>, n: nat)
    requires OneActive(d.entries) && n <= |steps| && forall i :: 0 <= i < n ==> InPlace(d, steps, i)
    ensures OneActive(Run(d, steps[..n]).entries)
  {
    if n > 0 {
      InPlaceSoFar(d, steps, n - 1);
      assert InPlace(d, steps, n - 1);
      StepInPlace(d, steps, n - 1);
    }
  }

  lemma StepInPlace(d: Document, steps: seq<Step>, i: nat)
    requires i < |steps| && OneActive(Run(d, steps[..i]).entries)
    ensures OneActive(Run(d, steps[..i + 1]).entries) <==> InPlace(d, steps, i)
  {
    RunAt(d, steps, i);
    var e := Run(d, steps[..i]);
    if Stored(e, steps[i].change, steps[i].world) != e {
      OneActiveExactlyWhen(e, steps[i].change, steps[i].world);
    }
  }

  /** The stored document can be read, whatever is done to it. It has one active entry
      a key at every moment if and only if no change that is stored misplaces one. */
  lemma EveryRunIsInOrder(d: Document, steps: seq<Step>)
    requires Readable(d) && OneActive(d.entries) && Plausible(d, steps)
    ensures Readable(Run(d, steps))
    ensures AlwaysOneActive(d, steps) <==> (forall i :: 0 <= i < |steps| ==> InPlace(d, steps, i))
  {
    EveryRunIsReadable(d, steps);
    if forall i :: 0 <= i < |steps| ==> InPlace(d, steps, i) {
      forall n | 0 <= n <= |steps| ensures OneActive(Run(d, steps[..n]).entries) {
        InPlaceSoFar(d, steps, n);
      }
    } else {
      var i :| 0 <= i < |steps| && !InPlace(d, steps, i);
      if OneActive(Run(d, steps[..i]).entries) {
        StepInPlace(d, steps, i);
      }
    }
  }

  /** So it has if saves and suggestions carry no id. */
  lemma PlainRunsAreInPlace(d: Document, steps: seq<Step>)
    requires forall i :: 0 <= i < |steps| ==> Plain(steps[i].change)
    ensures forall i :: 0 <= i < |steps| ==> InPlace(d, steps, i)
  {
    forall i | 0 <= i < |steps| ensures InPlace(d, steps, i) {
      assert Plain(steps[i].change);
    }
  }

  /** No suggestion that cites message `s` is stored, whatever it asks for. */
  ghost predicate Refuses(d: Document, s: nat) {
    forall c: Change, w: World ::
      c.action == Suggest && w.message.Some? && w.message.value.digest == s ==> Apply(d, c, w) == None
  }

  /** Once a source is buried it stays so, no entry comes from it, and every later
      suggestion that cites it is refused. */
  lemma {:induction false} ForgottenStaysForgotten(d: Document, steps: seq<Step>, s: nat)
    requires OfSource(s) in d.blocked && s != 0
    ensures OfSource(s) in Run(d, steps).blocked && NoMoreFrom(s, d, Run(d, steps))
    ensures Refuses(Run(d, steps), s)
  {
    if steps != [] {
      var n := |steps| - 1;
      ForgottenStaysForgotten(d, steps[..n], s);
      SourceStaysBuried(Run(d, steps[..n]), steps[n].change, steps[n].world, s);
    }
  }

  /** The change is accepted, and its tombstones fit. */
  predicate Takes(d: Document, c: Change, w: World) {
    Apply(d, c, w).Some? && |Apply(d, c, w).value.blocked| <= TOMBS
  }

  /** Step `i` clears the memory, and the clock does not go back up to step `j`. */
  predicate Clears(d: Document, steps: seq<Step>, i: nat, j: nat)
    requires i <= j <= |steps|
  {
    && i < j && steps[i].change.action == Clear
    && Takes(Run(d, steps[..i]), steps[i].change, steps[i].world)
    && forall k :: i < k < j ==> steps[k].world.now >= steps[i].world.now
  }

  lemma {:induction false} CutoffFrom(d: Document, steps: seq<Step>, i: nat, j: nat)
    requires i <= j <= |steps| && Clears(d, steps, i, j)
    ensures Run(d, steps[..j]).cutoff.Some? && Run(d, steps[..j]).cutoff.value >= steps[i].world.now
  {
    RunAt(d, steps, j - 1);
    if i < j - 1 {
      CutoffFrom(d, steps, i, j - 1);
      CutoffStays(Run(d, steps[..j - 1]), steps[j - 1].change, steps[j - 1].world);
    }
  }

  /** After a clear, every suggestion of a later step that is accepted cites a message from
      after the moment of the clear. */
  lemma ClearedHistoryStaysOut(d: Document, steps: seq<Step>, i: nat, j: nat)
    requires i < j < |steps| && Clears(d, steps, i, j)
    requires steps[j].change.action == Suggest && Takes(Run(d, steps[..j]), steps[j].change, steps[j].world)
    ensures var m := steps[j].world.message;
      m.Some? && m.value.at.Some? && m.value.at.value > steps[i].world.now
  {
    CutoffFrom(d, steps, i, j);
  }

  lemma CutoffStays(d: Document, c: Change, w: World)
    ensures Stored(d, c, w).cutoff == d.cutoff || Stored(d, c, w).cutoff == Some(w.now)
  {
  }

  // ---- The code ------------------------------------------------------------------------------------

  method ForgetMemory(blocked: seq<Tomb>, entry: Entry) returns (after: seq<Tomb>)
    ensures after == AddTombs(blocked, TombsOf(entry))
  {
    after := blocked;
    var hashes := [OfKey(Hash(entry.key)), OfText(Hash(entry.text)), OfSource(entry.digest)];
    ghost var tombs := TombsOf(entry);
    for i := 0 to |hashes|
      invariant after == AddTombs(blocked, if i <= |tombs| then tombs[..i] else tombs)
    {
      if i < |tombs| {
        assert hashes[i] == tombs[i] && tombs[..i + 1][..i] == tombs[..i];
      }
      if hashes[i] != OfSource(0) && hashes[i] !in after {
        after := after + [hashes[i]];
      }
    }
    assert tombs[..|tombs|] == tombs;
  }

  method ForgetKey(d: Document, key: string) returns (r: Document)
    ensures r == d.(blocked := Bury(d.blocked, WithKey(d.entries, key)), entries := WithoutKey(d.entries, key))
  {
    var keep, blocked := [], d.blocked;
    for i := 0 to |d.entries|
      invariant keep == WithoutKey(d.entries[..i], key) && blocked == Bury(d.blocked, WithKey(d.entries[..i], key))
    {
      assert d.entries[..i + 1][..i] == d.entries[..i];
      if d.entries[i].key == key {
        BuryOne(d.blocked, WithKey(d.entries[..i], key), d.entries[i]);
        blocked := ForgetMemory(blocked, d.entries[i]);
      } else {
        keep := keep + [d.entries[i]];
      }
    }
    assert d.entries[..|d.entries|] == d.entries;
    r := d.(blocked := blocked, entries := keep);
  }

  lemma BuryOne(blocked: seq<Tomb>, entries: seq<Entry>, e: Entry)
    ensures Bury(blocked, entries + [e]) == AddTombs(Bury(blocked, entries), TombsOf(e))
  {
    assert (entries + [e])[..|entries|] == entries;
  }

  method ForgetAll(d: Document) returns (blocked: seq<Tomb>)
    ensures blocked == Bury(d.blocked, d.entries)
  {
    blocked := d.blocked;
    for i := 0 to |d.entries|
      invariant blocked == Bury(d.blocked, d.entries[..i])
    {
      assert d.entries[..i + 1][..i] == d.entries[..i];
      blocked := ForgetMemory(blocked, d.entries[i]);
    }
    assert d.entries[..|d.entries|] == d.entries;
  }

  /** The filter that reuses the list it reads: `keep` are the tombs kept so far, at its front. */
  method Restore(blocked: array<Tomb>, key: string, text: string) returns (keep: nat)
    modifies blocked
    ensures keep <= blocked.Length && blocked[..keep] == Restored(old(blocked[..]), key, text)
  {
    keep := 0;
    ghost var was := blocked[..];
    for i := 0 to blocked.Length
      invariant keep <= i && blocked[i..] == was[i..]
      invariant blocked[..keep] == Restored(was[..i], key, text)
    {
      assert blocked[i] == blocked[i..][0] == was[i] && was[..i + 1][..i] == was[..i];
      if !Restores(blocked[i], key, text) {
        blocked[keep] := blocked[i];
        keep := keep + 1;
      }
    }
    assert was[..blocked.Length] == was;
  }

  method SupersedeAll(were: seq<Entry>, key: string) returns (entries: seq<Entry>)
    ensures entries == Supersede(were, key)
  {
    entries := were;
    for i := 0 to |were|
      invariant |entries| == |were| && entries[i..] == were[i..]
      invariant entries[..i] == Supersede(were[..i], key)
    {
      assert entries[i] == entries[i..][0] == were[i] && were[..i + 1][..i] == were[..i];
      if entries[i].key == key {
        entries := entries[i := entries[i].(state := Superseded)];
      }
    }
    assert entries[..|entries|] == entries && were[..|were|] == were;
  }

  method StoreEntry(d: Document, c: Change, text: string, state: State, digest: nat, w: World)
      returns (r: Option<Document>)
    ensures r == Store(d, c, text, state, digest, w)
  {
    var entries := d.entries;
    if state == Active {
      entries := SupersedeAll(d.entries, c.key);
    }
    var i := Seek(entries, c.id);
    if c.id != 0 && i < |entries| {
      var e := entries[i].(text := text, state := state, updated := w.now, files := c.files);
      return Some(d.(entries := entries[i := e]));
    }
    if |entries| >= ENTRIES {
      return None;
    }
    r := Some(d.(entries := entries + [Entry(w.newID, c.key, text, state, w.now, digest, c.files)]));
  }

  method ApplyMemory(d: Document, change: Change, w: World) returns (r: Option<Document>)
    ensures r == Apply(d, change, w)
  {
    var c := change;
    match c.action {
      case SetUp =>
        return if c.settings.Some? then Some(d.(settings := c.settings.value)) else None;
      case Clear =>
        var blocked := ForgetAll(d);
        return Some(d.(blocked := blocked, entries := [], cutoff := Some(w.now)));
      case Forget =>
        var i := Seek(d.entries, c.id);
        if i == |d.entries| {
          return None;
        }
        var e := ForgetKey(d, d.entries[i].key);
        return Some(e);
      case Approve =>
      case Edit =>
      case Save =>
      case Suggest =>
      case Unknown =>
        return None;
    }
    if c.action in {Approve, Edit} {
      var i := Seek(d.entries, c.id);
      if i == |d.entries| {
        return None;
      }
      c := c.(key := d.entries[i].key);
      if c.action == Approve {
        c := c.(text := d.entries[i].text, files := d.entries[i].files);
      }
    }
    r := PutMemory(d, c, w);
  }

  method Seek(entries: seq<Entry>, id: nat) returns (i: nat)
    ensures i == Find(entries, id)
  {
    i := 0;
    while i < |entries| && entries[i].id != id
      invariant i <= |entries| && forall k :: 0 <= k < i ==> entries[k].id != id
    {
      i := i + 1;
    }
  }

  method PutMemory(d: Document, c: Change, w: World) returns (r: Option<Document>)
    ensures r == Put(d, c, w)
  {
    var text := Trim(c.text);
    if !ValidKey(c.key) || text == "" || |text| > 2000 || '\0' in text {
      return None;
    }
    if w.sensitive || c.files.count > 8 || !w.filesFit {
      return None;
    }
    if c.action == Suggest {
      r := SuggestMemory(d, c, text, w);
      return;
    }
    var e := d;
    if c.action != Approve {
      var blocked := new Tomb[|d.blocked|](i requires 0 <= i < |d.blocked| => d.blocked[i]);
      assert blocked[..] == d.blocked;
      var keep := Restore(blocked, c.key, text);
      e := d.(blocked := blocked[..keep]);
    }
    r := StoreEntry(e, c, text, Active, 0, w);
  }

  method SuggestMemory(d: Document, c: Change, text: string, w: World) returns (r: Option<Document>)
    ensures r == Suggested(d, c, text, w)
  {
    if w.message == None || w.message.value.at == None {
      return None;
    }
    var m := w.message.value;
    if d.cutoff.Some? && m.at.value <= d.cutoff.value {
      return None;
    }
    var explicit := Explicit(m.text) == text;
    if OfSource(m.digest) in d.blocked || (!explicit && IsBlocked(d, c.key, text, m.digest)) {
      return None;
    }
    if !explicit && !d.settings.suggest {
      return None;
    }
    for i := 0 to |d.entries|
      invariant forall k :: 0 <= k < i ==> !Repeats(d.entries[k], c.key, text, m.digest)
    {
      if Repeats(d.entries[i], c.key, text, m.digest) {
        return Some(d);
      }
    }
    r := StoreEntry(d, c, text, if explicit then Active else Pending, m.digest, w);
  }

  /** The saved file: a change is stored whole or not at all. */
  class Saved {
    var content: Document

    constructor (d: Document)
      ensures content == d
    {
      content := d;
    }

    /** A request. The file is replaced exactly if the change is accepted and fits, and the
        write gets that far; it is done if the write says so. */
    method Request(c: Change, w: World, fits: bool, write: Write) returns (done: bool)
      modifies this
      ensures content == if Takes(old(content), c, w) && fits && write != Untouched then Apply(old(content), c, w).value
                         else old(content)
      ensures done <==> Takes(old(content), c, w) && fits && write == Landed
    {
      var r := ApplyMemory(content, c, w);
      if r == None || |r.value.blocked| > TOMBS {
        return false;
      }
      if !fits {
        return false;
      }
      if write != Untouched {
        content := r.value;
      }
      done := write == Landed;
    }
  }
}
