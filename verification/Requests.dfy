/**
  What each request makes of the project memory (internal/desk/ai_memory.go:225-356),
  entry by entry and tombstone by tombstone: when it is accepted, what it stores, and
  that it changes nothing else. `Memory` says the same in the order of the code.
*/
module Requests {
  import opened Prelude
  import opened Memory

  // ---- Entries before and after ---------------------------------------------------------------

  /** The first entry of that id. */
  predicate Names(d: Document, id: nat, i: nat) {
    i < |d.entries| && d.entries[i].id == id && forall k :: 0 <= k < i ==> d.entries[k].id != id
  }

  predicate Unnamed(d: Document, id: nat) {
    forall e :: e in d.entries ==> e.id != id
  }

  lemma {:induction false} FindNames(d: Document, id: nat, i: nat)
    ensures Names(d, id, i) ==> Find(d.entries, id) == i
    ensures Unnamed(d, id) <==> Find(d.entries, id) == |d.entries|
  {
    var k := Find(d.entries, id);
    if k < |d.entries| {
      assert d.entries[k] in d.entries;
    }
  }

  // ---- The requests -----------------------------------------------------------------------------

  /** The given settings are stored, and nothing else changes. */
  lemma SettingUpIs(d: Document, c: Change, w: World)
    requires c.action == SetUp
    ensures Apply(d, c, w).Some? <==> c.settings.Some?
    ensures c.settings.Some? ==>
      var r := Apply(d, c, w).value;
      r.settings == c.settings.value && r.entries == d.entries && r.blocked == d.blocked && r.cutoff == d.cutoff
  {
  }

  /** A tomb of entry `e`: of its key, of its text, or of the message it records. */
  predicate IsTombOf(t: Tomb, e: Entry) {
    match t
    case OfKey(hash) => hash == Hash(e.key)
    case OfText(hash) => hash == Hash(e.text)
    case OfSource(digest) => digest == e.digest != 0
  }

  /** Nothing is left, every entry is buried, and what was said up to now is out. */
  lemma ClearingIs(d: Document, c: Change, w: World)
    requires c.action == Clear
    ensures Apply(d, c, w).Some?
    ensures var r := Apply(d, c, w).value;
      && r.entries == [] && r.cutoff == Some(w.now) && r.settings == d.settings
      && forall t :: t in r.blocked <==> t in d.blocked || exists e :: e in d.entries && IsTombOf(t, e)
  {
    forall t ensures t in Bury(d.blocked, d.entries) <==> t in d.blocked || exists e :: e in d.entries && IsTombOf(t, e) {
      Buries(d.blocked, d.entries, t);
      assert forall e :: t in TombsOf(e) <==> IsTombOf(t, e);
    }
  }

  /** The entries of another key, in their order. */
  function OfOtherKeys(entries: seq<Entry>, key: string): seq<Entry> {
    if entries == [] then []
    else (if entries[0].key == key then [] else [entries[0]]) + OfOtherKeys(entries[1..], key)
  }

  lemma {:induction false} WithoutKeyIs(entries: seq<Entry>, key: string)
    ensures WithoutKey(entries, key) == OfOtherKeys(entries, key)
  {
    if entries != [] {
      var n := |entries| - 1;
      WithoutKeyIs(entries[..n], key);
      OtherKeysJoin(entries[..n], [entries[n]], key);
      assert entries == entries[..n] + [entries[n]];
    }
  }

  lemma {:induction false} OtherKeysJoin(a: seq<Entry>, b: seq<Entry>, key: string)
    ensures OfOtherKeys(a + b, key) == OfOtherKeys(a, key) + OfOtherKeys(b, key)
  {
    if a == [] {
      assert a + b == b;
    } else {
      OtherKeysJoin(a[1..], b, key);
      assert (a + b)[1..] == a[1..] + b && (a + b)[0] == a[0];
      var first := if a[0].key == key then [] else [a[0]];
      assert OfOtherKeys(a + b, key) == first + OfOtherKeys(a[1..] + b, key);
    }
  }

  /** The entries of the named entry's key are buried and gone; the others stay, in their order. */
  lemma ForgettingIs(d: Document, c: Change, w: World, i: nat)
    requires c.action == Forget
    ensures Apply(d, c, w) == None <==> Unnamed(d, c.id)
    ensures Names(d, c.id, i) ==>
      var r, key := Apply(d, c, w).value, d.entries[i].key;
      && r.entries == OfOtherKeys(d.entries, key) && r.settings == d.settings && r.cutoff == d.cutoff
      && forall t :: t in r.blocked <==>
           t in d.blocked || exists e :: e in d.entries && e.key == key && IsTombOf(t, e)
  {
    FindNames(d, c.id, i);
    if Names(d, c.id, i) {
      var key := d.entries[i].key;
      WithoutKeyIs(d.entries, key);
      forall t
        ensures t in Bury(d.blocked, WithKey(d.entries, key)) <==>
          t in d.blocked || exists e :: e in d.entries && e.key == key && IsTombOf(t, e)
      {
        TombsOfKey(d, key, t);
      }
    }
  }

  lemma TombsOfKey(d: Document, key: string, t: Tomb)
    ensures t in Bury(d.blocked, WithKey(d.entries, key)) <==>
      t in d.blocked || exists e :: e in d.entries && e.key == key && IsTombOf(t, e)
  {
    Buries(d.blocked, WithKey(d.entries, key), t);
    forall e ensures e in WithKey(d.entries, key) && t in TombsOf(e) <==>
      e in d.entries && e.key == key && IsTombOf(t, e)
    {
      KeyPartition(d.entries, key, e);
    }
  }

  /** What a text may not be, and what the rest of the project must say. */
  predicate Sayable(text: string, files: Files, w: World) {
    && text != "" && |text| <= 2000 && '\0' !in text && !w.sensitive && files.count <= 8 && w.filesFit
  }

  /** The named entry becomes active, as it reads, and every other of its key is superseded;
      no tombstone goes. */
  lemma ApprovingIs(d: Document, c: Change, w: World, i: nat)
    requires c.action == Approve && Readable(d)
    ensures Unnamed(d, c.id) ==> Apply(d, c, w) == None
    ensures Names(d, c.id, i) ==>
      var e := d.entries[i];
      && (Apply(d, c, w).Some? <==> Sayable(Trim(e.text), e.files, w))
      && (Apply(d, c, w).Some? ==>
            var r := Apply(d, c, w).value;
            && r == d.(entries := r.entries)
            && BecameAt(d.entries, r.entries, i, e.(text := Trim(e.text), state := Active, updated := w.now), Some(e.key)))
  {
    FindNames(d, c.id, i);
    if Names(d, c.id, i) {
      var e := d.entries[i];
      assert e in d.entries && ValidEntry(e);
      StoreIs(d, About(c, e), Trim(e.text), Active, 0, w, i);
    }
  }

  /** The tombs of that key and that text go, and no others. */
  predicate Lifted(before: seq<Tomb>, after: seq<Tomb>, key: string, text: string) {
    && (forall t :: t in after ==> t in before && t != OfKey(Hash(key)) && t != OfText(Hash(text)))
    && (forall t :: t in before && t != OfKey(Hash(key)) && t != OfText(Hash(text)) ==> t in after)
  }

  lemma RestoredIsLifted(blocked: seq<Tomb>, key: string, text: string)
    ensures Lifted(blocked, Restored(blocked, key, text), key, text)
  {
    forall t ensures t in Restored(blocked, key, text) <==>
      t in blocked && t != OfKey(Hash(key)) && t != OfText(Hash(text))
    {
      RestoresExactly(blocked, key, text, t);
    }
  }

  /** The named entry becomes active with the new text and files, under its own key. */
  lemma EditingIs(d: Document, c: Change, w: World, i: nat)
    requires c.action == Edit && Readable(d)
    ensures Unnamed(d, c.id) ==> Apply(d, c, w) == None
    ensures Names(d, c.id, i) ==>
      var e := d.entries[i];
      && (Apply(d, c, w).Some? <==> Sayable(Trim(c.text), c.files, w))
      && (Apply(d, c, w).Some? ==>
            var r := Apply(d, c, w).value;
            && r.settings == d.settings && r.cutoff == d.cutoff && Lifted(d.blocked, r.blocked, e.key, Trim(c.text))
            && BecameAt(d.entries, r.entries, i,
                        e.(text := Trim(c.text), state := Active, updated := w.now, files := c.files), Some(e.key)))
  {
    FindNames(d, c.id, i);
    if Names(d, c.id, i) {
      var e := d.entries[i];
      assert e in d.entries && ValidEntry(e);
      var f := d.(blocked := Restored(d.blocked, e.key, Trim(c.text)));
      RestoredIsLifted(d.blocked, e.key, Trim(c.text));
      StoreIs(f, About(c, e), Trim(c.text), Active, 0, w, i);
    }
  }

  /** A save makes the entry of its id active with the new text, or a new one of its key. */
  lemma SavingIs(d: Document, c: Change, w: World, i: nat)
    requires c.action == Save && i == Find(d.entries, c.id)
    ensures Apply(d, c, w).Some? <==>
      ValidKey(c.key) && Sayable(Trim(c.text), c.files, w) && (Hits(d, c) || |d.entries| < ENTRIES)
    ensures Apply(d, c, w).Some? ==>
      var r, text := Apply(d, c, w).value, Trim(c.text);
      && r.settings == d.settings && r.cutoff == d.cutoff && Lifted(d.blocked, r.blocked, c.key, text)
      && if Hits(d, c) then
           var e := d.entries[i];
           BecameAt(d.entries, r.entries, i,
                    Entry(e.id, e.key, text, Active, w.now, e.digest, c.files), Some(c.key))
         else
           JoinedBy(d.entries, r.entries, Entry(w.newID, c.key, text, Active, w.now, 0, c.files), Some(c.key))
  {
    RestoredIsLifted(d.blocked, c.key, Trim(c.text));
    StoreIs(d.(blocked := Restored(d.blocked, c.key, Trim(c.text))), c, Trim(c.text), Active, 0, w, i);
  }

  /** The cited message allows the suggestion: it is from after the last clear and not buried,
      and it asks for that very text, or suggestions are on and nothing it says is buried. */
  predicate Allowed(d: Document, c: Change, w: World) {
    && w.message.Some? && w.message.value.at.Some?
    && var m := w.message.value;
       && (d.cutoff.Some? ==> m.at.value > d.cutoff.value) && OfSource(m.digest) !in d.blocked
       && (Explicit(m.text) == Trim(c.text)
           || (d.settings.suggest && OfKey(Hash(c.key)) !in d.blocked && OfText(Hash(Trim(c.text))) !in d.blocked))
  }

  /** A suggestion takes no tombstone away. Asked for by command it is active, and otherwise
      it waits for approval and supersedes nothing. */
  lemma SuggestingIs(d: Document, c: Change, w: World, i: nat)
    requires c.action == Suggest && i == Find(d.entries, c.id)
    ensures Apply(d, c, w).Some? <==>
      ValidKey(c.key) && Sayable(Trim(c.text), c.files, w) && Allowed(d, c, w)
      && (Again(d, c, w) || Hits(d, c) || |d.entries| < ENTRIES)
    ensures Apply(d, c, w).Some? && Again(d, c, w) ==> Apply(d, c, w) == Some(d)
    ensures Apply(d, c, w).Some? && !Again(d, c, w) ==>
      var r, text, m := Apply(d, c, w).value, Trim(c.text), w.message.value;
      var state := if Explicit(m.text) == text then Active else Pending;
      var activated := if Explicit(m.text) == text then Some(c.key) else None;
      && r == d.(entries := r.entries)
      && if Hits(d, c) then
           var e := d.entries[i];
           BecameAt(d.entries, r.entries, i, Entry(e.id, e.key, text, state, w.now, e.digest, c.files), activated)
         else
           JoinedBy(d.entries, r.entries, Entry(w.newID, c.key, text, state, w.now, m.digest, c.files), activated)
  {
    if w.message.Some? {
      var m := w.message.value;
      StoreIs(d, c, Trim(c.text), if Explicit(m.text) == Trim(c.text) then Active else Pending, m.digest, w, i);
    }
  }

  // ---- Texts ------------------------------------------------------------------------------------

  /** The first word of a text, if it does not begin with a space. */
  function Word(s: string): string {
    if s == "" || Space(s[0]) then "" else [s[0]] + Word(s[1..])
  }

  lemma {:induction false} WordIsPrefix(s: string)
    ensures |Word(s)| <= |s| && Word(s) == s[..|Word(s)|]
    ensures s != "" && !Space(s[0]) ==> |Word(s)| > 0
  {
    if s != "" && !Space(s[0]) {
      WordIsPrefix(s[1..]);
    }
  }

  /** The words of a text. */
  function Words(s: string): seq<string>
    decreases |s|
  {
    if s == "" then []
    else if Space(s[0]) then Words(s[1..])
    else
      WordIsPrefix(s);
      [Word(s)] + Words(s[|Word(s)|..])
  }

  function Joined(words: seq<string>): string {
    if words == [] then "" else words[0] + Further(words[1..])
  }

  /** Each after a space. */
  function Further(words: seq<string>): string {
    if words == [] then "" else " " + (words[0] + Further(words[1..]))
  }

  lemma {:induction false} WordsOfMore(c: char, s: string)
    requires !Space(c)
    ensures Words([c] + s) == if s == "" || Space(s[0]) then [[c]] + Words(s) else [[c] + Words(s)[0]] + Words(s)[1..]
  {
    var more := [c] + s;
    assert more[1..] == s && Word(more) == [c] + Word(s);
    WordIsPrefix(s);
    WordIsPrefix(more);
    assert more[|Word(more)|..] == s[|Word(s)|..];
  }

  lemma {:induction false} SpaceAtTheEnd(s: string, c: char)
    requires Space(c)
    ensures Words(s + [c]) == Words(s)
  {
    if s == "" {
      assert s + [c] == [c] && Words([c][1..]) == [];
    } else {
      assert (s + [c])[1..] == s[1..] + [c] && s == [s[0]] + s[1..] && s + [c] == [s[0]] + (s[1..] + [c]);
      SpaceAtTheEnd(s[1..], c);
      if !Space(s[0]) {
        WordsOfMore(s[0], s[1..]);
        WordsOfMore(s[0], s[1..] + [c]);
      }
    }
  }

  lemma {:induction false} WordsOfLeft(s: string)
    ensures Words(TrimLeft(s)) == Words(s)
  {
    if s != "" && Space(s[0]) {
      WordsOfLeft(s[1..]);
    }
  }

  lemma {:induction false} WordsOfRight(s: string)
    ensures Words(TrimRight(s)) == Words(s)
    ensures TrimRight(s) != "" ==> !Space(TrimRight(s)[|TrimRight(s)| - 1])
    ensures TrimRight(s) != "" ==> s != "" && TrimRight(s)[0] == s[0]
  {
    if s != "" && Space(s[|s| - 1]) {
      WordsOfRight(s[..|s| - 1]);
      SpaceAtTheEnd(s[..|s| - 1], s[|s| - 1]);
      assert s == s[..|s| - 1] + [s[|s| - 1]];
    }
  }

  lemma {:induction false} LeftHasNoSpace(s: string)
    ensures TrimLeft(s) != "" ==> !Space(TrimLeft(s)[0])
  {
    if s != "" && Space(s[0]) {
      LeftHasNoSpace(s[1..]);
    }
  }

  lemma {:induction false} SomeWord(s: string)
    requires s != "" && !Space(s[|s| - 1])
    ensures Words(s) != []
  {
    if Space(s[0]) {
      SomeWord(s[1..]);
    }
  }

  /** Squeezed, a text is its joined words, after a space if it begins with one. */
  predicate Squeezes(s: string)
    requires s != ""
  {
    Squeeze(s) == (if Space(s[0]) then " " + Joined(Words(s)) else Joined(Words(s)))
  }

  lemma {:induction false} SqueezeJoins(s: string)
    requires s != "" && !Space(s[|s| - 1])
    ensures Squeezes(s)
  {
    if |s| == 1 {
      WordsOfMore(s[0], "");
      assert s == [s[0]] + "" && s[1..] == "";
    } else {
      SqueezeJoins(s[1..]);
      if Space(s[0]) {
        SqueezesSpace(s);
      } else {
        SomeWord(s[1..]);
        SqueezesLetter(s);
      }
    }
  }

  lemma SqueezesSpace(s: string)
    requires |s| > 1 && Space(s[0]) && Squeezes(s[1..])
    ensures Squeezes(s)
  {
  }

  lemma SqueezesLetter(s: string)
    requires |s| > 1 && !Space(s[0]) && Squeezes(s[1..]) && Words(s[1..]) != []
    ensures Squeezes(s)
  {
    assert s == [s[0]] + s[1..];
    WordsOfMore(s[0], s[1..]);
    JoinedMore(s[0], Words(s[1..]));
  }

  /** A letter before joined words is a word of its own or begins the first. */
  lemma JoinedMore(c: char, words: seq<string>)
    requires words != []
    ensures Joined([[c]] + words) == [c] + (" " + Joined(words))
    ensures Joined([[c] + words[0]] + words[1..]) == [c] + Joined(words)
  {
    var first, rest := words[0], Further(words[1..]);
    assert ([[c]] + words)[1..] == words && Further(words) == " " + (first + rest);
    assert ([[c] + first] + words[1..])[1..] == words[1..];
    assert ([c] + first) + rest == [c] + (first + rest);
  }

  /** What is digested of a text: its words in lower case, one space apart. */
  lemma HashIsWords(s: string)
    ensures Hash(s) == Joined(Words(Lower(s)))
  {
    var u := TrimLeft(Lower(s));
    WordsOfLeft(Lower(s));
    WordsOfRight(u);
    LeftHasNoSpace(Lower(s));
    if TrimRight(u) != "" {
      SqueezeJoins(TrimRight(u));
    }
  }

  lemma {:induction false} CommandAt(s: string, j: nat, k: nat)
    requires j <= k < |COMMANDS| && StartsWith(Lower(Trim(s)), COMMANDS[k]) && |COMMANDS[k]| <= |Trim(s)|
    requires forall i :: j <= i < k ==> !StartsWith(Lower(Trim(s)), COMMANDS[i])
    ensures Command(s, j) == Trim(Trim(s)[|COMMANDS[k]|..])
    decreases k - j
  {
    if j < k {
      CommandAt(s, j + 1, k);
    }
  }

  /** No text begins with two of the commands. */
  lemma OneCommand(s: string, j: nat, k: nat)
    requires j < |COMMANDS| && k < |COMMANDS| && StartsWith(s, COMMANDS[j]) && StartsWith(s, COMMANDS[k])
    ensures j == k
  {
    assert s[0] == COMMANDS[j][0] == COMMANDS[k][0];
    assert s[8] == COMMANDS[j][8] == COMMANDS[k][8];
    if j in {1, 2} && k in {1, 2} {
      assert s[11] == COMMANDS[j][11] == COMMANDS[k][11];
    }
  }

  /** A text that begins with a command, in any case, asks to remember what follows ... */
  lemma CommandsAsk(s: string, k: nat)
    requires k < |COMMANDS| && StartsWith(Lower(Trim(s)), COMMANDS[k])
    ensures |COMMANDS[k]| <= |Trim(s)| && Explicit(s) == Trim(Trim(s)[|COMMANDS[k]|..])
  {
    LowerAt(Trim(s));
    forall i | 0 <= i < k ensures !StartsWith(Lower(Trim(s)), COMMANDS[i]) {
      if StartsWith(Lower(Trim(s)), COMMANDS[i]) {
        OneCommand(Lower(Trim(s)), i, k);
      }
    }
    CommandAt(s, 0, k);
  }

  /** ... and nothing else does. */
  lemma OnlyCommandsAsk(s: string)
    requires forall k :: 0 <= k < |COMMANDS| ==> !StartsWith(Lower(Trim(s)), COMMANDS[k])
    ensures Explicit(s) == ""
  {
  }
}
