/**
  The recognizer of unambiguous JSON (internal/desk/ai_connections.go, `uniqueJSON`):
  a recursive walk over the tokens of a decoder. It accepts exactly the tokens of one
  value (RFC 8259) in which no object repeats a name (section 4) and nothing lies
  deeper than 32 (`AcceptsExactly`).

  A decoder's tokens are what it would still return; after them it reports either the
  end of the input or an error.
*/
module UniqueJson {
  import opened Prelude

  datatype Token = OpenObject | CloseObject | OpenArray | CloseArray | Name(text: string) | Plain(n: nat)

  /** A JSON value. `Text` is a string, `Scalar` any other that is no object and no array. */
  datatype Json = Scalar(n: nat) | Text(text: string) | Object(members: Members) | Array(items: Items)
  datatype Members = NoMembers | Member(name: string, value: Json, rest: Members)
  datatype Items = NoItems | Item(value: Json, rest: Items)

  const DEPTH := 32

  // ---- Values and their tokens --------------------------------------------------------

  function Tokens(j: Json): seq<Token> {
    match j
    case Scalar(n) => [Plain(n)]
    case Text(s) => [Name(s)]
    case Object(m) => [OpenObject] + MemberTokens(m)
    case Array(i) => [OpenArray] + ItemTokens(i)
  }

  function MemberTokens(m: Members): seq<Token> {
    match m
    case NoMembers => [CloseObject]
    case Member(s, v, rest) => [Name(s)] + (Tokens(v) + MemberTokens(rest))
  }

  function ItemTokens(i: Items): seq<Token> {
    match i
    case NoItems => [CloseArray]
    case Item(v, rest) => Tokens(v) + ItemTokens(rest)
  }

  function Max(a: nat, b: nat): nat {
    if a < b then b else a
  }

  /** How many levels lie below a value. */
  function Height(j: Json): nat {
    match j
    case Scalar(_) => 0
    case Text(_) => 0
    case Object(m) => MembersHeight(m)
    case Array(i) => ItemsHeight(i)
  }

  function MembersHeight(m: Members): nat {
    match m
    case NoMembers => 0
    case Member(_, v, rest) => Max(1 + Height(v), MembersHeight(rest))
  }

  function ItemsHeight(i: Items): nat {
    match i
    case NoItems => 0
    case Item(v, rest) => Max(1 + Height(v), ItemsHeight(rest))
  }

  function Names(m: Members): set<string> {
    match m
    case NoMembers => {}
    case Member(s, _, rest) => {s} + Names(rest)
  }

  /** No object at any depth repeats a name. */
  predicate Unique(j: Json) {
    match j
    case Scalar(_) => true
    case Text(_) => true
    case Object(m) => UniqueMembers(m)
    case Array(i) => UniqueItems(i)
  }

  predicate UniqueMembers(m: Members) {
    match m
    case NoMembers => true
    case Member(s, v, rest) => s !in Names(rest) && Unique(v) && UniqueMembers(rest)
  }

  predicate UniqueItems(i: Items) {
    match i
    case NoItems => true
    case Item(v, rest) => Unique(v) && UniqueItems(rest)
  }

  // ---- What the walk makes of tokens ------------------------------------------------------

  datatype Parsed<T> = Failed | Parsed(value: T, rest: seq<Token>)

  function Value(ts: seq<Token>, depth: nat): (p: Parsed<Json>)
    ensures p.Parsed? ==> |p.rest| < |ts|
    decreases |ts|, 1
  {
    if depth > DEPTH || ts == [] then Failed
    else
      match ts[0]
      case Plain(n) => Parsed(Scalar(n), ts[1..])
      case Name(s) => Parsed(Text(s), ts[1..])
      case OpenObject =>
        (match Object(ts[1..], depth, {}) case Failed => Failed case Parsed(m, rest) => Parsed(Json.Object(m), rest))
      case OpenArray =>
        (match Array(ts[1..], depth) case Failed => Failed case Parsed(i, rest) => Parsed(Json.Array(i), rest))
      case _ => Failed
  }

  function Object(ts: seq<Token>, depth: nat, seen: set<string>): (p: Parsed<Members>)
    ensures p.Parsed? ==> |p.rest| < |ts|
    decreases |ts|, 2
  {
    if ts == [] then Failed
    else if ts[0] == CloseObject then Parsed(NoMembers, ts[1..])
    else if !ts[0].Name? || ts[0].text in seen then Failed
    else
      var v := Value(ts[1..], depth + 1);
      if v.Failed? then Failed
      else
        match Object(v.rest, depth, seen + {ts[0].text})
        case Failed => Failed
        case Parsed(m, rest) => Parsed(Member(ts[0].text, v.value, m), rest)
  }

  function Array(ts: seq<Token>, depth: nat): (p: Parsed<Items>)
    ensures p.Parsed? ==> |p.rest| < |ts|
    decreases |ts|, 2
  {
    if ts == [] then Failed
    else if ts[0] == CloseArray then Parsed(NoItems, ts[1..])
    else
      var v := Value(ts, depth + 1);
      if v.Failed? then Failed
      else
        match Array(v.rest, depth)
        case Failed => Failed
        case Parsed(i, rest) => Parsed(Item(v.value, i), rest)
  }

  // ---- Nothing else is accepted ---------------------------------------------------------------

  lemma {:induction false} ValueIsSound(ts: seq<Token>, depth: nat)
    requires Value(ts, depth).Parsed?
    ensures var p := Value(ts, depth);
      ts == Tokens(p.value) + p.rest && Unique(p.value) && depth + Height(p.value) <= DEPTH
    decreases |ts|, 1
  {
    match ts[0]
    case OpenObject => ObjectIsSound(ts[1..], depth, {});
    case OpenArray => ArrayIsSound(ts[1..], depth);
    case _ =>
  }

  lemma {:induction false} ObjectIsSound(ts: seq<Token>, depth: nat, seen: set<string>)
    requires Object(ts, depth, seen).Parsed? && depth <= DEPTH
    ensures var p := Object(ts, depth, seen);
      && ts == MemberTokens(p.value) + p.rest && UniqueMembers(p.value) && Names(p.value) !! seen
      && depth + MembersHeight(p.value) <= DEPTH
    decreases |ts|, 2
  {
    if ts[0] != CloseObject {
      var v := Value(ts[1..], depth + 1);
      ValueIsSound(ts[1..], depth + 1);
      ObjectIsSound(v.rest, depth, seen + {ts[0].text});
      var m := Object(v.rest, depth, seen + {ts[0].text});
      Rejoins(ts[0], Tokens(v.value), MemberTokens(m.value), m.rest);
      assert ts == [ts[0]] + ts[1..];
    }
  }

  lemma Rejoins(t: Token, a: seq<Token>, b: seq<Token>, c: seq<Token>)
    ensures [t] + (a + (b + c)) == ([t] + (a + b)) + c
  {
  }

  lemma {:induction false} ArrayIsSound(ts: seq<Token>, depth: nat)
    requires Array(ts, depth).Parsed? && depth <= DEPTH
    ensures var p := Array(ts, depth);
      ts == ItemTokens(p.value) + p.rest && UniqueItems(p.value) && depth + ItemsHeight(p.value) <= DEPTH
    decreases |ts|, 2
  {
    if ts[0] != CloseArray {
      var v := Value(ts, depth + 1);
      ValueIsSound(ts, depth + 1);
      ArrayIsSound(v.rest, depth);
    }
  }

  // ---- All of that is accepted -------------------------------------------------------------------

  lemma {:induction false} ValueIsComplete(j: Json, rest: seq<Token>, depth: nat)
    requires Unique(j) && depth + Height(j) <= DEPTH
    ensures Value(Tokens(j) + rest, depth) == Parsed(j, rest)
    decreases j
  {
    var ts := Tokens(j) + rest;
    match j
    case Object(m) =>
      assert ts[1..] == MemberTokens(m) + rest;
      ObjectIsComplete(m, rest, depth, {});
    case Array(i) =>
      assert ts[1..] == ItemTokens(i) + rest;
      ArrayIsComplete(i, rest, depth);
    case _ => assert ts[1..] == rest;
  }

  lemma {:induction false} ObjectIsComplete(m: Members, rest: seq<Token>, depth: nat, seen: set<string>)
    requires UniqueMembers(m) && Names(m) !! seen && depth + MembersHeight(m) <= DEPTH
    ensures Object(MemberTokens(m) + rest, depth, seen) == Parsed(m, rest)
    decreases m
  {
    var ts := MemberTokens(m) + rest;
    match m
    case NoMembers => assert ts[1..] == rest;
    case Member(s, v, more) =>
      assert ts[1..] == Tokens(v) + (MemberTokens(more) + rest);
      ValueIsComplete(v, MemberTokens(more) + rest, depth + 1);
      ObjectIsComplete(more, rest, depth, seen + {s});
  }

  lemma {:induction false} ArrayIsComplete(i: Items, rest: seq<Token>, depth: nat)
    requires UniqueItems(i) && depth + ItemsHeight(i) <= DEPTH
    ensures Array(ItemTokens(i) + rest, depth) == Parsed(i, rest)
    decreases i
  {
    var ts := ItemTokens(i) + rest;
    match i
    case NoItems => assert ts[1..] == rest;
    case Item(v, more) =>
      assert ts == Tokens(v) + (ItemTokens(more) + rest);
      assert Tokens(v)[0] != CloseArray;
      ValueIsComplete(v, ItemTokens(more) + rest, depth + 1);
      ArrayIsComplete(more, rest, depth);
  }

  /** One value, unambiguous and not too deep, and then the end. */
  lemma {:induction false} AcceptsExactly(ts: seq<Token>)
    ensures Value(ts, 0).Parsed? && Value(ts, 0).rest == []
      <==> exists j :: Tokens(j) == ts && Unique(j) && Height(j) <= DEPTH
  {
    if Value(ts, 0).Parsed? && Value(ts, 0).rest == [] {
      ValueIsSound(ts, 0);
      assert Tokens(Value(ts, 0).value) == ts;
    }
    if j :| Tokens(j) == ts && Unique(j) && Height(j) <= DEPTH {
      ValueIsComplete(j, [], 0);
      assert ts + [] == ts;
    }
  }

  // ---- The code -----------------------------------------------------------------------------------

  /** The decoder: its tokens, and whether it ends in an error instead of the end. */
  class Decoder {
    var tokens: seq<Token>
    const broken: bool

    constructor (tokens: seq<Token>, broken: bool)
      ensures this.tokens == tokens && this.broken == broken
    {
      this.tokens, this.broken := tokens, broken;
    }

    /** `Token`, or nothing at an error or the end. */
    method Next() returns (t: Option<Token>)
      modifies this
      ensures old(tokens) == [] ==> t == None && tokens == []
      ensures old(tokens) != [] ==> t == Some(old(tokens)[0]) && tokens == old(tokens)[1..]
    {
      if tokens == [] {
        return None;
      }
      t := Some(tokens[0]);
      tokens := tokens[1..];
    }

    /** `More`. Before an error it may say anything. */
    method More() returns (more: bool)
      ensures tokens != [] ==> (more <==> tokens[0] != CloseObject && tokens[0] != CloseArray)
    {
      if tokens == [] {
        more := *;
      } else {
        more := tokens[0] != CloseObject && tokens[0] != CloseArray;
      }
    }
  }

  method Walk(d: Decoder, depth: nat) returns (ok: bool)
    modifies d
    ensures ok <==> Value(old(d.tokens), depth).Parsed?
    ensures ok ==> d.tokens == Value(old(d.tokens), depth).rest
    decreases |d.tokens|, 1
  {
    if depth > DEPTH {
      return false;
    }
    var t := d.Next();
    if t == None {
      return false;
    }
    match t.value
    case OpenObject => ok := WalkObject(d, depth);
    case OpenArray => ok := WalkArray(d, depth);
    case Plain(_) => ok := true;
    case Name(_) => ok := true;
    case _ => ok := false;
  }

  method WalkObject(d: Decoder, depth: nat) returns (ok: bool)
    modifies d
    ensures ok <==> Object(old(d.tokens), depth, {}).Parsed?
    ensures ok ==> d.tokens == Object(old(d.tokens), depth, {}).rest
    decreases |d.tokens|, 2
  {
    var seen: set<string> := {};
    ghost var start := d.tokens;
    var more := d.More();
    while more
      invariant |d.tokens| <= |start|
      invariant d.tokens != [] ==> (more <==> d.tokens[0] != CloseObject && d.tokens[0] != CloseArray)
      invariant Object(start, depth, {}).Parsed? <==> Object(d.tokens, depth, seen).Parsed?
      invariant Object(d.tokens, depth, seen).Parsed? ==> Object(start, depth, {}).rest == Object(d.tokens, depth, seen).rest
      decreases |d.tokens|
    {
      ghost var before := d.tokens;
      var k := d.Next();
      if k == None || !k.value.Name? || k.value.text in seen {
        return false;
      }
      seen := seen + {k.value.text};
      ok := Walk(d, depth + 1);
      if !ok {
        return false;
      }
      more := d.More();
    }
    var end := d.Next();
    ok := end == Some(CloseObject);
  }

  method WalkArray(d: Decoder, depth: nat) returns (ok: bool)
    modifies d
    ensures ok <==> Array(old(d.tokens), depth).Parsed?
    ensures ok ==> d.tokens == Array(old(d.tokens), depth).rest
    decreases |d.tokens|, 2
  {
    ghost var start := d.tokens;
    var more := d.More();
    while more
      invariant |d.tokens| <= |start|
      invariant d.tokens != [] ==> (more <==> d.tokens[0] != CloseObject && d.tokens[0] != CloseArray)
      invariant Array(start, depth).Parsed? <==> Array(d.tokens, depth).Parsed?
      invariant Array(d.tokens, depth).Parsed? ==> Array(start, depth).rest == Array(d.tokens, depth).rest
      decreases |d.tokens|
    {
      ok := Walk(d, depth + 1);
      if !ok {
        return false;
      }
      more := d.More();
    }
    var end := d.Next();
    ok := end == Some(CloseArray);
  }

  method UniqueJSON(tokens: seq<Token>, broken: bool) returns (ok: bool)
    ensures ok <==> !broken && exists j :: Tokens(j) == tokens && Unique(j) && Height(j) <= DEPTH
  {
    var d := new Decoder(tokens, broken);
    ok := Walk(d, 0);
    AcceptsExactly(tokens);
    ok := ok && d.tokens == [] && !d.broken;
  }
}
