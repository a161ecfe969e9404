/**
  Release versions (scripts/desk-update.py, `semver`): an optional v and three
  numbers without leading zeros, compared number by number, which for versions
  without a pre-release part is precedence under section 11 of SemVer 2.0.0.

  Printing and parsing are inverse on ASCII text. The source's digit class takes
  every Unicode decimal digit after the first, so some other text parses too.
*/
module SemVer {
  import opened Prelude

  datatype Version = Version(major: nat, minor: nat, patch: nat)

  /** The Unicode decimal digits beyond ASCII, with their values. */
  type Digits = map<char, nat>

  predicate Decimal(digits: Digits) {
    forall c :: c in digits ==> digits[c] < 10 && !('0' <= c <= '9') && c != '.' && c != 'v'
  }

  predicate Ascii(c: char) {
    '0' <= c <= '9'
  }

  predicate IsDigit(c: char, digits: Digits) {
    Ascii(c) || c in digits
  }

  function Value(c: char, digits: Digits): nat
    requires IsDigit(c, digits)
  {
    if Ascii(c) then c as nat - '0' as nat else digits[c]
  }

  function Number(s: string, digits: Digits): nat
    requires forall c :: c in s ==> IsDigit(c, digits)
  {
    if s == [] then 0 else 10 * Number(s[..|s| - 1], digits) + Value(s[|s| - 1], digits)
  }

  /** `0|[1-9]\d*` */
  predicate Numeral(s: string, digits: Digits) {
    s == "0" || (s != "" && '1' <= s[0] <= '9' && forall c :: c in s ==> IsDigit(c, digits))
  }

  /** Where the first dot is, or the length. */
  function Dot(s: string): (n: nat)
    ensures n <= |s| && (n < |s| ==> s[n] == '.') && forall k :: 0 <= k < n ==> s[k] != '.'
  {
    if s == "" || s[0] == '.' then 0 else 1 + Dot(s[1..])
  }

  datatype Fields = Fields(a: string, b: string, c: string)

  function Split(s: string): Option<Fields> {
    var i := Dot(s);
    if i == |s| then None
    else
      var t := s[i + 1..];
      var j := Dot(t);
      if j == |t| then None else Some(Fields(s[..i], t[..j], t[j + 1..]))
  }

  function Join(f: Fields): string {
    f.a + "." + (f.b + "." + f.c)
  }

  predicate Numerals(f: Fields, digits: Digits) {
    Numeral(f.a, digits) && Numeral(f.b, digits) && Numeral(f.c, digits)
  }

  function Numbers(f: Fields, digits: Digits): Version
    requires Numerals(f, digits)
  {
    Version(Number(f.a, digits), Number(f.b, digits), Number(f.c, digits))
  }

  function Parse(text: string, digits: Digits): Option<Version> {
    var f := Split(if text != "" && text[0] == 'v' then text[1..] else text);
    if f.Some? && Numerals(f.value, digits) then Some(Numbers(f.value, digits)) else None
  }

  // ---- Precedence -----------------------------------------------------------------

  predicate Newer(a: Version, b: Version) {
    || a.major > b.major
    || (a.major == b.major && a.minor > b.minor)
    || (a.major == b.major && a.minor == b.minor && a.patch > b.patch)
  }

  /** Of two versions either is newer, unless they are the same ... */
  lemma OneIsNewer(a: Version, b: Version)
    ensures Newer(a, b) <==> a != b && !Newer(b, a)
  {
  }

  /** ... each number counts if those before it agree, whatever follows it. */
  lemma NumbersCountInTurn(v: Version, more: nat, x: nat, y: nat)
    requires more > 0
    ensures Newer(Version(v.major + more, x, y), v)
    ensures Newer(Version(v.major, v.minor + more, y), v)
    ensures Newer(Version(v.major, v.minor, v.patch + more), v)
  {
  }

  // ---- Printing --------------------------------------------------------------------

  function Print(n: nat): string {
    if n < 10 then [('0' as nat + n) as char] else Print(n / 10) + [('0' as nat + n % 10) as char]
  }

  function Printed(v: Version): Fields {
    Fields(Print(v.major), Print(v.minor), Print(v.patch))
  }

  function Show(v: Version): string {
    Join(Printed(v))
  }

  lemma {:induction false} PrintIsNumeral(n: nat, digits: Digits)
    ensures Numeral(Print(n), digits) && (n > 0 ==> Print(n) != "0") && forall c :: c in Print(n) ==> Ascii(c)
    ensures Number(Print(n), digits) == n
  {
    if n >= 10 {
      PrintIsNumeral(n / 10, digits);
      var s, last := Print(n / 10), ('0' as nat + n % 10) as char;
      assert (s + [last])[..|s|] == s;
    }
  }

  /** A numeral of ASCII digits is the number's own print. */
  lemma {:induction false} NumeralIsPrint(s: string, digits: Digits)
    requires Numeral(s, digits) && forall c :: c in s ==> Ascii(c)
    ensures Print(Number(s, digits)) == s && (s != "0" ==> Number(s, digits) > 0)
  {
    var n := |s| - 1;
    if n == 0 {
      SingleDigit(s[0], digits);
      assert s == [s[0]] && s[..0] == "";
    } else {
      NumeralFront(s, digits);
      NumeralIsPrint(s[..n], digits);
      OneDigitMore(Number(s[..n], digits), s[n], digits);
      assert s == s[..n] + [s[n]];
    }
  }

  lemma NumeralFront(s: string, digits: Digits)
    requires Numeral(s, digits) && |s| > 1 && forall c :: c in s ==> Ascii(c)
    ensures var front := s[..|s| - 1]; Numeral(front, digits) && front != "0" && forall c :: c in front ==> Ascii(c)
  {
    var front := s[..|s| - 1];
    assert front[0] == s[0] && forall c :: c in front ==> c in s;
  }

  lemma SingleDigit(c: char, digits: Digits)
    requires Ascii(c)
    ensures Print(Value(c, digits)) == [c] && (c != '0' ==> Value(c, digits) > 0)
  {
  }

  lemma OneDigitMore(m: nat, c: char, digits: Digits)
    requires Ascii(c) && m > 0
    ensures Print(10 * m + Value(c, digits)) == Print(m) + [c]
  {
    var n := 10 * m + Value(c, digits);
    assert n / 10 == m && n % 10 == Value(c, digits);
  }

  // ---- Round trips -----------------------------------------------------------------

  predicate Dotless(s: string) {
    forall c :: c in s ==> c != '.'
  }

  lemma {:induction false} DotIsHere(a: string, rest: string)
    requires Dotless(a)
    ensures Dot(a + "." + rest) == |a|
  {
    if a != "" {
      assert forall c :: c in a[1..] ==> c in a;
      DotIsHere(a[1..], rest);
      assert (a + "." + rest)[1..] == a[1..] + "." + rest;
      assert a[0] in a;
    }
  }

  lemma {:induction false} SplitsWhatItJoins(f: Fields)
    requires Dotless(f.a) && Dotless(f.b)
    ensures Split(Join(f)) == Some(f)
  {
    var t := f.b + "." + f.c;
    DotIsHere(f.a, t);
    DotIsHere(f.b, f.c);
    assert Join(f)[..|f.a|] == f.a && Join(f)[|f.a| + 1..] == t;
    assert t[..|f.b|] == f.b && t[|f.b| + 1..] == f.c;
  }

  lemma {:induction false} JoinsWhatItSplits(s: string)
    requires Split(s).Some?
    ensures Join(Split(s).value) == s
  {
    var t := s[Dot(s) + 1..];
    CutAtDot(s, Dot(s));
    CutAtDot(t, Dot(t));
  }

  lemma CutAtDot(s: string, i: nat)
    requires i < |s| && s[i] == '.'
    ensures s == s[..i] + ("." + s[i + 1..]) == s[..i] + "." + s[i + 1..]
  {
  }

  /** Every version is read back from its text. */
  lemma {:induction false} ParsesWhatItShows(v: Version, digits: Digits)
    requires Decimal(digits)
    ensures Parse(Show(v), digits) == Some(v)
  {
    PrintIsDigits(v.major, digits);
    PrintIsDigits(v.minor, digits);
    PrintIsDigits(v.patch, digits);
    SplitsWhatItJoins(Printed(v));
    assert Show(v)[0] == Print(v.major)[0] && Print(v.major)[0] in Print(v.major);
  }

  lemma PrintIsDigits(n: nat, digits: Digits)
    ensures Numeral(Print(n), digits) && Number(Print(n), digits) == n
    ensures Print(n) != "" && Dotless(Print(n)) && Print(n)[0] != 'v'
  {
    PrintIsNumeral(n, digits);
    assert Print(n)[0] in Print(n);
  }

  /** ASCII text without a v that parses is the text of the version it parses to; so
      two such texts of the same precedence are the same text, and name one directory. */
  lemma {:induction false} ShowsWhatItParses(s: string, digits: Digits)
    requires Parse(s, digits).Some? && s[0] != 'v' && forall c :: c in s ==> c !in digits
    ensures Show(Parse(s, digits).value) == s
  {
    JoinsWhatItSplits(s);
    var f := Split(s).value;
    PartsOf(f);
    NumeralIsPrint(f.a, digits);
    NumeralIsPrint(f.b, digits);
    NumeralIsPrint(f.c, digits);
  }

  lemma PartsOf(f: Fields)
    ensures forall x :: x in f.a || x in f.b || x in f.c ==> x in Join(f)
  {
    assert forall x :: x in f.b + "." + f.c <==> x in f.b || x == '.' || x in f.c;
  }

  /** With any other digit there are two texts, two directories, for one version. */
  lemma {:induction false} OtherDigitsAreAmbiguous(d: char, digits: Digits)
    requires Decimal(digits) && d in digits
    ensures var s := Join(Fields(['1', d], "0", "0"));
      Parse(s, digits).Some? && Show(Parse(s, digits).value) != s
      && Parse(Show(Parse(s, digits).value), digits) == Parse(s, digits)
  {
    var f := Fields(['1', d], "0", "0");
    SplitsWhatItJoins(f);
    assert Join(f)[0] == '1';
    var v := Numbers(f, digits);
    ParsesWhatItShows(v, digits);
    PrintIsNumeral(v.major, digits);
    assert f.a[1] in f.a && !Ascii(f.a[1]);
    PrintIsNumeral(v.minor, digits);
    if Join(Printed(v)) == Join(f) {
      JoinIsInjective(Printed(v), f);
    }
  }

  lemma {:induction false} JoinIsInjective(f: Fields, g: Fields)
    requires Dotless(f.a) && Dotless(f.b) && Dotless(g.a) && Dotless(g.b) && Join(f) == Join(g)
    ensures f == g
  {
    SplitsWhatItJoins(f);
    SplitsWhatItJoins(g);
  }
}
