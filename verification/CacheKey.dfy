/** The text a search is cached under: the query, an underscore, and the filters as JSON with sorted keys. The text is
    hashed before use; the hash is taken to be injective and is not modelled. */
module CacheKey {
  import opened Common
  import opened SearchQuery

  // ----- JSON text, as Python prints it with ASCII output -----

  function Digit(n: nat): (c: char)
    requires n < 16
    ensures '0' <= c <= '9' || 'a' <= c <= 'f'
  {
    "0123456789abcdef"[n]
  }

  function Hex4(n: nat): (s: string)
    requires n < 0x10000
    ensures |s| == 4 && '{' !in s
  {
    var a := n / 16;
    var b := a / 16;
    [Digit(b / 16), Digit(b % 16), Digit(a % 16), Digit(n % 16)]
  }

  /** The letter after the backslash, for the characters that have a short escape. */
  function ShortEscape(c: char): Option<char> {
    match c
    case '\"' => Some('\"')
    case '\\' => Some('\\')
    case '\n' => Some('n')
    case '\r' => Some('r')
    case '\t' => Some('t')
    case '\U{0c}' => Some('f')
    case '\U{08}' => Some('b')
    case _ => None
  }

  predicate Plain(c: char) {
    ' ' <= c <= '~' && ShortEscape(c).None?
  }

  /** The first 16-bit unit of the character in UTF-16. */
  function FirstUnit(c: char): (n: nat)
    ensures n < 0x10000
  {
    if c as int < 0x10000 then c as int else 0xd800 + (c as int - 0x10000) / 0x400
  }

  function SecondUnit(c: char): (n: nat)
    requires c as int >= 0x10000
    ensures n < 0x10000
  {
    0xdc00 + (c as int - 0x10000) % 0x400
  }

  function Unit(n: nat): (s: string)
    requires n < 0x10000
    ensures |s| == 6 && s[0] == '\\' && s[1] == 'u' && '{' !in s
  {
    "\\u" + Hex4(n)
  }

  function UnicodeEscape(c: char): (s: string)
    ensures |s| >= 6 && s[0] == '\\' && s[1] == 'u' && '{' !in s
  {
    Unit(FirstUnit(c)) + SurrogateTail(c)
  }

  /** The second half of a surrogate pair, for a character beyond 16 bits. */
  function SurrogateTail(c: char): (s: string)
    ensures '{' !in s
  {
    if c as int < 0x10000 then "" else Unit(SecondUnit(c))
  }

  function EscapeChar(c: char): (s: string)
    ensures s != "" && s[0] != '\"'
    ensures '{' in s ==> s == "{"
  {
    if ShortEscape(c).Some? then ['\\', ShortEscape(c).value]
    else if Plain(c) then [c]
    else UnicodeEscape(c)
  }

  function Escape(s: string): string {
    if s == "" then "" else EscapeChar(s[0]) + Escape(s[1..])
  }

  /** A string literal and what follows it. */
  function Literal(s: string, rest: string): string {
    "\"" + (Escape(s) + ("\"" + rest))
  }

  function Decimal(n: nat): (s: string)
    ensures s != "" && forall i :: 0 <= i < |s| ==> '0' <= s[i] <= '9'
  {
    if n < 10 then [Digit(n)] else Decimal(n / 10) + [Digit(n % 10)]
  }

  predicate NumberChar(c: char) {
    '0' <= c <= '9' || c == '.' || c == '-' || c == '+' || c == 'e'
  }

  /** The text of a number. A float is identified with its shortest decimal text, which determines it. */
  type Numeral = s: string | s != "" && forall i :: 0 <= i < |s| ==> NumberChar(s[i]) witness "0"

  datatype Value = Null | Boolean(b: bool) | Number(text: Numeral) | Strings(items: seq<string>)

  function PrintItems(items: seq<string>, rest: string): string
    requires items != []
  {
    Literal(items[0], if |items| == 1 then "]" + rest else ", " + PrintItems(items[1..], rest))
  }

  function PrintValue(v: Value, rest: string): string {
    match v
    case Null => "null" + rest
    case Boolean(b) => (if b then "true" else "false") + rest
    case Number(text) => text + rest
    case Strings(items) => if items == [] then "[]" + rest else "[" + PrintItems(items, rest)
  }

  datatype Field = Field(name: string, value: Value)

  function PrintFields(fields: seq<Field>): string
    requires fields != []
  {
    Literal(fields[0].name,
            ": " + PrintValue(fields[0].value, if |fields| == 1 then "}" else ", " + PrintFields(fields[1..])))
  }

  function PrintObject(fields: seq<Field>): string
    requires fields != []
  {
    "{" + PrintFields(fields)
  }

  // ----- The key -----

  /** How a rating prints: a float prints as the shortest decimal text that reads back as it. Only the floats among the
      reals are printed, so it is of them alone that the text can be asked to tell them apart. */
  type Printer = real -> Numeral

  ghost predicate ReadsBack(show: Printer, xs: set<real>) {
    forall x, y :: x in xs && y in xs && show(x) == show(y) ==> x == y
  }

  function Given(o: Option<real>): set<real> {
    if o.None? then {} else {o.value}
  }

  /** The ratings a request prints. */
  function Ratings(r: Request): set<real> {
    Given(r.ratingFrom) + Given(r.ratingTo)
  }

  /** `query or ""`. */
  function TextOf(query: Option<string>): string {
    if query.None? then "" else query.value
  }

  function OfStrings(o: Option<seq<string>>): Value {
    if o.None? then Null else Strings(o.value)
  }

  function OfNat(o: Option<nat>): Value {
    if o.None? then Null else Number(Decimal(o.value))
  }

  function OfReal(o: Option<real>, show: Printer): Value {
    if o.None? then Null else Number(show(o.value))
  }

  /** The filters as JSON fields, in alphabetical order. */
  function FieldsOf(r: Request, show: Printer): seq<Field> {
    [Field("age_rating", OfStrings(r.ageRating)), Field("genres", OfStrings(r.genres)),
     Field("page", Number(Decimal(r.page))), Field("published_only", Boolean(r.publishedOnly)),
     Field("rating_from", OfReal(r.ratingFrom, show)), Field("rating_to", OfReal(r.ratingTo, show)),
     Field("size", Number(Decimal(r.size))), Field("year_from", OfNat(r.yearFrom)), Field("year_to", OfNat(r.yearTo))]
  }

  /** Lexicographic order. */
  ghost predicate Before(a: string, b: string) {
    exists k :: DiffersAt(a, b, k)
  }

  predicate DiffersAt(a: string, b: string, k: nat) {
    k < |a| && k < |b| && a[..k] == b[..k] && a[k] < b[k]
  }

  /** The filters stand in the order of their names, as `sort_keys` asks, and each has its own value under its name. */
  lemma FiltersAreSorted(r: Request, show: Printer)
    ensures var fields := FieldsOf(r, show);
            && |fields| == 9
            && (forall i :: 0 <= i < 8 ==> Before(fields[i].name, fields[i + 1].name))
            && (forall f :: f in fields ==>
                  match f.name
                  case "genres" => f.value == OfStrings(r.genres)
                  case "year_from" => f.value == OfNat(r.yearFrom)
                  case "year_to" => f.value == OfNat(r.yearTo)
                  case "rating_from" => f.value == OfReal(r.ratingFrom, show)
                  case "rating_to" => f.value == OfReal(r.ratingTo, show)
                  case "age_rating" => f.value == OfStrings(r.ageRating)
                  case "published_only" => f.value == Boolean(r.publishedOnly)
                  case "page" => f.value == Number(Decimal(r.page))
                  case "size" => f.value == Number(Decimal(r.size))
                  case _ => false)
  {
    assert DiffersAt("age_rating", "genres", 0) && DiffersAt("genres", "page", 0);
    assert DiffersAt("page", "published_only", 1) && DiffersAt("published_only", "rating_from", 0);
    assert DiffersAt("rating_from", "rating_to", 7) && DiffersAt("rating_to", "size", 0);
    assert DiffersAt("size", "year_from", 0) && DiffersAt("year_from", "year_to", 5);
  }

  function KeyText(r: Request, show: Printer): string {
    TextOf(r.query) + ("_" + PrintObject(FieldsOf(r, show)))
  }

  // ----- Every piece of the text can be read back -----

  lemma CutEqual(a: string, b: string, x: string, y: string)
    requires a + x == b + y && |a| == |b|
    ensures a == b && x == y
  {
    assert (a + x)[..|a|] == a && (b + y)[..|b|] == b;
    assert (a + x)[|a|..] == x && (b + y)[|b|..] == y;
  }

  lemma DigitInjective(m: nat, n: nat)
    requires m < 16 && n < 16 && Digit(m) == Digit(n)
    ensures m == n
  {}

  lemma Hex4Injective(m: nat, n: nat)
    requires m < 0x10000 && n < 0x10000 && Hex4(m) == Hex4(n)
    ensures m == n
  {
    assert Hex4(m)[0] == Hex4(n)[0] && Hex4(m)[1] == Hex4(n)[1] && Hex4(m)[2] == Hex4(n)[2] && Hex4(m)[3] == Hex4(n)[3];
    DigitInjective(m / 16 / 16 / 16, n / 16 / 16 / 16);
    DigitInjective(m / 16 / 16 % 16, n / 16 / 16 % 16);
    DigitInjective(m / 16 % 16, n / 16 % 16);
    DigitInjective(m % 16, n % 16);
  }

  lemma UnitReadsBack(m: nat, n: nat, x: string, y: string)
    requires m < 0x10000 && n < 0x10000 && Unit(m) + x == Unit(n) + y
    ensures m == n && x == y
  {
    CutEqual(Unit(m), Unit(n), x, y);
    CutEqual("\\u", "\\u", Hex4(m), Hex4(n));
    Hex4Injective(m, n);
  }

  lemma UnitsDetermineChar(c: char, d: char)
    requires FirstUnit(c) == FirstUnit(d)
    ensures c as int >= 0x10000 <==> d as int >= 0x10000
    ensures c as int >= 0x10000 && SecondUnit(c) == SecondUnit(d) ==> c == d
    ensures c as int < 0x10000 ==> c == d
  {}

  lemma TailReadsBack(c: char, d: char, x: string, y: string)
    requires FirstUnit(c) == FirstUnit(d) && SurrogateTail(c) + x == SurrogateTail(d) + y
    ensures c == d && x == y
  {
    UnitsDetermineChar(c, d);
    if c as int < 0x10000 {
      CutEqual("", "", x, y);
    } else {
      UnitReadsBack(SecondUnit(c), SecondUnit(d), x, y);
    }
  }

  lemma UnicodeEscapeReadsBack(c: char, d: char, x: string, y: string)
    requires UnicodeEscape(c) + x == UnicodeEscape(d) + y
    ensures c == d && x == y
  {
    Reassociate(Unit(FirstUnit(c)), SurrogateTail(c), x);
    Reassociate(Unit(FirstUnit(d)), SurrogateTail(d), y);
    UnitReadsBack(FirstUnit(c), FirstUnit(d), SurrogateTail(c) + x, SurrogateTail(d) + y);
    TailReadsBack(c, d, x, y);
  }

  lemma Reassociate(a: string, b: string, c: string)
    ensures (a + b) + c == a + (b + c)
  {}

  lemma ShortEscapeInjective(c: char, d: char)
    requires ShortEscape(c).Some?
    ensures ShortEscape(c).value != 'u'
    ensures ShortEscape(c) == ShortEscape(d) ==> c == d
  {}

  /** The first two characters tell the three kinds of escape apart. */
  lemma EscapeKinds(c: char)
    ensures Plain(c) ==> EscapeChar(c) == [c] && c != '\\'
    ensures ShortEscape(c).Some? ==> EscapeChar(c) == ['\\', ShortEscape(c).value] && ShortEscape(c).value != 'u'
    ensures !Plain(c) && ShortEscape(c).None? ==> EscapeChar(c) == UnicodeEscape(c)
  {}

  /** Escapes form a prefix code. */
  lemma EscapeReadsBack(c: char, d: char, x: string, y: string)
    requires EscapeChar(c) + x == EscapeChar(d) + y
    ensures c == d && x == y
  {
    EscapeKinds(c);
    EscapeKinds(d);
    var s := EscapeChar(c) + x;
    assert s[0] == EscapeChar(c)[0] == EscapeChar(d)[0];
    if Plain(c) {
      CutEqual([c], [d], x, y);
    } else {
      assert s[1] == EscapeChar(c)[1] == EscapeChar(d)[1];
      if ShortEscape(c).Some? {
        ShortEscapeInjective(c, d);
        CutEqual(EscapeChar(c), EscapeChar(d), x, y);
      } else {
        UnicodeEscapeReadsBack(c, d, x, y);
      }
    }
  }

  lemma BodyStart(a: string, x: string)
    ensures (Escape(a) + ("\"" + x))[0] == '\"' <==> a == ""
  {}

  lemma BodyUnfolds(a: string, x: string)
    requires a != ""
    ensures Escape(a) + ("\"" + x) == EscapeChar(a[0]) + (Escape(a[1..]) + ("\"" + x))
  {
    Reassociate(EscapeChar(a[0]), Escape(a[1..]), "\"" + x);
  }

  lemma {:induction false} BodyReadsBack(a: string, b: string, x: string, y: string)
    requires Escape(a) + ("\"" + x) == Escape(b) + ("\"" + y)
    ensures a == b && x == y
  {
    BodyStart(a, x);
    BodyStart(b, y);
    if a == "" {
      assert Escape("") + ("\"" + x) == "\"" + x && Escape("") + ("\"" + y) == "\"" + y;
      CutEqual("\"", "\"", x, y);
    } else {
      var x', y' := Escape(a[1..]) + ("\"" + x), Escape(b[1..]) + ("\"" + y);
      BodyUnfolds(a, x);
      BodyUnfolds(b, y);
      EscapeReadsBack(a[0], b[0], x', y');
      BodyReadsBack(a[1..], b[1..], x, y);
    }
  }

  lemma LiteralReadsBack(a: string, b: string, x: string, y: string)
    requires Literal(a, x) == Literal(b, y)
    ensures a == b && x == y
  {
    CutEqual("\"", "\"", Escape(a) + ("\"" + x), Escape(b) + ("\"" + y));
    BodyReadsBack(a, b, x, y);
  }

  lemma {:induction false} ItemsReadBack(a: seq<string>, b: seq<string>, x: string, y: string)
    requires a != [] && b != [] && PrintItems(a, x) == PrintItems(b, y)
    ensures a == b && x == y
  {
    var restA := if |a| == 1 then "]" + x else ", " + PrintItems(a[1..], x);
    var restB := if |b| == 1 then "]" + y else ", " + PrintItems(b[1..], y);
    LiteralReadsBack(a[0], b[0], restA, restB);
    assert restA[0] == if |a| == 1 then ']' else ',';
    assert restB[0] == if |b| == 1 then ']' else ',';
    if |a| == 1 {
      CutEqual("]", "]", x, y);
    } else {
      CutEqual(", ", ", ", PrintItems(a[1..], x), PrintItems(b[1..], y));
      ItemsReadBack(a[1..], b[1..], x, y);
    }
  }

  /** What may follow a field value. */
  predicate Follows(rest: string) {
    rest != "" && (rest[0] == ',' || rest[0] == '}')
  }

  lemma NumeralReadsBack(a: Numeral, b: Numeral, x: string, y: string)
    requires a + x == b + y && Follows(x) && Follows(y)
    ensures a == b && x == y
  {
    NumeralEnds(a, x);
    NumeralEnds(b, y);
    var s := a + x;
    assert |a| == |b|;
    CutEqual(a, b, x, y);
  }

  lemma NumeralEnds(a: Numeral, x: string)
    requires Follows(x)
    ensures !NumberChar((a + x)[|a|]) && forall i :: 0 <= i < |a| ==> NumberChar((a + x)[i])
  {}

  /** The character after the opening bracket. */
  lemma ListStart(items: seq<string>, rest: string)
    ensures |PrintValue(Strings(items), rest)| > 1
    ensures PrintValue(Strings(items), rest)[0] == '['
    ensures PrintValue(Strings(items), rest)[1] == if items == [] then ']' else '\"'
  {}

  lemma ValueReadsBack(v: Value, w: Value, x: string, y: string)
    requires PrintValue(v, x) == PrintValue(w, y) && Follows(x) && Follows(y)
    ensures v == w && x == y
  {
    var s := PrintValue(v, x);
    match v
    case Null =>
      assert s[0] == 'n';
      CutEqual("null", "null", x, y);
    case Boolean(b) =>
      assert s[0] == if b then 't' else 'f';
      var text := if b then "true" else "false";
      CutEqual(text, text, x, y);
    case Number(text) =>
      assert s[0] == text[0] && NumberChar(s[0]);
      NumeralReadsBack(text, w.text, x, y);
    case Strings(items) =>
      ListStart(items, x);
      ListStart(w.items, y);
      if items == [] {
        CutEqual("[]", "[]", x, y);
      } else {
        CutEqual("[", "[", PrintItems(items, x), PrintItems(w.items, y));
        ItemsReadBack(items, w.items, x, y);
      }
  }

  function Rest(fields: seq<Field>): (rest: string)
    requires fields != []
    ensures Follows(rest)
  {
    if |fields| == 1 then "}" else ", " + PrintFields(fields[1..])
  }

  lemma {:induction false} FieldsReadBack(a: seq<Field>, b: seq<Field>)
    requires a != [] && b != [] && PrintFields(a) == PrintFields(b)
    ensures a == b
  {
    LiteralReadsBack(
      a[0].name, b[0].name, ": " + PrintValue(a[0].value, Rest(a)), ": " + PrintValue(b[0].value, Rest(b)));
    CutEqual(": ", ": ", PrintValue(a[0].value, Rest(a)), PrintValue(b[0].value, Rest(b)));
    ValueReadsBack(a[0].value, b[0].value, Rest(a), Rest(b));
    if |a| > 1 && |b| > 1 {
      CutEqual(", ", ", ", PrintFields(a[1..]), PrintFields(b[1..]));
      FieldsReadBack(a[1..], b[1..]);
    }
  }

  lemma {:induction false} DecimalInjective(m: nat, n: nat)
    requires Decimal(m) == Decimal(n)
    ensures m == n
  {
    if m < 10 && n < 10 {
      DigitInjective(m, n);
    } else if m >= 10 && n >= 10 {
      var a, b := Decimal(m / 10), Decimal(n / 10);
      assert |a + [Digit(m % 10)]| == |b + [Digit(n % 10)]|;
      CutEqual(a, b, [Digit(m % 10)], [Digit(n % 10)]);
      DecimalInjective(m / 10, n / 10);
      DigitInjective(m % 10, n % 10);
    }
  }

  lemma OfNatInjective(a: Option<nat>, b: Option<nat>)
    requires OfNat(a) == OfNat(b)
    ensures a == b
  {
    if a.Some? {
      DecimalInjective(a.value, b.value);
    }
  }

  predicate PrintsBelow(show: Printer, x: real, bound: nat) {
    exists k: nat :: k < bound && show(x) == Decimal(k)
  }

  /** The ratings print as different numbers below `bound`. */
  ghost predicate Numbered(show: Printer, xs: set<real>, bound: nat) {
    ReadsBack(show, xs) && forall x :: x in xs ==> PrintsBelow(show, x, bound)
  }

  lemma NumbersDiffer(show: Printer, x: real, bound: nat)
    requires PrintsBelow(show, x, bound)
    ensures show(x) != Decimal(bound) && PrintsBelow(show, x, bound + 1)
  {
    var k: nat :| k < bound && show(x) == Decimal(k);
    if Decimal(k) == Decimal(bound) {
      DecimalInjective(k, bound);
    }
    assert k < bound + 1;
  }

  lemma OneMoreNumber(others: Printer, show: Printer, rest: set<real>, first: real, bound: nat)
    requires Numbered(others, rest, bound) && first !in rest
    requires show(first) == Decimal(bound) && forall x :: x in rest ==> show(x) == others(x)
    ensures Numbered(show, rest + {first}, bound + 1)
  {
    forall x | x in rest
      ensures show(x) != show(first) && PrintsBelow(show, x, bound + 1)
    {
      assert PrintsBelow(others, x, bound) && show(x) == others(x);
      NumbersDiffer(others, x, bound);
      var k: nat :| k < bound + 1 && others(x) == Decimal(k);
      assert show(x) == Decimal(k);
    }
    assert PrintsBelow(show, first, bound + 1);
  }

  lemma Pick<T>(xs: set<T>) returns (x: T)
    requires xs != {}
    ensures x in xs
  {
    x :| x in xs;
  }

  /** Any finite choice of ratings has a printer that tells them apart. */
  lemma SomePrinterReadsBack(xs: set<real>) returns (show: Printer)
    ensures Numbered(show, xs, |xs|)
  {
    if xs == {} {
      show := (x: real) => "0";
    } else {
      var first := Pick(xs);
      var rest := xs - {first};
      var others := SomePrinterReadsBack(rest);
      var number: Numeral := Decimal(|rest|);
      show := (x: real) => if x == first then number else others(x);
      OneMoreNumber(others, show, rest, first, |rest|);
      assert rest + {first} == xs;
    }
  }

  lemma OfRealInjective(a: Option<real>, b: Option<real>, show: Printer)
    requires ReadsBack(show, Given(a) + Given(b)) && OfReal(a, show) == OfReal(b, show)
    ensures a == b
  {
    if a.Some? && b.Some? {
      var x, y := a.value, b.value;
      assert OfReal(a, show).text == show(x) && OfReal(b, show).text == show(y);
      assert show(x) == show(y) ==> x == y;
    }
  }

  /** Two requests that differ at most in whether an empty query is there. */
  predicate SameRequest(a: Request, b: Request) {
    TextOf(a.query) == TextOf(b.query) && a.(query := b.query) == b
  }

  lemma FiltersReadBack(a: Request, b: Request, show: Printer)
    requires ReadsBack(show, Ratings(a) + Ratings(b)) && FieldsOf(a, show) == FieldsOf(b, show)
    ensures a.(query := b.query) == b
  {
    var f, g := FieldsOf(a, show), FieldsOf(b, show);
    assert forall i :: 0 <= i < 9 ==> f[i].value == g[i].value;
    assert f[0].value == OfStrings(a.ageRating) && f[1].value == OfStrings(a.genres);
    assert f[2].value == Number(Decimal(a.page)) && f[3].value == Boolean(a.publishedOnly);
    assert f[6].value == Number(Decimal(a.size));
    DecimalInjective(a.page, b.page);
    DecimalInjective(a.size, b.size);
    assert f[4].value == OfReal(a.ratingFrom, show) && f[5].value == OfReal(a.ratingTo, show);
    OfRealInjective(a.ratingFrom, b.ratingFrom, show);
    OfRealInjective(a.ratingTo, b.ratingTo, show);
    assert f[7].value == OfNat(a.yearFrom) && f[8].value == OfNat(a.yearTo);
    OfNatInjective(a.yearFrom, b.yearFrom);
    OfNatInjective(a.yearTo, b.yearTo);
  }

  // ----- Where the query ends -----

  /** The brace at i does not start `{"a`, and the text does not end before that shows. */
  predicate Harmless(s: string, i: nat) {
    i + 1 < |s| && (s[i + 1] == '\"' ==> i + 2 < |s| && s[i + 2] != 'a')
  }

  ghost predicate NoOpening(s: string) {
    forall i: nat :: i < |s| && s[i] == '{' ==> Harmless(s, i)
  }

  lemma Shifted(piece: string, rest: string, j: nat)
    requires Harmless(rest, j)
    ensures Harmless(piece + rest, |piece| + j)
  {
    var s, i := piece + rest, |piece| + j;
    assert s[i + 1] == rest[j + 1];
    if rest[j + 1] == '\"' {
      assert s[i + 2] == rest[j + 2];
    }
  }

  lemma Prepend(piece: string, rest: string)
    requires '{' !in piece && NoOpening(rest)
    ensures NoOpening(piece + rest)
  {
    var s := piece + rest;
    forall i: nat | i < |s| && s[i] == '{'
      ensures Harmless(s, i)
    {
      if i < |piece| {
        assert false;
      } else {
        Shifted(piece, rest, i - |piece|);
      }
    }
  }

  lemma PrependBrace(rest: string)
    requires NoOpening(rest) && rest != "" && (rest[0] == '\"' ==> |rest| > 1 && rest[1] != 'a')
    ensures NoOpening("{" + rest)
  {
    var s := "{" + rest;
    forall i: nat | i < |s| && s[i] == '{'
      ensures Harmless(s, i)
    {
      if i > 0 {
        assert s[i] == rest[i - 1];
        Shifted("{", rest, i - 1);
      }
    }
  }

  /** Inside a literal a quote is always escaped, so `{"` can only be a brace that ends the literal. */
  lemma {:induction false} BodyHasNoOpening(a: string, rest: string)
    requires NoOpening(rest) && rest != "" && rest[0] != 'a'
    ensures NoOpening(Escape(a) + ("\"" + rest))
  {
    if a == "" {
      Prepend("\"", rest);
      assert Escape(a) + ("\"" + rest) == "\"" + rest;
    } else {
      var piece, tail := EscapeChar(a[0]), Escape(a[1..]) + ("\"" + rest);
      BodyHasNoOpening(a[1..], rest);
      assert Escape(a) + ("\"" + rest) == piece + tail;
      if piece == "{" {
        BodyStart(a[1..], rest);
        assert tail[0] == '\"' ==> tail == "\"" + rest;
        PrependBrace(tail);
      } else {
        Prepend(piece, tail);
      }
    }
  }

  lemma LiteralHasNoOpening(a: string, rest: string)
    requires NoOpening(rest) && rest != "" && rest[0] != 'a'
    ensures NoOpening(Literal(a, rest))
  {
    BodyHasNoOpening(a, rest);
    Prepend("\"", Escape(a) + ("\"" + rest));
  }

  lemma {:induction false} ItemsHaveNoOpening(items: seq<string>, rest: string)
    requires items != [] && NoOpening(rest)
    ensures NoOpening(PrintItems(items, rest))
  {
    if |items| == 1 {
      Prepend("]", rest);
      LiteralHasNoOpening(items[0], "]" + rest);
    } else {
      ItemsHaveNoOpening(items[1..], rest);
      Prepend(", ", PrintItems(items[1..], rest));
      LiteralHasNoOpening(items[0], ", " + PrintItems(items[1..], rest));
    }
  }

  lemma ValueHasNoOpening(v: Value, rest: string)
    requires NoOpening(rest)
    ensures NoOpening(PrintValue(v, rest))
  {
    match v
    case Null => Prepend("null", rest);
    case Boolean(b) => Prepend(if b then "true" else "false", rest);
    case Number(text) => Prepend(text, rest);
    case Strings(items) =>
      if items == [] {
        Prepend("[]", rest);
      } else {
        ItemsHaveNoOpening(items, rest);
        Prepend("[", PrintItems(items, rest));
      }
  }

  lemma {:induction false} FieldsHaveNoOpening(fields: seq<Field>)
    requires fields != []
    ensures NoOpening(PrintFields(fields))
  {
    if |fields| > 1 {
      FieldsHaveNoOpening(fields[1..]);
      Prepend(", ", PrintFields(fields[1..]));
    }
    ValueHasNoOpening(fields[0].value, Rest(fields));
    Prepend(": ", PrintValue(fields[0].value, Rest(fields)));
    LiteralHasNoOpening(fields[0].name, ": " + PrintValue(fields[0].value, Rest(fields)));
  }

  lemma LiteralStart(a: string, rest: string)
    requires a != "" && Plain(a[0])
    ensures |Literal(a, rest)| > 1 && Literal(a, rest)[0] == '\"' && Literal(a, rest)[1] == a[0]
  {}

  predicate OpensWithA(fields: seq<Field>) {
    fields != [] && fields[0].name != "" && fields[0].name[0] == 'a'
  }

  lemma ObjectOpens(fields: seq<Field>)
    requires OpensWithA(fields)
    ensures var p := PrintObject(fields); |p| > 2 && p[0] == '{' && p[1] == '\"' && p[2] == 'a'
  {
    LiteralStart(fields[0].name, ": " + PrintValue(fields[0].value, Rest(fields)));
  }

  /** Only the brace at its very start opens the object. */
  lemma NoInnerOpening(fields: seq<Field>, k: nat)
    requires fields != [] && 1 <= k && k + 2 < |PrintObject(fields)|
    ensures var o := PrintObject(fields); !(o[k] == '{' && o[k + 1] == '\"' && o[k + 2] == 'a')
  {
    var o, text := PrintObject(fields), PrintFields(fields);
    FieldsHaveNoOpening(fields);
    assert o[k] == text[k - 1] && o[k + 1] == text[k] && o[k + 2] == text[k + 1];
    assert text[k - 1] == '{' ==> Harmless(text, k - 1);
  }

  lemma ShorterIsSuffix(q: string, p: string, r: string, o: string)
    requires q + ("_" + p) == r + ("_" + o) && |p| <= |o|
    ensures o[|o| - |p|..] == p
  {
    var s := q + ("_" + p);
    assert s[|s| - |p|..] == p && s[|s| - |o|..] == o;
    assert s[|s| - |o|..][|o| - |p|..] == s[|s| - |p|..];
  }

  /** One object cannot be a proper end of another. */
  lemma NotAProperSuffix(q: string, a: seq<Field>, r: string, b: seq<Field>)
    requires OpensWithA(a) && b != []
    requires q + ("_" + PrintObject(a)) == r + ("_" + PrintObject(b))
    ensures |PrintObject(a)| >= |PrintObject(b)|
  {
    var p, o := PrintObject(a), PrintObject(b);
    if |p| < |o| {
      ObjectOpens(a);
      ShorterIsSuffix(q, p, r, o);
      NoInnerOpening(b, |o| - |p|);
      assert false;
    }
  }

  lemma TextReadsBack(q: string, a: seq<Field>, r: string, b: seq<Field>)
    requires OpensWithA(a) && OpensWithA(b)
    requires q + ("_" + PrintObject(a)) == r + ("_" + PrintObject(b))
    ensures q == r && a == b
  {
    NotAProperSuffix(q, a, r, b);
    NotAProperSuffix(r, b, q, a);
    CutEqual(q, r, "_" + PrintObject(a), "_" + PrintObject(b));
    CutEqual("_", "_", PrintObject(a), PrintObject(b));
    CutEqual("{", "{", PrintFields(a), PrintFields(b));
    FieldsReadBack(a, b);
  }

  /** The text determines both the query and the filters, though the query is not escaped. */
  lemma KeyTextInjective(a: Request, b: Request, show: Printer)
    requires ReadsBack(show, Ratings(a) + Ratings(b))
    ensures KeyText(a, show) == KeyText(b, show) <==> SameRequest(a, b)
  {
    if KeyText(a, show) == KeyText(b, show) {
      TextReadsBack(TextOf(a.query), FieldsOf(a, show), TextOf(b.query), FieldsOf(b, show));
      FiltersReadBack(a, b, show);
    }
  }

  lemma SameRequestSameSearch(a: Request, b: Request)
    requires SameRequest(a, b)
    ensures QueryOf(a) == QueryOf(b) && a.page == b.page && a.size == b.size
    ensures forall m: TextMatch, d: Doc :: Wanted(a, m, d) <==> Wanted(b, m, d)
  {
    assert GivenText(a.query) == GivenText(b.query) && (GivenText(a.query) ==> a.query == b.query);
  }

  /** Requests that share a cached answer build the same query, want the same documents and ask for the same page. */
  lemma SharedKeySharesAnswer(a: Request, b: Request, show: Printer)
    requires ReadsBack(show, Ratings(a) + Ratings(b))
    ensures KeyText(a, show) == KeyText(b, show) ==>
              && QueryOf(a) == QueryOf(b) && a.page == b.page && a.size == b.size
              && forall m: TextMatch, d: Doc :: Wanted(a, m, d) <==> Wanted(b, m, d)
  {
    KeyTextInjective(a, b, show);
    if SameRequest(a, b) {
      SameRequestSameSearch(a, b);
    }
  }
}
