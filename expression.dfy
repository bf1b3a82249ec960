/** The value model of src/expression.rs: the `Expr` enum, its structural
    equality (`PartialEq::eq`), the `is_*` predicates and the two renderers,
    `Display::fmt` and the inherent `to_string`, which escape strings
    differently. */
module Expressions {
  import opened Decimal
  import opened Errors

  const I64_MIN: int := -0x8000_0000_0000_0000
  const I64_MAX: int := 0x7FFF_FFFF_FFFF_FFFF

  /** Rust's `i64`. */
  newtype i64 = x: int | -0x8000_0000_0000_0000 <= x < 0x8000_0000_0000_0000

  predicate InI64(x: int) {
    I64_MIN <= x <= I64_MAX
  }

  /** `Float` keeps the lexeme the reader accepted instead of an `f64`.
      `Macro` is the variant the macro expander stores in the macro table. */
  datatype Expr =
    | Symbol(name: string)
    | Number(value: i64)
    | Float(lexeme: string)
    | Str(text: string)
    | List(elems: seq<Expr>)
    | DottedPair(car: Expr, cdr: Expr)
    | Macro(params: seq<Expr>, body: Expr)

  /** The empty list, which the interpreter uses as NIL and as "false". */
  const Nil: Expr := List([])

  function Size(e: Expr): (n: nat)
    ensures n >= 1
    decreases e
  {
    match e
    case List(xs) => 1 + SizeOfAll(xs)
    case DottedPair(a, b) => 1 + Size(a) + Size(b)
    case Macro(ps, b) => 1 + SizeOfAll(ps) + Size(b)
    case _ => 1
  }

  function SizeOfAll(xs: seq<Expr>): nat
    decreases xs
  {
    if xs == [] then 0 else Size(xs[0]) + SizeOfAll(xs[1..])
  }

  lemma SizeOfAllBounds(xs: seq<Expr>, k: nat)
    requires k < |xs|
    ensures Size(xs[k]) <= SizeOfAll(xs) && SizeOfAll(xs[k + 1..]) < SizeOfAll(xs)
    decreases k
  {
    if k > 0 {
      SizeOfAllBounds(xs[1..], k - 1);
      assert xs[1..][k..] == xs[k + 1..];
    }
  }

  // ---------------------------------------------------------------------------
  // Equality

  /** `PartialEq::eq`: same variant and equal payloads, lists elementwise.
      `Macro` has no arm of its own and falls into `_ => false`. */
  predicate Equal(a: Expr, b: Expr)
    decreases a
  {
    match (a, b)
    case (Symbol(x), Symbol(y)) => x == y
    case (Number(x), Number(y)) => x == y
    case (Float(x), Float(y)) => x == y
    case (Str(x), Str(y)) => x == y
    case (List(xs), List(ys)) => AllEqual(xs, ys)
    case (DottedPair(a1, a2), DottedPair(b1, b2)) => Equal(a1, b1) && Equal(a2, b2)
    case _ => false
  }

  /** `Vec<Expr>` equality: same length and pairwise equal elements. */
  predicate AllEqual(xs: seq<Expr>, ys: seq<Expr>)
    decreases xs
  {
    |xs| == |ys| && (xs == [] || (Equal(xs[0], ys[0]) && AllEqual(xs[1..], ys[1..])))
  }

  predicate MacroFree(e: Expr)
    decreases e
  {
    match e
    case Macro(_, _) => false
    case List(xs) => AllMacroFree(xs)
    case DottedPair(a, b) => MacroFree(a) && MacroFree(b)
    case _ => true
  }

  predicate AllMacroFree(xs: seq<Expr>)
    decreases xs
  {
    xs == [] || (MacroFree(xs[0]) && AllMacroFree(xs[1..]))
  }

  /** Structural equality is Dafny's equality, except that nothing containing
      a macro equals anything, not even itself. */
  lemma {:induction false} EqualIsIdentity(a: Expr, b: Expr)
    ensures Equal(a, b) <==> a == b && MacroFree(a)
    decreases a
  {
    match (a, b)
    case (List(xs), List(ys)) => AllEqualIsIdentity(xs, ys);
    case (DottedPair(a1, a2), DottedPair(b1, b2)) =>
      EqualIsIdentity(a1, b1);
      EqualIsIdentity(a2, b2);
    case _ =>
  }

  lemma {:induction false} AllEqualIsIdentity(xs: seq<Expr>, ys: seq<Expr>)
    ensures AllEqual(xs, ys) <==> xs == ys && AllMacroFree(xs)
    decreases xs
  {
    if xs != [] && |xs| == |ys| {
      EqualIsIdentity(xs[0], ys[0]);
      AllEqualIsIdentity(xs[1..], ys[1..]);
      if xs[0] == ys[0] && xs[1..] == ys[1..] {
        assert xs == [xs[0]] + xs[1..] && ys == [ys[0]] + ys[1..];
      }
    }
  }

  // ---------------------------------------------------------------------------
  // Type predicates

  predicate IsNumber(e: Expr) { e.Number? }
  predicate IsSymbol(e: Expr) { e.Symbol? }
  predicate IsString(e: Expr) { e.Str? }
  predicate IsList(e: Expr) { e.List? }
  predicate IsFloat(e: Expr) { e.Float? }
  predicate IsDottedPair(e: Expr) { e.DottedPair? }

  function KindsHeld(e: Expr): nat {
    (if IsNumber(e) then 1 else 0) + (if IsSymbol(e) then 1 else 0)
    + (if IsString(e) then 1 else 0) + (if IsList(e) then 1 else 0)
    + (if IsFloat(e) then 1 else 0) + (if IsDottedPair(e) then 1 else 0)
  }

  /** Each `is_*` predicate holds for exactly one of the six source variants;
      none holds for a stored macro. */
  lemma ExactlyOneKind(e: Expr)
    ensures KindsHeld(e) == if e.Macro? then 0 else 1
  {
  }

  // ---------------------------------------------------------------------------
  // Rendering

  /** `s.replace("\"", "\\\"")`. */
  function EscapeQuotes(s: string): string
    decreases |s|
  {
    if s == [] then [] else (if s[0] == '"' then ['\\', '"'] else [s[0]]) + EscapeQuotes(s[1..])
  }

  /** `s.replace("\\", "\\\\")`. */
  function EscapeBackslashes(s: string): string
    decreases |s|
  {
    if s == [] then [] else (if s[0] == '\\' then ['\\', '\\'] else [s[0]]) + EscapeBackslashes(s[1..])
  }

  /** `Display::fmt`.  A macro has no rendering in the original; this model
      prints a fixed placeholder. */
  function Display(e: Expr): string
    decreases e
  {
    match e
    case Symbol(name) => name
    case Number(n) => IntToString(n as int)
    case Float(lexeme) => lexeme
    case Str(s) => "\"" + EscapeQuotes(s) + "\""
    case List(xs) => "(" + DisplayAll(xs) + ")"
    case DottedPair(a, b) => "(" + Display(a) + " . " + Display(b) + ")"
    case Macro(_, _) => "#<macro>"
  }

  /** The elements' renderings joined by single spaces. */
  function DisplayAll(xs: seq<Expr>): string
    decreases xs
  {
    if xs == [] then ""
    else if |xs| == 1 then Display(xs[0])
    else Display(xs[0]) + " " + DisplayAll(xs[1..])
  }

  /** The inherent `to_string`: like `Display`, but strings have their
      backslashes doubled before their quotes are escaped.  A dotted pair's
      parts are formatted with `Display`. */
  function ToString(e: Expr): string
    decreases e
  {
    match e
    case Symbol(name) => name
    case Number(n) => IntToString(n as int)
    case Float(lexeme) => lexeme
    case Str(s) => "\"" + EscapeQuotes(EscapeBackslashes(s)) + "\""
    case List(xs) => "(" + ToStringAll(xs) + ")"
    case DottedPair(a, b) => "(" + Display(a) + " . " + Display(b) + ")"
    case Macro(_, _) => "#<macro>"
  }

  function ToStringAll(xs: seq<Expr>): string
    decreases xs
  {
    if xs == [] then ""
    else if |xs| == 1 then ToString(xs[0])
    else ToString(xs[0]) + " " + ToStringAll(xs[1..])
  }

  /** `parts` joined with `sep` in between: the reference for `join`. */
  function Join(parts: seq<string>, sep: string): string
    decreases |parts|
  {
    if parts == [] then ""
    else if |parts| == 1 then parts[0]
    else parts[0] + sep + Join(parts[1..], sep)
  }

  function ToStrings(xs: seq<Expr>): (r: seq<string>)
    ensures |r| == |xs| && forall k :: 0 <= k < |xs| ==> r[k] == ToString(xs[k])
    decreases |xs|
  {
    if xs == [] then [] else [ToString(xs[0])] + ToStrings(xs[1..])
  }

  /** `to_string` of a list is its elements' `to_string`s joined by single
      spaces inside parentheses; the empty list is `()`. */
  lemma {:induction false} ToStringOfList(xs: seq<Expr>)
    ensures ToString(List(xs)) == "(" + Join(ToStrings(xs), " ") + ")"
    ensures xs == [] ==> ToString(List(xs)) == "()"
  {
    ToStringAllIsJoin(xs);
  }

  lemma {:induction false} ToStringAllIsJoin(xs: seq<Expr>)
    ensures ToStringAll(xs) == Join(ToStrings(xs), " ")
    decreases |xs|
  {
    if |xs| > 1 {
      ToStringAllIsJoin(xs[1..]);
      assert ToStrings(xs)[1..] == ToStrings(xs[1..]);
    }
  }

  // ---------------------------------------------------------------------------
  // Escaping: the decoder that `to_string`'s escaping is built for

  /** Reads back an escaped string: `\\` stands for `\` and `\"` for `"`;
      any other `\` sequence or a lone `"` is not an escaped string. */
  function Unescape(t: string): Option<string>
    decreases |t|
  {
    if t == [] then Some([])
    else if t[0] == '"' then None
    else if t[0] != '\\' then
      match Unescape(t[1..]) case None => None case Some(r) => Some([t[0]] + r)
    else if |t| >= 2 && (t[1] == '\\' || t[1] == '"') then
      match Unescape(t[2..]) case None => None case Some(r) => Some([t[1]] + r)
    else None
  }

  /** Applying both replacements in the original's order escapes each
      character on its own. */
  function EscapeChar(c: char): string {
    if c == '\\' then "\\\\" else if c == '"' then "\\\"" else [c]
  }

  function EscapeEach(s: string): string
    decreases |s|
  {
    if s == [] then [] else EscapeChar(s[0]) + EscapeEach(s[1..])
  }

  lemma {:induction false} EscapeQuotesAppend(a: string, b: string)
    ensures EscapeQuotes(a + b) == EscapeQuotes(a) + EscapeQuotes(b)
    decreases |a|
  {
    if a != [] {
      assert (a + b)[1..] == a[1..] + b;
      EscapeQuotesAppend(a[1..], b);
    } else {
      assert a + b == b;
    }
  }

  lemma {:induction false} BackslashesBeforeQuotes(s: string)
    ensures EscapeQuotes(EscapeBackslashes(s)) == EscapeEach(s)
    decreases |s|
  {
    if s != [] {
      var head := if s[0] == '\\' then ['\\', '\\'] else [s[0]];
      EscapeQuotesAppend(head, EscapeBackslashes(s[1..]));
      BackslashesBeforeQuotes(s[1..]);
      assert EscapeQuotes(['\\', '\\']) == ['\\', '\\'];
      if s[0] != '\\' {
        assert EscapeQuotes([s[0]]) == EscapeChar(s[0]);
      }
    }
  }

  /** The string inside `to_string`'s quotes decodes back to the original
      string, so `to_string` is injective on strings. */
  lemma {:induction false} ToStringEscapingRoundTrip(s: string)
    ensures Unescape(EscapeQuotes(EscapeBackslashes(s))) == Some(s)
    decreases |s|
  {
    BackslashesBeforeQuotes(s);
    UnescapeEscapeEach(s);
  }

  lemma {:induction false} UnescapeEscapeEach(s: string)
    ensures Unescape(EscapeEach(s)) == Some(s)
    decreases |s|
  {
    if s != [] {
      UnescapeEscapeEach(s[1..]);
      var t := EscapeEach(s);
      assert t == EscapeChar(s[0]) + EscapeEach(s[1..]);
      if s[0] == '\\' || s[0] == '"' {
        assert t[2..] == EscapeEach(s[1..]);
      } else {
        assert t[1..] == EscapeEach(s[1..]);
      }
      assert s == [s[0]] + s[1..];
    }
  }

  /** `Display` escapes quotes only, so on a string it renders the same text
      as `to_string` exactly when the string holds no backslash. */
  lemma {:induction false} DisplayAgreesOnStrings(s: string)
    ensures Display(Str(s)) == ToString(Str(s)) <==> '\\' !in s
  {
    if '\\' in s {
      BackslashesLengthen(s);
      EscapeQuotesLength(s);
      EscapeQuotesLength(EscapeBackslashes(s));
      QuotesKept(s);
    } else {
      NoBackslashUnchanged(s);
    }
  }

  function Occurrences(c: char, s: string): nat
    decreases |s|
  {
    if s == [] then 0 else (if s[0] == c then 1 else 0) + Occurrences(c, s[1..])
  }

  lemma {:induction false} OccurrencesPositive(c: char, s: string)
    requires c in s
    ensures Occurrences(c, s) > 0
    decreases |s|
  {
    if s[0] != c {
      OccurrencesPositive(c, s[1..]);
    }
  }

  lemma {:induction false} OccurrencesAppend(c: char, a: string, b: string)
    ensures Occurrences(c, a + b) == Occurrences(c, a) + Occurrences(c, b)
    decreases |a|
  {
    if a == [] {
      assert a + b == b;
    } else {
      assert (a + b)[1..] == a[1..] + b;
      OccurrencesAppend(c, a[1..], b);
    }
  }

  lemma {:induction false} BackslashesLengthen(s: string)
    requires '\\' in s
    ensures |EscapeBackslashes(s)| > |s|
  {
    OccurrencesPositive('\\', s);
    BackslashesLength(s);
  }

  lemma {:induction false} BackslashesLength(s: string)
    ensures |EscapeBackslashes(s)| == |s| + Occurrences('\\', s)
    decreases |s|
  {
    if s != [] {
      BackslashesLength(s[1..]);
    }
  }

  lemma {:induction false} EscapeQuotesLength(s: string)
    ensures |EscapeQuotes(s)| == |s| + Occurrences('"', s)
    decreases |s|
  {
    if s != [] {
      EscapeQuotesLength(s[1..]);
    }
  }

  lemma {:induction false} QuotesKept(s: string)
    ensures Occurrences('"', EscapeBackslashes(s)) == Occurrences('"', s)
    decreases |s|
  {
    if s != [] {
      var head := if s[0] == '\\' then ['\\', '\\'] else [s[0]];
      OccurrencesAppend('"', head, EscapeBackslashes(s[1..]));
      QuotesKept(s[1..]);
    }
  }

  lemma {:induction false} NoBackslashUnchanged(s: string)
    requires '\\' !in s
    ensures EscapeBackslashes(s) == s
    decreases |s|
  {
    if s != [] {
      assert s[0] != '\\';
      assert forall k :: 0 <= k < |s[1..]| ==> s[1..][k] == s[k + 1];
      NoBackslashUnchanged(s[1..]);
      assert s == [s[0]] + s[1..];
    }
  }

  lemma {:induction false} NoQuoteUnchanged(s: string)
    requires '"' !in s
    ensures EscapeQuotes(s) == s
    decreases |s|
  {
    if s != [] {
      assert s[0] != '"';
      assert forall k :: 0 <= k < |s[1..]| ==> s[1..][k] == s[k + 1];
      NoQuoteUnchanged(s[1..]);
      assert s == [s[0]] + s[1..];
    }
  }

  /** Symbols and numbers are written out without any escaping, and a dotted
      pair is written with `Display` for its parts. */
  lemma AtomsUnescaped(name: string, n: i64, a: Expr, b: Expr)
    ensures ToString(Symbol(name)) == Display(Symbol(name)) == name
    ensures ToString(Number(n)) == Display(Number(n)) == IntToString(n as int)
    ensures ToString(DottedPair(a, b)) == Display(DottedPair(a, b))
                                      == "(" + Display(a) + " . " + Display(b) + ")"
  {
  }
}
