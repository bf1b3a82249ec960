/** The meaning of src/parser.rs, as functions over the input text and a
    position in it.  Each function returns what the original's parsing
    function returns together with the position its character iterator has
    reached, so that the imperative reader in module Parser can be proved to
    compute exactly these values, error positions included. */
module ReaderSpec {
  import opened Decimal
  import opened Errors
  import opened Expressions
  import opened Macros

  const EndOfInput: string := "Unexpected end of input"
  const EndOfList: string := "Parse Error: Unexpected end of list"
  const TrailingInput: string := "Unexpected input after list"
  const InvalidNumber: string := "Invalid number"
  const InvalidFloat: string := "Invalid float"
  const Unterminated: string := "Unterminated string literal"

  /** Rust's `char::is_whitespace`: the Unicode White_Space property. */
  predicate IsWhitespace(c: char) {
    ('\t' <= c <= '\r') || c == ' ' || c == '\U{0085}' || c == '\U{00A0}' || c == '\U{1680}'
    || ('\U{2000}' <= c <= '\U{200A}') || c == '\U{2028}' || c == '\U{2029}'
    || c == '\U{202F}' || c == '\U{205F}' || c == '\U{3000}'
  }

  /** A character that ends a symbol. */
  predicate IsDelimiter(c: char) {
    IsWhitespace(c) || c == '(' || c == ')'
  }

  /** A character a numeral is scanned over. */
  predicate IsNumeralChar(c: char) {
    IsDigit(c) || c == '.'
  }

  /** What a parsing function returns, where the iterator stands afterwards,
      and the macro table it leaves behind. */
  datatype Parsed = Parsed(outcome: Result<Expr>, pos: nat, macros: map<string, Expr>)

  /** The same for the functions that cannot define a macro. */
  datatype Token = Token(outcome: Result<Expr>, pos: nat)

  // ---------------------------------------------------------------------------
  // Blanks, comments and symbols

  /** `skip_whitespace_and_comments`: whitespace is skipped, and `;` skips
      through the next newline (or to the end). */
  function SkipBlank(s: string, i: nat): (j: nat)
    requires i <= |s|
    ensures i <= j <= |s|
    ensures j == |s| || (!IsWhitespace(s[j]) && s[j] != ';')
    decreases |s| - i
  {
    if i == |s| then i
    else if IsWhitespace(s[i]) then SkipBlank(s, i + 1)
    else if s[i] == ';' then SkipBlank(s, CommentEnd(s, i + 1))
    else i
  }

  /** The position just after the first newline at or after `i`; the end if
      there is none. */
  function CommentEnd(s: string, i: nat): (j: nat)
    requires i <= |s|
    ensures i <= j <= |s|
    decreases |s| - i
  {
    if i == |s| then i else if s[i] == '\n' then i + 1 else CommentEnd(s, i + 1)
  }

  /** A comment runs up to and including the first newline. */
  lemma {:induction false} CommentEndIsNewline(s: string, i: nat)
    requires i <= |s|
    ensures forall k :: i <= k < CommentEnd(s, i) - 1 ==> s[k] != '\n'
    ensures CommentEnd(s, i) == |s| || (i < CommentEnd(s, i) && s[CommentEnd(s, i) - 1] == '\n')
    decreases |s| - i
  {
    if i < |s| && s[i] != '\n' {
      CommentEndIsNewline(s, i + 1);
    }
  }

  /** The first delimiter at or after `i`, or the end: where `parse_symbol`
      stops. */
  function TokenEnd(s: string, i: nat): (j: nat)
    requires i <= |s|
    ensures i <= j <= |s|
    ensures j == |s| || IsDelimiter(s[j])
    decreases |s| - i
  {
    if i == |s| || IsDelimiter(s[i]) then i else TokenEnd(s, i + 1)
  }

  /** No delimiter stands before the end of a token. */
  lemma {:induction false} TokenEndSpans(s: string, i: nat)
    requires i <= |s|
    ensures forall k :: i <= k < TokenEnd(s, i) ==> !IsDelimiter(s[k])
    decreases |s| - i
  {
    if i < |s| && !IsDelimiter(s[i]) {
      TokenEndSpans(s, i + 1);
    }
  }

  // ---------------------------------------------------------------------------
  // Numbers

  datatype Scan = Scanned(end: nat, isFloat: bool) | SecondDot(at: nat)

  /** The digit-and-period loop shared by `parse_number` and
      `parse_number_with_leading_sign`: a second period stops it with an
      error, before that period is consumed. */
  function ScanNumeral(s: string, i: nat, seenDot: bool): (r: Scan)
    requires i <= |s|
    ensures r.Scanned? ==> i <= r.end <= |s| && (r.end == |s| || !IsNumeralChar(s[r.end]))
    ensures r.Scanned? ==> forall k :: i <= k < r.end ==> IsNumeralChar(s[k]) && (s[k] == '.' ==> r.isFloat)
    ensures r.Scanned? && seenDot ==> r.isFloat
    ensures r.SecondDot? ==> i <= r.at < |s| && s[r.at] == '.'
    decreases |s| - i
  {
    if i < |s| && IsNumeralChar(s[i]) then
      if s[i] == '.' && seenDot then SecondDot(i)
      else ScanNumeral(s, i + 1, seenDot || s[i] == '.')
    else Scanned(i, seenDot)
  }

  predicate HasDigit(t: string) {
    exists k :: 0 <= k < |t| && IsDigit(t[k])
  }

  /** A scanned numeral without a period is a digit string. */
  lemma NoDotAllDigits(text: string)
    requires forall k :: 0 <= k < |text| ==> IsNumeralChar(text[k]) && text[k] != '.'
    ensures AllDigits(text)
  {
  }

  /** The integer a digit string denotes, negated when `negative`. */
  function SignedValue(negative: bool, digits: string): int
    requires AllDigits(digits)
  {
    if negative then -(Value(digits) as int) else Value(digits)
  }

  /** `parse::<f64>` or `parse::<i64>` of the scanned numeral, with a minus
      sign in front when `negative`.  A numeral with a period is a float,
      which parses exactly when it holds a digit; one without is an integer,
      which parses exactly when it is not empty and its value lies in the
      64-bit range. */
  function NumeralValue(negative: bool, text: string, isFloat: bool): Result<Expr>
    requires forall k :: 0 <= k < |text| ==> IsNumeralChar(text[k]) && (text[k] == '.' ==> isFloat)
  {
    if isFloat then
      if HasDigit(text) then Ok(Float(if negative then "-" + text else text)) else Fail(InvalidFloat)
    else
      NoDotAllDigits(text);
      var v := SignedValue(negative, text);
      if |text| > 0 && InI64(v) then Ok(Number(v as i64)) else Fail(InvalidNumber)
  }

  /** A numeral with a period reads as a float exactly when it holds a
      digit; one without is a digit string, read as an integer exactly
      when it is not empty and fits in 64 bits. */
  lemma NumeralValueCases(negative: bool, text: string, isFloat: bool)
    requires forall k :: 0 <= k < |text| ==> IsNumeralChar(text[k]) && (text[k] == '.' ==> isFloat)
    ensures var r := NumeralValue(negative, text, isFloat);
            && (isFloat ==> (r.Ok? <==> HasDigit(text)))
            && (isFloat && r.Ok? ==> r.value == Float(if negative then "-" + text else text))
            && (!isFloat ==> AllDigits(text)
                             && (r.Ok? <==> |text| > 0 && InI64(SignedValue(negative, text)))
                             && (r.Ok? ==> r.value == Number(SignedValue(negative, text) as i64)))
  {
    if !isFloat {
      NoDotAllDigits(text);
    }
  }

  /** `parse_number`, entered at a digit.  After the numeral only
      whitespace, a parenthesis, a `;` or the end may follow. */
  function ParseNumber(s: string, i: nat): (t: Token)
    requires i < |s| && IsDigit(s[i])
    ensures i < t.pos <= |s|
  {
    match ScanNumeral(s, i, false)
    case SecondDot(k) => Token(Fail(InvalidFloat), k)
    case Scanned(e, isFloat) =>
      var text := s[i..e];
      if text == [] || text == "." then Token(Fail(InvalidNumber), e)
      else if e < |s| && !IsWhitespace(s[e]) && s[e] != '(' && s[e] != ')' && s[e] != ';'
      then Token(Fail(InvalidNumber), e)
      else Token(NumeralValue(false, text, isFloat), e)
  }

  /** `parse_number_with_leading_sign(chars, true)`, entered just after a
      `-` that a digit or a period follows.  Unlike `ParseNumber` it does
      not look at the character after the numeral. */
  function ParseSignedNumber(s: string, i: nat): (t: Token)
    requires i < |s| && IsNumeralChar(s[i])
    ensures i <= t.pos <= |s|
  {
    match ScanNumeral(s, i, false)
    case SecondDot(k) => Token(Fail(InvalidFloat), k)
    case Scanned(e, isFloat) =>
      if e == i then Token(Ok(Symbol("-")), e)
      else Token(NumeralValue(true, s[i..e], isFloat), e)
  }

  // ---------------------------------------------------------------------------
  // Strings

  /** The first `"` at or after `i`, or the end. */
  function QuoteAt(s: string, i: nat): (j: nat)
    requires i <= |s|
    ensures i <= j <= |s| && (j == |s| || s[j] == '"')
    decreases |s| - i
  {
    if i == |s| || s[i] == '"' then i else QuoteAt(s, i + 1)
  }

  /** No `"` stands between `i` and `QuoteAt(s, i)`. */
  lemma {:induction false} QuoteAtIsFirst(s: string, i: nat)
    requires i <= |s|
    ensures forall k :: i <= k < QuoteAt(s, i) ==> s[k] != '"'
    decreases |s| - i
  {
    if i < |s| && s[i] != '"' {
      QuoteAtIsFirst(s, i + 1);
    }
  }

  /** `parse_string`, entered just after the opening `"`: everything up to
      the next `"` is the string, taken literally. */
  function ParseString(s: string, i: nat): (t: Token)
    requires i <= |s|
    ensures i <= t.pos <= |s|
  {
    var q := QuoteAt(s, i);
    if q == |s| then Token(Fail(Unterminated), q)
    else Token(Ok(Str(s[i..q])), q + 1)
  }

  /** A string literal reads exactly when a closing quote follows, and the
      string read holds no quote. */
  lemma ParseStringOutcome(s: string, i: nat)
    requires i <= |s|
    ensures ParseString(s, i).outcome.Ok? <==> '"' in s[i..]
    ensures ParseString(s, i).outcome.Ok? ==>
              ParseString(s, i).outcome.value.Str? && '"' !in ParseString(s, i).outcome.value.text
    ensures !ParseString(s, i).outcome.Ok? ==> ParseString(s, i) == Token(Fail(Unterminated), |s|)
  {
    var q := QuoteAt(s, i);
    QuoteAtIsFirst(s, i);
    if q == |s| {
      forall k | 0 <= k < |s| - i ensures s[i..][k] != '"' {
        assert s[i..][k] == s[i + k];
      }
    } else {
      assert s[i..][q - i] == '"';
      assert forall k :: 0 <= k < q - i ==> s[i..q][k] == s[i + k];
    }
  }

  // ---------------------------------------------------------------------------
  // Expressions and lists

  /** `parse_symbol`: everything up to the next delimiter. */
  function ParseSymbol(s: string, i: nat): (t: Token)
    requires i <= |s|
    ensures i <= t.pos <= |s| && t.outcome.Ok? && t.outcome.value.Symbol?
    ensures t.pos == i ==> t.outcome.value == Symbol("")
  {
    var e := TokenEnd(s, i);
    assert e == i ==> s[i..e] == [];
    Token(Ok(Symbol(s[i..e])), e)
  }

  /** `parse_symbol_with_leading_minus`, entered just after the `-`. */
  function ParseSymbolWithLeadingMinus(s: string, i: nat): (t: Token)
    requires i <= |s|
    ensures i <= t.pos <= |s| && t.outcome.Ok? && t.outcome.value.Symbol?
  {
    var e := TokenEnd(s, i);
    Token(Ok(Symbol("-" + s[i..e])), e)
  }

  /** The `-` arm of `parse_expr`, entered just after the `-`: a number
      when a digit or a period follows, the symbol `-` before a delimiter,
      a symbol starting with `-` otherwise, and an error at the end. */
  function ParseMinus(s: string, i: nat): (t: Token)
    requires i <= |s|
    ensures i <= t.pos <= |s|
  {
    if i == |s| then Token(Fail(InvalidNumber), i)
    else if IsNumeralChar(s[i]) then ParseSignedNumber(s, i)
    else if IsDelimiter(s[i]) then Token(Ok(Symbol("-")), i)
    else ParseSymbolWithLeadingMinus(s, i)
  }

  /** The arms of `parse_expr` that read an atom, at a character that opens
      neither a list nor a quotation. */
  function ParseAtom(s: string, j: nat): (t: Token)
    requires j < |s|
    ensures j <= t.pos <= |s|
    ensures t.outcome.Ok? && t.pos == j ==> IsDelimiter(s[j]) && t.outcome.value == Symbol("")
  {
    var c := s[j];
    if c == '"' then ParseString(s, j + 1)
    else if c == '-' then ParseMinus(s, j + 1)
    else if IsDigit(c) then ParseNumber(s, j)
    else ParseSymbol(s, j)
  }

  /** `parse_expr`.  On success the reader has moved past the first
      non-blank character, with one exception: a `)` where an expression
      should start reads as the empty symbol and consumes nothing. */
  function ParseExpr(s: string, i: nat, m: map<string, Expr>): (r: Parsed)
    requires i <= |s|
    ensures SkipBlank(s, i) <= r.pos <= |s|
    ensures r.outcome.Ok? && r.pos == SkipBlank(s, i) ==>
              r.pos < |s| && s[r.pos] == ')' && r.outcome.value == Symbol("")
    decreases |s| - i, 1
  {
    var j := SkipBlank(s, i);
    if j == |s| then Parsed(Fail(EndOfInput), j, m) else ParseAt(s, j, m)
  }

  /** `parse_expr` once the blanks are skipped. */
  function ParseAt(s: string, j: nat, m: map<string, Expr>): (r: Parsed)
    requires j < |s|
    ensures j <= r.pos <= |s|
    ensures r.outcome.Ok? && r.pos == j ==>
              IsDelimiter(s[j]) && s[j] != '(' && r.outcome.value == Symbol("")
    decreases |s| - j, 0
  {
    var c := s[j];
    if c == '(' then ParseItems(s, j + 1, [], m)
    else if c == '\'' || c == '`' || c == ',' then
      var p := ParseExpr(s, j + 1, m);
      if p.outcome.Err? then p
      else
        var head := if c == '\'' then "quote" else if c == '`' then "quasiquote" else "unquote";
        Parsed(Ok(List([Symbol(head), p.outcome.value])), p.pos, p.macros)
    else
      var t := ParseAtom(s, j);
      Parsed(t.outcome, t.pos, m)
  }

  /** The loop of `parse_list`, with `acc` the elements read so far.  At the
      closing parenthesis a list headed by the symbol `defmacro` is handed
      to `parse_defmacro`. */
  function ParseItems(s: string, k: nat, acc: seq<Expr>, m: map<string, Expr>): (r: Parsed)
    requires k <= |s|
    ensures k <= r.pos <= |s|
    ensures r.outcome.Ok? ==> k < r.pos
    decreases |s| - k, 2
  {
    var j := SkipBlank(s, k);
    if j == |s| then Parsed(Fail(EndOfList), j, m)
    else if s[j] == ')' then
      if |acc| > 0 && acc[0] == Symbol("defmacro") then
        var d := ParseDefmacro(acc, m);
        Parsed(d.result, j + 1, d.macros)
      else Parsed(Ok(List(acc)), j + 1, m)
    else
      var p := ParseExpr(s, j, m);
      if p.outcome.Err? then p
      else ParseItems(s, p.pos, acc + [p.outcome.value], p.macros)
  }

  /** `Parser::read`: blank input reads as the empty list; otherwise one
      expression, nothing but blanks after it, and then macro expansion with
      the macro table as parsing left it. */
  function Read(s: string, m: map<string, Expr>, fuel: nat): (r: WithMacros)
    ensures SkipBlank(s, 0) == |s| ==> r == WithMacros(Ok(Nil), m)
  {
    var j := SkipBlank(s, 0);
    if j == |s| then WithMacros(Ok(Nil), m)
    else
      var p := ParseExpr(s, j, m);
      if p.outcome.Err? then WithMacros(p.outcome, p.macros)
      else if SkipBlank(s, p.pos) < |s| then WithMacros(Fail(TrailingInput), p.macros)
      else WithMacros(ExpandMacro(fuel, p.outcome.value, p.macros), p.macros)
  }
}
