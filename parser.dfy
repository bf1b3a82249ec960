/** src/parser.rs as the original writes it: a cursor over the input that
    the parsing functions advance one character at a time, in loops that
    push what they consume into a buffer.  The cursor is the position `pos`
    in the fixed text; every method is proved to return what the function
    of the same name in module ReaderSpec returns and to leave the cursor
    where that function says, and the methods that may register a macro
    leave the environment as the function's macro table says. */
module Parser {
  import opened Decimal
  import opened Errors
  import opened Expressions
  import opened Environments
  import MacroExpander
  import ReaderSpec

  /** The `Peekable<Chars>` the parsing functions share. */
  class Reader {
    const text: string
    var pos: nat

    constructor(text: string)
      ensures this.text == text && pos == 0
    {
      this.text := text;
      pos := 0;
    }

    /** `skip_whitespace_and_comments`. */
    method SkipBlank()
      requires pos <= |text|
      modifies this
      ensures pos == ReaderSpec.SkipBlank(text, old(pos))
    {
      while pos < |text|
        invariant pos <= |text|
        invariant ReaderSpec.SkipBlank(text, pos) == ReaderSpec.SkipBlank(text, old(pos))
        decreases |text| - pos
      {
        var ch := text[pos];
        if ReaderSpec.IsWhitespace(ch) || ch == '\n' || ch == '\r' {
          pos := pos + 1;
        } else if ch == ';' {
          ghost var after := ReaderSpec.CommentEnd(text, pos + 1);
          assert ReaderSpec.SkipBlank(text, pos) == ReaderSpec.SkipBlank(text, after);
          // The comment runs through the next newline.
          while pos < |text|
            invariant pos <= |text|
            invariant ReaderSpec.CommentEnd(text, pos) == after
            decreases |text| - pos
          {
            var c := text[pos];
            pos := pos + 1;
            if c == '\n' {
              break;
            }
          }
        } else {
          break;
        }
      }
    }

    /** `parse_symbol`: everything up to the next delimiter. */
    method ParseSymbol() returns (r: Result<Expr>)
      requires pos <= |text|
      modifies this
      ensures ReaderSpec.Token(r, pos) == ReaderSpec.ParseSymbol(text, old(pos))
    {
      var symbol := "";
      while pos < |text| && !ReaderSpec.IsDelimiter(text[pos])
        invariant old(pos) <= pos <= |text|
        invariant ReaderSpec.TokenEnd(text, pos) == ReaderSpec.TokenEnd(text, old(pos))
        invariant symbol == text[old(pos)..pos]
        decreases |text| - pos
      {
        symbol := symbol + [text[pos]];
        pos := pos + 1;
      }
      r := Ok(Symbol(symbol));
    }

    /** `parse_symbol_with_leading_minus`, entered just after the `-`. */
    method ParseSymbolWithLeadingMinus() returns (r: Result<Expr>)
      requires pos <= |text|
      modifies this
      ensures ReaderSpec.Token(r, pos) == ReaderSpec.ParseSymbolWithLeadingMinus(text, old(pos))
    {
      var symbol := "-";
      while pos < |text| && !ReaderSpec.IsDelimiter(text[pos])
        invariant old(pos) <= pos <= |text|
        invariant ReaderSpec.TokenEnd(text, pos) == ReaderSpec.TokenEnd(text, old(pos))
        invariant symbol == "-" + text[old(pos)..pos]
        decreases |text| - pos
      {
        symbol := symbol + [text[pos]];
        pos := pos + 1;
      }
      r := Ok(Symbol(symbol));
    }

    /** The digit-and-period loop: consumes the numeral into `number`, or
        stops at a second period with the error. */
    method ScanNumeral() returns (number: string, isFloat: bool, error: bool)
      requires pos <= |text|
      modifies this
      ensures old(pos) <= pos <= |text|
      ensures var scan := ReaderSpec.ScanNumeral(text, old(pos), false);
              && (error <==> scan.SecondDot?)
              && (error ==> pos == scan.at)
              && (!error ==> pos == scan.end && isFloat == scan.isFloat && number == text[old(pos)..pos])
    {
      number, isFloat, error := "", false, false;
      while pos < |text| && ReaderSpec.IsNumeralChar(text[pos])
        invariant old(pos) <= pos <= |text|
        invariant ReaderSpec.ScanNumeral(text, pos, isFloat) == ReaderSpec.ScanNumeral(text, old(pos), false)
        invariant number == text[old(pos)..pos]
        decreases |text| - pos
      {
        var ch := text[pos];
        if ch == '.' {
          if isFloat {
            error := true;
            return;
          }
          isFloat := true;
        }
        number := number + [ch];
        pos := pos + 1;
      }
    }

    /** `parse_number`, entered at a digit. */
    method ParseNumber() returns (r: Result<Expr>)
      requires pos < |text| && IsDigit(text[pos])
      modifies this
      ensures ReaderSpec.Token(r, pos) == ReaderSpec.ParseNumber(text, old(pos))
    {
      var number, isFloat, error := ScanNumeral();
      if error {
        return Fail(ReaderSpec.InvalidFloat);
      }
      if number == [] || number == "." {
        return Fail(ReaderSpec.InvalidNumber);
      }
      if pos < |text| {
        var ch := text[pos];
        if !ReaderSpec.IsWhitespace(ch) && ch != '(' && ch != ')' && ch != ';' {
          return Fail(ReaderSpec.InvalidNumber);
        }
      }
      // `str::parse` of the numeral.
      r := ReaderSpec.NumeralValue(false, number, isFloat);
    }

    /** `parse_number_with_leading_sign(chars, true)`, entered just after a
        `-` that a digit or a period follows. */
    method ParseNumberWithLeadingSign() returns (r: Result<Expr>)
      requires pos < |text| && ReaderSpec.IsNumeralChar(text[pos])
      modifies this
      ensures ReaderSpec.Token(r, pos) == ReaderSpec.ParseSignedNumber(text, old(pos))
    {
      var number, isFloat, error := ScanNumeral();
      if error {
        return Fail(ReaderSpec.InvalidFloat);
      }
      if number == [] {
        return Ok(Symbol("-"));
      }
      r := ReaderSpec.NumeralValue(true, number, isFloat);
    }

    /** `parse_string`, entered at the opening `"`. */
    method ParseString() returns (r: Result<Expr>)
      requires pos < |text| && text[pos] == '"'
      modifies this
      ensures ReaderSpec.Token(r, pos) == ReaderSpec.ParseString(text, old(pos) + 1)
    {
      pos := pos + 1;
      ghost var start := pos;
      var literal := "";
      while pos < |text|
        invariant start <= pos <= |text|
        invariant ReaderSpec.QuoteAt(text, pos) == ReaderSpec.QuoteAt(text, start)
        invariant literal == text[start..pos]
        decreases |text| - pos
      {
        if text[pos] == '"' {
          pos := pos + 1;
          return Ok(Str(literal));
        }
        literal := literal + [text[pos]];
        pos := pos + 1;
      }
      r := Fail(ReaderSpec.Unterminated);
    }

    /** `parse_expr`. */
    method ParseExpr(env: Environment) returns (r: Result<Expr>)
      requires pos <= |text|
      modifies this, env
      ensures var p := ReaderSpec.ParseExpr(text, old(pos), old(env.macros));
              r == p.outcome && pos == p.pos && env.Model() == old(env.Model()).(macros := p.macros)
      decreases |text| - pos, 2
    {
      SkipBlank();
      if pos == |text| {
        return Fail(ReaderSpec.EndOfInput);
      }
      r := ParseAt(env);
    }

    /** The `match` of `parse_expr` on the first character after the
        blanks. */
    method ParseAt(env: Environment) returns (r: Result<Expr>)
      requires pos < |text|
      modifies this, env
      ensures var p := ReaderSpec.ParseAt(text, old(pos), old(env.macros));
              r == p.outcome && pos == p.pos && env.Model() == old(env.Model()).(macros := p.macros)
      decreases |text| - pos, 1
    {
      var ch := text[pos];
      if ch == '(' {
        r := ParseList(env);
      } else if ch == '\'' || ch == '`' || ch == ',' {
        pos := pos + 1;
        var quoted := ParseExpr(env);
        if quoted.Err? {
          return quoted;
        }
        var head := if ch == '\'' then "quote" else if ch == '`' then "quasiquote" else "unquote";
        r := Ok(List([Symbol(head), quoted.value]));
      } else {
        r := ParseAtom();
      }
    }

    /** The arms of `parse_expr` that read a string, a number or a symbol. */
    method ParseAtom() returns (r: Result<Expr>)
      requires pos < |text| && text[pos] != '(' && text[pos] != '\'' && text[pos] != '`' && text[pos] != ','
      modifies this
      ensures var t := ReaderSpec.ParseAtom(text, old(pos));
              r == t.outcome && pos == t.pos
    {
      var ch := text[pos];
      if ch == '"' {
        r := ParseString();
      } else if ch == '-' {
        pos := pos + 1;
        if pos == |text| {
          return Fail(ReaderSpec.InvalidNumber);
        }
        var next := text[pos];
        if IsDigit(next) || next == '.' {
          r := ParseNumberWithLeadingSign();
        } else if ReaderSpec.IsWhitespace(next) || next == '(' || next == ')' {
          r := Ok(Symbol("-"));
        } else {
          r := ParseSymbolWithLeadingMinus();
        }
      } else if IsDigit(ch) {
        r := ParseNumber();
      } else {
        r := ParseSymbol();
      }
    }

    /** `parse_list`, entered at the `(`: expressions up to the matching
        `)`, and a list headed by `defmacro` handed to `parse_defmacro`. */
    method ParseList(env: Environment) returns (r: Result<Expr>)
      requires pos < |text| && text[pos] == '('
      modifies this, env
      ensures var p := ReaderSpec.ParseItems(text, old(pos) + 1, [], old(env.macros));
              r == p.outcome && pos == p.pos && env.Model() == old(env.Model()).(macros := p.macros)
      decreases |text| - pos, 0
    {
      ghost var target := ReaderSpec.ParseItems(text, pos + 1, [], env.macros);
      pos := pos + 1;
      var list: seq<Expr> := [];
      while true
        invariant pos <= |text|
        invariant ReaderSpec.ParseItems(text, pos, list, env.macros) == target
        invariant env.symbols == old(env.symbols) && env.functions == old(env.functions)
        decreases |text| - pos
      {
        SkipBlank();
        if pos == |text| {
          return Fail(ReaderSpec.EndOfList);
        }
        if text[pos] == ')' {
          pos := pos + 1;
          break;
        }
        var e := ParseExpr(env);
        if e.Err? {
          return e;
        }
        list := list + [e.value];
      }
      if |list| > 0 && list[0] == Symbol("defmacro") {
        r := MacroExpander.ParseDefmacro(list, env);
        return;
      }
      r := Ok(List(list));
    }
  }

  /** `Parser::read`: one expression, nothing after it but blanks, and the
      expression with its macro calls expanded. */
  method Read(input: string, env: Environment, fuel: nat) returns (r: Result<Expr>)
    modifies env
    ensures var w := ReaderSpec.Read(input, old(env.macros), fuel);
            r == w.result && env.Model() == old(env.Model()).(macros := w.macros)
  {
    var chars := new Reader(input);
    chars.SkipBlank();
    if chars.pos == |input| {
      return Ok(Nil);
    }
    var expr := chars.ParseExpr(env);
    if expr.Err? {
      return expr;
    }
    chars.SkipBlank();
    if chars.pos < |input| {
      return Fail(ReaderSpec.TrailingInput);
    }
    r := MacroExpander.ExpandMacro(fuel, expr.value, env);
  }
}
