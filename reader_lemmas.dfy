/** What the reader promises: printing an expression with `to_string` and
    reading the text back gives the expression again, whenever the printed
    form can be read at all; and the error cases the original's unit tests
    exercise, stated for whole families of inputs. */
module ReaderLemmas {
  import opened Decimal
  import opened Errors
  import opened Expressions
  import opened Macros
  import opened ReaderSpec

  // ---------------------------------------------------------------------------
  // Which printed forms read back

  /** A character `parse_expr` hands to `parse_symbol`. */
  predicate SymbolStart(c: char) {
    !IsWhitespace(c) && !IsDigit(c) && c != '(' && c != ')' && c != '\''
    && c != '`' && c != ',' && c != '"' && c != ';'
  }

  /** A symbol name that reads back as itself: it starts like a symbol,
      holds no delimiter, and a leading `-` is not followed by a digit or a
      period (that would be a number). */
  predicate ReadableName(name: string) {
    && |name| > 0
    && SymbolStart(name[0])
    && (forall k :: 0 <= k < |name| ==> !IsDelimiter(name[k]))
    && (name[0] == '-' && |name| > 1 ==> !IsNumeralChar(name[1]))
  }

  /** Digits, one period, digits. */
  predicate FloatText(t: string) {
    exists k :: 0 <= k < |t| && t[k] == '.' && AllDigits(t[..k]) && AllDigits(t[k + 1..])
  }

  /** A float lexeme the reader produces: starting with a digit, or a minus
      sign before a period and at least one digit. */
  predicate ReadableFloat(l: string) {
    || (|l| > 0 && IsDigit(l[0]) && FloatText(l))
    || (|l| > 2 && l[0] == '-' && FloatText(l[1..]))
  }

  /** Expressions whose `to_string` reads back as themselves.  The reader
      does not undo `to_string`'s string escaping, so strings must hold
      neither `"` nor `\`; a dotted pair and a macro print as something
      else, and a list headed by `defmacro` is a definition when read. */
  predicate Readable(e: Expr)
    decreases e
  {
    match e
    case Symbol(name) => ReadableName(name)
    case Number(_) => true
    case Float(l) => ReadableFloat(l)
    case Str(t) => '"' !in t && '\\' !in t
    case List(xs) =>
      && (|xs| > 0 ==> xs[0] != Symbol("defmacro"))
      && (forall k :: 0 <= k < |xs| ==> Readable(xs[k]))
    case _ => false
  }

  predicate AllReadable(xs: seq<Expr>) {
    forall k :: 0 <= k < |xs| ==> Readable(xs[k])
  }

  /** `t` stands in `s` at position `i`. */
  predicate Rendered(s: string, i: nat, t: string) {
    i + |t| <= |s| && s[i..i + |t|] == t
  }

  /** Position `p` ends a token: the end of the input or a delimiter. */
  predicate Follows(s: string, p: nat) {
    p <= |s| && (p == |s| || IsDelimiter(s[p]))
  }

  // ---------------------------------------------------------------------------
  // Helpers about positions

  lemma RenderedSplit(s: string, i: nat, a: string, b: string)
    requires Rendered(s, i, a + b)
    ensures Rendered(s, i, a) && Rendered(s, i + |a|, b)
  {
    assert s[i..i + |a|] == s[i..i + |a + b|][..|a|];
    assert s[i + |a|..i + |a| + |b|] == s[i..i + |a + b|][|a|..];
  }

  /** Both halves of a concatenation stand where they were put. */
  lemma Concat(a: string, b: string)
    ensures Rendered(a + b, 0, a) && Rendered(a + b, |a|, b)
  {
    assert (a + b)[0..|a|] == a;
    assert (a + b)[|a|..|a| + |b|] == b;
  }

  lemma SpaceSplit(s: string, k: nat, a: string, b: string)
    requires Rendered(s, k, a + " " + b)
    ensures Rendered(s, k, a) && k + |a| < |s| && s[k + |a|] == ' ' && Rendered(s, k + |a| + 1, b)
  {
    var t := a + " " + b;
    assert s[k..k + |a|] == t[..|a|] == a;
    assert s[k + |a|] == t[|a|];
    assert s[k + |a| + 1..k + |t|] == t[|a| + 1..] == b;
  }

  lemma RenderedAt(s: string, i: nat, t: string, k: nat)
    requires Rendered(s, i, t) && k < |t|
    ensures s[i + k] == t[k]
  {
    assert s[i..i + |t|][k] == s[i + k];
  }

  /** A delimiter is not a numeral character. */
  lemma FollowsNumeral(s: string, p: nat)
    requires Follows(s, p)
    ensures p == |s| || !IsNumeralChar(s[p])
    ensures p == |s| || IsWhitespace(s[p]) || s[p] == '(' || s[p] == ')'
  {
  }

  lemma DigitsHaveNoDot(d: string)
    requires AllDigits(d)
    ensures '.' !in d
  {
  }

  lemma {:induction false} TokenEndAt(s: string, i: nat, j: nat)
    requires i <= j <= |s|
    requires forall k :: i <= k < j ==> !IsDelimiter(s[k])
    requires j == |s| || IsDelimiter(s[j])
    ensures TokenEnd(s, i) == j
    decreases j - i
  {
    if i < j {
      TokenEndAt(s, i + 1, j);
    }
  }

  lemma {:induction false} QuoteAtIs(s: string, i: nat, j: nat)
    requires i <= j < |s| && s[j] == '"'
    requires forall k :: i <= k < j ==> s[k] != '"'
    ensures QuoteAt(s, i) == j
    decreases j - i
  {
    if i < j {
      QuoteAtIs(s, i + 1, j);
    }
  }

  /** Scanning over a run of digits only moves the scan forward. */
  lemma {:induction false} ScanDigits(s: string, i: nat, d: string, seenDot: bool)
    requires Rendered(s, i, d) && AllDigits(d)
    ensures ScanNumeral(s, i, seenDot) == ScanNumeral(s, i + |d|, seenDot)
    decreases |d|
  {
    if d != [] {
      RenderedAt(s, i, d, 0);
      RenderedSplit(s, i, d[..1], d[1..]);
      assert d[..1] + d[1..] == d;
      assert AllDigits(d[1..]) by {
        forall k | 0 <= k < |d[1..]| ensures IsDigit(d[1..][k]) {
          assert d[1..][k] == d[k + 1];
        }
      }
      ScanDigits(s, i + 1, d[1..], seenDot);
    }
  }


  lemma ParseItemsSkipsSpace(s: string, k: nat, acc: seq<Expr>, m: map<string, Expr>)
    requires k < |s| && s[k] == ' '
    ensures ParseItems(s, k, acc, m) == ParseItems(s, k + 1, acc, m)
  {
    assert SkipBlank(s, k) == SkipBlank(s, k + 1);
  }

  /** A readable expression's printed form starts with a character that is
      neither blank, nor a comment, nor a closing parenthesis. */
  lemma FirstChar(e: Expr)
    requires Readable(e)
    ensures |ToString(e)| > 0
    ensures !IsWhitespace(ToString(e)[0]) && ToString(e)[0] != ';' && ToString(e)[0] != ')'
  {
    match e
    case Number(n) =>
      var t := IntToString(n as int);
      assert IsDigit(t[0]) || t[0] == '-';
    case Str(text) =>
      assert ToString(e)[0] == '"';
    case _ =>
  }

  lemma ScanDot(s: string, j: nat)
    requires j < |s| && s[j] == '.'
    ensures ScanNumeral(s, j, false) == ScanNumeral(s, j + 1, true)
    ensures ScanNumeral(s, j, true) == SecondDot(j)
  {
  }

  lemma ScanEnd(s: string, j: nat, seenDot: bool)
    requires j <= |s| && (j == |s| || !IsNumeralChar(s[j]))
    ensures ScanNumeral(s, j, seenDot) == Scanned(j, seenDot)
  {
  }

  /** Scanning a digit string that nothing numeral follows. */
  lemma ScanNatural(s: string, i: nat, d: string)
    requires Rendered(s, i, d) && AllDigits(d)
    requires i + |d| == |s| || !IsNumeralChar(s[i + |d|])
    ensures ScanNumeral(s, i, false) == Scanned(i + |d|, false)
  {
    calc {
      ScanNumeral(s, i, false);
      { ScanDigits(s, i, d, false); }
      ScanNumeral(s, i + |d|, false);
      { ScanEnd(s, i + |d|, false); }
      Scanned(i + |d|, false);
    }
  }

  /** Scanning digits, a period, then digits, that nothing numeral follows. */
  lemma ScanDotted(s: string, i: nat, a: string, b: string)
    requires Rendered(s, i, a) && i + |a| < |s| && s[i + |a|] == '.' && Rendered(s, i + |a| + 1, b)
    requires AllDigits(a) && AllDigits(b)
    requires i + |a| + 1 + |b| == |s| || !IsNumeralChar(s[i + |a| + 1 + |b|])
    ensures ScanNumeral(s, i, false) == Scanned(i + |a| + 1 + |b|, true)
  {
    var p := i + |a|;
    var q := p + 1;
    var e := q + |b|;
    calc {
      ScanNumeral(s, i, false);
      { ScanDigits(s, i, a, false); }
      ScanNumeral(s, p, false);
      { ScanDot(s, p); }
      ScanNumeral(s, q, true);
      { ScanDigits(s, q, b, true); }
      ScanNumeral(s, e, true);
      { ScanEnd(s, e, true); }
      Scanned(e, true);
    }
  }

  lemma ScanFloatText(s: string, i: nat, t: string)
    requires FloatText(t) && Rendered(s, i, t)
    requires i + |t| == |s| || !IsNumeralChar(s[i + |t|])
    ensures ScanNumeral(s, i, false) == Scanned(i + |t|, true)
  {
    var a, b := FloatParts(t);
    DottedPieces(s, i, a, b);
    ScanDotted(s, i, a, b);
  }

  lemma DottedPieces(s: string, i: nat, a: string, b: string)
    requires Rendered(s, i, a + (['.'] + b))
    ensures Rendered(s, i, a) && i + |a| < |s| && s[i + |a|] == '.' && Rendered(s, i + |a| + 1, b)
  {
    RenderedSplit(s, i, a, ['.'] + b);
    RenderedSplit(s, i + |a|, ['.'], b);
    RenderedAt(s, i + |a|, ['.'], 0);
  }

  lemma FloatParts(t: string) returns (a: string, b: string)
    requires FloatText(t)
    ensures t == a + (['.'] + b) && AllDigits(a) && AllDigits(b)
  {
    var k :| 0 <= k < |t| && t[k] == '.' && AllDigits(t[..k]) && AllDigits(t[k + 1..]);
    a, b := t[..k], t[k + 1..];
    assert t == a + (['.'] + b);
  }

  /** A float text is a numeral, and it parses as a float exactly when it
      is more than the period alone. */
  lemma FloatValue(negative: bool, t: string)
    requires FloatText(t)
    ensures forall j :: 0 <= j < |t| ==> IsNumeralChar(t[j])
    ensures NumeralValue(negative, t, true)
            == if |t| > 1 then Ok(Float(if negative then "-" + t else t)) else Fail(InvalidFloat)
  {
    var k :| 0 <= k < |t| && t[k] == '.' && AllDigits(t[..k]) && AllDigits(t[k + 1..]);
    forall j | 0 <= j < |t| ensures IsNumeralChar(t[j]) {
      if j < k {
        assert t[..k][j] == t[j];
      } else if j > k {
        assert t[k + 1..][j - k - 1] == t[j];
      }
    }
    if |t| > 1 {
      if k > 0 {
        assert t[..k][0] == t[0];
        assert IsDigit(t[0]);
      } else {
        assert t[k + 1..][0] == t[1];
        assert IsDigit(t[1]);
      }
    }
  }

  /** The characters a completed scan stepped over. */
  lemma ScannedChars(s: string, i: nat, t: string, isFloat: bool)
    requires Rendered(s, i, t) && ScanNumeral(s, i, false) == Scanned(i + |t|, isFloat)
    ensures forall j :: 0 <= j < |t| ==> IsNumeralChar(t[j]) && (t[j] == '.' ==> isFloat)
  {
    forall j | 0 <= j < |t| ensures IsNumeralChar(t[j]) && (t[j] == '.' ==> isFloat) {
      RenderedAt(s, i, t, j);
    }
  }

  /** `parse_number` once the scan has stopped after `t` at a character
      that may end a number. */
  lemma NumberOfScan(s: string, i: nat, t: string, isFloat: bool)
    requires i < |s| && IsDigit(s[i]) && Rendered(s, i, t) && |t| > 0
    requires ScanNumeral(s, i, false) == Scanned(i + |t|, isFloat)
    requires i + |t| == |s| || IsWhitespace(s[i + |t|]) || s[i + |t|] == '(' || s[i + |t|] == ')' || s[i + |t|] == ';'
    ensures forall j :: 0 <= j < |t| ==> IsNumeralChar(t[j]) && (t[j] == '.' ==> isFloat)
    ensures ParseNumber(s, i) == Token(NumeralValue(false, t, isFloat), i + |t|)
  {
    ScannedChars(s, i, t, isFloat);
    var e := i + |t|;
    assert s[i..e] == t;
    assert t[0] == s[i];
    assert ParseNumber(s, i) == Token(NumeralValue(false, s[i..e], isFloat), e);
  }

  /** `parse_number_with_leading_sign` once the scan has stopped after `t`. */
  lemma SignedOfScan(s: string, i: nat, t: string, isFloat: bool)
    requires i < |s| && IsNumeralChar(s[i]) && Rendered(s, i, t) && |t| > 0
    requires ScanNumeral(s, i, false) == Scanned(i + |t|, isFloat)
    ensures forall j :: 0 <= j < |t| ==> IsNumeralChar(t[j]) && (t[j] == '.' ==> isFloat)
    ensures ParseMinus(s, i) == Token(NumeralValue(true, t, isFloat), i + |t|)
  {
    ScannedChars(s, i, t, isFloat);
    var e := i + |t|;
    assert s[i..e] == t;
    assert ParseMinus(s, i) == ParseSignedNumber(s, i);
    assert ParseSignedNumber(s, i) == Token(NumeralValue(true, s[i..e], isFloat), e);
  }

  /** `parse_number` over a float text that starts with a digit and ends at
      a delimiter. */
  lemma FloatScanned(s: string, i: nat, t: string)
    requires FloatText(t) && Rendered(s, i, t) && Follows(s, i + |t|) && |t| > 0 && IsDigit(t[0])
    ensures IsDigit(s[i]) && forall j :: 0 <= j < |t| ==> IsNumeralChar(t[j])
    ensures ParseNumber(s, i) == Token(NumeralValue(false, t, true), i + |t|)
  {
    RenderedAt(s, i, t, 0);
    FollowsNumeral(s, i + |t|);
    ScanFloatText(s, i, t);
    NumberOfScan(s, i, t, true);
  }

  /** `parse_number_with_leading_sign` over a float text. */
  lemma SignedFloatScanned(s: string, i: nat, t: string)
    requires FloatText(t) && Rendered(s, i, t) && |t| > 0
    requires i + |t| == |s| || !IsNumeralChar(s[i + |t|])
    ensures forall j :: 0 <= j < |t| ==> IsNumeralChar(t[j])
    ensures ParseMinus(s, i) == Token(NumeralValue(true, t, true), i + |t|)
  {
    RenderedAt(s, i, t, 0);
    FloatValue(true, t);
    ScanFloatText(s, i, t);
    SignedOfScan(s, i, t, true);
  }

  // ---------------------------------------------------------------------------
  // One step of parse_expr and parse_list

  /** At a character that starts an atom, `parse_expr` is `ParseAtom`. */
  lemma ExprAtAtom(s: string, i: nat, m: map<string, Expr>)
    requires i < |s| && !IsWhitespace(s[i]) && s[i] != ';' && s[i] != '('
    requires s[i] != '\'' && s[i] != '`' && s[i] != ','
    ensures ParseExpr(s, i, m) == Parsed(ParseAtom(s, i).outcome, ParseAtom(s, i).pos, m)
  {
    assert SkipBlank(s, i) == i;
  }

  /** At `(`, `parse_expr` is `parse_list`. */
  lemma ExprAtList(s: string, i: nat, m: map<string, Expr>)
    requires i < |s| && s[i] == '('
    ensures ParseExpr(s, i, m) == ParseItems(s, i + 1, [], m)
  {
    assert SkipBlank(s, i) == i;
  }

  /** `parse_list` reads one more element. */
  lemma ItemsStep(s: string, k: nat, e: nat, acc: seq<Expr>, x: Expr, m: map<string, Expr>)
    requires k < |s| && !IsWhitespace(s[k]) && s[k] != ';' && s[k] != ')'
    requires ParseExpr(s, k, m) == Parsed(Ok(x), e, m)
    ensures e <= |s| && ParseItems(s, k, acc, m) == ParseItems(s, e, acc + [x], m)
  {
    assert SkipBlank(s, k) == k;
  }

  /** `parse_list` at its closing parenthesis. */
  lemma ItemsClose(s: string, k: nat, acc: seq<Expr>, m: map<string, Expr>)
    requires k < |s| && s[k] == ')' && !(|acc| > 0 && acc[0] == Symbol("defmacro"))
    ensures ParseItems(s, k, acc, m) == Parsed(Ok(List(acc)), k + 1, m)
  {
    assert SkipBlank(s, k) == k;
  }

  /** `parse_list` runs out of input. */
  lemma ItemsAtEnd(s: string, acc: seq<Expr>, m: map<string, Expr>)
    ensures ParseItems(s, |s|, acc, m) == Parsed(Fail(EndOfList), |s|, m)
  {
  }

  // ---------------------------------------------------------------------------
  // Atoms

  lemma SymbolToken(s: string, i: nat, name: string)
    requires ReadableName(name) && Rendered(s, i, name) && Follows(s, i + |name|)
    requires name == "-" ==> i + 1 < |s|
    ensures ParseAtom(s, i) == Token(Ok(Symbol(name)), i + |name|)
  {
    RenderedAt(s, i, name, 0);
    forall k | i <= k < i + |name| ensures !IsDelimiter(s[k]) {
      RenderedAt(s, i, name, k - i);
    }
    if name[0] == '-' {
      if |name| > 1 {
        RenderedAt(s, i, name, 1);
        TokenEndAt(s, i + 1, i + |name|);
        RenderedSplit(s, i, name[..1], name[1..]);
        assert name[..1] + name[1..] == name;
        assert "-" + s[i + 1..i + |name|] == name;
        assert ParseMinus(s, i + 1) == ParseSymbolWithLeadingMinus(s, i + 1);
      } else {
        assert name == "-";
        assert IsDelimiter(s[i + 1]) && !IsNumeralChar(s[i + 1]);
        assert ParseAtom(s, i) == ParseMinus(s, i + 1);
      }
    } else {
      TokenEndAt(s, i, i + |name|);
      assert ParseAtom(s, i) == ParseSymbol(s, i);
    }
  }

  /** A scanned digit string is an integer numeral, in range when its
      value is at most 2^63 - 1 ... */
  lemma PositiveValue(d: string)
    requires |d| > 0 && AllDigits(d)
    ensures forall k :: 0 <= k < |d| ==> IsNumeralChar(d[k]) && d[k] != '.'
    ensures NumeralValue(false, d, false)
            == if Value(d) <= I64_MAX then Ok(Number(Value(d) as i64)) else Fail(InvalidNumber)
  {
    DigitsHaveNoDot(d);
    assert NumeralValue(false, d, false)
           == if Value(d) <= I64_MAX then Ok(Number(SignedValue(false, d) as i64)) else Fail(InvalidNumber);
  }

  /** ... and, after a minus sign, at most 2^63. */
  lemma NegativeValue(d: string, v: int)
    requires |d| > 0 && AllDigits(d) && v == -(Value(d) as int)
    ensures forall k :: 0 <= k < |d| ==> IsNumeralChar(d[k]) && d[k] != '.'
    ensures NumeralValue(true, d, false) == if InI64(v) then Ok(Number(v as i64)) else Fail(InvalidNumber)
  {
    DigitsHaveNoDot(d);
    assert SignedValue(true, d) == v;
  }

  /** `parse_number` over a digit string that a valid follower ends. */
  lemma NumberScanned(s: string, i: nat, d: string)
    requires |d| > 0 && AllDigits(d) && Rendered(s, i, d)
    requires i + |d| == |s| || IsWhitespace(s[i + |d|]) || s[i + |d|] == '(' || s[i + |d|] == ')' || s[i + |d|] == ';'
    ensures IsDigit(s[i])
    ensures ParseNumber(s, i) == Token(NumeralValue(false, d, false), i + |d|)
  {
    RenderedAt(s, i, d, 0);
    ScanNatural(s, i, d);
    NumberOfScan(s, i, d, false);
  }

  /** `parse_number_with_leading_sign` over a digit string that nothing
      numeral follows. */
  lemma SignedScanned(s: string, i: nat, d: string)
    requires |d| > 0 && AllDigits(d) && Rendered(s, i, d)
    requires i + |d| == |s| || !IsNumeralChar(s[i + |d|])
    ensures ParseMinus(s, i) == Token(NumeralValue(true, d, false), i + |d|)
  {
    RenderedAt(s, i, d, 0);
    ScanNatural(s, i, d);
    SignedOfScan(s, i, d, false);
  }

  lemma AtomAtDigit(s: string, i: nat)
    requires i < |s| && IsDigit(s[i])
    ensures ParseAtom(s, i) == ParseNumber(s, i)
  {
  }

  lemma NaturalToken(s: string, i: nat, d: string)
    requires |d| > 0 && AllDigits(d) && Rendered(s, i, d)
    requires i + |d| == |s| || IsWhitespace(s[i + |d|]) || s[i + |d|] == '(' || s[i + |d|] == ')' || s[i + |d|] == ';'
    ensures ParseAtom(s, i) == ParseNumber(s, i)
    ensures ParseNumber(s, i)
            == Token(if Value(d) <= I64_MAX then Ok(Number(Value(d) as i64)) else Fail(InvalidNumber), i + |d|)
  {
    NumberScanned(s, i, d);
    AtomAtDigit(s, i);
    PositiveValue(d);
  }

  lemma NegativeToken(s: string, i: nat, d: string, v: int)
    requires |d| > 0 && AllDigits(d) && Rendered(s, i, d) && v == -(Value(d) as int)
    requires i + |d| == |s| || !IsNumeralChar(s[i + |d|])
    ensures InI64(v) <==> Value(d) <= -I64_MIN
    ensures ParseMinus(s, i) == Token(if InI64(v) then Ok(Number(v as i64)) else Fail(InvalidNumber), i + |d|)
  {
    SignedScanned(s, i, d);
    NegativeValue(d, v);
  }

  lemma NumberToken(s: string, i: nat, n: i64)
    requires Rendered(s, i, IntToString(n as int)) && Follows(s, i + |IntToString(n as int)|)
    ensures ParseAtom(s, i) == Token(Ok(Number(n)), i + |IntToString(n as int)|)
  {
    if n >= 0 {
      ValueOfNatToString(n as int);
      NaturalToken(s, i, IntToString(n as int));
    } else {
      var d := NegativePieces(s, i, n);
      FollowsNumeral(s, i + 1 + |d|);
      NegativeNumberToken(s, i + 1, d, n as int, n);
    }
  }

  /** The printed form of a negative number: a minus sign, then digits. */
  lemma NegativePieces(s: string, i: nat, n: i64) returns (d: string)
    requires n < 0 && Rendered(s, i, IntToString(n as int))
    ensures |d| > 0 && AllDigits(d) && Value(d) == -(n as int)
    ensures i < |s| && s[i] == '-' && Rendered(s, i + 1, d) && |IntToString(n as int)| == 1 + |d|
  {
    d := NatToString(-(n as int));
    ValueOfNatToString(-(n as int));
    assert IntToString(n as int) == "-" + d;
    RenderedSplit(s, i, "-", d);
    RenderedAt(s, i, "-", 0);
  }

  /** A minus sign at `i - 1`, then the digits `d` of `-n`. */
  lemma NegativeNumberToken(s: string, i: nat, d: string, v: int, n: i64)
    requires v == n as int && |d| > 0 && AllDigits(d) && Rendered(s, i, d) && v == -(Value(d) as int)
    requires i + |d| == |s| || !IsNumeralChar(s[i + |d|])
    requires i > 0 && s[i - 1] == '-'
    ensures ParseAtom(s, i - 1) == Token(Ok(Number(n)), i + |d|)
  {
    NegativeToken(s, i, d, v);
  }


  lemma FloatToken(s: string, i: nat, l: string)
    requires ReadableFloat(l) && Rendered(s, i, l) && Follows(s, i + |l|)
    ensures ParseAtom(s, i) == Token(Ok(Float(l)), i + |l|)
  {
    if |l| > 0 && IsDigit(l[0]) && FloatText(l) {
      FloatScanned(s, i, l);
      FloatValue(false, l);
      AtomAtDigit(s, i);
    } else {
      var r := l[1..];
      assert l == "-" + r;
      RenderedSplit(s, i, "-", r);
      RenderedAt(s, i, "-", 0);
      FollowsNumeral(s, i + |l|);
      NegativeFloatToken(s, i + 1, r);
    }
  }

  /** A minus sign at `i - 1`, then a float text. */
  lemma NegativeFloatToken(s: string, i: nat, r: string)
    requires FloatText(r) && |r| > 1 && Rendered(s, i, r) && i > 0 && s[i - 1] == '-'
    requires i + |r| == |s| || !IsNumeralChar(s[i + |r|])
    ensures ParseAtom(s, i - 1) == Token(Ok(Float("-" + r)), i + |r|)
  {
    SignedFloatScanned(s, i, r);
    FloatValue(true, r);
  }

  lemma StrToken(s: string, i: nat, text: string)
    requires '"' !in text && '\\' !in text
    requires Rendered(s, i, ToString(Str(text)))
    ensures |ToString(Str(text))| == |text| + 2
    ensures ParseAtom(s, i) == Token(Ok(Str(text)), i + |text| + 2)
  {
    StrPieces(s, i, text);
    StrTokenAt(s, i, text);
  }

  /** The printed form of a string without quotes or backslashes: the
      text between two quotes. */
  lemma StrPieces(s: string, i: nat, text: string)
    requires '"' !in text && '\\' !in text
    requires Rendered(s, i, ToString(Str(text)))
    ensures |ToString(Str(text))| == |text| + 2
    ensures i + |text| + 1 < |s| && s[i] == '"' && Rendered(s, i + 1, text) && s[i + 1 + |text|] == '"'
  {
    StrPrinted(text);
    QuotedPieces(s, i, text);
  }

  lemma StrPrinted(text: string)
    requires '"' !in text && '\\' !in text
    ensures ToString(Str(text)) == "\"" + (text + "\"")
  {
    NoBackslashUnchanged(text);
    NoQuoteUnchanged(text);
  }

  lemma QuotedPieces(s: string, i: nat, text: string)
    requires Rendered(s, i, "\"" + (text + "\""))
    ensures i + |text| + 1 < |s| && s[i] == '"' && Rendered(s, i + 1, text) && s[i + 1 + |text|] == '"'
  {
    RenderedSplit(s, i, "\"", text + "\"");
    RenderedAt(s, i, "\"", 0);
    RenderedSplit(s, i + 1, text, "\"");
    RenderedAt(s, i + 1 + |text|, "\"", 0);
  }

  lemma StrTokenAt(s: string, i: nat, text: string)
    requires '"' !in text
    requires i + |text| + 1 < |s| && s[i] == '"' && Rendered(s, i + 1, text) && s[i + 1 + |text|] == '"'
    ensures ParseAtom(s, i) == Token(Ok(Str(text)), i + |text| + 2)
  {
    var q := i + 1 + |text|;
    forall k | i + 1 <= k < q ensures s[k] != '"' {
      RenderedAt(s, i + 1, text, k - i - 1);
    }
    QuoteAtIs(s, i + 1, q);
    assert s[i + 1..q] == text;
    assert ParseAtom(s, i) == ParseString(s, i + 1);
  }

  // ---------------------------------------------------------------------------
  // Reading one printed expression

  /** The printed form of a readable atom starts where `parse_expr` hands
      over to the atom parsers. */
  lemma AtomStart(e: Expr)
    requires Readable(e) && !e.List?
    ensures |ToString(e)| > 0
    ensures var c := ToString(e)[0];
            !IsWhitespace(c) && c != ';' && c != '(' && c != '\'' && c != '`' && c != ','
  {
    match e
    case Number(n) =>
      var t := IntToString(n as int);
      assert IsDigit(t[0]) || t[0] == '-';
    case Float(l) =>
      assert IsDigit(l[0]) || l[0] == '-';
    case Str(text) =>
      assert ToString(e)[0] == '"';
    case Symbol(name) =>
  }

  /** A readable atom printed at `i` is read as a token. */
  lemma AtomToken(s: string, i: nat, e: Expr)
    requires Readable(e) && !e.List? && Rendered(s, i, ToString(e)) && Follows(s, i + |ToString(e)|)
    requires e == Symbol("-") ==> i + 1 < |s|
    ensures ParseAtom(s, i) == Token(Ok(e), i + |ToString(e)|)
  {
    match e
    case Symbol(name) => SymbolToken(s, i, name);
    case Number(n) => NumberToken(s, i, n);
    case Float(l) => FloatToken(s, i, l);
    case Str(text) => StrToken(s, i, text);
  }

  lemma AtomRendered(s: string, i: nat, e: Expr, m: map<string, Expr>)
    requires Readable(e) && !e.List? && Rendered(s, i, ToString(e)) && Follows(s, i + |ToString(e)|)
    requires e == Symbol("-") ==> i + 1 < |s|
    ensures ParseExpr(s, i, m) == Parsed(Ok(e), i + |ToString(e)|, m)
  {
    AtomStart(e);
    RenderedAt(s, i, ToString(e), 0);
    ExprAtAtom(s, i, m);
    AtomToken(s, i, e);
  }

  /** Reading at the printed form of a readable expression, followed by a
      delimiter or the end, gives the expression and stops right after it
      (a lone `-` at the very end is read as an incomplete number). */
  lemma {:induction false} ParseExprRendered(s: string, i: nat, e: Expr, m: map<string, Expr>)
    requires Readable(e) && Rendered(s, i, ToString(e)) && Follows(s, i + |ToString(e)|)
    requires e == Symbol("-") ==> i + 1 < |s|
    ensures ParseExpr(s, i, m) == Parsed(Ok(e), i + |ToString(e)|, m)
    decreases e, 0
  {
    if e.List? {
      var body := ToStringAll(e.elems);
      assert ToString(e) == "(" + (body + ")");
      RenderedSplit(s, i, "(", body + ")");
      RenderedSplit(s, i + 1, body, ")");
      RenderedAt(s, i, "(", 0);
      RenderedAt(s, i + 1 + |body|, ")", 0);
      ListRendered(s, i, e.elems, m);
    } else {
      AtomRendered(s, i, e, m);
    }
  }

  /** The list case: an opening parenthesis, the printed elements, and the
      closing parenthesis. */
  lemma {:induction false} ListRendered(s: string, i: nat, xs: seq<Expr>, m: map<string, Expr>)
    requires AllReadable(xs) && (|xs| > 0 ==> xs[0] != Symbol("defmacro"))
    requires i < |s| && s[i] == '(' && Rendered(s, i + 1, ToStringAll(xs))
    requires i + 1 + |ToStringAll(xs)| < |s| && s[i + 1 + |ToStringAll(xs)|] == ')'
    ensures ParseExpr(s, i, m) == Parsed(Ok(List(xs)), i + 2 + |ToStringAll(xs)|, m)
    decreases xs, 2
  {
    var q := i + 1 + |ToStringAll(xs)|;
    calc {
      ParseExpr(s, i, m);
      { ExprAtList(s, i, m); }
      ParseItems(s, i + 1, [], m);
      { assert [] + xs == xs; ItemsRendered(s, i + 1, q, [], xs, xs, m); }
      ParseItems(s, q, xs, m);
      { ItemsClose(s, q, xs, m); }
      Parsed(Ok(List(xs)), q + 1, m);
    }
  }

  /** The printed elements of a list of two or more: the first, a space,
      the rest. */
  lemma ConsRendered(s: string, k: nat, xs: seq<Expr>)
    requires |xs| > 1 && Rendered(s, k, ToStringAll(xs))
    ensures var p := k + |ToString(xs[0])|;
            && Rendered(s, k, ToString(xs[0])) && p < |s| && s[p] == ' '
            && Rendered(s, p + 1, ToStringAll(xs[1..]))
            && |ToStringAll(xs)| == |ToString(xs[0])| + 1 + |ToStringAll(xs[1..])|
  {
    assert ToStringAll(xs) == ToString(xs[0]) + " " + ToStringAll(xs[1..]);
    SpaceSplit(s, k, ToString(xs[0]), ToStringAll(xs[1..]));
  }

  lemma TailReadable(xs: seq<Expr>)
    requires |xs| > 1 && AllReadable(xs)
    ensures Readable(xs[0]) && AllReadable(xs[1..]) && xs[1..][|xs[1..]| - 1] == xs[|xs| - 1]
  {
    forall j | 0 <= j < |xs[1..]| ensures Readable(xs[1..][j]) {
      assert xs[1..][j] == xs[j + 1];
    }
  }

  /** `parse_list` reads one printed element that ends at `e`. */
  lemma {:induction false} ItemRendered(s: string, k: nat, e: nat, acc: seq<Expr>, x: Expr, m: map<string, Expr>)
    requires Readable(x) && Rendered(s, k, ToString(x)) && e == k + |ToString(x)| && Follows(s, e)
    requires x == Symbol("-") ==> k + 1 < |s|
    ensures ParseItems(s, k, acc, m) == ParseItems(s, e, acc + [x], m)
    decreases x, 2
  {
    FirstChar(x);
    RenderedAt(s, k, ToString(x), 0);
    ParseExprRendered(s, k, x, m);
    ItemsStep(s, k, e, acc, x, m);
  }

  /** ... and then the space after it. */
  lemma {:induction false} ItemThenSpace(s: string, k: nat, p: nat, acc: seq<Expr>, x: Expr, m: map<string, Expr>)
    requires Readable(x) && Rendered(s, k, ToString(x)) && p == k + |ToString(x)| && p < |s| && s[p] == ' '
    ensures ParseItems(s, k, acc, m) == ParseItems(s, p + 1, acc + [x], m)
    decreases x, 3
  {
    assert IsDelimiter(s[p]);
    ItemRendered(s, k, p, acc, x, m);
    ParseItemsSkipsSpace(s, p, acc + [x], m);
  }

  /** Reading at the printed elements of a list (separated by single spaces)
      that end at `e` collects them all, after `acc`, and stops at `e`. */
  lemma {:induction false} ItemsRendered(s: string, k: nat, e: nat, acc: seq<Expr>, xs: seq<Expr>, all: seq<Expr>, m: map<string, Expr>)
    requires AllReadable(xs) && Rendered(s, k, ToStringAll(xs)) && e == k + |ToStringAll(xs)| && Follows(s, e)
    requires e == |s| && xs != [] ==> xs[|xs| - 1] != Symbol("-")
    requires all == acc + xs
    ensures ParseItems(s, k, acc, m) == ParseItems(s, e, all, m)
    decreases xs, 1
  {
    if xs == [] {
      assert all == acc;
    } else if |xs| == 1 {
      assert ToStringAll(xs) == ToString(xs[0]);
      assert all == acc + [xs[0]];
      ItemRendered(s, k, e, acc, xs[0], m);
    } else {
      ConsRendered(s, k, xs);
      TailReadable(xs);
      ConsAppend(acc, xs);
      ItemsRenderedCons(s, k, k + |ToString(xs[0])|, e, acc, xs, xs[0], xs[1..], acc + [xs[0]], all, m);
    }
  }

  lemma ConsAppend(acc: seq<Expr>, xs: seq<Expr>)
    requires |xs| > 0
    ensures acc + [xs[0]] + xs[1..] == acc + xs
  {
    assert [xs[0]] + xs[1..] == xs;
  }

  /** Two or more elements: the first, the space, then the rest. */
  lemma {:induction false} ItemsRenderedCons(s: string, k: nat, p: nat, e: nat, acc: seq<Expr>, xs: seq<Expr>, x: Expr, rest: seq<Expr>, mid: seq<Expr>, all: seq<Expr>, m: map<string, Expr>)
    requires |xs| > 1 && x == xs[0] && rest == xs[1..] && mid == acc + [x] && all == mid + rest
    requires Readable(x) && AllReadable(rest)
    requires Rendered(s, k, ToString(x)) && p == k + |ToString(x)| && p < |s| && s[p] == ' '
    requires Rendered(s, p + 1, ToStringAll(rest)) && e == p + 1 + |ToStringAll(rest)| && Follows(s, e)
    requires e == |s| ==> rest[|rest| - 1] != Symbol("-")
    ensures ParseItems(s, k, acc, m) == ParseItems(s, e, all, m)
    decreases xs, 0
  {
    ItemThenSpace(s, k, p, acc, x, m);
    ItemsRendered(s, p + 1, e, mid, rest, all, m);
    assert ParseItems(s, k, acc, m) == ParseItems(s, p + 1, mid, m) == ParseItems(s, e, all, m);
  }

  // ---------------------------------------------------------------------------
  // Read

  /** `Read` once a whole expression has been parsed with nothing after it. */
  lemma ReadWhole(s: string, m: map<string, Expr>, fuel: nat, e: Expr, m': map<string, Expr>)
    requires 0 < |s| && !IsWhitespace(s[0]) && s[0] != ';'
    requires ParseExpr(s, 0, m) == Parsed(Ok(e), |s|, m')
    ensures Read(s, m, fuel) == WithMacros(ExpandMacro(fuel, e, m'), m')
  {
    assert SkipBlank(s, 0) == 0;
  }

  /** `Read` once parsing has failed: the error, and the table as it was
      when parsing stopped. */
  lemma ReadError(s: string, m: map<string, Expr>, fuel: nat, err: LispError, p: nat, m': map<string, Expr>)
    requires 0 < |s| && !IsWhitespace(s[0]) && s[0] != ';'
    requires ParseExpr(s, 0, m) == Parsed(Err(err), p, m')
    ensures Read(s, m, fuel) == WithMacros(Err(err), m')
  {
    assert SkipBlank(s, 0) == 0;
  }

  /** `Read` once an expression has been parsed and something other than
      blanks follows it. */
  lemma ReadLeftover(s: string, m: map<string, Expr>, fuel: nat, e: Expr, p: nat, m': map<string, Expr>)
    requires 0 < |s| && !IsWhitespace(s[0]) && s[0] != ';'
    requires ParseExpr(s, 0, m) == Parsed(Ok(e), p, m')
    requires p < |s| && !IsWhitespace(s[p]) && s[p] != ';'
    ensures Read(s, m, fuel) == WithMacros(Fail(TrailingInput), m')
  {
    assert SkipBlank(s, 0) == 0;
    assert SkipBlank(s, p) == p;
  }

  /** `parse_expr` at a single atom token. */
  lemma ExprToken(s: string, i: nat, m: map<string, Expr>, t: Token)
    requires i < |s| && !IsWhitespace(s[i]) && s[i] != ';' && s[i] != '('
    requires s[i] != '\'' && s[i] != '`' && s[i] != ','
    requires ParseAtom(s, i) == t
    ensures ParseExpr(s, i, m) == Parsed(t.outcome, t.pos, m)
  {
    ExprAtAtom(s, i, m);
  }

  /** The round trip: reading the printed form of a readable expression
      that calls no macro gives the expression back, and the macro table is
      untouched. */
  lemma ReadToString(e: Expr, m: map<string, Expr>, fuel: nat)
    requires Readable(e) && e != Symbol("-") && NoMacroCalls(e, m)
    ensures Read(ToString(e), m, fuel) == WithMacros(Ok(e), m)
  {
    var s := ToString(e);
    FirstChar(e);
    assert s[0..|s|] == s;
    ParseExprRendered(s, 0, e, m);
    ReadWhole(s, m, fuel, e, m);
    ExpandWithoutCalls(fuel, e, m);
  }

  /** With the initial, empty macro table every readable expression other
      than the lone `-` reads back. */
  lemma ReadToStringInitially(e: Expr, fuel: nat)
    requires Readable(e) && e != Symbol("-")
    ensures Read(ToString(e), map[], fuel) == WithMacros(Ok(e), map[])
  {
    EmptyTableHasNoCalls(e);
    ReadToString(e, map[], fuel);
  }

  function QuoteHead(c: char): string {
    if c == '\'' then "quote" else if c == '`' then "quasiquote" else "unquote"
  }

  /** `parse_expr` at a quotation mark: the quoted expression, wrapped. */
  lemma ExprAtQuote(s: string, i: nat, x: Expr, e: nat, m: map<string, Expr>)
    requires i < |s| && (s[i] == '\'' || s[i] == '`' || s[i] == ',')
    requires ParseExpr(s, i + 1, m) == Parsed(Ok(x), e, m)
    ensures ParseExpr(s, i, m) == Parsed(Ok(List([Symbol(QuoteHead(s[i])), x])), e, m)
  {
    assert SkipBlank(s, i) == i;
  }

  lemma QuotedNoCalls(head: string, e: Expr, m: map<string, Expr>)
    requires NoMacroCalls(e, m) && head !in m
    ensures NoMacroCalls(List([Symbol(head), e]), m)
  {
    var xs := [Symbol(head), e];
    assert xs[1..] == [e] && xs[1..][1..] == [];
    assert AllNoMacroCalls(xs[1..], m);
    assert !IsMacroCall(xs, m);
  }

  /** `'x`, `` `x `` and `,x` read as `(quote x)`, `(quasiquote x)` and
      `(unquote x)`. */
  lemma ReadQuoteSugar(c: char, e: Expr, m: map<string, Expr>, fuel: nat)
    requires c == '\'' || c == '`' || c == ','
    requires Readable(e) && e != Symbol("-") && NoMacroCalls(e, m) && QuoteHead(c) !in m
    ensures Read([c] + ToString(e), m, fuel) == WithMacros(Ok(List([Symbol(QuoteHead(c)), e])), m)
  {
    var t := ToString(e);
    var s := [c] + t;
    assert s[0] == c;
    Concat([c], t);
    FirstChar(e);
    RenderedAt(s, 1, t, 0);
    ParseExprRendered(s, 1, e, m);
    ExprAtQuote(s, 0, e, |s|, m);
    var r := List([Symbol(QuoteHead(c)), e]);
    ReadWhole(s, m, fuel, r, m);
    QuotedNoCalls(QuoteHead(c), e, m);
    ExpandWithoutCalls(fuel, r, m);
  }

  /** A closing parenthesis after a complete expression is left over. */
  lemma ReadExtraParen(e: Expr, m: map<string, Expr>, fuel: nat)
    requires Readable(e)
    ensures Read(ToString(e) + ")", m, fuel) == WithMacros(Fail(TrailingInput), m)
  {
    var t := ToString(e);
    var s := t + ")";
    FirstChar(e);
    Concat(t, ")");
    RenderedAt(s, 0, t, 0);
    RenderedAt(s, |t|, ")", 0);
    ParseExprRendered(s, 0, e, m);
    ReadLeftover(s, m, fuel, e, |t|, m);
  }

  /** A list whose closing parenthesis is missing is an error. */
  lemma ReadUnclosedList(xs: seq<Expr>, m: map<string, Expr>, fuel: nat)
    requires AllReadable(xs) && (xs != [] ==> xs[|xs| - 1] != Symbol("-"))
    ensures Read("(" + ToStringAll(xs), m, fuel) == WithMacros(Fail(EndOfList), m)
  {
    Concat("(", ToStringAll(xs));
    UnclosedRead("(" + ToStringAll(xs), xs, m, fuel);
  }

  lemma UnclosedRead(s: string, xs: seq<Expr>, m: map<string, Expr>, fuel: nat)
    requires AllReadable(xs) && (xs != [] ==> xs[|xs| - 1] != Symbol("-"))
    requires Rendered(s, 0, "(") && Rendered(s, 1, ToStringAll(xs)) && |s| == 1 + |ToStringAll(xs)|
    ensures Read(s, m, fuel) == WithMacros(Fail(EndOfList), m)
  {
    RenderedAt(s, 0, "(", 0);
    UnclosedItems(s, 0, xs, m);
    ReadError(s, m, fuel, Message(EndOfList), |s|, m);
  }

  /** An open list at `j` whose elements run to the end of the input. */
  lemma UnclosedItems(s: string, j: nat, xs: seq<Expr>, m: map<string, Expr>)
    requires AllReadable(xs) && (xs != [] ==> xs[|xs| - 1] != Symbol("-"))
    requires j < |s| && s[j] == '(' && Rendered(s, j + 1, ToStringAll(xs)) && |s| == j + 1 + |ToStringAll(xs)|
    ensures ParseExpr(s, j, m) == Parsed(Fail(EndOfList), |s|, m)
  {
    ExprAtList(s, j, m);
    ItemsRendered(s, j + 1, |s|, [], xs, xs, m);
    ItemsAtEnd(s, xs, m);
  }

  /** A list left open inside a list left open: the inner list runs to the
      end of the input, and the error it meets there ends the outer list
      too (`(1 (2 3`). */
  lemma ReadUnclosedNested(xs: seq<Expr>, ys: seq<Expr>, m: map<string, Expr>, fuel: nat)
    requires AllReadable(xs) && AllReadable(ys) && (ys != [] ==> ys[|ys| - 1] != Symbol("-"))
    ensures Read("(" + ToStringAll(xs) + " (" + ToStringAll(ys), m, fuel) == WithMacros(Fail(EndOfList), m)
  {
    var a, b := ToStringAll(xs), ToStringAll(ys);
    var s := "(" + a + " (" + b;
    Concat("(" + a + " (", b);
    RenderedSplit(s, 0, "(" + a, " (");
    RenderedSplit(s, 0, "(", a);
    NestedRead(s, 1 + |a|, xs, ys, m, fuel);
  }

  lemma NestedRead(s: string, e: nat, xs: seq<Expr>, ys: seq<Expr>, m: map<string, Expr>, fuel: nat)
    requires AllReadable(xs) && AllReadable(ys) && (ys != [] ==> ys[|ys| - 1] != Symbol("-"))
    requires Rendered(s, 0, "(") && Rendered(s, 1, ToStringAll(xs)) && e == 1 + |ToStringAll(xs)|
    requires Rendered(s, e, " (") && Rendered(s, e + 2, ToStringAll(ys)) && |s| == e + 2 + |ToStringAll(ys)|
    ensures Read(s, m, fuel) == WithMacros(Fail(EndOfList), m)
  {
    RenderedAt(s, 0, "(", 0);
    NestedItems(s, e, xs, ys, m);
    ReadError(s, m, fuel, Message(EndOfList), |s|, m);
  }

  /** The parse of `(xs... (ys...`, with the outer elements ending at `e`. */
  lemma NestedItems(s: string, e: nat, xs: seq<Expr>, ys: seq<Expr>, m: map<string, Expr>)
    requires AllReadable(xs) && AllReadable(ys) && (ys != [] ==> ys[|ys| - 1] != Symbol("-"))
    requires 0 < |s| && s[0] == '(' && Rendered(s, 1, ToStringAll(xs)) && e == 1 + |ToStringAll(xs)|
    requires Rendered(s, e, " (") && Rendered(s, e + 2, ToStringAll(ys)) && |s| == e + 2 + |ToStringAll(ys)|
    ensures ParseExpr(s, 0, m) == Parsed(Fail(EndOfList), |s|, m)
  {
    RenderedAt(s, e, " (", 0);
    RenderedAt(s, e, " (", 1);
    ExprAtList(s, 0, m);
    ItemsRendered(s, 1, e, [], xs, xs, m);
    ParseItemsSkipsSpace(s, e, xs, m);
    UnclosedItems(s, e + 1, ys, m);
    assert SkipBlank(s, e + 1) == e + 1;
  }

  /** The original's nested-error test: `(1 (2 3` ends in the middle of the
      inner list. */
  lemma ReadNestedErrorExample(m: map<string, Expr>, fuel: nat)
    ensures Read("(1 (2 3", m, fuel) == WithMacros(Fail(EndOfList), m)
  {
    var xs, ys := [Number(1)], [Number(2), Number(3)];
    assert ToStringAll(xs) == "1";
    assert ToStringAll(ys[1..]) == "3";
    assert ToStringAll(ys) == "2 3";
    ReadUnclosedNested(xs, ys, m, fuel);
    assert "(" + ToStringAll(xs) + " (" + ToStringAll(ys) == "(1 (2 3";
  }

  /** `defmacro` read at the top level stores the macro under its name and
      reads as the empty list. */
  lemma ReadDefmacro(name: string, params: seq<Expr>, body: Expr, m: map<string, Expr>, fuel: nat)
    requires ReadableName(name) && Readable(List(params)) && Readable(body)
    ensures Read(ToString(List([Symbol("defmacro"), Symbol(name), List(params), body])), m, fuel)
            == WithMacros(Ok(Nil), m[name := Macro(params, body)])
  {
    var xs := [Symbol("defmacro"), Symbol(name), List(params), body];
    var inner := ToStringAll(xs);
    DefmacroForm(xs, name, params, body);
    Concat("(", inner + ")");
    DefmacroRead("(" + (inner + ")"), xs, m, fuel);
    assert ParseDefmacro(xs, m) == WithMacros(Ok(Nil), m[name := Macro(params, body)]);
  }

  lemma DefmacroForm(xs: seq<Expr>, name: string, params: seq<Expr>, body: Expr)
    requires ReadableName(name) && Readable(List(params)) && Readable(body)
    requires xs == [Symbol("defmacro"), Symbol(name), List(params), body]
    ensures AllReadable(xs) && ToString(List(xs)) == "(" + (ToStringAll(xs) + ")")
  {
    assert ReadableName("defmacro");
    forall j | 0 <= j < 4 ensures Readable(xs[j]) {
    }
  }

  lemma DefmacroRead(s: string, xs: seq<Expr>, m: map<string, Expr>, fuel: nat)
    requires AllReadable(xs) && |xs| > 0 && xs[0] == Symbol("defmacro")
    requires Rendered(s, 0, "(") && Rendered(s, 1, ToStringAll(xs) + ")") && |s| == 2 + |ToStringAll(xs)|
    ensures ParseDefmacro(xs, m).result.Ok? ==> Read(s, m, fuel) == WithMacros(Ok(Nil), ParseDefmacro(xs, m).macros)
  {
    RenderedAt(s, 0, "(", 0);
    RenderedSplit(s, 1, ToStringAll(xs), ")");
    RenderedAt(s, |s| - 1, ")", 0);
    DefmacroItems(s, xs, m);
    var d := ParseDefmacro(xs, m);
    if d.result.Ok? {
      ReadWhole(s, m, fuel, Nil, d.macros);
      assert ExpandMacro(fuel, Nil, d.macros) == Ok(Nil);
    }
  }

  lemma DefmacroItems(s: string, xs: seq<Expr>, m: map<string, Expr>)
    requires AllReadable(xs) && |xs| > 0 && xs[0] == Symbol("defmacro")
    requires 0 < |s| && s[0] == '(' && Rendered(s, 1, ToStringAll(xs)) && |s| == 2 + |ToStringAll(xs)|
    requires s[|s| - 1] == ')'
    ensures ParseExpr(s, 0, m) == Parsed(ParseDefmacro(xs, m).result, |s|, ParseDefmacro(xs, m).macros)
  {
    ExprAtList(s, 0, m);
    ItemsRendered(s, 1, |s| - 1, [], xs, xs, m);
    assert SkipBlank(s, |s| - 1) == |s| - 1;
  }

  // ---------------------------------------------------------------------------
  // Numbers

  /** A digit string reads as its value exactly when that value fits in an
      `i64`; otherwise it is an invalid number. */
  lemma ReadNatural(n: nat, m: map<string, Expr>, fuel: nat)
    ensures n <= I64_MAX ==> Read(NatToString(n), m, fuel) == WithMacros(Ok(Number(n as i64)), m)
    ensures n > I64_MAX ==> Read(NatToString(n), m, fuel) == WithMacros(Fail(InvalidNumber), m)
  {
    var s := NatToString(n);
    assert s[0..|s|] == s;
    ValueOfNatToString(n);
    NaturalToken(s, 0, s);
    ExprToken(s, 0, m, ParseAtom(s, 0));
    if n <= I64_MAX {
      ReadWhole(s, m, fuel, Number(n as i64), m);
    } else {
      ReadError(s, m, fuel, Message(InvalidNumber), |s|, m);
    }
  }

  /** A minus sign and a digit string read as the negated value exactly when
      it fits in an `i64`, down to -2^63. */
  lemma ReadNegative(n: nat, m: map<string, Expr>, fuel: nat)
    ensures n <= -I64_MIN ==> Read("-" + NatToString(n), m, fuel) == WithMacros(Ok(Number((-(n as int)) as i64)), m)
    ensures n > -I64_MIN ==> Read("-" + NatToString(n), m, fuel) == WithMacros(Fail(InvalidNumber), m)
  {
    var d := NatToString(n);
    var s := "-" + d;
    assert s[1..|s|] == d;
    ValueOfNatToString(n);
    NegativeToken(s, 1, d, -(n as int));
    assert ParseAtom(s, 0) == ParseMinus(s, 1);
    ExprToken(s, 0, m, ParseMinus(s, 1));
    if n <= -I64_MIN {
      ReadWhole(s, m, fuel, Number((-(n as int)) as i64), m);
    } else {
      ReadError(s, m, fuel, Message(InvalidNumber), |s|, m);
    }
  }

  /** A digit string followed directly by a character that may not end a
      numeral is an invalid number (`42abc`). */
  lemma ReadNumberWithJunk(d: string, c: char, rest: string, m: map<string, Expr>, fuel: nat)
    requires |d| > 0 && AllDigits(d)
    requires !IsNumeralChar(c) && !IsWhitespace(c) && c != '(' && c != ')' && c != ';'
    ensures Read(d + [c] + rest, m, fuel) == WithMacros(Fail(InvalidNumber), m)
  {
    var s := d + [c] + rest;
    assert s[0..|d|] == d && s[|d|] == c && s[0] == d[0];
    ScanNatural(s, 0, d);
    assert ParseAtom(s, 0) == Token(Fail(InvalidNumber), |d|);
    ExprToken(s, 0, m, Token(Fail(InvalidNumber), |d|));
    ReadError(s, m, fuel, Message(InvalidNumber), |d|, m);
  }

  /** A second period in a numeral is an invalid float (`3.14.159`). */
  lemma ReadSecondPeriod(a: string, b: string, rest: string, m: map<string, Expr>, fuel: nat)
    requires |a| > 0 && AllDigits(a) && AllDigits(b)
    ensures Read(a + "." + b + "." + rest, m, fuel) == WithMacros(Fail(InvalidFloat), m)
  {
    var s := a + "." + b + "." + rest;
    var p := |a| + 1 + |b|;
    assert s[0..|a|] == a && s[|a|] == '.' && s[0] == a[0];
    assert s[|a| + 1..p] == b && s[p] == '.';
    SecondPeriodScan(s, a, b);
    assert ParseAtom(s, 0) == Token(Fail(InvalidFloat), p);
    ExprToken(s, 0, m, Token(Fail(InvalidFloat), p));
    ReadError(s, m, fuel, Message(InvalidFloat), p, m);
  }

  lemma SecondPeriodScan(s: string, a: string, b: string)
    requires Rendered(s, 0, a) && AllDigits(a) && AllDigits(b)
    requires |a| < |s| && s[|a|] == '.' && Rendered(s, |a| + 1, b)
    requires |a| + 1 + |b| < |s| && s[|a| + 1 + |b|] == '.'
    ensures ScanNumeral(s, 0, false) == SecondDot(|a| + 1 + |b|)
  {
    var p := |a| + 1 + |b|;
    calc {
      ScanNumeral(s, 0, false);
      { ScanDigits(s, 0, a, false); }
      ScanNumeral(s, |a|, false);
      { ScanDot(s, |a|); }
      ScanNumeral(s, |a| + 1, true);
      { ScanDigits(s, |a| + 1, b, true); }
      ScanNumeral(s, p, true);
      { ScanDot(s, p); }
      SecondDot(p);
    }
  }

  /** After a leading minus sign the character following the numeral is
      not checked: inside a list `-42abc` reads as the number -42 followed
      by the symbol `abc`. */
  lemma ReadSignedNumberRunOn(n: nat, name: string, m: map<string, Expr>, fuel: nat)
    requires 0 < n <= -I64_MIN && ReadableName(name) && !IsNumeralChar(name[0])
    ensures Read("(-" + NatToString(n) + name + ")", m, fuel)
            == WithMacros(Ok(List([Number((-(n as int)) as i64), Symbol(name)])), m)
  {
    var d := NatToString(n);
    ValueOfNatToString(n);
    var s := "(-" + d + name + ")";
    var p := 2 + |d|;
    assert s[0] == '(' && s[1] == '-' && s[2..p] == d;
    assert s[p..p + |name|] == name && s[p + |name|] == ')' && |s| == p + |name| + 1;
    RunOnRead(s, d, name, m, fuel);
  }

  lemma RunOnRead(s: string, d: string, name: string, m: map<string, Expr>, fuel: nat)
    requires |d| > 0 && AllDigits(d) && 1 <= Value(d) <= -I64_MIN && ReadableName(name) && !IsNumeralChar(name[0])
    requires 2 < |s| && s[0] == '(' && s[1] == '-' && Rendered(s, 2, d) && Rendered(s, 2 + |d|, name)
    requires |s| == 3 + |d| + |name| && s[|s| - 1] == ')'
    ensures Read(s, m, fuel) == WithMacros(Ok(List([Number((-(Value(d) as int)) as i64), Symbol(name)])), m)
  {
    var w := -(Value(d) as int);
    var expected := RunOnParsed(s, d, w, name, m);
    ReadWhole(s, m, fuel, expected, m);
    RunOnNoCalls(expected, m);
    ExpandWithoutCalls(fuel, expected, m);
  }

  lemma RunOnParsed(s: string, d: string, w: int, name: string, m: map<string, Expr>) returns (expected: Expr)
    requires |d| > 0 && AllDigits(d) && 1 <= Value(d) <= -I64_MIN && ReadableName(name) && !IsNumeralChar(name[0])
    requires 2 < |s| && s[0] == '(' && s[1] == '-' && Rendered(s, 2, d) && Rendered(s, 2 + |d|, name)
    requires |s| == 3 + |d| + |name| && s[|s| - 1] == ')' && w == -(Value(d) as int)
    ensures InI64(w) && expected == List([Number(w as i64), Symbol(name)])
    ensures ParseExpr(s, 0, m) == Parsed(Ok(expected), |s|, m)
  {
    var p := 2 + |d|;
    RunOnFirst(s, d, w, m);
    RunOnSecond(s, p, name, m);
    expected := List([Number(w as i64), Symbol(name)]);
    RunOnItems(s, p, p + |name|, Number(w as i64), Symbol(name), m);
  }

  /** The second element of `(-42abc)`: the symbol, ending at the
      closing parenthesis. */
  lemma RunOnSecond(s: string, p: nat, name: string, m: map<string, Expr>)
    requires ReadableName(name) && Rendered(s, p, name) && p + |name| < |s| && s[p + |name|] == ')'
    ensures !IsWhitespace(s[p]) && s[p] != ';' && s[p] != ')'
    ensures ParseExpr(s, p, m) == Parsed(Ok(Symbol(name)), p + |name|, m)
  {
    RenderedAt(s, p, name, 0);
    SymbolToken(s, p, name);
    ExprToken(s, p, m, Token(Ok(Symbol(name)), p + |name|));
  }

  /** The first element of `(-42abc)`: the number, ending at the symbol. */
  lemma RunOnFirst(s: string, d: string, w: int, m: map<string, Expr>)
    requires |d| > 0 && AllDigits(d) && 1 <= Value(d) <= -I64_MIN && w == -(Value(d) as int)
    requires 2 < |s| && s[1] == '-' && Rendered(s, 2, d) && 2 + |d| < |s| && !IsNumeralChar(s[2 + |d|])
    ensures InI64(w) && ParseExpr(s, 1, m) == Parsed(Ok(Number(w as i64)), 2 + |d|, m)
  {
    NegativeToken(s, 2, d, w);
    assert ParseAtom(s, 1) == ParseMinus(s, 2);
    ExprToken(s, 1, m, ParseMinus(s, 2));
  }

  lemma RunOnItems(s: string, p: nat, e: nat, v: Expr, x: Expr, m: map<string, Expr>)
    requires 1 < p < |s| && s[0] == '(' && s[1] == '-' && e < |s| && s[e] == ')'
    requires ParseExpr(s, 1, m) == Parsed(Ok(v), p, m)
    requires !IsWhitespace(s[p]) && s[p] != ';' && s[p] != ')'
    requires ParseExpr(s, p, m) == Parsed(Ok(x), e, m)
    requires v != Symbol("defmacro")
    ensures ParseExpr(s, 0, m) == Parsed(Ok(List([v, x])), e + 1, m)
  {
    ExprAtList(s, 0, m);
    ItemsStep(s, 1, p, [], v, m);
    assert [] + [v] == [v];
    LastItem(s, p, e, [v], x, m);
    assert [v] + [x] == [v, x];
  }

  /** `parse_list` reads a last element and then the closing parenthesis. */
  lemma LastItem(s: string, k: nat, e: nat, acc: seq<Expr>, x: Expr, m: map<string, Expr>)
    requires k < |s| && !IsWhitespace(s[k]) && s[k] != ';' && s[k] != ')'
    requires ParseExpr(s, k, m) == Parsed(Ok(x), e, m)
    requires e < |s| && s[e] == ')' && |acc| > 0 && acc[0] != Symbol("defmacro")
    ensures ParseItems(s, k, acc, m) == Parsed(Ok(List(acc + [x])), e + 1, m)
  {
    ItemsStep(s, k, e, acc, x, m);
    ItemsClose(s, e, acc + [x], m);
  }

  lemma RunOnNoCalls(e: Expr, m: map<string, Expr>)
    requires e.List? && |e.elems| == 2 && e.elems[0].Number? && e.elems[1].Symbol?
    ensures NoMacroCalls(e, m)
  {
    var xs := e.elems;
    assert xs[1..][1..] == [];
    assert NoMacroCalls(xs[1..][0], m) && AllNoMacroCalls(xs[1..][1..], m);
    assert AllNoMacroCalls(xs[1..], m);
    assert NoMacroCalls(xs[0], m);
    assert !IsMacroCall(xs, m);
  }

  /** On its own, `-42abc` leaves `abc` over. */
  lemma ReadSignedNumberLeftover(n: nat, name: string, m: map<string, Expr>, fuel: nat)
    requires 0 < n <= -I64_MIN && ReadableName(name) && !IsNumeralChar(name[0])
    ensures Read("-" + NatToString(n) + name, m, fuel) == WithMacros(Fail(TrailingInput), m)
  {
    var d := NatToString(n);
    var v := Number((-(n as int)) as i64);
    ValueOfNatToString(n);
    var t := "-" + d + name;
    assert t[1..1 + |d|] == d && t[1 + |d|] == name[0];
    NegativeToken(t, 1, d, -(n as int));
    assert ParseAtom(t, 0) == ParseMinus(t, 1);
    ExprToken(t, 0, m, ParseMinus(t, 1));
    ReadLeftover(t, m, fuel, v, 1 + |d|, m);
  }

  /** A lone minus sign is an incomplete number. */
  lemma ReadLoneMinus(m: map<string, Expr>, fuel: nat)
    ensures Read("-", m, fuel) == WithMacros(Fail(InvalidNumber), m)
  {
    assert ParseAtom("-", 0) == ParseMinus("-", 1) == Token(Fail(InvalidNumber), 1);
    ExprToken("-", 0, m, Token(Fail(InvalidNumber), 1));
    ReadError("-", m, fuel, Message(InvalidNumber), 1, m);
  }

  /** A lone closing parenthesis reads as the empty symbol and is then
      left over. */
  lemma ReadLoneParen(m: map<string, Expr>, fuel: nat)
    ensures Read(")", m, fuel) == WithMacros(Fail(TrailingInput), m)
  {
    TokenEndAt(")", 0, 0);
    assert ")"[0..0] == "";
    assert ParseAtom(")", 0) == Token(Ok(Symbol("")), 0);
    ExprToken(")", 0, m, Token(Ok(Symbol("")), 0));
    ReadLeftover(")", m, fuel, Symbol(""), 0, m);
  }

  /** A string without its closing quote is unterminated. */
  lemma ReadUnterminated(text: string, m: map<string, Expr>, fuel: nat)
    requires '"' !in text
    ensures Read("\"" + text, m, fuel) == WithMacros(Fail(Unterminated), m)
  {
    var s := "\"" + text;
    assert s[1..] == text;
    ParseStringOutcome(s, 1);
    assert ParseAtom(s, 0) == Token(Fail(Unterminated), |s|);
    ExprToken(s, 0, m, Token(Fail(Unterminated), |s|));
    ReadError(s, m, fuel, Message(Unterminated), |s|, m);
  }
}
