/** Properties of evaluation: what each operator computes from its
    arguments, which parts of the environment it leaves alone, and the
    examples the original's tests check. */
module SemanticsLemmas {
  import opened Errors
  import opened Expressions
  import opened Environments
  import opened Arithmetic
  import opened ListOps
  import opened Comparison
  import opened Semantics

  /** Number literals for the values `ns`. */
  function Numbers(ns: seq<i64>): (r: seq<Expr>)
    ensures |r| == |ns| && forall k :: 0 <= k < |ns| ==> r[k] == Number(ns[k])
  {
    seq(|ns|, k requires 0 <= k < |ns| => Number(ns[k]))
  }

  function AsNumber(r: Result<i64>): Result<Expr> {
    match r
    case Ok(n) => Ok(Number(n))
    case Err(e) => Err(e)
  }

  /** The form `(op args...)`. */
  function Call(op: string, args: seq<Expr>): Expr {
    List([Symbol(op)] + args)
  }

  /** A form headed by a symbol is handed, unevaluated, to the operator or
      function of that name. */
  lemma EvalCall(fuel: nat, op: string, args: seq<Expr>, env: Env)
    requires fuel >= 1
    ensures Eval(fuel, Call(op, args), env) == Dispatch(fuel - 1, op, args, env)
  {
    assert ([Symbol(op)] + args)[1..] == args;
  }

  /** A literal number or string evaluates to itself and changes nothing. */
  lemma EvalLiteral(fuel: nat, e: Expr, env: Env)
    requires fuel >= 1 && (e.Number? || e.Str?)
    ensures Eval(fuel, e, env) == Outcome(Ok(e), env)
  {
  }

  // ---------------------------------------------------------------------------
  // Arithmetic

  /** Number literals are folded one after the other without touching the
      environment, until a step fails. */
  lemma {:induction false} FoldOverNumbers(fuel: nat, op: ArithOp, ns: seq<i64>, more: seq<Expr>, i: nat, acc: i64, env: Env)
    requires fuel >= 1 && i <= |ns|
    ensures FoldFrom(fuel, op, Numbers(ns) + more, i, acc, env) ==
              match StepAll(op, acc, ns[i..])
              case Err(e) => Outcome(Err(e), env)
              case Ok(a) => FoldFrom(fuel, op, Numbers(ns) + more, |ns|, a, env)
    decreases |ns| - i
  {
    var args := Numbers(ns) + more;
    if i < |ns| {
      assert args[i] == Number(ns[i]);
      EvalLiteral(fuel, args[i], env);
      assert ns[i..][0] == ns[i] && ns[i..][1..] == ns[i + 1..];
      match Step(op, acc, ns[i])
      case Err(e) =>
      case Ok(next) => FoldOverNumbers(fuel, op, ns, more, i + 1, next, env);
    } else {
      assert ns[i..] == [];
    }
  }

  /** A fold over number literals alone gives what the steps over their
      values give. */
  lemma FoldNumbers(fuel: nat, op: ArithOp, ns: seq<i64>, i: nat, acc: i64, env: Env)
    requires fuel >= 1 && i <= |ns|
    ensures FoldFrom(fuel, op, Numbers(ns), i, acc, env) == Outcome(AsNumber(StepAll(op, acc, ns[i..])), env)
  {
    assert Numbers(ns) + [] == Numbers(ns);
    FoldOverNumbers(fuel, op, ns, [], i, acc, env);
  }

  /** The operator name of a fold. */
  function OperatorSymbol(op: ArithOp): string {
    match op
    case AddOp => "+"
    case SubOp => "-"
    case MulOp => "*"
    case DivOp => "/"
  }

  /** `(+ n...)` and `(* n...)` are the folds from 0 and 1 of the numbers'
      values, in an unchanged environment. */
  lemma EvalFoldNumbers(fuel: nat, op: ArithOp, ns: seq<i64>, env: Env)
    requires fuel >= 2 && (op == AddOp || op == MulOp)
    ensures Eval(fuel, Call(OperatorSymbol(op), Numbers(ns)), env) ==
              Outcome(AsNumber(StepAll(op, if op == AddOp then 0 else 1, ns)), env)
  {
    EvalCall(fuel, OperatorSymbol(op), Numbers(ns), env);
    if op == AddOp {
      assert Dispatch(fuel - 1, "+", Numbers(ns), env) == FoldFrom(fuel - 1, AddOp, Numbers(ns), 0, 0, env);
    } else {
      assert Dispatch(fuel - 1, "*", Numbers(ns), env) == FoldFrom(fuel - 1, MulOp, Numbers(ns), 0, 1, env);
    }
    FoldNumbers(fuel - 1, op, ns, 0, if op == AddOp then 0 else 1, env);
    assert ns[0..] == ns;
  }

  /** `(- n m...)` and `(/ n m...)` are the folds from `n` of the later
      numbers' values, in an unchanged environment. */
  lemma EvalFoldFirstNumbers(fuel: nat, op: ArithOp, n: i64, ns: seq<i64>, env: Env)
    requires fuel >= 2 && (op == SubOp || op == DivOp)
    ensures Eval(fuel, Call(OperatorSymbol(op), Numbers([n] + ns)), env) == Outcome(AsNumber(StepAll(op, n, ns)), env)
  {
    var all := [n] + ns;
    EvalCall(fuel, OperatorSymbol(op), Numbers(all), env);
    EvalLiteral(fuel - 1, Numbers(all)[0], env);
    if op == SubOp {
      assert Dispatch(fuel - 1, "-", Numbers(all), env) == FoldFrom(fuel - 1, SubOp, Numbers(all), 1, n, env);
    } else {
      assert Dispatch(fuel - 1, "/", Numbers(all), env) == FoldFrom(fuel - 1, DivOp, Numbers(all), 1, n, env);
    }
    FoldNumbers(fuel - 1, op, all, 1, n, env);
    assert all[1..] == ns;
  }

  /** `(+ n...)` is the sum of the numbers and `(* n...)` their product,
      0 and 1 when there are none; an intermediate result outside 64 bits
      panics.  Neither changes the environment. */
  lemma EvalAddNumbers(fuel: nat, ns: seq<i64>, env: Env)
    requires fuel >= 2
    ensures var o := Eval(fuel, Call("+", Numbers(ns)), env);
            && o.env == env
            && (o.result.Ok? <==> PartialsFit(AddOp, 0, ns))
            && (o.result.Ok? ==> o.result.value.Number? && o.result.value.value as int == Sum(ns))
            && (o.result.Err? ==> o.result == Err(Panic(AddOverflow)))
  {
    EvalFoldNumbers(fuel, AddOp, ns, env);
    StepAllIsExact(AddOp, 0, ns);
    AddAllIsSum(0, ns);
  }

  lemma EvalMultiplyNumbers(fuel: nat, ns: seq<i64>, env: Env)
    requires fuel >= 2
    ensures var o := Eval(fuel, Call("*", Numbers(ns)), env);
            && o.env == env
            && (o.result.Ok? <==> PartialsFit(MulOp, 1, ns))
            && (o.result.Ok? ==> o.result.value.Number? && o.result.value.value as int == Product(ns))
            && (o.result.Err? ==> o.result == Err(Panic(MultiplyOverflow)))
  {
    EvalFoldNumbers(fuel, MulOp, ns, env);
    StepAllIsExact(MulOp, 1, ns);
    MulAllIsProduct(1, ns);
  }

  /** `(- n m...)` subtracts every later number from the first, so `(- n)`
      is `n` itself. */
  lemma EvalSubtractNumbers(fuel: nat, n: i64, ns: seq<i64>, env: Env)
    requires fuel >= 2
    ensures var o := Eval(fuel, Call("-", Numbers([n] + ns)), env);
            && o.env == env
            && (o.result.Ok? <==> PartialsFit(SubOp, n as int, ns))
            && (o.result.Ok? ==> o.result.value.Number? && o.result.value.value as int == n as int - Sum(ns))
            && (o.result.Err? ==> o.result == Err(Panic(SubtractOverflow)))
  {
    EvalFoldFirstNumbers(fuel, SubOp, n, ns, env);
    StepAllIsExact(SubOp, n, ns);
    SubAllIsDifference(n as int, ns);
  }

  /** `(/ n m...)` divides the first number by every later one, truncating
      toward zero; any zero divisor fails with "Division by zero".  From
      anything but `i64::MIN` nothing overflows. */
  lemma EvalDivideNumbers(fuel: nat, n: i64, ns: seq<i64>, env: Env)
    requires fuel >= 2 && n as int != I64_MIN
    ensures var o := Eval(fuel, Call("/", Numbers([n] + ns)), env);
            && o.env == env
            && (o.result.Ok? <==> forall k :: 0 <= k < |ns| ==> ns[k] != 0)
            && (o.result.Ok? ==> o.result.value.Number? && o.result.value.value as int == Quotient(n as int, ns))
            && (o.result.Err? ==> o.result == Fail(DivisionByZero))
  {
    EvalFoldFirstNumbers(fuel, DivOp, n, ns, env);
    StepAllDivides(n, ns);
  }

  /** `(/ i64::MIN -1)` overflows. */
  lemma DivideOverflows(fuel: nat, env: Env)
    requires fuel >= 2
    ensures Eval(fuel, Call("/", Numbers([I64_MIN as i64, -1])), env) == Outcome(Err(Panic(DivideOverflow)), env)
  {
    EvalFoldFirstNumbers(fuel, DivOp, I64_MIN as i64, [-1], env);
    assert [I64_MIN as i64] + [-1] == [I64_MIN as i64, -1];
    assert StepAll(DivOp, I64_MIN as i64, [-1]) == Err(Panic(DivideOverflow));
  }

  /** `-` and `/` with no argument at all fail. */
  lemma NoOperandFails(fuel: nat, env: Env)
    requires fuel >= 1
    ensures Eval(fuel, Call("-", []), env) == Outcome(Fail(SubtractArity), env)
    ensures Eval(fuel, Call("/", []), env) == Outcome(Fail(DivideArity), env)
  {
    EvalCall(fuel, "-", [], env);
    EvalCall(fuel, "/", [], env);
  }

  /** An argument whose value is not a number ends any fold with "Invalid
      number", in the environment its evaluation left; later arguments are
      not evaluated. */
  lemma NonNumberFails(fuel: nat, op: ArithOp, ns: seq<i64>, e: Expr, more: seq<Expr>, acc: i64, env: Env)
    requires fuel >= 1
    requires StepAll(op, acc, ns).Ok?
    requires Eval(fuel, e, env).result.Ok? && !Eval(fuel, e, env).result.value.Number?
    ensures FoldFrom(fuel, op, Numbers(ns) + ([e] + more), 0, acc, env) == Outcome(Fail(InvalidNumber), Eval(fuel, e, env).env)
  {
    FoldOverNumbers(fuel, op, ns, [e] + more, 0, acc, env);
    assert ns[0..] == ns;
    assert (Numbers(ns) + ([e] + more))[|ns|] == e;
  }

  // ---------------------------------------------------------------------------
  // Lists

  /** `quote` returns its one argument unevaluated. */
  lemma EvalQuote(fuel: nat, e: Expr, env: Env)
    requires fuel >= 1
    ensures Eval(fuel, Call("quote", [e]), env) == Outcome(Ok(e), env)
  {
    EvalCall(fuel, "quote", [e], env);
  }

  /** `car` of a `cons` form is the value of its first operand, and `cdr`
      of it the value of the second operand when that is a list, or the
      one-element list of it otherwise; the operands are evaluated in
      order, each in the environment the one before left. */
  lemma EvalOfCons(fuel: nat, a: Expr, b: Expr, env: Env)
    requires fuel >= 2
    ensures var p := EvalBoth(fuel - 2, a, b, env);
            var car := Eval(fuel, Call("car", [Call("cons", [a, b])]), env);
            var cdr := Eval(fuel, Call("cdr", [Call("cons", [a, b])]), env);
            && car.env == p.env && cdr.env == p.env
            && car.result == (if p.result.Err? then Err(p.result.error) else Ok(p.result.value.0))
            && cdr.result == (if p.result.Err? then Err(p.result.error)
                              else if p.result.value.1.List? then Ok(p.result.value.1)
                              else Ok(List([p.result.value.1])))
  {
    var form := Call("cons", [a, b]);
    EvalCall(fuel, "car", [form], env);
    EvalCall(fuel, "cdr", [form], env);
    EvalCall(fuel - 1, "cons", [a, b], env);
    var p := EvalBoth(fuel - 2, a, b, env);
    if p.result.Ok? {
      var (x, y) := p.result.value;
      if y.List? {
        CarCdrCons(x, y.elems);
      } else {
        ConsOntoAtom(x, y);
      }
    }
  }

  /** `count` of a quoted list is its length. */
  lemma EvalCountQuote(fuel: nat, xs: seq<Expr>, env: Env)
    requires fuel >= 3 && |xs| <= I64_MAX
    ensures Eval(fuel, Call("count", [Call("quote", [List(xs)])]), env) == Outcome(Ok(Number(|xs| as i64)), env)
  {
    EvalCall(fuel, "count", [Call("quote", [List(xs)])], env);
    EvalQuote(fuel - 1, List(xs), env);
  }

  /** `car`, `cdr` and `count` of a value that is not a list fail. */
  lemma EvalNotAList(fuel: nat, e: Expr, env: Env)
    requires fuel >= 2 && (e.Number? || e.Str?)
    ensures Eval(fuel, Call("car", [e]), env) == Outcome(Fail(CarNotList), env)
    ensures Eval(fuel, Call("cdr", [e]), env) == Outcome(Fail(CdrNotList), env)
    ensures Eval(fuel, Call("count", [e]), env) == Outcome(Fail(CountNotList), env)
  {
    EvalCall(fuel, "car", [e], env);
    EvalCall(fuel, "cdr", [e], env);
    EvalCall(fuel, "count", [e], env);
    EvalLiteral(fuel - 1, e, env);
    NotAListFails(e);
  }

  // ---------------------------------------------------------------------------
  // Comparisons

  /** An ordering of two number literals answers whether it holds, as the
      string "true" or "false". */
  lemma EvalOrdering(fuel: nat, rel: Relation, a: i64, b: i64, env: Env)
    requires fuel >= 2
    ensures Eval(fuel, Call(OperatorName(rel), [Number(a), Number(b)]), env) ==
              Outcome(Ok(Str(BoolText(Holds(rel, a, b)))), env)
  {
    var args := [Number(a), Number(b)];
    EvalCall(fuel, OperatorName(rel), args, env);
    EvalLiteral(fuel - 1, Number(a), env);
    EvalLiteral(fuel - 1, Number(b), env);
    assert EvalBoth(fuel - 1, Number(a), Number(b), env) == PairOutcome(Ok((Number(a), Number(b))), env);
    assert EvalCompare(fuel - 1, rel, args, env) == Outcome(Ok(Str(BoolText(Holds(rel, a, b)))), env);
    match rel {
      case Greater => assert Dispatch(fuel - 1, ">", args, env) == EvalCompare(fuel - 1, rel, args, env);
      case Less => assert Dispatch(fuel - 1, "<", args, env) == EvalCompare(fuel - 1, rel, args, env);
      case GreaterEqual => assert Dispatch(fuel - 1, ">=", args, env) == EvalCompare(fuel - 1, rel, args, env);
      case LessEqual => assert Dispatch(fuel - 1, "<=", args, env) == EvalCompare(fuel - 1, rel, args, env);
    }
  }

  /** The test of `cond` is the inequality with the empty list and with
      the string "false". */
  lemma TruthyMeans(v: Expr)
    ensures Truthy(v) <==> v != Nil && v != Str("false")
  {
    EqualIsIdentity(v, Nil);
    EqualIsIdentity(v, Str("false"));
  }

  /** Every answer of a comparison works as a test: the orderings' "true"
      and `=`'s `T` pass, "false" and the empty list do not. */
  lemma ComparisonsAsTests(b: bool, left: Expr, right: Expr)
    ensures Truthy(Str(BoolText(b))) <==> b
    ensures Truthy(EqualValues(left, right)) <==> Same(left, right)
  {
    TruthyMeans(Str(BoolText(b)));
    TruthyMeans(EqualValues(left, right));
  }

  // ---------------------------------------------------------------------------
  // cond

  /** Every clause from `i` on is well formed and its test evaluates,
      without error, to a value that does not pass. */
  predicate FallsThrough(fuel: nat, clauses: seq<Expr>, i: nat, env: Env)
    requires i <= |clauses|
    decreases |clauses| - i
  {
    i == |clauses| ||
    (var c := clauses[i];
     && c.List? && |c.elems| == 2
     && var t := Eval(fuel, c.elems[0], env);
        t.result.Ok? && !Truthy(t.result.value) && FallsThrough(fuel, clauses, i + 1, t.env))
  }

  /** The loop of `cond` does not look at the clauses before its start. */
  lemma {:induction false} CondShift(fuel: nat, pre: seq<Expr>, clauses: seq<Expr>, j: nat, env: Env)
    requires j <= |clauses|
    ensures CondFrom(fuel, pre + clauses, |pre| + j, env) == CondFrom(fuel, clauses, j, env)
    decreases |clauses| - j
  {
    if j < |clauses| {
      assert (pre + clauses)[|pre| + j] == clauses[j];
      var c := clauses[j];
      if c.List? && |c.elems| == 2 {
        var t := Eval(fuel, c.elems[0], env);
        if t.result.Ok? && !Truthy(t.result.value) {
          CondShift(fuel, pre, clauses, j + 1, t.env);
        }
      }
    }
  }

  /** Clauses split into two runs: a `cond` that falls through its first
      run answers the empty list, and goes on with the second run in the
      environment the tests left; one that does not fall through never
      looks at the second run, which may even be malformed. */
  lemma {:induction false} CondAppend(fuel: nat, clauses: seq<Expr>, more: seq<Expr>, i: nat, env: Env)
    requires i <= |clauses|
    ensures FallsThrough(fuel, clauses, i, env) ==> CondFrom(fuel, clauses, i, env).result == Ok(Nil)
    ensures CondFrom(fuel, clauses + more, i, env) ==
              if FallsThrough(fuel, clauses, i, env) then CondFrom(fuel, more, 0, CondFrom(fuel, clauses, i, env).env)
              else CondFrom(fuel, clauses, i, env)
    decreases |clauses| - i
  {
    if i == |clauses| {
      CondShift(fuel, clauses, more, 0, env);
    } else {
      assert (clauses + more)[i] == clauses[i];
      var c := clauses[i];
      if c.List? && |c.elems| == 2 {
        var t := Eval(fuel, c.elems[0], env);
        if t.result.Ok? && !Truthy(t.result.value) {
          CondAppend(fuel, clauses, more, i + 1, t.env);
        }
      }
    }
  }

  /** `cond` answers with the body of the first clause whose test passes,
      evaluated after the tests before it; what follows is ignored. */
  lemma CondPicksFirst(fuel: nat, before: seq<Expr>, test: Expr, body: Expr, after: seq<Expr>, env: Env)
    requires FallsThrough(fuel, before, 0, env)
    requires var t := Eval(fuel, test, CondFrom(fuel, before, 0, env).env);
             t.result.Ok? && Truthy(t.result.value)
    ensures var t := Eval(fuel, test, CondFrom(fuel, before, 0, env).env);
            Eval(fuel + 1, Call("cond", before + [List([test, body])] + after), env) == Eval(fuel, body, t.env)
  {
    var clause := List([test, body]);
    var clauses := before + [clause] + after;
    assert clauses == before + ([clause] + after);
    EvalCall(fuel + 1, "cond", clauses, env);
    CondAppend(fuel, before, [clause] + after, 0, env);
  }

  /** A `cond` whose every clause falls through answers the empty list. */
  lemma CondFallsThrough(fuel: nat, clauses: seq<Expr>, env: Env)
    requires FallsThrough(fuel, clauses, 0, env)
    ensures Eval(fuel + 1, Call("cond", clauses), env).result == Ok(Nil)
  {
    EvalCall(fuel + 1, "cond", clauses, env);
    CondAppend(fuel, clauses, [], 0, env);
  }

  /** A clause that is not a two-element list, reached by the loop, fails. */
  lemma CondMalformed(fuel: nat, before: seq<Expr>, c: Expr, after: seq<Expr>, env: Env)
    requires FallsThrough(fuel, before, 0, env)
    requires !(c.List? && |c.elems| == 2)
    ensures Eval(fuel + 1, Call("cond", before + [c] + after), env).result == Fail(CondClause)
  {
    var clauses := before + [c] + after;
    assert clauses == before + ([c] + after);
    EvalCall(fuel + 1, "cond", clauses, env);
    CondAppend(fuel, before, [c] + after, 0, env);
  }

  // ---------------------------------------------------------------------------
  // setf

  /** `(setf name e)` answers the value of `e` and binds `name` to it in
      the environment that evaluation left, changing nothing else; when `e`
      fails, `setf` writes nothing itself. */
  lemma EvalSetf(fuel: nat, name: string, e: Expr, env: Env)
    requires fuel >= 1
    ensures var a := Eval(fuel - 1, e, env);
            var o := Eval(fuel, Call("setf", [Symbol(name), e]), env);
            && o.result == a.result
            && (a.result.Ok? ==> o.env.GetSymbol(name) == Some(a.result.value)
                                 && (forall k :: k != name ==> o.env.GetSymbol(k) == a.env.GetSymbol(k))
                                 && o.env.functions == a.env.functions && o.env.macros == a.env.macros)
            && (a.result.Err? ==> o.env == a.env)
  {
    EvalCall(fuel, "setf", [Symbol(name), e], env);
  }

  /** After `(setf name e)` succeeds, `name` evaluates to the value set. */
  lemma SetfThenLookup(fuel: nat, lookup: nat, name: string, e: Expr, env: Env)
    requires fuel >= 1 && lookup >= 1
    requires Eval(fuel, Call("setf", [Symbol(name), e]), env).result.Ok?
    ensures var o := Eval(fuel, Call("setf", [Symbol(name), e]), env);
            Eval(lookup, Symbol(name), o.env) == Outcome(o.result, o.env)
  {
    EvalSetf(fuel, name, e, env);
  }

  /** Setting a literal leaves the function table as it was. */
  lemma SetfLiteral(fuel: nat, name: string, e: Expr, env: Env)
    requires fuel >= 2 && (e.Number? || e.Str?)
    ensures var o := Eval(fuel, Call("setf", [Symbol(name), e]), env);
            o.result == Ok(e) && o.env.symbols == env.symbols[name := e] && o.env.functions == env.functions
  {
    EvalCall(fuel, "setf", [Symbol(name), e], env);
    EvalLiteral(fuel - 1, e, env);
  }

  /** A `setf` with other than two arguments, or without a symbol first,
      fails before it evaluates anything. */
  lemma SetfMalformed(fuel: nat, args: seq<Expr>, env: Env)
    requires fuel >= 1 && !(|args| == 2 && args[0].Symbol?)
    ensures Eval(fuel, Call("setf", args), env) == Outcome(Fail(if |args| != 2 then SetfArity else SetfSymbol), env)
  {
    EvalCall(fuel, "setf", args, env);
  }

  // ---------------------------------------------------------------------------
  // defun and calls

  /** `defun` succeeds exactly on a symbol name and a parameter list; it
      then stores `(lambda params body)`, unevaluated, under the name and
      answers the name.  The symbol table is never touched, and a failing
      `defun` changes nothing. */
  lemma EvalDefun(fuel: nat, args: seq<Expr>, env: Env)
    requires fuel >= 1
    ensures var o := Eval(fuel, Call("defun", args), env);
            && o.env.symbols == env.symbols && o.env.macros == env.macros
            && (o.result.Ok? <==> |args| == 3 && args[0].Symbol? && args[1].List?)
            && (o.result.Ok? ==> o.result == Ok(args[0])
                                 && o.env.GetFunction(args[0].name) == Some(Lambda(args[1].elems, args[2]))
                                 && forall k :: k != args[0].name ==> o.env.GetFunction(k) == env.GetFunction(k))
            && (o.result.Err? ==> o.env == env)
  {
    EvalCall(fuel, "defun", args, env);
  }

  /** The names the evaluator handles itself; every other head symbol is
      the name of a user function. */
  const Operators: set<string> :=
    {"+", "-", "*", "/", "setf", "car", "cdr", "cons", "cond", "not",
     ">", "<", ">=", "<=", "=", "quote", "count", "defun"}

  lemma UserFunctionCall(fuel: nat, name: string, args: seq<Expr>, env: Env)
    requires fuel >= 1 && name !in Operators
    ensures Eval(fuel, Call(name, args), env) == FunctionCall(fuel - 1, name, args, env)
  {
    EvalCall(fuel, name, args, env);
  }

  /** A call of a user function, whatever it does, leaves the caller's
      environment as it was. */
  lemma CallLeavesEnvironment(fuel: nat, name: string, args: seq<Expr>, env: Env)
    requires fuel >= 1 && name !in Operators
    ensures Eval(fuel, Call(name, args), env).env == env
  {
    UserFunctionCall(fuel, name, args, env);
  }

  /** A name with no function-table entry is an undefined function, and a
      call with the wrong number of arguments is refused before any
      argument is evaluated. */
  lemma CallErrors(fuel: nat, name: string, args: seq<Expr>, env: Env)
    requires fuel >= 1 && name !in Operators
    ensures name !in env.functions ==>
              Eval(fuel, Call(name, args), env) == Outcome(Fail(UndefinedFunction(name)), env)
    ensures forall params: seq<Expr>, body: Expr ::
              env.GetFunction(name) == Some(Lambda(params, body)) && |params| != |args| ==>
                Eval(fuel, Call(name, args), env) == Outcome(Fail(CallArity), env)
  {
    UserFunctionCall(fuel, name, args, env);
  }

  /** What `defun` stores passes the checks of a call. */
  lemma LambdaShape(params: seq<Expr>, body: Expr)
    ensures var f := Lambda(params, body);
            && f.List? && |f.elems| == 3 && Equal(f.elems[0], Symbol("lambda"))
            && f.elems[1] == List(params) && f.elems[2] == body
  {
    EqualIsIdentity(Symbol("lambda"), Symbol("lambda"));
  }

  /** Symbols for the names `ps`. */
  function Symbols(ps: seq<string>): (r: seq<Expr>)
    ensures |r| == |ps| && forall k :: 0 <= k < |ps| ==> r[k] == Symbol(ps[k])
  {
    seq(|ps|, k requires 0 <= k < |ps| => Symbol(ps[k]))
  }

  /** The local environment of a call: the caller's, with the parameters
      bound to the values left to right, a later parameter of the same
      name winning. */
  function BindAll(local: Env, ps: seq<string>, ns: seq<i64>): Env
    requires |ps| == |ns|
    decreases |ps|
  {
    if ps == [] then local else BindAll(local.SetSymbol(ps[0], Number(ns[0])), ps[1..], ns[1..])
  }

  /** Binding number literals evaluates nothing but the literals. */
  lemma {:induction false} BindNumbers(fuel: nat, ps: seq<string>, ns: seq<i64>, i: nat, local: Env)
    requires fuel >= 1 && |ps| == |ns| && i <= |ps|
    ensures BindFrom(fuel, Symbols(ps), Numbers(ns), i, local) == Ok(BindAll(local, ps[i..], ns[i..]))
    decreases |ps| - i
  {
    if i < |ps| {
      EvalLiteral(fuel, Number(ns[i]), local);
      assert ps[i..][1..] == ps[i + 1..] && ns[i..][1..] == ns[i + 1..];
      BindNumbers(fuel, ps, ns, i + 1, local.SetSymbol(ps[i], Number(ns[i])));
    } else {
      assert ps[i..] == [] && ns[i..] == [];
    }
  }

  /** A user function applied to number literals runs its body in the
      caller's environment with the parameters bound to the numbers; the
      caller's environment stays as it was. */
  lemma CallWithNumbers(fuel: nat, name: string, ps: seq<string>, body: Expr, ns: seq<i64>, env: Env)
    requires fuel >= 2 && name !in Operators && |ps| == |ns|
    requires env.GetFunction(name) == Some(Lambda(Symbols(ps), body))
    ensures Eval(fuel, Call(name, Numbers(ns)), env) ==
              Outcome(Eval(fuel - 1, body, BindAll(env, ps, ns)).result, env)
  {
    UserFunctionCall(fuel, name, Numbers(ns), env);
    LambdaShape(Symbols(ps), body);
    BindNumbers(fuel - 1, ps, ns, 0, env);
    assert ps[0..] == ps && ns[0..] == ns;
  }

  /** Arguments are evaluated in the local environment as it is being
      built: in `(f v p)` for a function with parameters `(p q)`, the
      second argument `p` is already the first argument's value, whatever
      `p` is bound to in the caller. */
  lemma LaterArgumentSeesEarlier(fuel: nat, name: string, p: string, q: string, body: Expr, v: i64, env: Env)
    requires fuel >= 2 && name !in Operators
    requires env.GetFunction(name) == Some(Lambda([Symbol(p), Symbol(q)], body))
    ensures var local := env.SetSymbol(p, Number(v)).SetSymbol(q, Number(v));
            Eval(fuel, Call(name, [Number(v), Symbol(p)]), env) == Outcome(Eval(fuel - 1, body, local).result, env)
  {
    var args := [Number(v), Symbol(p)];
    var ps := [Symbol(p), Symbol(q)];
    UserFunctionCall(fuel, name, args, env);
    LambdaShape(ps, body);
    var first := env.SetSymbol(p, Number(v));
    var local := first.SetSymbol(q, Number(v));
    EvalLiteral(fuel - 1, Number(v), env);
    assert BindFrom(fuel - 1, ps, args, 0, env) == BindFrom(fuel - 1, ps, args, 1, first);
    assert Eval(fuel - 1, Symbol(p), first) == Outcome(Ok(Number(v)), first);
    assert BindFrom(fuel - 1, ps, args, 1, first) == BindFrom(fuel - 1, ps, args, 2, local);
    assert FunctionCall(fuel - 1, name, args, env) == Outcome(Eval(fuel - 1, body, local).result, env);
  }
}
