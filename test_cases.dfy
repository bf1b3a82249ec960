/** The evaluations that the unit tests of src/evaluator.rs and
    src/operator/lambda.rs check, proved of the model, and the recursive
    `fib` function of the lambda tests. */
module TestCases {
  import opened Errors
  import opened Expressions
  import opened Environments
  import opened Arithmetic
  import opened Comparison
  import opened Semantics
  import opened SemanticsLemmas

  /** The environment of the evaluator's tests: `x` is 10 and `y` is 20. */
  function EvaluatorEnv(): Env {
    Initial().SetSymbol("x", Number(10)).SetSymbol("y", Number(20))
  }

  lemma SymbolExamples(fuel: nat)
    requires fuel >= 1
    ensures Eval(fuel, Symbol("x"), EvaluatorEnv()).result == Ok(Number(10))
    ensures Eval(fuel, Symbol("z"), EvaluatorEnv()).result == Fail(UndefinedSymbol("z"))
    ensures Eval(fuel, Number(42), EvaluatorEnv()).result == Ok(Number(42))
    ensures Eval(fuel, Str("Hello"), EvaluatorEnv()).result == Ok(Str("Hello"))
    ensures Eval(fuel, Nil, EvaluatorEnv()).result == Ok(Nil)
  {
    var env := EvaluatorEnv();
    assert env.GetSymbol("x") == Some(Number(10));
    assert env.GetSymbol("z") == Initial().GetSymbol("z") by {
      InitialBindings();
    }
    InitialBindings();
    assert "z" !in env.symbols;
  }

  /** `(+ 1 2)` is 3. */
  lemma AddNumbersExample(fuel: nat)
    requires fuel >= 2
    ensures Eval(fuel, Call("+", [Number(1), Number(2)]), EvaluatorEnv()).result == Ok(Number(3))
  {
    assert Numbers([1, 2]) == [Number(1), Number(2)];
    EvalFoldNumbers(fuel, AddOp, [1, 2], EvaluatorEnv());
    assert StepAll(AddOp, 0, [1, 2]) == StepAll(AddOp, 1, [2]) == StepAll(AddOp, 3, []);
  }

  /** `(* 3 4)` is 12. */
  lemma MultiplyNumbersExample(fuel: nat)
    requires fuel >= 2
    ensures Eval(fuel, Call("*", [Number(3), Number(4)]), EvaluatorEnv()).result == Ok(Number(12))
  {
    assert Numbers([3, 4]) == [Number(3), Number(4)];
    EvalFoldNumbers(fuel, MulOp, [3, 4], EvaluatorEnv());
    assert StepAll(MulOp, 1, [3, 4]) == StepAll(MulOp, 3, [4]) == StepAll(MulOp, 12, []);
  }

  /** `(cons 1 (quote (2 3)))` is `(1 2 3)`. */
  lemma ConsExample(fuel: nat)
    requires fuel >= 3
    ensures Eval(fuel, Call("cons", [Number(1), Call("quote", [List([Number(2), Number(3)])])]), EvaluatorEnv()).result
              == Ok(List([Number(1), Number(2), Number(3)]))
  {
    var env := EvaluatorEnv();
    var quoted := Call("quote", [List([Number(2), Number(3)])]);
    EvalCall(fuel, "cons", [Number(1), quoted], env);
    EvalLiteral(fuel - 1, Number(1), env);
    EvalQuote(fuel - 1, List([Number(2), Number(3)]), env);
    assert EvalBoth(fuel - 1, Number(1), quoted, env) == PairOutcome(Ok((Number(1), List([Number(2), Number(3)]))), env);
    assert Dispatch(fuel - 1, "cons", [Number(1), quoted], env) == EvalCons(fuel - 1, [Number(1), quoted], env);
    assert [Number(1)] + [Number(2), Number(3)] == [Number(1), Number(2), Number(3)];
  }

  /** `(car (quote (1 2 3)))` is 1 and `(cdr (quote (1 2 3)))` is `(2 3)`. */
  lemma CarExample(fuel: nat)
    requires fuel >= 3
    ensures Eval(fuel, Call("car", [Call("quote", [List([Number(1), Number(2), Number(3)])])]), EvaluatorEnv()).result
              == Ok(Number(1))
  {
    var three := Call("quote", [List([Number(1), Number(2), Number(3)])]);
    EvalCall(fuel, "car", [three], EvaluatorEnv());
    EvalQuote(fuel - 1, List([Number(1), Number(2), Number(3)]), EvaluatorEnv());
  }

  lemma CdrExample(fuel: nat)
    requires fuel >= 3
    ensures Eval(fuel, Call("cdr", [Call("quote", [List([Number(1), Number(2), Number(3)])])]), EvaluatorEnv()).result
              == Ok(List([Number(2), Number(3)]))
  {
    var three := Call("quote", [List([Number(1), Number(2), Number(3)])]);
    EvalCall(fuel, "cdr", [three], EvaluatorEnv());
    EvalQuote(fuel - 1, List([Number(1), Number(2), Number(3)]), EvaluatorEnv());
    assert [Number(1), Number(2), Number(3)][1..] == [Number(2), Number(3)];
  }

  /** `(cond ((> 5 3) 42) (else 0))` is 42. */
  lemma CondFirstExample(fuel: nat)
    requires fuel >= 3
    ensures Eval(fuel, Call("cond", [List([Call(">", [Number(5), Number(3)]), Number(42)]),
                                     List([Symbol("else"), Number(0)])]), EvaluatorEnv()).result
              == Ok(Number(42))
  {
    var env := EvaluatorEnv();
    var greater := Call(">", [Number(5), Number(3)]);
    EvalOrdering(fuel - 1, Greater, 5, 3, env);
    ComparisonsAsTests(true, Nil, Nil);
    var tail := [List([Symbol("else"), Number(0)])];
    assert [] + [List([greater, Number(42)])] + tail == [List([greater, Number(42)]), List([Symbol("else"), Number(0)])];
    CondPicksFirst(fuel - 1, [], greater, Number(42), tail, env);
  }

  /** A clause whose test answers "false" passes control on with the
      environment unchanged. */
  lemma FalseTestFallsThrough(fuel: nat, test: Expr, body: Expr, env: Env)
    requires Eval(fuel, test, env) == Outcome(Ok(Str("false")), env)
    ensures FallsThrough(fuel, [List([test, body])], 0, env)
    ensures CondFrom(fuel, [List([test, body])], 0, env).env == env
  {
    var before := [List([test, body])];
    TruthyMeans(Str("false"));
    assert FallsThrough(fuel, before, 1, env);
    assert CondFrom(fuel, before, 0, env) == CondFrom(fuel, before, 1, env);
  }

  /** `(cond ((< 5 3) 42) ((> 5 3) 100))` is 100. */
  lemma CondSecondExample(fuel: nat)
    requires fuel >= 3
    ensures Eval(fuel, Call("cond", [List([Call("<", [Number(5), Number(3)]), Number(42)]),
                                     List([Call(">", [Number(5), Number(3)]), Number(100)])]), EvaluatorEnv()).result
              == Ok(Number(100))
  {
    var env := EvaluatorEnv();
    var greater := Call(">", [Number(5), Number(3)]);
    var less := Call("<", [Number(5), Number(3)]);
    EvalOrdering(fuel - 1, Greater, 5, 3, env);
    EvalOrdering(fuel - 1, Less, 5, 3, env);
    ComparisonsAsTests(true, Nil, Nil);
    ComparisonsAsTests(false, Nil, Nil);
    var before := [List([less, Number(42)])];
    FalseTestFallsThrough(fuel - 1, less, Number(42), env);
    assert before + [List([greater, Number(100)])] + [] == [List([less, Number(42)]), List([greater, Number(100)])];
    CondPicksFirst(fuel - 1, before, greater, Number(100), [], env);
  }

  /** The environment of the lambda tests, which also binds `nil` and
      `t`. */
  function LambdaEnv(): Env {
    Initial().SetSymbol("nil", Nil).SetSymbol("t", Symbol("t"))
  }

  const AddBody: Expr := Call("+", [Symbol("a"), Symbol("b")])

  function AddEnv(): Env {
    LambdaEnv().SetFunction("add", Lambda([Symbol("a"), Symbol("b")], AddBody))
  }

  /** `defun` of `add` answers its name and stores the lambda. */
  lemma DefunExample()
    ensures var o := Defun([Symbol("add"), List([Symbol("a"), Symbol("b")]), AddBody], LambdaEnv());
            o == Outcome(Ok(Symbol("add")), AddEnv())
  {
  }

  /** The body of `add` with `a` bound to 3 and `b` to 4 is 7. */
  lemma AddBodyAdds(fuel: nat, local: Env)
    requires fuel >= 2
    requires local.GetSymbol("a") == Some(Number(3)) && local.GetSymbol("b") == Some(Number(4))
    ensures Eval(fuel, AddBody, local).result == Ok(Number(7))
  {
    var args := [Symbol("a"), Symbol("b")];
    EvalCall(fuel, "+", args, local);
    assert Dispatch(fuel - 1, "+", args, local) == FoldFrom(fuel - 1, AddOp, args, 0, 0, local);
    assert Eval(fuel - 1, Symbol("a"), local) == Outcome(Ok(Number(3)), local);
    assert Eval(fuel - 1, Symbol("b"), local) == Outcome(Ok(Number(4)), local);
    assert FoldFrom(fuel - 1, AddOp, args, 0, 0, local) == FoldFrom(fuel - 1, AddOp, args, 1, 3, local);
    assert FoldFrom(fuel - 1, AddOp, args, 1, 3, local) == FoldFrom(fuel - 1, AddOp, args, 2, 7, local);
  }

  /** `(add 3 4)` is 7. */
  lemma AddExample(fuel: nat)
    requires fuel >= 2
    ensures FunctionCall(fuel, "add", [Number(3), Number(4)], AddEnv()) == Outcome(Ok(Number(7)), AddEnv())
  {
    var env := AddEnv();
    var ps := [Symbol("a"), Symbol("b")];
    var args := [Number(3), Number(4)];
    LambdaShape(ps, AddBody);
    var first := env.SetSymbol("a", Number(3));
    var local := first.SetSymbol("b", Number(4));
    EvalLiteral(fuel, Number(3), env);
    EvalLiteral(fuel, Number(4), first);
    assert BindFrom(fuel, ps, args, 0, env) == BindFrom(fuel, ps, args, 1, first);
    assert BindFrom(fuel, ps, args, 1, first) == BindFrom(fuel, ps, args, 2, local);
    AddBodyAdds(fuel, local);
  }

  /** `(add 3)` and a call of the undefined `undefined_func` fail. */
  lemma CallErrorExamples(fuel: nat)
    ensures FunctionCall(fuel, "add", [Number(3)], AddEnv()).result == Fail(CallArity)
    ensures FunctionCall(fuel, "undefined_func", [Number(3), Number(4)], LambdaEnv()).result
              == Fail(UndefinedFunction("undefined_func"))
  {
    InitialBindings();
    assert "undefined_func" !in LambdaEnv().functions;
  }

  /** A `defun` form passed whole, with four elements, is refused. */
  lemma DefunErrorExamples()
    ensures Defun([Symbol("defun"), Symbol("add"), Symbol("a"), AddBody], LambdaEnv()).result == Fail(DefunArity)
    ensures Defun([Symbol("defun"), Number(123), List([Symbol("a"), Symbol("b")]), AddBody], LambdaEnv()).result
              == Fail(DefunArity)
  {
  }

  // ---------------------------------------------------------------------------
  // fib

  function Fib(n: nat): nat {
    if n < 2 then n else Fib(n - 1) + Fib(n - 2)
  }

  lemma {:induction false} FibMonotone(m: nat, n: nat)
    requires m <= n
    ensures Fib(m) <= Fib(n)
    decreases n
  {
    if m < n {
      FibMonotone(m, n - 1);
      if n >= 2 {
        assert Fib(n) >= Fib(n - 1);
      } else {
        assert m == 0;
      }
    }
  }

  /** The test of one clause of the lambda test's `fib`, as written with
      `eq`, and as evidently intended with `=`. */
  function Test(equal: string, m: i64): Expr {
    Call(equal, [Symbol("n"), Number(m)])
  }

  /** `(fib (- n m))`. */
  function Recurse(m: i64): Expr {
    Call("fib", [Call("-", [Symbol("n"), Number(m)])])
  }

  /** `(cond ((eq n 1) 1) ((eq n 0) 0) (t (+ (fib (- n 1)) (fib (- n 2)))))`
      with `equal` for `eq`. */
  function FibBody(equal: string): Expr {
    Call("cond", [List([Test(equal, 1), Number(1)]),
                  List([Test(equal, 0), Number(0)]),
                  List([Symbol("t"), Call("+", [Recurse(1), Recurse(2)])])])
  }

  function FibArgs(equal: string): seq<Expr> {
    [Symbol("fib"), List([Symbol("n")]), FibBody(equal)]
  }

  /** An environment in which `fib` is defined with `(= n m)` tests and `t`
      passes as a test. */
  predicate FibReady(env: Env) {
    && env.GetFunction("fib") == Some(Lambda([Symbol("n")], FibBody("=")))
    && "t" in env.symbols && Truthy(env.symbols["t"])
  }

  /** `(eq n m)` calls a function nobody defined. */
  lemma EqUndefined(fuel: nat, m: i64, env: Env)
    requires fuel >= 1 && "eq" !in env.functions
    ensures Eval(fuel, Test("eq", m), env) == Outcome(Fail(UndefinedFunction("eq")), env)
  {
    assert "eq" !in Operators;
    UserFunctionCall(fuel, "eq", [Symbol("n"), Number(m)], env);
  }

  /** The body as written fails at its first test. */
  lemma FibBodyAsWritten(fuel: nat, env: Env)
    requires fuel >= 2 && "eq" !in env.functions
    ensures Eval(fuel, FibBody("eq"), env).result == Fail(UndefinedFunction("eq"))
  {
    var clauses := FibBody("eq").elems[1..];
    EvalCall(fuel, "cond", clauses, env);
    assert Dispatch(fuel - 1, "cond", clauses, env) == CondFrom(fuel - 1, clauses, 0, env);
    EqUndefined(fuel - 1, 1, env);
  }

  /** As written, the lambda test's `fib` calls `eq`, which is neither an
      operator nor defined, so `(fib 6)` fails instead of answering 8. */
  lemma FibAsWritten(fuel: nat)
    requires fuel >= 2
    ensures var o := Defun(FibArgs("eq"), LambdaEnv());
            && o.result == Ok(Symbol("fib"))
            && FunctionCall(fuel, "fib", [Number(6)], o.env).result == Fail(UndefinedFunction("eq"))
  {
    var env := LambdaEnv().SetFunction("fib", Lambda([Symbol("n")], FibBody("eq")));
    var local := env.SetSymbol("n", Number(6));
    LambdaShape([Symbol("n")], FibBody("eq"));
    EvalLiteral(fuel, Number(6), env);
    assert BindFrom(fuel, [Symbol("n")], [Number(6)], 0, env) == BindFrom(fuel, [Symbol("n")], [Number(6)], 1, local);
    InitialBindings();
    assert "eq" !in local.functions;
    FibBodyAsWritten(fuel, local);
  }

  /** `(= n m)` with `n` bound to a number. */
  lemma EvalTest(fuel: nat, n: i64, m: i64, env: Env)
    requires fuel >= 2 && env.GetSymbol("n") == Some(Number(n))
    ensures Eval(fuel, Test("=", m), env) == Outcome(Ok(if n == m then Symbol("T") else Nil), env)
  {
    var args := [Symbol("n"), Number(m)];
    EvalCall(fuel, "=", args, env);
    assert Dispatch(fuel - 1, "=", args, env) == EvalEqual(fuel - 1, args, env);
    assert Eval(fuel - 1, Symbol("n"), env) == Outcome(Ok(Number(n)), env);
    EvalLiteral(fuel - 1, Number(m), env);
    assert EvalBoth(fuel - 1, Symbol("n"), Number(m), env) == PairOutcome(Ok((Number(n), Number(m))), env);
  }

  /** `(- n m)` with `n` bound to a number no less than `m`. */
  lemma EvalMinus(fuel: nat, n: i64, m: i64, env: Env)
    requires fuel >= 2 && env.GetSymbol("n") == Some(Number(n)) && 0 <= m <= n
    ensures Eval(fuel, Call("-", [Symbol("n"), Number(m)]), env) == Outcome(Ok(Number(n - m)), env)
  {
    var args := [Symbol("n"), Number(m)];
    EvalCall(fuel, "-", args, env);
    assert Dispatch(fuel - 1, "-", args, env) == FoldFirst(fuel - 1, SubOp, args, env);
    assert Eval(fuel - 1, Symbol("n"), env) == Outcome(Ok(Number(n)), env);
    assert FoldFirst(fuel - 1, SubOp, args, env) == FoldFrom(fuel - 1, SubOp, args, 1, n, env);
    EvalLiteral(fuel - 1, Number(m), env);
    assert CheckedSub(n, m) == Ok(n - m);
    assert FoldFrom(fuel - 1, SubOp, args, 1, n, env) == FoldFrom(fuel - 1, SubOp, args, 2, n - m, env);
  }

  /** `(fib (- n m))` runs the body with `n` bound to `n - m`, and leaves
      the environment as it was. */
  lemma EvalRecurse(fuel: nat, n: i64, m: i64, env: Env)
    requires fuel >= 3 && env.GetSymbol("n") == Some(Number(n)) && FibReady(env)
    requires 0 <= m <= n
    ensures Eval(fuel, Recurse(m), env) ==
              Outcome(Eval(fuel - 1, FibBody("="), env.SetSymbol("n", Number(n - m))).result, env)
  {
    var minus := Call("-", [Symbol("n"), Number(m)]);
    assert "fib" !in Operators;
    UserFunctionCall(fuel, "fib", [minus], env);
    EvalMinus(fuel - 1, n, m, env);
    var local := env.SetSymbol("n", Number(n - m));
    assert BindFrom(fuel - 1, [Symbol("n")], [minus], 0, env) == BindFrom(fuel - 1, [Symbol("n")], [minus], 1, local);
  }

  /** `(+ (fib (- n 1)) (fib (- n 2)))`. */
  const FibSum: Expr := Call("+", [Recurse(1), Recurse(2)])

  /** The corrected body runs the loop of `cond` over its clauses. */
  lemma FibBodyIsCond(fuel: nat, env: Env)
    requires fuel >= 1
    ensures Eval(fuel, FibBody("="), env) == CondFrom(fuel - 1, FibBody("=").elems[1..], 0, env)
  {
    var clauses := FibBody("=").elems[1..];
    EvalCall(fuel, "cond", clauses, env);
    assert Dispatch(fuel - 1, "cond", clauses, env) == CondFrom(fuel - 1, clauses, 0, env);
  }

  /** The first two tests of the corrected body, `(= n 1)` and `(= n 0)`,
      pass exactly for 1 and for 0. */
  lemma FibTests(fuel: nat, n: i64, env: Env)
    requires fuel >= 2 && env.GetSymbol("n") == Some(Number(n))
    ensures var clauses := FibBody("=").elems[1..];
            && CondFrom(fuel, clauses, 0, env) ==
                 (if n == 1 then Eval(fuel, Number(1), env) else CondFrom(fuel, clauses, 1, env))
            && CondFrom(fuel, clauses, 1, env) ==
                 (if n == 0 then Eval(fuel, Number(0), env) else CondFrom(fuel, clauses, 2, env))
  {
    EvalTest(fuel, n, 1, env);
    EvalTest(fuel, n, 0, env);
    TruthyMeans(Nil);
    TruthyMeans(Symbol("T"));
  }

  /** The last clause of the corrected body has the test `t`. */
  lemma FibLastClause(fuel: nat, env: Env)
    requires fuel >= 1 && FibReady(env)
    ensures CondFrom(fuel, FibBody("=").elems[1..], 2, env) == Eval(fuel, FibSum, env)
  {
    assert Eval(fuel, Symbol("t"), env) == Outcome(Ok(env.symbols["t"]), env);
  }

  /** The `cond` of the corrected body picks 1 for 1, 0 for 0, and the sum
      of the recursive calls otherwise. */
  lemma FibCond(fuel: nat, n: i64, env: Env)
    requires fuel >= 3 && FibReady(env) && env.GetSymbol("n") == Some(Number(n))
    ensures Eval(fuel, FibBody("="), env) ==
              if n == 1 then Outcome(Ok(Number(1)), env)
              else if n == 0 then Outcome(Ok(Number(0)), env)
              else Eval(fuel - 1, FibSum, env)
  {
    FibBodyIsCond(fuel, env);
    FibTests(fuel - 1, n, env);
    FibLastClause(fuel - 1, env);
    EvalLiteral(fuel - 1, Number(1), env);
    EvalLiteral(fuel - 1, Number(0), env);
  }

  /** The sum of two recursive calls that answer `f1` and `f2`. */
  lemma FibSumAdds(fuel: nat, f1: i64, f2: i64, env: Env)
    requires fuel >= 1 && InI64(f1 as int + f2 as int)
    requires Eval(fuel - 1, Recurse(1), env) == Outcome(Ok(Number(f1)), env)
    requires Eval(fuel - 1, Recurse(2), env) == Outcome(Ok(Number(f2)), env)
    ensures Eval(fuel, FibSum, env) == Outcome(Ok(Number((f1 as int + f2 as int) as i64)), env)
  {
    var args := [Recurse(1), Recurse(2)];
    EvalCall(fuel, "+", args, env);
    assert CheckedAdd(0, f1) == Ok(f1);
    assert FoldFrom(fuel - 1, AddOp, args, 0, 0, env) == FoldFrom(fuel - 1, AddOp, args, 1, f1, env);
    assert FoldFrom(fuel - 1, AddOp, args, 1, f1, env) == FoldFrom(fuel - 1, AddOp, args, 2, (f1 as int + f2 as int) as i64, env);
  }

  /** For `n` of at least 2, the corrected body adds the answers of the
      bodies run with `n - 1` and `n - 2`. */
  lemma FibStep(fuel: nat, n: i64, f1: i64, f2: i64, env: Env)
    requires fuel >= 5 && n >= 2 && FibReady(env) && env.GetSymbol("n") == Some(Number(n))
    requires Eval(fuel - 3, FibBody("="), env.SetSymbol("n", Number(n - 1))).result == Ok(Number(f1))
    requires Eval(fuel - 3, FibBody("="), env.SetSymbol("n", Number(n - 2))).result == Ok(Number(f2))
    requires InI64(f1 as int + f2 as int)
    ensures Eval(fuel, FibBody("="), env) == Outcome(Ok(Number((f1 as int + f2 as int) as i64)), env)
  {
    FibCond(fuel, n, env);
    EvalRecurse(fuel - 2, n, 1, env);
    EvalRecurse(fuel - 2, n, 2, env);
    FibSumAdds(fuel - 1, f1, f2, env);
  }

  /** The corrected `fib` computes the Fibonacci numbers, given fuel for
      its recursion depth and a result within 64 bits. */
  lemma {:induction false} FibBodyComputes(fuel: nat, n: nat, env: Env)
    requires n <= I64_MAX && InI64(Fib(n)) && fuel >= 3 * n + 3
    requires FibReady(env) && env.GetSymbol("n") == Some(Number(n as i64))
    ensures Eval(fuel, FibBody("="), env) == Outcome(Ok(Number(Fib(n) as i64)), env)
    decreases n
  {
    if n < 2 {
      FibCond(fuel, n as i64, env);
    } else {
      FibMonotone(n - 1, n);
      FibMonotone(n - 2, n);
      FibBodyComputes(fuel - 3, n - 1, env.SetSymbol("n", Number((n - 1) as i64)));
      FibBodyComputes(fuel - 3, n - 2, env.SetSymbol("n", Number((n - 2) as i64)));
      FibStep(fuel, n as i64, Fib(n - 1) as i64, Fib(n - 2) as i64, env);
    }
  }

  /** The lambda test's `fib` with `=` for `eq`: defined by `defun`, `(fib
      n)` is the n-th Fibonacci number, and `(fib 6)` is 8. */
  lemma FibCorrected(fuel: nat, n: nat)
    requires n <= I64_MAX && InI64(Fib(n)) && fuel >= 3 * n + 3
    ensures var o := Defun(FibArgs("="), LambdaEnv());
            && o.result == Ok(Symbol("fib"))
            && FunctionCall(fuel, "fib", [Number(n as i64)], o.env) == Outcome(Ok(Number(Fib(n) as i64)), o.env)
    ensures n == 6 ==> Fib(n) == 8
  {
    var env := LambdaEnv().SetFunction("fib", Lambda([Symbol("n")], FibBody("=")));
    var local := env.SetSymbol("n", Number(n as i64));
    EvalLiteral(fuel, Number(n as i64), env);
    assert BindFrom(fuel, [Symbol("n")], [Number(n as i64)], 0, env)
        == BindFrom(fuel, [Symbol("n")], [Number(n as i64)], 1, local);
    InitialBindings();
    TruthyMeans(Symbol("t"));
    assert FibReady(local);
    FibBodyComputes(fuel, n, local);
    if n == 6 {
      assert Fib(6) == 8;
    }
  }
}
