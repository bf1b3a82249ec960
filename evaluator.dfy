/** src/evaluator.rs and the operator files under src/operator as the original writes them:
    `eval_tree` and the operators take the environment as a mutable object,
    evaluate their arguments in loops, and `setf`/`defun` update the tables
    in place.  Each method is proved to return what the function of the
    same name in module Semantics returns and to leave the environment as
    that function says. */
module Evaluator {
  import opened Errors
  import opened Expressions
  import opened Environments
  import opened Arithmetic
  import opened ListOps
  import opened Comparison
  import Semantics

  /** `Evaluator::eval_tree`. */
  method EvalTree(fuel: nat, ast: Expr, env: Environment) returns (r: Result<Expr>)
    modifies env
    ensures Semantics.Outcome(r, env.Model()) == Semantics.Eval(fuel, ast, old(env.Model()))
    decreases fuel, 0, 0
  {
    if fuel == 0 {
      return Err(OutOfFuel);
    }
    match ast
    case Symbol(name) =>
      var value := env.GetSymbol(name);
      r := if value.Some? then Ok(value.value) else Fail(Semantics.UndefinedSymbol(name));
    case List(xs) =>
      if xs == [] {
        return Ok(Nil);
      }
      if !xs[0].Symbol? {
        return Fail(Semantics.NoOperator);
      }
      r := Dispatch(fuel - 1, xs[0].name, xs[1..], env);
    case _ =>
      r := Ok(ast);
  }

  /** The `match` on the head symbol. */
  method Dispatch(fuel: nat, op: string, args: seq<Expr>, env: Environment) returns (r: Result<Expr>)
    modifies env
    ensures Semantics.Outcome(r, env.Model()) == Semantics.Dispatch(fuel, op, args, old(env.Model()))
    decreases fuel, 2, 0
  {
    match op
    case "+" => r := Fold(fuel, AddOp, args, 0, 0, env);
    case "-" => r := FoldFirst(fuel, SubOp, args, env);
    case "*" => r := Fold(fuel, MulOp, args, 0, 1, env);
    case "/" => r := FoldFirst(fuel, DivOp, args, env);
    case "setf" => r := Setf(fuel, args, env);
    case "car" => r := EvalCar(fuel, args, env);
    case "cdr" => r := EvalCdr(fuel, args, env);
    case "cons" => r := EvalCons(fuel, args, env);
    case "cond" => r := Cond(fuel, args, env);
    case "not" => r := Fail(Semantics.NotUnavailable);
    case ">" => r := EvalCompare(fuel, Greater, args, env);
    case "<" => r := EvalCompare(fuel, Less, args, env);
    case ">=" => r := EvalCompare(fuel, GreaterEqual, args, env);
    case "<=" => r := EvalCompare(fuel, LessEqual, args, env);
    case "=" => r := EvalEqual(fuel, args, env);
    case "quote" => r := if |args| != 1 then Fail(QuoteArity) else Ok(args[0]);
    case "count" => r := EvalCount(fuel, args, env);
    case "defun" => r := Defun(args, env);
    case _ => r := FunctionCall(fuel, op, args, env);
  }

  // ---------------------------------------------------------------------------
  // src/operator/arithmetic.rs

  /** The fold of `eval_add` and `eval_multiply`, and the `for` loop of
      `eval_subtract` and `eval_divide`, from argument `i` on. */
  method Fold(fuel: nat, op: ArithOp, args: seq<Expr>, i: nat, acc: i64, env: Environment)
    returns (r: Result<Expr>)
    requires i <= |args|
    modifies env
    ensures Semantics.Outcome(r, env.Model()) == Semantics.FoldFrom(fuel, op, args, i, acc, old(env.Model()))
    decreases fuel, 1, |args| - i
  {
    var result := acc;
    var k := i;
    while k < |args|
      invariant i <= k <= |args|
      invariant Semantics.FoldFrom(fuel, op, args, k, result, env.Model())
                == Semantics.FoldFrom(fuel, op, args, i, acc, old(env.Model()))
      decreases |args| - k
    {
      var value := EvalTree(fuel, args[k], env);
      if value.Err? {
        return Err(value.error);
      }
      if !value.value.Number? {
        return Fail(InvalidNumber);
      }
      var next := Step(op, result, value.value.value);
      if next.Err? {
        return Err(next.error);
      }
      result := next.value;
      k := k + 1;
    }
    r := Ok(Number(result));
  }

  /** `eval_subtract` and `eval_divide`: the first argument starts the
      fold. */
  method FoldFirst(fuel: nat, op: ArithOp, args: seq<Expr>, env: Environment) returns (r: Result<Expr>)
    requires op == SubOp || op == DivOp
    modifies env
    ensures Semantics.Outcome(r, env.Model()) == Semantics.FoldFirst(fuel, op, args, old(env.Model()))
    decreases fuel, 1, |args| + 1
  {
    if args == [] {
      return Fail(if op == SubOp then SubtractArity else DivideArity);
    }
    var first := EvalTree(fuel, args[0], env);
    if first.Err? {
      return Err(first.error);
    }
    if !first.value.Number? {
      return Fail(InvalidNumber);
    }
    r := Fold(fuel, op, args, 1, first.value.value, env);
  }

  // ---------------------------------------------------------------------------
  // src/operator/list.rs

  method EvalCar(fuel: nat, args: seq<Expr>, env: Environment) returns (r: Result<Expr>)
    modifies env
    ensures Semantics.Outcome(r, env.Model()) == Semantics.EvalCar(fuel, args, old(env.Model()))
    decreases fuel, 1, 0
  {
    if |args| != 1 {
      return Fail(CarArity);
    }
    var list := EvalTree(fuel, args[0], env);
    if list.Err? {
      return list;
    }
    r := Car(list.value);
  }

  method EvalCdr(fuel: nat, args: seq<Expr>, env: Environment) returns (r: Result<Expr>)
    modifies env
    ensures Semantics.Outcome(r, env.Model()) == Semantics.EvalCdr(fuel, args, old(env.Model()))
    decreases fuel, 1, 0
  {
    if |args| != 1 {
      return Fail(CdrArity);
    }
    var list := EvalTree(fuel, args[0], env);
    if list.Err? {
      return list;
    }
    r := Cdr(list.value);
  }

  /** `eval_length`, the operator `count`. */
  method EvalCount(fuel: nat, args: seq<Expr>, env: Environment) returns (r: Result<Expr>)
    modifies env
    ensures Semantics.Outcome(r, env.Model()) == Semantics.EvalCount(fuel, args, old(env.Model()))
    decreases fuel, 1, 0
  {
    if |args| != 1 {
      return Fail(CountArity);
    }
    var list := EvalTree(fuel, args[0], env);
    if list.Err? {
      return list;
    }
    r := Count(list.value);
  }

  /** The two operands of `cons` and of the comparisons, left first. */
  method EvalBoth(fuel: nat, left: Expr, right: Expr, env: Environment) returns (r: Result<(Expr, Expr)>)
    modifies env
    ensures Semantics.PairOutcome(r, env.Model()) == Semantics.EvalBoth(fuel, left, right, old(env.Model()))
    decreases fuel, 1, 0
  {
    var a := EvalTree(fuel, left, env);
    if a.Err? {
      return Err(a.error);
    }
    var b := EvalTree(fuel, right, env);
    if b.Err? {
      return Err(b.error);
    }
    r := Ok((a.value, b.value));
  }

  /** `eval_cons`: the first value is inserted at the front of the list. */
  method EvalCons(fuel: nat, args: seq<Expr>, env: Environment) returns (r: Result<Expr>)
    modifies env
    ensures Semantics.Outcome(r, env.Model()) == Semantics.EvalCons(fuel, args, old(env.Model()))
    decreases fuel, 1, 1
  {
    if |args| != 2 {
      return Fail(ConsArity);
    }
    var values := EvalBoth(fuel, args[0], args[1], env);
    if values.Err? {
      return Err(values.error);
    }
    var (first, rest) := values.value;
    var list := if rest.List? then rest.elems else [rest];
    r := Ok(List([first] + list));
  }

  // ---------------------------------------------------------------------------
  // src/operator/comparison.rs

  method EvalCompare(fuel: nat, rel: Relation, args: seq<Expr>, env: Environment) returns (r: Result<Expr>)
    modifies env
    ensures Semantics.Outcome(r, env.Model()) == Semantics.EvalCompare(fuel, rel, args, old(env.Model()))
    decreases fuel, 1, 1
  {
    if |args| != 2 {
      return Fail(ArityMessage(rel));
    }
    var values := EvalBoth(fuel, args[0], args[1], env);
    if values.Err? {
      return Err(values.error);
    }
    r := Compare(rel, values.value.0, values.value.1);
  }

  method EvalEqual(fuel: nat, args: seq<Expr>, env: Environment) returns (r: Result<Expr>)
    modifies env
    ensures Semantics.Outcome(r, env.Model()) == Semantics.EvalEqual(fuel, args, old(env.Model()))
    decreases fuel, 1, 1
  {
    if |args| != 2 {
      return Fail(EqualArity);
    }
    var values := EvalBoth(fuel, args[0], args[1], env);
    if values.Err? {
      return Err(values.error);
    }
    r := Ok(EqualValues(values.value.0, values.value.1));
  }

  // ---------------------------------------------------------------------------
  // src/operator/control.rs and src/operator/set.rs

  /** `eval_cond`: the `for` loop over the clauses, returning at the first
      test that holds. */
  method Cond(fuel: nat, clauses: seq<Expr>, env: Environment) returns (r: Result<Expr>)
    modifies env
    ensures Semantics.Outcome(r, env.Model()) == Semantics.CondFrom(fuel, clauses, 0, old(env.Model()))
    decreases fuel, 1, |clauses|
  {
    var i := 0;
    while i < |clauses|
      invariant i <= |clauses|
      invariant Semantics.CondFrom(fuel, clauses, i, env.Model()) == Semantics.CondFrom(fuel, clauses, 0, old(env.Model()))
      decreases |clauses| - i
    {
      var clause := clauses[i];
      if !(clause.List? && |clause.elems| == 2) {
        return Fail(Semantics.CondClause);
      }
      var test := EvalTree(fuel, clause.elems[0], env);
      if test.Err? {
        return test;
      }
      if !Equal(test.value, Nil) && !Equal(test.value, Str("false")) {
        r := EvalTree(fuel, clause.elems[1], env);
        return;
      }
      i := i + 1;
    }
    r := Ok(Nil);
  }

  /** `eval_setf`. */
  method Setf(fuel: nat, args: seq<Expr>, env: Environment) returns (r: Result<Expr>)
    modifies env
    ensures Semantics.Outcome(r, env.Model()) == Semantics.Setf(fuel, args, old(env.Model()))
    decreases fuel, 1, 0
  {
    if |args| != 2 {
      return Fail(Semantics.SetfArity);
    }
    if !args[0].Symbol? {
      return Fail(Semantics.SetfSymbol);
    }
    var symbol := args[0].name;
    var value := EvalTree(fuel, args[1], env);
    if value.Err? {
      return value;
    }
    env.SetSymbol(symbol, value.value);
    r := value;
  }

  // ---------------------------------------------------------------------------
  // src/operator/lambda.rs

  /** `eval_defun`. */
  method Defun(args: seq<Expr>, env: Environment) returns (r: Result<Expr>)
    modifies env
    ensures Semantics.Outcome(r, env.Model()) == Semantics.Defun(args, old(env.Model()))
  {
    if |args| != 3 {
      return Fail(Semantics.DefunArity);
    }
    if !args[0].Symbol? {
      return Fail(Semantics.DefunName);
    }
    if !args[1].List? {
      return Fail(Semantics.DefunParams);
    }
    env.SetFunction(args[0].name, List([Symbol("lambda"), List(args[1].elems), args[2]]));
    r := Ok(Symbol(args[0].name));
  }

  /** `eval_function_call`: the arguments are evaluated and bound one after
      the other in a clone of the environment, and the body is evaluated in
      that clone; the caller's environment is never written. */
  method FunctionCall(fuel: nat, name: string, args: seq<Expr>, env: Environment) returns (r: Result<Expr>)
    ensures Semantics.Outcome(r, env.Model()) == Semantics.FunctionCall(fuel, name, args, env.Model())
    decreases fuel, 1, |args| + 1
  {
    var definition := env.GetFunction(name);
    if definition.None? {
      return Fail(Semantics.UndefinedFunction(name));
    }
    if !definition.value.List? {
      return Fail(Semantics.NotAFunction);
    }
    var list := definition.value.elems;
    if |list| != 3 || !Equal(list[0], Symbol("lambda")) {
      return Fail(Semantics.InvalidDefinition);
    }
    if !list[1].List? {
      return Fail(Semantics.InvalidParameters);
    }
    var params := list[1].elems;
    if |params| != |args| {
      return Fail(Semantics.CallArity);
    }
    var local := env.Clone();
    var i := 0;
    while i < |params|
      invariant i <= |params|
      invariant fresh(local)
      invariant Semantics.BindFrom(fuel, params, args, i, local.Model())
                == Semantics.BindFrom(fuel, params, args, 0, env.Model())
      decreases |params| - i
    {
      if !params[i].Symbol? {
        return Fail(Semantics.InvalidParameterName);
      }
      var value := EvalTree(fuel, args[i], local);
      if value.Err? {
        return Err(value.error);
      }
      local.SetSymbol(params[i].name, value.value);
      i := i + 1;
    }
    r := EvalTree(fuel, list[2], local);
  }
}
