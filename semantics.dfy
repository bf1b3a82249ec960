/** The meaning of src/evaluator.rs and the operators in src/operator/, as
    functions.  Evaluation threads the environment: `setf` and `defun`
    update it, and an update made before an error stays made, as it does
    through the original's `&mut Environment`.  A user function runs in a
    copy of the caller's environment, which the call leaves as it was.

    Evaluation need not terminate (a user function may call itself without
    end), so `Eval` carries fuel: every evaluation of a list uses up one
    unit, and running out is the error `OutOfFuel`. */
module Semantics {
  import opened Errors
  import opened Expressions
  import opened Environments
  import opened Arithmetic
  import opened ListOps
  import opened Comparison

  const NoOperator: string := "Cannot evaluate a list without a valid operator"
  const NotUnavailable: string := "not: Control::eval_not is not defined"
  const CondClause: string := "cond: invalid clause"
  const SetfArity: string := "setf requires exactly two arguments"
  const SetfSymbol: string := "setf: first argument must be a symbol"
  const DefunArity: string := "defun requires exactly 3 arguments: name, params, body"
  const DefunName: string := "defun: first argument must be a symbol"
  const DefunParams: string := "defun: second argument must be a list"
  const NotAFunction: string := "Function is not defined correctly"
  const InvalidDefinition: string := "Invalid function definition"
  const InvalidParameters: string := "Invalid parameter list"
  const CallArity: string := "Argument count does not match parameter count"
  const InvalidParameterName: string := "Invalid parameter name"

  function UndefinedSymbol(name: string): string {
    "Undefined symbol: " + name
  }

  function UndefinedFunction(name: string): string {
    "Undefined function: " + name
  }

  /** What an evaluation returns, and the environment it leaves behind. */
  datatype Outcome = Outcome(result: Result<Expr>, env: Env)

  /** The same for the evaluation of two operands in turn. */
  datatype PairOutcome = PairOutcome(result: Result<(Expr, Expr)>, env: Env)

  /** What `defun` stores in the function table. */
  function Lambda(params: seq<Expr>, body: Expr): Expr {
    List([Symbol("lambda"), List(params), body])
  }

  // ---------------------------------------------------------------------------
  // eval_tree

  /** `eval_tree`.  `Float`, `DottedPair` and `Macro` have no arm in the
      original's `match`; here they evaluate to themselves, like numbers. */
  function Eval(fuel: nat, e: Expr, env: Env): (o: Outcome)
    ensures o.env.macros == env.macros
    decreases fuel, 0, 0
  {
    if fuel == 0 then Outcome(Err(OutOfFuel), env)
    else
      match e
      case Symbol(name) =>
        Outcome(if name in env.symbols then Ok(env.symbols[name]) else Fail(UndefinedSymbol(name)), env)
      case List(xs) =>
        if xs == [] then Outcome(Ok(Nil), env)
        else if xs[0].Symbol? then Dispatch(fuel - 1, xs[0].name, xs[1..], env)
        else Outcome(Fail(NoOperator), env)
      case _ => Outcome(Ok(e), env)
  }

  /** The `match` on the head symbol: the operator receives the unevaluated
      arguments; any other name is a call of a user function. */
  function Dispatch(fuel: nat, op: string, args: seq<Expr>, env: Env): (o: Outcome)
    ensures o.env.macros == env.macros
    decreases fuel, 2, 0
  {
    match op
    case "+" => FoldFrom(fuel, AddOp, args, 0, 0, env)
    case "-" => FoldFirst(fuel, SubOp, args, env)
    case "*" => FoldFrom(fuel, MulOp, args, 0, 1, env)
    case "/" => FoldFirst(fuel, DivOp, args, env)
    case "setf" => Setf(fuel, args, env)
    case "car" => EvalCar(fuel, args, env)
    case "cdr" => EvalCdr(fuel, args, env)
    case "cons" => EvalCons(fuel, args, env)
    case "cond" => CondFrom(fuel, args, 0, env)
    case "not" => Outcome(Fail(NotUnavailable), env)
    case ">" => EvalCompare(fuel, Greater, args, env)
    case "<" => EvalCompare(fuel, Less, args, env)
    case ">=" => EvalCompare(fuel, GreaterEqual, args, env)
    case "<=" => EvalCompare(fuel, LessEqual, args, env)
    case "=" => EvalEqual(fuel, args, env)
    case "quote" => Outcome(if |args| != 1 then Fail(QuoteArity) else Ok(args[0]), env)
    case "count" => EvalCount(fuel, args, env)
    case "defun" => Defun(args, env)
    case _ => FunctionCall(fuel, op, args, env)
  }

  // ---------------------------------------------------------------------------
  // Arithmetic

  /** Evaluate `args[i..]` in turn, each to a number folded into `acc`; the
      first error ends the fold. */
  function FoldFrom(fuel: nat, op: ArithOp, args: seq<Expr>, i: nat, acc: i64, env: Env): (o: Outcome)
    requires i <= |args|
    ensures o.env.macros == env.macros
    decreases fuel, 1, |args| - i
  {
    if i == |args| then Outcome(Ok(Number(acc)), env)
    else
      var a := Eval(fuel, args[i], env);
      match a.result
      case Err(e) => Outcome(Err(e), a.env)
      case Ok(v) =>
        if !v.Number? then Outcome(Fail(InvalidNumber), a.env)
        else
          match Step(op, acc, v.value)
          case Err(e) => Outcome(Err(e), a.env)
          case Ok(next) => FoldFrom(fuel, op, args, i + 1, next, a.env)
  }

  /** `-` and `/`: the first argument, which must exist, starts the fold. */
  function FoldFirst(fuel: nat, op: ArithOp, args: seq<Expr>, env: Env): (o: Outcome)
    requires op == SubOp || op == DivOp
    ensures o.env.macros == env.macros
    decreases fuel, 1, |args| + 1
  {
    if args == [] then Outcome(Fail(if op == SubOp then SubtractArity else DivideArity), env)
    else
      var a := Eval(fuel, args[0], env);
      match a.result
      case Err(e) => Outcome(Err(e), a.env)
      case Ok(v) =>
        if !v.Number? then Outcome(Fail(InvalidNumber), a.env)
        else FoldFrom(fuel, op, args, 1, v.value, a.env)
  }

  // ---------------------------------------------------------------------------
  // Lists

  function EvalCar(fuel: nat, args: seq<Expr>, env: Env): (o: Outcome)
    ensures o.env.macros == env.macros
    decreases fuel, 1, 0
  {
    if |args| != 1 then Outcome(Fail(CarArity), env)
    else
      var a := Eval(fuel, args[0], env);
      Outcome(if a.result.Err? then a.result else Car(a.result.value), a.env)
  }

  function EvalCdr(fuel: nat, args: seq<Expr>, env: Env): (o: Outcome)
    ensures o.env.macros == env.macros
    decreases fuel, 1, 0
  {
    if |args| != 1 then Outcome(Fail(CdrArity), env)
    else
      var a := Eval(fuel, args[0], env);
      Outcome(if a.result.Err? then a.result else Cdr(a.result.value), a.env)
  }

  function EvalCount(fuel: nat, args: seq<Expr>, env: Env): (o: Outcome)
    ensures o.env.macros == env.macros
    decreases fuel, 1, 0
  {
    if |args| != 1 then Outcome(Fail(CountArity), env)
    else
      var a := Eval(fuel, args[0], env);
      Outcome(if a.result.Err? then a.result else Count(a.result.value), a.env)
  }

  /** The left operand, then the right one in the environment the left one
      left behind. */
  function EvalBoth(fuel: nat, left: Expr, right: Expr, env: Env): (o: PairOutcome)
    ensures o.env.macros == env.macros
    decreases fuel, 1, 0
  {
    var a := Eval(fuel, left, env);
    if a.result.Err? then PairOutcome(Err(a.result.error), a.env)
    else
      var b := Eval(fuel, right, a.env);
      if b.result.Err? then PairOutcome(Err(b.result.error), b.env)
      else PairOutcome(Ok((a.result.value, b.result.value)), b.env)
  }

  function EvalCons(fuel: nat, args: seq<Expr>, env: Env): (o: Outcome)
    ensures o.env.macros == env.macros
    decreases fuel, 1, 1
  {
    if |args| != 2 then Outcome(Fail(ConsArity), env)
    else
      var p := EvalBoth(fuel, args[0], args[1], env);
      Outcome(if p.result.Err? then Err(p.result.error) else Ok(Cons(p.result.value.0, p.result.value.1)), p.env)
  }

  // ---------------------------------------------------------------------------
  // Comparisons

  function EvalCompare(fuel: nat, rel: Relation, args: seq<Expr>, env: Env): (o: Outcome)
    ensures o.env.macros == env.macros
    decreases fuel, 1, 1
  {
    if |args| != 2 then Outcome(Fail(ArityMessage(rel)), env)
    else
      var p := EvalBoth(fuel, args[0], args[1], env);
      Outcome(if p.result.Err? then Err(p.result.error) else Compare(rel, p.result.value.0, p.result.value.1), p.env)
  }

  function EvalEqual(fuel: nat, args: seq<Expr>, env: Env): (o: Outcome)
    ensures o.env.macros == env.macros
    decreases fuel, 1, 1
  {
    if |args| != 2 then Outcome(Fail(EqualArity), env)
    else
      var p := EvalBoth(fuel, args[0], args[1], env);
      Outcome(if p.result.Err? then Err(p.result.error) else Ok(EqualValues(p.result.value.0, p.result.value.1)), p.env)
  }

  // ---------------------------------------------------------------------------
  // cond and setf

  /** The test of `cond`: `PartialEq` against the empty list and against
      the string "false". */
  predicate Truthy(v: Expr) {
    !Equal(v, Nil) && !Equal(v, Str("false"))
  }

  /** The loop of `eval_cond` from clause `i` on. */
  function CondFrom(fuel: nat, clauses: seq<Expr>, i: nat, env: Env): (o: Outcome)
    requires i <= |clauses|
    ensures o.env.macros == env.macros
    decreases fuel, 1, |clauses| - i
  {
    if i == |clauses| then Outcome(Ok(Nil), env)
    else
      var c := clauses[i];
      if !(c.List? && |c.elems| == 2) then Outcome(Fail(CondClause), env)
      else
        var t := Eval(fuel, c.elems[0], env);
        match t.result
        case Err(e) => Outcome(Err(e), t.env)
        case Ok(v) =>
          if Truthy(v) then Eval(fuel, c.elems[1], t.env)
          else CondFrom(fuel, clauses, i + 1, t.env)
  }

  /** `eval_setf`: the value is bound only once it has been computed. */
  function Setf(fuel: nat, args: seq<Expr>, env: Env): (o: Outcome)
    ensures o.env.macros == env.macros
    decreases fuel, 1, 0
  {
    if |args| != 2 then Outcome(Fail(SetfArity), env)
    else if !args[0].Symbol? then Outcome(Fail(SetfSymbol), env)
    else
      var a := Eval(fuel, args[1], env);
      match a.result
      case Err(e) => Outcome(Err(e), a.env)
      case Ok(v) => Outcome(Ok(v), a.env.SetSymbol(args[0].name, v))
  }

  // ---------------------------------------------------------------------------
  // defun and calls

  /** `eval_defun`: nothing is evaluated. */
  function Defun(args: seq<Expr>, env: Env): (o: Outcome)
    ensures o.env.macros == env.macros
  {
    if |args| != 3 then Outcome(Fail(DefunArity), env)
    else if !args[0].Symbol? then Outcome(Fail(DefunName), env)
    else if !args[1].List? then Outcome(Fail(DefunParams), env)
    else Outcome(Ok(Symbol(args[0].name)), env.SetFunction(args[0].name, Lambda(args[1].elems, args[2])))
  }

  /** The loop of `eval_function_call` from parameter `i` on: each argument
      is evaluated in the local environment and bound before the next. */
  function BindFrom(fuel: nat, params: seq<Expr>, args: seq<Expr>, i: nat, local: Env): (r: Result<Env>)
    requires |params| == |args| && i <= |params|
    decreases fuel, 1, |params| - i
  {
    if i == |params| then Ok(local)
    else if !params[i].Symbol? then Fail(InvalidParameterName)
    else
      var a := Eval(fuel, args[i], local);
      match a.result
      case Err(e) => Err(e)
      case Ok(v) => BindFrom(fuel, params, args, i + 1, a.env.SetSymbol(params[i].name, v))
  }

  /** `eval_function_call`: the body runs in a copy of the caller's
      environment, so the caller's environment is what the call returns. */
  function FunctionCall(fuel: nat, name: string, args: seq<Expr>, env: Env): (o: Outcome)
    ensures o.env == env
    decreases fuel, 1, |args| + 1
  {
    if name !in env.functions then Outcome(Fail(UndefinedFunction(name)), env)
    else
      var f := env.functions[name];
      if !f.List? then Outcome(Fail(NotAFunction), env)
      else if |f.elems| != 3 || !Equal(f.elems[0], Symbol("lambda")) then Outcome(Fail(InvalidDefinition), env)
      else if !f.elems[1].List? then Outcome(Fail(InvalidParameters), env)
      else if |f.elems[1].elems| != |args| then Outcome(Fail(CallArity), env)
      else
        match BindFrom(fuel, f.elems[1].elems, args, 0, env)
        case Err(e) => Outcome(Err(e), env)
        case Ok(local) => Outcome(Eval(fuel, f.elems[2], local).result, env)
  }
}
