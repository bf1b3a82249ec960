/** What src/operator/comparison.rs does with the values of its two
    arguments, once they are evaluated.  The four orderings accept only
    numbers and answer with the string Rust's `bool::to_string` gives; `=`
    never fails and answers `T` or the empty list. */
module Comparison {
  import opened Errors
  import opened Expressions

  const InvalidComparison: string := "Invalid comparison"
  const EqualArity: string := "= requires exactly 2 arguments"

  datatype Relation = Greater | Less | GreaterEqual | LessEqual

  function OperatorName(rel: Relation): string {
    match rel
    case Greater => ">"
    case Less => "<"
    case GreaterEqual => ">="
    case LessEqual => "<="
  }

  function ArityMessage(rel: Relation): string {
    OperatorName(rel) + " requires exactly two arguments"
  }

  function Holds(rel: Relation, l: i64, r: i64): bool {
    match rel
    case Greater => l > r
    case Less => l < r
    case GreaterEqual => l >= r
    case LessEqual => l <= r
  }

  /** `bool::to_string`. */
  function BoolText(b: bool): string {
    if b then "true" else "false"
  }

  function Compare(rel: Relation, left: Expr, right: Expr): Result<Expr> {
    if left.Number? && right.Number? then Ok(Str(BoolText(Holds(rel, left.value, right.value))))
    else Fail(InvalidComparison)
  }

  /** The `match` of `eval_equal`: equal payloads of the same variant among
      numbers, symbols, strings and lists; lists compare with `PartialEq`. */
  function Same(left: Expr, right: Expr): bool {
    match (left, right)
    case (Number(a), Number(b)) => a == b
    case (Symbol(a), Symbol(b)) => a == b
    case (Str(a), Str(b)) => a == b
    case (List(a), List(b)) => AllEqual(a, b)
    case _ => false
  }

  function EqualValues(left: Expr, right: Expr): Expr {
    if Same(left, right) then Symbol("T") else Nil
  }

  /** An ordering succeeds exactly on two numbers. */
  lemma CompareNeedsNumbers(rel: Relation, left: Expr, right: Expr)
    ensures Compare(rel, left, right).Ok? <==> left.Number? && right.Number?
    ensures Compare(rel, left, right).Ok? ==>
              (Compare(rel, left, right).value == Str("true") <==> Holds(rel, left.value, right.value))
  {
  }

  /** `>` is `<` with the operands swapped, and `>=` and `<=` likewise;
      `>=` answers the opposite of `<`, and `<=` the opposite of `>`. */
  lemma OrderingsAgree(a: i64, b: i64)
    ensures Compare(Greater, Number(a), Number(b)) == Compare(Less, Number(b), Number(a))
    ensures Compare(GreaterEqual, Number(a), Number(b)) == Compare(LessEqual, Number(b), Number(a))
    ensures Compare(GreaterEqual, Number(a), Number(b)) == Ok(Str(BoolText(!Holds(Less, a, b))))
    ensures Compare(LessEqual, Number(a), Number(b)) == Ok(Str(BoolText(!Holds(Greater, a, b))))
  {
  }

  /** `=` answers `T` exactly for two identical numbers, symbols, strings
      or macro-free lists; floats, dotted pairs and mixed kinds are never
      equal. */
  lemma EqualValuesIsIdentity(left: Expr, right: Expr)
    ensures EqualValues(left, right) == Symbol("T") <==>
              left == right && MacroFree(left) && (left.Number? || left.Symbol? || left.Str? || left.List?)
    ensures EqualValues(left, right) == Symbol("T") || EqualValues(left, right) == Nil
  {
    if left.List? && right.List? {
      AllEqualIsIdentity(left.elems, right.elems);
    }
  }

  /** `=` is symmetric. */
  lemma EqualValuesSymmetric(left: Expr, right: Expr)
    ensures EqualValues(left, right) == EqualValues(right, left)
  {
    EqualValuesIsIdentity(left, right);
    EqualValuesIsIdentity(right, left);
  }
}
