/** The integer arithmetic behind src/operator/arithmetic.rs: Rust's `i64`
    operations as a debug build performs them, where an overflowing `+`,
    `-`, `*` or `/` panics, and `/` truncates toward zero.  Dafny's own `/`
    rounds toward negative infinity for a positive divisor, so truncation is
    written out. */
module Arithmetic {
  import opened Errors
  import opened Expressions

  const InvalidNumber: string := "Invalid number"
  const SubtractArity: string := "Subtraction requires at least one argument"
  const DivideArity: string := "Division requires at least one argument"
  const DivisionByZero: string := "Division by zero"
  const AddOverflow: string := "attempt to add with overflow"
  const SubtractOverflow: string := "attempt to subtract with overflow"
  const MultiplyOverflow: string := "attempt to multiply with overflow"
  const DivideOverflow: string := "attempt to divide with overflow"

  function Abs(x: int): nat {
    if x < 0 then -x else x
  }

  /** Rust's integer `/`: the quotient rounded toward zero. */
  function TruncDiv(a: int, b: int): int
    requires b != 0
  {
    var q := Abs(a) / Abs(b);
    if (a < 0) == (b < 0) then q else -q
  }

  lemma MulNonnegative(x: int, y: int)
    requires x >= 0 && y >= 0
    ensures x * y >= 0
  {
  }

  /** Euclidean division of naturals, as Dafny defines it. */
  lemma NatDivision(a: int, b: int)
    requires a >= 0 && b > 0
    ensures a == (a / b) * b + a % b && 0 <= a % b < b && 0 <= a / b <= a
  {
    var q := a / b;
    MulNonnegative(q, b - 1);
    assert q * b == q * (b - 1) + q;
  }

  lemma MulSigns(x: int, y: int)
    ensures (-x) * y == -(x * y) && x * (-y) == -(x * y) && (-x) * (-y) == x * y
  {
  }

  /** The truncated quotient leaves a remainder smaller than the divisor and
      of the dividend's sign, and is no larger than the dividend. */
  lemma TruncDivIsTruncation(a: int, b: int)
    requires b != 0
    ensures var q := TruncDiv(a, b);
            var r := a - q * b;
            && Abs(r) < Abs(b)
            && (r == 0 || (r < 0 <==> a < 0))
            && Abs(q) <= Abs(a)
  {
    var x: int, y: int := Abs(a), Abs(b);
    var q0: int := x / y;
    NatDivision(x, y);
    MulSigns(q0, y);
    var q := TruncDiv(a, b);
    assert q == if (a < 0) == (b < 0) then q0 else -q0;
    assert b == if b < 0 then -y else y;
    assert q * b == if a < 0 then -(q0 * y) else q0 * y;
  }

  /** The only 64-bit division whose quotient does not fit is `MIN / -1`. */
  lemma TruncDivInRange(a: i64, b: i64)
    requires b != 0 && !(a as int == I64_MIN && b == -1)
    ensures InI64(TruncDiv(a as int, b as int))
  {
    var x: int, y: int := Abs(a as int), Abs(b as int);
    var q0: int := x / y;
    NatDivision(x, y);
    if y >= 2 {
      MulNonnegative(q0, y - 2);
      assert q0 * y == q0 * (y - 2) + 2 * q0;
    }
  }

  function CheckedAdd(a: i64, b: i64): Result<i64> {
    var x := a as int + b as int;
    if InI64(x) then Ok(x as i64) else Err(Panic(AddOverflow))
  }

  function CheckedSub(a: i64, b: i64): Result<i64> {
    var x := a as int - b as int;
    if InI64(x) then Ok(x as i64) else Err(Panic(SubtractOverflow))
  }

  function CheckedMul(a: i64, b: i64): Result<i64> {
    var x := a as int * b as int;
    if InI64(x) then Ok(x as i64) else Err(Panic(MultiplyOverflow))
  }

  /** `result /= value` once the zero divisor has been ruled out. */
  function CheckedDiv(a: i64, b: i64): Result<i64>
    requires b != 0
  {
    if a as int == I64_MIN && b == -1 then Err(Panic(DivideOverflow))
    else
      TruncDivInRange(a, b);
      Ok(TruncDiv(a as int, b as int) as i64)
  }

  /** Each checked operation gives the exact mathematical result when it
      fits in 64 bits, and panics exactly when it does not. */
  lemma CheckedIsExact(a: i64, b: i64)
    ensures CheckedAdd(a, b).Ok? <==> InI64(a as int + b as int)
    ensures CheckedAdd(a, b).Ok? ==> CheckedAdd(a, b).value as int == a as int + b as int
    ensures CheckedSub(a, b).Ok? <==> InI64(a as int - b as int)
    ensures CheckedSub(a, b).Ok? ==> CheckedSub(a, b).value as int == a as int - b as int
    ensures CheckedMul(a, b).Ok? <==> InI64(a as int * b as int)
    ensures CheckedMul(a, b).Ok? ==> CheckedMul(a, b).value as int == a as int * b as int
    ensures b != 0 ==> (CheckedDiv(a, b).Ok? <==> InI64(TruncDiv(a as int, b as int)))
    ensures b != 0 && CheckedDiv(a, b).Ok? ==> CheckedDiv(a, b).value as int == TruncDiv(a as int, b as int)
  {
    if b != 0 && a as int == I64_MIN && b == -1 {
      assert TruncDiv(a as int, b as int) == -I64_MIN;
    }
  }

  /** The operator a fold applies: `+`, `-` and `*` check for overflow;
      `/` first rejects a zero divisor. */
  datatype ArithOp = AddOp | SubOp | MulOp | DivOp

  function Step(op: ArithOp, acc: i64, n: i64): Result<i64> {
    match op
    case AddOp => CheckedAdd(acc, n)
    case SubOp => CheckedSub(acc, n)
    case MulOp => CheckedMul(acc, n)
    case DivOp => if n == 0 then Fail(DivisionByZero) else CheckedDiv(acc, n)
  }

  /** The steps over the values `ns`, left to right from `acc`; the first
      failing step ends the fold. */
  function StepAll(op: ArithOp, acc: i64, ns: seq<i64>): Result<i64>
    decreases |ns|
  {
    if ns == [] then Ok(acc)
    else
      match Step(op, acc, ns[0])
      case Err(e) => Err(e)
      case Ok(next) => StepAll(op, next, ns[1..])
  }

  /** What `+`, `-` and `*` compute, on unbounded integers. */
  function Exact(op: ArithOp, a: int, n: int): int
    requires op != DivOp
  {
    match op
    case AddOp => a + n
    case SubOp => a - n
    case MulOp => a * n
  }

  function Overflow(op: ArithOp): string {
    match op
    case AddOp => AddOverflow
    case SubOp => SubtractOverflow
    case MulOp => MultiplyOverflow
    case DivOp => DivideOverflow
  }

  /** The left fold of `Exact` on unbounded integers. */
  function ExactAll(op: ArithOp, a: int, ns: seq<i64>): int
    requires op != DivOp
    decreases |ns|
  {
    if ns == [] then a else ExactAll(op, Exact(op, a, ns[0] as int), ns[1..])
  }

  /** Every intermediate result of the fold fits in 64 bits. */
  predicate PartialsFit(op: ArithOp, a: int, ns: seq<i64>)
    requires op != DivOp
  {
    forall k :: 1 <= k <= |ns| ==> InI64(ExactAll(op, a, ns[..k]))
  }

  /** The mathematical sum and product of a sequence. */
  function Sum(ns: seq<i64>): int
    decreases |ns|
  {
    if ns == [] then 0 else ns[0] as int + Sum(ns[1..])
  }

  function Product(ns: seq<i64>): int
    decreases |ns|
  {
    if ns == [] then 1 else ns[0] as int * Product(ns[1..])
  }

  /** Truncated division of `a` by each of `ns` in turn. */
  function Quotient(a: int, ns: seq<i64>): int
    requires forall k :: 0 <= k < |ns| ==> ns[k] != 0
    decreases |ns|
  {
    if ns == [] then a else Quotient(TruncDiv(a, ns[0] as int), ns[1..])
  }

  lemma PrefixTail(ns: seq<i64>, k: nat)
    requires 1 <= k <= |ns|
    ensures ns[..k][0] == ns[0] && ns[..k][1..] == ns[1..][..k - 1]
  {
  }

  /** A fold of `+`, `-` or `*` succeeds exactly when no intermediate
      result overflows, and then gives the exact result; otherwise it
      panics with the operator's overflow message. */
  lemma {:induction false} StepAllIsExact(op: ArithOp, acc: i64, ns: seq<i64>)
    requires op != DivOp
    ensures StepAll(op, acc, ns).Ok? <==> PartialsFit(op, acc as int, ns)
    ensures StepAll(op, acc, ns).Ok? ==> StepAll(op, acc, ns).value as int == ExactAll(op, acc as int, ns)
    ensures StepAll(op, acc, ns).Err? ==> StepAll(op, acc, ns) == Err(Panic(Overflow(op)))
    decreases |ns|
  {
    if ns != [] {
      CheckedIsExact(acc, ns[0]);
      var x := Exact(op, acc as int, ns[0] as int);
      PrefixTail(ns, 1);
      assert ExactAll(op, acc as int, ns[..1]) == x;
      if InI64(x) {
        var next := x as i64;
        assert Step(op, acc, ns[0]) == Ok(next);
        StepAllIsExact(op, next, ns[1..]);
        forall k | 1 <= k <= |ns|
          ensures ExactAll(op, acc as int, ns[..k]) == ExactAll(op, x, ns[1..][..k - 1])
        {
          PrefixTail(ns, k);
        }
        if PartialsFit(op, x, ns[1..]) {
          forall k | 1 <= k <= |ns|
            ensures InI64(ExactAll(op, acc as int, ns[..k]))
          {
            PrefixTail(ns, k);
            if k > 1 {
              assert InI64(ExactAll(op, x, ns[1..][..k - 1]));
            }
          }
        } else {
          var k :| 1 <= k <= |ns| - 1 && !InI64(ExactAll(op, x, ns[1..][..k]));
          PrefixTail(ns, k + 1);
          assert !InI64(ExactAll(op, acc as int, ns[..k + 1]));
        }
      } else {
        assert Step(op, acc, ns[0]) == Err(Panic(Overflow(op)));
        assert !InI64(ExactAll(op, acc as int, ns[..1]));
      }
    }
  }

  /** The folds of `+`, `-` and `*` are the sum, the difference with the
      sum and the product. */
  lemma {:induction false} AddAllIsSum(a: int, ns: seq<i64>)
    ensures ExactAll(AddOp, a, ns) == a + Sum(ns)
    decreases |ns|
  {
    if ns != [] {
      AddAllIsSum(a + ns[0] as int, ns[1..]);
    }
  }

  lemma {:induction false} SubAllIsDifference(a: int, ns: seq<i64>)
    ensures ExactAll(SubOp, a, ns) == a - Sum(ns)
    decreases |ns|
  {
    if ns != [] {
      SubAllIsDifference(a - ns[0] as int, ns[1..]);
    }
  }

  lemma {:induction false} MulAllIsProduct(a: int, ns: seq<i64>)
    ensures ExactAll(MulOp, a, ns) == a * Product(ns)
    decreases |ns|
  {
    if ns != [] {
      var n := ns[0] as int;
      MulAllIsProduct(a * n, ns[1..]);
      MulAssociates(a, n, Product(ns[1..]));
    }
  }

  lemma MulAssociates(x: int, y: int, z: int)
    ensures x * y * z == x * (y * z)
  {
  }

  /** A fold of `/` from anything but `i64::MIN` never overflows: it
      succeeds exactly when no divisor is zero, and gives the quotients
      truncated in turn; otherwise it fails with "Division by zero". */
  lemma {:induction false} StepAllDivides(acc: i64, ns: seq<i64>)
    requires acc as int != I64_MIN
    ensures StepAll(DivOp, acc, ns).Ok? <==> forall k :: 0 <= k < |ns| ==> ns[k] != 0
    ensures StepAll(DivOp, acc, ns).Ok? ==> StepAll(DivOp, acc, ns).value as int == Quotient(acc as int, ns)
    ensures StepAll(DivOp, acc, ns).Err? ==> StepAll(DivOp, acc, ns) == Fail(DivisionByZero)
    decreases |ns|
  {
    if ns != [] {
      if ns[0] == 0 {
        assert Step(DivOp, acc, ns[0]) == Fail(DivisionByZero);
      } else {
        TruncDivIsTruncation(acc as int, ns[0] as int);
        CheckedIsExact(acc, ns[0]);
        var q := TruncDiv(acc as int, ns[0] as int);
        assert InI64(q) && q != I64_MIN;
        StepAllDivides(q as i64, ns[1..]);
        if forall k :: 0 <= k < |ns| ==> ns[k] != 0 {
          assert forall k :: 0 <= k < |ns[1..]| ==> ns[1..][k] == ns[k + 1];
        } else {
          var k :| 0 <= k < |ns| && ns[k] == 0;
          assert ns[1..][k - 1] == 0;
        }
      }
    }
  }
}
