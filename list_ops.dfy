/** What src/operator/list.rs does with the values of its arguments, once
    they are evaluated.  Lists are vectors: `cons` inserts at the front,
    `cdr` copies the tail. */
module ListOps {
  import opened Errors
  import opened Expressions

  const CarArity: string := "car requires exactly one argument"
  const CarNotList: string := "car: argument is not a list"
  const CdrArity: string := "cdr requires exactly one argument"
  const CdrNotList: string := "cdr: argument is not a list"
  const ConsArity: string := "cons requires exactly two arguments"
  const CountArity: string := "length requires exactly one argument"
  const CountNotList: string := "length: argument is not a list"
  const QuoteArity: string := "quote requires exactly one argument"

  const TWO_TO_64: int := 0x1_0000_0000_0000_0000

  /** `usize as i64` on a 64-bit target: the low 64 bits, read as a signed
      number. */
  function WrapI64(n: nat): (r: i64)
    ensures n <= I64_MAX ==> r as int == n
  {
    var low := n % TWO_TO_64;
    if low <= I64_MAX then low as i64 else (low - TWO_TO_64) as i64
  }

  function Car(v: Expr): Result<Expr> {
    if !v.List? then Fail(CarNotList)
    else if |v.elems| > 0 then Ok(v.elems[0])
    else Ok(Nil)
  }

  function Cdr(v: Expr): Result<Expr> {
    if !v.List? then Fail(CdrNotList)
    else if |v.elems| > 1 then Ok(List(v.elems[1..]))
    else Ok(Nil)
  }

  /** A list second argument gets the first inserted at its front; any
      other value becomes the second element of a two-element list. */
  function Cons(first: Expr, rest: Expr): Expr {
    var list := if rest.List? then rest.elems else [rest];
    List([first] + list)
  }

  function Count(v: Expr): Result<Expr> {
    if v.List? then Ok(Number(WrapI64(|v.elems|))) else Fail(CountNotList)
  }

  /** `car` and `cdr` take apart what `cons` builds onto a list. */
  lemma CarCdrCons(x: Expr, xs: seq<Expr>)
    ensures Car(Cons(x, List(xs))) == Ok(x)
    ensures Cdr(Cons(x, List(xs))) == Ok(List(xs))
  {
    assert ([x] + xs)[1..] == xs;
  }

  /** `cons` onto a non-list makes the pair into a two-element list. */
  lemma ConsOntoAtom(x: Expr, y: Expr)
    requires !y.List?
    ensures Cons(x, y) == List([x, y])
    ensures Car(Cons(x, y)) == Ok(x) && Cdr(Cons(x, y)) == Ok(List([y]))
  {
    assert [x, y][1..] == [y];
  }

  /** `cons` onto a list adds one to its count; `count` is the length. */
  lemma CountCons(x: Expr, xs: seq<Expr>)
    requires |xs| < I64_MAX
    ensures Count(List(xs)) == Ok(Number(|xs| as i64))
    ensures Count(Cons(x, List(xs))) == Ok(Number((|xs| + 1) as i64))
  {
  }

  /** `car` of a non-empty list and `cdr` of it put back together by
      `cons` give the list again. */
  lemma ConsCarCdr(xs: seq<Expr>)
    requires |xs| > 0
    ensures Car(List(xs)).Ok? && Cdr(List(xs)).Ok?
    ensures Cons(Car(List(xs)).value, Cdr(List(xs)).value) == List(xs)
  {
    if |xs| > 1 {
      assert [xs[0]] + xs[1..] == xs;
    } else {
      assert [xs[0]] + [] == xs;
    }
  }

  /** Only lists can be taken apart or counted. */
  lemma NotAListFails(v: Expr)
    requires !v.List?
    ensures Car(v) == Fail(CarNotList) && Cdr(v) == Fail(CdrNotList) && Count(v) == Fail(CountNotList)
  {
  }
}
