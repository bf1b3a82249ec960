/** The meaning of src/macro_expander.rs, as functions: `defmacro`
    registration, template substitution with quasiquote/unquote, and the
    recursive expansion of macro calls.  Re-expanding the result of a macro
    call need not terminate (a macro may expand to a call of itself), so
    expansion carries a fuel bound that each re-expansion uses up. */
module Macros {
  import opened Errors
  import opened Expressions

  const DefmacroArity: string := "defmacro: 需要至少三个参数：宏名、参数列表和宏体"
  const DefmacroName: string := "defmacro: 第一个参数必须是一个符号"
  const DefmacroParams: string := "defmacro: 第二个参数必须是一个参数列表"
  const ArgumentCount: string := "参数数量不匹配"
  const NotAMacro: string := "不是有效的宏"
  const QuasiquoteArity: string := "quasiquote: 需要一个参数"
  const UnquoteArity: string := "unquote: 需要一个参数"

  const Quasiquote: Expr := Symbol("quasiquote")
  const Unquote: Expr := Symbol("unquote")

  /** A result together with the macro table it leaves behind. */
  datatype WithMacros = WithMacros(result: Result<Expr>, macros: map<string, Expr>)

  /** `parse_defmacro` on the items of a `(defmacro name (params...) body ...)`
      list: at least four items, a symbol name and a list of parameters; on
      success the macro is stored under its name and the form reads as the
      empty list.  Items after the body are ignored. */
  function ParseDefmacro(list: seq<Expr>, macros: map<string, Expr>): WithMacros {
    if |list| < 4 then WithMacros(Fail(DefmacroArity), macros)
    else if !list[1].Symbol? then WithMacros(Fail(DefmacroName), macros)
    else if !list[2].List? then WithMacros(Fail(DefmacroParams), macros)
    else WithMacros(Ok(Nil), macros[list[1].name := Macro(list[2].elems, list[3])])
  }

  /** A definition succeeds exactly when the name is a symbol and the
      parameters a list, and then only the new macro is added; a failed
      definition leaves the table alone. */
  lemma ParseDefmacroOutcome(list: seq<Expr>, macros: map<string, Expr>)
    ensures var d := ParseDefmacro(list, macros);
            && (d.result.Ok? <==> |list| >= 4 && list[1].Symbol? && list[2].List?)
            && (d.result.Ok? ==> d.result.value == Nil
                                 && d.macros == macros[list[1].name := Macro(list[2].elems, list[3])])
            && (d.result.Err? ==> d.macros == macros)
            && (|list| < 4 ==> d.result == Fail(DefmacroArity))
  {
  }

  // ---------------------------------------------------------------------------
  // The substitution table

  /** The table `expand` fills: each symbol parameter is bound to the
      argument in its position, a later parameter of the same name
      overwriting an earlier one; non-symbol parameters are skipped. */
  function Substitutions(params: seq<Expr>, args: seq<Expr>): map<string, Expr>
    requires |params| == |args|
    decreases |params|
  {
    if params == [] then map[]
    else
      var n := |params| - 1;
      var m := Substitutions(params[..n], args[..n]);
      if params[n].Symbol? then m[params[n].name := args[n]] else m
  }

  /** The position of the last occurrence of `x` in `s`. */
  function LastIndexOf(s: seq<Expr>, x: Expr): (k: nat)
    requires x in s
    ensures k < |s| && s[k] == x && forall j :: k < j < |s| ==> s[j] != x
    decreases |s|
  {
    if s[|s| - 1] == x then |s| - 1 else LastIndexOf(s[..|s| - 1], x)
  }

  /** A name is bound exactly when some parameter is that symbol, and it is
      bound to the argument of the last such parameter. */
  lemma {:induction false} SubstitutionsBind(params: seq<Expr>, args: seq<Expr>, name: string)
    requires |params| == |args|
    ensures name in Substitutions(params, args) <==> Symbol(name) in params
    ensures Symbol(name) in params ==>
              Substitutions(params, args)[name] == args[LastIndexOf(params, Symbol(name))]
    decreases |params|
  {
    if params != [] {
      var n := |params| - 1;
      SubstitutionsBind(params[..n], args[..n], name);
      assert params == params[..n] + [params[n]];
      if Symbol(name) in params && params[n] != Symbol(name) {
        assert Symbol(name) in params[..n];
        assert LastIndexOf(params, Symbol(name)) == LastIndexOf(params[..n], Symbol(name));
      }
    }
  }

  // ---------------------------------------------------------------------------
  // Template substitution

  /** `substitute`: a bound symbol becomes its argument, a
      `(quasiquote x)` form is handed to `expand_quasiquote`, any other list
      is substituted element by element, and everything else is copied. */
  function Substitute(template: Expr, subs: map<string, Expr>): (r: Result<Expr>)
    decreases Size(template), 0
  {
    match template
    case Symbol(name) => Ok(if name in subs then subs[name] else template)
    case List(xs) =>
      if |xs| > 0 && xs[0] == Quasiquote then
        if |xs| != 2 then Fail(QuasiquoteArity)
        else
          SizeOfAllBounds(xs, 1);
          ExpandQuasiquote(xs[1], subs)
      else
        (match SubstituteAll(xs, subs)
         case Ok(ys) => Ok(List(ys))
         case Err(e) => Err(e))
    case _ => Ok(template)
  }

  function SubstituteAll(xs: seq<Expr>, subs: map<string, Expr>): (r: Result<seq<Expr>>)
    ensures r.Ok? ==> |r.value| == |xs|
    decreases SizeOfAll(xs), 1
  {
    if xs == [] then Ok([])
    else
      match Substitute(xs[0], subs)
      case Err(e) => Err(e)
      case Ok(y) =>
        match SubstituteAll(xs[1..], subs)
        case Err(e) => Err(e)
        case Ok(ys) => Ok([y] + ys)
  }

  /** `expand_quasiquote`: inside a list, an element `(unquote name)` whose
      name is bound is replaced by its argument; every other element is
      itself quasi-expanded.  A bare bound symbol is replaced too. */
  function ExpandQuasiquote(e: Expr, subs: map<string, Expr>): (r: Result<Expr>)
    decreases Size(e), 0
  {
    match e
    case List(xs) =>
      (match QuasiAll(xs, subs)
       case Ok(ys) => Ok(List(ys))
       case Err(err) => Err(err))
    case Symbol(name) => Ok(if name in subs then subs[name] else e)
    case _ => Ok(e)
  }

  predicate IsUnquoteForm(item: Expr) {
    item.List? && |item.elems| > 0 && item.elems[0] == Unquote
  }

  function QuasiAll(xs: seq<Expr>, subs: map<string, Expr>): (r: Result<seq<Expr>>)
    ensures r.Ok? ==> |r.value| == |xs|
    decreases SizeOfAll(xs), 1
  {
    if xs == [] then Ok([])
    else
      var item := xs[0];
      var head :=
        if IsUnquoteForm(item) && |item.elems| != 2 then Fail(UnquoteArity)
        else if IsUnquoteForm(item) && item.elems[1].Symbol? && item.elems[1].name in subs
        then Ok(subs[item.elems[1].name])
        else ExpandQuasiquote(item, subs);
      match head
      case Err(err) => Err(err)
      case Ok(y) =>
        match QuasiAll(xs[1..], subs)
        case Err(err) => Err(err)
        case Ok(ys) => Ok([y] + ys)
  }

  // ---------------------------------------------------------------------------
  // Expansion

  predicate IsMacroCall(xs: seq<Expr>, macros: map<string, Expr>) {
    |xs| > 0 && xs[0].Symbol? && xs[0].name in macros
  }

  /** `expand_macro`: a list headed by the name of a defined macro is
      expanded as a call; any other list has its elements expanded; anything
      else is returned unchanged. */
  function ExpandMacro(fuel: nat, ast: Expr, macros: map<string, Expr>): (r: Result<Expr>)
    decreases fuel, Size(ast), 1
  {
    match ast
    case List(xs) =>
      if IsMacroCall(xs, macros) then Expand(fuel, macros[xs[0].name], xs[1..], macros)
      else
        (match ExpandAll(fuel, xs, macros)
         case Ok(ys) => Ok(List(ys))
         case Err(e) => Err(e))
    case _ => Ok(ast)
  }

  function ExpandAll(fuel: nat, xs: seq<Expr>, macros: map<string, Expr>): (r: Result<seq<Expr>>)
    ensures r.Ok? ==> |r.value| == |xs|
    decreases fuel, SizeOfAll(xs), 2
  {
    if xs == [] then Ok([])
    else
      match ExpandMacro(fuel, xs[0], macros)
      case Err(e) => Err(e)
      case Ok(y) =>
        match ExpandAll(fuel, xs[1..], macros)
        case Err(e) => Err(e)
        case Ok(ys) => Ok([y] + ys)
  }

  /** `expand`: the argument count must equal the parameter count; the
      template is substituted and the result expanded again, which uses up
      one unit of fuel. */
  function Expand(fuel: nat, mac: Expr, args: seq<Expr>, macros: map<string, Expr>): (r: Result<Expr>)
    decreases fuel, 0, 0
  {
    match mac
    case Macro(params, template) =>
      if |params| != |args| then Fail(ArgumentCount)
      else
        (match Substitute(template, Substitutions(params, args))
         case Err(e) => Err(e)
         case Ok(result) =>
           if fuel == 0 then Err(OutOfFuel) else ExpandMacro(fuel - 1, result, macros))
    case _ => Fail(NotAMacro)
  }

  // ---------------------------------------------------------------------------
  // Properties

  /** No list anywhere in `e` is headed by the name of a defined macro. */
  predicate NoMacroCalls(e: Expr, macros: map<string, Expr>)
    decreases e
  {
    match e
    case List(xs) => !IsMacroCall(xs, macros) && AllNoMacroCalls(xs, macros)
    case _ => true
  }

  predicate AllNoMacroCalls(xs: seq<Expr>, macros: map<string, Expr>)
    decreases xs
  {
    xs == [] || (NoMacroCalls(xs[0], macros) && AllNoMacroCalls(xs[1..], macros))
  }

  /** Expansion changes nothing in a tree that calls no macro. */
  lemma {:induction false} ExpandWithoutCalls(fuel: nat, e: Expr, macros: map<string, Expr>)
    requires NoMacroCalls(e, macros)
    ensures ExpandMacro(fuel, e, macros) == Ok(e)
    decreases e
  {
    if e.List? {
      ExpandAllWithoutCalls(fuel, e.elems, macros);
    }
  }

  lemma {:induction false} ExpandAllWithoutCalls(fuel: nat, xs: seq<Expr>, macros: map<string, Expr>)
    requires AllNoMacroCalls(xs, macros)
    ensures ExpandAll(fuel, xs, macros) == Ok(xs)
    decreases xs
  {
    if xs != [] {
      ExpandWithoutCalls(fuel, xs[0], macros);
      ExpandAllWithoutCalls(fuel, xs[1..], macros);
      assert xs == [xs[0]] + xs[1..];
    }
  }

  /** With an empty macro table nothing is a macro call. */
  lemma {:induction false} EmptyTableHasNoCalls(e: Expr)
    ensures NoMacroCalls(e, map[])
    decreases e
  {
    if e.List? {
      AllEmptyTableHasNoCalls(e.elems);
    }
  }

  lemma {:induction false} AllEmptyTableHasNoCalls(xs: seq<Expr>)
    ensures AllNoMacroCalls(xs, map[])
    decreases xs
  {
    if xs != [] {
      EmptyTableHasNoCalls(xs[0]);
      AllEmptyTableHasNoCalls(xs[1..]);
    }
  }

  /** Any expression that is not a list expands to itself; a list that is
      not a macro call expands to a list of the same length. */
  lemma ExpandKeepsShape(fuel: nat, e: Expr, macros: map<string, Expr>)
    ensures !e.List? ==> ExpandMacro(fuel, e, macros) == Ok(e)
    ensures e.List? && !IsMacroCall(e.elems, macros) && ExpandMacro(fuel, e, macros).Ok? ==>
              ExpandMacro(fuel, e, macros).value.List?
              && |ExpandMacro(fuel, e, macros).value.elems| == |e.elems|
  {
  }

  /** Calling a macro with a different number of arguments than it has
      parameters is an error. */
  lemma ArityMismatchFails(fuel: nat, name: string, args: seq<Expr>, macros: map<string, Expr>)
    requires name in macros && macros[name].Macro? && |macros[name].params| != |args|
    ensures ExpandMacro(fuel, List([Symbol(name)] + args), macros) == Fail(ArgumentCount)
  {
    assert ([Symbol(name)] + args)[1..] == args;
  }

  /** `(quasiquote)` and `(quasiquote a b)` are errors, and so is an unquote
      form with other than one argument inside a quasiquote. */
  lemma MalformedQuasiquoteFails(xs: seq<Expr>, ys: seq<Expr>, subs: map<string, Expr>)
    requires |xs| != 1 && |ys| != 1
    ensures Substitute(List([Quasiquote] + xs), subs) == Fail(QuasiquoteArity)
    ensures Substitute(List([Quasiquote, List([List([Unquote] + ys)])]), subs) == Fail(UnquoteArity)
  {
    var inner := List([Unquote] + ys);
    assert IsUnquoteForm(inner) && |inner.elems| != 2;
    assert QuasiAll([inner], subs) == Fail(UnquoteArity);
  }

  /** Inside a quasiquoted list, `(unquote name)` with a bound `name` is
      replaced by its argument, while a top-level `` `,name `` is not unwrapped:
      only the bound symbol inside it is replaced. */
  lemma UnquoteReplaces(name: string, before: seq<Expr>, subs: map<string, Expr>)
    requires name in subs && "unquote" !in subs
    ensures Substitute(List([Quasiquote, List([List([Unquote, Symbol(name)])])]), subs)
            == Ok(List([subs[name]]))
    ensures Substitute(List([Quasiquote, List([Unquote, Symbol(name)])]), subs)
            == Ok(List([Unquote, subs[name]]))
  {
    var form := List([Unquote, Symbol(name)]);
    var inner := [form];
    assert inner[1..] == [];
    assert QuasiAll(inner[1..], subs) == Ok([]);
    assert IsUnquoteForm(inner[0]) && inner[0].elems[1].Symbol?;
    assert QuasiAll(inner, subs).value == [subs[name]];
    var bare := [Unquote, Symbol(name)];
    assert bare[1..][1..] == [];
    assert QuasiAll(bare[1..][1..], subs) == Ok([]);
    assert !IsUnquoteForm(bare[0]) && !IsUnquoteForm(bare[1..][0]);
    assert ExpandQuasiquote(Unquote, subs) == Ok(Unquote);
    assert bare[1..][0] == Symbol(name) && ExpandQuasiquote(Symbol(name), subs) == Ok(subs[name]);
    assert QuasiAll(bare[1..], subs).value == [subs[name]];
    assert QuasiAll(bare, subs).value == [Unquote, subs[name]];
  }

  /** Each element of a successfully quasi-expanded list is computed from the
      element in the same place alone: an `(unquote name)` with a bound
      `name` becomes its argument, and any other element is quasi-expanded
      on its own. */
  lemma {:induction false} QuasiAllElement(xs: seq<Expr>, subs: map<string, Expr>, k: nat)
    requires QuasiAll(xs, subs).Ok? && k < |xs|
    ensures if IsUnquoteForm(xs[k]) && |xs[k].elems| == 2 && xs[k].elems[1].Symbol?
               && xs[k].elems[1].name in subs
            then QuasiAll(xs, subs).value[k] == subs[xs[k].elems[1].name]
            else ExpandQuasiquote(xs[k], subs) == Ok(QuasiAll(xs, subs).value[k])
    decreases k
  {
    if k > 0 {
      QuasiAllElement(xs[1..], subs, k - 1);
      assert xs[1..][k - 1] == xs[k];
    }
  }

  /** The plain reference for substitution: bound symbols replaced, every
      other node rebuilt as it was. */
  function Replace(e: Expr, subs: map<string, Expr>): Expr
    decreases e
  {
    match e
    case Symbol(name) => if name in subs then subs[name] else e
    case List(xs) => List(ReplaceAll(xs, subs))
    case _ => e
  }

  function ReplaceAll(xs: seq<Expr>, subs: map<string, Expr>): (r: seq<Expr>)
    ensures |r| == |xs|
    decreases xs
  {
    if xs == [] then [] else [Replace(xs[0], subs)] + ReplaceAll(xs[1..], subs)
  }

  /** No list in `e` is headed by the symbol `quasiquote`. */
  predicate QuasiquoteFree(e: Expr)
    decreases e
  {
    match e
    case List(xs) => !(|xs| > 0 && xs[0] == Quasiquote) && AllQuasiquoteFree(xs)
    case _ => true
  }

  predicate AllQuasiquoteFree(xs: seq<Expr>)
    decreases xs
  {
    xs == [] || (QuasiquoteFree(xs[0]) && AllQuasiquoteFree(xs[1..]))
  }

  /** Without quasiquote forms, substitution replaces each bound symbol by
      its argument, copies all other structure, and cannot fail. */
  lemma {:induction false} SubstituteReplaces(t: Expr, subs: map<string, Expr>)
    requires QuasiquoteFree(t)
    ensures Substitute(t, subs) == Ok(Replace(t, subs))
    decreases t
  {
    if t.List? {
      SubstituteAllReplaces(t.elems, subs);
    }
  }

  lemma {:induction false} SubstituteAllReplaces(xs: seq<Expr>, subs: map<string, Expr>)
    requires AllQuasiquoteFree(xs)
    ensures SubstituteAll(xs, subs) == Ok(ReplaceAll(xs, subs))
    decreases xs
  {
    if xs != [] {
      SubstituteReplaces(xs[0], subs);
      SubstituteAllReplaces(xs[1..], subs);
    }
  }

  /** With nothing bound, replacement is the identity. */
  lemma {:induction false} ReplaceNothing(e: Expr)
    ensures Replace(e, map[]) == e
    decreases e
  {
    if e.List? {
      ReplaceAllNothing(e.elems);
    }
  }

  lemma {:induction false} ReplaceAllNothing(xs: seq<Expr>)
    ensures ReplaceAll(xs, map[]) == xs
    decreases xs
  {
    if xs != [] {
      ReplaceNothing(xs[0]);
      ReplaceAllNothing(xs[1..]);
      assert xs == [xs[0]] + xs[1..];
    }
  }

  /** No list in `e` is an `unquote` form. */
  predicate UnquoteFree(e: Expr)
    decreases e
  {
    match e
    case List(xs) => !IsUnquoteForm(e) && AllUnquoteFree(xs)
    case _ => true
  }

  predicate AllUnquoteFree(xs: seq<Expr>)
    decreases xs
  {
    xs == [] || (UnquoteFree(xs[0]) && AllUnquoteFree(xs[1..]))
  }

  /** A quasiquoted template without `unquote` forms is expanded like plain
      substitution: every bound symbol, at any depth and inside nested
      quasiquote forms too, is replaced by its argument, and the expansion
      cannot fail. */
  lemma {:induction false} QuasiquoteReplaces(t: Expr, subs: map<string, Expr>)
    requires UnquoteFree(t)
    ensures ExpandQuasiquote(t, subs) == Ok(Replace(t, subs))
    decreases t
  {
    if t.List? {
      QuasiAllReplaces(t.elems, subs);
    }
  }

  lemma {:induction false} QuasiAllReplaces(xs: seq<Expr>, subs: map<string, Expr>)
    requires AllUnquoteFree(xs)
    ensures QuasiAll(xs, subs) == Ok(ReplaceAll(xs, subs))
    decreases xs
  {
    if xs != [] {
      assert !IsUnquoteForm(xs[0]) by {
        if xs[0].List? { assert !IsUnquoteForm(xs[0]); }
      }
      QuasiquoteReplaces(xs[0], subs);
      QuasiAllReplaces(xs[1..], subs);
    }
  }

  /** A call of a macro whose template has no quasiquote form expands to the
      template with each parameter replaced by its argument, once that
      result calls no further macro. */
  lemma MacroCallExpands(fuel: nat, name: string, args: seq<Expr>, macros: map<string, Expr>)
    requires name in macros && macros[name].Macro?
    requires |macros[name].params| == |args| && QuasiquoteFree(macros[name].body)
    requires NoMacroCalls(Replace(macros[name].body, Substitutions(macros[name].params, args)), macros)
    requires fuel > 0
    ensures ExpandMacro(fuel, List([Symbol(name)] + args), macros)
            == Ok(Replace(macros[name].body, Substitutions(macros[name].params, args)))
  {
    assert ([Symbol(name)] + args)[1..] == args;
    var subs := Substitutions(macros[name].params, args);
    SubstituteReplaces(macros[name].body, subs);
    ExpandWithoutCalls(fuel - 1, Replace(macros[name].body, subs), macros);
  }

  /** The original's unit test: `(my-macro 5)` with template `(+ x 10)`
      expands to `(+ 5 10)`. */
  lemma MyMacroExample(fuel: nat)
    requires fuel > 0
    ensures var macros := map["my-macro" := Macro([Symbol("x")], List([Symbol("+"), Symbol("x"), Number(10)]))];
            ExpandMacro(fuel, List([Symbol("my-macro"), Number(5)]), macros)
            == Ok(List([Symbol("+"), Number(5), Number(10)]))
  {
    var m := map["my-macro" := Macro([Symbol("x")], List([Symbol("+"), Symbol("x"), Number(10)]))];
    var subs := Substitutions([Symbol("x")], [Number(5)]);
    assert subs == map["x" := Number(5)];
    var r := List([Symbol("+"), Number(5), Number(10)]);
    assert ReplaceAll([Number(10)], subs) == [Number(10)];
    assert ReplaceAll([Symbol("x"), Number(10)], subs) == [Number(5), Number(10)];
    assert Replace(m["my-macro"].body, subs) == r;
    assert AllNoMacroCalls(r.elems[2..], m) && AllNoMacroCalls(r.elems[1..], m);
    MacroCallExpands(fuel, "my-macro", [Number(5)], m);
  }

  /** The original's unit test: `(sum-macro 3 4)` with template `(+ a b)`
      expands to `(+ 3 4)`. */
  lemma SumMacroExample(fuel: nat)
    requires fuel > 0
    ensures var macros := map["sum-macro" := Macro([Symbol("a"), Symbol("b")], List([Symbol("+"), Symbol("a"), Symbol("b")]))];
            ExpandMacro(fuel, List([Symbol("sum-macro"), Number(3), Number(4)]), macros)
            == Ok(List([Symbol("+"), Number(3), Number(4)]))
  {
    var m := map["sum-macro" := Macro([Symbol("a"), Symbol("b")], List([Symbol("+"), Symbol("a"), Symbol("b")]))];
    var ps := [Symbol("a"), Symbol("b")];
    var args := [Number(3), Number(4)];
    var subs := Substitutions(ps, args);
    assert ps[..1] == [Symbol("a")] && args[..1] == [Number(3)];
    assert Substitutions(ps[..1], args[..1]) == map["a" := Number(3)];
    assert subs == map["a" := Number(3), "b" := Number(4)];
    var r := List([Symbol("+"), Number(3), Number(4)]);
    assert ReplaceAll([Symbol("b")], subs) == [Number(4)];
    assert ReplaceAll([Symbol("a"), Symbol("b")], subs) == [Number(3), Number(4)];
    assert Replace(m["sum-macro"].body, subs) == r;
    assert AllNoMacroCalls(r.elems[2..], m) && AllNoMacroCalls(r.elems[1..], m);
    MacroCallExpands(fuel, "sum-macro", args, m);
  }

  /** The original's unit test of reading and expanding a macro: with
      `(defmacro my-macro (x) `(+ ,x 10))` defined, `(my-macro 5)` expands
      to `(+ 5 10)`. */
  lemma QuasiMacroExample(fuel: nat)
    requires fuel > 0
    ensures var macros := map["my-macro" := Macro([Symbol("x")],
              List([Quasiquote, List([Symbol("+"), List([Unquote, Symbol("x")]), Number(10)])]))];
            ExpandMacro(fuel, List([Symbol("my-macro"), Number(5)]), macros)
            == Ok(List([Symbol("+"), Number(5), Number(10)]))
  {
    var inner := [Symbol("+"), List([Unquote, Symbol("x")]), Number(10)];
    var m := map["my-macro" := Macro([Symbol("x")], List([Quasiquote, List(inner)]))];
    var subs := Substitutions([Symbol("x")], [Number(5)]);
    assert subs == map["x" := Number(5)];
    QuasiTemplateExpands(subs);
    var r := List([Symbol("+"), Number(5), Number(10)]);
    assert ExpandQuasiquote(List(inner), subs) == Ok(r);
    var body := List([Quasiquote, List(inner)]);
    assert body.elems[0] == Quasiquote && |body.elems| == 2;
    assert Substitute(body, subs) == Ok(r);
    assert m["my-macro"].body == body;
    assert "+" !in m;
    assert r.elems[1..][1..] == [Number(10)] && r.elems[1..][1..][1..] == [];
    assert AllNoMacroCalls(r.elems[1..][1..], m);
    assert AllNoMacroCalls(r.elems[1..], m);
    assert NoMacroCalls(r, m);
    ExpandWithoutCalls(fuel - 1, r, m);
    assert [Symbol("my-macro"), Number(5)][1..] == [Number(5)];
  }

  lemma QuasiTemplateExpands(subs: map<string, Expr>)
    requires subs == map["x" := Number(5)]
    ensures QuasiAll([Symbol("+"), List([Unquote, Symbol("x")]), Number(10)], subs)
            == Ok([Symbol("+"), Number(5), Number(10)])
  {
    var inner := [Symbol("+"), List([Unquote, Symbol("x")]), Number(10)];
    var last := [Number(10)];
    assert last[1..] == [] && QuasiAll([], subs) == Ok([]);
    assert !IsUnquoteForm(last[0]) && ExpandQuasiquote(last[0], subs) == Ok(Number(10));
    assert [Number(10)] + [] == [Number(10)];
    assert QuasiAll(last, subs).value == [Number(10)];
    var rest := [List([Unquote, Symbol("x")]), Number(10)];
    assert rest[1..] == last && IsUnquoteForm(rest[0]);
    assert rest[0].elems[1] == Symbol("x") && "x" in subs;
    assert QuasiAll(rest, subs).value == [Number(5), Number(10)];
    assert inner[1..] == rest && !IsUnquoteForm(inner[0]);
    assert ExpandQuasiquote(inner[0], subs) == Ok(Symbol("+"));
    assert QuasiAll(inner, subs).value == [Symbol("+"), Number(5), Number(10)];
  }
}
