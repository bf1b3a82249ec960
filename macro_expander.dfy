/** src/macro_expander.rs as the original writes it: `parse_defmacro`
    updates the environment's macro table, `expand` fills the substitution
    table in a loop, and `substitute`, `expand_quasiquote` and
    `expand_macro` rebuild lists element by element, stopping at the first
    error.  Each method is proved to compute the function of the same name
    in module Macros. */
module MacroExpander {
  import opened Errors
  import opened Expressions
  import opened Environments
  import Macros

  /** `ys` in front of the elements `r` holds, or the error `r` is. */
  function Prepend(ys: seq<Expr>, r: Result<seq<Expr>>): Result<seq<Expr>> {
    match r
    case Ok(zs) => Ok(ys + zs)
    case Err(e) => Err(e)
  }

  lemma PrependTwice(ys: seq<Expr>, y: Expr, r: Result<seq<Expr>>)
    ensures Prepend(ys, Prepend([y], r)) == Prepend(ys + [y], r)
  {
    if r.Ok? {
      assert ys + ([y] + r.value) == ys + [y] + r.value;
    }
  }

  lemma PrependToNothing(xs: seq<Expr>, r: Result<seq<Expr>>)
    ensures Prepend([], r) == r && xs[0..] == xs
  {
    if r.Ok? {
      assert [] + r.value == r.value;
    }
  }

  lemma PrependNothing(ys: seq<Expr>)
    ensures Prepend(ys, Ok([])) == Ok(ys)
  {
    assert ys + [] == ys;
  }

  // ---------------------------------------------------------------------------
  // Definition

  /** `parse_defmacro`: the outcome and the new macro table are those of
      `Macros.ParseDefmacro`; symbols and functions are untouched. */
  method ParseDefmacro(list: seq<Expr>, env: Environment) returns (r: Result<Expr>)
    modifies env
    ensures r == Macros.ParseDefmacro(list, old(env.macros)).result
    ensures env.Model() == old(env.Model()).(macros := Macros.ParseDefmacro(list, old(env.macros)).macros)
  {
    if |list| < 4 {
      return Fail(Macros.DefmacroArity);
    }
    if !list[1].Symbol? {
      return Fail(Macros.DefmacroName);
    }
    if !list[2].List? {
      return Fail(Macros.DefmacroParams);
    }
    env.SetMacro(list[1].name, Macro(list[2].elems, list[3]));
    r := Ok(Nil);
  }

  // ---------------------------------------------------------------------------
  // Substitution

  /** The loop in `expand` that pairs parameters with arguments. */
  method FillSubstitutions(params: seq<Expr>, args: seq<Expr>) returns (subs: map<string, Expr>)
    requires |params| == |args|
    ensures subs == Macros.Substitutions(params, args)
  {
    subs := map[];
    var i := 0;
    assert params[..0] == [];
    while i < |params|
      invariant 0 <= i <= |params|
      invariant subs == Macros.Substitutions(params[..i], args[..i])
    {
      assert params[..i + 1][..i] == params[..i] && args[..i + 1][..i] == args[..i];
      if params[i].Symbol? {
        subs := subs[params[i].name := args[i]];
      }
      i := i + 1;
    }
    assert params[..i] == params && args[..i] == args;
  }

  lemma SubstituteAllStep(xs: seq<Expr>, i: nat, subs: map<string, Expr>)
    requires i < |xs|
    ensures Macros.SubstituteAll(xs[i..], subs)
            == match Macros.Substitute(xs[i], subs)
               case Err(e) => Err(e)
               case Ok(y) => Prepend([y], Macros.SubstituteAll(xs[i + 1..], subs))
  {
    assert xs[i..][0] == xs[i] && xs[i..][1..] == xs[i + 1..];
  }

  /** `substitute`. */
  method Substitute(template: Expr, subs: map<string, Expr>) returns (r: Result<Expr>)
    ensures r == Macros.Substitute(template, subs)
    decreases Size(template)
  {
    match template
    case Symbol(name) =>
      r := Ok(if name in subs then subs[name] else template);
    case List(xs) =>
      if |xs| > 0 && xs[0] == Macros.Quasiquote {
        if |xs| != 2 {
          return Fail(Macros.QuasiquoteArity);
        }
        SizeOfAllBounds(xs, 1);
        r := ExpandQuasiquote(xs[1], subs);
        return;
      }
      var ys: seq<Expr> := [];
      var i := 0;
      PrependToNothing(xs, Macros.SubstituteAll(xs, subs));
      while i < |xs|
        invariant 0 <= i <= |xs|
        invariant Macros.SubstituteAll(xs, subs) == Prepend(ys, Macros.SubstituteAll(xs[i..], subs))
      {
        SizeOfAllBounds(xs, i);
        var y := Substitute(xs[i], subs);
        SubstituteAllStep(xs, i, subs);
        if y.Err? {
          return Err(y.error);
        }
        PrependTwice(ys, y.value, Macros.SubstituteAll(xs[i + 1..], subs));
        ys := ys + [y.value];
        i := i + 1;
      }
      assert xs[i..] == [];
      PrependNothing(ys);
      r := Ok(List(ys));
    case _ =>
      r := Ok(template);
  }

  lemma QuasiAllStep(xs: seq<Expr>, i: nat, subs: map<string, Expr>)
    requires i < |xs|
    ensures var item := xs[i];
            Macros.QuasiAll(xs[i..], subs)
            == if Macros.IsUnquoteForm(item) && |item.elems| != 2 then Fail(Macros.UnquoteArity)
               else if Macros.IsUnquoteForm(item) && item.elems[1].Symbol? && item.elems[1].name in subs
               then Prepend([subs[item.elems[1].name]], Macros.QuasiAll(xs[i + 1..], subs))
               else
                 match Macros.ExpandQuasiquote(item, subs)
                 case Err(e) => Err(e)
                 case Ok(y) => Prepend([y], Macros.QuasiAll(xs[i + 1..], subs))
  {
    assert xs[i..][0] == xs[i] && xs[i..][1..] == xs[i + 1..];
  }

  /** `expand_quasiquote`. */
  method ExpandQuasiquote(e: Expr, subs: map<string, Expr>) returns (r: Result<Expr>)
    ensures r == Macros.ExpandQuasiquote(e, subs)
    decreases Size(e)
  {
    match e
    case List(xs) =>
      var ys: seq<Expr> := [];
      var i := 0;
      PrependToNothing(xs, Macros.QuasiAll(xs, subs));
      while i < |xs|
        invariant 0 <= i <= |xs|
        invariant Macros.QuasiAll(xs, subs) == Prepend(ys, Macros.QuasiAll(xs[i..], subs))
      {
        var item := xs[i];
        QuasiAllStep(xs, i, subs);
        if item.List? && |item.elems| > 0 && item.elems[0] == Macros.Unquote {
          if |item.elems| != 2 {
            return Fail(Macros.UnquoteArity);
          }
          var toUnquote := item.elems[1];
          if toUnquote.Symbol? && toUnquote.name in subs {
            PrependTwice(ys, subs[toUnquote.name], Macros.QuasiAll(xs[i + 1..], subs));
            ys := ys + [subs[toUnquote.name]];
            i := i + 1;
            continue;
          }
        }
        SizeOfAllBounds(xs, i);
        var y := ExpandQuasiquote(item, subs);
        if y.Err? {
          return Err(y.error);
        }
        PrependTwice(ys, y.value, Macros.QuasiAll(xs[i + 1..], subs));
        ys := ys + [y.value];
        i := i + 1;
      }
      assert xs[i..] == [];
      PrependNothing(ys);
      r := Ok(List(ys));
    case Symbol(name) =>
      r := Ok(if name in subs then subs[name] else e);
    case _ =>
      r := Ok(e);
  }

  // ---------------------------------------------------------------------------
  // Expansion

  lemma ExpandAllStep(fuel: nat, xs: seq<Expr>, i: nat, macros: map<string, Expr>)
    requires i < |xs|
    ensures Macros.ExpandAll(fuel, xs[i..], macros)
            == match Macros.ExpandMacro(fuel, xs[i], macros)
               case Err(e) => Err(e)
               case Ok(y) => Prepend([y], Macros.ExpandAll(fuel, xs[i + 1..], macros))
  {
    assert xs[i..][0] == xs[i] && xs[i..][1..] == xs[i + 1..];
  }

  /** `expand_macro`, reading the macro table of `env`, which it does not
      change. */
  method ExpandMacro(fuel: nat, ast: Expr, env: Environment) returns (r: Result<Expr>)
    ensures r == Macros.ExpandMacro(fuel, ast, env.macros)
    decreases fuel, Size(ast), 1
  {
    match ast
    case List(xs) =>
      if |xs| > 0 && xs[0].Symbol? {
        var mac := env.GetMacro(xs[0].name);
        if mac.Some? {
          r := Expand(fuel, mac.value, xs[1..], env);
          return;
        }
      }
      var ys: seq<Expr> := [];
      var i := 0;
      PrependToNothing(xs, Macros.ExpandAll(fuel, xs, env.macros));
      while i < |xs|
        invariant 0 <= i <= |xs|
        invariant Macros.ExpandAll(fuel, xs, env.macros) == Prepend(ys, Macros.ExpandAll(fuel, xs[i..], env.macros))
      {
        SizeOfAllBounds(xs, i);
        var y := ExpandMacro(fuel, xs[i], env);
        ExpandAllStep(fuel, xs, i, env.macros);
        if y.Err? {
          return Err(y.error);
        }
        PrependTwice(ys, y.value, Macros.ExpandAll(fuel, xs[i + 1..], env.macros));
        ys := ys + [y.value];
        i := i + 1;
      }
      assert xs[i..] == [];
      PrependNothing(ys);
      r := Ok(List(ys));
    case _ =>
      r := Ok(ast);
  }

  /** `expand`: check the arity, fill the table, substitute, and expand the
      result again with one unit of fuel less. */
  method Expand(fuel: nat, mac: Expr, args: seq<Expr>, env: Environment) returns (r: Result<Expr>)
    ensures r == Macros.Expand(fuel, mac, args, env.macros)
    decreases fuel, 0, 0
  {
    if !mac.Macro? {
      return Fail(Macros.NotAMacro);
    }
    if |mac.params| != |args| {
      return Fail(Macros.ArgumentCount);
    }
    var subs := FillSubstitutions(mac.params, args);
    var result := Substitute(mac.body, subs);
    if result.Err? {
      return Err(result.error);
    }
    if fuel == 0 {
      return Err(OutOfFuel);
    }
    r := ExpandMacro(fuel - 1, result.value, env);
  }
}
