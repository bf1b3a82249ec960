/** src/environment.rs: the interpreter's state.  Two independent
    string-keyed tables, one for symbols and one for user functions, plus the
    macro table that the macro expander reads and writes (the original calls
    `get_macro`/`set_macro` but never declares them).

    `Env` is the state as a value; `Environment` is the mutable object the
    original passes around as `&mut Environment`. */
module Environments {
  import opened Errors
  import opened Expressions

  datatype Env = Env(symbols: map<string, Expr>, functions: map<string, Expr>, macros: map<string, Expr>) {

    function GetSymbol(k: string): Option<Expr> {
      if k in symbols then Some(symbols[k]) else None
    }

    function GetFunction(k: string): Option<Expr> {
      if k in functions then Some(functions[k]) else None
    }

    function GetMacro(k: string): Option<Expr> {
      if k in macros then Some(macros[k]) else None
    }

    /** `insert` into the symbol table: the key reads back as the new value,
        every other key and both other tables are as they were. */
    function SetSymbol(k: string, v: Expr): (r: Env)
      ensures r.GetSymbol(k) == Some(v)
      ensures forall k' :: k' != k ==> r.GetSymbol(k') == GetSymbol(k')
      ensures r.functions == functions && r.macros == macros
    {
      this.(symbols := symbols[k := v])
    }

    function SetFunction(k: string, f: Expr): (r: Env)
      ensures r.GetFunction(k) == Some(f)
      ensures forall k' :: k' != k ==> r.GetFunction(k') == GetFunction(k')
      ensures r.symbols == symbols && r.macros == macros
    {
      this.(functions := functions[k := f])
    }

    function SetMacro(k: string, m: Expr): (r: Env)
      ensures r.GetMacro(k) == Some(m)
      ensures forall k' :: k' != k ==> r.GetMacro(k') == GetMacro(k')
      ensures r.symbols == symbols && r.functions == functions
    {
      this.(macros := macros[k := m])
    }
  }

  const T: Expr := Symbol("T")

  /** The state `Environment::initialize` builds. */
  function Initial(): Env {
    Env(map[], map[], map[]).SetSymbol("T", T).SetSymbol("t", T).SetSymbol("NIL", Nil).SetSymbol("nil", Nil)
  }

  /** `T` and `t` are bound to the symbol `T`, `NIL` and `nil` to the empty
      list, and nothing else is bound; no function or macro is defined. */
  lemma InitialBindings()
    ensures Initial().GetSymbol("T") == Some(Symbol("T")) && Initial().GetSymbol("t") == Some(Symbol("T"))
    ensures Initial().GetSymbol("NIL") == Some(Nil) && Initial().GetSymbol("nil") == Some(Nil)
    ensures Initial().symbols.Keys == {"T", "t", "NIL", "nil"}
    ensures Initial().functions == map[] && Initial().macros == map[]
  {
  }

  class Environment {
    var symbols: map<string, Expr>
    var functions: map<string, Expr>
    var macros: map<string, Expr>

    function Model(): Env
      reads this
    {
      Env(symbols, functions, macros)
    }

    /** `Environment::initialize`: empty tables, then four symbol inserts. */
    constructor Initialize()
      ensures Model() == Initial()
    {
      symbols := map[];
      functions := map[];
      macros := map[];
      new;
      SetSymbol("T", Symbol("T"));
      SetSymbol("t", Symbol("T"));
      SetSymbol("NIL", List([]));
      SetSymbol("nil", List([]));
    }

    constructor FromTables(symbols: map<string, Expr>, functions: map<string, Expr>, macros: map<string, Expr>)
      ensures Model() == Env(symbols, functions, macros)
    {
      this.symbols, this.functions, this.macros := symbols, functions, macros;
    }

    function GetSymbol(k: string): (r: Option<Expr>)
      reads this
      ensures r == Model().GetSymbol(k)
    {
      if k in symbols then Some(symbols[k]) else None
    }

    function GetFunction(k: string): (r: Option<Expr>)
      reads this
      ensures r == Model().GetFunction(k)
    {
      if k in functions then Some(functions[k]) else None
    }

    function GetMacro(k: string): (r: Option<Expr>)
      reads this
      ensures r == Model().GetMacro(k)
    {
      if k in macros then Some(macros[k]) else None
    }

    method SetSymbol(k: string, v: Expr)
      modifies this
      ensures Model() == old(Model()).SetSymbol(k, v)
    {
      symbols := symbols[k := v];
    }

    method SetFunction(k: string, f: Expr)
      modifies this
      ensures Model() == old(Model()).SetFunction(k, f)
    {
      functions := functions[k := f];
    }

    method SetMacro(k: string, m: Expr)
      modifies this
      ensures Model() == old(Model()).SetMacro(k, m)
    {
      macros := macros[k := m];
    }

    /** `#[derive(Clone)]`: a new object holding the same tables.  Updating
        the copy cannot change this object, since the copy is fresh. */
    method Clone() returns (c: Environment)
      ensures fresh(c) && c.Model() == Model()
    {
      c := new Environment.FromTables(symbols, functions, macros);
    }
  }

  /** A clone is independent: after the clone is updated the original still
      holds its old tables. */
  method CloneIsIndependent(env: Environment, k: string, v: Expr)
    ensures env.Model() == old(env.Model())
  {
    var local := env.Clone();
    local.SetSymbol(k, v);
    local.SetFunction(k, v);
    local.SetMacro(k, v);
    assert local.GetSymbol(k) == Some(v);
  }
}
