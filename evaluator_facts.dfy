/** What evaluation does, form by form (evaluator.js `evaluate`), stated over
    the specification `Eval`. */
module EvaluatorFacts {
  import opened Errors
  import opened Syntax
  import opened Values
  import opened Builtins
  import opened Env
  import opened Evaluator

  /** Lookups from frames that existed before a change confined to one frame
      `env` (and to new frames) see nothing new, unless they pass `env`. */
  lemma {:induction false} ExtendsKeepsOlderLookups(s: Store, s': Store, env: nat, j: nat, name: string)
    requires ParentsBefore(s) && ParentsBefore(s') && Extends(s, s', env)
    requires j < |s| && j < env
    ensures Resolve(s', j, name) == Resolve(s, j, name)
  {
    ResolveReadsBelow(s, s', j, name);
  }

  /** A number evaluates to itself and touches no environment. */
  lemma NumberIsItself(fuel: nat, x: real, env: nat, s: Store)
    requires Valid(s) && env < |s| && fuel > 0
    ensures Eval(fuel, Num(x), env, s) == Evaluated(Ok(Number(x)), s)
  {
  }

  /** A symbol evaluates to the binding of the first frame along the scope
      chain that has it, when that binding is truthy. */
  lemma SymbolIsFirstBinding(fuel: nat, name: string, env: nat, s: Store, k: nat)
    requires Valid(s) && env < |s| && fuel > 0
    requires FirstBinder(s, Chain(s, env), k, name) && Truthy(s[Chain(s, env)[k]].table[name])
    ensures Eval(fuel, Sym(name), env, s) == Evaluated(Ok(s[Chain(s, env)[k]].table[name]), s)
  {
    ResolveIsFirstBinding(s, env, name);
  }

  /** A symbol no frame of the chain binds is a NameError. */
  lemma UnboundSymbolFails(fuel: nat, name: string, env: nat, s: Store)
    requires Valid(s) && env < |s| && fuel > 0
    requires forall k :: 0 <= k < |Chain(s, env)| ==> name !in s[Chain(s, env)[k]].table
    ensures Eval(fuel, Sym(name), env, s) == Evaluated(Err(NameError(name)), s)
  {
    ResolveIsFirstBinding(s, env, name);
  }

  /** A symbol whose first binding along the chain is falsy (`0` or
      `undefined`) is a NameError too, even though it is bound, whether that
      binding is in the environment itself or in an ancestor. */
  lemma FalsyBindingFails(fuel: nat, name: string, env: nat, s: Store, k: nat)
    requires Valid(s) && env < |s| && fuel > 0
    requires FirstBinder(s, Chain(s, env), k, name) && !Truthy(s[Chain(s, env)[k]].table[name])
    ensures Eval(fuel, Sym(name), env, s) == Evaluated(Err(NameError(name)), s)
  {
    ResolveIsFirstBinding(s, env, name);
  }

  /** `(fun params body)` gives a function holding the parameters, the
      unevaluated body and the current environment, and changes no lookup
      from any existing environment. */
  lemma FunMakesClosure(fuel: nat, params: Tree, body: Tree, env: nat, s: Store, j: nat, name: string)
    requires Valid(s) && env < |s| && fuel > 0 && j < |s|
    ensures var r := Eval(fuel, List([Sym(FUN), params, body]), env, s);
      && r.res == Ok(Closure(Some(params), Some(body), env, |s|))
      && Resolve(r.store, j, name) == Resolve(s, j, name)
  {
    var r := Eval(fuel, List([Sym(FUN), params, body]), env, s);
    ResolveReadsBelow(s, r.store, j, name);
  }

  /** `(def x e)` evaluates `e` in `env`, binds `x` in `env`'s own table to the
      value and returns it; every other name resolves as it did after `e`.
      When `e` fails nothing is bound. */
  lemma DefVariable(fuel: nat, name: string, e: Tree, env: nat, s: Store, other: string)
    requires Valid(s) && env < |s| && fuel > 0
    ensures var x := Eval(fuel - 1, e, env, s);
      var r := Eval(fuel, List([Sym(DEF), Sym(name), e]), env, s);
      && (x.res.Err? ==> r == x)
      && (x.res.Ok? ==>
            && r.res == x.res
            && Resolve(r.store, env, name) == x.res.value
            && (other != name ==> Resolve(r.store, env, other) == Resolve(x.store, env, other)))
  {
    var x := Eval(fuel - 1, e, env, s);
    if x.res.Ok? {
      DefineThenResolve(x.store, env, name, x.res.value, name);
      DefineThenResolve(x.store, env, name, x.res.value, other);
    }
  }

  /** `(def (f p1 ... pn) body)` binds `f` in `env` to a function with
      parameters `(p1 ... pn)`, that body and `env`, and returns it, whatever
      the body is: the body is not evaluated. */
  lemma DefFunction(fuel: nat, f: string, ps: seq<Tree>, body: Tree, env: nat, s: Store)
    requires Valid(s) && env < |s| && fuel > 0
    ensures var fn := Closure(Some(List(ps)), Some(body), env, |s|);
      var r := Eval(fuel, List([Sym(DEF), List([Sym(f)] + ps), body]), env, s);
      && r.res == Ok(fn)
      && Resolve(r.store, env, f) == fn
  {
    var sig := [Sym(f)] + ps;
    assert sig[1..] == ps;
    var fn := Closure(Some(List(ps)), Some(body), env, |s|);
    DefineThenResolve(s + [Frame(map[], Some(env))], env, f, fn, f);
  }

  /** Inside a call, a name resolves to its parameter binding, and otherwise
      in the environment the function was created in, never in the caller's. */
  lemma CallFrameScoping(s: Store, fn: Value, keys: seq<Option<string>>, args: seq<Value>, name: string)
    requires Valid(s) && fn.Closure? && ValueIn(fn, |s|)
    ensures ParentsBefore(s + [CallFrame(fn, keys, args)])
    ensures Resolve(s + [CallFrame(fn, keys, args)], |s|, name) ==
      if name in Bind(map[], keys, args) then Bind(map[], keys, args)[name] else Resolve(s, fn.env, name)
  {
    var t := s + [CallFrame(fn, keys, args)];
    if name !in Bind(map[], keys, args) {
      ResolveReadsBelow(s, t, fn.env, name);
    }
  }

  /** With the call frame as written (no parent), a name that is no
      parameter is `undefined` inside the body, however it is bound where the
      function was created; the intended frame finds it there. */
  lemma AsWrittenCallHidesCapturedNames(s: Store, fn: Value, keys: seq<Option<string>>, args: seq<Value>, name: string)
    requires Valid(s) && fn.Closure? && ValueIn(fn, |s|)
    requires name !in Bind(map[], keys, args)
    ensures ParentsBefore(s + [CallFrameAsWritten(keys, args)])
    ensures Resolve(s + [CallFrameAsWritten(keys, args)], |s|, name) == Undefined
    ensures Resolve(s + [CallFrame(fn, keys, args)], |s|, name) == Resolve(s, fn.env, name)
  {
    CallFrameScoping(s, fn, keys, args, name);
  }

  /** The call itself binds nothing in any environment that existed before
      it, the caller's included. */
  lemma CallLeavesOldEnvironments(fuel: nat, fn: Value, args: seq<Value>, s: Store, j: nat, name: string)
    requires Valid(s) && fn.Closure? && ValueIn(fn, |s|)
    requires forall i :: 0 <= i < |args| ==> ValueIn(args[i], |s|)
    requires j < |s|
    ensures Resolve(CallClosure(fuel, fn, args, s).store, j, name) == Resolve(s, j, name)
  {
    ResolveReadsBelow(s, CallClosure(fuel, fn, args, s).store, j, name);
  }

  /** Applying something that is neither a builtin nor a function gives
      `undefined`, after evaluating the arguments. */
  lemma NonFunctionHeadIsUndefined(fuel: nat, elems: seq<Tree>, env: nat, s: Store)
    requires Valid(s) && env < |s| && |elems| > 0
    requires var h := Eval(fuel, elems[0], env, s);
      h.res.Ok? && (h.res.value.Number? || h.res.value.Undefined?)
    requires EvalArgs(fuel, elems[1..], env, Eval(fuel, elems[0], env, s).store).res.Ok?
    ensures EvalCall(fuel, elems, env, s).res == Ok(Undefined)
  {
  }

  /** `resultAndEnv` without an environment evaluates in a new child of the
      builtins environment, so the builtins are visible unless shadowed. */
  lemma TopLevelSeesBuiltins(s: Store, builtins: nat, name: string)
    requires Valid(s) && builtins < |s| && s[builtins] == Frame(BuiltinsTable, None)
    ensures ParentsBefore(s + [TopFrame(builtins)])
    ensures Resolve(s + [TopFrame(builtins)], |s|, name) == if name in BuiltinsTable then BuiltinsTable[name] else Undefined
  {
    ResolveReadsBelow(s, s + [TopFrame(builtins)], builtins, name);
  }
}
