/** The tree-walking evaluator (evaluator.js `evaluate` and `resultAndEnv`).

    `Eval` and its helpers are the specification: evaluation of a tree in an
    environment, threading the store of frames through. Every nested call of
    `evaluate` costs one unit of `fuel`; running out of fuel stands for the
    JavaScript stack overflowing. The methods below (`Evaluate` and its
    helpers) do the same work step by step on an `EnvStore`, as the
    JavaScript code does, and are proved to agree with the specification. */
module Evaluator {
  import opened Errors
  import opened Syntax
  import opened Values
  import opened Builtins
  import opened Env

  datatype Evaluated = Evaluated(res: Result<Value>, store: Store)

  datatype EvaluatedArgs = EvaluatedArgs(res: Result<seq<Value>>, store: Store)

  /** What `resultAndEnv` hands back: the result and the environment used. */
  datatype Session = Session(res: Result<Value>, env: nat, store: Store)

  const FUN := "fun"
  const DEF := "def"

  /** `tree[i]`: missing past the end. */
  function Elem(elems: seq<Tree>, i: nat): Option<Tree> {
    if i < |elems| then Some(elems[i]) else None
  }

  /** How evaluating in `env` may change the store: frames are only added,
      and the only existing frame that changes is `env`, whose table only
      gains or rebinds names. */
  predicate Extends(s: Store, s': Store, env: nat) {
    && |s| <= |s'|
    && (forall i :: 0 <= i < |s| && i != env ==> s'[i] == s[i])
    && (env < |s| ==> s'[env].parent == s[env].parent && s[env].table.Keys <= s'[env].table.Keys)
  }

  lemma ExtendsTrans(s1: Store, s2: Store, s3: Store, env: nat)
    requires Extends(s1, s2, env) && Extends(s2, s3, env)
    ensures Extends(s1, s3, env)
  {
  }

  /** Changes confined to new frames are allowed for any environment. */
  lemma ExtendsFresh(s1: Store, s2: Store, newId: nat, env: nat)
    requires Extends(s1, s2, newId) && newId >= |s1|
    ensures Extends(s1, s2, env)
  {
  }

  /** The frame a call runs in: the parameters bound to the arguments, under
      the environment the function was created in. */
  function CallFrame(fn: Value, keys: seq<Option<string>>, args: seq<Value>): Frame
    requires fn.Closure?
  {
    Frame(Bind(map[], keys, args), Some(fn.env))
  }

  /** The call frame as evaluator.js:66 builds it: `fn.encloseEnv` is not a
      field of a `UserDefinedFunction` (its constructor stores `localEnv`), so
      the new environment gets no parent at all. */
  function CallFrameAsWritten(keys: seq<Option<string>>, args: seq<Value>): Frame {
    Frame(Bind(map[], keys, args), None)
  }

  /** The environment `resultAndEnv` creates when none is given: a child of
      the builtins environment. */
  function TopFrame(builtins: nat): Frame {
    Frame(map[], Some(builtins))
  }

  /** That environment as evaluator.js:76 builds it: `carlaeBuiltinsEnv` is
      not defined by carlae.js, so the new environment gets no parent. */
  function TopFrameAsWritten(): Frame {
    Frame(map[], None)
  }

  /** Prefix already evaluated arguments to the outcome of the rest. */
  function Prepend(done: seq<Value>, rest: EvaluatedArgs): EvaluatedArgs {
    if rest.res.Ok? then EvaluatedArgs(Ok(done + rest.res.value), rest.store) else rest
  }

  lemma PrependTwice(done: seq<Value>, v: Value, rest: EvaluatedArgs)
    ensures Prepend(done, Prepend([v], rest)) == Prepend(done + [v], rest)
  {
    if rest.res.Ok? {
      assert done + ([v] + rest.res.value) == done + [v] + rest.res.value;
    }
  }

  /** `evaluate(tree, env)`. */
  function Eval(fuel: nat, t: Tree, env: nat, s: Store): (r: Evaluated)
    requires Valid(s) && env < |s|
    ensures Valid(r.store) && Extends(s, r.store, env)
    ensures r.res.Ok? ==> ValueIn(r.res.value, |r.store|)
    decreases fuel, 1, 0
  {
    if fuel == 0 then Evaluated(Err(StackOverflow), s)
    else
      match t
      case Num(x) => Evaluated(Ok(Number(x)), s)
      case Sym(name) =>
        ResolveIn(s, env, name);
        var v := Resolve(s, env, name);
        Evaluated(if Truthy(v) then Ok(v) else Err(NameError(name)), s)
      case List(elems) =>
        if |elems| > 0 && elems[0] == Sym(FUN) then
          ValidAppend(s, Frame(map[], Some(env)));
          Evaluated(Ok(Closure(Elem(elems, 1), Elem(elems, 2), env, |s|)), s + [Frame(map[], Some(env))])
        else if |elems| > 0 && elems[0] == Sym(DEF) then
          EvalDef(fuel - 1, elems, env, s)
        else if |elems| == 0 then
          Evaluated(Err(Malformed), s)
        else
          EvalCall(fuel - 1, elems, env, s)
  }

  /** The `def` form: `(def name expr)` or `(def (name params...) body)`. */
  function EvalDef(fuel: nat, elems: seq<Tree>, env: nat, s: Store): (r: Evaluated)
    requires Valid(s) && env < |s| && |elems| > 0
    ensures Valid(r.store) && Extends(s, r.store, env)
    ensures r.res.Ok? ==> ValueIn(r.res.value, |r.store|)
    decreases fuel, 2, 0
  {
    match Elem(elems, 1)
    case Some(Sym(name)) =>
      (match Elem(elems, 2)
       case None => Evaluated(Err(Malformed), s)
       case Some(e) =>
         var x := Eval(fuel, e, env, s);
         if x.res.Err? then x
         else
           DefineKeepsValid(x.store, env, name, x.res.value);
           Evaluated(x.res, Define(x.store, env, name, x.res.value)))
    case Some(List(sig)) =>
      var fn := Closure(Some(List(if |sig| > 0 then sig[1..] else [])), Elem(elems, 2), env, |s|);
      var s1 := s + [Frame(map[], Some(env))];
      ValidAppend(s, Frame(map[], Some(env)));
      if |sig| > 0 && sig[0].Sym? then
        DefineKeepsValid(s1, env, sig[0].name, fn);
        Evaluated(Ok(fn), Define(s1, env, sig[0].name, fn))
      else
        Evaluated(Ok(fn), s1)
    case _ => Evaluated(Err(Malformed), s)
  }

  /** Application: the head first, then the arguments left to right, then the
      call. A head that is neither a builtin nor a function gives `undefined`. */
  function EvalCall(fuel: nat, elems: seq<Tree>, env: nat, s: Store): (r: Evaluated)
    requires Valid(s) && env < |s| && |elems| > 0
    ensures Valid(r.store) && Extends(s, r.store, env)
    ensures r.res.Ok? ==> ValueIn(r.res.value, |r.store|)
    decreases fuel, 3, 0
  {
    var h := Eval(fuel, elems[0], env, s);
    if h.res.Err? then h
    else
      var a := EvalArgs(fuel, elems[1..], env, h.store);
      ExtendsTrans(s, h.store, a.store, env);
      if a.res.Err? then Evaluated(Err(a.res.error), a.store)
      else
        match h.res.value
        case Builtin(op) => Evaluated(ApplyBuiltin(op, a.res.value), a.store)
        case Closure(_, _, _, _) =>
          var c := CallClosure(fuel, h.res.value, a.res.value, a.store);
          ExtendsFresh(a.store, c.store, |a.store|, env);
          ExtendsTrans(s, a.store, c.store, env);
          c
        case _ => Evaluated(Ok(Undefined), a.store)
  }

  /** The arguments, evaluated left to right, each in the store the previous
      one left behind. */
  function EvalArgs(fuel: nat, ts: seq<Tree>, env: nat, s: Store): (r: EvaluatedArgs)
    requires Valid(s) && env < |s|
    ensures Valid(r.store) && Extends(s, r.store, env)
    ensures r.res.Ok? ==> |r.res.value| == |ts| && forall i :: 0 <= i < |ts| ==> ValueIn(r.res.value[i], |r.store|)
    decreases fuel, 2, |ts|
  {
    if ts == [] then EvaluatedArgs(Ok([]), s)
    else
      var x := Eval(fuel, ts[0], env, s);
      if x.res.Err? then EvaluatedArgs(Err(x.res.error), x.store)
      else
        var rest := EvalArgs(fuel, ts[1..], env, x.store);
        ExtendsTrans(s, x.store, rest.store, env);
        Prepend([x.res.value], rest)
  }

  /** Calling a user-defined function: a fresh frame under the captured
      environment, the parameters bound in it, the body evaluated there. The
      call changes no frame that existed before it. */
  function CallClosure(fuel: nat, fn: Value, args: seq<Value>, s: Store): (r: Evaluated)
    requires Valid(s) && fn.Closure? && ValueIn(fn, |s|)
    requires forall i :: 0 <= i < |args| ==> ValueIn(args[i], |s|)
    ensures Valid(r.store) && Extends(s, r.store, |s|)
    ensures r.res.Ok? ==> ValueIn(r.res.value, |r.store|)
    decreases fuel, 2, 0
  {
    match ParamKeys(fn.params)
    case Err(e) =>
      ValidAppend(s, Frame(map[], Some(fn.env)));
      Evaluated(Err(e), s + [Frame(map[], Some(fn.env))])
    case Ok(keys) =>
      BindIn(map[], keys, args, |s|);
      ValidAppend(s, CallFrame(fn, keys, args));
      var s1 := s + [CallFrame(fn, keys, args)];
      match fn.body
      case None => Evaluated(Err(Malformed), s1)
      case Some(body) => Eval(fuel, body, |s|, s1)
  }

  /** `resultAndEnv(tree, env)`: evaluate in `env`, or in a new child of the
      builtins environment when no environment is given. */
  function TopLevel(fuel: nat, t: Tree, env: Option<nat>, builtins: nat, s: Store): (r: Session)
    requires Valid(s) && builtins < |s| && (env.Some? ==> env.value < |s|)
    ensures Valid(r.store) && r.env < |r.store|
    ensures env.Some? ==> r.env == env.value && Extends(s, r.store, r.env)
    ensures env.None? ==> r.env == |s| && r.store[r.env].parent == Some(builtins) && Extends(s, r.store, |s|)
  {
    match env
    case Some(e) =>
      var x := Eval(fuel, t, e, s);
      Session(x.res, e, x.store)
    case None =>
      ValidAppend(s, TopFrame(builtins));
      var x := Eval(fuel, t, |s|, s + [TopFrame(builtins)]);
      Session(x.res, |s|, x.store)
  }

  // ---------------------------------------------------------------------------
  // The evaluator as the JavaScript runs it, on a mutable store

  /** `evaluate(tree, env)`. */
  method Evaluate(envs: EnvStore, fuel: nat, t: Tree, env: nat) returns (r: Result<Value>)
    requires Valid(envs.frames) && env < |envs.frames|
    modifies envs
    ensures Evaluated(r, envs.frames) == Eval(fuel, t, env, old(envs.frames))
    decreases fuel, 1, 0
  {
    if fuel == 0 {
      return Err(StackOverflow);
    }
    match t {
      case Num(x) =>
        return Ok(Number(x));
      case Sym(name) =>
        var v := envs.Lookup(env, name);
        if !Truthy(v) {
          return Err(NameError(name));
        }
        return Ok(v);
      case List(elems) =>
        if |elems| > 0 && elems[0] == Sym(FUN) {
          var fn := envs.NewFunction(Elem(elems, 1), Elem(elems, 2), env);
          return Ok(fn);
        }
        if |elems| > 0 && elems[0] == Sym(DEF) {
          r := EvaluateDef(envs, fuel - 1, elems, env);
          return;
        }
        if |elems| == 0 {
          return Err(Malformed);
        }
        r := EvaluateCall(envs, fuel - 1, elems, env);
    }
  }

  method EvaluateDef(envs: EnvStore, fuel: nat, elems: seq<Tree>, env: nat) returns (r: Result<Value>)
    requires Valid(envs.frames) && env < |envs.frames| && |elems| > 0
    modifies envs
    ensures Evaluated(r, envs.frames) == EvalDef(fuel, elems, env, old(envs.frames))
    decreases fuel, 2, 0
  {
    match Elem(elems, 1) {
      case Some(Sym(name)) =>
        if |elems| < 3 {
          return Err(Malformed);
        }
        r := Evaluate(envs, fuel, elems[2], env);
        if r.Err? {
          return;
        }
        envs.DefineName(env, name, r.value);
      case Some(List(sig)) =>
        var params := if |sig| > 0 then sig[1..] else [];
        var fn := envs.NewFunction(Some(List(params)), Elem(elems, 2), env);
        if |sig| > 0 && sig[0].Sym? {
          envs.DefineName(env, sig[0].name, fn);
        }
        return Ok(fn);
      case _ =>
        return Err(Malformed);
    }
  }

  method EvaluateCall(envs: EnvStore, fuel: nat, elems: seq<Tree>, env: nat) returns (r: Result<Value>)
    requires Valid(envs.frames) && env < |envs.frames| && |elems| > 0
    modifies envs
    ensures Evaluated(r, envs.frames) == EvalCall(fuel, elems, env, old(envs.frames))
    decreases fuel, 3, 0
  {
    var fn := Evaluate(envs, fuel, elems[0], env);
    if fn.Err? {
      return fn;
    }
    ghost var afterHead := envs.frames;
    var args: seq<Value> := [];
    var i := 1;
    ghost var all := EvalArgs(fuel, elems[1..], env, afterHead);
    assert all.res.Ok? ==> [] + all.res.value == all.res.value;
    while i < |elems|
      invariant 1 <= i <= |elems|
      invariant Valid(envs.frames) && env < |envs.frames|
      invariant EvalArgs(fuel, elems[1..], env, afterHead) == Prepend(args, EvalArgs(fuel, elems[i..], env, envs.frames))
      decreases |elems| - i
    {
      assert elems[i..][0] == elems[i] && elems[i..][1..] == elems[i + 1..];
      var a := Evaluate(envs, fuel, elems[i], env);
      if a.Err? {
        return Err(a.error);
      }
      PrependTwice(args, a.value, EvalArgs(fuel, elems[i + 1..], env, envs.frames));
      args := args + [a.value];
      i := i + 1;
    }
    assert elems[i..] == [] && args + [] == args;
    match fn.value {
      case Builtin(op) =>
        r := ApplyBuiltin(op, args);
      case Closure(_, _, _, _) =>
        r := CallFunction(envs, fuel, fn.value, args);
      case _ =>
        r := Ok(Undefined);
    }
  }

  method CallFunction(envs: EnvStore, fuel: nat, fn: Value, args: seq<Value>) returns (r: Result<Value>)
    requires Valid(envs.frames) && fn.Closure? && ValueIn(fn, |envs.frames|)
    requires forall i :: 0 <= i < |args| ==> ValueIn(args[i], |envs.frames|)
    modifies envs
    ensures Evaluated(r, envs.frames) == CallClosure(fuel, fn, args, old(envs.frames))
    decreases fuel, 2, 0
  {
    var newEnv := envs.New(Some(fn.env));
    var keys := ParamKeys(fn.params);
    if keys.Err? {
      return Err(keys.error);
    }
    envs.BindAll(newEnv, keys.value, args);
    assert envs.frames == old(envs.frames) + [CallFrame(fn, keys.value, args)];
    if fn.body.None? {
      return Err(Malformed);
    }
    BindIn(map[], keys.value, args, |old(envs.frames)|);
    ValidAppend(old(envs.frames), CallFrame(fn, keys.value, args));
    r := Evaluate(envs, fuel, fn.body.value, newEnv);
  }

  /** `resultAndEnv(tree, env)`. */
  method ResultAndEnv(envs: EnvStore, fuel: nat, t: Tree, env: Option<nat>, builtins: nat) returns (r: Result<Value>, used: nat)
    requires Valid(envs.frames) && builtins < |envs.frames| && (env.Some? ==> env.value < |envs.frames|)
    modifies envs
    ensures Session(r, used, envs.frames) == TopLevel(fuel, t, env, builtins, old(envs.frames))
  {
    if env.None? {
      ValidAppend(envs.frames, TopFrame(builtins));
      used := envs.New(Some(builtins));
    } else {
      used := env.value;
    }
    r := Evaluate(envs, fuel, t, used);
  }
}
