/** Whole programs run through `resultAndEnv` in a store holding only the
    builtins environment, and the two environments evaluator.js builds
    without a parent. */
module EvaluatorExamples {
  import opened Errors
  import opened Syntax
  import opened Values
  import opened Builtins
  import opened Env
  import opened Evaluator

  /** The store before any program runs: the builtins environment, id 0. */
  function Initial(): Store {
    [Frame(BuiltinsTable, None)]
  }

  function NumberValues(ts: seq<Tree>): (vs: seq<Value>)
    requires forall i :: 0 <= i < |ts| ==> ts[i].Num?
    ensures |vs| == |ts| && forall i :: 0 <= i < |ts| ==> vs[i] == Number(ts[i].value)
  {
    seq(|ts|, i requires 0 <= i < |ts| => Number(ts[i].value))
  }

  /** Number arguments evaluate to themselves, in order, and leave the store
      alone. */
  lemma {:induction false} NumberArgs(fuel: nat, ts: seq<Tree>, env: nat, s: Store)
    requires Valid(s) && env < |s| && fuel > 0
    requires forall i :: 0 <= i < |ts| ==> ts[i].Num?
    ensures EvalArgs(fuel, ts, env, s) == EvaluatedArgs(Ok(NumberValues(ts)), s)
    decreases |ts|
  {
    if ts != [] {
      NumberArgs(fuel, ts[1..], env, s);
      assert [Number(ts[0].value)] + NumberValues(ts[1..]) == NumberValues(ts);
    }
  }

  /** `(+ 1 2)` gives 3. */
  lemma AddExample(t: Tree)
    requires t == List([Sym("+"), Num(1.0), Num(2.0)])
    ensures TopLevel(3, t, None, 0, Initial()).res == Ok(Number(3.0))
  {
    var s1 := Initial() + [TopFrame(0)];
    assert Resolve(s1, 1, "+") == Builtin(Add);
    NumberArgs(2, t.elems[1..], 1, s1);
    assert NumberValues(t.elems[1..]) == [Number(1.0), Number(2.0)];
    assert ApplyBuiltin(Add, [Number(1.0), Number(2.0)]) == Ok(Number(3.0)) by {
      var args := [Number(1.0), Number(2.0)];
      assert Numbers(args[1..]) == [2.0];
    }
  }

  /** The body of the square function, `(* x x)`. */
  function SquareBody(): Tree {
    List([Sym("*"), Sym("x"), Sym("x")])
  }

  /** The store while `((fun (x) (* x x)) 3)` runs its body: builtins, the
      top environment, the function's own frame and the call frame. */
  function SquareCallStore(): Store {
    Initial() + [TopFrame(0), Frame(map[], Some(1)), Frame(map["x" := Number(3.0)], Some(1))]
  }

  lemma SquareCallFrames()
    ensures Valid(SquareCallStore())
    ensures Resolve(SquareCallStore(), 3, "*") == Builtin(Mul)
    ensures Resolve(SquareCallStore(), 3, "x") == Number(3.0)
  {
  }

  lemma SquareBodyExample()
    ensures Valid(SquareCallStore())
    ensures Eval(2, SquareBody(), 3, SquareCallStore()) == Evaluated(Ok(Number(9.0)), SquareCallStore())
  {
    var s3 := SquareCallStore();
    SquareCallFrames();
    var args := SquareBody().elems[1..];
    assert args == [Sym("x"), Sym("x")] && args[1..] == [Sym("x")] && args[1..][1..] == [];
    assert EvalArgs(1, [Sym("x")], 3, s3) == EvaluatedArgs(Ok([Number(3.0)]), s3) by {
      assert [Number(3.0)] + [] == [Number(3.0)];
    }
    assert EvalArgs(1, args, 3, s3) == EvaluatedArgs(Ok([Number(3.0), Number(3.0)]), s3) by {
      assert [Number(3.0)] + [Number(3.0)] == [Number(3.0), Number(3.0)];
    }
    assert ApplyBuiltin(Mul, [Number(3.0), Number(3.0)]) == Ok(Number(9.0)) by {
      var a := [Number(3.0), Number(3.0)];
      assert Numbers(a[1..]) == [3.0];
    }
  }

  /** `((fun (x) (* x x)) 3)` gives 9: the function's body sees its
      parameter and, through the environment it was created in, the builtins. */
  lemma SquareExample(t: Tree)
    requires t == List([List([Sym("fun"), List([Sym("x")]), SquareBody()]), Num(3.0)])
    ensures TopLevel(3, t, None, 0, Initial()).res == Ok(Number(9.0))
  {
    var s1 := Initial() + [TopFrame(0)];
    var fn := Closure(Some(List([Sym("x")])), Some(SquareBody()), 1, 2);
    var s2 := s1 + [Frame(map[], Some(1))];
    assert Eval(2, t.elems[0], 1, s1) == Evaluated(Ok(fn), s2);
    NumberArgs(2, t.elems[1..], 1, s2);
    assert NumberValues(t.elems[1..]) == [Number(3.0)];
    var keys := [Some("x")];
    assert ParamKeys(fn.params) == Ok(keys) by {
      var k := ParamKeys(fn.params).value;
      assert |k| == 1 && k[0] == Some("x");
      assert k == keys;
    }
    assert keys[..0] == [];
    assert s2 + [CallFrame(fn, keys, [Number(3.0)])] == SquareCallStore();
    SquareBodyExample();
  }

  /** The store after `(def x 2)` ran at top level. */
  function DefinedStore(): Store {
    Initial() + [Frame(map["x" := Number(2.0)], Some(0))]
  }

  /** `(def x 2)` at top level returns 2 and binds `x` in the top environment. */
  lemma DefineExample(d: Tree)
    requires d == List([Sym("def"), Sym("x"), Num(2.0)])
    ensures Valid(Initial() + [TopFrame(0)])
    ensures Eval(2, d, 1, Initial() + [TopFrame(0)]) == Evaluated(Ok(Number(2.0)), DefinedStore())
  {
    var s1 := Initial() + [TopFrame(0)];
    assert Define(s1, 1, "x", Number(2.0)) == DefinedStore();
  }

  /** The two arguments of `(+ (def x 2) x)`, evaluated left to right. */
  lemma DefineThenUseArgs(args: seq<Tree>)
    requires args == [List([Sym("def"), Sym("x"), Num(2.0)]), Sym("x")]
    ensures Valid(Initial() + [TopFrame(0)])
    ensures EvalArgs(2, args, 1, Initial() + [TopFrame(0)]) == EvaluatedArgs(Ok([Number(2.0), Number(2.0)]), DefinedStore())
  {
    var s1 := Initial() + [TopFrame(0)];
    var s2 := DefinedStore();
    DefineExample(args[0]);
    assert Valid(s2) && Resolve(s2, 1, "x") == Number(2.0);
    assert args[1..] == [Sym("x")] && args[1..][1..] == [];
    assert EvalArgs(2, [Sym("x")], 1, s2) == EvaluatedArgs(Ok([Number(2.0)]), s2) by {
      assert [Number(2.0)] + [] == [Number(2.0)];
    }
    assert [Number(2.0)] + [Number(2.0)] == [Number(2.0), Number(2.0)];
  }

  /** `(+ (def x 2) x)` gives 4: arguments are evaluated left to right, each
      in the store the previous one left, so the second sees the first's
      binding. */
  lemma ArgumentsLeftToRightExample(t: Tree)
    requires t == List([Sym("+"), List([Sym("def"), Sym("x"), Num(2.0)]), Sym("x")])
    ensures TopLevel(3, t, None, 0, Initial()).res == Ok(Number(4.0))
  {
    var s1 := Initial() + [TopFrame(0)];
    assert Resolve(s1, 1, "+") == Builtin(Add);
    DefineThenUseArgs(t.elems[1..]);
    assert ApplyBuiltin(Add, [Number(2.0), Number(2.0)]) == Ok(Number(4.0)) by {
      var a := [Number(2.0), Number(2.0)];
      assert Numbers(a[1..]) == [2.0];
    }
  }

  // ---------------------------------------------------------------------------
  // The two parentless environments of evaluator.js

  /** As written, `resultAndEnv` without an environment cannot see the
      builtins: `(+ 1 2)` is a NameError for `+`, where the intended child of
      the builtins environment gives 3 (`AddExample`). */
  lemma AsWrittenTopLevelLosesBuiltins(t: Tree)
    requires t == List([Sym("+"), Num(1.0), Num(2.0)])
    ensures Valid(Initial() + [TopFrameAsWritten()])
    ensures Eval(3, t, 1, Initial() + [TopFrameAsWritten()]).res == Err(NameError("+"))
    ensures TopLevel(3, t, None, 0, Initial()).res == Ok(Number(3.0))
  {
    AddExample(t);
  }

  /** As written, a function body runs in a parentless frame and cannot see
      the builtins: the body of `((fun (x) (* x x)) 3)` is a NameError for
      `*`, where the intended frame gives 9 (`SquareExample`). */
  lemma AsWrittenCallLosesBuiltins()
    ensures var s := Initial() + [TopFrame(0), Frame(map[], Some(1)), CallFrameAsWritten([Some("x")], [Number(3.0)])];
      Valid(s) && Eval(2, SquareBody(), 3, s).res == Err(NameError("*"))
    ensures Eval(2, SquareBody(), 3, SquareCallStore()).res == Ok(Number(9.0))
  {
    var s := Initial() + [TopFrame(0), Frame(map[], Some(1)), CallFrameAsWritten([Some("x")], [Number(3.0)])];
    assert Valid(s);
    assert Resolve(s, 3, "*") == Undefined;
    SquareBodyExample();
  }
}
