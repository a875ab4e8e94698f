/** The builtin arithmetic functions (`carlaeBuiltins` in carlae.js): each one
    is `args.reduce((prev, cur) => prev op cur)`, a left fold seeded with the
    first argument. */
module Builtins {
  import opened Errors
  import opened Values

  /** One step of the fold. A zero divisor is an error here, where JavaScript
      would give an infinity or NaN. */
  function Combine(op: Op, a: real, b: real): Result<real> {
    match op
    case Add => Ok(a + b)
    case Sub => Ok(a - b)
    case Mul => Ok(a * b)
    case Div => if b == 0.0 then Err(DivisionByZero) else Ok(a / b)
  }

  /** Left fold of `xs` onto the accumulator `acc`. */
  function Fold(op: Op, acc: real, xs: seq<real>): (r: Result<real>)
    ensures r.Err? ==> op == Div && r.error == DivisionByZero
    decreases |xs|
  {
    if xs == [] then Ok(acc)
    else
      match Combine(op, acc, xs[0])
      case Err(e) => Err(e)
      case Ok(next) => Fold(op, next, xs[1..])
  }

  predicate AllNumbers(vs: seq<Value>) {
    forall i :: 0 <= i < |vs| ==> vs[i].Number?
  }

  function Numbers(vs: seq<Value>): (xs: seq<real>)
    requires AllNumbers(vs)
    ensures |xs| == |vs| && forall i :: 0 <= i < |vs| ==> xs[i] == vs[i].x
  {
    seq(|vs|, i requires 0 <= i < |vs| => vs[i].x)
  }

  /** Calling a builtin with its argument list. `reduce` without a seed fails
      on an empty list and returns a lone element untouched, whatever it is. */
  function ApplyBuiltin(op: Op, args: seq<Value>): (r: Result<Value>)
    ensures |args| == 0 <==> r == Err(EmptyReduce)
    ensures |args| >= 2 && !AllNumbers(args) ==> r == Err(NotANumber)
    ensures r.Ok? && |args| >= 2 ==> r.value.Number?
  {
    if |args| == 0 then Err(EmptyReduce)
    else if |args| == 1 then Ok(args[0])
    else if !AllNumbers(args) then Err(NotANumber)
    else
      match Fold(op, args[0].x, Numbers(args[1..]))
      case Err(e) => Err(e)
      case Ok(x) => Ok(Number(x))
  }

  /** The builtins table that `fromMap` turns into the global frame. */
  const BuiltinsTable: map<string, Value> :=
    map["+" := Builtin(Add), "-" := Builtin(Sub), "*" := Builtin(Mul), "/" := Builtin(Div)]

  // ---------------------------------------------------------------------------
  // Reference definitions

  function Sum(xs: seq<real>): real {
    if xs == [] then 0.0 else xs[0] + Sum(xs[1..])
  }

  predicate NoZero(xs: seq<real>) {
    forall i :: 0 <= i < |xs| ==> xs[i] != 0.0
  }

  function Product(xs: seq<real>): (p: real)
    ensures NoZero(xs) ==> p != 0.0
  {
    if xs == [] then 1.0
    else
      assert NoZero(xs) ==> NoZero(xs[1..]) by {
        if NoZero(xs) {
          forall i | 0 <= i < |xs| - 1 ensures xs[1..][i] != 0.0 { assert xs[1..][i] == xs[i + 1]; }
        }
      }
      xs[0] * Product(xs[1..])
  }

  lemma {:induction false} FoldAdd(acc: real, xs: seq<real>)
    ensures Fold(Add, acc, xs).Ok? && Fold(Add, acc, xs).value == acc + Sum(xs)
    decreases |xs|
  {
    if xs != [] {
      FoldAdd(acc + xs[0], xs[1..]);
    }
  }

  lemma {:induction false} FoldSub(acc: real, xs: seq<real>)
    ensures Fold(Sub, acc, xs).Ok? && Fold(Sub, acc, xs).value == acc - Sum(xs)
    decreases |xs|
  {
    if xs != [] {
      FoldSub(acc - xs[0], xs[1..]);
    }
  }

  lemma {:induction false} FoldMul(acc: real, xs: seq<real>)
    ensures Fold(Mul, acc, xs).Ok? && Fold(Mul, acc, xs).value == acc * Product(xs)
    decreases |xs|
  {
    if xs != [] {
      FoldMul(acc * xs[0], xs[1..]);
      MulAssoc(acc, xs[0], Product(xs[1..]));
    }
  }

  lemma MulAssoc(a: real, b: real, c: real)
    ensures a * b * c == a * (b * c)
  {
  }

  lemma DivideTwice(a: real, b: real, c: real)
    requires b != 0.0 && c != 0.0
    ensures a / b / c == a / (b * c)
  {
    calc {
      a / b / c;
      == { assert a == (a / (b * c)) * (b * c); }
      (a / (b * c)) * (b * c) / b / c;
    }
  }

  lemma {:induction false} FoldDiv(acc: real, xs: seq<real>)
    requires NoZero(xs)
    ensures Fold(Div, acc, xs).Ok? && Fold(Div, acc, xs).value == acc / Product(xs)
    decreases |xs|
  {
    if xs != [] {
      assert NoZero(xs[1..]) by {
        forall i | 0 <= i < |xs| - 1 ensures xs[1..][i] != 0.0 { assert xs[1..][i] == xs[i + 1]; }
      }
      FoldDiv(acc / xs[0], xs[1..]);
      DivideTwice(acc, xs[0], Product(xs[1..]));
    }
  }

  lemma {:induction false} FoldDivByZero(acc: real, xs: seq<real>)
    requires !NoZero(xs)
    ensures Fold(Div, acc, xs) == Err(DivisionByZero)
    decreases |xs|
  {
    if xs[0] != 0.0 {
      assert !NoZero(xs[1..]) by {
        var i :| 0 <= i < |xs| && xs[i] == 0.0;
        assert xs[1..][i - 1] == 0.0;
      }
      FoldDivByZero(acc / xs[0], xs[1..]);
    }
  }

  // ---------------------------------------------------------------------------
  // What each builtin computes

  /** `+` adds all its numeric arguments. */
  lemma AddIsSum(args: seq<Value>)
    requires |args| > 0 && AllNumbers(args)
    ensures ApplyBuiltin(Add, args).Ok? && ApplyBuiltin(Add, args).value == Number(Sum(Numbers(args)))
  {
    var xs := Numbers(args);
    assert xs[1..] == Numbers(args[1..]);
    FoldAdd(xs[0], xs[1..]);
  }

  /** `*` multiplies all its numeric arguments. */
  lemma MulIsProduct(args: seq<Value>)
    requires |args| > 0 && AllNumbers(args)
    ensures ApplyBuiltin(Mul, args).Ok? && ApplyBuiltin(Mul, args).value == Number(Product(Numbers(args)))
  {
    var xs := Numbers(args);
    assert xs[1..] == Numbers(args[1..]);
    FoldMul(xs[0], xs[1..]);
    assert Product(xs) == xs[0] * Product(xs[1..]);
  }

  /** `-` subtracts every later argument from the first; with one argument it
      returns it unchanged (there is no negation). */
  lemma SubIsFirstMinusRest(args: seq<Value>)
    requires |args| > 0 && AllNumbers(args)
    ensures ApplyBuiltin(Sub, args) == Ok(Number(args[0].x - Sum(Numbers(args[1..]))))
  {
    FoldSub(args[0].x, Numbers(args[1..]));
  }

  /** `/` divides the first argument by every later one in turn, failing
      exactly when one of the later arguments is zero. */
  lemma DivIsFirstOverRest(args: seq<Value>)
    requires |args| > 0 && AllNumbers(args)
    ensures NoZero(Numbers(args[1..])) ==>
      ApplyBuiltin(Div, args) == Ok(Number(args[0].x / Product(Numbers(args[1..]))))
    ensures !NoZero(Numbers(args[1..])) ==> ApplyBuiltin(Div, args) == Err(DivisionByZero)
  {
    var rest := Numbers(args[1..]);
    if NoZero(rest) {
      FoldDiv(args[0].x, rest);
    } else {
      FoldDivByZero(args[0].x, rest);
    }
  }

  /** A lone argument is returned as is, even when it is not a number. */
  lemma SingleArgumentIsReturned(op: Op, v: Value)
    ensures ApplyBuiltin(op, [v]) == Ok(v)
  {
  }

  /** `(+ 1 2 3)`, `(- 10 3 2)`, `(* 2 3 4)` and `(/ 20 2 5)`. */
  lemma ArithmeticExamples()
    ensures ApplyBuiltin(Add, [Number(1.0), Number(2.0), Number(3.0)]) == Ok(Number(6.0))
    ensures ApplyBuiltin(Sub, [Number(10.0), Number(3.0), Number(2.0)]) == Ok(Number(5.0))
    ensures ApplyBuiltin(Mul, [Number(2.0), Number(3.0), Number(4.0)]) == Ok(Number(24.0))
    ensures ApplyBuiltin(Div, [Number(20.0), Number(2.0), Number(5.0)]) == Ok(Number(2.0))
  {
    var a := [Number(1.0), Number(2.0), Number(3.0)];
    assert Numbers(a[1..]) == [2.0, 3.0];
    var s := [Number(10.0), Number(3.0), Number(2.0)];
    assert Numbers(s[1..]) == [3.0, 2.0];
    var m := [Number(2.0), Number(3.0), Number(4.0)];
    assert Numbers(m[1..]) == [3.0, 4.0];
    var d := [Number(20.0), Number(2.0), Number(5.0)];
    assert Numbers(d[1..]) == [2.0, 5.0];
  }
}
