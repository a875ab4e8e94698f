/** Run-time values of Carlae. */
module Values {
  import opened Errors
  import opened Syntax

  /** The four builtin arithmetic operators of carlae.js (`+ - * /`). */
  datatype Op = Add | Sub | Mul | Div

  /** What `evaluate` can return: a number, a builtin JavaScript function, a
      `UserDefinedFunction`, or `undefined`.
      A closure keeps its parameter tree and body as written (either may be
      missing), the environment it was created in, and the id of the
      `localEnv` frame its constructor allocates. */
  datatype Value =
    | Number(x: real)
    | Builtin(op: Op)
    | Closure(params: Option<Tree>, body: Option<Tree>, env: nat, local: nat)
    | Undefined

  /** JavaScript truthiness over these values: `0` and `undefined` are falsy. */
  predicate Truthy(v: Value) {
    !(v.Undefined? || (v.Number? && v.x == 0.0))
  }
}
