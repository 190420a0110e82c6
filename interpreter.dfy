/** The evaluator of eerolang (program.rs): `compute_expression`, `call_function` and the
    `Program` whose `execute` runs a block of statements over its variable table.

    Evaluation only reads the variables, so it is a family of functions. What `print`
    writes along the way is returned beside the result (`Eval`), because a program that
    aborts keeps what it printed before. A `panic!`/`expect` of the source is an `Err`. */
module Interpreter {
  import opened Wrappers
  import opened Tokenizer
  import opened AstParser
  import opened Builtins

  datatype RuntimeError =
      /** A variable with no binding. */
    | UndefinedVariable(name: string)
      /** A call used as a value returned nothing. */
    | NoReturnValue(name: string)
      /** The operands of a binary operation have no meaning together. */
    | UnsupportedOperands(op: Operator)
      /** The exact integer result does not fit in 64 signed bits. */
    | IntegerOverflow(op: Operator)
    | DivisionByZero
      /** An assignment where a value is expected. */
    | UnsupportedExpression
      /** A call to a name outside the builtin table. */
    | UndefinedFunction(name: string)
    | BuiltinFailed(error: BuiltinError)
      /** A statement that is neither an assignment nor a call. */
    | UnexpectedNode

  /** The variable table. */
  type Env = map<string, Value>

  /** What an evaluation writes to stdout, and its result. */
  datatype Eval<+T> = Eval(output: string, result: Result<T, RuntimeError>)

  function Abs(n: int): nat {
    if n < 0 then -n else n
  }

  /** Rust's `/` on integers: the quotient rounded toward zero. */
  function TruncDiv(a: int, b: int): int
    requires b != 0
  {
    var q := Abs(a) / Abs(b);
    if (a < 0) == (b < 0) then q else -q
  }

  /** An exact result, or the overflow Rust's arithmetic aborts with. */
  function Checked(op: Operator, n: int): (r: Result<int, RuntimeError>)
    ensures r.Ok? <==> InI64(n)
    ensures r.Ok? ==> r.value == n
  {
    if InI64(n) then Ok(n) else Err(IntegerOverflow(op))
  }

  /** `i64` arithmetic as a debug build performs it: an overflow of `+`, `-` or `*`
      aborts. A zero divisor and `i64::MIN / -1` abort in every build. */
  function IntegerOp(op: Operator, l: int, r: int): Result<int, RuntimeError> {
    match op
    case Plus => Checked(op, l + r)
    case Minus => Checked(op, l - r)
    case Multiply => Checked(op, l * r)
    case Divide => if r == 0 then Err(DivisionByZero) else Checked(op, TruncDiv(l, r))
  }

  /** The binary operation on two values: concatenation of two strings with `+`, integer
      arithmetic on two integers, a float when both are numbers and one is a float. */
  function ApplyOperator(op: Operator, l: Value, r: Value): Result<Value, RuntimeError> {
    if l.String? && r.String? && op == Plus then Ok(String(l.s + r.s))
    else if l.Integer? && r.Integer? then
      match IntegerOp(op, l.i, r.i)
      case Ok(n) => Ok(Integer(n))
      case Err(e) => Err(e)
    else if (l.Integer? || l.Float?) && (r.Integer? || r.Float?) then Ok(Float)
    else Err(UnsupportedOperands(op))
  }

  /** `compute_expression`. */
  function EvalExpr(files: map<string, string>, vars: Env, e: AstNode): Eval<Value>
    decreases e, 1
  {
    match e
    case Literal(v) => Eval("", Ok(v))
    case Variable(name) =>
      if name in vars then Eval("", Ok(vars[name])) else Eval("", Err(UndefinedVariable(name)))
    case FunctionCall(name, args) =>
      var call := CallFunction(files, vars, name, args);
      Eval(call.output,
           match call.result
           case Ok(Some(v)) => Ok(v)
           case Ok(None) => Err(NoReturnValue(name))
           case Err(err) => Err(err))
    case List(elements) =>
      var values := EvalList(files, vars, elements);
      Eval(values.output, match values.result case Ok(vs) => Ok(Value.List(vs)) case Err(err) => Err(err))
    case BinaryOp(left, op, right) =>
      var l := EvalExpr(files, vars, left);
      if l.result.Err? then Eval(l.output, Err(l.result.error))
      else
        var r := EvalExpr(files, vars, right);
        if r.result.Err? then Eval(l.output + r.output, Err(r.result.error))
        else Eval(l.output + r.output, ApplyOperator(op, l.result.value, r.result.value))
    case Assign(_, _) => Eval("", Err(UnsupportedExpression))
  }

  /** The `map`/`collect` over a list of expressions: left to right, stopping at the first
      error. */
  function EvalList(files: map<string, string>, vars: Env, es: seq<AstNode>): Eval<seq<Value>>
    decreases es, 0
  {
    if es == [] then Eval("", Ok([]))
    else
      var head := EvalExpr(files, vars, es[0]);
      if head.result.Err? then Eval(head.output, Err(head.result.error))
      else
        var tail := EvalList(files, vars, es[1..]);
        Eval(head.output + tail.output,
             match tail.result case Ok(vs) => Ok([head.result.value] + vs) case Err(err) => Err(err))
  }

  /** `call_function`: the arguments first, then the builtin of that name. */
  function CallFunction(files: map<string, string>, vars: Env, name: string, args: seq<AstNode>): Eval<Option<Value>>
    decreases args, 2
  {
    var values := EvalList(files, vars, args);
    if values.result.Err? then Eval(values.output, Err(values.result.error))
    else if name !in BuiltinNames then Eval(values.output, Err(UndefinedFunction(name)))
    else
      var b := CallBuiltin(name, values.result.value, files);
      Eval(values.output + b.output, match b.result case Ok(v) => Ok(v) case Err(err) => Err(BuiltinFailed(err)))
  }

  /** One statement of `execute`: the new variable table. */
  function ExecStatement(files: map<string, string>, vars: Env, node: AstNode): Eval<Env> {
    match node
    case Assign(name, value) =>
      var v := EvalExpr(files, vars, value);
      Eval(v.output, match v.result case Ok(x) => Ok(vars[name := x]) case Err(err) => Err(err))
    case FunctionCall(name, args) =>
      var c := CallFunction(files, vars, name, args);
      Eval(c.output, match c.result case Ok(_) => Ok(vars) case Err(err) => Err(err))
    case _ =>
      var v := EvalExpr(files, vars, node);
      Eval(v.output, Err(Rejected(v.result)))
  }

  /** The error of a statement that is not an assignment or a call: its own evaluation's
      error, or else `UnexpectedNode`. */
  function Rejected(r: Result<Value, RuntimeError>): RuntimeError {
    match r
    case Err(e) => e
    case Ok(_) => UnexpectedNode
  }

  /** The state a run leaves: the variables, what it wrote, and the error it stopped at. */
  datatype Run = Run(vars: Env, output: string, error: Option<RuntimeError>)

  /** `execute` from statement `i` on. */
  function ExecFrom(files: map<string, string>, block: seq<AstNode>, i: nat, vars: Env): Run
    requires i <= |block|
    decreases |block| - i
  {
    if i == |block| then Run(vars, "", None)
    else
      var s := ExecStatement(files, vars, block[i]);
      match s.result
      case Err(e) => Run(vars, s.output, Some(e))
      case Ok(vars') =>
        var rest := ExecFrom(files, block, i + 1, vars');
        Run(rest.vars, s.output + rest.output, rest.error)
  }

  /** `Program`: the block it runs, the file system `readfile` reads, the variable table,
      and what has been written to stdout. The builtin table is `BuiltinNames`. */
  class Program {
    const block: seq<AstNode>
    const files: map<string, string>
    var vars: Env
    var output: string

    /** `Program::new`. */
    constructor (block: seq<AstNode>, files: map<string, string>)
      ensures this.block == block && this.files == files && vars == map[] && output == ""
    {
      this.block := block;
      this.files := files;
      vars := map[];
      output := "";
    }

    /** `execute`: the statements in order, each an assignment or a call; it stops at
        the first error, which it returns. */
    method Execute() returns (error: Option<RuntimeError>)
      modifies this
      ensures var run := ExecFrom(files, block, 0, old(vars));
        vars == run.vars && output == old(output) + run.output && error == run.error
    {
      ghost var vars0, output0 := vars, output;
      ghost var produced := "";
      var i := 0;
      while i < |block|
        invariant i <= |block| && output == output0 + produced
        invariant var rest := ExecFrom(files, block, i, vars);
          ExecFrom(files, block, 0, vars0) == Run(rest.vars, produced + rest.output, rest.error)
        decreases |block| - i
      {
        var written: string, next: Result<Env, RuntimeError>;
        match block[i] {
          case Assign(name, value) =>
            var v := EvalExpr(files, vars, value);
            written := v.output;
            next := if v.result.Err? then Err(v.result.error) else Ok(vars[name := v.result.value]);
          case FunctionCall(name, args) =>
            var c := CallFunction(files, vars, name, args);
            written := c.output;
            next := if c.result.Err? then Err(c.result.error) else Ok(vars);
          case _ =>
            var v := EvalExpr(files, vars, block[i]);
            written := v.output;
            next := Err(Rejected(v.result));
        }
        assert Eval(written, next) == ExecStatement(files, vars, block[i]);
        Regroup(output0, produced, written);
        output := output + written;
        if next.Err? {
          produced := produced + written;
          assert produced + "" == produced;
          return Some(next.error);
        }
        vars := next.value;
        Regroup(produced, written, ExecFrom(files, block, i + 1, vars).output);
        produced := produced + written;
        i := i + 1;
      }
      assert produced + "" == produced;
      return None;
    }
  }

  lemma Regroup(a: string, b: string, c: string)
    ensures a + (b + c) == (a + b) + c
  {
  }
}
