/** Properties of the eerolang evaluator: what each kind of expression evaluates to, the
    errors that abort a program, how integer arithmetic rounds and overflows, and how
    `execute` runs a block. */
module InterpreterFacts {
  import opened Wrappers
  import opened Tokenizer
  import opened AstParser
  import opened Builtins
  import opened Interpreter

  // ---------------------------------------------------------------- leaves

  /** A literal evaluates to its value and a variable to its binding; a variable with no
      binding aborts. Neither writes anything. */
  lemma Leaves(files: map<string, string>, vars: Env, v: Value, x: string)
    ensures EvalExpr(files, vars, AstNode.Literal(v)) == Eval("", Ok(v))
    ensures x in vars ==> EvalExpr(files, vars, Variable(x)) == Eval("", Ok(vars[x]))
    ensures x !in vars ==> EvalExpr(files, vars, Variable(x)) == Eval("", Err(UndefinedVariable(x)))
  {
  }

  // ---------------------------------------------------------------- lists

  /** Element `k` is the first of `es` whose evaluation fails, and fails with `e`. */
  ghost predicate FailsFirstAt(files: map<string, string>, vars: Env, es: seq<AstNode>, k: int, e: RuntimeError) {
    0 <= k < |es| && EvalExpr(files, vars, es[k]).result == Err(e) &&
    forall j :: 0 <= j < k ==> EvalExpr(files, vars, es[j]).result.Ok?
  }

  ghost predicate FirstError(files: map<string, string>, vars: Env, es: seq<AstNode>, e: RuntimeError) {
    exists k :: FailsFirstAt(files, vars, es, k, e)
  }

  /** The elements of a list are evaluated left to right: the list succeeds exactly when
      every element does, and then holds each element's value in order. */
  lemma {:induction false} ListElementwise(files: map<string, string>, vars: Env, es: seq<AstNode>)
    ensures var r := EvalList(files, vars, es).result;
      r.Ok? <==> forall k :: 0 <= k < |es| ==> EvalExpr(files, vars, es[k]).result.Ok?
    ensures var r := EvalList(files, vars, es).result;
      r.Ok? ==> (|r.value| == |es| &&
                 forall k :: 0 <= k < |es| ==> r.value[k] == EvalExpr(files, vars, es[k]).result.value)
    decreases es
  {
    if es != [] {
      ListElementwise(files, vars, es[1..]);
      assert forall k :: 1 <= k < |es| ==> es[1..][k - 1] == es[k];
    }
  }

  /** A list that fails has the error of the first element that fails. */
  lemma {:induction false} ListFirstError(files: map<string, string>, vars: Env, es: seq<AstNode>)
    ensures var r := EvalList(files, vars, es).result;
      r.Err? ==> FirstError(files, vars, es, r.error)
    decreases es
  {
    if es != [] {
      var head := EvalExpr(files, vars, es[0]);
      var tail := EvalList(files, vars, es[1..]);
      if head.result.Err? {
        assert FailsFirstAt(files, vars, es, 0, head.result.error);
      } else if tail.result.Err? {
        ListFirstError(files, vars, es[1..]);
        var k :| FailsFirstAt(files, vars, es[1..], k, tail.result.error);
        assert FailsFirstAt(files, vars, es, k + 1, tail.result.error) by {
          forall j | 0 <= j < k + 1
            ensures EvalExpr(files, vars, es[j]).result.Ok?
          {
            if j > 0 {
              assert es[j] == es[1..][j - 1];
            }
          }
          assert es[k + 1] == es[1..][k];
        }
      }
    }
  }

  /** A list expression evaluates to a list of the same length whose elements are the
      values of its element expressions. */
  lemma ListValue(files: map<string, string>, vars: Env, es: seq<AstNode>)
    requires forall k :: 0 <= k < |es| ==> EvalExpr(files, vars, es[k]).result.Ok?
    ensures var r := EvalExpr(files, vars, AstNode.List(es)).result;
      r.Ok? && r.value.List? && |r.value.items| == |es| &&
      forall k :: 0 <= k < |es| ==> r.value.items[k] == EvalExpr(files, vars, es[k]).result.value
  {
    ListElementwise(files, vars, es);
  }

  // ---------------------------------------------------------------- binary operations

  /** Two strings joined with `+` concatenate; two integers combine by integer
      arithmetic; a number with a float gives a float; every other pair aborts, which is a
      list on either side, a string with anything but a string, or two strings with an
      operator other than `+`. */
  lemma OperatorCases(op: Operator, l: Value, r: Value)
    ensures l.String? && r.String? && op == Plus ==> ApplyOperator(op, l, r) == Ok(String(l.s + r.s))
    ensures l.Integer? && r.Integer? ==>
      ApplyOperator(op, l, r) == match IntegerOp(op, l.i, r.i) case Ok(n) => Ok(Integer(n)) case Err(e) => Err(e)
    ensures (l.Float? && (r.Integer? || r.Float?)) || (r.Float? && (l.Integer? || l.Float?)) ==>
      ApplyOperator(op, l, r) == Ok(Float)
    ensures ApplyOperator(op, l, r) == Err(UnsupportedOperands(op)) <==>
      l.List? || r.List? || l.String? != r.String? || (l.String? && r.String? && op != Plus)
  {
  }

  /** The left operand is evaluated first and an error there is the result, without
      evaluating the right one; then the right operand; then the operator. */
  lemma OperandsInOrder(files: map<string, string>, vars: Env, left: AstNode, op: Operator, right: AstNode)
    ensures var l := EvalExpr(files, vars, left);
      l.result.Err? ==> EvalExpr(files, vars, BinaryOp(left, op, right)) == l
    ensures var l := EvalExpr(files, vars, left); var r := EvalExpr(files, vars, right);
      l.result.Ok? && r.result.Err? ==>
        EvalExpr(files, vars, BinaryOp(left, op, right)) == Eval(l.output + r.output, r.result)
  {
  }

  lemma MulSigns(x: int, y: int)
    ensures (-x) * y == -(x * y) && x * (-y) == -(x * y) && (-x) * (-y) == x * y
  {
  }

  lemma MulMonotone(x: nat, y: nat, z: nat)
    requires y <= z
    ensures x * y <= x * z
  {
  }

  /** The remainder Rust's `%` pairs with `/`. */
  function TruncRem(a: int, b: int): int
    requires b != 0
  {
    a - TruncDiv(a, b) * b
  }

  /** `q` is `q0` with the sign of the quotient `a / b`, where `q0` and `r0` are quotient
      and remainder of the magnitudes. */
  ghost predicate SignedQuotient(a: int, b: int, q: int, q0: int, r0: int) {
    b != 0 && 0 <= q0 && Abs(a) == q0 * Abs(b) + r0 && 0 <= r0 < Abs(b) &&
    q == if (a < 0) == (b < 0) then q0 else -q0
  }

  lemma SignedRemainder(a: int, b: int, q: int, q0: int, r0: int)
    requires SignedQuotient(a, b, q, q0, r0)
    ensures a - q * b == if a < 0 then -r0 else r0
    ensures Abs(q) * Abs(b) == q0 * Abs(b)
  {
    var y: int := Abs(b);
    MulSigns(q0, y);
    if a >= 0 && b > 0 {
      assert q * b == q0 * y;
    } else if a >= 0 {
      assert q * b == (-q0) * (-y);
    } else if b > 0 {
      assert q * b == (-q0) * y;
    } else {
      assert q * b == q0 * (-y);
    }
  }

  lemma MagnitudeQuotient(a: int, b: int)
    requires b != 0
    ensures SignedQuotient(a, b, TruncDiv(a, b), Abs(a) / Abs(b), Abs(a) % Abs(b))
  {
  }

  /** The remainder is that of the magnitudes, with the sign of the dividend. */
  lemma TruncRemMagnitude(a: int, b: int)
    requires b != 0
    ensures TruncRem(a, b) == if a < 0 then -(Abs(a) % Abs(b)) else Abs(a) % Abs(b)
    ensures Abs(TruncDiv(a, b)) * Abs(b) == Abs(a) - Abs(a) % Abs(b)
  {
    MagnitudeQuotient(a, b);
    SignedRemainder(a, b, TruncDiv(a, b), Abs(a) / Abs(b), Abs(a) % Abs(b));
  }

  /** `-7 / 2` is `-3` in Rust, where Euclidean division would give `-4`. */
  lemma TruncDivExamples()
    ensures TruncDiv(-7, 2) == -3 && TruncDiv(7, -2) == -3 && TruncDiv(-7, -2) == 3 && TruncDiv(7, 2) == 3
    ensures -7 / 2 == -4
  {
  }

  /** Integer arithmetic aborts on a zero divisor, and otherwise on exactly the exact
      results that `i64` cannot hold; every other result is the exact one. */
  lemma IntegerOpErrors(op: Operator, l: int, r: int)
    ensures IntegerOp(op, l, r) == Err(DivisionByZero) <==> op == Divide && r == 0
    ensures op == Plus ==> (IntegerOp(op, l, r).Ok? <==> InI64(l + r))
    ensures op == Minus ==> (IntegerOp(op, l, r).Ok? <==> InI64(l - r))
    ensures op == Multiply ==> (IntegerOp(op, l, r).Ok? <==> InI64(l * r))
    ensures op == Divide && r != 0 ==> (IntegerOp(op, l, r).Ok? <==> InI64(TruncDiv(l, r)))
    ensures IntegerOp(op, l, r).Ok? ==> InI64(IntegerOp(op, l, r).value)
  {
  }

  /** The one `i64` division that overflows: `i64::MIN / -1`. */
  lemma DivisionOverflow(l: int, r: int)
    requires InI64(l) && InI64(r) && r != 0
    ensures IntegerOp(Divide, l, r).Err? <==> l == I64_MIN && r == -1
  {
    var q := TruncDiv(l, r);
    if r == -1 {
      assert q == -l;
    } else if r == 1 {
      assert q == l;
    } else {
      TruncRemMagnitude(l, r);
      MulMonotone(Abs(q), 2, Abs(r));
      assert Abs(q) * 2 <= Abs(l);
    }
  }

  // ---------------------------------------------------------------- calls

  /** A call evaluates its arguments before it looks up the function: an argument that
      fails is the error even when the function does not exist, and a name outside the
      builtin table aborts once the arguments are evaluated. */
  lemma UndefinedFunctionFatal(files: map<string, string>, vars: Env, name: string, args: seq<AstNode>)
    requires name !in BuiltinNames
    ensures var a := EvalList(files, vars, args);
      CallFunction(files, vars, name, args) ==
        Eval(a.output, Err(if a.result.Err? then a.result.error else UndefinedFunction(name)))
  {
  }

  /** `f(x)` with neither `f` nor `x` defined reports `x`. */
  lemma ArgumentBeforeFunction(files: map<string, string>)
    ensures ExecStatement(files, map[], FunctionCall("f", [Variable("x")])) == Eval("", Err(UndefinedVariable("x")))
  {
    assert [Variable("x")][1..] == [];
  }

  /** `print` as a statement writes its rendered arguments after what they wrote and
      leaves the variables as they were. */
  lemma PrintStatement(files: map<string, string>, vars: Env, args: seq<AstNode>)
    requires EvalList(files, vars, args).result.Ok?
    ensures var a := EvalList(files, vars, args);
      ExecStatement(files, vars, FunctionCall("print", args)) == Eval(a.output + Render(a.result.value), Ok(vars))
  {
  }

  /** `print` used as a value writes its text and then aborts: it returns nothing. */
  lemma PrintAsValue(files: map<string, string>, vars: Env, args: seq<AstNode>)
    requires EvalList(files, vars, args).result.Ok?
    ensures var a := EvalList(files, vars, args);
      EvalExpr(files, vars, FunctionCall("print", args)) ==
        Eval(a.output + Render(a.result.value), Err(NoReturnValue("print")))
  {
  }

  /** The other builtins used as values give what they return, and a builtin that fails
      aborts with its error. */
  lemma BuiltinAsValue(files: map<string, string>, vars: Env, name: string, args: seq<AstNode>)
    requires name in BuiltinNames && name != "print"
    requires EvalList(files, vars, args).result.Ok?
    ensures var a := EvalList(files, vars, args); var b := CallBuiltin(name, a.result.value, files);
      b.result.Ok? ==> (b.result.value.Some? &&
                        EvalExpr(files, vars, FunctionCall(name, args)) == Eval(a.output, Ok(b.result.value.value)))
    ensures var a := EvalList(files, vars, args); var b := CallBuiltin(name, a.result.value, files);
      b.result.Err? ==> EvalExpr(files, vars, FunctionCall(name, args)) == Eval(a.output, Err(BuiltinFailed(b.result.error)))
  {
    var a := EvalList(files, vars, args);
    assert a.output + "" == a.output;
  }

  // ---------------------------------------------------------------- statements

  /** An assignment that succeeds binds its name to the value and keeps every other
      binding; no binding is removed. */
  lemma AssignmentEffect(files: map<string, string>, vars: Env, x: string, e: AstNode)
    requires EvalExpr(files, vars, e).result.Ok?
    ensures var s := ExecStatement(files, vars, AstNode.Assign(x, e));
      s.result.Ok? && s.result.value.Keys == vars.Keys + {x} &&
      s.result.value[x] == EvalExpr(files, vars, e).result.value &&
      forall y :: y in vars && y != x ==> s.result.value[y] == vars[y]
  {
  }

  /** A statement that is neither an assignment nor a call aborts: with its own error if
      it has one, and otherwise because it is not a statement. */
  lemma OtherStatementFatal(files: map<string, string>, vars: Env, node: AstNode)
    requires !node.Assign? && !node.FunctionCall?
    ensures var v := EvalExpr(files, vars, node); var s := ExecStatement(files, vars, node);
      s.result.Err? && s.output == v.output &&
      (v.result.Ok? ==> s.result.error == UnexpectedNode) &&
      (v.result.Err? ==> s.result.error == v.result.error)
  {
  }

  /** No statement removes a binding. */
  lemma StatementKeepsKeys(files: map<string, string>, vars: Env, node: AstNode)
    requires ExecStatement(files, vars, node).result.Ok?
    ensures vars.Keys <= ExecStatement(files, vars, node).result.value.Keys
  {
  }

  /** Whether statement `i` or a later one assigns `x`. */
  ghost predicate AssignsFrom(block: seq<AstNode>, i: nat, x: string) {
    exists k :: i <= k < |block| && block[k].Assign? && block[k].name == x
  }

  /** A run never removes a binding, and a binding no statement assigns is left as it
      was, as is the absence of one. */
  lemma {:induction false} RunKeepsBindings(files: map<string, string>, block: seq<AstNode>, i: nat, vars: Env, x: string)
    requires i <= |block|
    ensures vars.Keys <= ExecFrom(files, block, i, vars).vars.Keys
    ensures !AssignsFrom(block, i, x) ==>
      (x in vars <==> x in ExecFrom(files, block, i, vars).vars) &&
      (x in vars ==> ExecFrom(files, block, i, vars).vars[x] == vars[x])
    decreases |block| - i
  {
    if i < |block| {
      var s := ExecStatement(files, vars, block[i]);
      if s.result.Ok? {
        StatementKeepsKeys(files, vars, block[i]);
        RunKeepsBindings(files, block, i + 1, s.result.value, x);
        if !AssignsFrom(block, i, x) {
          assert !AssignsFrom(block, i + 1, x);
          assert !(block[i].Assign? && block[i].name == x);
        }
      }
    }
  }

  /** Running `b1 + b2` runs `b1`, and `b2` from where `b1` left the variables unless `b1`
      aborted, in which case `b2` does not run at all. */
  lemma {:induction false} RunShift(files: map<string, string>, b1: seq<AstNode>, b2: seq<AstNode>, k: nat, vars: Env)
    requires k <= |b2|
    ensures ExecFrom(files, b1 + b2, |b1| + k, vars) == ExecFrom(files, b2, k, vars)
    decreases |b2| - k
  {
    if k < |b2| {
      assert (b1 + b2)[|b1| + k] == b2[k];
      var s := ExecStatement(files, vars, b2[k]);
      if s.result.Ok? {
        RunShift(files, b1, b2, k + 1, s.result.value);
      }
    }
  }

  /** The result of running `b1` from `i` and then `b2`. */
  function Then(first: Run, files: map<string, string>, b2: seq<AstNode>): Run {
    if first.error.Some? then first
    else
      var second := ExecFrom(files, b2, 0, first.vars);
      Run(second.vars, first.output + second.output, second.error)
  }

  lemma {:induction false} RunConcatFrom(files: map<string, string>, b1: seq<AstNode>, b2: seq<AstNode>, i: nat, vars: Env)
    requires i <= |b1|
    ensures ExecFrom(files, b1 + b2, i, vars) == Then(ExecFrom(files, b1, i, vars), files, b2)
    decreases |b1| - i
  {
    if i == |b1| {
      RunShift(files, b1, b2, 0, vars);
      assert "" + ExecFrom(files, b2, 0, vars).output == ExecFrom(files, b2, 0, vars).output;
    } else {
      assert (b1 + b2)[i] == b1[i];
      var s := ExecStatement(files, vars, b1[i]);
      if s.result.Ok? {
        RunConcatFrom(files, b1, b2, i + 1, s.result.value);
        var r1 := ExecFrom(files, b1, i + 1, s.result.value);
        if r1.error.None? {
          Regroup(s.output, r1.output, ExecFrom(files, b2, 0, r1.vars).output);
        }
      }
    }
  }

  /** Statements run in order: a block is its first part followed by the rest. */
  lemma RunConcat(files: map<string, string>, b1: seq<AstNode>, b2: seq<AstNode>, vars: Env)
    ensures ExecFrom(files, b1 + b2, 0, vars) == Then(ExecFrom(files, b1, 0, vars), files, b2)
  {
    RunConcatFrom(files, b1, b2, 0, vars);
  }

  /** `x = 7 / -2` then `print(x)`: the quotient rounds toward zero. */
  lemma DivideThenPrint(files: map<string, string>)
    ensures var assign := AstNode.Assign("x", BinaryOp(AstNode.Literal(Integer(7)), Divide, AstNode.Literal(Integer(-2))));
      ExecFrom(files, [assign, FunctionCall("print", [Variable("x")])], 0, map[]) ==
        Run(map["x" := Integer(-3)], "-3\n", None)
  {
    var assign := AstNode.Assign("x", BinaryOp(AstNode.Literal(Integer(7)), Divide, AstNode.Literal(Integer(-2))));
    var call := FunctionCall("print", [Variable("x")]);
    var block := [assign, call];
    var vars := map["x" := Integer(-3)];
    assert TruncDiv(7, -2) == -3;
    assert ExecStatement(files, map[], assign) == Eval("", Ok(vars));
    assert EvalList(files, vars, [Variable("x")]) == Eval("", Ok([Integer(-3)])) by {
      assert [Variable("x")][1..] == [];
      assert EvalExpr(files, vars, Variable("x")) == Eval("", Ok(Integer(-3)));
      assert [Integer(-3)] + [] == [Integer(-3)];
    }
    assert Render([Integer(-3)]) == "-3\n" by {
      assert NatToString(3) == "3";
      assert [Integer(-3)][1..] == [];
    }
    assert ExecStatement(files, vars, call) == Eval("-3\n", Ok(vars));
    assert ExecFrom(files, block, 2, vars) == Run(vars, "", None);
    assert ExecFrom(files, block, 1, vars) == Run(vars, "-3\n", None);
  }

  /** A statement that aborts ends the run: whatever the statements before it wrote
      stays, the variables are those they left, and the statements after it do not run. */
  lemma AbortKeepsEarlierOutput(files: map<string, string>, pre: seq<AstNode>, stmt: AstNode, post: seq<AstNode>, vars: Env)
    requires ExecFrom(files, pre, 0, vars).error.None?
    requires ExecStatement(files, ExecFrom(files, pre, 0, vars).vars, stmt).result.Err?
    ensures var first := ExecFrom(files, pre, 0, vars);
      var s := ExecStatement(files, first.vars, stmt);
      ExecFrom(files, pre + [stmt] + post, 0, vars) == Run(first.vars, first.output + s.output, Some(s.result.error))
  {
    assert pre + [stmt] + post == pre + ([stmt] + post);
    RunConcat(files, pre, [stmt] + post, vars);
    assert ([stmt] + post)[0] == stmt;
  }

  /** `print(1)`, then `y = z` with `z` unbound, then `print(2)`: the run stops at the
      second statement, after `1` was written, and `y` is not bound. */
  lemma PrintThenAbort(files: map<string, string>)
    ensures var p1 := FunctionCall("print", [AstNode.Literal(Integer(1))]);
      var bad := AstNode.Assign("y", Variable("z"));
      var p2 := FunctionCall("print", [AstNode.Literal(Integer(2))]);
      ExecFrom(files, [p1, bad, p2], 0, map[]) == Run(map[], "1\n", Some(UndefinedVariable("z")))
  {
    assert [AstNode.Literal(Integer(1))][1..] == [];
    assert Render([Integer(1)]) == "1\n" by {
      assert NatToString(1) == "1";
      assert [Integer(1)][1..] == [];
    }
  }
}
