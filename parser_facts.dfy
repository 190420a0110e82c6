/** Properties of the eerolang parser: precedence climbing agrees with the two-level
    grammar `sum := term (('+' | '-') term)*`, `term := primary (('*' | '/') primary)*`;
    chains of one precedence group to the left; the shapes of comma-separated lists; what a
    primary expression is; and what `parse` returns. */
module ParserFacts {
  import opened Wrappers
  import opened Tokenizer
  import opened AstParser

  /** The multiplicative level: after `left`, each `*` or `/` takes the next primary. */
  function TermRest(toks: seq<Token>, p: nat, left: AstNode): (r: PResult<AstNode>)
    requires p <= |toks|
    ensures !r.NoParse?
    ensures r.Parsed? ==> p <= r.next <= |toks|
    decreases |toks| - p
  {
    if OperatorAtLeast(toks, p, 1) then
      match PrimaryAt(toks, p + 1)
      case NoParse => Fatal(ExpectedOperand)
      case Fatal(e) => Fatal(e)
      case Parsed(right, q) => TermRest(toks, q, BinaryOp(left, toks[p].op, right))
    else Parsed(left, p)
  }

  /** The additive level: after the term `left`, each `+` or `-` takes the next term. */
  function SumRest(toks: seq<Token>, p: nat, left: AstNode): (r: PResult<AstNode>)
    requires p <= |toks|
    ensures !r.NoParse?
    decreases |toks| - p
  {
    if p < |toks| && toks[p].Op? && Precedence(toks[p].op) == 0 then
      match PrimaryAt(toks, p + 1)
      case NoParse => Fatal(ExpectedOperand)
      case Fatal(e) => Fatal(e)
      case Parsed(first, q) =>
        match TermRest(toks, q, first)
        case Parsed(right, q') => SumRest(toks, q', BinaryOp(left, toks[p].op, right))
        case NoParse => NoParse
        case Fatal(e) => Fatal(e)
    else Parsed(left, p)
  }

  /** A term, then the rest of the sum. */
  function TermThenSum(toks: seq<Token>, p: nat, left: AstNode): PResult<AstNode>
    requires p <= |toks|
  {
    match TermRest(toks, p, left)
    case Parsed(t, q) => SumRest(toks, q, t)
    case NoParse => NoParse
    case Fatal(e) => Fatal(e)
  }

  /** The two-level grammar's expression. */
  function StratifiedExpression(toks: seq<Token>, p: nat): PResult<AstNode>
    requires p <= |toks|
  {
    match PrimaryAt(toks, p)
    case Parsed(first, q) => TermThenSum(toks, q, first)
    case NoParse => NoParse
    case Fatal(e) => Fatal(e)
  }

  /** A term ends where no `*` or `/` follows. */
  lemma {:induction false} TermRestStops(toks: seq<Token>, p: nat, left: AstNode)
    requires p <= |toks|
    ensures TermRest(toks, p, left).Parsed? ==> !OperatorAtLeast(toks, TermRest(toks, p, left).next, 1)
    decreases |toks| - p
  {
    if OperatorAtLeast(toks, p, 1) {
      match PrimaryAt(toks, p + 1)
      case NoParse =>
      case Fatal(_) =>
      case Parsed(right, q) => TermRestStops(toks, q, BinaryOp(left, toks[p].op, right));
    }
  }

  /** `parse_expression_impl` at the multiplicative precedence is the term level. */
  lemma {:induction false} TailIsTerm(toks: seq<Token>, p: nat, left: AstNode)
    requires p <= |toks|
    ensures ExpressionTail(toks, p, left, 1) == TermRest(toks, p, left)
    decreases |toks| - p
  {
    if OperatorAtLeast(toks, p, 1) {
      match PrimaryAt(toks, p + 1)
      case NoParse =>
      case Fatal(_) =>
      case Parsed(right, q) =>
        var op := toks[p].op;
        assert Climb(toks, q, right, op) == Parsed(right, q);
        TailIsTerm(toks, q, BinaryOp(left, op, right));
    }
  }

  /** The inner loop of `parse_expression_impl`: after an additive operator the right
      operand grows into a whole term; after a multiplicative one it stays as it is. */
  lemma ClimbIsTerm(toks: seq<Token>, p: nat, right: AstNode, op: Operator)
    requires p <= |toks|
    ensures Precedence(op) == 0 ==> Climb(toks, p, right, op) == TermRest(toks, p, right)
    ensures Precedence(op) == 1 ==> Climb(toks, p, right, op) == Parsed(right, p)
  {
    if Precedence(op) == 0 && OperatorAtLeast(toks, p, 1) {
      TailIsTerm(toks, p, right);
      TermRestStops(toks, p, right);
      var t := TermRest(toks, p, right);
      if t.Parsed? {
        assert Climb(toks, t.next, t.value, op) == Parsed(t.value, t.next);
      }
    }
  }

  /** `parse_expression_impl` at the lowest precedence is a term followed by a sum. */
  lemma {:induction false} TailIsSum(toks: seq<Token>, p: nat, left: AstNode)
    requires p <= |toks|
    ensures ExpressionTail(toks, p, left, 0) == TermThenSum(toks, p, left)
    decreases |toks| - p
  {
    if OperatorAtLeast(toks, p, 0) {
      var op := toks[p].op;
      match PrimaryAt(toks, p + 1)
      case NoParse =>
      case Fatal(_) =>
      case Parsed(first, q) =>
        ClimbIsTerm(toks, q, first, op);
        if Precedence(op) == 1 {
          TailIsSum(toks, q, BinaryOp(left, op, first));
        } else {
          var t := TermRest(toks, q, first);
          if t.Parsed? {
            TermRestStops(toks, q, first);
            var next := BinaryOp(left, op, t.value);
            TailIsSum(toks, t.next, next);
            assert TermRest(toks, t.next, next) == Parsed(next, t.next);
          }
        }
    }
  }

  /** Precedence climbing agrees with the two-level grammar: `*` and `/` bind more
      strongly than `+` and `-`, and operators of one level group to the left. */
  lemma ExpressionIsStratified(toks: seq<Token>, p: nat)
    requires p <= |toks|
    ensures ExpressionAt(toks, p) == StratifiedExpression(toks, p)
  {
    var first := PrimaryAt(toks, p);
    if first.Parsed? {
      TailIsSum(toks, first.next, first.value);
    }
  }

  /** The tokens from `p` are the literals `vs` with the operators `ops` between them. */
  ghost predicate ChainAt(toks: seq<Token>, p: nat, vs: seq<Value>, ops: seq<Operator>) {
    |vs| == |ops| + 1 && p + 2 * |ops| < |toks| &&
    (forall k :: 0 <= k < |vs| ==> toks[p + 2 * k] == Token.Literal(vs[k])) &&
    (forall k :: 0 <= k < |ops| ==> toks[p + 2 * k + 1] == Op(ops[k]))
  }

  /** A chain whose operators share one precedence, with no operator after it. */
  ghost predicate OnePrecedenceChain(toks: seq<Token>, p: nat, vs: seq<Value>, ops: seq<Operator>) {
    ChainAt(toks, p, vs, ops) &&
    (forall j :: 0 <= j < |ops| ==> Precedence(ops[j]) == Precedence(ops[0])) &&
    (p + 2 * |ops| + 1 == |toks| || !toks[p + 2 * |ops| + 1].Op?)
  }

  /** The first `k` operators of a chain applied left-nested: the `k`-th operator is at
      the root. */
  function LeftNested(vs: seq<Value>, ops: seq<Operator>, k: nat): AstNode
    requires |vs| == |ops| + 1 && k <= |ops|
  {
    if k == 0 then AstNode.Literal(vs[0])
    else BinaryOp(LeftNested(vs, ops, k - 1), ops[k - 1], AstNode.Literal(vs[k]))
  }

  /** One turn of the outer loop over `op v` when no stronger operator follows `v`. */
  lemma ChainStep(toks: seq<Token>, i: nat, left: AstNode, op: Operator, v: Value)
    requires i + 2 <= |toks| && toks[i] == Op(op) && toks[i + 1] == Token.Literal(v)
    requires !OperatorAtLeast(toks, i + 2, Precedence(op) + 1)
    ensures ExpressionTail(toks, i, left, 0) == ExpressionTail(toks, i + 2, BinaryOp(left, op, AstNode.Literal(v)), 0)
  {
    assert PrimaryAt(toks, i + 1) == Parsed(AstNode.Literal(v), i + 2);
    assert Climb(toks, i + 2, AstNode.Literal(v), op) == Parsed(AstNode.Literal(v), i + 2);
  }

  /** The `k`-th operator of a chain, its operand, and no stronger operator after it. */
  lemma ChainTokens(toks: seq<Token>, p: nat, vs: seq<Value>, ops: seq<Operator>, k: nat)
    requires OnePrecedenceChain(toks, p, vs, ops) && 0 < k <= |ops|
    ensures var i := p + 2 * (k - 1) + 1;
      toks[i] == Op(ops[k - 1]) && toks[i + 1] == Token.Literal(vs[k]) &&
      !OperatorAtLeast(toks, i + 2, Precedence(ops[k - 1]) + 1)
  {
    var i := p + 2 * (k - 1) + 1;
    assert toks[i] == Op(ops[k - 1]);
    assert toks[i + 1] == Token.Literal(vs[k]);
    if k < |ops| {
      assert toks[i + 2] == Op(ops[k]);
    }
  }

  /** The `k`-th turn of the outer loop over a one-precedence chain folds `op v` onto
      `left`. */
  lemma ChainTurn(toks: seq<Token>, p: nat, vs: seq<Value>, ops: seq<Operator>, k: nat, left: AstNode)
    requires OnePrecedenceChain(toks, p, vs, ops) && k < |ops|
    ensures ExpressionTail(toks, p + 2 * k + 1, left, 0)
         == ExpressionTail(toks, p + 2 * (k + 1) + 1, BinaryOp(left, ops[k], AstNode.Literal(vs[k + 1])), 0)
  {
    ChainTokens(toks, p, vs, ops, k + 1);
    ChainStep(toks, p + 2 * k + 1, left, ops[k], vs[k + 1]);
  }

  /** After the last operand of a chain the outer loop stops. */
  lemma ChainEnd(toks: seq<Token>, p: nat, vs: seq<Value>, ops: seq<Operator>, left: AstNode)
    requires OnePrecedenceChain(toks, p, vs, ops)
    ensures ExpressionTail(toks, p + 2 * |ops| + 1, left, 0) == Parsed(left, p + 2 * |ops| + 1)
  {
  }

  /** Once the first `k` operators of a one-precedence chain are folded into `left`, the
      rest of the loop folds the remaining ones onto it. */
  lemma {:induction false} ChainFrom(toks: seq<Token>, p: nat, vs: seq<Value>, ops: seq<Operator>, k: nat, left: AstNode)
    requires OnePrecedenceChain(toks, p, vs, ops) && k <= |ops|
    requires left == LeftNested(vs, ops, k)
    ensures ExpressionTail(toks, p + 2 * k + 1, left, 0) == Parsed(LeftNested(vs, ops, |ops|), p + 2 * |ops| + 1)
    decreases |ops| - k
  {
    if k < |ops| {
      ChainTurn(toks, p, vs, ops, k, left);
      ChainFrom(toks, p, vs, ops, k + 1, BinaryOp(left, ops[k], AstNode.Literal(vs[k + 1])));
    } else {
      ChainEnd(toks, p, vs, ops, left);
    }
  }

  /** Operators of one precedence group to the left: `8 - 3 - 2` is `(8 - 3) - 2`. */
  lemma LeftAssociative(toks: seq<Token>, p: nat, vs: seq<Value>, ops: seq<Operator>)
    requires OnePrecedenceChain(toks, p, vs, ops)
    ensures ExpressionAt(toks, p) == Parsed(LeftNested(vs, ops, |ops|), p + 2 * |ops| + 1)
  {
    assert toks[p] == Token.Literal(vs[0]);
    assert PrimaryAt(toks, p) == Parsed(AstNode.Literal(vs[0]), p + 1);
    ChainFrom(toks, p, vs, ops, 0, AstNode.Literal(vs[0]));
  }

  /** `1 + 2 * 3`: the product is the right operand of the sum. */
  lemma ProductBindsTighter()
    ensures ExpressionAt([Token.Literal(Integer(1)), Op(Plus), Token.Literal(Integer(2)), Op(Multiply), Token.Literal(Integer(3))], 0)
         == Parsed(BinaryOp(AstNode.Literal(Integer(1)), Plus,
                            BinaryOp(AstNode.Literal(Integer(2)), Multiply, AstNode.Literal(Integer(3)))), 5)
  {
    var toks := [Token.Literal(Integer(1)), Op(Plus), Token.Literal(Integer(2)), Op(Multiply), Token.Literal(Integer(3))];
    var two, three := AstNode.Literal(Integer(2)), AstNode.Literal(Integer(3));
    assert ExpressionTail(toks, 3, two, 1) == Parsed(BinaryOp(two, Multiply, three), 5) by {
      assert PrimaryAt(toks, 4) == Parsed(three, 5);
      assert Climb(toks, 5, three, Multiply) == Parsed(three, 5);
    }
    assert Climb(toks, 3, two, Plus) == Parsed(BinaryOp(two, Multiply, three), 5) by {
      assert Climb(toks, 5, BinaryOp(two, Multiply, three), Plus) == Parsed(BinaryOp(two, Multiply, three), 5);
    }
    assert PrimaryAt(toks, 0) == Parsed(AstNode.Literal(Integer(1)), 1);
    assert PrimaryAt(toks, 2) == Parsed(two, 3);
  }

  /** `(1 + 2) * 3`: parentheses make the sum the left operand of the product. */
  lemma ParenthesesGroup()
    ensures ExpressionAt([LParen, Token.Literal(Integer(1)), Op(Plus), Token.Literal(Integer(2)), RParen, Op(Multiply), Token.Literal(Integer(3))], 0)
         == Parsed(BinaryOp(BinaryOp(AstNode.Literal(Integer(1)), Plus, AstNode.Literal(Integer(2))),
                            Multiply, AstNode.Literal(Integer(3))), 7)
  {
    var toks := [LParen, Token.Literal(Integer(1)), Op(Plus), Token.Literal(Integer(2)), RParen, Op(Multiply), Token.Literal(Integer(3))];
    var one, two, three := AstNode.Literal(Integer(1)), AstNode.Literal(Integer(2)), AstNode.Literal(Integer(3));
    var sum := BinaryOp(one, Plus, two);
    assert ExpressionAt(toks, 1) == Parsed(sum, 4) by {
      assert PrimaryAt(toks, 1) == Parsed(one, 2);
      assert PrimaryAt(toks, 3) == Parsed(two, 4);
      assert Climb(toks, 4, two, Plus) == Parsed(two, 4);
      assert ExpressionTail(toks, 4, sum, 0) == Parsed(sum, 4);
    }
    assert PrimaryAt(toks, 0) == Parsed(sum, 5);
    assert PrimaryAt(toks, 6) == Parsed(three, 7);
    assert Climb(toks, 7, three, Multiply) == Parsed(three, 7);
    assert ExpressionTail(toks, 7, BinaryOp(sum, Multiply, three), 0) == Parsed(BinaryOp(sum, Multiply, three), 7);
  }

  /** `8 - 3 - 2` is `(8 - 3) - 2`. */
  lemma SubtractionGroupsLeft()
    ensures ExpressionAt([Token.Literal(Integer(8)), Op(Minus), Token.Literal(Integer(3)), Op(Minus), Token.Literal(Integer(2))], 0)
         == Parsed(BinaryOp(BinaryOp(AstNode.Literal(Integer(8)), Minus, AstNode.Literal(Integer(3))),
                            Minus, AstNode.Literal(Integer(2))), 5)
  {
    var toks := [Token.Literal(Integer(8)), Op(Minus), Token.Literal(Integer(3)), Op(Minus), Token.Literal(Integer(2))];
    var vs, ops := [Integer(8), Integer(3), Integer(2)], [Minus, Minus];
    assert OnePrecedenceChain(toks, 0, vs, ops);
    LeftAssociative(toks, 0, vs, ops);
    assert LeftNested(vs, ops, 1) == BinaryOp(AstNode.Literal(Integer(8)), Minus, AstNode.Literal(Integer(3)));
  }

  /** A primary expression starts exactly at a literal, an identifier, `(` or `[`; that
      is the only way an expression can be absent, and an absent one consumes nothing. */
  lemma NoPrimary(toks: seq<Token>, p: nat)
    requires p <= |toks|
    ensures PrimaryAt(toks, p).NoParse? <==>
            p == |toks| || !(toks[p].Literal? || toks[p].Ident? || toks[p] == LParen || toks[p] == LSquareParen)
    ensures ExpressionAt(toks, p).NoParse? <==> PrimaryAt(toks, p).NoParse?
  {
  }

  /** An identifier followed by `(` is a call with the arguments up to `)`; otherwise it
      is a variable and only the identifier is consumed. */
  lemma IdentifierPrimary(toks: seq<Token>, p: nat, name: string)
    requires p < |toks| && toks[p] == Ident(name)
    ensures p + 1 < |toks| && toks[p + 1] == LParen ==>
      PrimaryAt(toks, p) == match CommaList(toks, p + 2, RParen)
                            case Parsed(args, q) => Parsed(FunctionCall(name, args), q)
                            case NoParse => NoParse
                            case Fatal(e) => Fatal(e)
    ensures !(p + 1 < |toks| && toks[p + 1] == LParen) ==> PrimaryAt(toks, p) == Parsed(Variable(name), p + 1)
  {
  }

  /** `( expr )` is `expr` itself, with no node of its own; without the `)` it is fatal. */
  lemma ParenthesisedPrimary(toks: seq<Token>, p: nat)
    requires p < |toks| && toks[p] == LParen && ExpressionAt(toks, p + 1).Parsed?
    ensures var inner := ExpressionAt(toks, p + 1);
      (inner.next < |toks| && toks[inner.next] == RParen ==> PrimaryAt(toks, p) == Parsed(inner.value, inner.next + 1)) &&
      (inner.next == |toks| ==> PrimaryAt(toks, p) == Fatal(ExpectedClosingParen(None))) &&
      (inner.next < |toks| && toks[inner.next] != RParen ==>
         PrimaryAt(toks, p) == Fatal(ExpectedClosingParen(Some(toks[inner.next]))))
  {
  }

  /** An operator with no primary expression after it is fatal. */
  lemma OperatorNeedsOperand(toks: seq<Token>, p: nat, left: AstNode, min: nat)
    requires p < |toks| && OperatorAtLeast(toks, p, min) && PrimaryAt(toks, p + 1).NoParse?
    ensures ExpressionTail(toks, p, left, min) == Fatal(ExpectedOperand)
  {
  }

  /** The tokens from `p` are the literals `vs` separated by commas, then an optional
      trailing comma, then `end`. */
  ghost predicate LiteralListAt(toks: seq<Token>, p: nat, vs: seq<Value>, trailing: bool, end: Token) {
    var last := p + 2 * |vs| - (if |vs| > 0 && !trailing then 1 else 0);
    last < |toks| && toks[last] == end &&
    (forall k :: 0 <= k < |vs| ==> toks[p + 2 * k] == Token.Literal(vs[k])) &&
    (forall k :: 0 <= k < |vs| && (k + 1 < |vs| || trailing) ==> toks[p + 2 * k + 1] == Comma)
  }

  function Literals(vs: seq<Value>): (r: seq<AstNode>)
    ensures |r| == |vs|
  {
    if vs == [] then [] else [AstNode.Literal(vs[0])] + Literals(vs[1..])
  }

  /** A literal with no operator after it is a whole expression. */
  lemma LiteralElement(toks: seq<Token>, p: nat, v: Value)
    requires p < |toks| && toks[p] == Token.Literal(v) && (p + 1 == |toks| || !toks[p + 1].Op?)
    ensures ExpressionAt(toks, p) == Parsed(AstNode.Literal(v), p + 1)
  {
    assert PrimaryAt(toks, p) == Parsed(AstNode.Literal(v), p + 1);
  }

  /** The first literal of a list, and what follows it. */
  lemma LiteralListHead(toks: seq<Token>, p: nat, vs: seq<Value>, trailing: bool, end: Token)
    requires LiteralListAt(toks, p, vs, trailing, end) && |vs| > 0
    requires end == RParen || end == RSquareParen
    ensures p + 1 < |toks| && toks[p] == Token.Literal(vs[0]) && !toks[p + 1].Op? && toks[p] != end
    ensures !(|vs| > 1 || trailing) ==> toks[p + 1] == end
  {
    var first := 0;
    assert toks[p + 2 * first] == Token.Literal(vs[first]);
    if |vs| > 1 || trailing {
      assert toks[p + 2 * first + 1] == Comma;
    }
  }

  /** Past the first literal and its comma, the rest of the list. */
  lemma LiteralListTail(toks: seq<Token>, p: nat, vs: seq<Value>, trailing: bool, end: Token)
    requires LiteralListAt(toks, p, vs, trailing, end) && |vs| > 0 && (|vs| > 1 || trailing)
    ensures toks[p + 1] == Comma && LiteralListAt(toks, p + 2, vs[1..], trailing, end)
  {
    var first := 0;
    assert toks[p + 2 * first + 1] == Comma;
    forall k | 0 <= k < |vs[1..]|
      ensures toks[p + 2 + 2 * k] == Token.Literal(vs[1..][k])
    {
      assert toks[p + 2 * (k + 1)] == Token.Literal(vs[k + 1]);
    }
    forall k | 0 <= k < |vs[1..]| && (k + 1 < |vs[1..]| || trailing)
      ensures toks[p + 2 + 2 * k + 1] == Comma
    {
      assert toks[p + 2 * (k + 1) + 1] == Comma;
    }
  }

  /** A comma-separated list of literals: `end` at once is the empty list, each element is
      kept in order, a single trailing comma is accepted, and `end` is consumed. */
  lemma {:induction false} LiteralList(toks: seq<Token>, p: nat, vs: seq<Value>, trailing: bool, end: Token)
    requires LiteralListAt(toks, p, vs, trailing, end)
    requires end == RParen || end == RSquareParen
    ensures CommaList(toks, p, end) ==
            Parsed(Literals(vs), p + 2 * |vs| - (if |vs| > 0 && !trailing then 1 else 0) + 1)
    decreases |vs|
  {
    if |vs| > 0 {
      var v := vs[0];
      LiteralListHead(toks, p, vs, trailing, end);
      LiteralElement(toks, p, v);
      CommaListAfterElement(toks, p, end);
      if |vs| > 1 || trailing {
        LiteralListTail(toks, p, vs, trailing, end);
        LiteralList(toks, p + 2, vs[1..], trailing, end);
        assert Literals(vs) == [AstNode.Literal(v)] + Literals(vs[1..]);
      } else {
        assert Literals(vs) == [AstNode.Literal(v)];
      }
    }
  }

  /** An element followed by anything but `,` or `end` is fatal. */
  lemma ListNeedsSeparator(toks: seq<Token>, p: nat, end: Token)
    requires p < |toks| && toks[p] != end && ExpressionAt(toks, p).Parsed?
    requires var q := ExpressionAt(toks, p).next; q == |toks| || (toks[q] != Comma && toks[q] != end)
    ensures CommaList(toks, p, end) == Fatal(ExpectedCommaOrEnd)
  {
  }

  /** `[` and a list of literals is one `List` node holding the literals in order, with or
      without a trailing comma; the closing `]` is consumed. */
  lemma BracketedLiterals(toks: seq<Token>, p: nat, vs: seq<Value>, trailing: bool)
    requires p < |toks| && toks[p] == LSquareParen && LiteralListAt(toks, p + 1, vs, trailing, RSquareParen)
    ensures PrimaryAt(toks, p) ==
            Parsed(AstNode.List(Literals(vs)), p + 1 + 2 * |vs| - (if |vs| > 0 && !trailing then 1 else 0) + 1)
  {
    LiteralList(toks, p + 1, vs, trailing, RSquareParen);
  }

  /** The statements `parse` returns are assignments and calls only. */
  lemma {:induction false} OnlyStatements(toks: seq<Token>, p: nat)
    requires p <= |toks|
    ensures Block(toks, p).Ok? ==>
            forall k :: 0 <= k < |Block(toks, p).value| ==> Block(toks, p).value[k].Assign? || Block(toks, p).value[k].FunctionCall?
    decreases |toks| - p
  {
    if p < |toks| {
      match toks[p]
      case Ident(name) =>
        if p + 1 < |toks| {
          if toks[p + 1] == Token.Assign {
            var e := ExpressionAt(toks, p + 2);
            if e.Parsed? {
              OnlyStatements(toks, e.next);
            }
          } else {
            var c := FunctionCallAt(toks, p + 1, name);
            if c.Parsed? {
              OnlyStatements(toks, c.next);
            }
          }
        }
      case Eol => OnlyStatements(toks, p + 1);
      case _ =>
    }
  }

  /** How a statement starts: `Eol` is skipped, an identifier needs a token after it, and
      any other token is fatal. */
  lemma StatementStart(toks: seq<Token>, p: nat)
    requires p < |toks|
    ensures toks[p] == Eol ==> Block(toks, p) == Block(toks, p + 1)
    ensures toks[p].Ident? && p + 1 == |toks| ==> Block(toks, p) == Err(MissingTokenAfterIdent)
    ensures !toks[p].Ident? && toks[p] != Eol ==> Block(toks, p) == Err(TokenNotAllowed(toks[p]))
    ensures toks[p].Ident? && p + 1 < |toks| && toks[p + 1] != Token.Assign && toks[p + 1] != LParen ==>
            Block(toks, p) == Err(TokenNotAllowedAfterIdent(toks[p + 1]))
  {
  }

  /** `x = 1 print(x)`: an assignment, then a call, in source order. */
  lemma AssignThenCall()
    ensures Block([Ident("x"), Token.Assign, Token.Literal(Integer(1)), Ident("print"), LParen, Ident("x"), RParen], 0)
         == Ok([AstNode.Assign("x", AstNode.Literal(Integer(1))), FunctionCall("print", [Variable("x")])])
  {
    var toks := [Ident("x"), Token.Assign, Token.Literal(Integer(1)), Ident("print"), LParen, Ident("x"), RParen];
    assert ExpressionAt(toks, 2) == Parsed(AstNode.Literal(Integer(1)), 3) by {
      assert PrimaryAt(toks, 2) == Parsed(AstNode.Literal(Integer(1)), 3);
    }
    assert CommaList(toks, 5, RParen) == Parsed([Variable("x")], 7) by {
      assert FunctionCallAt(toks, 6, "x") == NoParse;
      assert PrimaryAt(toks, 5) == Parsed(Variable("x"), 6);
      assert ExpressionAt(toks, 5) == Parsed(Variable("x"), 6);
    }
    assert FunctionCallAt(toks, 4, "print") == Parsed(FunctionCall("print", [Variable("x")]), 7);
    assert Block(toks, 7) == Ok([]);
    assert [FunctionCall("print", [Variable("x")])] + [] == [FunctionCall("print", [Variable("x")])];
    assert [AstNode.Assign("x", AstNode.Literal(Integer(1)))] + [FunctionCall("print", [Variable("x")])]
        == [AstNode.Assign("x", AstNode.Literal(Integer(1))), FunctionCall("print", [Variable("x")])];
    assert Block(toks, 3) == Ok([FunctionCall("print", [Variable("x")])]);
  }
}
