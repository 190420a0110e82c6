/** The parser of eerolang (ast_parser.rs): recursive descent over a token cursor, with
    precedence climbing for the binary operators.

    The cursor is an index into the token sequence. Each parsing routine of the source is
    specified by a function of the tokens and the index it starts at (`CommaList`,
    `FunctionCallAt`, `PrimaryAt`, `ExpressionAt`, `ExpressionTail`, `Climb`, `Block`),
    whose `PResult` says what the routine returns and where it leaves the cursor. The
    methods (`ParseCommaSeparatedList`, ..., `Parse`) are the source's loops over that
    cursor, each proved to compute its function. The source's `panic!`, `unwrap` and
    `expect` failures are the `Fatal` results. */
module AstParser {
  import opened Wrappers
  import opened Tokenizer

  datatype AstNode =
    | Assign(name: string, value: AstNode)
    | FunctionCall(name: string, args: seq<AstNode>)
    | BinaryOp(left: AstNode, op: Operator, right: AstNode)
    | List(elements: seq<AstNode>)
    | Literal(literal: Value)
    | Variable(name: string)

  /** The ways the parser aborts. */
  datatype ParseError =
      /** `parse_expression(..).unwrap()` found no expression. */
    | ExpectedExpression
      /** An element of a list is followed by neither `,` nor the closing token. */
    | ExpectedCommaOrEnd
      /** `(expr` is not followed by `)`; `None` when the tokens ran out. */
    | ExpectedClosingParen(found: Option<Token>)
      /** An operator is not followed by a primary expression. */
    | ExpectedOperand
      /** A statement's identifier is the last token. */
    | MissingTokenAfterIdent
      /** A statement's identifier is followed by neither `=` nor `(`. */
    | TokenNotAllowedAfterIdent(token: Token)
      /** A statement starts with a token other than an identifier. */
    | TokenNotAllowed(token: Token)

  /** What a parsing routine started at some index does: it parses `value` and leaves the
      cursor at `next`, finds nothing to parse there (the source's `None`, with nothing
      consumed), or aborts. */
  datatype PResult<+T> = Parsed(value: T, next: nat) | NoParse | Fatal(error: ParseError)

  /** `parse_comma_separated_list`: elements separated by `,` up to `end`, a single `,`
      allowed before `end`; `end` is consumed. */
  function CommaList(toks: seq<Token>, p: nat, end: Token): (r: PResult<seq<AstNode>>)
    requires p <= |toks|
    ensures !r.NoParse?
    ensures r.Parsed? ==> p < r.next <= |toks|
    decreases |toks| - p, 5
  {
    if p < |toks| && toks[p] == end then Parsed([], p + 1)
    else
      match ExpressionAt(toks, p)
      case NoParse => Fatal(ExpectedExpression)
      case Fatal(e) => Fatal(e)
      case Parsed(element, q) =>
        if q < |toks| && toks[q] == Comma then
          match CommaList(toks, q + 1, end)
          case Parsed(elements, r) => Parsed([element] + elements, r)
          case NoParse => NoParse
          case Fatal(e) => Fatal(e)
        else if q < |toks| && toks[q] == end then Parsed([element], q + 1)
        else Fatal(ExpectedCommaOrEnd)
  }

  /** `parse_function_call`, called just past an identifier: a call when `(` follows,
      otherwise nothing (and nothing consumed). */
  function FunctionCallAt(toks: seq<Token>, p: nat, name: string): (r: PResult<AstNode>)
    requires p <= |toks|
    ensures r.Parsed? ==> p < r.next <= |toks| && r.value.FunctionCall? && r.value.name == name
    decreases |toks| - p, 5
  {
    if p < |toks| && toks[p] == LParen then
      match CommaList(toks, p + 1, RParen)
      case Parsed(args, q) => Parsed(FunctionCall(name, args), q)
      case NoParse => NoParse
      case Fatal(e) => Fatal(e)
    else NoParse
  }

  /** `parse_primary_expression`: a literal, a variable, a call, a parenthesised
      expression or a bracketed list. */
  function PrimaryAt(toks: seq<Token>, p: nat): (r: PResult<AstNode>)
    requires p <= |toks|
    ensures r.Parsed? ==> p < r.next <= |toks|
    decreases |toks| - p, 3
  {
    if p == |toks| then NoParse
    else
      match toks[p]
      case Literal(v) => Parsed(AstNode.Literal(v), p + 1)
      case Ident(name) =>
        (match FunctionCallAt(toks, p + 1, name)
         case Parsed(call, q) => Parsed(call, q)
         case NoParse => Parsed(Variable(name), p + 1)
         case Fatal(e) => Fatal(e))
      case LParen =>
        (match ExpressionAt(toks, p + 1)
         case NoParse => Fatal(ExpectedExpression)
         case Fatal(e) => Fatal(e)
         case Parsed(inner, q) =>
           if q == |toks| then Fatal(ExpectedClosingParen(None))
           else if toks[q] != RParen then Fatal(ExpectedClosingParen(Some(toks[q])))
           else Parsed(inner, q + 1))
      case LSquareParen =>
        (match CommaList(toks, p + 1, RSquareParen)
         case Parsed(elements, q) => Parsed(AstNode.List(elements), q)
         case NoParse => NoParse
         case Fatal(e) => Fatal(e))
      case _ => NoParse
  }

  /** `parse_expression`: a primary expression and the operators that follow it. */
  function ExpressionAt(toks: seq<Token>, p: nat): (r: PResult<AstNode>)
    requires p <= |toks|
    ensures r.Parsed? ==> p < r.next <= |toks|
    decreases |toks| - p, 4
  {
    match PrimaryAt(toks, p)
    case NoParse => NoParse
    case Fatal(e) => Fatal(e)
    case Parsed(left, q) => ExpressionTail(toks, q, left, 0)
  }

  /** Whether the token at `p` is an operator binding at least as strongly as `min`. */
  predicate OperatorAtLeast(toks: seq<Token>, p: nat, min: nat) {
    p < |toks| && toks[p].Op? && Precedence(toks[p].op) >= min
  }

  /** The outer loop of `parse_expression_impl`: while an operator of precedence at least
      `min` follows, it takes the operator and its right operand and makes `left` the
      binary node of the two. */
  function ExpressionTail(toks: seq<Token>, p: nat, left: AstNode, min: nat): (r: PResult<AstNode>)
    requires p <= |toks|
    ensures !r.NoParse?
    ensures r.Parsed? ==> p <= r.next <= |toks|
    ensures r.Parsed? && OperatorAtLeast(toks, p, min) ==> p < r.next
    decreases |toks| - p, 1
  {
    if OperatorAtLeast(toks, p, min) then
      var op := toks[p].op;
      match PrimaryAt(toks, p + 1)
      case NoParse => Fatal(ExpectedOperand)
      case Fatal(e) => Fatal(e)
      case Parsed(right, q) =>
        match Climb(toks, q, right, op)
        case Parsed(right', q') => ExpressionTail(toks, q', BinaryOp(left, op, right'), min)
        case NoParse => NoParse
        case Fatal(e) => Fatal(e)
    else Parsed(left, p)
  }

  /** The inner loop of `parse_expression_impl`: while an operator binding more strongly
      than `op` follows, the right operand absorbs it and its own operands. */
  function Climb(toks: seq<Token>, p: nat, right: AstNode, op: Operator): (r: PResult<AstNode>)
    requires p <= |toks|
    ensures !r.NoParse?
    ensures r.Parsed? ==> p <= r.next <= |toks|
    decreases |toks| - p, 2
  {
    if OperatorAtLeast(toks, p, Precedence(op) + 1) then
      match ExpressionTail(toks, p, right, Precedence(toks[p].op))
      case Parsed(right', q) => Climb(toks, q, right', op)
      case NoParse => NoParse
      case Fatal(e) => Fatal(e)
    else Parsed(right, p)
  }

  /** `parse`, from index `p`: statements in order, each `name = expr` or a call; an `Eol`
      is skipped. */
  function Block(toks: seq<Token>, p: nat): (r: Result<seq<AstNode>, ParseError>)
    requires p <= |toks|
    decreases |toks| - p
  {
    if p == |toks| then Ok([])
    else
      match toks[p]
      case Ident(name) =>
        (if p + 1 == |toks| then Err(MissingTokenAfterIdent)
        else if toks[p + 1] == Token.Assign then
          match ExpressionAt(toks, p + 2)
          case NoParse => Err(ExpectedExpression)
          case Fatal(e) => Err(e)
          case Parsed(value, q) => PrependNode(AstNode.Assign(name, value), Block(toks, q))
        else
          match FunctionCallAt(toks, p + 1, name)
          case NoParse => Err(TokenNotAllowedAfterIdent(toks[p + 1]))
          case Fatal(e) => Err(e)
          case Parsed(call, q) => PrependNode(call, Block(toks, q)))
      case Eol => Block(toks, p + 1)
      case _ => Err(TokenNotAllowed(toks[p]))
  }

  /** `node` in front of the statements of a successful parse; an error stays an error. */
  function PrependNode(node: AstNode, r: Result<seq<AstNode>, ParseError>): Result<seq<AstNode>, ParseError> {
    match r
    case Ok(nodes) => Ok([node] + nodes)
    case Err(e) => Err(e)
  }

  /** The list loop: `elements` parsed so far followed by what the loop parses from `p`. */
  function PrependElements(elements: seq<AstNode>, r: PResult<seq<AstNode>>): PResult<seq<AstNode>> {
    match r
    case Parsed(rest, q) => Parsed(elements + rest, q)
    case NoParse => NoParse
    case Fatal(e) => Fatal(e)
  }

  lemma PrependElementsStep(elements: seq<AstNode>, element: AstNode, r: PResult<seq<AstNode>>)
    ensures PrependElements(elements, PrependElements([element], r)) == PrependElements(elements + [element], r)
  {
    if r.Parsed? {
      assert elements + ([element] + r.value) == (elements + [element]) + r.value;
    }
  }

  /** One turn of the list loop: an element and what follows it. */
  lemma CommaListAfterElement(toks: seq<Token>, p: nat, end: Token)
    requires p <= |toks| && !(p < |toks| && toks[p] == end) && ExpressionAt(toks, p).Parsed?
    ensures var q := ExpressionAt(toks, p).next;
      var element := ExpressionAt(toks, p).value;
      CommaList(toks, p, end) ==
        if q < |toks| && toks[q] == Comma then PrependElements([element], CommaList(toks, q + 1, end))
        else if q < |toks| && toks[q] == end then Parsed([element], q + 1)
        else Fatal(ExpectedCommaOrEnd)
  {
  }

  /** One turn of the list loop with `elements` already parsed: it stops at a missing or
      failed element and at `end`, and goes on after a `,`. */
  lemma CommaListTurn(toks: seq<Token>, p: nat, end: Token, elements: seq<AstNode>)
    requires p <= |toks| && !(p < |toks| && toks[p] == end)
    ensures ExpressionAt(toks, p).NoParse? ==>
      PrependElements(elements, CommaList(toks, p, end)) == Fatal(ExpectedExpression)
    ensures ExpressionAt(toks, p).Fatal? ==>
      PrependElements(elements, CommaList(toks, p, end)) == Fatal(ExpressionAt(toks, p).error)
    ensures ExpressionAt(toks, p).Parsed? ==>
      var q := ExpressionAt(toks, p).next;
      var element := ExpressionAt(toks, p).value;
      PrependElements(elements, CommaList(toks, p, end)) ==
        if q < |toks| && toks[q] == Comma then PrependElements(elements + [element], CommaList(toks, q + 1, end))
        else if q < |toks| && toks[q] == end then Parsed(elements + [element], q + 1)
        else Fatal(ExpectedCommaOrEnd)
  {
    if ExpressionAt(toks, p).Parsed? {
      var q := ExpressionAt(toks, p).next;
      CommaListAfterElement(toks, p, end);
      if q < |toks| && toks[q] == Comma {
        PrependElementsStep(elements, ExpressionAt(toks, p).value, CommaList(toks, q + 1, end));
      }
    }
  }

  lemma PrependNothing(r: PResult<seq<AstNode>>)
    ensures PrependElements([], r) == r
  {
    if r.Parsed? {
      assert [] + r.value == r.value;
    }
  }

  /** The list loop meets `end`: the elements so far are the list. */
  lemma CommaListAtEnd(toks: seq<Token>, p: nat, end: Token, elements: seq<AstNode>)
    requires p < |toks| && toks[p] == end
    ensures PrependElements(elements, CommaList(toks, p, end)) == Parsed(elements, p + 1)
  {
    assert elements + [] == elements;
  }

  /** `parse_comma_separated_list`: its loop pushes each element onto `elements`. */
  method ParseCommaSeparatedList(toks: seq<Token>, p: nat, end: Token) returns (r: PResult<seq<AstNode>>)
    requires p <= |toks|
    ensures r == CommaList(toks, p, end)
    decreases |toks| - p, 5
  {
    var elements: seq<AstNode> := [];
    var pos := p;
    PrependNothing(CommaList(toks, p, end));
    while true
      invariant p <= pos <= |toks|
      invariant CommaList(toks, p, end) == PrependElements(elements, CommaList(toks, pos, end))
      decreases |toks| - pos
    {
      if pos < |toks| && toks[pos] == end {
        CommaListAtEnd(toks, pos, end, elements);
        return Parsed(elements, pos + 1);
      }
      var element := ParseExpression(toks, pos);
      CommaListTurn(toks, pos, end, elements);
      match element {
        case NoParse => return Fatal(ExpectedExpression);
        case Fatal(e) => return Fatal(e);
        case Parsed(e, q) =>
          if q < |toks| && toks[q] == Comma {
            elements := elements + [e];
            pos := q + 1;
          } else if q < |toks| && toks[q] == end {
            return Parsed(elements + [e], q + 1);
          } else {
            return Fatal(ExpectedCommaOrEnd);
          }
      }
    }
  }

  /** `parse_function_call`. */
  method ParseFunctionCall(toks: seq<Token>, p: nat, name: string) returns (r: PResult<AstNode>)
    requires p <= |toks|
    ensures r == FunctionCallAt(toks, p, name)
    decreases |toks| - p, 5
  {
    if p < |toks| && toks[p] == LParen {
      var args := ParseCommaSeparatedList(toks, p + 1, RParen);
      match args {
        case Parsed(a, q) => return Parsed(FunctionCall(name, a), q);
        case Fatal(e) => return Fatal(e);
      }
    }
    return NoParse;
  }

  /** `parse_primary_expression`. */
  method ParsePrimaryExpression(toks: seq<Token>, p: nat) returns (r: PResult<AstNode>)
    requires p <= |toks|
    ensures r == PrimaryAt(toks, p)
    decreases |toks| - p, 3
  {
    if p == |toks| {
      return NoParse;
    }
    match toks[p] {
      case Literal(v) =>
        return Parsed(AstNode.Literal(v), p + 1);
      case Ident(name) =>
        var call := ParseFunctionCall(toks, p + 1, name);
        if call.NoParse? {
          return Parsed(Variable(name), p + 1);
        }
        return call;
      case LParen =>
        var inner := ParseExpression(toks, p + 1);
        match inner {
          case NoParse => return Fatal(ExpectedExpression);
          case Fatal(e) => return Fatal(e);
          case Parsed(e, q) =>
            if q == |toks| {
              return Fatal(ExpectedClosingParen(None));
            } else if toks[q] != RParen {
              return Fatal(ExpectedClosingParen(Some(toks[q])));
            }
            return Parsed(e, q + 1);
        }
      case LSquareParen =>
        var elements := ParseCommaSeparatedList(toks, p + 1, RSquareParen);
        match elements {
          case Parsed(es, q) => return Parsed(AstNode.List(es), q);
          case Fatal(e) => return Fatal(e);
        }
      case _ =>
        return NoParse;
    }
  }

  /** `parse_expression`. */
  method ParseExpression(toks: seq<Token>, p: nat) returns (r: PResult<AstNode>)
    requires p <= |toks|
    ensures r == ExpressionAt(toks, p)
    decreases |toks| - p, 4
  {
    var left := ParsePrimaryExpression(toks, p);
    match left {
      case NoParse => return NoParse;
      case Fatal(e) => return Fatal(e);
      case Parsed(l, q) =>
        r := ParseExpressionImpl(toks, q, l, 0);
    }
  }

  /** `parse_expression_impl`: the outer loop reassigns `left`, the inner one `right`,
      recursing on a more strongly binding operator. */
  method ParseExpressionImpl(toks: seq<Token>, p: nat, left0: AstNode, min: nat) returns (r: PResult<AstNode>)
    requires p <= |toks|
    ensures r == ExpressionTail(toks, p, left0, min)
    decreases |toks| - p, 1
  {
    var left := left0;
    var pos := p;
    while OperatorAtLeast(toks, pos, min)
      invariant p <= pos <= |toks|
      invariant ExpressionTail(toks, p, left0, min) == ExpressionTail(toks, pos, left, min)
      decreases |toks| - pos
    {
      var op := toks[pos].op;
      var operand := ParsePrimaryExpression(toks, pos + 1);
      if operand.NoParse? {
        return Fatal(ExpectedOperand);
      } else if operand.Fatal? {
        return Fatal(operand.error);
      }
      var right := operand.value;
      var q := operand.next;
      ghost var q0, right0 := q, right;
      while OperatorAtLeast(toks, q, Precedence(op) + 1)
        invariant q0 <= q <= |toks|
        invariant Climb(toks, q0, right0, op) == Climb(toks, q, right, op)
        decreases |toks| - q
      {
        var absorbed := ParseExpressionImpl(toks, q, right, Precedence(toks[q].op));
        if absorbed.Fatal? {
          return Fatal(absorbed.error);
        }
        right := absorbed.value;
        q := absorbed.next;
      }
      left := BinaryOp(left, op, right);
      pos := q;
    }
    return Parsed(left, pos);
  }

  /** `parse`: the statement loop, pushing each statement onto `block`. */
  method Parse(toks: seq<Token>) returns (r: Result<seq<AstNode>, ParseError>)
    ensures r == Block(toks, 0)
  {
    var block: seq<AstNode> := [];
    var pos := 0;
    assert Block(toks, 0).Ok? ==> [] + Block(toks, 0).value == Block(toks, 0).value;
    while pos < |toks|
      invariant pos <= |toks|
      invariant Block(toks, 0) == PrependBlock(block, Block(toks, pos))
      decreases |toks| - pos
    {
      match toks[pos] {
        case Ident(name) =>
          if pos + 1 == |toks| {
            return Err(MissingTokenAfterIdent);
          }
          var statement;
          if toks[pos + 1] == Token.Assign {
            var value := ParseExpression(toks, pos + 2);
            if value.NoParse? {
              return Err(ExpectedExpression);
            } else if value.Fatal? {
              return Err(value.error);
            }
            statement := Parsed(AstNode.Assign(name, value.value), value.next);
          } else {
            statement := ParseFunctionCall(toks, pos + 1, name);
            if statement.NoParse? {
              return Err(TokenNotAllowedAfterIdent(toks[pos + 1]));
            } else if statement.Fatal? {
              return Err(statement.error);
            }
          }
          PrependBlockStep(block, statement.value, Block(toks, statement.next));
          block := block + [statement.value];
          pos := statement.next;
        case Eol =>
          pos := pos + 1;
        case _ =>
          return Err(TokenNotAllowed(toks[pos]));
      }
    }
    assert block + [] == block;
    return Ok(block);
  }

  /** The statement loop: `block` parsed so far followed by the statements from `p`. */
  function PrependBlock(block: seq<AstNode>, r: Result<seq<AstNode>, ParseError>): Result<seq<AstNode>, ParseError> {
    match r
    case Ok(nodes) => Ok(block + nodes)
    case Err(e) => Err(e)
  }

  lemma PrependBlockStep(block: seq<AstNode>, node: AstNode, r: Result<seq<AstNode>, ParseError>)
    ensures PrependBlock(block, PrependNode(node, r)) == PrependBlock(block + [node], r)
  {
    if r.Ok? {
      assert block + ([node] + r.value) == (block + [node]) + r.value;
    }
  }
}
