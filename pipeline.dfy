/** What `main` does with a source text: tokenize it, parse the tokens into a block and
    run the block in a fresh `Program`. Reading the source file and the command line are
    left to the caller; the file system `readfile` sees is `files`. */
module Pipeline {
  import opened Wrappers
  import opened Tokenizer
  import opened AstParser
  import opened Builtins
  import opened Interpreter
  import ParserFacts

  /** The stage that aborted the program. */
  datatype Failure =
    | LexFailed(lexError: LexError)
    | ParseFailed(parseError: ParseError)
    | RuntimeFailed(runtimeError: RuntimeError)

  /** What the program's statements write to stdout, and the failure it aborts with,
      if any. */
  datatype Outcome = Outcome(output: string, failure: Option<Failure>)

  /** Running a parsed block from an empty variable table. */
  function RunBlock(block: seq<AstNode>, files: map<string, string>): Outcome {
    var run := ExecFrom(files, block, 0, map[]);
    Outcome(run.output, match run.error case None => None case Some(e) => Some(RuntimeFailed(e)))
  }

  /** Parsing the tokens and running the block. */
  function RunTokens(toks: seq<Token>, files: map<string, string>): Outcome {
    match Block(toks, 0)
    case Err(e) => Outcome("", Some(ParseFailed(e)))
    case Ok(block) => RunBlock(block, files)
  }

  /** The whole program on a source text. */
  function RunSource(source: string, files: map<string, string>): Outcome {
    match Lex(source, 0)
    case Err(e) => Outcome("", Some(LexFailed(e)))
    case Ok(toks) => RunTokens(toks, files)
  }

  /** `main` after the source is read. */
  method RunProgram(source: string, files: map<string, string>) returns (output: string, failure: Option<Failure>)
    ensures Outcome(output, failure) == RunSource(source, files)
  {
    var tokens := Tokenize(source);
    if tokens.Err? {
      return "", Some(LexFailed(tokens.error));
    }
    var block := Parse(tokens.value);
    if block.Err? {
      return "", Some(ParseFailed(block.error));
    }
    var program := new Program(block.value, files);
    var error := program.Execute();
    output := program.output;
    failure := if error.Some? then Some(RuntimeFailed(error.value)) else None;
    assert "" + ExecFrom(files, block.value, 0, map[]).output == ExecFrom(files, block.value, 0, map[]).output;
  }

  /** Nothing runs before the whole source is tokenized and parsed: a program that does
      not tokenize or parse writes no program output. */
  lemma NothingRunsBeforeParsing(source: string, files: map<string, string>)
    ensures RunSource(source, files).failure.Some? && RunSource(source, files).failure.value.LexFailed?
        <==> Lex(source, 0).Err?
    ensures Lex(source, 0).Err? || Block(Lex(source, 0).value, 0).Err? ==> RunSource(source, files).output == ""
  {
  }

  /** The block `x = 1 print(x)` writes `1` and a newline and leaves `x` bound to 1. */
  lemma AssignThenPrintRuns(files: map<string, string>)
    ensures ExecFrom(files, [AstNode.Assign("x", AstNode.Literal(Integer(1))), FunctionCall("print", [Variable("x")])], 0, map[])
         == Run(map["x" := Integer(1)], "1\n", None)
  {
    var assign := AstNode.Assign("x", AstNode.Literal(Integer(1)));
    var call := FunctionCall("print", [Variable("x")]);
    var block := [assign, call];
    var vars := map["x" := Integer(1)];
    assert ExecStatement(files, map[], assign) == Eval("", Ok(vars));
    assert EvalList(files, vars, [Variable("x")]) == Eval("", Ok([Integer(1)])) by {
      assert [Variable("x")][1..] == [];
      assert EvalExpr(files, vars, Variable("x")) == Eval("", Ok(Integer(1)));
      assert [Integer(1)] + [] == [Integer(1)];
    }
    assert Render([Integer(1)]) == "1\n" by {
      assert NatToString(1) == "1";
      assert [Integer(1)][1..] == [];
    }
    assert ExecStatement(files, vars, call) == Eval("1\n", Ok(vars));
    assert ExecFrom(files, block, 2, vars) == Run(vars, "", None);
    assert ExecFrom(files, block, 1, vars) == Run(vars, "1\n", None);
  }

  /** The tokens of `x = 1 print(x)` write `1` and a newline. */
  lemma AssignThenPrint(files: map<string, string>)
    ensures RunTokens([Ident("x"), Token.Assign, Token.Literal(Integer(1)), Ident("print"), LParen, Ident("x"), RParen], files)
         == Outcome("1\n", None)
  {
    ParserFacts.AssignThenCall();
    AssignThenPrintRuns(files);
  }
}
