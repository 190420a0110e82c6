/** The lexer of eerolang (tokenizer.rs): the token and value datatypes, the operator
    precedence table, and `tokenize`, a left-to-right scanner over the characters of the
    source text.

    The specification of the scanner is `Lex(s, i)`, the tokens of the text `s` from index
    `i` on: it reads the lexeme that starts at `i` (`Step`) and continues where that lexeme
    ends. `Tokenize` is the scanner's loop over an index into the text; it is proved to
    compute `Lex(source, 0)`. The character classes are the ASCII ones. */
module Tokenizer {
  import opened Wrappers

  /** The four binary operators. */
  datatype Operator = Plus | Minus | Multiply | Divide

  /** Binding strength: the additive operators rank 0, the multiplicative ones rank 1. */
  function Precedence(op: Operator): (r: nat)
    ensures r <= 1
    ensures r == 1 <==> op.Multiply? || op.Divide?
  {
    match op
    case Plus | Minus => 0
    case Multiply | Divide => 1
  }

  const I64_MIN: int := -0x8000_0000_0000_0000
  const I64_MAX: int := 0x7FFF_FFFF_FFFF_FFFF

  /** The range of the source's 64-bit signed integers. */
  predicate InI64(n: int) {
    I64_MIN <= n <= I64_MAX
  }

  /** A runtime value. Lists have value semantics (no operation of the language mutates a
      list, so the source's shared list cells cannot be told apart from copies). A Float
      is a bare tag: its numeric value is not modelled. */
  datatype Value = Integer(i: int) | Float | String(s: string) | List(items: seq<Value>)

  datatype Token =
    | Assign
    | Op(op: Operator)
    | LParen
    | RParen
    | LSquareParen
    | RSquareParen
    | LBrace
    | RBrace
    | Comma
    | Literal(value: Value)
    | Ident(name: string)
    | KeywordFor
    | KeywordIn
      /** End of line: the parser skips it, but no rule of the lexer produces it. */
    | Eol

  datatype LexError = UnexpectedCharacter(ch: char) | InvalidIntegerLiteral(text: string)

  predicate IsAlphabetic(c: char) {
    'a' <= c <= 'z' || 'A' <= c <= 'Z'
  }

  predicate IsDigit(c: char) {
    '0' <= c <= '9'
  }

  predicate IsAlphanumeric(c: char) {
    IsAlphabetic(c) || IsDigit(c)
  }

  predicate IsWhitespace(c: char) {
    c == ' ' || c == '\t' || c == '\n' || c == '\r' || c == '\U{0B}' || c == '\U{0C}'
  }

  /** The token of each of the twelve punctuation characters. */
  function SingleCharToken(c: char): Option<Token> {
    match c
    case '=' => Some(Assign)
    case '+' => Some(Op(Plus))
    case '-' => Some(Op(Minus))
    case '*' => Some(Op(Multiply))
    case '/' => Some(Op(Divide))
    case '(' => Some(LParen)
    case ')' => Some(RParen)
    case '[' => Some(LSquareParen)
    case ']' => Some(RSquareParen)
    case '{' => Some(LBrace)
    case '}' => Some(RBrace)
    case ',' => Some(Comma)
    case _ => None
  }

  /** The character a backslash escape stands for inside a string literal. */
  function Unescape(c: char): char {
    match c
    case 'n' => '\n'
    case 't' => '\t'
    case 'r' => '\r'
    case '\\' => '\\'
    case '"' => '"'
    case other => other
  }

  /** A name, unless it is one of the two keywords. */
  function KeywordOrIdent(word: string): Token {
    if word == "for" then KeywordFor
    else if word == "in" then KeywordIn
    else Ident(word)
  }

  /** Where a comment that starts at `i` ends: at the next line feed, which is not part
      of it, or at the end of the text. */
  function CommentEnd(s: string, i: nat): (j: nat)
    requires i <= |s|
    ensures i <= j <= |s|
    ensures j == |s| || s[j] == '\n'
    decreases |s| - i
  {
    if i == |s| || s[i] == '\n' then i else CommentEnd(s, i + 1)
  }

  /** The body of a string literal whose text starts at `i`, just past the opening quote:
      the characters it stands for, and the index just past the closing quote (or the end
      of the text when the literal is not closed). */
  function StringBody(s: string, i: nat): (r: (string, nat))
    requires i <= |s|
    ensures i <= r.1 <= |s|
    decreases |s| - i
  {
    if i == |s| then ("", i)
    else if s[i] == '"' then ("", i + 1)
    else if s[i] == '\\' then
      if i + 1 == |s| then ("", i + 1)
      else
        var rest := StringBody(s, i + 2);
        ([Unescape(s[i + 1])] + rest.0, rest.1)
    else
      var rest := StringBody(s, i + 1);
      ([s[i]] + rest.0, rest.1)
  }

  /** Where the run of letters and digits that starts at `i` ends. */
  function IdentEnd(s: string, i: nat): (j: nat)
    requires i <= |s|
    ensures i <= j <= |s|
    ensures j == |s| || !IsAlphanumeric(s[j])
    decreases |s| - i
  {
    if i < |s| && IsAlphanumeric(s[i]) then IdentEnd(s, i + 1) else i
  }

  /** Where the rest of a number literal that starts at `i` ends, and whether the literal
      holds a `.`: digits, and one `.` when none has been seen yet. */
  function NumberEnd(s: string, i: nat, seenDot: bool): (r: (nat, bool))
    requires i <= |s|
    ensures i <= r.0 <= |s|
    ensures seenDot ==> r.1
    decreases |s| - i
  {
    if i < |s| && IsDigit(s[i]) then NumberEnd(s, i + 1, seenDot)
    else if i < |s| && s[i] == '.' && !seenDot then NumberEnd(s, i + 1, true)
    else (i, seenDot)
  }

  predicate AllDigits(d: string) {
    forall k :: 0 <= k < |d| ==> IsDigit(d[k])
  }

  function DigitValue(c: char): nat
    requires IsDigit(c)
  {
    c as int - '0' as int
  }

  /** The number a string of decimal digits denotes. */
  function DecimalValue(d: string): nat
    requires AllDigits(d)
  {
    if d == [] then 0 else 10 * DecimalValue(d[..|d| - 1]) + DigitValue(d[|d| - 1])
  }

  /** `str::parse::<i64>` on the text of a number literal: it fails when the text is
      empty, when it is not all digits or when its value does not fit in 64 signed bits. */
  function ParseI64(d: string): (r: Option<int>)
    ensures r.Some? <==> |d| > 0 && AllDigits(d) && DecimalValue(d) <= I64_MAX
    ensures r.Some? ==> r.value == DecimalValue(d) && InI64(r.value)
  {
    if |d| > 0 && AllDigits(d) && DecimalValue(d) <= I64_MAX then Some(DecimalValue(d)) else None
  }

  /** What the scanner does with the lexeme that starts at some index: emit a token or
      skip it, and go on at `next`. */
  datatype Lexeme = Emit(token: Token, next: nat) | Skip(next: nat)

  /** A number literal starting at `i`: a Float when it holds a `.`, otherwise an
      Integer, which is fatal when it does not fit in 64 signed bits. */
  function NumberLexeme(s: string, i: nat): (r: Result<Lexeme, LexError>)
    requires i < |s|
    ensures r.Ok? ==> i < r.value.next <= |s|
  {
    var scan := NumberEnd(s, i + 1, false);
    if scan.1 then Ok(Emit(Literal(Float), scan.0))
    else
      var parsed := ParseI64(s[i..scan.0]);
      if parsed.Some? then Ok(Emit(Literal(Integer(parsed.value)), scan.0))
      else Err(InvalidIntegerLiteral(s[i..scan.0]))
  }

  /** One turn of the scanner: the lexeme that starts with the character at `i`. */
  function Step(s: string, i: nat): (r: Result<Lexeme, LexError>)
    requires i < |s|
    ensures r.Ok? ==> i < r.value.next <= |s|
  {
    var c := s[i];
    if SingleCharToken(c).Some? then Ok(Emit(SingleCharToken(c).value, i + 1))
    else if c == '#' then Ok(Skip(CommentEnd(s, i + 1)))
    else if c == '"' then
      var body := StringBody(s, i + 1);
      Ok(Emit(Literal(String(body.0)), body.1))
    else if IsAlphabetic(c) then
      var j := IdentEnd(s, i + 1);
      Ok(Emit(KeywordOrIdent(s[i..j]), j))
    else if IsDigit(c) then NumberLexeme(s, i)
    else if IsWhitespace(c) then Ok(Skip(i + 1))
    else Err(UnexpectedCharacter(c))
  }

  /** `ts` in front of the tokens of a successful scan; an error stays an error. */
  function Prepend(ts: seq<Token>, r: Result<seq<Token>, LexError>): Result<seq<Token>, LexError> {
    match r
    case Ok(us) => Ok(ts + us)
    case Err(e) => Err(e)
  }

  /** The tokens of the text from index `i` on, in the order their lexemes appear, or the
      first lexical error. */
  function Lex(s: string, i: nat): Result<seq<Token>, LexError>
    requires i <= |s|
    decreases |s| - i
  {
    if i == |s| then Ok([])
    else
      match Step(s, i)
      case Err(e) => Err(e)
      case Ok(Skip(j)) => Lex(s, j)
      case Ok(Emit(tok, j)) => Prepend([tok], Lex(s, j))
  }

  /** A token the lexer can produce: never `Eol`, and a literal is an in-range Integer,
      a Float or a String. */
  predicate Emittable(tok: Token) {
    && tok != Eol
    && (tok.Literal? ==>
          || (tok.value.Integer? && InI64(tok.value.i))
          || tok.value.Float?
          || tok.value.String?)
  }

  /** Every token the lexer returns is one it can produce: in particular no `Eol`, and
      no Integer literal outside the 64-bit range. */
  lemma {:induction false} LexEmittable(s: string, i: nat)
    requires i <= |s|
    ensures Lex(s, i).Ok? ==> forall k :: 0 <= k < |Lex(s, i).value| ==> Emittable(Lex(s, i).value[k])
    decreases |s| - i
  {
    if i < |s| && Step(s, i).Ok? {
      LexEmittable(s, Step(s, i).value.next);
    }
  }

  lemma PrependAppend(ts: seq<Token>, tok: Token, r: Result<seq<Token>, LexError>)
    ensures Prepend(ts, Prepend([tok], r)) == Prepend(ts + [tok], r)
  {
    if r.Ok? {
      assert ts + ([tok] + r.value) == (ts + [tok]) + r.value;
    }
  }

  /** The comment loop of `tokenize`: skips to the next line feed without consuming it. */
  method SkipComment(source: string, i: nat) returns (j: nat)
    requires i <= |source|
    ensures j == CommentEnd(source, i)
  {
    j := i;
    while j < |source| && source[j] != '\n'
      invariant i <= j <= |source|
      invariant CommentEnd(source, j) == CommentEnd(source, i)
    {
      j := j + 1;
    }
  }

  /** What is left of a string literal's body from `j` on, when a backslash may be
      pending. */
  function ResumeBody(s: string, j: nat, escape: bool): (string, nat)
    requires j <= |s|
  {
    if !escape then StringBody(s, j)
    else if j == |s| then ("", j)
    else
      var rest := StringBody(s, j + 1);
      ([Unescape(s[j])] + rest.0, rest.1)
  }

  /** One character of a string literal's body: a backslash that is not escaped sets the
      flag, an unescaped quote ends the body, anything else is one more character. */
  lemma ResumeStep(s: string, j: nat, escape: bool)
    requires j < |s|
    ensures s[j] == '\\' && !escape ==> ResumeBody(s, j, escape) == ResumeBody(s, j + 1, true)
    ensures s[j] == '"' && !escape ==> ResumeBody(s, j, escape) == ("", j + 1)
    ensures (escape || (s[j] != '\\' && s[j] != '"')) ==>
      ResumeBody(s, j, escape)
        == ([if escape then Unescape(s[j]) else s[j]] + ResumeBody(s, j + 1, false).0, ResumeBody(s, j + 1, false).1)
  {
  }

  lemma AppendRegroup(buf: string, c: char, rest: string)
    ensures buf + ([c] + rest) == (buf + [c]) + rest
  {
  }

  /** The string-literal loop of `tokenize`, with its `escape` flag and its `tbuf`
      buffer; `i` is just past the opening quote. */
  method ScanString(source: string, i: nat) returns (tbuf: string, j: nat)
    requires i <= |source|
    ensures (tbuf, j) == StringBody(source, i)
  {
    tbuf := "";
    var escape := false;
    j := i;
    assert tbuf + StringBody(source, i).0 == StringBody(source, i).0;
    while j < |source|
      invariant i <= j <= |source|
      invariant StringBody(source, i) == (tbuf + ResumeBody(source, j, escape).0, ResumeBody(source, j, escape).1)
    {
      var next := source[j];
      ResumeStep(source, j, escape);
      j := j + 1;
      if next == '\\' && !escape {
        escape := true;
        continue;
      }
      if next == '"' && !escape {
        assert tbuf + "" == tbuf;
        break;
      }
      AppendRegroup(tbuf, if escape then Unescape(next) else next, ResumeBody(source, j, false).0);
      if escape {
        tbuf := tbuf + [Unescape(next)];
      } else {
        tbuf := tbuf + [next];
      }
      escape := false;
    }
    assert tbuf + "" == tbuf;
  }

  lemma SliceExtend(s: string, a: nat, j: nat)
    requires a <= j < |s|
    ensures s[a..j + 1] == s[a..j] + [s[j]]
  {
  }

  /** The identifier loop of `tokenize`: the word starting at `start`, a letter followed
      by the longest run of letters and digits, collected in `tbuf`. */
  method ScanIdentifier(source: string, start: nat) returns (tbuf: string, j: nat)
    requires start < |source|
    ensures j == IdentEnd(source, start + 1)
    ensures tbuf == source[start..j]
  {
    tbuf := [source[start]];
    j := start + 1;
    while j < |source| && IsAlphanumeric(source[j])
      invariant start < j <= |source|
      invariant tbuf == source[start..j]
      invariant IdentEnd(source, j) == IdentEnd(source, start + 1)
    {
      SliceExtend(source, start, j);
      tbuf := tbuf + [source[j]];
      j := j + 1;
    }
  }

  /** The number loop of `tokenize`: digits and at most one `.` after the first digit at
      `start`, collected in `tbuf`, with the `is_float` flag. */
  method ScanNumber(source: string, start: nat) returns (tbuf: string, j: nat, isFloat: bool)
    requires start < |source|
    ensures (j, isFloat) == NumberEnd(source, start + 1, false)
    ensures tbuf == source[start..j]
  {
    tbuf := [source[start]];
    j := start + 1;
    isFloat := false;
    while j < |source|
      invariant start < j <= |source|
      invariant tbuf == source[start..j]
      invariant NumberEnd(source, j, isFloat) == NumberEnd(source, start + 1, false)
    {
      SliceExtend(source, start, j);
      if IsDigit(source[j]) {
        tbuf := tbuf + [source[j]];
        j := j + 1;
      } else if source[j] == '.' && !isFloat {
        isFloat := true;
        tbuf := tbuf + [source[j]];
        j := j + 1;
      } else {
        break;
      }
    }
  }

  /** The body of the main loop of `tokenize`: dispatches on the character at `start` and
      scans the rest of its lexeme. */
  method ScanLexeme(source: string, start: nat) returns (r: Result<Lexeme, LexError>)
    requires start < |source|
    ensures r == Step(source, start)
  {
    var ch := source[start];
    var single := SingleCharToken(ch);
    if single.Some? {
      r := Ok(Emit(single.value, start + 1));
    } else if ch == '#' {
      var j := SkipComment(source, start + 1);
      r := Ok(Skip(j));
    } else if ch == '"' {
      var tbuf, j := ScanString(source, start + 1);
      r := Ok(Emit(Literal(String(tbuf)), j));
    } else if IsAlphabetic(ch) {
      var tbuf, j := ScanIdentifier(source, start);
      r := Ok(Emit(KeywordOrIdent(tbuf), j));
    } else if IsDigit(ch) {
      var tbuf, j, isFloat := ScanNumber(source, start);
      if isFloat {
        r := Ok(Emit(Literal(Float), j));
      } else {
        var parsed := ParseI64(tbuf);
        if parsed.None? {
          r := Err(InvalidIntegerLiteral(tbuf));
        } else {
          r := Ok(Emit(Literal(Integer(parsed.value)), j));
        }
      }
    } else if IsWhitespace(ch) {
      r := Ok(Skip(start + 1));
    } else {
      r := Err(UnexpectedCharacter(ch));
    }
  }

  /** `tokenize`: the main loop, one lexeme per turn, pushing each token in order. The
      source's `panic!`s are the `Err` results. */
  method Tokenize(source: string) returns (r: Result<seq<Token>, LexError>)
    ensures r == Lex(source, 0)
  {
    var tokens: seq<Token> := [];
    var i := 0;
    assert Lex(source, 0).Ok? ==> [] + Lex(source, 0).value == Lex(source, 0).value;
    while i < |source|
      invariant i <= |source|
      invariant Lex(source, 0) == Prepend(tokens, Lex(source, i))
      decreases |source| - i
    {
      var lexeme := ScanLexeme(source, i);
      match lexeme {
        case Err(e) =>
          return Err(e);
        case Ok(Skip(j)) =>
          i := j;
        case Ok(Emit(tok, j)) =>
          PrependAppend(tokens, tok, Lex(source, j));
          tokens := tokens + [tok];
          i := j;
      }
    }
    assert tokens + [] == tokens;
    return Ok(tokens);
  }
}
