/** What the lexer promises: punctuation maps one to one and in order, whitespace and
    comments vanish, string literals decode their escapes (and an escaped text reads back
    as itself), identifiers and numbers are maximal runs, and every other character is
    fatal. */
module TokenizerFacts {
  import opened Wrappers
  import opened Tokenizer

  /** `e` occurs in `s` at index `i`. */
  predicate At(s: string, i: nat, e: string) {
    i + |e| <= |s| && forall k :: 0 <= k < |e| ==> s[i + k] == e[k]
  }

  /** The tokens of a text made only of punctuation and whitespace, read character by
      character: the reference the lexer is compared with. */
  function PunctuationTokens(t: string): seq<Token>
    requires forall k :: 0 <= k < |t| ==> SingleCharToken(t[k]).Some? || IsWhitespace(t[k])
  {
    if t == [] then []
    else (if SingleCharToken(t[0]).Some? then [SingleCharToken(t[0]).value] else [])
         + PunctuationTokens(t[1..])
  }

  /** Each punctuation character yields exactly its token, whitespace yields none, and
      the tokens come out in the order of the characters. */
  lemma {:induction false} LexPunctuation(s: string, i: nat)
    requires i <= |s|
    requires forall k :: i <= k < |s| ==> SingleCharToken(s[k]).Some? || IsWhitespace(s[k])
    ensures Lex(s, i) == Ok(PunctuationTokens(s[i..]))
    decreases |s| - i
  {
    if i < |s| {
      LexPunctuation(s, i + 1);
      assert s[i..][1..] == s[i + 1..];
      if SingleCharToken(s[i]).None? {
        assert [] + PunctuationTokens(s[i + 1..]) == PunctuationTokens(s[i + 1..]);
      }
    }
  }

  /** Whitespace-only text has no tokens. */
  lemma {:induction false} LexWhitespace(s: string, i: nat)
    requires i <= |s|
    requires forall k :: i <= k < |s| ==> IsWhitespace(s[k])
    ensures Lex(s, i) == Ok([])
    decreases |s| - i
  {
    if i < |s| {
      LexWhitespace(s, i + 1);
    }
  }

  /** `1+2` gives an Integer, the Plus operator and an Integer, in that order. */
  lemma LexOnePlusTwo()
    ensures Lex("1+2", 0) == Ok([Literal(Integer(1)), Op(Plus), Literal(Integer(2))])
  {
    var s := "1+2";
    assert s[0..1] == "1" && s[2..3] == "2";
    assert DecimalValue("1") == 1 && DecimalValue("2") == 2 by {
      assert "1"[..0] == "" && "2"[..0] == "";
    }
    assert NumberEnd(s, 3, false) == (3, false);
    assert Step(s, 2) == Ok(Emit(Literal(Integer(2)), 3));
    assert [Literal(Integer(2))] + [] == [Literal(Integer(2))];
    assert Lex(s, 2) == Ok([Literal(Integer(2))]);
    assert Step(s, 1) == Ok(Emit(Op(Plus), 2));
    assert [Op(Plus)] + [Literal(Integer(2))] == [Op(Plus), Literal(Integer(2))];
    assert Lex(s, 1) == Ok([Op(Plus), Literal(Integer(2))]);
    assert NumberEnd(s, 1, false) == (1, false);
    assert Step(s, 0) == Ok(Emit(Literal(Integer(1)), 1));
    assert [Literal(Integer(1))] + [Op(Plus), Literal(Integer(2))]
        == [Literal(Integer(1)), Op(Plus), Literal(Integer(2))];
  }

  /** A comment that starts at `i` runs up to the first line feed at or after `i`. */
  lemma {:induction false} CommentEndAt(s: string, i: nat, j: nat)
    requires i <= j <= |s|
    requires forall k :: i <= k < j ==> s[k] != '\n'
    requires j == |s| || s[j] == '\n'
    ensures CommentEnd(s, i) == j
    decreases j - i
  {
    if i < j {
      CommentEndAt(s, i + 1, j);
    }
  }

  /** No line feed lies inside a comment. */
  lemma {:induction false} CommentHasNoNewline(s: string, i: nat)
    requires i <= |s|
    ensures forall k :: i <= k < CommentEnd(s, i) ==> s[k] != '\n'
    decreases |s| - i
  {
    if i < |s| && s[i] != '\n' {
      CommentHasNoNewline(s, i + 1);
    }
  }

  /** A comment runs to the end of its line, and the text of the next line is still
      read. */
  lemma LexCommentLine(s: string, i: nat, j: nat)
    requires i < j < |s| && s[i] == '#' && s[j] == '\n'
    requires forall k :: i < k < j ==> s[k] != '\n'
    ensures Lex(s, i) == Lex(s, j + 1)
  {
    CommentEndAt(s, i + 1, j);
    assert Lex(s, i) == Lex(s, j);
  }

  /** A comment that runs to the end of the text yields no tokens. */
  lemma LexCommentOnly(s: string, i: nat)
    requires i < |s| && s[i] == '#'
    requires forall k :: i < k < |s| ==> s[k] != '\n'
    ensures Lex(s, i) == Ok([])
  {
    CommentEndAt(s, i + 1, |s|);
  }

  /** A string literal with every escape: `"a\nb\t\r\\\"\q"`. */
  const EscapedSource: string := "\"a\\nb\\t\\r\\\\\\\"\\q\""

  /** The last four escapes of `EscapedSource`. */
  lemma EscapesTail()
    ensures StringBody(EscapedSource, 7) == ("\r\\\"q", 16)
  {
    var s := EscapedSource;
    assert StringBody(s, 15) == ("", 16);
    assert [Unescape('q')] + "" == "q";
    assert StringBody(s, 13) == ("q", 16);
    assert [Unescape('"')] + "q" == "\"q";
    assert StringBody(s, 11) == ("\"q", 16);
    assert [Unescape('\\')] + "\"q" == "\\\"q";
    assert StringBody(s, 9) == ("\\\"q", 16);
    assert [Unescape('r')] + "\\\"q" == "\r\\\"q";
  }

  /** The whole body of `EscapedSource`. */
  lemma EscapesBody()
    ensures StringBody(EscapedSource, 1) == ("a\nb\t\r\\\"q", 16)
  {
    var s := EscapedSource;
    EscapesTail();
    assert [Unescape('t')] + "\r\\\"q" == "\t\r\\\"q";
    assert StringBody(s, 5) == ("\t\r\\\"q", 16);
    assert ['b'] + "\t\r\\\"q" == "b\t\r\\\"q";
    assert StringBody(s, 4) == ("b\t\r\\\"q", 16);
    assert [Unescape('n')] + "b\t\r\\\"q" == "\nb\t\r\\\"q";
    assert StringBody(s, 2) == ("\nb\t\r\\\"q", 16);
    assert ['a'] + "\nb\t\r\\\"q" == "a\nb\t\r\\\"q";
  }

  /** The escapes of a string literal: `\n`, `\t`, `\r` stand for line feed, tab and
      carriage return, `\\` and `\"` for the backslash and the quote, and a backslash
      before any other character for that character. */
  lemma LexEscapes()
    ensures Lex(EscapedSource, 0) == Ok([Literal(String("a\nb\t\r\\\"q"))])
  {
    var s := EscapedSource;
    EscapesBody();
    var tok := Literal(String("a\nb\t\r\\\"q"));
    assert SingleCharToken(s[0]).None?;
    assert Step(s, 0) == Ok(Emit(tok, 16));
    assert Lex(s, 16) == Ok([]);
    assert [tok] + [] == [tok];
  }

  /** Writes a text as the body of a string literal, escaping backslashes and quotes. */
  function Escape(t: string): (e: string)
    ensures |e| >= |t|
  {
    if t == [] then ""
    else if t[0] == '\\' || t[0] == '"' then ['\\', t[0]] + Escape(t[1..])
    else [t[0]] + Escape(t[1..])
  }

  /** `t` as a string literal. */
  function Quote(t: string): string {
    "\"" + Escape(t) + "\""
  }

  /** An escaped text followed by a quote reads back as the text, and the body ends just
      past that quote. */
  lemma {:induction false} StringBodyOfEscape(s: string, i: nat, t: string)
    requires At(s, i, Escape(t) + "\"")
    ensures StringBody(s, i) == (t, i + |Escape(t)| + 1)
    decreases |t|
  {
    var e := Escape(t) + "\"";
    if t == [] {
      assert s[i] == e[0];
    } else {
      var e' := Escape(t[1..]) + "\"";
      assert [t[0]] + t[1..] == t;
      if t[0] == '\\' || t[0] == '"' {
        assert e == ['\\', t[0]] + e';
        assert s[i] == e[0] && s[i + 1] == e[1];
        assert At(s, i + 2, e') by {
          forall k | 0 <= k < |e'| ensures s[i + 2 + k] == e'[k] {
            assert s[i + (2 + k)] == e[2 + k];
          }
        }
      } else {
        assert e == [t[0]] + e';
        assert s[i] == e[0];
        assert At(s, i + 1, e') by {
          forall k | 0 <= k < |e'| ensures s[i + 1 + k] == e'[k] {
            assert s[i + (1 + k)] == e[1 + k];
          }
        }
      }
      StringBodyOfEscape(s, i + if t[0] == '\\' || t[0] == '"' then 2 else 1, t[1..]);
    }
  }

  /** Round trip: a quoted, escaped text reads back as one String literal holding exactly
      that text, and lexing goes on right after the closing quote. */
  lemma LexQuoted(t: string, rest: string)
    ensures Lex(Quote(t) + rest, 0) == Prepend([Literal(String(t))], Lex(Quote(t) + rest, |Quote(t)|))
  {
    var s := Quote(t) + rest;
    var e := Escape(t) + "\"";
    assert At(s, 1, e) by {
      forall k | 0 <= k < |e| ensures s[1 + k] == e[k] {
        assert s[1 + k] == Quote(t)[1 + k];
      }
    }
    StringBodyOfEscape(s, 1, t);
  }

  /** The escape flag of the string loop when it reaches `s[k]`, scanning from `i` with
      the flag clear: a backslash that is not itself escaped sets it for the next
      character only. */
  predicate EscapedAt(s: string, i: nat, k: nat)
    requires i <= k <= |s|
    decreases k - i
  {
    if i == k then false
    else if s[i] == '\\' then i + 1 == k || EscapedAt(s, i + 2, k)
    else EscapedAt(s, i + 1, k)
  }

  /** A string literal's body ends just past the first quote the escape flag does not
      cover, or at the end of the text when there is none: every quote before it is
      escaped, and the closing one is not. */
  lemma {:induction false} StringBodyEnds(s: string, i: nat)
    requires i <= |s|
    ensures var j := StringBody(s, i).1;
      (j == |s| || (i < j && s[j - 1] == '"' && !EscapedAt(s, i, j - 1)))
      && forall k :: i <= k < j - 1 && s[k] == '"' ==> EscapedAt(s, i, k)
    decreases |s| - i
  {
    if i < |s| && s[i] != '"' {
      var j := StringBody(s, i).1;
      if s[i] == '\\' {
        if i + 1 < |s| {
          StringBodyEnds(s, i + 2);
          forall k | i + 2 <= k <= |s| ensures EscapedAt(s, i, k) == EscapedAt(s, i + 2, k) {
          }
        }
      } else {
        StringBodyEnds(s, i + 1);
        forall k | i + 1 <= k <= |s| ensures EscapedAt(s, i, k) == EscapedAt(s, i + 1, k) {
        }
      }
    }
  }

  /** Plain characters stand for themselves, up to the end of the text. */
  lemma {:induction false} StringBodyPlain(s: string, i: nat)
    requires i <= |s|
    requires forall k :: i <= k < |s| ==> s[k] != '"' && s[k] != '\\'
    ensures StringBody(s, i) == (s[i..], |s|)
    decreases |s| - i
  {
    if i < |s| {
      StringBodyPlain(s, i + 1);
      assert s[i..] == [s[i]] + s[i + 1..];
    }
  }

  /** An unterminated string literal still yields its text, and it is the last token. */
  lemma LexUnterminatedString(s: string, i: nat)
    requires i < |s| && s[i] == '"'
    requires forall k :: i < k < |s| ==> s[k] != '"' && s[k] != '\\'
    ensures Lex(s, i) == Ok([Literal(String(s[i + 1..]))])
  {
    StringBodyPlain(s, i + 1);
    assert [Literal(String(s[i + 1..]))] + [] == [Literal(String(s[i + 1..]))];
  }

  /** Whatever follows an opening quote that finds no closing one belongs to the literal:
      the token stream ends with it. */
  lemma LexStringToEnd(s: string, i: nat)
    requires i < |s| && s[i] == '"' && StringBody(s, i + 1).1 == |s|
    ensures Lex(s, i) == Ok([Literal(String(StringBody(s, i + 1).0))])
  {
    var tok := Literal(String(StringBody(s, i + 1).0));
    assert [tok] + [] == [tok];
  }

  /** The run of letters and digits from `i` ends at the first other character. */
  lemma {:induction false} IdentEndAt(s: string, i: nat, j: nat)
    requires i <= j <= |s|
    requires forall k :: i <= k < j ==> IsAlphanumeric(s[k])
    requires j == |s| || !IsAlphanumeric(s[j])
    ensures IdentEnd(s, i) == j
    decreases j - i
  {
    if i < j {
      IdentEndAt(s, i + 1, j);
    }
  }

  /** An identifier is a letter followed by the longest run of letters and digits; it is
      a keyword token for `for` and `in`, and otherwise a name holding exactly its text. */
  lemma LexWord(s: string, i: nat, j: nat)
    requires i < j <= |s| && IsAlphabetic(s[i])
    requires forall k :: i < k < j ==> IsAlphanumeric(s[k])
    requires j == |s| || !IsAlphanumeric(s[j])
    ensures Lex(s, i) == Prepend([KeywordOrIdent(s[i..j])], Lex(s, j))
    ensures KeywordOrIdent(s[i..j]) ==
      if s[i..j] == "for" then KeywordFor else if s[i..j] == "in" then KeywordIn else Ident(s[i..j])
  {
    IdentEndAt(s, i + 1, j);
  }

  /** Digits do not end a number literal. */
  lemma {:induction false} NumberEndDigits(s: string, i: nat, j: nat, seenDot: bool)
    requires i <= j <= |s|
    requires forall k :: i <= k < j ==> IsDigit(s[k])
    ensures NumberEnd(s, i, seenDot) == NumberEnd(s, j, seenDot)
    decreases j - i
  {
    if i < j {
      NumberEndDigits(s, i + 1, j, seenDot);
    }
  }

  /** A run of digits without a `.` is an Integer literal with the decimal value of the
      digits, and it is fatal when that value does not fit in 64 signed bits. */
  lemma LexInteger(s: string, i: nat, j: nat)
    requires i < j <= |s|
    requires forall k :: i <= k < j ==> IsDigit(s[k])
    requires j == |s| || (!IsDigit(s[j]) && s[j] != '.')
    ensures AllDigits(s[i..j])
    ensures Lex(s, i) ==
      if DecimalValue(s[i..j]) <= I64_MAX then Prepend([Literal(Integer(DecimalValue(s[i..j])))], Lex(s, j))
      else Err(InvalidIntegerLiteral(s[i..j]))
  {
    NumberEndDigits(s, i + 1, j, false);
    assert forall k :: 0 <= k < j - i ==> s[i..j][k] == s[i + k];
  }

  /** Digits, one `.`, digits: a Float literal; what follows is lexed on its own. */
  lemma LexFloat(s: string, i: nat, d: nat, j: nat)
    requires i < d < j <= |s| && s[d] == '.'
    requires forall k :: i <= k < d ==> IsDigit(s[k])
    requires forall k :: d < k < j ==> IsDigit(s[k])
    requires j == |s| || !IsDigit(s[j])
    ensures Lex(s, i) == Prepend([Literal(Float)], Lex(s, j))
  {
    NumberEndDigits(s, i + 1, d, false);
    NumberEndDigits(s, d + 1, j, true);
  }

  /** A second `.` ends a number literal, and a `.` on its own is fatal. */
  lemma LexSecondDot(s: string, i: nat, d: nat, j: nat)
    requires i < d < j < |s| && s[d] == '.' && s[j] == '.'
    requires forall k :: i <= k < d ==> IsDigit(s[k])
    requires forall k :: d < k < j ==> IsDigit(s[k])
    ensures Lex(s, i) == Err(UnexpectedCharacter('.'))
  {
    LexFloat(s, i, d, j);
  }

  /** Any character outside the lexer's classes is fatal where it stands. */
  lemma LexUnexpected(s: string, i: nat)
    requires i < |s| && SingleCharToken(s[i]).None? && s[i] != '#' && s[i] != '"'
    requires !IsAlphanumeric(s[i]) && !IsWhitespace(s[i])
    ensures Lex(s, i) == Err(UnexpectedCharacter(s[i]))
  {
  }

  /** The facts about a number literal's extent: it is made of digits and `.`, only of
      digits when no `.` was seen, it is maximal, it holds at most one `.`, and the flag
      says whether it holds one. */
  lemma {:induction false} NumberEndShape(s: string, i: nat, seenDot: bool)
    requires i <= |s|
    ensures var r := NumberEnd(s, i, seenDot);
      && (forall k :: i <= k < r.0 ==> IsDigit(s[k]) || s[k] == '.')
      && (!r.1 ==> forall k :: i <= k < r.0 ==> IsDigit(s[k]))
      && (r.0 == |s| || !(IsDigit(s[r.0]) || (s[r.0] == '.' && !r.1)))
      && (seenDot ==> forall k :: i <= k < r.0 ==> s[k] != '.')
      && (forall k, m :: i <= k < m < r.0 && s[k] == '.' ==> s[m] != '.')
      && (r.1 <==> seenDot || exists k :: i <= k < r.0 && s[k] == '.')
    decreases |s| - i
  {
    if i < |s| && IsDigit(s[i]) {
      NumberEndShape(s, i + 1, seenDot);
    } else if i < |s| && s[i] == '.' && !seenDot {
      NumberEndShape(s, i + 1, true);
    }
  }
}
