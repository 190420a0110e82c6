/** Properties of the eerolang builtins: `split` and joining are inverse, and no piece holds
    the delimiter; `len` counts bytes or elements; `print` writes integers in the decimal
    notation the lexer reads back. */
module BuiltinsFacts {
  import opened Wrappers
  import opened Tokenizer
  import opened Builtins

  /** Joining a piece in front of a non-empty list of pieces. */
  lemma JoinCons(x: string, rest: seq<string>, d: string)
    requires |rest| >= 1
    ensures Join([x] + rest, d) == x + d + Join(rest, d)
  {
    assert ([x] + rest)[1..] == rest;
  }

  lemma SliceConcat(s: string, a: nat, b: nat)
    requires a <= b <= |s|
    ensures s[a..] == s[a..b] + s[b..]
  {
  }

  /** The text around an occurrence of `d` at `i`. */
  lemma SliceAround(s: string, start: nat, i: nat, d: string)
    requires start <= i && OccursAt(s, i, d)
    ensures s[start..] == s[start..i] + d + s[i + |d|..]
  {
    SliceConcat(s, start, i);
    SliceConcat(s, i, i + |d|);
  }

  /** The step of `SplitFromJoin` at an occurrence of `d`. */
  lemma JoinAtOccurrence(s: string, d: string, start: nat, i: nat)
    requires |d| > 0 && start <= i && OccursAt(s, i, d)
    requires Join(SplitFrom(s, d, i + |d|, i + |d|), d) == s[i + |d|..]
    ensures Join(SplitFrom(s, d, start, i), d) == s[start..]
  {
    var rest := SplitFrom(s, d, i + |d|, i + |d|);
    assert SplitFrom(s, d, start, i) == [s[start..i]] + rest;
    JoinCons(s[start..i], rest, d);
    SliceAround(s, start, i, d);
  }

  lemma {:induction false} SplitFromJoin(s: string, d: string, start: nat, i: nat)
    requires |d| > 0 && start <= i <= |s|
    ensures Join(SplitFrom(s, d, start, i), d) == s[start..]
    decreases |s| - i
  {
    if i + |d| > |s| {
    } else if OccursAt(s, i, d) {
      SplitFromJoin(s, d, i + |d|, i + |d|);
      JoinAtOccurrence(s, d, start, i);
    } else {
      SplitFromJoin(s, d, start, i + 1);
    }
  }

  lemma {:induction false} CharactersJoin(p: string, s: string)
    ensures Join([p] + Characters(s) + [""], "") == p + s
    decreases |s|
  {
    if s == [] {
      assert [p] + Characters(s) + [""] == [p, ""];
    } else {
      CharactersJoin([s[0]], s[1..]);
      assert [p] + Characters(s) + [""] == [p] + ([[s[0]]] + Characters(s[1..]) + [""]);
      JoinCons(p, [[s[0]]] + Characters(s[1..]) + [""], "");
      assert s == [s[0]] + s[1..];
    }
  }

  /** Joining the pieces of `split(s, d)` with `d` gives back `s`, for every delimiter. */
  lemma SplitJoin(s: string, d: string)
    ensures Join(Split(s, d), d) == s
  {
    if d == [] {
      CharactersJoin("", s);
    } else {
      SplitFromJoin(s, d, 0, 0);
    }
  }

  /** `t` holds an occurrence of `d`. */
  ghost predicate Contains(t: string, d: string) {
    exists j: nat :: OccursAt(t, j, d)
  }

  /** An occurrence in a piece of `s` is an occurrence in `s`. */
  lemma OccursInSlice(s: string, start: nat, end: nat, j: nat, d: string)
    requires start <= end <= |s| && OccursAt(s[start..end], j, d)
    ensures OccursAt(s, start + j, d) && start + j + |d| <= end
  {
    forall k | 0 <= k < |d|
      ensures s[start + j + k] == d[k]
    {
      assert s[start..end][j..j + |d|][k] == d[k];
    }
    assert s[start + j..start + j + |d|] == d;
  }

  /** No occurrence of `d` starts in `s[start..end]` before `end - |d| + 1`. */
  ghost predicate FreeOf(s: string, d: string, start: nat, end: nat) {
    forall k: nat :: start <= k && k + |d| <= end ==> !OccursAt(s, k, d)
  }

  lemma PieceFree(s: string, d: string, start: nat, end: nat)
    requires start <= end <= |s| && FreeOf(s, d, start, end)
    ensures !Contains(s[start..end], d)
  {
    if Contains(s[start..end], d) {
      var j: nat :| OccursAt(s[start..end], j, d);
      OccursInSlice(s, start, end, j, d);
      assert false;
    }
  }

  lemma {:induction false} SplitFromFree(s: string, d: string, start: nat, i: nat)
    requires |d| > 0 && start <= i <= |s|
    requires forall k: nat :: start <= k < i ==> !OccursAt(s, k, d)
    ensures forall k :: 0 <= k < |SplitFrom(s, d, start, i)| ==> !Contains(SplitFrom(s, d, start, i)[k], d)
    decreases |s| - i
  {
    if i + |d| > |s| {
      PieceFree(s, d, start, |s|);
      assert s[start..|s|] == s[start..];
    } else if OccursAt(s, i, d) {
      PieceFree(s, d, start, i);
      SplitFromFree(s, d, i + |d|, i + |d|);
    } else {
      SplitFromFree(s, d, start, i + 1);
    }
  }

  /** With a non-empty delimiter no piece of `split` holds the delimiter, so together with
      `SplitJoin` the pieces are exactly the text between the occurrences of `d`. */
  lemma SplitPiecesFree(s: string, d: string)
    requires |d| > 0
    ensures forall k :: 0 <= k < |Split(s, d)| ==> !Contains(Split(s, d)[k], d)
  {
    SplitFromFree(s, d, 0, 0);
  }

  /** A one-character delimiter occurs where that character is. */
  lemma OccursChar(s: string, i: nat, c: char)
    ensures OccursAt(s, i, [c]) <==> i < |s| && s[i] == c
  {
    if i < |s| {
      assert s[i..i + 1] == [s[i]];
    }
  }

  /** `split("a,b,,c", ",")` is `["a", "b", "", "c"]`. */
  lemma SplitExample()
    ensures Split("a,b,,c", ",") == ["a", "b", "", "c"]
  {
    var s := "a,b,,c";
    OccursChar(s, 0, ','); OccursChar(s, 1, ','); OccursChar(s, 2, ',');
    OccursChar(s, 3, ','); OccursChar(s, 4, ','); OccursChar(s, 5, ',');
    assert SplitFrom(s, ",", 5, 5) == ["c"] by {
      assert SplitFrom(s, ",", 5, 6) == [s[5..]];
    }
    assert SplitFrom(s, ",", 4, 4) == ["", "c"] by {
      assert SplitFrom(s, ",", 4, 4) == [s[4..4]] + SplitFrom(s, ",", 5, 5);
      assert s[4..4] == "";
    }
    assert SplitFrom(s, ",", 2, 2) == ["b", "", "c"] by {
      assert SplitFrom(s, ",", 2, 3) == [s[2..3]] + SplitFrom(s, ",", 4, 4);
      assert s[2..3] == "b";
    }
    assert SplitFrom(s, ",", 0, 0) == ["a", "b", "", "c"] by {
      assert SplitFrom(s, ",", 0, 1) == [s[0..1]] + SplitFrom(s, ",", 2, 2);
      assert s[0..1] == "a";
    }
  }

  lemma {:induction false} CharactersAt(s: string)
    ensures forall k :: 0 <= k < |s| ==> Characters(s)[k] == [s[k]]
  {
    if s != [] {
      CharactersAt(s[1..]);
    }
  }

  /** With the empty delimiter, every character is a piece of its own, between two empty
      pieces. */
  lemma SplitEmptyDelimiter(s: string)
    ensures var p := Split(s, "");
      |p| == |s| + 2 && p[0] == "" && p[|s| + 1] == ""
      && forall k :: 0 <= k < |s| ==> p[k + 1] == [s[k]]
  {
    CharactersAt(s);
  }

  /** `split` of the empty delimiter puts every character in a piece of its own. */
  lemma SplitEmptyExample()
    ensures Split("ab", "") == ["", "a", "b", ""]
  {
    assert Characters("ab") == ["a"] + Characters("b");
    assert Characters("b") == ["b"] + Characters("");
  }

  /** Text of ASCII characters takes one byte per character. */
  lemma {:induction false} AsciiLength(s: string)
    requires forall k :: 0 <= k < |s| ==> s[k] as int < 0x80
    ensures Utf8Length(s) == |s|
  {
    if s != [] {
      AsciiLength(s[1..]);
    }
  }

  /** `len` of a string counts its UTF-8 bytes and `len` of a list its elements; it aborts
      for any other value and for any number of arguments but one. */
  lemma LenCases(args: seq<Value>)
    ensures |args| == 1 && args[0].String? && Utf8Length(args[0].s) <= I64_MAX ==>
            Len(args) == Ok(Integer(Utf8Length(args[0].s)))
    ensures |args| == 1 && args[0].List? && |args[0].items| <= I64_MAX ==>
            Len(args) == Ok(Integer(|args[0].items|))
    ensures Len(args).Ok? <==> |args| == 1 && (args[0].String? || args[0].List?)
    ensures |args| != 1 ==> Len(args) == Err(WrongArgumentCount("len", |args|))
  {
  }

  /** `len("héllo")` is 6: `é` takes two bytes. */
  lemma LenCountsBytes()
    ensures Len([String("héllo")]) == Ok(Integer(6))
  {
    var s := "héllo";
    assert Utf8Length(s[4..]) == 1;
    assert Utf8Length(s[3..]) == 2;
    assert Utf8Length(s[2..]) == 3;
    assert Utf8Length(s[1..]) == 5;
  }

  /** What `print` writes for a non-negative integer reads back, through the lexer's
      decimal reading, as that integer. */
  lemma {:induction false} DecimalRoundTrip(n: nat)
    ensures AllDigits(NatToString(n)) && DecimalValue(NatToString(n)) == n
    decreases n
  {
    var d := NatToString(n);
    if n >= 10 {
      DecimalRoundTrip(n / 10);
      assert d[..|d| - 1] == NatToString(n / 10);
      assert d[|d| - 1] == DigitChar(n % 10);
    }
  }

  /** The digits of a number have no leading zero. */
  lemma {:induction false} NoLeadingZero(n: nat)
    ensures NatToString(n)[0] == '0' <==> n == 0
    decreases n
  {
    if n >= 10 {
      NoLeadingZero(n / 10);
    }
  }

  lemma RenderElementsCons(v: Value, rest: seq<Value>)
    ensures RenderElements([v] + rest) == [RenderElement(v)] + RenderElements(rest)
  {
    assert ([v] + rest)[1..] == rest;
  }

  lemma RenderArgumentsCons(v: Value, rest: seq<Value>)
    ensures RenderArguments([v] + rest) == [RenderArgument(v)] + RenderArguments(rest)
  {
    assert ([v] + rest)[1..] == rest;
  }

  /** `print(1, "x", [1,2])` writes `1 "x" [1, 2]` and a newline. */
  lemma RenderExample()
    ensures Render([Integer(1), String("x"), List([Integer(1), Integer(2)])]) == "1 \"x\" [1, 2]\n"
  {
    assert IntToString(1) == "1" && IntToString(2) == "2";
    RenderElementsCons(Integer(2), []);
    RenderElementsCons(Integer(1), [Integer(2)]);
    assert [Integer(1)] + [Integer(2)] == [Integer(1), Integer(2)];
    JoinCons("1", ["2"], ", ");
    assert RenderArgument(List([Integer(1), Integer(2)])) == "[1, 2]";
    RenderArgumentsCons(List([Integer(1), Integer(2)]), []);
    RenderArgumentsCons(String("x"), [List([Integer(1), Integer(2)])]);
    RenderArgumentsCons(Integer(1), [String("x"), List([Integer(1), Integer(2)])]);
    assert [Integer(1)] + [String("x"), List([Integer(1), Integer(2)])]
        == [Integer(1), String("x"), List([Integer(1), Integer(2)])];
    JoinCons("\"x\"", ["[1, 2]"], " ");
    JoinCons("1", ["\"x\"", "[1, 2]"], " ");
  }

  /** `print()` writes just a newline. */
  lemma RenderNothing()
    ensures Render([]) == "\n"
  {
  }

  lemma NestedElements()
    ensures RenderElements([Integer(-5), List([])]) == ["-5", "<nested list>"]
  {
    assert RenderElement(Integer(-5)) == "-5" by {
      assert NatToString(5) == "5";
    }
    RenderElementsCons(List([]), []);
    RenderElementsCons(Integer(-5), [List([])]);
    assert [Integer(-5)] + [List([])] == [Integer(-5), List([])];
  }

  lemma NestedJoin()
    ensures Join(["-5", "<nested list>"], ", ") == "-5, <nested list>"
  {
    JoinCons("-5", ["<nested list>"], ", ");
  }

  /** `print([-5, []])`: the inner list is written as a marker. */
  lemma RenderNestedExample()
    ensures Render([List([Integer(-5), List([])])]) == "[-5, <nested list>]\n"
  {
    NestedElements();
    NestedJoin();
    RenderArgumentsCons(List([Integer(-5), List([])]), []);
  }

  lemma {:induction false} RenderElementsAt(l: seq<Value>)
    ensures forall k :: 0 <= k < |l| ==> RenderElements(l)[k] == RenderElement(l[k])
  {
    if l != [] {
      RenderElementsAt(l[1..]);
    }
  }

  /** A single argument is written, then the line feed. */
  lemma RenderSingle(v: Value)
    ensures Render([v]) == RenderArgument(v) + "\n"
  {
    assert RenderArguments([v]) == [RenderArgument(v)] by {
      RenderArgumentsCons(v, []);
      assert [v] + [] == [v];
    }
  }

  /** A list argument is written as its elements between brackets, separated by a comma
      and a space, and a list inside it is written as a marker. */
  lemma RenderNested(l: seq<Value>)
    ensures Render([List(l)]) == "[" + Join(RenderElements(l), ", ") + "]\n"
    ensures forall k :: 0 <= k < |l| && l[k].List? ==> RenderElements(l)[k] == "<nested list>"
  {
    RenderElementsAt(l);
    RenderSingle(List(l));
    var j := Join(RenderElements(l), ", ");
    assert ("[" + j + "]") + "\n" == "[" + j + "]\n";
  }

  /** Arguments are separated by exactly one space: the first argument, a space, then
      what the rest would write. */
  lemma RenderCons(v: Value, rest: seq<Value>)
    requires rest != []
    ensures Render([v] + rest) == RenderArgument(v) + " " + Render(rest)
  {
    RenderArgumentsCons(v, rest);
    JoinCons(RenderArgument(v), RenderArguments(rest), " ");
  }

  /** The last character of an argument's text is neither a space nor a line feed. */
  predicate EndsInText(t: string) {
    |t| > 0 && t[|t| - 1] != ' ' && t[|t| - 1] != '\n'
  }

  lemma ArgumentEndsInText(v: Value)
    ensures EndsInText(RenderArgument(v))
  {
    match v
    case Integer(i) =>
      var n := if i < 0 then -i else i;
      var d := NatToString(n);
      assert d[|d| - 1] == DigitChar(n % 10);
      assert IntToString(i)[|IntToString(i)| - 1] == d[|d| - 1];
    case _ =>
  }

  lemma {:induction false} JoinEndsInText(ps: seq<string>, d: string)
    requires |ps| > 0 && EndsInText(ps[|ps| - 1])
    ensures EndsInText(Join(ps, d))
  {
    if |ps| > 1 {
      JoinEndsInText(ps[1..], d);
    }
  }

  lemma {:induction false} ArgumentsEndInText(args: seq<Value>)
    requires args != []
    ensures EndsInText(RenderArguments(args)[|args| - 1])
  {
    if |args| > 1 {
      ArgumentsEndInText(args[1..]);
    } else {
      ArgumentEndsInText(args[0]);
    }
  }

  /** `print` ends what it writes with exactly one line feed, with no space before it;
      only `print()` writes nothing else. */
  lemma RenderEnds(args: seq<Value>)
    ensures var r := Render(args);
      |r| >= 1 && r[|r| - 1] == '\n' && (|r| == 1 <==> args == [])
      && (args != [] ==> r[|r| - 2] != '\n' && r[|r| - 2] != ' ')
  {
    if args != [] {
      ArgumentsEndInText(args);
      JoinEndsInText(RenderArguments(args), " ");
    }
  }

  /** `trim` leaves no whitespace at either end. */
  lemma TrimEnds(s: string)
    ensures var t := Trim(s); t == [] || (!IsWhitespace(t[0]) && !IsWhitespace(t[|t| - 1]))
  {
  }
}
