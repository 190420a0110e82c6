/** The builtin functions of eerolang (program.rs): `split`, `len`, `readfile` and the text
    `print` writes. Each takes the evaluated argument list; a failed `assert_eq!`, a failed
    `let ... else` pattern or a failed file read is a `BuiltinError`. */
module Builtins {
  import opened Wrappers
  import opened Tokenizer

  datatype BuiltinError =
      /** `assert_eq!(args.len(), 1)` failed. */
    | WrongArgumentCount(name: string, count: nat)
      /** The arguments do not have the shape the builtin matches on. */
    | BadArguments(name: string)
      /** The file system has no file of that name. */
    | ReadFailed(filename: string)

  // ---------------------------------------------------------------- split and join

  /** `d` occurs in `s` at index `i`. */
  predicate OccursAt(s: string, i: nat, d: string) {
    i + |d| <= |s| && s[i..i + |d|] == d
  }

  /** The pieces of `s[start..]` when the search for the next `d` (non-empty) has reached
      `i`: the first occurrence at or after `i` ends the current piece. */
  function SplitFrom(s: string, d: string, start: nat, i: nat): (pieces: seq<string>)
    requires |d| > 0 && start <= i <= |s|
    ensures |pieces| >= 1
    decreases |s| - i
  {
    if i + |d| > |s| then [s[start..]]
    else if OccursAt(s, i, d) then [s[start..i]] + SplitFrom(s, d, i + |d|, i + |d|)
    else SplitFrom(s, d, start, i + 1)
  }

  /** Each character of `s` as a one-character string. */
  function Characters(s: string): (r: seq<string>)
    ensures |r| == |s|
  {
    if s == [] then [] else [[s[0]]] + Characters(s[1..])
  }

  /** `str::split` with a string pattern: the pieces between the non-overlapping
      occurrences of `d`, found left to right. The empty pattern matches at every character
      boundary, so the pieces are "", each character, and "". */
  function Split(s: string, d: string): (pieces: seq<string>)
    ensures |pieces| >= 1
  {
    if d == [] then [""] + Characters(s) + [""] else SplitFrom(s, d, 0, 0)
  }

  /** The pieces with `d` between each two. */
  function Join(pieces: seq<string>, d: string): string {
    if |pieces| == 0 then ""
    else if |pieces| == 1 then pieces[0]
    else pieces[0] + d + Join(pieces[1..], d)
  }

  // ---------------------------------------------------------------- len

  /** The number of bytes of the UTF-8 encoding of `c`. */
  function Utf8Width(c: char): (w: nat)
    ensures 1 <= w <= 4
  {
    if c as int < 0x80 then 1
    else if c as int < 0x800 then 2
    else if c as int < 0x1_0000 then 3
    else 4
  }

  /** `str::len`: the length in bytes of the UTF-8 encoding. */
  function Utf8Length(s: string): (n: nat)
    ensures |s| <= n <= 4 * |s|
  {
    if s == [] then 0 else Utf8Width(s[0]) + Utf8Length(s[1..])
  }

  /** `as i64` on a `usize`: the value modulo 2^64, read as a two's-complement number. */
  function AsI64(n: nat): (r: int)
    ensures InI64(r)
    ensures n <= I64_MAX ==> r == n
  {
    var m := n % 0x1_0000_0000_0000_0000;
    if m <= I64_MAX then m else m - 0x1_0000_0000_0000_0000
  }

  /** `builtin_len`. */
  function Len(args: seq<Value>): Result<Value, BuiltinError> {
    if |args| != 1 then Err(WrongArgumentCount("len", |args|))
    else
      match args[0]
      case String(s) => Ok(Integer(AsI64(Utf8Length(s))))
      case List(l) => Ok(Integer(AsI64(|l|)))
      case _ => Err(BadArguments("len"))
  }

  /** `builtin_split`. */
  function SplitBuiltin(args: seq<Value>): Result<Value, BuiltinError> {
    if |args| == 2 && args[0].String? && args[1].String? then
      Ok(List(StringValues(Split(args[0].s, args[1].s))))
    else Err(BadArguments("split"))
  }

  function StringValues(pieces: seq<string>): (r: seq<Value>)
    ensures |r| == |pieces|
  {
    if pieces == [] then [] else [String(pieces[0])] + StringValues(pieces[1..])
  }

  // ---------------------------------------------------------------- readfile

  /** The index of the first character of `s` from `i` on that is not whitespace. */
  function TrimStartFrom(s: string, i: nat): (j: nat)
    requires i <= |s|
    ensures i <= j <= |s| && (j == |s| || !IsWhitespace(s[j]))
    decreases |s| - i
  {
    if i < |s| && IsWhitespace(s[i]) then TrimStartFrom(s, i + 1) else i
  }

  /** The index just past the last character of `s[..j]` that is not whitespace. */
  function TrimEndFrom(s: string, j: nat): (k: nat)
    requires j <= |s|
    ensures k <= j && (k == 0 || !IsWhitespace(s[k - 1]))
  {
    if j > 0 && IsWhitespace(s[j - 1]) then TrimEndFrom(s, j - 1) else j
  }

  /** `str::trim`: `s` without its leading and trailing whitespace. */
  function Trim(s: string): string {
    var i := TrimStartFrom(s, 0);
    var k := TrimEndFrom(s, |s|);
    if k <= i then "" else s[i..k]
  }

  /** `builtin_readfile`, with `files` standing for the file system. */
  function ReadFile(args: seq<Value>, files: map<string, string>): Result<Value, BuiltinError> {
    if |args| != 1 then Err(WrongArgumentCount("readfile", |args|))
    else if !args[0].String? then Err(BadArguments("readfile"))
    else if args[0].s !in files then Err(ReadFailed(args[0].s))
    else Ok(String(Trim(files[args[0].s])))
  }

  // ---------------------------------------------------------------- print

  function DigitChar(n: nat): (c: char)
    requires n < 10
    ensures IsDigit(c) && DigitValue(c) == n
  {
    "0123456789"[n]
  }

  /** The decimal digits of `n`, most significant first, without leading zeros. */
  function NatToString(n: nat): (d: string)
    ensures |d| >= 1
    decreases n
  {
    if n < 10 then [DigitChar(n)] else NatToString(n / 10) + [DigitChar(n % 10)]
  }

  /** `{}` of an `i64`: a `-` before the digits of a negative number. */
  function IntToString(n: int): string {
    if n < 0 then "-" + NatToString(-n) else NatToString(n)
  }

  /** The text that stands for a float; float formatting is not modelled. */
  const FloatText: string := "<float>"

  /** How a list element is written. */
  function RenderElement(v: Value): string {
    match v
    case Integer(i) => IntToString(i)
    case Float => FloatText
    case String(s) => "\"" + s + "\""
    case List(_) => "<nested list>"
  }

  function RenderElements(l: seq<Value>): (r: seq<string>)
    ensures |r| == |l|
  {
    if l == [] then [] else [RenderElement(l[0])] + RenderElements(l[1..])
  }

  /** How an argument is written: a list as `[a, b]`, anything else as a list element. */
  function RenderArgument(v: Value): string {
    match v
    case List(l) => "[" + Join(RenderElements(l), ", ") + "]"
    case _ => RenderElement(v)
  }

  function RenderArguments(args: seq<Value>): (r: seq<string>)
    ensures |r| == |args|
  {
    if args == [] then [] else [RenderArgument(args[0])] + RenderArguments(args[1..])
  }

  /** What `builtin_print` writes: the arguments separated by single spaces, then a
      newline. */
  function Render(args: seq<Value>): string {
    Join(RenderArguments(args), " ") + "\n"
  }

  // ---------------------------------------------------------------- dispatch

  /** The names in the builtin table of `Program::new`. */
  const BuiltinNames: set<string> := {"print", "readfile", "split", "len"}

  /** What a builtin writes, and what it returns: `print` returns no value, the others a
      value or an error. */
  datatype BuiltinOutcome = BuiltinOutcome(output: string, result: Result<Option<Value>, BuiltinError>)

  /** Calling the builtin `name` on the evaluated arguments. */
  function CallBuiltin(name: string, args: seq<Value>, files: map<string, string>): (r: BuiltinOutcome)
    requires name in BuiltinNames
    ensures name != "print" ==> r.output == ""
    ensures name == "print" <==> r.result == Ok(None)
  {
    if name == "print" then BuiltinOutcome(Render(args), Ok(None))
    else
      var result :=
        if name == "readfile" then ReadFile(args, files)
        else if name == "split" then SplitBuiltin(args)
        else Len(args);
      BuiltinOutcome("", match result case Ok(v) => Ok(Some(v)) case Err(e) => Err(e))
  }
}
